/** `parse_todotext`: splitting a task description into its free text and its
    `+project`, `@context` and `key:value` tokens, and the rendering those
    tokens get back when a task is written out. */
module Tokens {
  import opened Wrappers
  import opened Text

  /** What one `findall` plus `subn("", ...)` pair yields: the matches in order
      and the text with every match cut out. */
  datatype Scan<T> = Scan(found: seq<T>, rest: string)

  /** A character matched by `[^ :]`. */
  predicate IsAtomChar(c: char) {
    c != ' ' && c != ':'
  }

  predicate IsAtom(s: string) {
    s != [] && forall k :: 0 <= k < |s| ==> IsAtomChar(s[k])
  }

  /** Length of the leading run of characters matched by `[^ :]`. */
  function AtomLen(s: string): (n: nat)
    ensures n <= |s|
    ensures forall k :: 0 <= k < n ==> IsAtomChar(s[k])
    ensures n == |s| || !IsAtomChar(s[n])
  {
    if s == [] || !IsAtomChar(s[0]) then 0 else 1 + AtomLen(s[1..])
  }

  /** A project (sigil `+`) or context (sigil `@`) as stored: the sigil and at
      least one further character, no space. */
  predicate IsToken(t: string, sigil: char) {
    |t| >= 2 && t[0] == sigil && ' ' !in t
  }

  /** The regex ` \+[^ ]+` (or ` \@[^ ]+`) matches at the start of `s`. */
  predicate SigilAt(s: string, sigil: char) {
    |s| >= 3 && s[0] == ' ' && s[1] == sigil && s[2] != ' '
  }

  /** `findall` and `subn("", ...)` with ` \+[^ ]+` or ` \@[^ ]+`, scanning left
      to right and resuming after each match; each found match has its leading
      space removed (`lstrip(" ")`). */
  function ScanSigil(s: string, sigil: char): (r: Scan<string>)
    requires sigil != ' '
    ensures |r.rest| <= |s|
    decreases |s|
  {
    if s == [] then Scan([], [])
    else if SigilAt(s, sigil) then
      var n := 1 + RunBefore(s[1..], ' ');
      var tail := ScanSigil(s[n..], sigil);
      Scan([s[1..n]] + tail.found, tail.rest)
    else
      var tail := ScanSigil(s[1..], sigil);
      Scan(tail.found, [s[0]] + tail.rest)
  }

  /** `findall` and `subn("", ...)` with `([^ :]+):([^ :]+)`.  Group 1 is the
      whole run of `[^ :]` characters from the scan position (a shorter group
      would have to be followed by a `:` inside that run), so a match starts
      wherever such a run is followed by `:` and a non-empty run. */
  function ScanAddons(s: string): (r: Scan<(string, string)>)
    ensures |r.rest| <= |s|
    decreases |s|
  {
    if s == [] then Scan([], [])
    else
      var k := AtomLen(s);
      if 0 < k < |s| && s[k] == ':' && AtomLen(s[k + 1..]) > 0 then
        var m := k + 1 + AtomLen(s[k + 1..]);
        var tail := ScanAddons(s[m..]);
        Scan([(s[..k], s[k + 1..m])] + tail.found, tail.rest)
      else
        var tail := ScanAddons(s[1..]);
        Scan(tail.found, [s[0]] + tail.rest)
  }

  /** Every match of the project (context) regex is a project (context) token. */
  lemma {:induction false} ScanSigilTokens(s: string, sigil: char)
    requires sigil != ' '
    ensures forall t :: t in ScanSigil(s, sigil).found ==> IsToken(t, sigil)
    decreases |s|
  {
    if s == [] {
    } else if SigilAt(s, sigil) {
      var n := 1 + RunBefore(s[1..], ' ');
      ScanSigilTokens(s[n..], sigil);
      var t := s[1..n];
      assert forall k :: 0 <= k < |t| ==> t[k] == s[1..][k];
    } else {
      ScanSigilTokens(s[1..], sigil);
    }
  }

  /** Every match of the addon regex pairs two runs of `[^ :]`. */
  lemma {:induction false} ScanAddonsAtoms(s: string)
    ensures forall kv :: kv in ScanAddons(s).found ==> IsAtom(kv.0) && IsAtom(kv.1)
    decreases |s|
  {
    if s != [] {
      var k := AtomLen(s);
      if 0 < k < |s| && s[k] == ':' && AtomLen(s[k + 1..]) > 0 {
        var m := k + 1 + AtomLen(s[k + 1..]);
        ScanAddonsAtoms(s[m..]);
        var v := s[k + 1..m];
        assert forall j :: 0 <= j < |v| ==> v[j] == s[k + 1..][j];
      } else {
        ScanAddonsAtoms(s[1..]);
      }
    }
  }

  /** A Python dict with string keys: (key, value) pairs in insertion order. */
  type OrderedMap<V> = seq<(string, V)>

  predicate DistinctKeys<V>(m: OrderedMap<V>) {
    forall i, j :: 0 <= i < j < |m| ==> m[i].0 != m[j].0
  }

  /** `d.get(key)`. */
  function Lookup<V>(m: OrderedMap<V>, key: string): (r: Option<V>)
    ensures r.None? <==> forall k :: 0 <= k < |m| ==> m[k].0 != key
    ensures r.Some? ==> exists k :: 0 <= k < |m| && m[k] == (key, r.value)
  {
    if m == [] then None
    else if m[0].0 == key then Some(m[0].1)
    else Lookup(m[1..], key)
  }

  /** `d[key] = value`: a key already present keeps its position and gets the
      new value, a new key is added last. */
  function Put<V>(m: OrderedMap<V>, key: string, value: V): (r: OrderedMap<V>)
    ensures Lookup(r, key) == Some(value)
    ensures forall other :: other != key ==> Lookup(r, other) == Lookup(m, other)
    ensures Lookup(m, key).None? ==> r == m + [(key, value)]
    ensures |r| == if Lookup(m, key).None? then |m| + 1 else |m|
  {
    if m == [] then [(key, value)]
    else if m[0].0 == key then [(key, value)] + m[1..]
    else [m[0]] + Put(m[1..], key, value)
  }

  /** `d[key] = value` moves no key. */
  lemma {:induction false} PutPositions<V>(m: OrderedMap<V>, key: string, value: V)
    ensures forall k :: 0 <= k < |m| ==> Put(m, key, value)[k].0 == m[k].0
    decreases |m|
  {
    var r := Put(m, key, value);
    if m != [] && m[0].0 != key {
      var rest := Put(m[1..], key, value);
      PutPositions(m[1..], key, value);
      assert r == [m[0]] + rest;
      assert forall k :: 0 < k < |m| ==> r[k] == rest[k - 1] && m[1..][k - 1] == m[k];
    } else if m != [] {
      assert forall k :: 0 < k < |m| ==> r[k] == m[k];
    }
  }

  /** `d[key] = value` keeps the keys distinct. */
  lemma PutDistinct<V>(m: OrderedMap<V>, key: string, value: V)
    ensures DistinctKeys(m) ==> DistinctKeys(Put(m, key, value))
  {
    PutPositions(m, key, value);
    var r := Put(m, key, value);
    if DistinctKeys(m) {
      forall i, j | 0 <= i < j < |r|
        ensures r[i].0 != r[j].0
      {
        if j == |m| {
          assert r[j] == (key, value);
          assert m[i].0 != key;
        }
      }
    }
  }

  /** The loop `for a in pairs: d[a[0]] = a[1]`, values kept as present (`Some`). */
  function PutAll(m: OrderedMap<Option<string>>, pairs: seq<(string, string)>): (r: OrderedMap<Option<string>>)
    ensures DistinctKeys(m) ==> DistinctKeys(r)
    decreases |pairs|
  {
    if pairs == [] then m
    else
      PutDistinct(m, pairs[0].0, Some(pairs[0].1));
      PutAll(Put(m, pairs[0].0, Some(pairs[0].1)), pairs[1..])
  }

  /** The result of `parse_todotext`: `(text, projects, contexts, addons)`. */
  datatype Tokens = Tokens(text: string, projects: seq<string>, contexts: seq<string>,
                           addons: OrderedMap<Option<string>>)

  /** `parse_todotext`: every token class is looked for in the ORIGINAL text, but
      cut out in sequence (projects, then contexts, then addons), after which
      the text is stripped. */
  function Tokenize(s: string): (r: Tokens)
    ensures forall p :: p in r.projects ==> IsToken(p, '+')
    ensures forall c :: c in r.contexts ==> IsToken(c, '@')
    ensures DistinctKeys(r.addons)
    ensures r.text == [] || (!IsSpace(r.text[0]) && !IsSpace(r.text[|r.text| - 1]))
  {
    ScanSigilTokens(s, '+');
    ScanSigilTokens(s, '@');
    var projects := ScanSigil(s, '+');
    var contexts := ScanSigil(s, '@');
    var addons := ScanAddons(s);
    var withoutProjects := projects.rest;
    var withoutContexts := ScanSigil(withoutProjects, '@').rest;
    var withoutAddons := ScanAddons(withoutContexts).rest;
    Tokens(Trim(withoutAddons), projects.found, contexts.found, PutAll([], addons.found))
  }

  // ---------------------------------------------------------------------------
  // Rendering, as `Todo.__str__` appends the tokens after the text.

  /** Each item prefixed by one space, concatenated. */
  function Spaced(items: seq<string>): string {
    if items == [] then [] else " " + items[0] + Spaced(items[1..])
  }

  /** `k + ":" + v` for each addon, in dict order. */
  function AddonWords(m: OrderedMap<string>): seq<string> {
    if m == [] then [] else [m[0].0 + ":" + m[0].1] + AddonWords(m[1..])
  }

  /** The addons with every value present, as `parse_todotext` stores them. */
  function Present(m: OrderedMap<string>): OrderedMap<Option<string>> {
    if m == [] then [] else [(m[0].0, Some(m[0].1))] + Present(m[1..])
  }

  /** No value is Python's `None`. */
  predicate AllPresent(m: OrderedMap<Option<string>>) {
    forall k :: 0 <= k < |m| ==> m[k].1.Some?
  }

  /** A dict whose values are all present maps no key to `None`. */
  lemma PresentLookup(m: OrderedMap<Option<string>>, key: string)
    requires AllPresent(m)
    ensures Lookup(m, key) != Some(None)
  {
  }

  /** The values of a dict whose values are all present, `None` when one of
      them is `None`; the inverse of `Present`. */
  function Values(m: OrderedMap<Option<string>>): (r: Option<OrderedMap<string>>)
    ensures r.Some? <==> AllPresent(m)
    ensures r.Some? ==> Present(r.value) == m
  {
    if m == [] then Some([])
    else if m[0].1.None? then None
    else match Values(m[1..])
      case None => None
      case Some(rest) => Some([(m[0].0, m[0].1.value)] + rest)
  }

  /** A text that comes out of `parse_todotext` unchanged and token-free. */
  predicate CleanText(text: string) {
    && text != [] && !IsSpace(text[0]) && !IsSpace(text[|text| - 1])
    && ScanSigil(text, '+').found == []
    && ScanSigil(text, '@').found == []
    && ScanAddons(text).found == []
  }

  /** Tokens that read back as themselves once rendered after a text. */
  predicate RenderableTokens(projects: seq<string>, contexts: seq<string>, addons: OrderedMap<string>) {
    && (forall p :: p in projects ==> IsToken(p, '+') && ':' !in p)
    && (forall c :: c in contexts ==> IsToken(c, '@') && ':' !in c)
    && (forall kv :: kv in addons ==> IsAtom(kv.0) && IsAtom(kv.1) && kv.0[0] != '+' && kv.0[0] != '@')
    && DistinctKeys(addons)
  }
}
