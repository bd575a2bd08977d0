/** Laws of `parse_todotext`: how its scanners split over concatenated text,
    and that it reads back the tokens `Todo.__str__` writes after a text. */
module TokenLaws {
  import opened Wrappers
  import opened Seqs
  import opened Text
  import opened Tokens

  predicate SpaceLed(s: string) {
    s == [] || s[0] == ' '
  }

  /** A string of `n` spaces. */
  function Spaces(n: nat): (r: string)
    ensures |r| == n && AllSpace(r)
  {
    if n == 0 then [] else " " + Spaces(n - 1)
  }

  lemma SpacedLed(items: seq<string>)
    ensures SpaceLed(Spaced(items))
  {
  }

  lemma {:induction false} WordRunAppend(a: string, b: string)
    requires SpaceLed(b)
    ensures RunBefore(a + b, ' ') == RunBefore(a, ' ')
  {
    if a != [] && a[0] != ' ' {
      assert (a + b)[1..] == a[1..] + b;
      WordRunAppend(a[1..], b);
    }
  }

  lemma {:induction false} AtomLenAppend(a: string, b: string)
    requires b == [] || !IsAtomChar(b[0])
    ensures AtomLen(a + b) == AtomLen(a)
  {
    if a != [] && IsAtomChar(a[0]) {
      assert (a + b)[1..] == a[1..] + b;
      AtomLenAppend(a[1..], b);
    }
  }

  /** Where a sigil scanner resumes after looking at position 0 of `s`. */
  function SigilNext(s: string, sigil: char): (n: nat)
    requires s != []
    ensures 0 < n <= |s|
  {
    if SigilAt(s, sigil) then 1 + RunBefore(s[1..], ' ') else 1
  }

  /** What a sigil scanner finds at position 0 of `s`. */
  function SigilHead(s: string, sigil: char): seq<string>
    requires s != []
  {
    if SigilAt(s, sigil) then [s[1..SigilNext(s, sigil)]] else []
  }

  /** What a sigil scanner keeps of position 0 of `s`. */
  function SigilKept(s: string, sigil: char): string
    requires s != []
  {
    if SigilAt(s, sigil) then [] else [s[0]]
  }

  lemma ScanSigilStep(s: string, sigil: char)
    requires s != [] && sigil != ' '
    ensures ScanSigil(s, sigil) == Scan(SigilHead(s, sigil) + ScanSigil(s[SigilNext(s, sigil)..], sigil).found,
                                        SigilKept(s, sigil) + ScanSigil(s[SigilNext(s, sigil)..], sigil).rest)
  {
  }

  lemma SigilStepAppend(a: string, b: string, sigil: char)
    requires SpaceLed(b) && a != [] && sigil != ' '
    ensures SigilNext(a + b, sigil) == SigilNext(a, sigil)
    ensures SigilHead(a + b, sigil) == SigilHead(a, sigil)
    ensures SigilKept(a + b, sigil) == SigilKept(a, sigil)
    ensures (a + b)[SigilNext(a, sigil)..] == a[SigilNext(a, sigil)..] + b
  {
    var s := a + b;
    assert SigilAt(s, sigil) <==> SigilAt(a, sigil) by {
      if |a| == 1 && b != [] { assert s[1] == b[0]; }
      else if |a| == 2 && b != [] { assert s[2] == b[0]; }
    }
    assert s[1..] == a[1..] + b;
    WordRunAppend(a[1..], b);
    var n := SigilNext(a, sigil);
    assert s[1..n] == a[1..n];
  }

  /** The sigil scanners never match across a boundary followed by a space. */
  lemma {:induction false} ScanSigilAppend(a: string, b: string, sigil: char)
    requires sigil != ' ' && SpaceLed(b)
    ensures ScanSigil(a + b, sigil)
         == Scan(ScanSigil(a, sigil).found + ScanSigil(b, sigil).found,
                 ScanSigil(a, sigil).rest + ScanSigil(b, sigil).rest)
    decreases |a|
  {
    if a == [] {
      assert a + b == b;
    } else {
      SigilStepAppend(a, b, sigil);
      var n := SigilNext(a, sigil);
      ScanSigilAppend(a[n..], b, sigil);
      ScanSigilStep(a, sigil);
      ScanSigilStep(a + b, sigil);
      AppendScans(SigilHead(a, sigil), SigilKept(a, sigil), ScanSigil(a[n..], sigil), ScanSigil(b, sigil));
    }
  }

  /** Whether the addon regex matches at the start of `s`. */
  predicate AddonAt(s: string) {
    var k := AtomLen(s);
    0 < k < |s| && s[k] == ':' && AtomLen(s[k + 1..]) > 0
  }

  /** Where the addon scanner resumes after looking at position 0 of `s`. */
  function AddonNext(s: string): (n: nat)
    requires s != []
    ensures 0 < n <= |s|
  {
    if AddonAt(s) then AtomLen(s) + 1 + AtomLen(s[AtomLen(s) + 1..]) else 1
  }

  /** What the addon scanner finds at position 0 of `s`. */
  function AddonHead(s: string): seq<(string, string)>
    requires s != []
  {
    if AddonAt(s) then [(s[..AtomLen(s)], s[AtomLen(s) + 1..AddonNext(s)])] else []
  }

  /** What the addon scanner keeps of position 0 of `s`. */
  function AddonKept(s: string): string
    requires s != []
  {
    if AddonAt(s) then [] else [s[0]]
  }

  lemma ScanAddonsStep(s: string)
    requires s != []
    ensures ScanAddons(s) == Scan(AddonHead(s) + ScanAddons(s[AddonNext(s)..]).found,
                                  AddonKept(s) + ScanAddons(s[AddonNext(s)..]).rest)
  {
  }

  /** Appending a space-led string changes neither the key run nor, when the
      addon regex matches, the value run at the front. */
  lemma AddonAtAppend(a: string, b: string)
    requires SpaceLed(b) && a != []
    ensures AtomLen(a + b) == AtomLen(a)
    ensures AddonAt(a + b) <==> AddonAt(a)
    ensures AddonAt(a) ==> ((a + b)[AtomLen(a) + 1..] == a[AtomLen(a) + 1..] + b
                            && AtomLen((a + b)[AtomLen(a) + 1..]) == AtomLen(a[AtomLen(a) + 1..]))
  {
    AtomLenAppend(a, b);
    var k := AtomLen(a);
    if k < |a| {
      assert (a + b)[k + 1..] == a[k + 1..] + b;
      AtomLenAppend(a[k + 1..], b);
    } else if b != [] {
      assert (a + b)[k] == b[0];
    }
  }

  lemma AddonStepAppend(a: string, b: string)
    requires SpaceLed(b) && a != []
    ensures AddonNext(a + b) == AddonNext(a)
    ensures AddonHead(a + b) == AddonHead(a)
    ensures AddonKept(a + b) == AddonKept(a)
    ensures (a + b)[AddonNext(a)..] == a[AddonNext(a)..] + b
  {
    AddonAtAppend(a, b);
    var k := AtomLen(a);
    var n := AddonNext(a);
    if AddonAt(a) {
      AppendSlices(a, b, 0, k);
      AppendSlices(a, b, k + 1, n);
    }
    AppendSlices(a, b, n, n);
  }

  lemma AppendScans<T>(head: seq<T>, kept: string, x: Scan<T>, y: Scan<T>)
    ensures Scan(head + (x.found + y.found), kept + (x.rest + y.rest))
         == Scan((head + x.found) + y.found, (kept + x.rest) + y.rest)
  {
  }

  /** The addon scanner never matches across a boundary followed by a space. */
  lemma {:induction false} ScanAddonsAppend(a: string, b: string)
    requires SpaceLed(b)
    ensures ScanAddons(a + b)
         == Scan(ScanAddons(a).found + ScanAddons(b).found, ScanAddons(a).rest + ScanAddons(b).rest)
    decreases |a|
  {
    if a == [] {
      assert a + b == b;
    } else {
      AddonStepAppend(a, b);
      var n := AddonNext(a);
      ScanAddonsAppend(a[n..], b);
      ScanAddonsStep(a);
      ScanAddonsStep(a + b);
      AppendScans(AddonHead(a), AddonKept(a), ScanAddons(a[n..]), ScanAddons(b));
    }
  }

  /** With nothing found, nothing is cut out. */
  lemma {:induction false} ScanSigilNoneFound(s: string, sigil: char)
    requires sigil != ' ' && ScanSigil(s, sigil).found == []
    ensures ScanSigil(s, sigil).rest == s
    decreases |s|
  {
    if s != [] {
      assert !SigilAt(s, sigil);
      ScanSigilNoneFound(s[1..], sigil);
      assert s == [s[0]] + s[1..];
    }
  }

  lemma {:induction false} ScanAddonsNoneFound(s: string)
    requires ScanAddons(s).found == []
    ensures ScanAddons(s).rest == s
    decreases |s|
  {
    if s != [] {
      ScanAddonsStep(s);
      assert !AddonAt(s);
      ScanAddonsNoneFound(s[1..]);
      assert s == [s[0]] + s[1..];
    }
  }

  lemma {:induction false} ScanAddonsNoColon(s: string)
    requires ':' !in s
    ensures ScanAddons(s) == Scan([], s)
    decreases |s|
  {
    if s != [] {
      assert ':' !in s[1..];
      ScanAddonsNoColon(s[1..]);
      assert s == [s[0]] + s[1..];
    }
  }

  lemma {:induction false} ScanSigilNoSpace(s: string, sigil: char)
    requires sigil != ' ' && ' ' !in s
    ensures ScanSigil(s, sigil) == Scan([], s)
    decreases |s|
  {
    if s != [] {
      assert ' ' !in s[1..];
      ScanSigilNoSpace(s[1..], sigil);
      assert s == [s[0]] + s[1..];
    }
  }

  lemma {:induction false} ScanSigilNoSigil(s: string, sigil: char)
    requires sigil != ' ' && sigil !in s
    ensures ScanSigil(s, sigil) == Scan([], s)
    decreases |s|
  {
    if s != [] {
      assert sigil !in s[1..];
      ScanSigilNoSigil(s[1..], sigil);
      assert s == [s[0]] + s[1..];
    }
  }

  /** A text without `+`, `@` or `:` and without outer whitespace is clean. */
  lemma PlainClean(text: string)
    requires text != [] && !IsSpace(text[0]) && !IsSpace(text[|text| - 1])
    requires '+' !in text && '@' !in text && ':' !in text
    ensures CleanText(text)
  {
    ScanSigilNoSigil(text, '+');
    ScanSigilNoSigil(text, '@');
    ScanAddonsNoColon(text);
  }

  /** One space-led word: a whole token of the sigil's kind, or nothing found. */
  lemma ScanSigilWord(w: string, sigil: char)
    requires sigil != ' ' && w != [] && ' ' !in w
    ensures IsToken(w, sigil) ==> ScanSigil(" " + w, sigil) == Scan([w], [])
    ensures w[0] != sigil ==> ScanSigil(" " + w, sigil) == Scan([], " " + w)
  {
    var s := " " + w;
    assert s[1..] == w;
    ScanSigilNoSpace(w, sigil);
    ScanSigilStep(s, sigil);
    if IsToken(w, sigil) {
      assert SigilAt(s, sigil);
      WordRunFull(w);
      assert SigilNext(s, sigil) == |s|;
      assert s[|s|..] == [];
      assert s[1..|s|] == w;
      assert SigilHead(s, sigil) == [w];
    } else if w[0] != sigil {
      assert !SigilAt(s, sigil);
      assert s == [s[0]] + s[1..];
    }
  }

  lemma {:induction false} WordRunFull(w: string)
    requires ' ' !in w
    ensures RunBefore(w, ' ') == |w|
  {
    if w != [] {
      assert ' ' !in w[1..];
      WordRunFull(w[1..]);
    }
  }

  lemma {:induction false} AtomLenFull(w: string)
    requires forall k :: 0 <= k < |w| ==> IsAtomChar(w[k])
    ensures AtomLen(w) == |w|
  {
    if w != [] {
      AtomLenFull(w[1..]);
    }
  }

  /** A bare `key:value` word is one whole match. */
  lemma ScanAddonsPair(key: string, value: string)
    requires IsAtom(key) && IsAtom(value)
    ensures ScanAddons(key + ":" + value) == Scan([(key, value)], [])
  {
    var w := key + ":" + value;
    var k := |key|;
    assert w == key + (":" + value);
    AtomLenAppend(key, ":" + value);
    AtomLenFull(key);
    AtomLenFull(value);
    assert AtomLen(w) == k;
    assert w[k] == ':' && w[k + 1..] == value;
    assert AddonAt(w);
    assert AddonNext(w) == |w|;
    assert w[..k] == key && w[k + 1..|w|] == value;
    assert AddonHead(w) == [(key, value)];
    assert w[|w|..] == [];
    ScanAddonsStep(w);
  }

  /** One space-led `key:value` word yields its pair and leaves the space. */
  lemma ScanAddonsWord(key: string, value: string)
    requires IsAtom(key) && IsAtom(value)
    ensures ScanAddons(" " + (key + ":" + value)) == Scan([(key, value)], " ")
  {
    var w := key + ":" + value;
    var s := " " + w;
    assert s[1..] == w;
    assert AtomLen(s) == 0;
    ScanAddonsStep(s);
    ScanAddonsPair(key, value);
  }

  lemma {:induction false} ScanSigilSpacedTokens(items: seq<string>, sigil: char)
    requires sigil != ' '
    requires forall t :: t in items ==> IsToken(t, sigil)
    ensures ScanSigil(Spaced(items), sigil) == Scan(items, [])
  {
    if items != [] {
      assert items[0] in items;
      ScanSigilWord(items[0], sigil);
      SpacedLed(items[1..]);
      ScanSigilAppend(" " + items[0], Spaced(items[1..]), sigil);
      ScanSigilSpacedTokens(items[1..], sigil);
      assert items == [items[0]] + items[1..];
    }
  }

  lemma {:induction false} ScanSigilSpacedOthers(items: seq<string>, sigil: char)
    requires sigil != ' '
    requires forall t :: t in items ==> t != [] && ' ' !in t && t[0] != sigil
    ensures ScanSigil(Spaced(items), sigil) == Scan([], Spaced(items))
  {
    if items != [] {
      assert items[0] in items;
      ScanSigilWord(items[0], sigil);
      SpacedLed(items[1..]);
      ScanSigilAppend(" " + items[0], Spaced(items[1..]), sigil);
      ScanSigilSpacedOthers(items[1..], sigil);
    }
  }

  lemma {:induction false} ScanAddonsSpacedPlain(items: seq<string>)
    requires forall t :: t in items ==> ':' !in t
    ensures ScanAddons(Spaced(items)) == Scan([], Spaced(items))
  {
    if items != [] {
      assert ':' !in " " + items[0];
      ScanAddonsNoColon(" " + items[0]);
      SpacedLed(items[1..]);
      ScanAddonsAppend(" " + items[0], Spaced(items[1..]));
      ScanAddonsSpacedPlain(items[1..]);
    }
  }

  lemma {:induction false} ScanAddonsSpacedWords(m: OrderedMap<string>)
    requires forall kv :: kv in m ==> IsAtom(kv.0) && IsAtom(kv.1)
    ensures ScanAddons(Spaced(AddonWords(m))) == Scan(m, Spaces(|m|))
  {
    if m != [] {
      assert m[0] in m;
      ScanAddonsSpacedWords(m[1..]);
      SpacedWordsStep(m);
    }
  }

  lemma SpacedWordsStep(m: OrderedMap<string>)
    requires m != [] && IsAtom(m[0].0) && IsAtom(m[0].1)
    requires ScanAddons(Spaced(AddonWords(m[1..]))) == Scan(m[1..], Spaces(|m| - 1))
    ensures ScanAddons(Spaced(AddonWords(m))) == Scan(m, Spaces(|m|))
  {
    var head := m[0].0 + ":" + m[0].1;
    var rest := Spaced(AddonWords(m[1..]));
    SpacedWordsUnfold(m);
    ScanAddonsWord(m[0].0, m[0].1);
    SpacedLed(AddonWords(m[1..]));
    ScanAddonsAppend(" " + head, rest);
    HeadTail(m);
    assert Spaces(|m|) == " " + Spaces(|m| - 1);
  }

  lemma SpacedWordsUnfold(m: OrderedMap<string>)
    requires m != []
    ensures Spaced(AddonWords(m)) == " " + (m[0].0 + ":" + m[0].1) + Spaced(AddonWords(m[1..]))
  {
    assert AddonWords(m) == [m[0].0 + ":" + m[0].1] + AddonWords(m[1..]);
  }

  /** The words an addon map renders to have no space and, when no key
      starts with the sigil, do not start with it. */
  lemma {:induction false} AddonWordsShape(m: OrderedMap<string>, sigil: char)
    requires forall kv :: kv in m ==> IsAtom(kv.0) && IsAtom(kv.1) && kv.0[0] != sigil
    ensures forall t :: t in AddonWords(m) ==> t != [] && ' ' !in t && t[0] != sigil
  {
    if m != [] {
      AddonWordsShape(m[1..], sigil);
      var w := m[0].0 + ":" + m[0].1;
      assert forall k :: 0 <= k < |w| ==> w[k] != ' ';
    }
  }

  /** Putting a new key leaves every other key absent that was absent before. */
  lemma PutFreshKeepsAbsent(acc: OrderedMap<Option<string>>, m: OrderedMap<string>)
    requires m != [] && DistinctKeys(m)
    requires forall j :: 0 <= j < |m| ==> Lookup(acc, m[j].0).None?
    ensures Put(acc, m[0].0, Some(m[0].1)) == acc + [(m[0].0, Some(m[0].1))]
    ensures forall j :: 0 <= j < |m| - 1 ==> Lookup(Put(acc, m[0].0, Some(m[0].1)), m[1..][j].0).None?
  {
    assert Lookup(acc, m[0].0).None?;
    forall j | 0 <= j < |m| - 1
      ensures Lookup(Put(acc, m[0].0, Some(m[0].1)), m[1..][j].0).None?
    {
      assert m[1..][j] == m[j + 1];
      assert Lookup(acc, m[j + 1].0).None?;
    }
  }

  /** Filling a dict from pairs whose keys are distinct and new keeps them in order. */
  lemma {:induction false} PutAllFresh(acc: OrderedMap<Option<string>>, m: OrderedMap<string>)
    requires DistinctKeys(m)
    requires forall j :: 0 <= j < |m| ==> Lookup(acc, m[j].0).None?
    ensures PutAll(acc, m) == acc + Present(m)
    decreases |m|
  {
    if m != [] {
      PutFreshKeepsAbsent(acc, m);
      var x := (m[0].0, Some(m[0].1));
      assert DistinctKeys(m[1..]) by {
        assert forall j :: 0 <= j < |m| - 1 ==> m[1..][j] == m[j + 1];
      }
      PutAllFresh(acc + [x], m[1..]);
      assert Present(m) == [x] + Present(m[1..]);
      Assoc(acc, [x], Present(m[1..]));
    }
  }

  /** `i` is the last position in `pairs` whose key is `key`. */
  predicate LastWith(pairs: seq<(string, string)>, key: string, i: int) {
    && 0 <= i < |pairs| && pairs[i].0 == key
    && forall j :: i < j < |pairs| ==> pairs[j].0 != key
  }

  /** The value of the last pair with the given key, if any pair has it. */
  function LastValue(pairs: seq<(string, string)>, key: string): (r: Option<string>)
    ensures r.None? <==> forall i :: 0 <= i < |pairs| ==> pairs[i].0 != key
    ensures r.Some? ==> exists i :: LastWith(pairs, key, i) && pairs[i].1 == r.value
    decreases |pairs|
  {
    if pairs == [] then None
    else
      var later := LastValue(pairs[1..], key);
      LastWithShift(pairs, key);
      if later.Some? then later
      else if pairs[0].0 == key then
        assert LastWith(pairs, key, 0);
        Some(pairs[0].1)
      else None
  }

  /** Positions in the tail are positions in the whole, one further on. */
  lemma LastWithShift(pairs: seq<(string, string)>, key: string)
    requires pairs != []
    ensures forall i :: LastWith(pairs[1..], key, i) ==> LastWith(pairs, key, i + 1) && pairs[i + 1] == pairs[1..][i]
    ensures forall j :: 0 < j < |pairs| ==> pairs[j] == pairs[1..][j - 1]
  {
  }

  /** `for a in addons: addons_dict[a[0]] = a[1]`: a key some pair carries ends
      up with the value of the LAST such pair; every other key keeps its value. */
  lemma {:induction false} PutAllLookup(m: OrderedMap<Option<string>>, pairs: seq<(string, string)>)
    ensures forall key :: Lookup(PutAll(m, pairs), key)
                       == if LastValue(pairs, key).Some? then Some(Some(LastValue(pairs, key).value))
                          else Lookup(m, key)
    decreases |pairs|
  {
    if pairs != [] {
      PutAllLookup(Put(m, pairs[0].0, Some(pairs[0].1)), pairs[1..]);
    }
  }

  /** The keys of a dict, in insertion order. */
  function Keys<V>(m: OrderedMap<V>): (r: seq<string>)
    ensures |r| == |m| && forall i :: 0 <= i < |m| ==> r[i] == m[i].0
  {
    seq(|m|, i requires 0 <= i < |m| => m[i].0)
  }

  /** The keys of `pairs` not in `known`, each once, in the order they first
      occur. */
  function NewKeys(known: seq<string>, pairs: seq<(string, string)>): (r: seq<string>)
    ensures forall k :: k in r ==> k !in known
    decreases |pairs|
  {
    if pairs == [] then []
    else if pairs[0].0 in known then NewKeys(known, pairs[1..])
    else [pairs[0].0] + NewKeys(known + [pairs[0].0], pairs[1..])
  }

  /** `d[key] = value` leaves the keys as they were, or appends the new one. */
  lemma PutKeys<V>(m: OrderedMap<V>, key: string, value: V)
    ensures Keys(Put(m, key, value)) == if key in Keys(m) then Keys(m) else Keys(m) + [key]
  {
    var r := Put(m, key, value);
    if Lookup(m, key).None? {
      KeysAppend(m, (key, value));
      assert key !in Keys(m) by {
        forall i | 0 <= i < |m|
          ensures Keys(m)[i] != key
        {
        }
      }
    } else {
      PutPositions(m, key, value);
      var i :| 0 <= i < |m| && m[i] == (key, Lookup(m, key).value);
      assert Keys(m)[i] == key;
      assert Keys(r) == Keys(m);
    }
  }

  lemma KeysAppend<V>(m: OrderedMap<V>, x: (string, V))
    ensures Keys(m + [x]) == Keys(m) + [x.0]
  {
  }

  /** Filling the addon dict keeps the keys already there in place and appends
      every new key once, in the order the matches first show it. */
  lemma {:induction false} PutAllKeys(m: OrderedMap<Option<string>>, pairs: seq<(string, string)>)
    ensures Keys(PutAll(m, pairs)) == Keys(m) + NewKeys(Keys(m), pairs)
    decreases |pairs|
  {
    if pairs != [] {
      var m1 := Put(m, pairs[0].0, Some(pairs[0].1));
      PutKeys(m, pairs[0].0, Some(pairs[0].1));
      PutAllKeys(m1, pairs[1..]);
      if pairs[0].0 !in Keys(m) {
        Assoc(Keys(m), [pairs[0].0], NewKeys(Keys(m) + [pairs[0].0], pairs[1..]));
      }
    }
  }

  /** What one sigil scanner sees in each piece `Todo.__str__` writes: the text
      and the other kinds of token are left alone, its own kind is taken whole. */
  lemma RenderedPiecesSigil(text: string, projects: seq<string>, contexts: seq<string>,
                            addons: OrderedMap<string>, sigil: char)
    requires CleanText(text)
    requires RenderableTokens(projects, contexts, addons)
    requires sigil == '+' || sigil == '@'
    ensures ScanSigil(text, sigil) == Scan([], text)
    ensures ScanSigil(Spaced(projects), sigil)
         == if sigil == '+' then Scan(projects, []) else Scan([], Spaced(projects))
    ensures ScanSigil(Spaced(contexts), sigil)
         == if sigil == '@' then Scan(contexts, []) else Scan([], Spaced(contexts))
    ensures ScanSigil(Spaced(AddonWords(addons)), sigil) == Scan([], Spaced(AddonWords(addons)))
  {
    ScanSigilNoneFound(text, sigil);
    AddonWordsShape(addons, sigil);
    ScanSigilSpacedOthers(AddonWords(addons), sigil);
    if sigil == '+' {
      ScanSigilSpacedTokens(projects, sigil);
      ScanSigilSpacedOthers(contexts, sigil);
    } else {
      ScanSigilSpacedOthers(projects, sigil);
      ScanSigilSpacedTokens(contexts, sigil);
    }
  }

  /** Reading off the combined scan of four pieces whose scans are known. */
  lemma FourPieces<T>(whole: Scan<T>, t: Scan<T>, p: Scan<T>, c: Scan<T>, a: Scan<T>,
                      ft: seq<T>, fp: seq<T>, fc: seq<T>, fa: seq<T>,
                      rt: string, rp: string, rc: string, ra: string)
    requires whole == Scan(t.found + p.found + c.found + a.found, t.rest + p.rest + c.rest + a.rest)
    requires t == Scan(ft, rt) && p == Scan(fp, rp) && c == Scan(fc, rc) && a == Scan(fa, ra)
    ensures whole.found == ft + fp + fc + fa && whole.rest == rt + rp + rc + ra
  {
  }

  /** A sigil scan of three space-led pieces after a text. */
  lemma ScanSigilFour(t: string, p: string, c: string, a: string, sigil: char)
    requires sigil != ' ' && SpaceLed(p) && SpaceLed(c) && SpaceLed(a)
    ensures ScanSigil(t + p + c + a, sigil)
         == Scan(ScanSigil(t, sigil).found + ScanSigil(p, sigil).found + ScanSigil(c, sigil).found + ScanSigil(a, sigil).found,
                 ScanSigil(t, sigil).rest + ScanSigil(p, sigil).rest + ScanSigil(c, sigil).rest + ScanSigil(a, sigil).rest)
  {
    ScanSigilAppend(t + p + c, a, sigil);
    ScanSigilAppend(t + p, c, sigil);
    ScanSigilAppend(t, p, sigil);
  }

  /** An addon scan of three space-led pieces after a text. */
  lemma ScanAddonsFour(t: string, p: string, c: string, a: string)
    requires SpaceLed(p) && SpaceLed(c) && SpaceLed(a)
    ensures ScanAddons(t + p + c + a)
         == Scan(ScanAddons(t).found + ScanAddons(p).found + ScanAddons(c).found + ScanAddons(a).found,
                 ScanAddons(t).rest + ScanAddons(p).rest + ScanAddons(c).rest + ScanAddons(a).rest)
  {
    ScanAddonsAppend(t + p + c, a);
    ScanAddonsAppend(t + p, c);
    ScanAddonsAppend(t, p);
  }

  /** `ScanSigilAppend` with both halves' scans already known. */
  lemma ScanSigilJoin(a: string, b: string, sigil: char, fa: seq<string>, ra: string, fb: seq<string>, rb: string)
    requires sigil != ' ' && SpaceLed(b)
    requires ScanSigil(a, sigil) == Scan(fa, ra) && ScanSigil(b, sigil) == Scan(fb, rb)
    ensures ScanSigil(a + b, sigil) == Scan(fa + fb, ra + rb)
  {
    ScanSigilAppend(a, b, sigil);
  }

  lemma RenderProjects(text: string, projects: seq<string>, contexts: seq<string>, addons: OrderedMap<string>)
    requires CleanText(text) && RenderableTokens(projects, contexts, addons)
    ensures var C, A := Spaced(contexts), Spaced(AddonWords(addons));
      ScanSigil(text + Spaced(projects) + C + A, '+') == Scan(projects, text + C + A)
  {
    var P, C, A := Spaced(projects), Spaced(contexts), Spaced(AddonWords(addons));
    SpacedLed(projects);
    SpacedLed(contexts);
    SpacedLed(AddonWords(addons));
    RenderedPiecesSigil(text, projects, contexts, addons, '+');
    ScanSigilJoin(text, P, '+', [], text, projects, []);
    assert [] + projects == projects && text + [] == text;
    ScanSigilJoin(text + P, C, '+', projects, text, [], C);
    assert projects + [] == projects;
    ScanSigilJoin(text + P + C, A, '+', projects, text + C, [], A);
  }

  lemma RenderContexts(text: string, projects: seq<string>, contexts: seq<string>, addons: OrderedMap<string>)
    requires CleanText(text) && RenderableTokens(projects, contexts, addons)
    ensures var P, C, A := Spaced(projects), Spaced(contexts), Spaced(AddonWords(addons));
      && ScanSigil(text + P + C + A, '@').found == contexts
      && ScanSigil(text + C + A, '@').rest == text + A
  {
    var P, C, A := Spaced(projects), Spaced(contexts), Spaced(AddonWords(addons));
    SpacedLed(projects);
    SpacedLed(contexts);
    SpacedLed(AddonWords(addons));
    RenderedPiecesSigil(text, projects, contexts, addons, '@');
    ScanSigilFour(text, P, C, A, '@');
    var whole := ScanSigil(text + P + C + A, '@');
    FourPieces(whole, ScanSigil(text, '@'), ScanSigil(P, '@'), ScanSigil(C, '@'), ScanSigil(A, '@'),
               [], [], contexts, [], text, P, [], A);
    assert whole.found == contexts by { assert [] + [] + contexts + [] == contexts; }
    ScanSigilAppend(text + C, A, '@');
    ScanSigilAppend(text, C, '@');
    var tc := ScanSigil(text + C, '@');
    assert tc.rest == text by { assert text + [] == text; }
    assert ScanSigil(text + C + A, '@').rest == tc.rest + A;
  }

  lemma RenderAddons(text: string, projects: seq<string>, contexts: seq<string>, addons: OrderedMap<string>)
    requires CleanText(text) && RenderableTokens(projects, contexts, addons)
    ensures var P, C, A := Spaced(projects), Spaced(contexts), Spaced(AddonWords(addons));
      && ScanAddons(text + P + C + A).found == addons
      && ScanAddons(text + A).rest == text + Spaces(|addons|)
  {
    var P, C, A := Spaced(projects), Spaced(contexts), Spaced(AddonWords(addons));
    SpacedLed(projects);
    SpacedLed(contexts);
    SpacedLed(AddonWords(addons));
    ScanAddonsNoneFound(text);
    ScanAddonsSpacedPlain(projects);
    ScanAddonsSpacedPlain(contexts);
    ScanAddonsSpacedWords(addons);
    ScanAddonsFour(text, P, C, A);
    assert [] + [] + [] + addons == addons;
    ScanAddonsAppend(text, A);
  }

  /** `parse_todotext` recovers exactly the text and tokens that `Todo.__str__`
      renders after a clean text. */
  lemma TokenizeRender(text: string, projects: seq<string>, contexts: seq<string>, addons: OrderedMap<string>)
    requires CleanText(text)
    requires RenderableTokens(projects, contexts, addons)
    ensures Tokenize(text + Spaced(projects) + Spaced(contexts) + Spaced(AddonWords(addons)))
         == Tokens(text, projects, contexts, Present(addons))
  {
    RenderProjects(text, projects, contexts, addons);
    RenderContexts(text, projects, contexts, addons);
    RenderAddons(text, projects, contexts, addons);
    TrimPadded(text, Spaces(|addons|));
    PutAllFresh([], addons);
    assert [] + Present(addons) == Present(addons);
  }


  lemma {:induction false} PutPresent(m: OrderedMap<Option<string>>, key: string, value: Option<string>)
    requires AllPresent(m) && value.Some?
    ensures AllPresent(Put(m, key, value))
    decreases |m|
  {
    if m != [] && m[0].0 != key {
      assert AllPresent(m[1..]) by {
        forall k | 0 <= k < |m[1..]| ensures m[1..][k].1.Some? {
          assert m[1..][k] == m[k + 1];
        }
      }
      PutPresent(m[1..], key, value);
    }
  }

  lemma {:induction false} PutAllPresent(m: OrderedMap<Option<string>>, pairs: seq<(string, string)>)
    requires AllPresent(m)
    ensures AllPresent(PutAll(m, pairs))
    decreases |pairs|
  {
    if pairs != [] {
      PutPresent(m, pairs[0].0, Some(pairs[0].1));
      PutAllPresent(Put(m, pairs[0].0, Some(pairs[0].1)), pairs[1..]);
    }
  }

  /** `parse_todotext` never stores `None` as an addon value. */
  lemma TokenizePresent(s: string)
    ensures AllPresent(Tokenize(s).addons)
  {
    PutAllPresent([], ScanAddons(s).found);
  }

  /** A clean text is its own description: no tokens, nothing stripped. */
  lemma TokenizeClean(text: string)
    requires CleanText(text)
    ensures Tokenize(text) == Tokens(text, [], [], [])
  {
    TokenizeRender(text, [], [], []);
    EmptyRendering(text);
  }

  lemma EmptyRendering(text: string)
    ensures text + Spaced([]) + Spaced([]) + Spaced(AddonWords([])) == text
    ensures Present([]) == []
  {
    var words: seq<string> := [];
    assert AddonWords([]) == words;
    var e := Spaced(words);
    assert e == [];
    assert text + e + e + e == text;
  }
}
