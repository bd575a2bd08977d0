/** The fragment of Python's `re` that `LocalTodo.__init__` uses, evaluated in
    the order `re.match` tries alternatives: an optional group first tries to
    match, a greedy repetition first takes as much as it can, and both give
    ground only when the rest of the pattern fails.  A match is anchored at the
    start of the string but not at its end. */
module Pattern {
  import opened Wrappers
  import opened Text
  import opened Dates

  datatype Elem =
    | Lit(c: char)   // one literal character
    | Spaces         // `\s*`
    | OptDate        // `([0-9]{4}-[0-9]{2}-[0-9]{2} )?`
    | OptPriority    // `(\([A-Z]\) )?`
    | Rest           // `(.+)`

  /** What a capturing group holds after a match: `None` in Python when an
      optional group was skipped. */
  datatype Group = Skipped | Captured(text: string)

  /** `x \s*(date )?\s*(date )?(.+)`: a completed task. */
  const DonePattern: seq<Elem> := [Lit('x'), Lit(' '), Spaces, OptDate, Spaces, OptDate, Rest]

  /** `(\([A-Z]\) )?\s*(date )?(.+)`: a pending task. */
  const PendingPattern: seq<Elem> := [OptPriority, Spaces, OptDate, Rest]

  function Captures(p: seq<Elem>): nat {
    if p == [] then 0
    else (if p[0].Lit? || p[0].Spaces? then 0 else 1) + Captures(p[1..])
  }

  /** Length of the leading run of `\s` characters. */
  function SpaceRun(s: string): (n: nat)
    ensures n <= |s|
    ensures forall k :: 0 <= k < n ==> IsSpace(s[k])
    ensures n == |s| || !IsSpace(s[n])
  {
    if s == [] || !IsSpace(s[0]) then 0 else 1 + SpaceRun(s[1..])
  }

  /** The date group can match at the start of `s` (eleven characters). */
  predicate DateAt(s: string) {
    |s| >= 11 && DateShape(s[..10]) && s[10] == ' '
  }

  /** The priority group can match at the start of `s` (four characters). */
  predicate PriorityAt(s: string) {
    |s| >= 4 && s[0] == '(' && IsUpper(s[1]) && s[2] == ')' && s[3] == ' '
  }

  /** `re.match(p, s)`: the groups of the first match in backtracking order. */
  function Match(p: seq<Elem>, s: string): (r: Option<seq<Group>>)
    ensures r.Some? ==> |r.value| == Captures(p)
    decreases |p|, |s| + 1
  {
    if p == [] then Some([])
    else match p[0]
      case Lit(c) => if s != [] && s[0] == c then Match(p[1..], s[1..]) else None
      case Spaces => Greedy(p[1..], s, SpaceRun(s), 0, false)
      case Rest => Greedy(p[1..], s, RunBefore(s, '\n'), 1, true)
      case OptDate => Optional(p[1..], s, if DateAt(s) then 11 else 0)
      case OptPriority => Optional(p[1..], s, if PriorityAt(s) then 4 else 0)
  }

  /** A greedy repetition that may cover `least` up to `k` leading characters:
      the longest cover after which `p` matches wins.  With `cap` the covered
      text is a group of its own. */
  function Greedy(p: seq<Elem>, s: string, k: nat, least: nat, cap: bool): (r: Option<seq<Group>>)
    requires k <= |s|
    ensures r.Some? ==> |r.value| == Captures(p) + (if cap then 1 else 0)
    decreases |p| + 1, k
  {
    if k < least then None
    else match Match(p, s[k..])
      case Some(gs) => Some(if cap then [Captured(s[..k])] + gs else gs)
      case None => if k == 0 then None else Greedy(p, s, k - 1, least, cap)
  }

  /** An optional group that can cover the first `n` characters (`n == 0`:
      it cannot match here).  Matching the group is tried first. */
  function Optional(p: seq<Elem>, s: string, n: nat): (r: Option<seq<Group>>)
    requires n <= |s|
    ensures r.Some? ==> |r.value| == Captures(p) + 1
    decreases |p| + 1, 0
  {
    var taken := if n > 0 then Match(p, s[n..]) else None;
    if taken.Some? then Some([Captured(s[..n])] + taken.value)
    else match Match(p, s)
      case Some(gs) => Some([Skipped] + gs)
      case None => None
  }

  // ---------------------------------------------------------------------------
  // When a match exists

  /** Some character of `s` is one that `.` matches. */
  predicate HasContent(s: string) {
    exists i :: 0 <= i < |s| && s[i] != '\n'
  }

  /** A pattern whose last element is `(.+)` and whose other elements can all
      match the empty string. */
  predicate Skippable(p: seq<Elem>) {
    && p != [] && p[|p| - 1] == Rest
    && forall k :: 0 <= k < |p| - 1 ==> p[k] in {Spaces, OptDate, OptPriority}
  }

  lemma {:induction false} GreedyWitness(p: seq<Elem>, s: string, k: nat, least: nat, cap: bool)
    requires k <= |s|
    requires Greedy(p, s, k, least, cap).Some?
    ensures exists q :: least <= q <= k && Match(p, s[q..]).Some?
    decreases k
  {
    if Match(p, s[k..]).None? {
      GreedyWitness(p, s, k - 1, least, cap);
    }
  }

  lemma {:induction false} GreedyFinds(p: seq<Elem>, s: string, k: nat, least: nat, cap: bool, q: nat)
    requires least <= q <= k <= |s|
    requires Match(p, s[q..]).Some?
    ensures Greedy(p, s, k, least, cap).Some?
    decreases k
  {
    if k > q && Match(p, s[k..]).None? {
      GreedyFinds(p, s, k - 1, least, cap, q);
    }
  }

  lemma {:induction false} OptionalSkips(p: seq<Elem>, s: string, n: nat)
    requires n <= |s|
    requires Match(p, s).Some?
    ensures Optional(p, s, n).Some?
  {
  }

  /** Only a string with a character other than a newline can match a pattern
      that ends in `(.+)`. */
  lemma {:induction false} ContentNeeded(p: seq<Elem>, s: string)
    requires Rest in p
    requires Match(p, s).Some?
    ensures HasContent(s)
    decreases |p|, 1
  {
    assert p == [p[0]] + p[1..];
    match p[0]
    case Lit(c) =>
      ContentNeeded(p[1..], s[1..]);
      var i :| 0 <= i < |s[1..]| && s[1..][i] != '\n';
      assert s[i + 1] != '\n';
    case Spaces =>
      GreedyWitness(p[1..], s, SpaceRun(s), 0, false);
      var q :| 0 <= q <= SpaceRun(s) && Match(p[1..], s[q..]).Some?;
      ContentNeeded(p[1..], s[q..]);
      var i :| 0 <= i < |s[q..]| && s[q..][i] != '\n';
      assert s[q + i] != '\n';
    case Rest =>
      GreedyWitness(p[1..], s, RunBefore(s, '\n'), 1, true);
      assert s[0] != '\n';
    case OptDate =>
      var n := if DateAt(s) then 11 else 0;
      OptionalContent(p[1..], s, n);
    case OptPriority =>
      var n := if PriorityAt(s) then 4 else 0;
      OptionalContent(p[1..], s, n);
  }

  lemma {:induction false} OptionalContent(p: seq<Elem>, s: string, n: nat)
    requires Rest in p && n <= |s|
    requires Optional(p, s, n).Some?
    ensures HasContent(s)
    decreases |p| + 1, 0
  {
    if n > 0 && Match(p, s[n..]).Some? {
      ContentNeeded(p, s[n..]);
      var i :| 0 <= i < |s[n..]| && s[n..][i] != '\n';
      assert s[n + i] != '\n';
    } else {
      ContentNeeded(p, s);
    }
  }

  /** `\s*` can stop right before the first character `.` matches. */
  lemma {:induction false} SpaceReach(s: string)
    requires HasContent(s)
    ensures exists q: nat :: q <= SpaceRun(s) && q < |s| && s[q] != '\n'
  {
    if s[0] == '\n' {
      var i :| 0 <= i < |s| && s[i] != '\n';
      assert s[1..][i - 1] != '\n';
      SpaceReach(s[1..]);
      var q: nat :| q <= SpaceRun(s[1..]) && q < |s[1..]| && s[1..][q] != '\n';
      assert s[q + 1] != '\n';
    } else {
      assert s[0] != '\n';
    }
  }

  lemma {:induction false} MatchesAtContent(p: seq<Elem>, s: string)
    requires Skippable(p)
    requires s != [] && s[0] != '\n'
    ensures Match(p, s).Some?
    decreases |p|
  {
    if p[0] == Rest {
      assert p == [Rest] by {
        if |p| > 1 {
          assert false;
        }
      }
      assert RunBefore(s, '\n') >= 1;
      assert p[1..] == [];
      assert Match(p[1..], s[RunBefore(s, '\n')..]).Some?;
    } else {
      assert p[0] in {Spaces, OptDate, OptPriority};
      assert Skippable(p[1..]) by {
        forall k | 0 <= k < |p[1..]| - 1
          ensures p[1..][k] in {Spaces, OptDate, OptPriority}
        {
          assert p[1..][k] == p[k + 1];
        }
      }
      MatchesAtContent(p[1..], s);
      if p[0] == Spaces {
        assert s[0..] == s;
        GreedyFinds(p[1..], s, SpaceRun(s), 0, false, 0);
      } else if p[0] == OptDate {
        OptionalSkips(p[1..], s, if DateAt(s) then 11 else 0);
      } else {
        OptionalSkips(p[1..], s, if PriorityAt(s) then 4 else 0);
      }
    }
  }

  /** A pattern made of `\s*`, optional groups and a final `(.+)` matches every
      string with some character other than a newline when it starts with `\s*`. */
  lemma {:induction false} MatchesWithContent(p: seq<Elem>, s: string)
    requires Skippable(p) && p[0] == Spaces
    requires HasContent(s)
    ensures Match(p, s).Some?
  {
    SpaceReach(s);
    var q: nat :| q <= SpaceRun(s) && q < |s| && s[q] != '\n';
    assert Skippable(p[1..]) by {
      forall k | 0 <= k < |p[1..]| - 1
        ensures p[1..][k] in {Spaces, OptDate, OptPriority}
      {
        assert p[1..][k] == p[k + 1];
      }
    }
    MatchesAtContent(p[1..], s[q..]);
    GreedyFinds(p[1..], s, SpaceRun(s), 0, false, q);
  }

  /** The pending-task pattern matches exactly the strings that hold some
      character other than a newline. */
  lemma PendingMatchIff(s: string)
    ensures Match(PendingPattern, s).Some? <==> HasContent(s)
  {
    if HasContent(s) {
      var tail := PendingPattern[1..];
      assert tail == [Spaces, OptDate, Rest];
      assert Skippable(tail);
      MatchesWithContent(tail, s);
      OptionalSkips(tail, s, if PriorityAt(s) then 4 else 0);
    }
    if Match(PendingPattern, s).Some? {
      ContentNeeded(PendingPattern, s);
    }
  }

  /** The completed-task pattern matches exactly the strings that start with
      `x ` and hold some character other than a newline after it. */
  lemma DoneMatchIff(s: string)
    ensures Match(DonePattern, s).Some? <==> |s| >= 2 && s[..2] == "x " && HasContent(s[2..])
  {
    XPrefix(s);
    if |s| >= 2 && s[0] == 'x' && s[1] == ' ' {
      DoneTail(s);
      DoneTailIff(s[2..]);
    } else {
      DoneNeedsPrefix(s);
    }
  }

  lemma XPrefix(s: string)
    ensures (|s| >= 2 && s[..2] == "x ") <==> (|s| >= 2 && s[0] == 'x' && s[1] == ' ')
  {
    if |s| >= 2 && s[0] == 'x' && s[1] == ' ' {
      assert s[..2] == [s[0], s[1]];
    }
  }

  /** A literal matches one equal character and hands the rest on. */
  lemma LitStep(p: seq<Elem>, s: string)
    requires p != [] && p[0].Lit?
    ensures Match(p, s) == if s != [] && s[0] == p[0].c then Match(p[1..], s[1..]) else None
  {
  }

  lemma DoneNeedsPrefix(s: string)
    requires !(|s| >= 2 && s[0] == 'x' && s[1] == ' ')
    ensures Match(DonePattern, s).None?
  {
    LitStep(DonePattern, s);
    if s != [] && s[0] == 'x' {
      var p := DonePattern[1..];
      assert p[0] == Lit(' ');
      LitStep(p, s[1..]);
    }
  }

  /** After the literal `x `, the completed-task pattern continues on the rest. */
  lemma DoneTail(s: string)
    requires |s| >= 2 && s[0] == 'x' && s[1] == ' '
    ensures Match(DonePattern, s) == Match(DonePattern[2..], s[2..])
  {
    LitStep(DonePattern, s);
    var p := DonePattern[1..];
    assert p[0] == Lit(' ');
    LitStep(p, s[1..]);
    assert p[1..] == DonePattern[2..];
    assert s[1..][1..] == s[2..];
  }

  lemma DoneTailIff(s: string)
    ensures Match(DonePattern[2..], s).Some? <==> HasContent(s)
  {
    var tail := DonePattern[2..];
    assert tail == [Spaces, OptDate, Spaces, OptDate, Rest];
    if HasContent(s) {
      assert Skippable(tail);
      MatchesWithContent(tail, s);
    }
    if Match(tail, s).Some? {
      ContentNeeded(tail, s);
    }
  }

  // ---------------------------------------------------------------------------
  // Steps of a match over a known line

  lemma GroupCounts()
    ensures Captures(DonePattern) == 3 && Captures(PendingPattern) == 3
  {
  }

  lemma PendingShape()
    ensures PendingPattern == [OptPriority] + ([Spaces] + ([OptDate] + [Rest]))
  {
  }

  lemma DoneShape()
    ensures DonePattern[2..] == [Spaces] + ([OptDate] + ([Spaces] + ([OptDate] + [Rest])))
  {
  }

  /** `\s*` before a non-space character matches the empty string. */
  lemma SpacesEmpty(q: seq<Elem>, s: string)
    requires s == [] || !IsSpace(s[0])
    ensures Match([Spaces] + q, s) == Match(q, s)
  {
    assert ([Spaces] + q)[1..] == q;
    assert s[0..] == s;
  }

  /** An optional date group in front of a date and a space takes them, when
      the rest of the pattern then matches. */
  lemma DateTaken(q: seq<Elem>, date: string, s: string, gs: seq<Group>)
    requires DateShape(date)
    requires Match(q, s) == Some(gs)
    ensures Match([OptDate] + q, date + " " + s) == Some([Captured(date + " ")] + gs)
  {
    assert ([OptDate] + q)[1..] == q;
    var t := date + " " + s;
    assert t[..10] == date && t[10] == ' ';
    assert t[11..] == s && t[..11] == date + " ";
  }

  /** An optional date group skips a string that does not start with a date
      and a space. */
  lemma DateSkipped(q: seq<Elem>, s: string, gs: seq<Group>)
    requires !DateAt(s)
    requires Match(q, s) == Some(gs)
    ensures Match([OptDate] + q, s) == Some([Skipped] + gs)
  {
    assert ([OptDate] + q)[1..] == q;
  }

  /** An optional priority group in front of `(X) ` takes it, when the rest of
      the pattern then matches. */
  lemma PriorityTaken(q: seq<Elem>, c: char, s: string, gs: seq<Group>)
    requires IsUpper(c)
    requires Match(q, s) == Some(gs)
    ensures Match([OptPriority] + q, "(" + [c] + ") " + s) == Some([Captured("(" + [c] + ") ")] + gs)
  {
    assert ([OptPriority] + q)[1..] == q;
    var t := "(" + [c] + ") " + s;
    assert t[4..] == s && t[..4] == "(" + [c] + ") ";
  }

  lemma PrioritySkipped(q: seq<Elem>, s: string, gs: seq<Group>)
    requires !PriorityAt(s)
    requires Match(q, s) == Some(gs)
    ensures Match([OptPriority] + q, s) == Some([Skipped] + gs)
  {
    assert ([OptPriority] + q)[1..] == q;
  }

  /** `(.+)` takes a whole line up to its newline. */
  lemma RestTakesLine(line: string, tail: string)
    requires line != [] && '\n' !in line
    requires tail != [] && tail[0] == '\n'
    ensures Match([Rest], line + tail) == Some([Captured(line)])
  {
    var s := line + tail;
    LineRunStops(line, tail);
    assert s[..|line|] == line;
    assert [Rest][1..] == [];
    assert Match([Rest], s) == Greedy([], s, RunBefore(s, '\n'), 1, true);
    assert Match([], s[|line|..]) == Some([]);
    assert [Captured(s[..|line|])] + [] == [Captured(line)];
    assert Greedy([], s, |line|, 1, true) == Some([Captured(line)]);
  }

  lemma {:induction false} LineRunStops(line: string, tail: string)
    requires '\n' !in line
    requires tail != [] && tail[0] == '\n'
    ensures RunBefore(line + tail, '\n') == |line|
  {
    if line != [] {
      assert (line + tail)[1..] == line[1..] + tail;
      assert (line + tail)[0] == line[0];
      LineRunStops(line[1..], tail);
    } else {
      assert line + tail == tail;
    }
  }
}
