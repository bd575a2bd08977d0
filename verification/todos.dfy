/** One task, as both `LocalTodo` and `HabiticaTodo` hold it, with the todo.txt
    line it is written as and read back from, and the JSON payload that
    `get_dict` builds for the remote service. */
module Todos {
  import opened Wrappers
  import opened Text
  import opened Dates
  import opened Tokens
  import opened Pattern
  import TokenLaws
  import opened Seqs

  /** The addon key under which a local task records its remote twin. */
  const HabiticaId: string := "habitica_id"

  /** The attributes of a task.  `priority` is the letter of a `(X) ` prefix;
      `id` is the remote id a `HabiticaTodo` carries (a `LocalTodo` has none). */
  datatype Todo = Todo(
    done: bool,
    priority: Option<char>,
    created: Option<ValidDate>,
    completed: Option<ValidDate>,
    text: string,
    projects: seq<string>,
    contexts: seq<string>,
    addons: OrderedMap<Option<string>>,
    id: Option<string>)

  /** The exceptions that end the script. */
  datatype Error =
    | NoMatch(line: string)   // "Couldn't parse task"
    | BadDate(date: string)   // `strptime` raises `ValueError`
    | TypeError               // a string concatenated with `None` or a `Todo`
    | NoFixedPoint            // the synchronisation loop did not settle within its bound

  // ---------------------------------------------------------------------------
  // Writing a task out: `Todo.__str__`

  /** A date followed by a space, or nothing. */
  function DateWord(d: Option<ValidDate>): string {
    if d.Some? then Iso(d.value) + " " else ""
  }

  /** `(X) `, or nothing. */
  function PriorityWord(p: Option<char>): string {
    if p.Some? then "(" + [p.value] + ") " else ""
  }

  /** Everything before the text: `x `, the completion date and the creation
      date for a completed task; the priority and the creation date otherwise. */
  function Prefix(t: Todo): string {
    if t.done then "x " + DateWord(t.completed) + DateWord(t.created)
    else PriorityWord(t.priority) + DateWord(t.created)
  }

  /** The text followed by every project, context and addon word, each after one space. */
  function Description(t: Todo, addonWords: seq<string>): string {
    t.text + Spaced(t.projects) + Spaced(t.contexts) + Spaced(addonWords)
  }

  /** `str(t)`.  Concatenating an addon whose value is `None` raises `TypeError`. */
  function Format(t: Todo): (r: Result<string, Error>)
    ensures r.Ok? <==> AllPresent(t.addons)
    ensures r.Err? ==> r.error == TypeError
    ensures r.Ok? ==> |r.value| > 0 && r.value[|r.value| - 1] == '\n'
  {
    match Values(t.addons)
    case None => Err(TypeError)
    case Some(values) => Ok(Prefix(t) + Description(t, AddonWords(values)) + "\n")
  }

  // ---------------------------------------------------------------------------
  // Reading a line: `LocalTodo.__init__`

  /** `strptime(group.strip(), "%Y-%m-%d")` when the group matched. */
  function GroupDate(g: Group): (r: Result<Option<ValidDate>, Error>)
    ensures g.Skipped? ==> r == Ok(None)
    ensures r.Ok? && r.value.Some? ==> g.Captured? && Iso(r.value.value) == Trim(g.text)
    ensures r.Err? ==> g.Captured? && r.error == BadDate(Trim(g.text)) && ReadDate(Trim(g.text)).None?
  {
    match g
    case Skipped => Ok(None)
    case Captured(s) =>
      var d := Trim(s);
      match ReadDate(d)
      case None => Err(BadDate(d))
      case Some(v) => IsoRead(d); Ok(Some(v))
  }

  /** The letter of a matched `(X) ` group. */
  function GroupPriority(g: Group): Option<char> {
    if g.Captured? && |g.text| >= 2 then Some(g.text[1]) else None
  }

  function GroupText(g: Group): string {
    if g.Captured? then g.text else ""
  }

  /** The attributes `parse_todotext` fills in, on top of the prefix fields. */
  function Build(done: bool, priority: Option<char>, created: Option<ValidDate>,
                 completed: Option<ValidDate>, text: string): Todo
  {
    var tk := Tokenize(text);
    Todo(done, priority, created, completed, tk.text, tk.projects, tk.contexts, tk.addons, None)
  }

  /** `LocalTodo(line)`: the completed-task pattern is tried first, then the
      pending-task pattern; an unmatched line or an impossible date raises. */
  function ParseLine(line: string): (r: Result<Todo, Error>)
    ensures r.Ok? ==> r.value.id.None? && AllPresent(r.value.addons)
    ensures r.Ok? && r.value.done ==> r.value.priority.None?
    ensures r.Ok? && !r.value.done ==> r.value.completed.None?
    ensures r.Err? ==> r.error.NoMatch? || r.error.BadDate?
  {
    Interpret(Match(DonePattern, line), Match(PendingPattern, line), line)
  }

  /** The branches of `LocalTodo.__init__` on the two match results. */
  function Interpret(done: Option<seq<Group>>, pending: Option<seq<Group>>, line: string): (r: Result<Todo, Error>)
    requires done.Some? ==> |done.value| == 3
    requires pending.Some? ==> |pending.value| == 3
    ensures r.Ok? ==> r.value.id.None? && AllPresent(r.value.addons)
    ensures r.Ok? ==> (r.value.done <==> done.Some?)
    ensures r.Ok? && r.value.done ==> r.value.priority.None?
    ensures r.Ok? && !r.value.done ==> r.value.completed.None?
    ensures r.Err? ==> r.error.NoMatch? || r.error.BadDate?
  {
    match done
    case Some(g) =>
      var completed :- GroupDate(g[0]);
      var created :- GroupDate(g[1]);
      TokenLaws.TokenizePresent(GroupText(g[2]));
      Ok(Build(true, None, created, completed, GroupText(g[2])))
    case None =>
      match pending
      case Some(g) =>
        var created :- GroupDate(g[1]);
        TokenLaws.TokenizePresent(GroupText(g[2]));
        Ok(Build(false, GroupPriority(g[0]), created, None, GroupText(g[2])))
      case None => Err(NoMatch(line))
  }

  /** The line is rejected outright exactly when it has no character besides
      newlines; every line with a non-space character is therefore parsed or
      fails on a date. */
  lemma ParseLineNoMatch(line: string)
    ensures ParseLine(line) == Err(NoMatch(line)) <==> !HasContent(line)
  {
    PendingMatchIff(line);
    if !HasContent(line) {
      DoneMatchIff(line);
    }
  }

  lemma ContentSuffix(s: string, n: nat)
    requires n <= |s| && HasContent(s[n..])
    ensures HasContent(s)
  {
    var i :| 0 <= i < |s[n..]| && s[n..][i] != '\n';
    assert s[n + i] != '\n';
  }

  /** A parsed task is completed exactly when its line starts with `x ` and
      goes on with a character other than a newline. */
  lemma ParseLineDone(line: string)
    ensures ParseLine(line).Ok? ==>
      (ParseLine(line).value.done <==> |line| >= 2 && line[..2] == "x " && HasContent(line[2..]))
  {
    DoneMatchIff(line);
  }

  // ---------------------------------------------------------------------------
  // The remote side: `get_dict` and `HabiticaTodo.__init__`

  /** The dict `get_dict` builds (`'type': 'todo'` is constant and left out).
      A key that is absent is `None`; `id` is `Some(None)` when `habitica_id`
      is present with value `None`. */
  datatype Payload = Payload(
    completed: bool,
    createdAt: Option<string>,
    dateCompleted: Option<string>,
    id: Option<Option<string>>,
    text: string)

  /** `t.get_dict()`. */
  function GetDict(t: Todo): (p: Payload)
    ensures p.completed == t.done && p.text == t.text
    ensures p.id == Lookup(t.addons, HabiticaId)
    ensures p.createdAt.Some? <==> t.created.Some?
    ensures p.dateCompleted.Some? <==> t.completed.Some?
  {
    Payload(
      t.done,
      if t.created.Some? then Some(Iso(t.created.value)) else None,
      if t.completed.Some? then Some(Iso(t.completed.value)) else None,
      Lookup(t.addons, HabiticaId),
      t.text)
  }

  /** The payload's date strings read back as the task's dates. */
  lemma PayloadDates(t: Todo)
    ensures GetDict(t).createdAt.Some? ==> ReadDate(GetDict(t).createdAt.value) == t.created
    ensures GetDict(t).dateCompleted.Some? ==> ReadDate(GetDict(t).dateCompleted.value) == t.completed
  {
    if t.created.Some? { ReadIso(t.created.value); }
    if t.completed.Some? { ReadIso(t.completed.value); }
  }

  /** `re.sub("^(\([A-Z]\) )", "", text)`: one leading priority is removed. */
  function StripPriority(s: string): (r: string)
    ensures PriorityAt(s) ==> s == s[..4] + r
    ensures !PriorityAt(s) ==> r == s
  {
    if PriorityAt(s) then s[4..] else s
  }

  /** `HabiticaTodo(d)`: completion flag, text and id from the payload; dates
      and priority are not taken over. */
  function FromPayload(p: Payload): (t: Todo)
    ensures t.done == p.completed
    ensures t.priority.None? && t.created.None? && t.completed.None?
    ensures t.id == (if p.id.Some? then p.id.value else None)
    ensures AllPresent(t.addons)
  {
    TokenLaws.TokenizePresent(StripPriority(p.text));
    var tk := Tokenize(StripPriority(p.text));
    Todo(p.completed, None, None, None, tk.text, tk.projects, tk.contexts, tk.addons,
         if p.id.Some? then p.id.value else None)
  }

  /** The priority prefix is removed from a payload text, and nothing else is. */
  lemma StripPriorityWord(c: char, s: string)
    requires IsUpper(c)
    ensures StripPriority(PriorityWord(Some(c)) + s) == s
  {
    assert (PriorityWord(Some(c)) + s)[4..] == s;
  }

  /** A task whose text is plain comes back from its own payload with the same
      text, completion flag and link, and with no tokens. */
  lemma PayloadMirror(t: Todo)
    requires CleanText(t.text) && !PriorityAt(t.text)
    ensures FromPayload(GetDict(t)).text == t.text
    ensures FromPayload(GetDict(t)).done == t.done
    ensures FromPayload(GetDict(t)).projects == [] && FromPayload(GetDict(t)).contexts == []
    ensures FromPayload(GetDict(t)).addons == []
    ensures FromPayload(GetDict(t)).id == (match Lookup(t.addons, HabiticaId) case Some(v) => v case None => None)
  {
    TokenLaws.TokenizeClean(t.text);
    assert StripPriority(GetDict(t).text) == t.text;
  }

  // ---------------------------------------------------------------------------
  // Reading back what was written

  /** The line does not open with something the patterns would take for a
      prefix: `x `, `(X) ` or a date and a space. */
  predicate Unmarked(s: string) {
    !(|s| >= 2 && s[..2] == "x ") && !PriorityAt(s) && !DateAt(s)
  }

  /** A task that reads back as itself once written: a token-free text, tokens
      that read back as tokens, a description that cannot be mistaken for a
      prefix and has no newline, a priority letter the pattern accepts, and no
      creation date on a completed task without a completion date. */
  predicate WellFormed(t: Todo) {
    && CleanText(t.text)
    && Values(t.addons).Some?
    && RenderableTokens(t.projects, t.contexts, Values(t.addons).value)
    && (var body := Description(t, AddonWords(Values(t.addons).value));
        '\n' !in body && Unmarked(body))
    && (t.priority.Some? ==> IsUpper(t.priority.value))
    && (t.done && t.created.Some? ==> t.completed.Some?)
  }

  /** What a task reads back as: the priority of a completed task and the
      completion date of a pending one are not written, and the remote id is
      not part of a line. */
  function Canonical(t: Todo): Todo {
    t.(priority := if t.done then None else t.priority,
       completed := if t.done then t.completed else None,
       id := None)
  }

  function DateGroup(d: Option<ValidDate>): Group {
    if d.Some? then Captured(Iso(d.value) + " ") else Skipped
  }

  function PriorityGroup(p: Option<char>): Group {
    if p.Some? then Captured("(" + [p.value] + ") ") else Skipped
  }

  lemma GroupDateWord(d: Option<ValidDate>)
    ensures GroupDate(DateGroup(d)) == Ok(d)
  {
    if d.Some? {
      var s := Iso(d.value);
      assert IsDigit(s[0]) && IsDigit(s[9]) by {
        assert s[..4][0] == s[0];
        assert s[8..][1] == s[9];
      }
      TrimPadded(s, " ");
      ReadIso(d.value);
    }
  }

  /** A description that does not open with a prefix still does not once its
      newline is appended. */
  lemma UnmarkedLine(body: string)
    requires body != [] && '\n' !in body && Unmarked(body)
    ensures Unmarked(body + "\n")
  {
    var u := body + "\n";
    if |body| >= 11 {
      assert u[..11] == body[..11];
      assert u[..10] == body[..10] && u[..2] == body[..2];
    } else {
      assert u[|body|] == '\n';
      if |body| >= 4 {
        assert u[..4] == body[..4];
      }
      if |body| >= 2 {
        assert u[..2] == body[..2];
      }
    }
  }

  lemma Regroup(a: string, b: string, c: string, d: string, e: string)
    ensures a + b + c + d + e == a + (b + (c + (d + e)))
  {
  }

  lemma RegroupTail(a: string, b: string, c: string, d: string)
    ensures a + b + c + d == a + (b + c + d)
  {
  }

  lemma Regroup4(a: string, b: string, c: string, d: string)
    ensures a + b + c + d == a + (b + (c + d))
  {
  }

  /** A written date is followed by the rest of the line; it starts with a digit. */
  lemma DateWordStart(d: Option<ValidDate>, u: string)
    requires u != [] && !IsSpace(u[0])
    ensures DateWord(d) + u != [] && !IsSpace((DateWord(d) + u)[0])
    ensures d.Some? ==> IsDigit((DateWord(d) + u)[0])
    ensures d.None? ==> DateWord(d) + u == u
  {
    if d.Some? {
      assert Iso(d.value)[..4][0] == Iso(d.value)[0];
      assert (DateWord(d) + u)[0] == Iso(d.value)[0];
    }
  }

  /** An optional date group in front of a written date, or of a line that
      does not start with one. */
  lemma DateLayer(q: seq<Elem>, d: Option<ValidDate>, u: string, gs: seq<Group>)
    requires Match(q, u) == Some(gs)
    requires d.None? ==> !DateAt(u)
    ensures Match([OptDate] + q, DateWord(d) + u) == Some([DateGroup(d)] + gs)
  {
    if d.Some? {
      DateTaken(q, Iso(d.value), u, gs);
    } else {
      assert DateWord(d) + u == u;
      DateSkipped(q, u, gs);
    }
  }

  /** An optional priority group in front of a written priority, or of a line
      that does not start with one. */
  lemma PriorityLayer(q: seq<Elem>, p: Option<char>, s: string, gs: seq<Group>)
    requires Match(q, s) == Some(gs)
    requires p.Some? ==> IsUpper(p.value)
    requires p.None? ==> !PriorityAt(s)
    ensures Match([OptPriority] + q, PriorityWord(p) + s) == Some([PriorityGroup(p)] + gs)
  {
    if p.Some? {
      PriorityTaken(q, p.value, s, gs);
    } else {
      assert PriorityWord(p) + s == s;
      PrioritySkipped(q, s, gs);
    }
  }

  /** How the completed-task pattern splits a completed task's line. */
  lemma MatchDoneLine(c: Option<ValidDate>, cr: Option<ValidDate>, body: string)
    requires body != [] && !IsSpace(body[0]) && '\n' !in body && !DateAt(body + "\n")
    requires cr.Some? ==> c.Some?
    ensures Match(DonePattern, "x " + DateWord(c) + DateWord(cr) + body + "\n")
         == Some([DateGroup(c), DateGroup(cr), Captured(body)])
  {
    var s2 := DateWord(c) + (DateWord(cr) + (body + "\n"));
    MatchDoneTail(c, cr, body);
    var line := "x " + s2;
    Regroup("x ", DateWord(c), DateWord(cr), body, "\n");
    assert line[2..] == s2;
    DoneTail(line);
  }

  /** The part of the completed-task pattern after `x `. */
  lemma MatchDoneTail(c: Option<ValidDate>, cr: Option<ValidDate>, body: string)
    requires body != [] && !IsSpace(body[0]) && '\n' !in body && !DateAt(body + "\n")
    requires cr.Some? ==> c.Some?
    ensures Match(DonePattern[2..], DateWord(c) + (DateWord(cr) + (body + "\n")))
         == Some([DateGroup(c), DateGroup(cr), Captured(body)])
  {
    var u := body + "\n";
    var s1 := DateWord(cr) + u;
    var gs := [DateGroup(cr), Captured(body)];
    MatchDatedRest(cr, body);
    DateWordStart(cr, u);
    SpacesEmpty([OptDate] + [Rest], s1);
    DateLayer([Spaces] + ([OptDate] + [Rest]), c, s1, gs);
    DateWordStart(c, s1);
    SpacesEmpty([OptDate] + ([Spaces] + ([OptDate] + [Rest])), DateWord(c) + s1);
    DoneShape();
    assert Match(DonePattern[2..], DateWord(c) + s1) == Some([DateGroup(c)] + gs);
    assert [DateGroup(c)] + gs == [DateGroup(c), DateGroup(cr), Captured(body)];
  }

  /** `(date )?(.+)` over an optional written date and the description line. */
  lemma MatchDatedRest(d: Option<ValidDate>, body: string)
    requires body != [] && '\n' !in body
    requires d.None? ==> !DateAt(body + "\n")
    ensures Match([OptDate] + [Rest], DateWord(d) + (body + "\n")) == Some([DateGroup(d), Captured(body)])
  {
    RestTakesLine(body, "\n");
    assert Match([Rest], body + "\n") == Some([Captured(body)]);
    DateLayer([Rest], d, body + "\n", [Captured(body)]);
    assert Match([OptDate] + [Rest], DateWord(d) + (body + "\n")) == Some([DateGroup(d)] + [Captured(body)]);
    assert [DateGroup(d)] + [Captured(body)] == [DateGroup(d), Captured(body)];
  }

  /** How the pending-task pattern splits a pending task's line. */
  lemma MatchPendingLine(p: Option<char>, cr: Option<ValidDate>, body: string)
    requires body != [] && !IsSpace(body[0]) && '\n' !in body && Unmarked(body + "\n")
    requires p.Some? ==> IsUpper(p.value)
    ensures Match(PendingPattern, PriorityWord(p) + DateWord(cr) + body + "\n")
         == Some([PriorityGroup(p), DateGroup(cr), Captured(body)])
  {
    var u := body + "\n";
    var s1 := DateWord(cr) + u;
    MatchDatedRest(cr, body);
    DateWordStart(cr, u);
    SpacesEmpty([OptDate] + [Rest], s1);
    assert p.None? ==> !PriorityAt(s1);
    PriorityLayer([Spaces] + ([OptDate] + [Rest]), p, s1, [DateGroup(cr), Captured(body)]);
    PendingShape();
    assert Match(PendingPattern, PriorityWord(p) + s1) == Some([PriorityGroup(p)] + [DateGroup(cr), Captured(body)]);
    Cons3(PriorityGroup(p), DateGroup(cr), Captured(body));
    Regroup4(PriorityWord(p), DateWord(cr), body, "\n");
  }

  /** A pending task's line is not taken for a completed task. */
  lemma PendingLineNotDone(p: Option<char>, cr: Option<ValidDate>, body: string)
    requires body != [] && !IsSpace(body[0]) && Unmarked(body + "\n")
    ensures Match(DonePattern, PriorityWord(p) + DateWord(cr) + body + "\n").None?
  {
    var u := body + "\n";
    var line := PriorityWord(p) + DateWord(cr) + u;
    assert line == PriorityWord(p) + DateWord(cr) + body + "\n";
    DateWordStart(cr, u);
    if p.Some? {
      assert line[0] == '(';
    } else if cr.Some? {
      assert line[0] == (DateWord(cr) + u)[0];
    } else {
      assert line == u;
      XPrefix(u);
    }
    DoneNeedsPrefix(line);
  }

  /** Reading a completed task's line once the pattern has split it. */
  lemma ParseDoneGroups(pending: Option<seq<Group>>, line: string, c: Option<ValidDate>, cr: Option<ValidDate>, text: string)
    requires pending.Some? ==> |pending.value| == 3
    ensures Interpret(Some([DateGroup(c), DateGroup(cr), Captured(text)]), pending, line)
         == Ok(Build(true, None, cr, c, text))
  {
    GroupDateWord(c);
    GroupDateWord(cr);
  }

  /** Reading a pending task's line once the patterns have split it. */
  lemma ParsePendingGroups(line: string, p: Option<char>, cr: Option<ValidDate>, text: string)
    ensures Interpret(None, Some([PriorityGroup(p), DateGroup(cr), Captured(text)]), line)
         == Ok(Build(false, p, cr, None, text))
  {
    var g := [PriorityGroup(p), DateGroup(cr), Captured(text)];
    GroupDateWord(cr);
    InterpretPending(g, line);
    GroupPriorityWord(p);
  }

  lemma GroupPriorityWord(p: Option<char>)
    ensures GroupPriority(PriorityGroup(p)) == p
  {
    if p.Some? {
      var s := "(" + [p.value] + ") ";
      assert s == ['(', p.value, ')', ' '];
    }
  }

  lemma InterpretPending(g: seq<Group>, line: string)
    requires |g| == 3 && GroupDate(g[1]).Ok?
    ensures Interpret(None, Some(g), line)
         == Ok(Build(false, GroupPriority(g[0]), GroupDate(g[1]).value, None, GroupText(g[2])))
  {
  }

  /** Writing a well-formed task and reading the line back gives the task
      again, up to what a line cannot hold (see `Canonical`). */
  lemma RoundTrip(t: Todo)
    requires WellFormed(t)
    ensures Format(t).Ok?
    ensures ParseLine(Format(t).value) == Ok(Canonical(t))
  {
    var values := Values(t.addons).value;
    var body := Description(t, AddonWords(values));
    DescriptionReads(t, values);
    assert Build(t.done, if t.done then None else t.priority, t.created,
                 if t.done then t.completed else None, body) == Canonical(t);
    UnmarkedLine(body);
    var line := Format(t).value;
    if t.done {
      MatchDoneLine(t.completed, t.created, body);
      Regroup4("x " + DateWord(t.completed), DateWord(t.created), body, "\n");
      assert line == "x " + DateWord(t.completed) + DateWord(t.created) + body + "\n";
      GroupCounts();
      ParseDoneGroups(Match(PendingPattern, line), line, t.completed, t.created, body);
    } else {
      MatchPendingLine(t.priority, t.created, body);
      PendingLineNotDone(t.priority, t.created, body);
      assert line == PriorityWord(t.priority) + DateWord(t.created) + body + "\n";
      ParsePendingGroups(line, t.priority, t.created, body);
    }
  }

  /** The written description of a well-formed task reads back as its text and tokens. */
  lemma DescriptionReads(t: Todo, values: OrderedMap<string>)
    requires WellFormed(t) && Values(t.addons) == Some(values)
    ensures Tokenize(Description(t, AddonWords(values))) == Tokens(t.text, t.projects, t.contexts, t.addons)
    ensures Description(t, AddonWords(values)) != []
    ensures Description(t, AddonWords(values))[0] == t.text[0]
  {
    TokenLaws.TokenizeRender(t.text, t.projects, t.contexts, values);
    var rest := Spaced(t.projects) + Spaced(t.contexts) + Spaced(AddonWords(values));
    RegroupTail(t.text, Spaced(t.projects), Spaced(t.contexts), Spaced(AddonWords(values)));
  }
}
