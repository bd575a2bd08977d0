/** The synchronisation loop: passes over the local and the remote task lists,
    each made of three phases that are tried in order, until a whole pass
    counts no action.  The remote service is a collaborator: creating a task
    answers with its id or with nothing, completing one answers nothing. */
module Sync {
  import opened Wrappers
  import opened Seqs
  import opened Tokens
  import opened Todos
  import Pattern

  /** A request made to the remote service, in the order the loop makes them. */
  datatype Call =
    | Create(payload: Payload, reply: Option<string>)
    | Complete(id: string)

  /** `local_todos`, `habitica_todos` and the requests made so far. */
  datatype State = State(locals: seq<Todo>, remotes: seq<Todo>, calls: seq<Call>)

  /** The service's answer to a creation request, given the requests made
      before it: the new task's id, or `None` when creation failed. */
  type Creator = (seq<Call>, Payload) -> Option<string>

  // ---------------------------------------------------------------------------
  // Phase A: remote tasks that have no local counterpart

  /** `"habitica_id" in l.addons and l.addons["habitica_id"] == h.id`. */
  predicate IsLink(l: Todo, h: Todo) {
    Lookup(l.addons, HabiticaId) == Some(h.id)
  }

  /** Some local task is linked to `h`. */
  predicate Linked(locals: seq<Todo>, h: Todo) {
    exists i :: 0 <= i < |locals| && IsLink(locals[i], h)
  }

  /** Every pending remote task has a linked local task. */
  predicate AllLinked(locals: seq<Todo>, remotes: seq<Todo>) {
    forall j :: 0 <= j < |remotes| && !remotes[j].done ==> Linked(locals, remotes[j])
  }

  /** The position of the first local task with the given text. */
  function FirstWithText(locals: seq<Todo>, text: string): (r: Option<nat>)
    ensures r.None? <==> forall k :: 0 <= k < |locals| ==> locals[k].text != text
    ensures r.Some? ==> r.value < |locals| && locals[r.value].text == text
    ensures r.Some? ==> forall k :: 0 <= k < r.value ==> locals[k].text != text
  {
    if locals == [] then None
    else if locals[0].text == text then Some(0)
    else match FirstWithText(locals[1..], text)
      case None => None
      case Some(i) => Some(i + 1)
  }

  /** `l.addons["habitica_id"] = id`. */
  function SetLink(l: Todo, id: Option<string>): (r: Todo)
    ensures Lookup(r.addons, HabiticaId) == Some(id)
    ensures forall key :: key != HabiticaId ==> Lookup(r.addons, key) == Lookup(l.addons, key)
    ensures r == l.(addons := r.addons)
  {
    l.(addons := Put(l.addons, HabiticaId, id))
  }

  /** The local copy of a remote task: `LocalTodo(str(h))`. */
  function LocalCopy(h: Todo): (r: Result<Todo, Error>)
    ensures r.Err? ==> (r.error == TypeError <==> !AllPresent(h.addons))
    ensures r.Ok? ==> AllPresent(h.addons) && r.value.id.None? && AllPresent(r.value.addons)
  {
    var line :- Format(h);
    ParseLine(line)
  }

  /** Phase A for one remote task: the local list afterwards and the actions counted. */
  function DiscoverOne(locals: seq<Todo>, h: Todo): (r: Result<(seq<Todo>, nat), Error>)
    ensures r.Ok? ==> r.value.1 <= 1
    ensures r.Ok? ==> (r.value.1 == 0 <==> h.done || Linked(locals, h))
    ensures h.done || Linked(locals, h) ==> r == Ok((locals, 0))
    ensures r.Ok? && r.value.1 == 1 ==> Linked(r.value.0, h) || |r.value.0| == |locals| + 1
    ensures r.Err? ==> !h.done && !Linked(locals, h) && FirstWithText(locals, h.text).None?
  {
    if h.done || Linked(locals, h) then Ok((locals, 0))
    else match FirstWithText(locals, h.text)
      case Some(i) =>
        var linked := locals[i := SetLink(locals[i], h.id)];
        assert IsLink(linked[i], h);
        Ok((linked, 1))
      case None =>
        var copy :- LocalCopy(h);
        Ok((locals + [copy], 1))
  }

  /** Phase A: every remote task in turn, each seeing the local list as the
      earlier ones left it. */
  function Discover(locals: seq<Todo>, remotes: seq<Todo>): (r: Result<(seq<Todo>, nat), Error>)
    ensures r.Ok? ==> r.value.1 <= |remotes|
    decreases |remotes|
  {
    if remotes == [] then Ok((locals, 0))
    else
      var first :- DiscoverOne(locals, remotes[0]);
      var rest :- Discover(first.0, remotes[1..]);
      Ok((rest.0, first.1 + rest.1))
  }

  /** Phase A counts no action, and then changes nothing, exactly when every
      pending remote task already has a linked local task. */
  lemma {:induction false} DiscoverZero(locals: seq<Todo>, remotes: seq<Todo>)
    ensures Discover(locals, remotes) == Ok((locals, 0)) <==> AllLinked(locals, remotes)
    decreases |remotes|
  {
    if remotes != [] {
      DiscoverZero(locals, remotes[1..]);
      var h := remotes[0];
      assert AllLinked(locals, remotes) <==> (h.done || Linked(locals, h)) && AllLinked(locals, remotes[1..]) by {
        if (h.done || Linked(locals, h)) && AllLinked(locals, remotes[1..]) {
          forall j | 0 <= j < |remotes| && !remotes[j].done
            ensures Linked(locals, remotes[j])
          {
            if j > 0 {
              assert remotes[j] == remotes[1..][j - 1];
            }
          }
        }
        if AllLinked(locals, remotes) {
          forall j | 0 <= j < |remotes[1..]| && !remotes[1..][j].done
            ensures Linked(locals, remotes[1..][j])
          {
            assert remotes[1..][j] == remotes[j + 1];
          }
        }
      }
    }
  }

  /** Phase A never drops or reorders local tasks; a task it touches only gains
      or changes its `habitica_id`, and never loses it. */
  lemma {:induction false} DiscoverKeeps(locals: seq<Todo>, remotes: seq<Todo>)
    requires Discover(locals, remotes).Ok?
    ensures |locals| <= |Discover(locals, remotes).value.0|
    ensures forall i :: 0 <= i < |locals| ==>
      var after := Discover(locals, remotes).value.0[i];
      && after == locals[i].(addons := after.addons)
      && (Lookup(locals[i].addons, HabiticaId).Some? ==> Lookup(after.addons, HabiticaId).Some?)
      && forall key :: key != HabiticaId ==> Lookup(after.addons, key) == Lookup(locals[i].addons, key)
    decreases |remotes|
  {
    if remotes != [] {
      var first := DiscoverOne(locals, remotes[0]).value;
      DiscoverKeeps(first.0, remotes[1..]);
    }
  }

  /** A local copy made in Phase A carries the remote task's text when that
      task is well-formed, so the next pass links the two by text. */
  lemma CopyMatchesText(h: Todo)
    requires WellFormed(h) && !h.done
    ensures LocalCopy(h).Ok?
    ensures LocalCopy(h).value.text == h.text
    ensures LocalCopy(h).value.projects == h.projects
    ensures LocalCopy(h).value.contexts == h.contexts
    ensures LocalCopy(h).value.addons == h.addons
    ensures LocalCopy(h).value.created == h.created
  {
    RoundTrip(h);
  }

  /** A pending remote task found neither by link nor by text is copied to the
      end of the local list, whatever its copy reads back as. */
  lemma DiscoverCopies(locals: seq<Todo>, h: Todo)
    requires !h.done && LocalCopy(h).Ok?
    requires !Linked(locals, h) && FirstWithText(locals, h.text).None?
    ensures DiscoverOne(locals, h) == Ok((locals + [LocalCopy(h).value], 1))
  {
  }

  /** A remote text that still starts with a priority once `HabiticaTodo` has
      stripped one, as `(A) (B) foo` does, is not what its local copy reads
      back as: the copy takes `(B) ` for a priority.  The text match never finds
      the copy, so every pass copies the task again. */
  lemma PriorityTextRecopied(locals: seq<Todo>)
    ensures var h := FromPayload(Payload(false, None, None, None, "(A) (B) foo"));
      && h.text == "(B) foo"
      && LocalCopy(h).Ok? && LocalCopy(h).value.text == "foo"
      && (!Linked(locals, h) && FirstWithText(locals, h.text).None? ==>
            var next := locals + [LocalCopy(h).value];
            && DiscoverOne(locals, h) == Ok((next, 1))
            && !Linked(next, h) && FirstWithText(next, h.text).None?)
  {
    var h := FromPayload(Payload(false, None, None, None, "(A) (B) foo"));
    var t := Todo(false, Some('B'), None, None, "foo", [], [], [], None);
    PriorityTextRemote();
    PriorityTextLine(t);
    var copy := LocalCopy(h).value;
    if !Linked(locals, h) && FirstWithText(locals, h.text).None? {
      DiscoverCopies(locals, h);
      AppendUnmatched(locals, copy, h);
    }
  }

  /** Appending a task that neither carries a link to `h` nor has its text
      leaves `h` unfound, by link and by text. */
  lemma AppendUnmatched(locals: seq<Todo>, copy: Todo, h: Todo)
    requires !Linked(locals, h) && FirstWithText(locals, h.text).None?
    requires !IsLink(copy, h) && copy.text != h.text
    ensures !Linked(locals + [copy], h) && FirstWithText(locals + [copy], h.text).None?
  {
    var next := locals + [copy];
    assert forall i :: 0 <= i < |locals| ==> next[i] == locals[i];
    assert next[|locals|] == copy;
  }

  /** `HabiticaTodo` of the payload text `(A) (B) foo` strips one priority. */
  lemma PriorityTextRemote()
    ensures FromPayload(Payload(false, None, None, None, "(A) (B) foo"))
         == Todo(false, None, None, None, "(B) foo", [], [], [], None)
  {
    assert "(A) (B) foo" == PriorityWord(Some('A')) + "(B) foo";
    StripPriorityWord('A', "(B) foo");
    TokenLaws.PlainClean("(B) foo");
    TokenLaws.TokenizeClean("(B) foo");
  }

  /** The remote task with text `(B) foo` is written as the pending task `foo`
      with priority B would be, and reads back as that task. */
  lemma PriorityTextLine(t: Todo)
    requires t == Todo(false, Some('B'), None, None, "foo", [], [], [], None)
    ensures var h := Todo(false, None, None, None, "(B) foo", [], [], [], None);
      LocalCopy(h) == Ok(Canonical(t)) && Canonical(t).text == "foo"
  {
    var h := Todo(false, None, None, None, "(B) foo", [], [], [], None);
    PriorityTextWritten(h, t);
    PriorityTextWellFormed(t);
    RoundTrip(t);
  }

  /** Both tasks are written as the line `(B) foo`. */
  lemma PriorityTextWritten(h: Todo, t: Todo)
    requires h == Todo(false, None, None, None, "(B) foo", [], [], [], None)
    requires t == Todo(false, Some('B'), None, None, "foo", [], [], [], None)
    ensures Format(h) == Format(t) == Ok(['(', 'B', ')', ' ', 'f', 'o', 'o', '\n'])
  {
    var line := ['(', 'B', ')', ' ', 'f', 'o', 'o', '\n'];
    assert Values(h.addons) == Values(t.addons) == Some([]);
    assert Format(h) == Ok(line) by {
      assert Prefix(h) == [];
      assert Description(h, AddonWords([])) == "(B) foo";
      assert [] + "(B) foo" + "\n" == line;
    }
    assert Format(t) == Ok(line) by {
      assert Prefix(t) == ['(', 'B', ')', ' '];
      assert Description(t, AddonWords([])) == "foo";
      assert ['(', 'B', ')', ' '] + "foo" + "\n" == line;
    }
  }

  /** The pending task `foo` with priority B reads back as itself. */
  lemma PriorityTextWellFormed(t: Todo)
    requires t == Todo(false, Some('B'), None, None, "foo", [], [], [], None)
    ensures WellFormed(t)
  {
    TokenLaws.PlainClean("foo");
    assert Values(t.addons) == Some([]);
    assert Description(t, AddonWords([])) == "foo";
    FooUnmarked();
  }

  lemma FooUnmarked()
    ensures Unmarked("foo")
  {
    assert "foo"[0] == 'f' && |"foo"| == 3;
  }


  /** A remote task not found by link but found by text gets linked. */
  lemma DiscoverLinks(locals: seq<Todo>, h: Todo, i: nat)
    requires !h.done && !Linked(locals, h) && FirstWithText(locals, h.text) == Some(i)
    ensures DiscoverOne(locals, h) == Ok((locals[i := SetLink(locals[i], h.id)], 1))
    ensures Linked(locals[i := SetLink(locals[i], h.id)], h)
  {
    var linked := locals[i := SetLink(locals[i], h.id)];
    assert IsLink(linked[i], h);
  }

  /** A pending, well-formed remote task with no local counterpart is copied in
      one pass, linked to the copy in the next (unless the copy already carries
      its link), and recognised by its link in the one after, with no further
      action. */
  lemma DiscoverLifecycle(locals: seq<Todo>, h: Todo)
    requires WellFormed(h) && !h.done
    requires !Linked(locals, h) && FirstWithText(locals, h.text).None?
    ensures DiscoverOne(locals, h).Ok? && DiscoverOne(locals, h).value.1 == 1
    ensures var copied := DiscoverOne(locals, h).value.0;
      && |copied| == |locals| + 1 && copied[..|locals|] == locals
      && FirstWithText(copied, h.text) == Some(|locals|)
      && (!Linked(copied, h) ==>
            && DiscoverOne(copied, h).Ok? && DiscoverOne(copied, h).value.1 == 1
            && Linked(DiscoverOne(copied, h).value.0, h)
            && DiscoverOne(DiscoverOne(copied, h).value.0, h) == Ok((DiscoverOne(copied, h).value.0, 0)))
  {
    CopyMatchesText(h);
    DiscoverCopies(locals, h);
    var copied := locals + [LocalCopy(h).value];
    AppendFound(locals, LocalCopy(h).value, h.text);
    if !Linked(copied, h) {
      DiscoverLinks(copied, h, |locals|);
    }
  }

  /** A task with the text appended to a list without it is the first found. */
  lemma AppendFound(locals: seq<Todo>, copy: Todo, text: string)
    requires FirstWithText(locals, text).None? && copy.text == text
    ensures (locals + [copy])[..|locals|] == locals
    ensures FirstWithText(locals + [copy], text) == Some(|locals|)
  {
    var copied := locals + [copy];
    assert copied[..|locals|] == locals;
    assert copied[|locals|] == copy;
  }

  // ---------------------------------------------------------------------------
  // Phase B: pending local tasks that have no remote counterpart

  /** A pending local task without a `habitica_id` key. */
  predicate Unlinked(l: Todo) {
    !l.done && Lookup(l.addons, HabiticaId).None?
  }

  /** The unlinked pending local tasks, in list order. */
  function UnlinkedOf(ls: seq<Todo>): (r: seq<Todo>)
    ensures |r| <= |ls|
    ensures forall x :: x in r ==> x in ls && Unlinked(x)
    ensures forall i :: 0 <= i < |ls| && Unlinked(ls[i]) ==> ls[i] in r
    ensures r == [] <==> forall i :: 0 <= i < |ls| ==> !Unlinked(ls[i])
  {
    if ls == [] then []
    else
      assert forall i :: 0 < i < |ls| ==> ls[i] == ls[1..][i - 1];
      (if Unlinked(ls[0]) then [ls[0]] else []) + UnlinkedOf(ls[1..])
  }

  /** Phase B picks each unlinked pending task as often as the list holds it,
      and nothing else. */
  lemma {:induction false} UnlinkedOfCount(ls: seq<Todo>)
    ensures forall x :: multiset(UnlinkedOf(ls))[x] == if Unlinked(x) then multiset(ls)[x] else 0
    decreases |ls|
  {
    if ls != [] {
      UnlinkedOfCount(ls[1..]);
      HeadTail(ls);
      assert multiset(ls) == multiset([ls[0]]) + multiset(ls[1..]);
    }
  }

  /** Phase B picks in list order: the tasks it picks from a list made of two
      parts are those it picks from the first, then those from the second. */
  lemma {:induction false} UnlinkedOfAppend(a: seq<Todo>, b: seq<Todo>)
    ensures UnlinkedOf(a + b) == UnlinkedOf(a) + UnlinkedOf(b)
    decreases |a|
  {
    if a == [] {
      assert a + b == b;
    } else {
      assert (a + b)[1..] == a[1..] + b;
      UnlinkedOfAppend(a[1..], b);
      Assoc(if Unlinked(a[0]) then [a[0]] else [], UnlinkedOf(a[1..]), UnlinkedOf(b));
    }
  }

  /** `HabiticaTodo(l.get_dict())`. */
  function Mirror(l: Todo): (r: Todo)
    ensures r.done == l.done
    ensures r.id == (match Lookup(l.addons, HabiticaId) case Some(id) => id case None => None)
    ensures r.priority.None? && r.created.None? && r.completed.None?
    ensures AllPresent(r.addons)
  {
    FromPayload(GetDict(l))
  }

  /** The mirror after `create_habitica_task`: it takes the reply's id when
      the service answered with one. */
  function Created(m: Todo, reply: Option<string>): (r: Todo)
    ensures r == m.(id := r.id)
    ensures r.id == (if reply.Some? then reply else m.id)
  {
    if reply.Some? then m.(id := reply) else m
  }

  /** What Phase B leaves behind: the remote list, the requests, the count. */
  datatype Pushed = Pushed(remotes: seq<Todo>, calls: seq<Call>, actions: nat)

  /** Phase B: one creation request and one new remote task per unlinked
      pending local task; the local list is not changed. */
  function Push(ls: seq<Todo>, remotes: seq<Todo>, calls: seq<Call>, create: Creator): (r: Pushed)
    ensures r.actions == |UnlinkedOf(ls)|
    ensures |r.remotes| == |remotes| + r.actions && |r.calls| == |calls| + r.actions
    decreases |ls|
  {
    if ls == [] then Pushed(remotes, calls, 0)
    else if Unlinked(ls[0]) then
      var m := Mirror(ls[0]);
      var reply := create(calls, GetDict(m));
      var rest := Push(ls[1..], remotes + [Created(m, reply)], calls + [Create(GetDict(m), reply)], create);
      Pushed(rest.remotes, rest.calls, rest.actions + 1)
    else Push(ls[1..], remotes, calls, create)
  }

  /** The requests and new remote tasks for a list of tasks to mirror, each
      request answered given every request before it. */
  function CreateAll(us: seq<Todo>, calls: seq<Call>, create: Creator): (r: (seq<Todo>, seq<Call>))
    ensures |r.0| == |us| && |r.1| == |us|
    decreases |us|
  {
    if us == [] then ([], [])
    else
      var m := Mirror(us[0]);
      var reply := create(calls, GetDict(m));
      var rest := CreateAll(us[1..], calls + [Create(GetDict(m), reply)], create);
      ([Created(m, reply)] + rest.0, [Create(GetDict(m), reply)] + rest.1)
  }

  /** Phase B is: pick the unlinked pending local tasks, then mirror each in
      turn. */
  lemma {:induction false} PushIsCreateAll(ls: seq<Todo>, remotes: seq<Todo>, calls: seq<Call>, create: Creator)
    ensures var made := CreateAll(UnlinkedOf(ls), calls, create);
      var pushed := Push(ls, remotes, calls, create);
      pushed.remotes == remotes + made.0 && pushed.calls == calls + made.1
    decreases |ls|
  {
    if ls != [] {
      if Unlinked(ls[0]) {
        var m := Mirror(ls[0]);
        var reply := create(calls, GetDict(m));
        PushIsCreateAll(ls[1..], remotes + [Created(m, reply)], calls + [Create(GetDict(m), reply)], create);
        PushUnlinkedStep(ls, remotes, calls, create);
      } else {
        PushIsCreateAll(ls[1..], remotes, calls, create);
        assert UnlinkedOf(ls) == UnlinkedOf(ls[1..]);
      }
    }
  }

  /** Phase B appends one remote task and one request per action and keeps
      what was there. */
  lemma PushShape(ls: seq<Todo>, remotes: seq<Todo>, calls: seq<Call>, create: Creator)
    ensures var r := Push(ls, remotes, calls, create);
      && |r.remotes| == |remotes| + r.actions && r.remotes[..|remotes|] == remotes
      && |r.calls| == |calls| + r.actions && r.calls[..|calls|] == calls
  {
    PushIsCreateAll(ls, remotes, calls, create);
    var made := CreateAll(UnlinkedOf(ls), calls, create);
    AppendSlices(remotes, made.0, |remotes|, |remotes|);
    AppendSlices(calls, made.1, |calls|, |calls|);
  }

  /** `CreateAll` on a list with a known head. */
  lemma CreateAllCons(u: Todo, us: seq<Todo>, calls: seq<Call>, create: Creator)
    ensures var c := Create(GetDict(Mirror(u)), create(calls, GetDict(Mirror(u))));
      var made := CreateAll(us, calls + [c], create);
      CreateAll([u] + us, calls, create) == ([Created(Mirror(u), c.reply)] + made.0, [c] + made.1)
  {
    assert ([u] + us)[0] == u;
    assert ([u] + us)[1..] == us;
  }

  /** Phase B on a list led by an unlinked task: that task's request first. */
  lemma PushUnfold(ls: seq<Todo>, remotes: seq<Todo>, calls: seq<Call>, create: Creator)
    requires ls != [] && Unlinked(ls[0])
    ensures var m := Mirror(ls[0]);
      var reply := create(calls, GetDict(m));
      var rest := Push(ls[1..], remotes + [Created(m, reply)], calls + [Create(GetDict(m), reply)], create);
      && Push(ls, remotes, calls, create).calls == rest.calls
      && Push(ls, remotes, calls, create).remotes == rest.remotes
  {
  }

  /** The inductive step of `PushIsCreateAll` for a list led by an unlinked task. */
  lemma PushUnlinkedStep(ls: seq<Todo>, remotes: seq<Todo>, calls: seq<Call>, create: Creator)
    requires ls != [] && Unlinked(ls[0])
    ensures (var m := Mirror(ls[0]);
      var reply := create(calls, GetDict(m));
      var made := CreateAll(UnlinkedOf(ls[1..]), calls + [Create(GetDict(m), reply)], create);
      var pushed := Push(ls[1..], remotes + [Created(m, reply)], calls + [Create(GetDict(m), reply)], create);
      pushed.remotes == remotes + [Created(m, reply)] + made.0 && pushed.calls == calls + [Create(GetDict(m), reply)] + made.1)
      ==>
      (var made := CreateAll(UnlinkedOf(ls), calls, create);
      var pushed := Push(ls, remotes, calls, create);
      pushed.remotes == remotes + made.0 && pushed.calls == calls + made.1)
  {
    var m := Mirror(ls[0]);
    var reply := create(calls, GetDict(m));
    var c := Create(GetDict(m), reply);
    assert UnlinkedOf(ls) == [ls[0]] + UnlinkedOf(ls[1..]);
    var made := CreateAll(UnlinkedOf(ls[1..]), calls + [c], create);
    PushUnfold(ls, remotes, calls, create);
    CreateAllCons(ls[0], UnlinkedOf(ls[1..]), calls, create);
    Assoc(remotes, [Created(m, reply)], made.0);
    Assoc(calls, [c], made.1);
  }

  /** The request `c` sends the mirror of `u`, and `t` is that mirror with the
      answer's id. */
  predicate MadeFrom(u: Todo, t: Todo, c: Call) {
    c.Create? && c.payload == GetDict(Mirror(u)) && t == Created(Mirror(u), c.reply)
  }

  /** Each request sends the mirror of its task, and each new remote task is
      that mirror with the answer's id. */
  lemma {:induction false} CreateAllPairs(us: seq<Todo>, calls: seq<Call>, create: Creator)
    ensures var made := CreateAll(us, calls, create);
      forall k :: 0 <= k < |us| ==> MadeFrom(us[k], made.0[k], made.1[k])
    decreases |us|
  {
    if us != [] {
      var c := Create(GetDict(Mirror(us[0])), create(calls, GetDict(Mirror(us[0]))));
      CreateAllPairs(us[1..], calls + [c], create);
      var made := CreateAll(us, calls, create);
      var rest := CreateAll(us[1..], calls + [c], create);
      assert made.0 == [Created(Mirror(us[0]), c.reply)] + rest.0;
      assert made.1 == [c] + rest.1;
      assert MadeFrom(us[0], made.0[0], made.1[0]);
      ConsAll(us, made.0, made.1, MadeFrom);
    }
  }

  /** A mirror of an unlinked pending task is pending and carries no id of its
      own, so the new remote task's id is exactly the service's answer; a plain
      text crosses over unchanged. */
  lemma MirrorOfUnlinked(u: Todo, reply: Option<string>)
    requires Unlinked(u)
    ensures !Created(Mirror(u), reply).done
    ensures Created(Mirror(u), reply).id == reply
    ensures CleanText(u.text) && !Pattern.PriorityAt(u.text) ==> Mirror(u).text == u.text
  {
    if CleanText(u.text) && !Pattern.PriorityAt(u.text) {
      PayloadMirror(u);
    }
  }

  // ---------------------------------------------------------------------------
  // Phase C: linked pairs whose completion flags or projects disagree

  /** Each of `more` not yet in `have` is appended, in order (the inner loop
      over `local_todo.projects`). */
  function AddMissing(have: seq<string>, more: seq<string>): (r: seq<string>)
    ensures have <= r
    ensures forall p :: p in more ==> p in r
    ensures forall p :: p in r ==> p in have || p in more
    ensures (forall p :: p in more ==> p in have) ==> r == have
    decreases |more|
  {
    if more == [] then have
    else
      var grown := if more[0] in have then have else have + [more[0]];
      var r := AddMissing(grown, more[1..]);
      PrefixMembers(grown, r);
      assert more == [more[0]] + more[1..];
      r
  }

  /** The position of the first occurrence of `p` in `s`. */
  function FirstIndex(s: seq<string>, p: string): (i: nat)
    requires p in s
    ensures i < |s| && s[i] == p && forall j :: 0 <= j < i ==> s[j] != p
  {
    if s[0] == p then 0 else 1 + FirstIndex(s[1..], p)
  }

  /** The projects the loop appends were not listed before, are appended once
      each, and come in the order the local task first lists them. */
  lemma {:induction false} AddMissingAppends(have: seq<string>, more: seq<string>)
    ensures var r := AddMissing(have, more);
      && (forall i :: |have| <= i < |r| ==> r[i] !in have && r[i] in more)
      && (forall i, j :: |have| <= i < j < |r| ==> r[i] != r[j])
      && (forall i, j :: |have| <= i < j < |r| ==> FirstIndex(more, r[i]) < FirstIndex(more, r[j]))
    decreases |more|
  {
    if more != [] {
      var r := AddMissing(have, more);
      var grown := if more[0] in have then have else have + [more[0]];
      AddMissingAppends(grown, more[1..]);
      assert r == AddMissing(grown, more[1..]);
      forall i | |grown| <= i < |r|
        ensures r[i] != more[0] && FirstIndex(more, r[i]) == 1 + FirstIndex(more[1..], r[i])
      {
        if more[0] !in have {
          assert grown[|have|] == more[0];
        }
      }
      if more[0] !in have {
        assert r[|have|] == grown[|have|] == more[0];
      }
    }
  }

  /** `b` is `a` with, at most, its completion flag set and projects appended. */
  predicate Grown(a: Todo, b: Todo) {
    && b == a.(done := b.done, projects := b.projects)
    && (a.done ==> b.done)
    && a.projects <= b.projects
  }

  /** What one (local, remote) pair of the Phase C double loop leaves behind. */
  datatype Visited = Visited(local: Todo, remote: Todo, calls: seq<Call>, actions: nat)

  /** The body of the Phase C inner loop.  Completing a remote task whose id
      is `None` builds its URL from `None` and fails. */
  function Visit(l: Todo, h: Todo): (r: Result<Visited, Error>)
    ensures !IsLink(l, h) ==> r == Ok(Visited(l, h, [], 0))
    ensures r.Err? <==> IsLink(l, h) && l.done && !h.done && h.id.None?
    ensures r.Err? ==> r.error == TypeError
    ensures r.Ok? ==> Grown(h, r.value.remote)
    ensures r.Ok? ==> r.value.local == l.(done := r.value.local.done) && (l.done ==> r.value.local.done)
    ensures r.Ok? && IsLink(l, h) ==>
      && r.value.local.done == (l.done || h.done)
      && r.value.remote.done == (l.done || h.done)
      && r.value.actions == (if l.done == h.done then 0 else 1)
      && r.value.calls == (if l.done && !h.done then [Complete(h.id.value)] else [])
      && (forall p :: p in l.projects ==> p in r.value.remote.projects)
      && (forall p :: p in r.value.remote.projects ==> p in h.projects || p in l.projects)
  {
    if !IsLink(l, h) then Ok(Visited(l, h, [], 0))
    else
      var l1 := if h.done && !l.done then l.(done := true) else l;
      var pulled := if h.done && !l.done then 1 else 0;
      if l1.done && !h.done then
        if h.id.None? then Err(TypeError)
        else Ok(Visited(l1, h.(done := true, projects := AddMissing(h.projects, l1.projects)),
                        [Complete(h.id.value)], pulled + 1))
      else Ok(Visited(l1, h.(projects := AddMissing(h.projects, l1.projects)), [], pulled))
  }

  /** Every remote task linked to `l` has the same completion flag. */
  predicate AgreesAll(l: Todo, hs: seq<Todo>) {
    forall j :: 0 <= j < |hs| && IsLink(l, hs[j]) ==> l.done == hs[j].done
  }

  /** Every remote task linked to `l` lists all of `l`'s projects. */
  predicate CoversAll(l: Todo, hs: seq<Todo>) {
    forall j :: 0 <= j < |hs| && IsLink(l, hs[j]) ==> forall p :: p in l.projects ==> p in hs[j].projects
  }

  /** What the inner loop over every remote task leaves behind for one local task. */
  datatype Swept = Swept(local: Todo, remotes: seq<Todo>, calls: seq<Call>, actions: nat)

  /** The Phase C inner loop: one local task against every remote task. */
  function Sweep(l: Todo, hs: seq<Todo>): (r: Result<Swept, Error>)
    ensures r.Ok? ==> |r.value.remotes| == |hs|
    decreases |hs|
  {
    if hs == [] then Ok(Swept(l, [], [], 0))
    else
      var v :- Visit(l, hs[0]);
      var rest :- Sweep(v.local, hs[1..]);
      Ok(Swept(rest.local, [v.remote] + rest.remotes, v.calls + rest.calls, v.actions + rest.actions))
  }

  /** The inner loop may set the local task's flag and, for each remote task,
      set its flag and append projects; nothing else changes. */
  lemma {:induction false} SweepShape(l: Todo, hs: seq<Todo>)
    requires Sweep(l, hs).Ok?
    ensures var sw := Sweep(l, hs).value;
      && sw.local == l.(done := sw.local.done) && (l.done ==> sw.local.done)
      && forall j :: 0 <= j < |hs| ==> Grown(hs[j], sw.remotes[j])
    decreases |hs|
  {
    if hs != [] {
      var v := Visit(l, hs[0]).value;
      SweepShape(v.local, hs[1..]);
      var sw := Sweep(l, hs).value;
      var rest := Sweep(v.local, hs[1..]).value;
      assert sw.remotes == [v.remote] + rest.remotes;
      forall j | 0 <= j < |hs|
        ensures Grown(hs[j], sw.remotes[j])
      {
        if j > 0 {
          assert hs[j] == hs[1..][j - 1];
          assert sw.remotes[j] == rest.remotes[j - 1];
        }
      }
    }
  }

  /** The inner loop counts no action, and then changes no flag and makes no
      request, exactly when every linked remote task already agrees with the
      local one. */
  lemma {:induction false} SweepZero(l: Todo, hs: seq<Todo>)
    ensures Sweep(l, hs).Ok? && Sweep(l, hs).value.actions == 0 <==> AgreesAll(l, hs)
    ensures Sweep(l, hs).Ok? && Sweep(l, hs).value.actions == 0 ==>
      var sw := Sweep(l, hs).value;
      sw.local == l && sw.calls == [] && SameFlags(hs, sw.remotes)
    decreases |hs|
  {
    if hs != [] {
      AllCons(l, hs);
      match Visit(l, hs[0])
      case Err(_) =>
      case Ok(v) =>
        if v.actions == 0 {
          assert v.local == l;
          SweepZero(l, hs[1..]);
          if Sweep(l, hs).Ok? && Sweep(l, hs).value.actions == 0 {
            var rest := Sweep(l, hs[1..]).value;
            assert Sweep(l, hs).value.remotes == [v.remote] + rest.remotes;
            HeadTail(hs);
            SameFlagsCons(hs[0], hs[1..], v.remote, rest.remotes);
          }
        }
    }
  }

  /** Agreement and coverage over a list are agreement and coverage over its
      head and over its tail. */
  lemma AllCons(l: Todo, hs: seq<Todo>)
    requires hs != []
    ensures AgreesAll(l, hs) <==> (IsLink(l, hs[0]) ==> l.done == hs[0].done) && AgreesAll(l, hs[1..])
    ensures CoversAll(l, hs) <==>
      (IsLink(l, hs[0]) ==> forall p :: p in l.projects ==> p in hs[0].projects) && CoversAll(l, hs[1..])
  {
    assert forall j :: 0 < j < |hs| ==> hs[j] == hs[1..][j - 1];
  }

  lemma SameFlagsCons(a: Todo, as_: seq<Todo>, b: Todo, bs: seq<Todo>)
    requires a.done == b.done && SameFlags(as_, bs)
    ensures SameFlags([a] + as_, [b] + bs)
  {
    assert forall j :: 0 < j < |as_| + 1 ==> ([a] + as_)[j] == as_[j - 1] && ([b] + bs)[j] == bs[j - 1];
  }

  /** After the inner loop every linked remote task lists the local task's projects. */
  lemma {:induction false} SweepCovers(l: Todo, hs: seq<Todo>)
    requires Sweep(l, hs).Ok?
    ensures CoversAll(l, Sweep(l, hs).value.remotes)
    decreases |hs|
  {
    if hs != [] {
      var v := Visit(l, hs[0]).value;
      SweepCovers(v.local, hs[1..]);
      var rest := Sweep(v.local, hs[1..]).value;
      CoversSame(v.local, l, rest.remotes);
      assert IsLink(l, v.remote) ==> forall p :: p in l.projects ==> p in v.remote.projects;
      CoversCons(l, v.remote, rest.remotes);
    }
  }

  /** Coverage depends only on the local task's projects and addons. */
  lemma CoversSame(l: Todo, l2: Todo, hs: seq<Todo>)
    requires l2.projects == l.projects && l2.addons == l.addons
    ensures CoversAll(l, hs) ==> CoversAll(l2, hs)
  {
  }

  /** Coverage of a list with a known head. */
  lemma CoversCons(l: Todo, h: Todo, hs: seq<Todo>)
    requires IsLink(l, h) ==> forall p :: p in l.projects ==> p in h.projects
    requires CoversAll(l, hs)
    ensures CoversAll(l, [h] + hs)
  {
    forall j | 0 <= j < |[h] + hs| && IsLink(l, ([h] + hs)[j])
      ensures forall p :: p in l.projects ==> p in ([h] + hs)[j].projects
    {
      if j > 0 {
        assert ([h] + hs)[j] == hs[j - 1];
      }
    }
  }

  /** When everything already agrees and is covered, the inner loop changes nothing. */
  lemma {:induction false} SweepIdle(l: Todo, hs: seq<Todo>)
    requires AgreesAll(l, hs) && CoversAll(l, hs)
    ensures Sweep(l, hs) == Ok(Swept(l, hs, [], 0))
    decreases |hs|
  {
    if hs != [] {
      AllCons(l, hs);
      assert Visit(l, hs[0]) == Ok(Visited(l, hs[0], [], 0));
      SweepIdle(l, hs[1..]);
      HeadTail(hs);
      var sw := Sweep(l, hs).value;
      assert sw.remotes == [hs[0]] + hs[1..];
      assert sw.calls == [] + [];
      assert sw == Swept(l, hs, [], 0);
    }
  }

  /** `b` is `a`, remote task by remote task, grown as Phase C grows them. */
  predicate AllGrown(a: seq<Todo>, b: seq<Todo>) {
    |a| == |b| && forall j :: 0 <= j < |a| ==> Grown(a[j], b[j])
  }

  /** Same completion flags, position by position. */
  predicate SameFlags(a: seq<Todo>, b: seq<Todo>) {
    |a| == |b| && forall j :: 0 <= j < |a| ==> a[j].done == b[j].done
  }

  /** Every local task agrees with every remote task linked to it. */
  predicate Agreed(ls: seq<Todo>, hs: seq<Todo>) {
    forall i :: 0 <= i < |ls| ==> AgreesAll(ls[i], hs)
  }

  /** Every remote task lists the projects of every local task linked to it. */
  predicate Covered(ls: seq<Todo>, hs: seq<Todo>) {
    forall i :: 0 <= i < |ls| ==> CoversAll(ls[i], hs)
  }

  lemma GrownTrans(a: Todo, b: Todo, c: Todo)
    requires Grown(a, b) && Grown(b, c)
    ensures Grown(a, c)
  {
    assert a.projects <= c.projects by {
      assert c.projects[..|a.projects|] == b.projects[..|a.projects|];
    }
  }

  /** What the outer Phase C loop leaves behind. */
  datatype Reconciled = Reconciled(locals: seq<Todo>, remotes: seq<Todo>, calls: seq<Call>, actions: nat)

  /** Phase C: every local task against every remote task, each inner loop
      seeing the remote list as the earlier ones left it. */
  function Reconcile(ls: seq<Todo>, hs: seq<Todo>): (r: Result<Reconciled, Error>)
    ensures r.Ok? ==> |r.value.locals| == |ls| && |r.value.remotes| == |hs|
    decreases |ls|
  {
    if ls == [] then Ok(Reconciled([], hs, [], 0))
    else
      var sw :- Sweep(ls[0], hs);
      var rest :- Reconcile(ls[1..], sw.remotes);
      Ok(Reconciled([sw.local] + rest.locals, rest.remotes, sw.calls + rest.calls, sw.actions + rest.actions))
  }

  /** Phase C may set completion flags on either side and append projects on
      the remote side; nothing else changes. */
  lemma ReconcileShape(ls: seq<Todo>, hs: seq<Todo>)
    requires Reconcile(ls, hs).Ok?
    ensures var rc := Reconcile(ls, hs).value;
      && (forall i :: 0 <= i < |ls| ==>
            rc.locals[i] == ls[i].(done := rc.locals[i].done) && (ls[i].done ==> rc.locals[i].done))
      && AllGrown(hs, rc.remotes)
  {
    ReconcileLocals(ls, hs);
    ReconcileGrows(ls, hs);
  }

  /** Phase C may only set local completion flags. */
  lemma {:induction false} ReconcileLocals(ls: seq<Todo>, hs: seq<Todo>)
    requires Reconcile(ls, hs).Ok?
    ensures var rc := Reconcile(ls, hs).value;
      forall i :: 0 <= i < |ls| ==>
        rc.locals[i] == ls[i].(done := rc.locals[i].done) && (ls[i].done ==> rc.locals[i].done)
    decreases |ls|
  {
    if ls != [] {
      var sw := Sweep(ls[0], hs).value;
      SweepShape(ls[0], hs);
      ReconcileLocals(ls[1..], sw.remotes);
      var rest := Reconcile(ls[1..], sw.remotes).value;
      var rc := Reconcile(ls, hs).value;
      assert rc.locals == [sw.local] + rest.locals;
      forall i | 0 < i < |ls|
        ensures rc.locals[i] == ls[i].(done := rc.locals[i].done) && (ls[i].done ==> rc.locals[i].done)
      {
        assert rc.locals[i] == rest.locals[i - 1];
        assert ls[i] == ls[1..][i - 1];
      }
    }
  }

  /** Phase C may only set remote completion flags and append remote projects. */
  lemma {:induction false} ReconcileGrows(ls: seq<Todo>, hs: seq<Todo>)
    requires Reconcile(ls, hs).Ok?
    ensures AllGrown(hs, Reconcile(ls, hs).value.remotes)
    decreases |ls|
  {
    if ls != [] {
      var sw := Sweep(ls[0], hs).value;
      SweepShape(ls[0], hs);
      ReconcileGrows(ls[1..], sw.remotes);
      var rest := Reconcile(ls[1..], sw.remotes).value;
      forall j | 0 <= j < |hs|
        ensures Grown(hs[j], rest.remotes[j])
      {
        GrownTrans(hs[j], sw.remotes[j], rest.remotes[j]);
      }
    }
  }

  /** Agreement is about links and flags only. */
  lemma AgreedSame(ls: seq<Todo>, a: seq<Todo>, b: seq<Todo>)
    requires AllGrown(a, b) && SameFlags(a, b)
    ensures Agreed(ls, a) <==> Agreed(ls, b)
  {
    forall i, j | 0 <= i < |ls| && 0 <= j < |a|
      ensures IsLink(ls[i], a[j]) == IsLink(ls[i], b[j])
    {
      assert a[j].id == b[j].id;
    }
  }

  /** Linkage is about ids only. */
  lemma AllLinkedSame(ls: seq<Todo>, a: seq<Todo>, b: seq<Todo>)
    requires AllGrown(a, b) && SameFlags(a, b)
    ensures AllLinked(ls, a) <==> AllLinked(ls, b)
  {
    forall j | 0 <= j < |a|
      ensures Linked(ls, a[j]) == Linked(ls, b[j])
    {
      assert a[j].id == b[j].id;
    }
  }

  /** Coverage survives growth of the remote tasks. */
  lemma CoversGrown(l: Todo, a: seq<Todo>, b: seq<Todo>)
    requires CoversAll(l, a) && AllGrown(a, b)
    ensures CoversAll(l, b)
  {
    forall j | 0 <= j < |b| && IsLink(l, b[j])
      ensures forall p :: p in l.projects ==> p in b[j].projects
    {
      assert a[j].id == b[j].id;
      PrefixMembers(a[j].projects, b[j].projects);
    }
  }

  /** Phase C counts no action, and then changes no flag and makes no
      request, exactly when every linked pair already agrees. */
  lemma {:induction false} ReconcileZero(ls: seq<Todo>, hs: seq<Todo>)
    ensures Reconcile(ls, hs).Ok? && Reconcile(ls, hs).value.actions == 0 <==> Agreed(ls, hs)
    ensures Reconcile(ls, hs).Ok? && Reconcile(ls, hs).value.actions == 0 ==>
      var rc := Reconcile(ls, hs).value;
      rc.locals == ls && rc.calls == [] && SameFlags(hs, rc.remotes)
    decreases |ls|
  {
    if ls != [] {
      SweepZero(ls[0], hs);
      AgreedCons(ls, hs);
      if Sweep(ls[0], hs).Ok? && Sweep(ls[0], hs).value.actions == 0 {
        var sw := Sweep(ls[0], hs).value;
        SweepShape(ls[0], hs);
        ReconcileZero(ls[1..], sw.remotes);
        AgreedSame(ls[1..], hs, sw.remotes);
        if Reconcile(ls, hs).Ok? && Reconcile(ls, hs).value.actions == 0 {
          var rest := Reconcile(ls[1..], sw.remotes).value;
          assert Reconcile(ls, hs).value.locals == [ls[0]] + rest.locals;
          HeadTail(ls);
          SameFlagsTrans(hs, sw.remotes, rest.remotes);
        }
      }
    }
  }

  /** Agreement of a list is agreement of its head and of its tail. */
  lemma AgreedCons(ls: seq<Todo>, hs: seq<Todo>)
    requires ls != []
    ensures Agreed(ls, hs) <==> AgreesAll(ls[0], hs) && Agreed(ls[1..], hs)
  {
    if AgreesAll(ls[0], hs) && Agreed(ls[1..], hs) {
      forall i | 0 < i < |ls|
        ensures AgreesAll(ls[i], hs)
      {
        assert ls[i] == ls[1..][i - 1];
      }
    }
  }

  lemma SameFlagsTrans(a: seq<Todo>, b: seq<Todo>, c: seq<Todo>)
    requires SameFlags(a, b) && SameFlags(b, c)
    ensures SameFlags(a, c)
  {
  }

  /** After Phase C every linked remote task lists its local task's projects. */
  lemma {:induction false} ReconcileCovers(ls: seq<Todo>, hs: seq<Todo>)
    requires Reconcile(ls, hs).Ok?
    ensures Covered(Reconcile(ls, hs).value.locals, Reconcile(ls, hs).value.remotes)
    decreases |ls|
  {
    if ls != [] {
      var sw := Sweep(ls[0], hs).value;
      var rest := Reconcile(ls[1..], sw.remotes).value;
      SweepCovers(ls[0], hs);
      SweepShape(ls[0], hs);
      ReconcileGrows(ls[1..], sw.remotes);
      ReconcileCovers(ls[1..], sw.remotes);
      CoversGrown(ls[0], sw.remotes, rest.remotes);
      CoversSame(ls[0], sw.local, rest.remotes);
      CoveredCons(sw.local, rest.locals, rest.remotes);
    }
  }

  lemma CoveredCons(l: Todo, ls: seq<Todo>, hs: seq<Todo>)
    requires CoversAll(l, hs) && Covered(ls, hs)
    ensures Covered([l] + ls, hs)
  {
    assert forall i :: 0 < i < |ls| + 1 ==> ([l] + ls)[i] == ls[i - 1];
  }

  /** When every linked pair agrees and is covered, Phase C changes nothing. */
  lemma {:induction false} ReconcileIdle(ls: seq<Todo>, hs: seq<Todo>)
    requires Agreed(ls, hs) && Covered(ls, hs)
    ensures Reconcile(ls, hs) == Ok(Reconciled(ls, hs, [], 0))
    decreases |ls|
  {
    if ls != [] {
      SweepIdle(ls[0], hs);
      assert Agreed(ls[1..], hs) && Covered(ls[1..], hs) by {
        forall i | 0 <= i < |ls[1..]|
          ensures ls[1..][i] == ls[i + 1]
        {
        }
      }
      ReconcileIdle(ls[1..], hs);
      var rc := Reconcile(ls, hs).value;
      assert rc.locals == [ls[0]] + ls[1..] == ls;
      assert rc.calls == [] + [];
      assert rc == Reconciled(ls, hs, [], 0);
    }
  }

  // ---------------------------------------------------------------------------
  // The loop

  /** One pass of `while actions != 0`: Phase A; if it counted nothing, Phase B;
      if that counted nothing, Phase C.  The count is the pass's `actions`. */
  function Pass(st: State, create: Creator): (r: Result<(State, nat), Error>)
    ensures r.Ok? ==> var next := r.value.0;
      && |st.remotes| <= |next.remotes| && |st.calls| <= |next.calls|
  {
    var found :- Discover(st.locals, st.remotes);
    if found.1 > 0 then Ok((st.(locals := found.0), found.1))
    else
      var pushed := Push(found.0, st.remotes, st.calls, create);
      if pushed.actions > 0 then Ok((State(found.0, pushed.remotes, pushed.calls), pushed.actions))
      else
        var rec :- Reconcile(found.0, pushed.remotes);
        Ok((State(rec.locals, rec.remotes, pushed.calls + rec.calls), rec.actions))
  }

  /** Nothing left to do: every pending remote task is linked, every pending
      local task is linked, and every linked pair agrees on completion. */
  predicate Synced(st: State) {
    && AllLinked(st.locals, st.remotes)
    && UnlinkedOf(st.locals) == []
    && Agreed(st.locals, st.remotes)
  }

  /** Phase A counting nothing leaves the local list as it was. */
  lemma {:induction false} DiscoverIdle(locals: seq<Todo>, remotes: seq<Todo>)
    requires Discover(locals, remotes).Ok? && Discover(locals, remotes).value.1 == 0
    ensures Discover(locals, remotes).value.0 == locals
    decreases |remotes|
  {
    if remotes != [] {
      DiscoverIdle(locals, remotes[1..]);
    }
  }

  /** A pass counts no action exactly when the state is synced. */
  lemma PassZero(st: State, create: Creator)
    ensures Pass(st, create).Ok? && Pass(st, create).value.1 == 0 <==> Synced(st)
  {
    DiscoverZero(st.locals, st.remotes);
    if Discover(st.locals, st.remotes).Ok? && Discover(st.locals, st.remotes).value.1 == 0 {
      DiscoverIdle(st.locals, st.remotes);
    }
    var pushed := Push(st.locals, st.remotes, st.calls, create);
    PushShape(st.locals, st.remotes, st.calls, create);
    if pushed.actions == 0 {
      assert pushed.remotes == st.remotes;
    }
    ReconcileZero(st.locals, st.remotes);
  }

  /** A pass that counts no action leaves the lists synced and covered, having
      at most appended projects to remote tasks. */
  lemma PassSettles(st: State, create: Creator)
    requires Pass(st, create).Ok? && Pass(st, create).value.1 == 0
    ensures var next := Pass(st, create).value.0;
      && next.locals == st.locals && next.calls == st.calls
      && AllGrown(st.remotes, next.remotes) && SameFlags(st.remotes, next.remotes)
      && Synced(next) && Covered(next.locals, next.remotes)
  {
    PassZero(st, create);
    DiscoverIdle(st.locals, st.remotes);
    var pushed := Push(st.locals, st.remotes, st.calls, create);
    PushShape(st.locals, st.remotes, st.calls, create);
    assert pushed.remotes == st.remotes && pushed.calls == st.calls;
    ReconcileZero(st.locals, st.remotes);
    ReconcileShape(st.locals, st.remotes);
    ReconcileCovers(st.locals, st.remotes);
    var next := Pass(st, create).value.0;
    AllLinkedSame(st.locals, st.remotes, next.remotes);
    AgreedSame(st.locals, st.remotes, next.remotes);
  }

  /** A synced, covered state is a fixed point of the pass. */
  lemma PassFixed(st: State, create: Creator)
    requires Synced(st) && Covered(st.locals, st.remotes)
    ensures Pass(st, create) == Ok((st, 0))
  {
    DiscoverZero(st.locals, st.remotes);
    var pushed := Push(st.locals, st.remotes, st.calls, create);
    PushShape(st.locals, st.remotes, st.calls, create);
    assert pushed.remotes == st.remotes && pushed.calls == st.calls;
    ReconcileIdle(st.locals, st.remotes);
    assert st.calls + [] == st.calls;
    assert State(st.locals, st.remotes, st.calls + []) == st;
  }

  /** The loop, run for at most `fuel` passes; `NoFixedPoint` when the budget
      runs out first. */
  function Run(st: State, create: Creator, fuel: nat): (r: Result<State, Error>)
    ensures r.Ok? ==> Synced(r.value) && Covered(r.value.locals, r.value.remotes)
    decreases fuel
  {
    if fuel == 0 then Err(NoFixedPoint)
    else
      var step :- Pass(st, create);
      if step.1 == 0 then
        PassSettles(st, create);
        Ok(step.0)
      else Run(step.0, create, fuel - 1)
  }

  /** Whatever the loop ends with is synced, covered, and left unchanged by a
      further pass. */
  lemma {:induction false} RunSettles(st: State, create: Creator, fuel: nat)
    requires Run(st, create, fuel).Ok?
    ensures Synced(Run(st, create, fuel).value)
    ensures Covered(Run(st, create, fuel).value.locals, Run(st, create, fuel).value.remotes)
    ensures Pass(Run(st, create, fuel).value, create) == Ok((Run(st, create, fuel).value, 0))
    decreases fuel
  {
    var step := Pass(st, create).value;
    if step.1 == 0 {
      PassSettles(st, create);
      PassFixed(step.0, create);
    } else {
      RunSettles(step.0, create, fuel - 1);
    }
  }

  /** `b` is the local task `a` after a pass: its flag may have been set and
      its `habitica_id` set or changed, but never removed; nothing else moves. */
  ghost predicate Evolves(a: Todo, b: Todo) {
    && b == a.(done := b.done, addons := b.addons)
    && (a.done ==> b.done)
    && (Lookup(a.addons, HabiticaId).Some? ==> Lookup(b.addons, HabiticaId).Some?)
    && forall key :: key != HabiticaId ==> Lookup(b.addons, key) == Lookup(a.addons, key)
  }

  /** `next` only adds to `st`: local and remote tasks are kept in place,
      flags are never cleared, links never removed, requests only appended. */
  ghost predicate Keeps(st: State, next: State) {
    && |st.locals| <= |next.locals|
    && (forall i :: 0 <= i < |st.locals| ==> Evolves(st.locals[i], next.locals[i]))
    && |st.remotes| <= |next.remotes|
    && (forall j :: 0 <= j < |st.remotes| ==> Grown(st.remotes[j], next.remotes[j]))
    && st.calls <= next.calls
  }

  /** A pass only ever adds: local and remote tasks are kept in place, flags
      are never cleared, links never removed, requests only appended. */
  lemma PassKeeps(st: State, create: Creator)
    requires Pass(st, create).Ok?
    ensures Keeps(st, Pass(st, create).value.0)
  {
    var found := Discover(st.locals, st.remotes).value;
    if found.1 > 0 {
      DiscoverKeeps(st.locals, st.remotes);
      assert Keeps(st, st.(locals := found.0));
    } else {
      DiscoverIdle(st.locals, st.remotes);
      var pushed := Push(st.locals, st.remotes, st.calls, create);
      if pushed.actions > 0 {
        PushKeeps(st, create);
      } else {
        ReconcileKeeps(st, create);
      }
    }
  }

  /** Phase B only appends remote tasks and requests. */
  lemma PushKeeps(st: State, create: Creator)
    ensures var pushed := Push(st.locals, st.remotes, st.calls, create);
      Keeps(st, State(st.locals, pushed.remotes, pushed.calls))
  {
    var pushed := Push(st.locals, st.remotes, st.calls, create);
    PushShape(st.locals, st.remotes, st.calls, create);
    forall j | 0 <= j < |st.remotes|
      ensures pushed.remotes[j] == st.remotes[j]
    {
      assert pushed.remotes[..|st.remotes|][j] == st.remotes[j];
    }
  }

  /** Phase C, run when Phase B found nothing to push, only sets flags and
      appends projects. */
  lemma ReconcileKeeps(st: State, create: Creator)
    requires Push(st.locals, st.remotes, st.calls, create).actions == 0
    ensures var pushed := Push(st.locals, st.remotes, st.calls, create);
      Reconcile(st.locals, pushed.remotes).Ok? ==>
        var rec := Reconcile(st.locals, pushed.remotes).value;
        Keeps(st, State(rec.locals, rec.remotes, pushed.calls + rec.calls))
  {
    var pushed := Push(st.locals, st.remotes, st.calls, create);
    PushShape(st.locals, st.remotes, st.calls, create);
    assert pushed.remotes == st.remotes && pushed.calls == st.calls;
    if Reconcile(st.locals, st.remotes).Ok? {
      ReconcileShape(st.locals, st.remotes);
    }
  }
}
