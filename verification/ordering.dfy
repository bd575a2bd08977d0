/** The final ordering: `local_todos.sort(key = lambda x: str(x))`, a stable
    sort by the written line, and `sort_habitica_tasks`, which asks the remote
    service to move every pending task to its local position. */
module Ordering {
  import opened Wrappers
  import opened Text
  import opened Tokens
  import opened Todos
  import Sync
  import opened Sorting

  // ---------------------------------------------------------------------------
  // Sorting the local tasks

  /** `str(x)`, the written line of a task; the empty string stands in for a
      task that cannot be written, which the sort below never compares. */
  function Line(t: Todo): (r: string)
    ensures AllPresent(t.addons) <==> Format(t) == Ok(r)
  {
    match Format(t)
    case Ok(line) => line
    case Err(_) => []
  }

  /** `str(x)` for every task, in order.  Python computes every key before
      sorting, so one `None` addon anywhere fails the whole sort. */
  function Lines(ts: seq<Todo>): (r: Result<seq<string>, Error>)
    ensures r.Ok? <==> forall i :: 0 <= i < |ts| ==> AllPresent(ts[i].addons)
    ensures r.Err? ==> r.error == TypeError
    ensures r.Ok? ==> |r.value| == |ts| && forall i :: 0 <= i < |ts| ==> Format(ts[i]) == Ok(r.value[i])
    decreases |ts|
  {
    if ts == [] then Ok([])
    else
      var line :- Format(ts[0]);
      var rest :- Lines(ts[1..]);
      assert forall i :: 1 <= i < |ts| ==> ts[i] == ts[1..][i - 1];
      Ok([line] + rest)
  }

  /** `local_todos.sort(key = lambda x: str(x))`. */
  function SortLocals(ts: seq<Todo>): (r: Result<seq<Todo>, Error>)
    ensures r.Ok? <==> forall i :: 0 <= i < |ts| ==> AllPresent(ts[i].addons)
    ensures r.Err? ==> r.error == TypeError
    ensures r.Ok? ==> multiset(r.value) == multiset(ts)
  {
    var lines :- Lines(ts);
    Ok(Sort(ts, Line))
  }

  /** The sort of the local tasks fails exactly when some task has a `None`
      addon; otherwise it permutes the tasks, orders them by written line, and
      keeps tasks with the same line in their original order. */
  lemma SortLocalsSpec(ts: seq<Todo>)
    ensures SortLocals(ts).Ok? <==> forall i :: 0 <= i < |ts| ==> AllPresent(ts[i].addons)
    ensures SortLocals(ts).Err? ==> SortLocals(ts).error == TypeError
    ensures SortLocals(ts).Ok? ==>
      var r := SortLocals(ts).value;
      && multiset(r) == multiset(ts)
      && (forall i :: 0 <= i < |r| ==> Format(r[i]) == Ok(Line(r[i])))
      && (forall i, j :: 0 <= i < j < |r| ==> LexLe(Line(r[i]), Line(r[j])))
      && (forall line :: WithKey(r, Line, line) == WithKey(ts, Line, line))
  {
    if Lines(ts).Ok? {
      var r := Sort(ts, Line);
      SortSorted(ts, Line);
      forall i | 0 <= i < |r|
        ensures Format(r[i]) == Ok(Line(r[i]))
      {
        assert r[i] in multiset(ts);
        var k :| 0 <= k < |ts| && ts[k] == r[i];
      }
      forall line
        ensures WithKey(r, Line, line) == WithKey(ts, Line, line)
      {
        SortStable(ts, Line, line);
      }
    }
  }

  // ---------------------------------------------------------------------------
  // Moving the remote tasks

  /** A request to move the remote task `id` to position `position`. */
  datatype Move = Move(id: string, position: nat)

  /** The task's `habitica_id` addon: absent, present as `None`, or an id. */
  function LinkOf(t: Todo): Option<Option<string>> {
    Lookup(t.addons, HabiticaId)
  }

  /** The task carries a `habitica_id` that is a string. */
  predicate HasId(t: Todo) {
    LinkOf(t).Some? && LinkOf(t).value.Some?
  }

  /** The loop of `sort_habitica_tasks` from index `i` on: completed tasks are
      skipped; a pending task without `habitica_id` fails building its warning
      (a string plus a task object), and one whose `habitica_id` is `None`
      fails building the URL. */
  function Moves(ts: seq<Todo>, i: nat): (r: Result<seq<Move>, Error>)
    requires i <= |ts|
    ensures r.Err? ==> r.error == TypeError
    decreases |ts| - i
  {
    if i == |ts| then Ok([])
    else if ts[i].done then Moves(ts, i + 1)
    else if !HasId(ts[i]) then Err(TypeError)
    else
      var rest :- Moves(ts, i + 1);
      Ok([Move(LinkOf(ts[i]).value.value, i)] + rest)
  }

  /** Every pending task from index `i` on carries a string `habitica_id`. */
  predicate MovableFrom(ts: seq<Todo>, i: nat) {
    forall j :: i <= j < |ts| && !ts[j].done ==> HasId(ts[j])
  }

  /** The moves from `i` on succeed exactly when every pending task there
      carries a string `habitica_id`. */
  lemma {:induction false} MovesOk(ts: seq<Todo>, i: nat)
    requires i <= |ts|
    ensures Moves(ts, i).Ok? <==> MovableFrom(ts, i)
    decreases |ts| - i
  {
    if i < |ts| {
      MovesOk(ts, i + 1);
    }
  }

  /** Each request moves a pending task from index `i` on to its own index,
      under that task's id. */
  lemma {:induction false} MovesTargets(ts: seq<Todo>, i: nat)
    requires i <= |ts| && Moves(ts, i).Ok?
    ensures var ms := Moves(ts, i).value;
      forall k :: 0 <= k < |ms| ==>
        i <= ms[k].position < |ts| && !ts[ms[k].position].done
        && LinkOf(ts[ms[k].position]) == Some(Some(ms[k].id))
    decreases |ts| - i
  {
    if i < |ts| {
      MovesTargets(ts, i + 1);
      if !ts[i].done {
        var rest := Moves(ts, i + 1).value;
        var ms := Moves(ts, i).value;
        assert ms == [Move(LinkOf(ts[i]).value.value, i)] + rest;
        assert forall k :: 0 < k < |ms| ==> ms[k] == rest[k - 1];
      }
    }
  }

  /** The requests follow list order. */
  lemma {:induction false} MovesAscending(ts: seq<Todo>, i: nat)
    requires i <= |ts| && Moves(ts, i).Ok?
    ensures var ms := Moves(ts, i).value;
      forall k, m :: 0 <= k < m < |ms| ==> ms[k].position < ms[m].position
    decreases |ts| - i
  {
    if i < |ts| {
      MovesAscending(ts, i + 1);
      MovesTargets(ts, i + 1);
      if !ts[i].done {
        var rest := Moves(ts, i + 1).value;
        var ms := Moves(ts, i).value;
        assert ms == [Move(LinkOf(ts[i]).value.value, i)] + rest;
        assert forall k :: 0 < k < |ms| ==> ms[k] == rest[k - 1];
      }
    }
  }

  /** Every pending task from index `i` on gets a request. */
  lemma {:induction false} MovesComplete(ts: seq<Todo>, i: nat)
    requires i <= |ts| && Moves(ts, i).Ok?
    ensures var ms := Moves(ts, i).value;
      forall j :: i <= j < |ts| && !ts[j].done ==> exists k :: 0 <= k < |ms| && ms[k].position == j
    decreases |ts| - i
  {
    if i < |ts| {
      MovesComplete(ts, i + 1);
      var rest := Moves(ts, i + 1).value;
      var ms := Moves(ts, i).value;
      if !ts[i].done {
        assert ms == [Move(LinkOf(ts[i]).value.value, i)] + rest;
        forall j | i <= j < |ts| && !ts[j].done
          ensures exists k :: 0 <= k < |ms| && ms[k].position == j
        {
          if j == i {
            assert ms[0].position == j;
          } else {
            var k :| 0 <= k < |rest| && rest[k].position == j;
            assert ms[k + 1] == rest[k];
          }
        }
      }
    }
  }

  /** `sort_habitica_tasks(headers, local_todos)`. */
  function MovePlan(ts: seq<Todo>): (r: Result<seq<Move>, Error>)
    ensures r.Ok? <==> forall j :: 0 <= j < |ts| && !ts[j].done ==> HasId(ts[j])
    ensures r.Err? ==> r.error == TypeError
    ensures r.Ok? ==> forall k :: 0 <= k < |r.value| ==>
      var j := r.value[k].position;
      j < |ts| && !ts[j].done && LinkOf(ts[j]) == Some(Some(r.value[k].id))
  {
    MovesOk(ts, 0);
    if Moves(ts, 0).Ok? then MovesTargets(ts, 0); Moves(ts, 0) else Moves(ts, 0)
  }

  /** After the loop every pending local task is linked, so the moves can only
      fail on a link whose value is `None`. */
  lemma SyncedMovable(ts: seq<Todo>)
    requires Sync.UnlinkedOf(ts) == []
    requires forall i :: 0 <= i < |ts| ==> LinkOf(ts[i]) != Some(None)
    ensures MovePlan(ts).Ok?
  {
    forall j | 0 <= j < |ts| && !ts[j].done
      ensures HasId(ts[j])
    {
      assert !Sync.Unlinked(ts[j]);
    }
    MovesOk(ts, 0);
  }

  /** After a loop that settled, the sorted local list has no pending task
      without `habitica_id`, and the move plan succeeds: a `None` link would
      already have made the sort fail. */
  lemma SettledMovable(st: Sync.State, create: Sync.Creator, fuel: nat)
    ensures Sync.Run(st, create, fuel).Ok? && SortLocals(Sync.Run(st, create, fuel).value.locals).Ok? ==>
      var sorted := SortLocals(Sync.Run(st, create, fuel).value.locals).value;
      Sync.UnlinkedOf(sorted) == [] && MovePlan(sorted).Ok?
  {
    if Sync.Run(st, create, fuel).Ok? && SortLocals(Sync.Run(st, create, fuel).value.locals).Ok? {
      var settled := Sync.Run(st, create, fuel).value.locals;
      forall i | 0 <= i < |settled|
        ensures LinkOf(settled[i]) != Some(None)
      {
        PresentLookup(settled[i].addons, HabiticaId);
      }
      PermutedMovable(settled, SortLocals(settled).value);
    }
  }

  /** Reordering a list whose pending tasks are all linked keeps them linked. */
  lemma PermutedMovable(ts: seq<Todo>, us: seq<Todo>)
    requires multiset(us) == multiset(ts) && Sync.UnlinkedOf(ts) == []
    ensures Sync.UnlinkedOf(us) == []
    ensures (forall i :: 0 <= i < |ts| ==> LinkOf(ts[i]) != Some(None)) ==> MovePlan(us).Ok?
  {
    forall i | 0 <= i < |us|
      ensures !Sync.Unlinked(us[i])
      ensures (forall k :: 0 <= k < |ts| ==> LinkOf(ts[k]) != Some(None)) ==> LinkOf(us[i]) != Some(None)
    {
      assert us[i] in multiset(ts);
      var k :| 0 <= k < |ts| && ts[k] == us[i];
    }
    if forall i :: 0 <= i < |ts| ==> LinkOf(ts[i]) != Some(None) {
      SyncedMovable(us);
    }
  }
}
