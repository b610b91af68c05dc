/** The cache of path-bound webhook workers: a map, a recency queue, and the ids
  * already audited. */
module WebhookWorkers {

  type Id = string

  /** A worker is known by the factory call that made it. */
  datatype Worker = Worker(path: string, serial: nat)

  const BOUND := 32

  datatype State = State(workers: map<Id, Worker>, recent: seq<Id>, audited: set<Id>, made: nat)

  function Without(s: seq<Id>, id: Id): seq<Id> {
    if s == [] then []
    else if s[0] == id then Without(s[1..], id) else [s[0]] + Without(s[1..], id)
  }

  function Evicted(s: State): State {
    if |s.workers| >= BOUND && s.recent != []
    then s.(workers := s.workers - {s.recent[0]}, recent := s.recent[1..]) else s
  }

  function WorkerStep(s: State, id: Id, path: string): State {
    var cached := if id in s.workers then s else
      var room := Evicted(s);
      room.(workers := room.workers[id := Worker(path, s.made)], made := s.made + 1);
    cached.(recent := Without(cached.recent, id) + [id], audited := cached.audited + {id})
  }

  class WorkspaceWebhookWorkers {
    var workers: map<Id, Worker>
    var recent: seq<Id>
    var audited: set<Id>
    var made: nat

    function Now(): State reads this { State(workers, recent, audited, made) }

    constructor ()
      ensures Now() == State(map[], [], {}, 0)
    {
      workers, recent, audited, made := map[], [], {}, 0;
    }

    method WorkerFor(id: Id, path: string) returns (worker: Worker, audit: bool)
      modifies this
      ensures Now() == WorkerStep(old(Now()), id, path)
      ensures id in workers && worker == workers[id]
      ensures audit <==> id !in old(audited)
    {
      if id in workers {
        worker := workers[id];
      } else {
        if |workers| >= BOUND && recent != [] {
          workers, recent := workers - {recent[0]}, recent[1..];
        }
        worker := Worker(path, made);
        workers, made := workers[id := worker], made + 1;
      }
      recent := Without(recent, id) + [id];
      audit := id !in audited;
      audited := audited + {id};
    }
  }

  // ---------------------------------------------------------------- runs

  datatype Call = Call(id: Id, path: string)

  function Run(calls: seq<Call>): State {
    if calls == [] then State(map[], [], {}, 0)
    else WorkerStep(Run(calls[..|calls| - 1]), calls[|calls| - 1].id, calls[|calls| - 1].path)
  }

  /** The ids of a history, each once, in the order of their last use. */
  function LastUse(calls: seq<Call>): seq<Id> {
    if calls == [] then []
    else Without(LastUse(calls[..|calls| - 1]), calls[|calls| - 1].id) + [calls[|calls| - 1].id]
  }

  function Suffix(s: seq<Id>, n: nat): seq<Id> { if |s| <= n then s else s[|s| - n..] }

  ghost predicate Distinct(s: seq<Id>) { forall i, j :: 0 <= i < j < |s| ==> s[i] != s[j] }

  lemma {:induction false} WithoutMembers(s: seq<Id>, id: Id)
    ensures forall x :: x in Without(s, id) <==> x in s && x != id
    ensures |Without(s, id)| <= |s|
    ensures id !in s ==> Without(s, id) == s
  {
    if s != [] {
      WithoutMembers(s[1..], id);
      assert forall x :: x in s <==> x == s[0] || x in s[1..];
    }
  }

  lemma {:induction false} WithoutDistinct(s: seq<Id>, id: Id)
    requires Distinct(s)
    ensures Distinct(Without(s, id))
    ensures id in s ==> |Without(s, id)| == |s| - 1
  {
    if s != [] {
      var tail := s[1..];
      assert s[0] !in tail;
      WithoutDistinct(tail, id);
      WithoutMembers(tail, id);
      if s[0] != id {
        Prepend(s[0], Without(tail, id));
      }
    }
  }

  lemma Prepend(x: Id, t: seq<Id>)
    requires Distinct(t) && x !in t
    ensures Distinct([x] + t)
  {
    forall i, j | 0 <= i < j < |t| + 1 ensures ([x] + t)[i] != ([x] + t)[j] {
      assert ([x] + t)[j] == t[j - 1];
    }
  }

  lemma {:induction false} WithoutAppend(s: seq<Id>, t: seq<Id>, id: Id)
    ensures Without(s + t, id) == Without(s, id) + Without(t, id)
  {
    if s == [] {
      assert s + t == t;
    } else {
      assert (s + t)[1..] == s[1..] + t;
      WithoutAppend(s[1..], t, id);
    }
  }

  lemma {:induction false} LastUseIsDistinct(calls: seq<Call>)
    ensures Distinct(LastUse(calls))
    ensures forall id :: id in LastUse(calls) <==> Used(calls, id)
  {
    if calls != [] {
      var front, last := calls[..|calls| - 1], calls[|calls| - 1];
      assert calls == front + [last];
      LastUseIsDistinct(front);
      WithoutDistinct(LastUse(front), last.id);
      WithoutMembers(LastUse(front), last.id);
      UsedNext(front, last);
    }
  }

  /** The window of recent ids after `id` is used. */
  function Slide(window: seq<Id>, id: Id): seq<Id> {
    if id in window then Without(window, id) + [id]
    else if |window| >= BOUND then window[1..] + [id]
    else window + [id]
  }

  /** Using `id` next moves the window of the most recent ids along. */
  lemma WindowMoves(all: seq<Id>, id: Id)
    requires Distinct(all)
    ensures Suffix(Without(all, id) + [id], BOUND) == Slide(Suffix(all, BOUND), id)
  {
    var window := Suffix(all, BOUND);
    var older := all[..|all| - |window|];
    assert all == older + window;
    WithoutAppend(older, window, id);
    if id in window {
      OnlyInWindow(older, window, id);
      WithoutDistinct(window, id);
      SuffixAppend(older, Without(window, id) + [id]);
      assert (older + Without(window, id)) + [id] == older + (Without(window, id) + [id]);
    } else {
      WithoutMembers(window, id);
      WindowShifts(Without(older, id), window, id);
    }
  }

  lemma WindowShifts(older: seq<Id>, window: seq<Id>, id: Id)
    requires |window| == BOUND || (older == [] && |window| < BOUND)
    ensures Suffix(older + window + [id], BOUND)
            == if |window| == BOUND then window[1..] + [id] else window + [id]
  {
    if |window| == BOUND {
      SuffixAppend(older + [window[0]], window[1..] + [id]);
      assert older + window + [id] == (older + [window[0]]) + (window[1..] + [id]);
    }
  }

  lemma OnlyInWindow(older: seq<Id>, window: seq<Id>, id: Id)
    requires Distinct(older + window) && id in window
    ensures Without(older, id) == older
  {
    var all := older + window;
    var k :| 0 <= k < |window| && window[k] == id;
    forall j | 0 <= j < |older| ensures older[j] != id {
      assert all[j] == older[j] && all[|older| + k] == id;
    }
    WithoutMembers(older, id);
  }

  lemma SuffixAppend(older: seq<Id>, window: seq<Id>)
    requires |window| == BOUND || (older == [] && |window| <= BOUND)
    ensures Suffix(older + window, BOUND) == window
  {
  }

  /** Map and queue agree: the cached ids are the queue's, each once, within the bound. */
  ghost predicate Agree(workers: map<Id, Worker>, recent: seq<Id>) {
    && Distinct(recent) && |recent| <= BOUND
    && |workers| == |recent|
    && forall id :: id in workers <==> id in recent
  }

  lemma DropOldest(workers: map<Id, Worker>, recent: seq<Id>)
    requires Agree(workers, recent) && recent != []
    ensures Agree(workers - {recent[0]}, recent[1..])
  {
    var left := workers - {recent[0]};
    assert left.Keys == workers.Keys - {recent[0]};
    assert recent == [recent[0]] + recent[1..];
    assert recent[0] !in recent[1..];
  }

  lemma AddNewest(workers: map<Id, Worker>, recent: seq<Id>, id: Id, w: Worker)
    requires Agree(workers, recent) && id !in workers && |recent| < BOUND
    ensures Agree(workers[id := w], recent + [id])
  {
    assert workers[id := w].Keys == workers.Keys + {id};
  }

  lemma MoveToNewest(workers: map<Id, Worker>, recent: seq<Id>, id: Id)
    requires Agree(workers, recent) && id in workers
    ensures Agree(workers, Without(recent, id) + [id])
  {
    WithoutMembers(recent, id);
    WithoutDistinct(recent, id);
  }

  /** One call keeps map and queue in agreement and slides the window. A new id on a full
    * cache evicts the front of the queue and nothing else. */
  lemma StepAgrees(s: State, id: Id, path: string)
    requires Agree(s.workers, s.recent)
    ensures var t := WorkerStep(s, id, path);
            && Agree(t.workers, t.recent) && t.recent == Slide(s.recent, id)
            && t.audited == s.audited + {id}
  {
    WithoutMembers(s.recent, id);
    if id in s.workers {
      MoveToNewest(s.workers, s.recent, id);
    } else {
      var room := Evicted(s);
      if |s.workers| >= BOUND { DropOldest(s.workers, s.recent); }
      WithoutMembers(room.recent, id);
      AddNewest(room.workers, room.recent, id, Worker(path, s.made));
    }
  }

  ghost predicate Used(calls: seq<Call>, id: Id) { exists k :: 0 <= k < |calls| && calls[k].id == id }

  lemma UsedNext(front: seq<Call>, last: Call)
    ensures forall id :: Used(front + [last], id) <==> Used(front, id) || id == last.id
  {
    forall id ensures Used(front + [last], id) <==> Used(front, id) || id == last.id {
      var calls := front + [last];
      assert calls[|front|] == last;
      if k :| 0 <= k < |front| && front[k].id == id { assert calls[k].id == id; }
      if k :| 0 <= k < |calls| && calls[k].id == id { assert k == |front| || front[k].id == id; }
    }
  }

  /** In every run the cached workers are those of the 32 most recently used ids, the
    * queue lists those ids once each with the least recent first, and the ids flagged
    * for audit so far are exactly the ids used. */
  lemma {:induction false} CacheIsTheMostRecent(calls: seq<Call>)
    ensures var s := Run(calls);
            && s.recent == Suffix(LastUse(calls), BOUND)
            && Agree(s.workers, s.recent)
            && forall id :: id in s.audited <==> Used(calls, id)
  {
    if calls != [] {
      var front, last := calls[..|calls| - 1], calls[|calls| - 1];
      assert calls == front + [last];
      CacheIsTheMostRecent(front);
      LastUseIsDistinct(front);
      StepAgrees(Run(front), last.id, last.path);
      WindowMoves(LastUse(front), last.id);
      UsedNext(front, last);
    }
  }

  /** Each cached worker was made by a call for its own id, and no two ids share one. */
  ghost predicate Owned(workers: map<Id, Worker>, made: nat, calls: seq<Call>) {
    && (forall id :: id in workers ==> workers[id].serial < made)
    && (forall id :: id in workers ==> Call(id, workers[id].path) in calls)
    && (forall a, b :: a in workers && b in workers && workers[a].serial == workers[b].serial ==> a == b)
  }

  lemma OwnedLater(workers: map<Id, Worker>, made: nat, front: seq<Call>, last: Call)
    requires Owned(workers, made, front)
    ensures Owned(workers, made, front + [last])
  {
  }

  lemma OwnedAdds(workers: map<Id, Worker>, made: nat, calls: seq<Call>, id: Id, path: string)
    requires Owned(workers, made, calls) && Call(id, path) in calls
    ensures Owned(workers[id := Worker(path, made)], made + 1, calls)
  {
  }

  lemma {:induction false} WorkersBelongToTheirIds(calls: seq<Call>)
    ensures Owned(Run(calls).workers, Run(calls).made, calls)
  {
    if calls != [] {
      var front, last := calls[..|calls| - 1], calls[|calls| - 1];
      var s := Run(front);
      assert calls == front + [last] && last == Call(last.id, last.path);
      WorkersBelongToTheirIds(front);
      OwnedLater(s.workers, s.made, front, last);
      if last.id !in s.workers {
        OwnedAdds(Evicted(s).workers, s.made, calls, last.id, last.path);
      }
    }
  }
}
