/** The counting gate in front of the HNSW index: a mutex-guarded permit count, a
  * condition variable, and a guard that gives the permit back on every exit.
  *
  * Every action is one hold of the mutex or one call of `notify_one`. Barging,
  * spurious wake-ups and panicking searches are all included. */
module SearchGate {

  type Thread = nat

  /** Where every thread stands:
    *   waiting    asleep in the condition variable
    *   woken      awake again, but not yet holding the mutex
    *   running    inside the search, holding a permit
    *   notifying  the permit is back, `notify_one` is still to come */
  datatype Gate = Gate(
    permits: nat, waiting: set<Thread>, woken: set<Thread>, running: set<Thread>, notifying: set<Thread>)

  datatype Action =
    | Enter(thread: Thread)
    | Recheck(thread: Thread)
    | Release(thread: Thread, panicked: bool)
    | Notify(thread: Thread, chosen: Thread)
    | Spurious(thread: Thread)

  function SaturatingDouble(n: nat, max: nat): nat { if 2 * n > max then max else 2 * n }

  /** Twice the available parallelism (4 when unknown), between 8 and 64. */
  function SearchThreadCap(parallelism: nat, known: bool): (cap: nat)
    ensures 8 <= cap <= 64
  {
    var n := SaturatingDouble(if known then parallelism else 4, 0xffff_ffff_ffff_ffff);
    if n < 8 then 8 else if n > 64 then 64 else n
  }

  predicate Outside(g: Gate, t: Thread) {
    t !in g.waiting && t !in g.woken && t !in g.running && t !in g.notifying
  }

  /** The head of the wait loop, with the mutex held. */
  function TakeOrWait(g: Gate, t: Thread): Gate {
    if g.permits == 0 then g.(waiting := g.waiting + {t})
    else g.(permits := g.permits - 1, running := g.running + {t})
  }

  predicate Enabled(g: Gate, a: Action) {
    match a
    case Enter(t) => Outside(g, t)
    case Recheck(t) => t in g.woken
    case Release(t, _) => t in g.running
    case Notify(t, c) => t in g.notifying && (g.waiting == {} || c in g.waiting)
    case Spurious(t) => t in g.waiting
  }

  /** A panicking search takes the same way out: the guard runs on unwinding. */
  function Apply(g: Gate, a: Action): Gate
    requires Enabled(g, a)
  {
    match a
    case Enter(t) => TakeOrWait(g, t)
    case Recheck(t) => TakeOrWait(g.(woken := g.woken - {t}), t)
    case Release(t, _) =>
      g.(permits := g.permits + 1, running := g.running - {t}, notifying := g.notifying + {t})
    case Notify(t, c) =>
      if g.waiting == {} then g.(notifying := g.notifying - {t})
      else g.(notifying := g.notifying - {t}, waiting := g.waiting - {c}, woken := g.woken + {c})
    case Spurious(t) => g.(waiting := g.waiting - {t}, woken := g.woken + {t})
  }

  ghost predicate Legal(g: Gate, actions: seq<Action>)
    decreases |actions|
  {
    actions == [] || (Enabled(g, actions[0]) && Legal(Apply(g, actions[0]), actions[1..]))
  }

  function Run(g: Gate, actions: seq<Action>): Gate
    requires Legal(g, actions)
    decreases |actions|
  {
    if actions == [] then g else Run(Apply(g, actions[0]), actions[1..])
  }

  function New(cap: nat): Gate { Gate(cap, {}, {}, {}, {}) }

  ghost predicate Apart(g: Gate) {
    && g.waiting !! g.woken && g.waiting !! g.running && g.waiting !! g.notifying
    && g.woken !! g.running && g.woken !! g.notifying && g.running !! g.notifying
  }

  ghost predicate Inv(g: Gate, cap: nat) {
    && Apart(g)
    && g.permits + |g.running| == cap
    && (g.waiting != {} ==> g.permits <= |g.woken| + |g.notifying|)
  }

  lemma ApplyApart(g: Gate, a: Action)
    requires Apart(g) && Enabled(g, a)
    ensures Apart(Apply(g, a))
  {
  }

  lemma ReleaseInv(g: Gate, t: Thread, panicked: bool, cap: nat)
    requires Inv(g, cap) && Enabled(g, Release(t, panicked))
    ensures Inv(Apply(g, Release(t, panicked)), cap)
  {
    ApplyApart(g, Release(t, panicked));
    assert |g.running - {t}| == |g.running| - 1 && |g.notifying + {t}| == |g.notifying| + 1;
  }

  lemma NotifyInv(g: Gate, t: Thread, chosen: Thread, cap: nat)
    requires Inv(g, cap) && Enabled(g, Notify(t, chosen))
    ensures Inv(Apply(g, Notify(t, chosen)), cap)
  {
    ApplyApart(g, Notify(t, chosen));
    assert |g.notifying - {t}| == |g.notifying| - 1;
    assert chosen in g.waiting ==> |g.woken + {chosen}| == |g.woken| + 1;
  }

  lemma ApplyInv(g: Gate, a: Action, cap: nat)
    requires Inv(g, cap) && Enabled(g, a)
    ensures Inv(Apply(g, a), cap)
  {
    match a
    case Release(t, panicked) => ReleaseInv(g, t, panicked, cap);
    case Notify(t, chosen) => NotifyInv(g, t, chosen, cap);
    case Enter(_) => ApplyApart(g, a);
    case Recheck(_) => ApplyApart(g, a);
    case Spurious(_) => ApplyApart(g, a);
  }

  /** In every run, panics included, free and held permits add up to the cap, so no
    * more than the cap search at once; and while a thread sleeps there is a wake-up
    * on its way for every free permit. */
  lemma {:induction false} GateHolds(g: Gate, actions: seq<Action>, cap: nat)
    requires Inv(g, cap) && Legal(g, actions)
    ensures var g' := Run(g, actions);
            && g'.permits + |g'.running| == cap && |g'.running| <= cap
            && (g'.waiting != {} ==> g'.permits <= |g'.woken| + |g'.notifying|)
            && Inv(g', cap)
    decreases |actions|
  {
    if actions != [] {
      ApplyInv(g, actions[0], cap);
      GateHolds(Apply(g, actions[0]), actions[1..], cap);
    }
  }

  /** Nobody sleeps in a gate where nothing can happen: with a positive cap, a
    * waiting thread always leaves some thread searching, notifying or awake. */
  lemma NeverStuck(actions: seq<Action>, cap: nat)
    requires cap > 0 && Legal(New(cap), actions)
    requires Run(New(cap), actions).waiting != {}
    ensures var g := Run(New(cap), actions); g.running != {} || g.notifying != {} || g.woken != {}
  {
    GateHolds(New(cap), actions, cap);
  }

  /** The server's gate: whatever the machine, at most 64 searches run at once, there is
    * room for eight, and nobody sleeps while nothing can happen. */
  lemma SearchesAreBounded(actions: seq<Action>, parallelism: nat, known: bool)
    requires Legal(New(SearchThreadCap(parallelism, known)), actions)
    ensures var g := Run(New(SearchThreadCap(parallelism, known)), actions);
            && |g.running| <= 64 && g.permits + |g.running| >= 8
            && (g.waiting != {} ==> g.running != {} || g.notifying != {} || g.woken != {})
  {
    var cap := SearchThreadCap(parallelism, known);
    GateHolds(New(cap), actions, cap);
    if Run(New(cap), actions).waiting != {} { NeverStuck(actions, cap); }
  }

  // ---------------------------------------------------------------- progress

  /** What the threads inside still have to do, at most. */
  function Work(g: Gate): nat {
    3 * |g.waiting| + 4 * |g.woken| + 3 * |g.running| + 2 * |g.notifying|
  }

  /** The actions by which threads already inside make their way out. */
  predicate Draining(a: Action) { a.Recheck? || a.Release? || a.Notify? }

  lemma DrainingWorks(g: Gate, a: Action, cap: nat)
    requires Inv(g, cap) && Enabled(g, a) && Draining(a)
    ensures Work(Apply(g, a)) < Work(g)
  {
  }

  /** Once no thread enters and no wake-up is spurious, every run is over after
    * bounded many actions ... */
  lemma {:induction false} DrainingEnds(g: Gate, actions: seq<Action>, cap: nat)
    requires Inv(g, cap) && Legal(g, actions)
    requires forall a :: a in actions ==> Draining(a)
    ensures |actions| + Work(Run(g, actions)) <= Work(g)
    decreases |actions|
  {
    if actions != [] {
      DrainingWorks(g, actions[0], cap);
      ApplyInv(g, actions[0], cap);
      DrainingEnds(Apply(g, actions[0]), actions[1..], cap);
    }
  }

  /** ... and it can only be over with every thread served: if no draining action is
    * enabled, nobody is inside and all permits are free. */
  lemma DrainedIsEmpty(g: Gate, cap: nat)
    requires cap > 0 && Inv(g, cap)
    requires forall a :: Draining(a) ==> !Enabled(g, a)
    ensures g == New(cap)
  {
    if g.woken != {} { var t :| t in g.woken; assert Enabled(g, Recheck(t)); }
    if g.running != {} { var t :| t in g.running; assert Enabled(g, Release(t, false)); }
    if g.notifying != {} {
      var t :| t in g.notifying;
      var c :| g.waiting == {} || c in g.waiting;
      assert Enabled(g, Notify(t, c));
    }
  }
}
