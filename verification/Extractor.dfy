/** The attachment extractor's loop: one round-robin turn, a scan of every graph for the
  * earliest deadline, then a sleep that a wake-up can cut short.
  *
  * Every action is one registry query, one graph query, one clock reading or one call of
  * `notify_one`. Uploads, wake-ups, registrations and the passing of time come in between
  * as they please. Times are in microseconds. */
module Extractor {

  import opened Wrappers
  import opened Integers

  const FALLBACK_DELAY := 30_000_000

  /** How long to sleep; nothing means that a turn is due now. */
  function WaitDuration(due: Option<int>, now: int): (wait: Option<int>)
    ensures wait.None? <==> due.Some? && due.value <= now
    ensures wait.Some? ==> 0 < wait.value <= FALLBACK_DELAY
    ensures wait.Some? && due.Some? ==> now + wait.value <= due.value
    ensures wait.Some? && wait.value < FALLBACK_DELAY ==> due == Some(now + wait.value)
  {
    match due
    case None => Some(FALLBACK_DELAY)
    case Some(d) =>
      if d <= now then None else
      var left := SaturatingSub(d, now);
      Some(if left < FALLBACK_DELAY then left else FALLBACK_DELAY)
  }

  function Earlier(found: Option<int>, due: Option<int>): Option<int> {
    if due.None? then found
    else if found.None? || due.value < found.value then due else found
  }

  /** `d` is the earliest deadline among the graphs that could be read. */
  ghost predicate EarliestOf(scanned: seq<Result<Option<int>, string>>, d: Option<int>) {
    && (d.Some? ==> Ok(d) in scanned)
    && forall i :: 0 <= i < |scanned| && scanned[i].Ok? && scanned[i].value.Some? ==>
         d.Some? && d.value <= scanned[i].value.value
  }

  /** The scan's fold: a graph that cannot be read is logged and skipped. */
  method NextDue(scanned: seq<Result<Option<int>, string>>) returns (earliest: Option<int>)
    ensures EarliestOf(scanned, earliest)
  {
    earliest := None;
    for i := 0 to |scanned|
      invariant EarliestOf(scanned[..i], earliest)
    {
      assert scanned[..i + 1] == scanned[..i] + [scanned[i]];
      match scanned[i]
      case Ok(due) => earliest := Earlier(earliest, due);
      case Err(_) =>
    }
    assert scanned[..|scanned|] == scanned;
  }

  // ---------------------------------------------------------------- the machine

  type Graph = nat
  type JobId = nat

  /** `told` is set once the uploader has called the wake handle for this job. Deadlines
    * nobody announces, such as the end of an upload session, are never told. */
  datatype Job = Job(graph: Graph, due: int, told: bool)

  datatype Phase =
    | Turning
    | Listing
    | Scanning(todo: set<Graph>, found: Option<int>)
    | Sleeping(since: int, until: int, found: Option<int>)

  /** Graphs are numbered in the order of registration. `permit` is the wake handle's one
    * stored permit, `unread` the graphs whose deadline the current scan could not read. */
  datatype World = World(
    clock: int, graphs: nat, cursor: nat, jobs: map<JobId, Job>,
    permit: bool, unread: set<Graph>, phase: Phase)

  datatype Action =
    | Turn(ok: bool, after: map<JobId, int>)
    | List(ok: bool)
    | Read(graph: Graph, outcome: Result<Option<int>, string>)
    | Decide
    | Wake
    | Timer
    | Tick(elapsed: nat)
    | Enqueue(job: JobId, graph: Graph, due: int)
    | Tell(job: JobId)
    | Remove(job: JobId)
    | Register

  ghost predicate IsEarliest(jobs: map<JobId, Job>, g: Graph, due: Option<int>) {
    match due
    case None => forall j :: j in jobs ==> jobs[j].graph != g
    case Some(d) =>
      && (exists j :: j in jobs && jobs[j].graph == g && jobs[j].due == d)
      && forall j :: j in jobs && jobs[j].graph == g ==> d <= jobs[j].due
  }

  /** The row `next_path` selects. */
  function Offset(w: World): nat { if w.cursor >= w.graphs then 0 else w.cursor }

  function AllGraphs(n: nat): (all: set<Graph>)
    ensures forall g: Graph :: g in all <==> g < n
  {
    if n == 0 then {} else AllGraphs(n - 1) + {n - 1}
  }

  /** A turn on `g` may finish, postpone or lease the jobs of `g` and touches no other. */
  function Worked(jobs: map<JobId, Job>, g: Graph, after: map<JobId, int>): map<JobId, Job> {
    map j | j in jobs.Keys + after.Keys && (if j in jobs && jobs[j].graph != g then true else j in after) ::
      if j in jobs && jobs[j].graph != g then jobs[j] else Job(g, after[j], true)
  }

  ghost function Apply(w: World, a: Action): World {
    match a
    case Turn(ok, after) =>
      if !w.phase.Turning? then w
      else if !ok || w.graphs == 0 then w.(phase := Listing)
      else w.(phase := Listing, cursor := Offset(w) + 1, jobs := Worked(w.jobs, Offset(w), after))
    case List(ok) =>
      if !w.phase.Listing? then w
      else if ok then w.(phase := Scanning(AllGraphs(w.graphs), None), unread := {})
      else w.(phase := Scanning({}, None), unread := AllGraphs(w.graphs))
    case Read(g, due) =>
      if !(w.phase.Scanning? && g in w.phase.todo) then w else
      var todo := w.phase.todo - {g};
      (match due
       case Err(_) => w.(phase := Scanning(todo, w.phase.found), unread := w.unread + {g})
       case Ok(d) => if IsEarliest(w.jobs, g, d) then w.(phase := Scanning(todo, Earlier(w.phase.found, d))) else w)
    case Decide =>
      if !(w.phase.Scanning? && w.phase.todo == {}) then w else
      (match WaitDuration(w.phase.found, w.clock)
       case None => w.(phase := Turning)
       case Some(wait) => w.(phase := Sleeping(w.clock, w.clock + wait, w.phase.found)))
    case Wake => if w.phase.Sleeping? && w.permit then w.(phase := Turning, permit := false) else w
    case Timer => if w.phase.Sleeping? && w.clock >= w.phase.until then w.(phase := Turning) else w
    case Tick(elapsed) => w.(clock := w.clock + elapsed)
    case Enqueue(j, g, due) => if j !in w.jobs && g < w.graphs then w.(jobs := w.jobs[j := Job(g, due, false)]) else w
    case Tell(j) => w.(permit := true, jobs := if j in w.jobs then w.jobs[j := w.jobs[j].(told := true)] else w.jobs)
    case Remove(j) => w.(jobs := w.jobs - {j})
    case Register => w.(graphs := w.graphs + 1)
  }

  ghost function Run(w: World, actions: seq<Action>): World
    decreases |actions|
  {
    if actions == [] then w else Run(Apply(w, actions[0]), actions[1..])
  }

  const START := World(0, 0, 0, map[], false, {}, Turning)

  // ---------------------------------------------------------------- no wake-up is lost

  predicate Reached(found: Option<int>, due: int) { found.Some? && found.value <= due }

  /** Why the loop will be in time for a job it has been told about. */
  predicate Covered(phase: Phase, permit: bool, unread: set<Graph>, job: Job) {
    match phase
    case Turning => true
    case Listing => true
    case Scanning(todo, found) => permit || job.graph in todo || job.graph in unread || Reached(found, job.due)
    case Sleeping(_, until, _) => permit || job.graph in unread || until <= job.due
  }

  ghost predicate Inv(w: World) {
    && w.cursor <= w.graphs
    && (forall j :: j in w.jobs ==> w.jobs[j].graph < w.graphs)
    && (forall j :: j in w.jobs && w.jobs[j].told ==> Covered(w.phase, w.permit, w.unread, w.jobs[j]))
    && (w.phase.Sleeping? ==>
          && w.phase.since < w.phase.until <= w.phase.since + FALLBACK_DELAY
          && w.phase.since <= w.clock
          && (w.phase.found.Some? ==> w.phase.until <= w.phase.found.value))
  }

  lemma ReadCovers(w: World, g: Graph, due: Result<Option<int>, string>)
    requires Inv(w)
    ensures Inv(Apply(w, Read(g, due)))
  {
    var w' := Apply(w, Read(g, due));
    if w' != w {
      forall j | j in w.jobs && w.jobs[j].told ensures Covered(w'.phase, w'.permit, w'.unread, w.jobs[j]) {
        assert Covered(w.phase, w.permit, w.unread, w.jobs[j]);
      }
    }
  }

  lemma DecideCovers(w: World)
    requires Inv(w)
    ensures Inv(Apply(w, Decide))
  {
    var w' := Apply(w, Decide);
    if w' != w {
      forall j | j in w.jobs && w.jobs[j].told ensures Covered(w'.phase, w'.permit, w'.unread, w.jobs[j]) {
        assert Covered(w.phase, w.permit, w.unread, w.jobs[j]);
      }
    }
  }

  lemma ApplyInv(w: World, a: Action)
    requires Inv(w)
    ensures Inv(Apply(w, a))
  {
    match a
    case Read(g, due) => ReadCovers(w, g, due);
    case Decide => DecideCovers(w);
    case List(ok) =>
    case Turn(ok, after) =>
    case Wake =>
    case Timer =>
    case Tick(elapsed) =>
    case Enqueue(j, g, due) =>
    case Tell(j) =>
    case Remove(j) =>
    case Register =>
  }

  lemma {:induction false} RunInv(w: World, actions: seq<Action>)
    requires Inv(w)
    ensures Inv(Run(w, actions))
    decreases |actions|
  {
    if actions != [] {
      ApplyInv(w, actions[0]);
      RunInv(Apply(w, actions[0]), actions[1..]);
    }
  }

  /** In every run: a sleep ends no later than the earliest deadline its scan found and no
    * later than 30 seconds after it began; and while the loop sleeps with no permit
    * stored, its alarm is set no later than the deadline of any announced job in a graph
    * the scan could read, whenever the announcement came. */
  lemma NoLostWake(actions: seq<Action>)
    ensures var w := Run(START, actions);
            w.phase.Sleeping? ==>
              && w.phase.since < w.phase.until <= w.phase.since + FALLBACK_DELAY
              && (w.phase.found.Some? ==> w.phase.until <= w.phase.found.value)
              && (forall j :: !w.permit && j in w.jobs && w.jobs[j].told && w.jobs[j].graph !in w.unread ==>
                    w.phase.until <= w.jobs[j].due)
  {
    RunInv(START, actions);
  }

  // ---------------------------------------------------------------- the round robin

  /** How many turns it takes the cursor to have served `g`. */
  function Distance(w: World, g: Graph): nat
    requires g < w.graphs
  {
    if Offset(w) <= g then g - Offset(w) + 1 else w.graphs - Offset(w) + g + 1
  }

  /** The loop owes `g` a turn for job `j`, and cannot go to sleep before it. */
  ghost predicate Owed(w: World, g: Graph, j: JobId) {
    && j in w.jobs && w.jobs[j].graph == g < w.graphs && w.jobs[j].due <= w.clock
    && !w.phase.Sleeping?
    && (w.phase.Scanning? ==> g in w.phase.todo || Reached(w.phase.found, w.jobs[j].due))
  }

  predicate IsTurn(w: World, a: Action) { a.Turn? && a.ok && w.phase.Turning? && w.graphs > 0 }

  /** The action is no turn on `g`, leaves the job alone, and does not fail to read `g`. */
  predicate Undisturbed(w: World, a: Action, g: Graph, j: JobId) {
    && !(IsTurn(w, a) && Offset(w) == g)
    && a != Remove(j) && a != List(false) && !(a.Read? && a.graph == g && a.outcome.Err?)
  }

  lemma OwedStep(w: World, a: Action, g: Graph, j: JobId)
    requires Inv(w) && Owed(w, g, j) && Undisturbed(w, a, g, j)
    ensures Owed(Apply(w, a), g, j)
  {
  }

  lemma DistanceStep(w: World, a: Action, g: Graph)
    requires Inv(w) && g < w.graphs && !(IsTurn(w, a) && Offset(w) == g)
    ensures var w' := Apply(w, a);
            && g < w'.graphs
            && Distance(w', g) + (if IsTurn(w, a) then 1 else 0) <= Distance(w, g) + (if a.Register? then 1 else 0)
  {
  }

  ghost predicate UndisturbedRun(w: World, actions: seq<Action>, g: Graph, j: JobId)
    decreases |actions|
  {
    actions != [] ==> Undisturbed(w, actions[0], g, j) && UndisturbedRun(Apply(w, actions[0]), actions[1..], g, j)
  }

  ghost function Turns(w: World, actions: seq<Action>): nat
    decreases |actions|
  {
    if actions == [] then 0
    else (if IsTurn(w, actions[0]) then 1 else 0) + Turns(Apply(w, actions[0]), actions[1..])
  }

  function Registrations(actions: seq<Action>): nat {
    if actions == [] then 0 else (if actions[0].Register? then 1 else 0) + Registrations(actions[1..])
  }

  lemma {:induction false} OwedRun(w: World, actions: seq<Action>, g: Graph, j: JobId)
    requires Inv(w) && Owed(w, g, j) && UndisturbedRun(w, actions, g, j)
    ensures Owed(Run(w, actions), g, j)
    ensures Turns(w, actions) + Distance(Run(w, actions), g) <= Distance(w, g) + Registrations(actions)
    decreases |actions|
  {
    if actions != [] {
      var w' := Apply(w, actions[0]);
      ApplyInv(w, actions[0]);
      OwedStep(w, actions[0], g, j);
      DistanceStep(w, actions[0], g);
      OwedRun(w', actions[1..], g, j);
    }
  }

  /** Once a scan has seen a due job of `g`, the loop does not sleep before `g` has had a
    * turn, and that turn is among the next N: any stretch in which `g` is not served holds
    * fewer than N turns, N being the number of graphs registered by its end. */
  lemma DueGraphIsServed(w: World, actions: seq<Action>, g: Graph, j: JobId)
    requires Inv(w) && j in w.jobs && w.jobs[j].graph == g && w.jobs[j].due <= w.clock
    requires w.phase.Scanning? && Reached(w.phase.found, w.jobs[j].due)
    requires UndisturbedRun(w, actions, g, j)
    ensures !Run(w, actions).phase.Sleeping?
    ensures Turns(w, actions) < Run(w, actions).graphs
  {
    OwedRun(w, actions, g, j);
    GraphsCount(w, actions);
  }

  lemma {:induction false} GraphsCount(w: World, actions: seq<Action>)
    ensures Run(w, actions).graphs == w.graphs + Registrations(actions)
    decreases |actions|
  {
    if actions != [] {
      GraphsCount(Apply(w, actions[0]), actions[1..]);
    }
  }
}
