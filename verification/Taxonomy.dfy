/** Adoption of the three taxonomy snapshots: one pass over the kinds, each read, loaded
  * and marked on its own, and one swap of all three at the end.
  *
  * Workers and the registry change from other connections between any two statements. */
module Taxonomy {

  import opened Wrappers

  type Profile = nat
  type Kind = k: nat | k < 3
  type Rows = map<int, seq<real>>

  datatype Key = Key(profile: Profile, kind: Kind)

  /** The rows of one profile and kind, with their generation row and their history:
    * `log[g]` is what the rows were when generation `g` opened, `losses` how many subjects
    * have been removed since without a new generation. */
  datatype Table = Table(durable: nat, published: int, rows: Rows, log: seq<Rows>, losses: nat)

  type Tables = map<Key, Table>

  datatype StoreState =
    | LegacyCompat
    | Active(profile: Profile)
    | Rebuilding(profile: Profile)
    | Failed

  /** Rows read after `generation` was read, with the durable generation and the losses of
    * the table at the moment the rows were read. */
  datatype Snapshot = Snapshot(key: Key, generation: nat, rows: Rows, readAt: nat, losses: nat, marked: bool)

  /** One place for each kind. */
  type Shelf = s: seq<Option<Snapshot>> | |s| == 3 witness [None, None, None]

  const EMPTY: Shelf := [None, None, None]

  /** A pass over the kinds: those before `next` are in `built`. */
  datatype Pass = Pass(profile: Profile, candidate: bool, existing: Shelf, built: seq<Option<Snapshot>>)

  datatype Pc =
    | Idle
    | SawState(profile: Profile, candidate: bool)
    | Next(pass: Pass)
    | SawGeneration(pass: Pass, generation: nat)
    | Holding(pass: Pass, snapshot: Snapshot)

  datatype Machine = Machine(tables: Tables, state: StoreState, serving: Shelf, pc: Pc)

  datatype Action =
    // other connections
    | Queue(key: Key)
    | Commit(key: Key, rows: Rows)
    | Lose(key: Key, subject: int)
    | SetState(state: StoreState)
    // the adopting store; `candidate` is what its caller saw
    | ReadState(candidate: bool)
    | ReadExisting
    | ReadGeneration(scanInvalid: bool)
    | LoadRows
    | Mark
    | Swap
    | Abort

  /** The first job queued for a profile and kind makes its generation row. */
  function Queued(tables: Tables, k: Key): Tables {
    if k in tables then tables else tables[k := Table(0, -1, map[], [map[]], 0)]
  }

  /** A committed vector opens a generation. A relation's commit makes the generation row
    * if need be; for the other kinds, its job has made it. */
  function Committed(tables: Tables, k: Key, rows: Rows): Tables {
    var made := if k.kind == 2 then Queued(tables, k) else tables;
    if k in made
    then made[k := Table(made[k].durable + 1, made[k].published, rows, made[k].log + [rows], 0)]
    else made
  }

  /** A dead job removes its subject's row and opens no generation. */
  function Lost(tables: Tables, k: Key, subject: int): Tables {
    if k in tables && subject in tables[k].rows
    then tables[k := tables[k].(rows := tables[k].rows - {subject}, losses := tables[k].losses + 1)]
    else tables
  }

  predicate InPass(pass: Pass) { |pass.built| < 3 }

  function KeyOf(pass: Pass): Key
    requires InPass(pass)
  {
    Key(pass.profile, |pass.built|)
  }

  function Put(pass: Pass, s: Option<Snapshot>): Pc { Next(pass.(built := pass.built + [s])) }

  predicate Unchanged(existing: Option<Snapshot>, profile: Profile, generation: nat) {
    existing.Some? && existing.value.key.profile == profile && existing.value.generation == generation
  }

  function AfterGeneration(m: Machine, pass: Pass, scanInvalid: bool): Pc
    requires InPass(pass)
  {
    var k := KeyOf(pass);
    if k !in m.tables then Put(pass, None)
    else if pass.candidate && scanInvalid then Idle
    else if Unchanged(pass.existing[k.kind], pass.profile, m.tables[k].durable) then Put(pass, pass.existing[k.kind])
    else SawGeneration(pass, m.tables[k].durable)
  }

  function SnapshotOf(k: Key, generation: nat, t: Table): Snapshot {
    Snapshot(k, generation, t.rows, t.durable, t.losses, false)
  }

  /** The compare-and-set of the publish mark. */
  predicate MayMark(tables: Tables, s: Snapshot) { s.key in tables && tables[s.key].durable == s.generation }

  function Apply(m: Machine, a: Action): Machine {
    match a
    case Queue(k) => m.(tables := Queued(m.tables, k))
    case Commit(k, rows) => m.(tables := Committed(m.tables, k, rows))
    case Lose(k, subject) => m.(tables := Lost(m.tables, k, subject))
    case SetState(state) => m.(state := state)
    case ReadState(candidate) =>
      if !m.pc.Idle? then m else
      (match m.state
       case Failed => m
       case LegacyCompat => m.(serving := EMPTY)
       case Active(p) => m.(pc := SawState(p, candidate))
       case Rebuilding(p) => m.(pc := SawState(p, candidate)))
    case ReadExisting =>
      if m.pc.SawState? then m.(pc := Next(Pass(m.pc.profile, m.pc.candidate, m.serving, []))) else m
    case ReadGeneration(scanInvalid) =>
      if m.pc.Next? && InPass(m.pc.pass) then m.(pc := AfterGeneration(m, m.pc.pass, scanInvalid)) else m
    case LoadRows =>
      if m.pc.SawGeneration? && InPass(m.pc.pass) && KeyOf(m.pc.pass) in m.tables then
        var t := m.tables[KeyOf(m.pc.pass)];
        m.(pc := Holding(m.pc.pass, SnapshotOf(KeyOf(m.pc.pass), m.pc.generation, t)))
      else m
    case Mark =>
      if !m.pc.Holding? then m
      else if m.pc.pass.candidate then m.(pc := Put(m.pc.pass, Some(m.pc.snapshot)))
      else if MayMark(m.tables, m.pc.snapshot) then
        m.(tables := m.tables[m.pc.snapshot.key := m.tables[m.pc.snapshot.key].(published := m.pc.snapshot.generation)],
           pc := Put(m.pc.pass, Some(m.pc.snapshot.(marked := true))))
      else m.(pc := Idle)
    case Swap =>
      if m.pc.Next? && |m.pc.pass.built| == 3 then m.(serving := m.pc.pass.built, pc := Idle) else m
    case Abort => m.(pc := Idle)
  }

  function Run(m: Machine, actions: seq<Action>): Machine
    decreases |actions|
  {
    if actions == [] then m else Run(Apply(m, actions[0]), actions[1..])
  }

  // ---------------------------------------------------------------- the invariant

  /** Without losses the rows are those the generation opened with, else fewer. */
  ghost predicate Faithful(rows: Rows, losses: nat, initial: Rows) {
    if losses == 0 then rows == initial else rows.Keys < initial.Keys
  }

  ghost predicate TableOk(t: Table) {
    |t.log| == t.durable + 1 && Faithful(t.rows, t.losses, t.log[t.durable])
  }

  ghost predicate TablesOk(tables: Tables) { forall k :: k in tables ==> TableOk(tables[k]) }

  /** A snapshot is faithful to the generation its rows were read from, which is the one
    * on its stamp or a later one; the publish mark rules the latter out. */
  ghost predicate True(tables: Tables, s: Snapshot) {
    && s.key in tables && s.generation <= s.readAt < |tables[s.key].log|
    && Faithful(s.rows, s.losses, tables[s.key].log[s.readAt])
    && (s.marked ==> s.readAt == s.generation)
  }

  ghost predicate Shelved(tables: Tables, shelf: seq<Option<Snapshot>>) {
    |shelf| <= 3 && forall i :: 0 <= i < |shelf| && shelf[i].Some? ==> shelf[i].value.key.kind == i && True(tables, shelf[i].value)
  }

  ghost predicate OneProfile(shelf: seq<Option<Snapshot>>) {
    forall i, j :: 0 <= i < j < |shelf| && shelf[i].Some? && shelf[j].Some? ==>
      shelf[i].value.key.profile == shelf[j].value.key.profile
  }

  ghost predicate BuiltFor(shelf: seq<Option<Snapshot>>, p: Profile) {
    forall i :: 0 <= i < |shelf| && shelf[i].Some? ==> shelf[i].value.key.profile == p
  }

  ghost predicate PassOk(tables: Tables, pass: Pass) {
    Shelved(tables, pass.existing) && Shelved(tables, pass.built) && BuiltFor(pass.built, pass.profile)
  }

  ghost predicate PcOk(tables: Tables, pc: Pc) {
    match pc
    case Idle => true
    case SawState(_, _) => true
    case Next(pass) => PassOk(tables, pass)
    case SawGeneration(pass, g) =>
      && PassOk(tables, pass) && InPass(pass)
      && KeyOf(pass) in tables && g <= tables[KeyOf(pass)].durable
    case Holding(pass, s) => PassOk(tables, pass) && InPass(pass) && s.key == KeyOf(pass) && !s.marked && True(tables, s)
  }

  ghost predicate Inv(m: Machine) {
    TablesOk(m.tables) && Shelved(m.tables, m.serving) && OneProfile(m.serving) && PcOk(m.tables, m.pc)
  }

  /** Tables only move on: generations open, histories grow. */
  ghost predicate Forward(t: Table, t': Table) {
    t.durable <= t'.durable && t.log <= t'.log && |t.log| == t.durable + 1
  }

  ghost predicate MovesOn(before: Tables, after: Tables) {
    forall k :: k in before ==> k in after && Forward(before[k], after[k])
  }

  lemma UpdateOk(tables: Tables, k: Key, t: Table)
    requires TablesOk(tables) && TableOk(t) && (k in tables ==> Forward(tables[k], t))
    ensures TablesOk(tables[k := t]) && MovesOn(tables, tables[k := t])
  {
  }

  lemma StillOk(tables: Tables)
    requires TablesOk(tables)
    ensures MovesOn(tables, tables)
  {
  }

  lemma ShelvedMovesOn(before: Tables, after: Tables, shelf: seq<Option<Snapshot>>)
    requires MovesOn(before, after) && Shelved(before, shelf)
    ensures Shelved(after, shelf)
  {
    forall i | 0 <= i < |shelf| && shelf[i].Some? ensures True(after, shelf[i].value) {
      assert True(before, shelf[i].value);
    }
  }

  lemma PcMovesOn(before: Tables, after: Tables, pc: Pc)
    requires MovesOn(before, after) && PcOk(before, pc)
    ensures PcOk(after, pc)
  {
    if pc.Next? || pc.SawGeneration? || pc.Holding? {
      ShelvedMovesOn(before, after, pc.pass.existing);
      ShelvedMovesOn(before, after, pc.pass.built);
    }
  }

  lemma WorkersKeepInv(m: Machine, tables: Tables)
    requires Inv(m) && TablesOk(tables) && MovesOn(m.tables, tables)
    ensures Inv(m.(tables := tables))
  {
    ShelvedMovesOn(m.tables, tables, m.serving);
    PcMovesOn(m.tables, tables, m.pc);
  }

  /** A kind is done: its place holds nothing, what was there, or a true snapshot. */
  lemma PutOk(tables: Tables, pass: Pass, s: Option<Snapshot>)
    requires PassOk(tables, pass) && InPass(pass)
    requires s.Some? ==> s.value.key == KeyOf(pass) && True(tables, s.value)
    ensures PcOk(tables, Put(pass, s))
  {
  }

  lemma GenerationOk(m: Machine, pass: Pass, scanInvalid: bool)
    requires PassOk(m.tables, pass) && InPass(pass)
    ensures PcOk(m.tables, AfterGeneration(m, pass, scanInvalid))
  {
    var here := pass.existing[|pass.built|];
    PutOk(m.tables, pass, None);
    if here.Some? && here.value.key.profile == pass.profile { PutOk(m.tables, pass, here); }
  }

  lemma MarkOk(m: Machine)
    requires Inv(m) && m.pc.Holding?
    ensures Inv(Apply(m, Mark)) && MovesOn(m.tables, Apply(m, Mark).tables)
  {
    var s, pass := m.pc.snapshot, m.pc.pass;
    StillOk(m.tables);
    if pass.candidate {
      PutOk(m.tables, pass, Some(s));
    } else if MayMark(m.tables, s) {
      var tables := Apply(m, Mark).tables;
      UpdateOk(m.tables, s.key, m.tables[s.key].(published := s.generation));
      WorkersKeepInv(m, tables);
      PutOk(tables, pass, Some(s.(marked := true)));
    }
  }

  lemma QueuedOk(tables: Tables, k: Key)
    requires TablesOk(tables)
    ensures TablesOk(Queued(tables, k)) && MovesOn(tables, Queued(tables, k))
  {
    StillOk(tables);
    if k !in tables { UpdateOk(tables, k, Table(0, -1, map[], [map[]], 0)); }
  }

  lemma CommittedOk(tables: Tables, k: Key, rows: Rows)
    requires TablesOk(tables)
    ensures TablesOk(Committed(tables, k, rows)) && MovesOn(tables, Committed(tables, k, rows))
  {
    QueuedOk(tables, k);
    StillOk(tables);
    var made := if k.kind == 2 then Queued(tables, k) else tables;
    if k in made {
      var t := made[k];
      var opens := Table(t.durable + 1, t.published, rows, t.log + [rows], 0);
      UpdateOk(made, k, opens);
      MovesOnTwice(tables, made, made[k := opens]);
    }
  }

  lemma MovesOnTwice(a: Tables, b: Tables, c: Tables)
    requires MovesOn(a, b) && MovesOn(b, c)
    ensures MovesOn(a, c)
  {
  }

  lemma LostOk(tables: Tables, k: Key, subject: int)
    requires TablesOk(tables)
    ensures TablesOk(Lost(tables, k, subject)) && MovesOn(tables, Lost(tables, k, subject))
  {
    StillOk(tables);
    if k in tables && subject in tables[k].rows {
      var t := tables[k];
      FewerRows(t, subject);
      UpdateOk(tables, k, t.(rows := t.rows - {subject}, losses := t.losses + 1));
    }
  }

  lemma FewerRows(t: Table, subject: int)
    requires TableOk(t) && subject in t.rows
    ensures TableOk(t.(rows := t.rows - {subject}, losses := t.losses + 1))
  {
    var initial := t.log[t.durable];
    assert (t.rows - {subject}).Keys == t.rows.Keys - {subject} && t.rows.Keys <= initial.Keys;
    assert subject in initial.Keys && subject !in (t.rows - {subject}).Keys;
  }

  lemma BeginOk(m: Machine, a: Action)
    requires Inv(m) && (a.ReadState? || a.ReadExisting? || a.Swap? || a.Abort?)
    ensures Inv(Apply(m, a))
  {
  }

  lemma LoadOk(m: Machine)
    requires Inv(m)
    ensures Inv(Apply(m, LoadRows))
  {
  }

  lemma TablesStep(m: Machine, a: Action)
    requires TablesOk(m.tables) && (a.Queue? || a.Commit? || a.Lose?)
    ensures var tables := Apply(m, a).tables;
            TablesOk(tables) && MovesOn(m.tables, tables) && Apply(m, a) == m.(tables := tables)
  {
    match a
    case Queue(k) => QueuedOk(m.tables, k);
    case Commit(k, rows) => CommittedOk(m.tables, k, rows);
    case Lose(k, subject) => LostOk(m.tables, k, subject);
  }

  lemma StateStep(m: Machine, state: StoreState)
    requires Inv(m)
    ensures Inv(m.(state := state))
  {
  }

  /** Workers and the registry. */
  lemma OthersOk(m: Machine, a: Action)
    requires Inv(m) && (a.Queue? || a.Commit? || a.Lose? || a.SetState?)
    ensures Inv(Apply(m, a)) && MovesOn(m.tables, Apply(m, a).tables)
  {
    if a.SetState? {
      StateStep(m, a.state);
      StillOk(m.tables);
    } else {
      TablesStep(m, a);
      WorkersKeepInv(m, Apply(m, a).tables);
    }
  }

  /** The adopting store. */
  lemma PassOkStep(m: Machine, a: Action)
    requires Inv(m) && !a.Queue? && !a.Commit? && !a.Lose? && !a.SetState?
    ensures Inv(Apply(m, a)) && MovesOn(m.tables, Apply(m, a).tables)
  {
    StillOk(m.tables);
    match a
    case ReadGeneration(scanInvalid) =>
      if m.pc.Next? && InPass(m.pc.pass) { GenerationOk(m, m.pc.pass, scanInvalid); }
    case LoadRows => LoadOk(m);
    case Mark => if m.pc.Holding? { MarkOk(m); }
    case _ => BeginOk(m, a);
  }

  lemma ApplyInv(m: Machine, a: Action)
    requires Inv(m)
    ensures Inv(Apply(m, a)) && MovesOn(m.tables, Apply(m, a).tables)
  {
    if a.Queue? || a.Commit? || a.Lose? || a.SetState? {
      OthersOk(m, a);
    } else {
      PassOkStep(m, a);
    }
  }

  /** A pass compares with what is served, and loads only what is not served yet. */
  ghost predicate Fits(m: Machine) {
    match m.pc
    case Idle => true
    case SawState(_, _) => true
    case Next(pass) => pass.existing == m.serving
    case SawGeneration(pass, g) =>
      && pass.existing == m.serving && InPass(pass)
      && !Unchanged(pass.existing[|pass.built|], pass.profile, g)
    case Holding(pass, s) =>
      && pass.existing == m.serving && InPass(pass) && s.key == KeyOf(pass)
      && !Unchanged(pass.existing[|pass.built|], pass.profile, s.generation)
  }

  lemma FitsStep(m: Machine, a: Action)
    requires Fits(m)
    ensures Fits(Apply(m, a))
  {
  }

  lemma {:induction false} RunInv(m: Machine, actions: seq<Action>)
    requires Inv(m) && Fits(m)
    ensures Inv(Run(m, actions)) && Fits(Run(m, actions)) && MovesOn(m.tables, Run(m, actions).tables)
    decreases |actions|
  {
    if actions != [] {
      ApplyInv(m, actions[0]);
      FitsStep(m, actions[0]);
      RunInv(Apply(m, actions[0]), actions[1..]);
    }
  }

  const START := Machine(map[], LegacyCompat, EMPTY, Idle)

  // ---------------------------------------------------------------- what every run promises

  /** In every interleaving of adoption with commits, dead jobs and registry changes: the
    * snapshots served belong to one profile, each in the place of its kind. Each holds the
    * rows of the generation that was durable when they were read, all of them exactly if
    * no dead job had removed any. For a marked one that is the generation on its stamp; a
    * candidate's without losses is what its stamp says if and only if that generation
    * opened with the same rows, and always if none opened between its two reads. */
  lemma AdoptedSnapshotIsItsGeneration(actions: seq<Action>, kind: Kind)
    ensures var m := Run(START, actions);
            && OneProfile(m.serving)
            && (m.serving[kind].Some? ==>
                  var s := m.serving[kind].value;
                  && s.key.kind == kind && s.key in m.tables
                  && s.generation <= s.readAt < |m.tables[s.key].log|
                  && var log := m.tables[s.key].log;
                  && (s.rows == log[s.readAt] <==> s.losses == 0)
                  && (s.losses == 0 ==> (s.rows == log[s.generation] <==> log[s.readAt] == log[s.generation]))
                  && (s.marked ==> s.readAt == s.generation)
                  && (s.readAt == s.generation ==> (s.rows == log[s.generation] <==> s.losses == 0)))
  {
    RunInv(START, actions);
    var m := Run(START, actions);
    if m.serving[kind].Some? { assert True(m.tables, m.serving[kind].value); }
  }

  // ---------------------------------------------------------------- from the mark to the swap

  predicate Inside(pc: Pc) { pc.Next? || pc.SawGeneration? || pc.Holding? }

  /** Within a pass the shelf under construction grows and what is served stays. The pass
    * ends in a swap of the three built, or with what was served before. */
  lemma PassStep(m: Machine, a: Action)
    requires Fits(m) && Inside(m.pc)
    ensures var m' := Apply(m, a);
            && Fits(m')
            && (Inside(m'.pc) ==> m'.serving == m.serving && m.pc.pass.built <= m'.pc.pass.built)
            && (!Inside(m'.pc) ==> m'.serving == if a.Swap? then m.pc.pass.built else m.serving)
  {
    FitsStep(m, a);
  }

  /** The pass goes on through all of the run. */
  ghost predicate Underway(m: Machine, actions: seq<Action>)
    decreases |actions|
  {
    Inside(m.pc) && (actions != [] ==> Underway(Apply(m, actions[0]), actions[1..]))
  }

  lemma {:induction false} PassGoesOn(m: Machine, actions: seq<Action>)
    requires Fits(m) && Underway(m, actions)
    ensures var m' := Run(m, actions);
            && Fits(m') && Inside(m'.pc)
            && m'.serving == m.serving && m.pc.pass.built <= m'.pc.pass.built
    decreases |actions|
  {
    if actions != [] {
      PassStep(m, actions[0]);
      PassGoesOn(Apply(m, actions[0]), actions[1..]);
    }
  }

  /** What a pass puts in the place it is at. */
  function Kept(pass: Pass, s: Snapshot): Snapshot { if pass.candidate then s else s.(marked := true) }

  /** The ways in which a pass comes to nothing: an error, an invalid scan of a candidate,
    * or a mark refused because a generation has opened since. */
  predicate Refused(m: Machine, a: Action) {
    || a.Abort?
    || (a.ReadGeneration? && a.scanInvalid && m.pc.Next? && m.pc.pass.candidate)
    || (a.Mark? && m.pc.Holding? && !m.pc.pass.candidate && !MayMark(m.tables, m.pc.snapshot))
  }

  lemma PassEnds(m: Machine, a: Action)
    requires Inside(m.pc) && !Inside(Apply(m, a).pc)
    ensures a.Swap? <==> !Refused(m, a)
    ensures a.Swap? ==> m.pc.Next? && |m.pc.pass.built| == 3
  {
  }

  /** Over every run from a successful mark to the end of its pass: the kind is served if
    * and only if the pass comes to its swap, which it does unless it is refused by an
    * error, an invalid scan or the mark of a later kind. If it is, everything served is as
    * before, and nothing with the new stamp is among it. */
  lemma MarkedIsServedIffSwapped(m: Machine, rest: seq<Action>, last: Action)
    requires Fits(m) && m.pc.Holding? && (m.pc.pass.candidate || MayMark(m.tables, m.pc.snapshot))
    requires var m1 := Apply(m, Mark); Underway(m1, rest) && !Inside(Apply(Run(m1, rest), last).pc)
    ensures var k, s := |m.pc.pass.built|, Kept(m.pc.pass, m.pc.snapshot);
            var end := Run(Apply(m, Mark), rest);
            var m' := Apply(end, last);
            && (m'.serving[k] == Some(s) <==> last.Swap?)
            && (last.Swap? <==> !Refused(end, last))
            && (!last.Swap? ==> m'.serving == m.serving && !Unchanged(m'.serving[k], s.key.profile, s.generation))
  {
    var m1 := Apply(m, Mark);
    FitsStep(m, Mark);
    PassGoesOn(m1, rest);
    PassStep(Run(m1, rest), last);
    PassEnds(Run(m1, rest), last);
    assert m1.pc.pass.built[|m.pc.pass.built|] == Some(Kept(m.pc.pass, m.pc.snapshot));
  }

  /** What the run did at step `k` to the served snapshots. */
  ghost predicate Swapped(before: Machine, a: Action, serving: Shelf) {
    || (a.ReadState? && before.state.LegacyCompat? && serving == EMPTY)
    || (a.Swap? && before.pc.Next? && serving == before.pc.pass.built
        && BuiltFor(before.pc.pass.built, before.pc.pass.profile))
  }

  lemma SwapStep(m: Machine, a: Action)
    requires PcOk(m.tables, m.pc) && Apply(m, a).serving != m.serving
    ensures Swapped(m, a, Apply(m, a).serving)
  {
  }

  /** Step `k` of the run put there what is served at its end. */
  ghost predicate SwappedAt(m: Machine, actions: seq<Action>, k: nat)
    requires k < |actions|
  {
    Swapped(Run(m, actions[..k]), actions[k], Run(m, actions).serving)
  }

  lemma SwappedLater(m: Machine, actions: seq<Action>, k: nat)
    requires k + 1 < |actions| && SwappedAt(Apply(m, actions[0]), actions[1..], k)
    ensures SwappedAt(m, actions, k + 1)
  {
    assert actions[..k + 1][1..] == actions[1..][..k];
  }

  /** If what is served has changed over a run, it is what the swap at the end of one full
    * pass for one profile put there, or nothing because the registry had no profile. */
  lemma {:induction false} OnlyFullPassesSwap(m: Machine, actions: seq<Action>)
    requires Inv(m) && Run(m, actions).serving != m.serving
    ensures exists k: nat :: k < |actions| && SwappedAt(m, actions, k)
    decreases |actions|
  {
    var next, rest := Apply(m, actions[0]), actions[1..];
    ApplyInv(m, actions[0]);
    if Run(next, rest).serving == next.serving {
      SwapStep(m, actions[0]);
      assert actions[..0] == [] && SwappedAt(m, actions, 0);
    } else {
      OnlyFullPassesSwap(next, rest);
      var k: nat :| k < |rest| && SwappedAt(next, rest, k);
      SwappedLater(m, actions, k);
    }
  }

  /** The publish mark can run ahead of what is served: a pass that marks one kind and is
    * refused on the next has published a generation that no reader sees. */
  lemma MarkedButNotServed(m: Machine, first: Snapshot, rows: Rows)
    requires m.pc.Holding? && m.pc.snapshot == first && !m.pc.pass.candidate && m.pc.pass.built == []
    requires MayMark(m.tables, first) && first.key == Key(m.pc.pass.profile, 0)
    requires var k := Key(m.pc.pass.profile, 1);
             k in m.tables && !Unchanged(m.pc.pass.existing[1], m.pc.pass.profile, m.tables[k].durable)
    ensures var k := Key(m.pc.pass.profile, 1);
            var m1 := Apply(Apply(Apply(m, Mark), ReadGeneration(false)), LoadRows);
            var m' := Apply(Apply(m1, Commit(k, rows)), Mark);
            && m'.pc == Idle && m'.serving == m.serving
            && first.key in m'.tables && m'.tables[first.key].published == first.generation == m'.tables[first.key].durable
  {
    var m1 := Apply(m, Mark);
    var m2 := Apply(m1, ReadGeneration(false));
    assert m2.pc.SawGeneration?;
    var m3 := Apply(m2, LoadRows);
    assert m3.pc.Holding? && !m3.pc.pass.candidate;
    var m4 := Apply(m3, Commit(Key(m.pc.pass.profile, 1), rows));
    assert !MayMark(m4.tables, m3.pc.snapshot);
  }

  // ---------------------------------------------------------------- candidates

  function Commits(actions: seq<Action>, k: Key): nat {
    if actions == [] then 0
    else (if actions[0].Commit? && actions[0].key == k then 1 else 0) + Commits(actions[1..], k)
  }

  lemma {:induction false} CommitsOpenGenerations(m: Machine, actions: seq<Action>, k: Key)
    requires k in m.tables
    ensures var m' := Run(m, actions);
            k in m'.tables && m'.tables[k].durable == m.tables[k].durable + Commits(actions, k)
    decreases |actions|
  {
    if actions != [] {
      CommitsOpenGenerations(Apply(m, actions[0]), actions[1..], k);
    }
  }

  lemma LoadReads(m: Machine)
    requires m.pc.SawGeneration? && InPass(m.pc.pass) && KeyOf(m.pc.pass) in m.tables
    ensures var k := KeyOf(m.pc.pass);
            Apply(m, LoadRows) == m.(pc := Holding(m.pc.pass, SnapshotOf(k, m.pc.generation, m.tables[k])))
  {
  }

  /** The rows loaded are those of the generation read, up to losses, if no commit of their
    * profile and kind fell between the two reads, and of a later one if one did. */
  lemma LoadIsUntornIff(m: Machine, between: seq<Action>)
    requires m.pc.SawGeneration? && InPass(m.pc.pass) && KeyOf(m.pc.pass) in m.tables
    requires m.pc.generation == m.tables[KeyOf(m.pc.pass)].durable && Run(m, between).pc == m.pc
    ensures var k, m' := KeyOf(m.pc.pass), Run(m, between);
            && k in m'.tables
            && var s := SnapshotOf(k, m.pc.generation, m'.tables[k]);
            && Apply(m', LoadRows).pc == Holding(m.pc.pass, s)
            && s.readAt == s.generation + Commits(between, k)
  {
    CommitsOpenGenerations(m, between, KeyOf(m.pc.pass));
    LoadReads(Run(m, between));
  }

  /** A commit after the generation read, then the load. */
  function Torn(m: Machine, rows: Rows): Machine
    requires m.pc.SawGeneration? && InPass(m.pc.pass)
  {
    Apply(Apply(m, Commit(KeyOf(m.pc.pass), rows)), LoadRows)
  }

  lemma TornHolds(m: Machine, rows: Rows)
    requires Inv(m) && Fits(m) && m.pc.SawGeneration?
    ensures var k, m' := KeyOf(m.pc.pass), Torn(m, rows);
            && Inv(m') && Fits(m') && MovesOn(m.tables, m'.tables)
            && m'.pc == Holding(m.pc.pass, Snapshot(k, m.pc.generation, rows, m.tables[k].durable + 1, 0, false))
  {
    var commit := Commit(KeyOf(m.pc.pass), rows);
    ApplyInv(m, commit);
    FitsStep(m, commit);
    LoadReads(Apply(m, commit));
    ApplyInv(Apply(m, commit), LoadRows);
    FitsStep(Apply(m, commit), LoadRows);
  }

  lemma LogStays(before: Tables, middle: Tables, after: Tables, k: Key, g: nat)
    requires MovesOn(before, middle) && MovesOn(middle, after) && k in before && g <= before[k].durable
    ensures k in after && g < |after[k].log| && after[k].log[g] == before[k].log[g]
  {
  }

  /** A candidate's snapshots are not checked against the generation after the load, so
    * whatever other rows a commit in between brings are served, at whatever kind, under the
    * old stamp when the pass ends in its swap. */
  lemma CandidateMayTear(m: Machine, rows: Rows, rest: seq<Action>)
    requires Inv(m) && Fits(m) && m.pc.SawGeneration? && m.pc.pass.candidate
    requires rows != m.tables[KeyOf(m.pc.pass)].log[m.pc.generation]
    requires var m1 := Apply(Torn(m, rows), Mark); Underway(m1, rest) && !Inside(Apply(Run(m1, rest), Swap).pc)
    ensures var k, g := KeyOf(m.pc.pass), m.pc.generation;
            var m' := Apply(Run(Apply(Torn(m, rows), Mark), rest), Swap);
            && m'.serving[k.kind] == Some(Snapshot(k, g, rows, m.tables[k].durable + 1, 0, false))
            && k in m'.tables && g < |m'.tables[k].log| && rows != m'.tables[k].log[g]
  {
    TornHolds(m, rows);
    MarkedIsServedIffSwapped(Torn(m, rows), rest, Swap);
    RunInv(Torn(m, rows), [Mark] + rest + [Swap]);
    RunAround(Torn(m, rows), Mark, rest, Swap);
    var k := KeyOf(m.pc.pass);
    LogStays(m.tables, Torn(m, rows).tables, Run(Torn(m, rows), [Mark] + rest + [Swap]).tables, k, m.pc.generation);
  }

  lemma RunAround(m: Machine, first: Action, actions: seq<Action>, last: Action)
    ensures Run(m, [first] + actions + [last]) == Apply(Run(Apply(m, first), actions), last)
  {
    assert ([first] + actions + [last])[1..] == actions + [last];
    RunSnoc(Apply(m, first), actions, last);
  }

  lemma {:induction false} RunSnoc(m: Machine, actions: seq<Action>, last: Action)
    ensures Run(m, actions + [last]) == Apply(Run(m, actions), last)
    decreases |actions|
  {
    if actions == [] {
      assert Run(m, [last]) == Run(Apply(m, last), [last][1..]);
    } else {
      assert (actions + [last])[1..] == actions[1..] + [last];
      RunSnoc(Apply(m, actions[0]), actions[1..], last);
    }
  }
}
