/** Publication of vector snapshots and the profile registry that gates them.
  *
  * Workers change the durable tables from other connections while a store
  * reconciles, so every SQL statement or transaction is one atomic action and a
  * reconcile is a sequence of them. Any number of stores run side by side, each
  * with its own installed snapshot. An action whose guard does not hold leaves
  * the machine as it is. */
module Serving {
  import opened Wrappers
  import opened Owners

  type Profile = nat
  type Fingerprint = string

  /** The chunk rows of one profile: the vectors of each owner. */
  type Rows = map<Owner, seq<seq<real>>>

  datatype Ann = Ann(durable: int, published: int, fullScan: Option<int>)

  /** What the database holds for one profile, and its history: `log[g]` is what
    * `rows` was when generation `g` opened, `losses` counts the owners removed
    * since then without a new generation. */
  datatype Table = Table(fp: Fingerprint, ann: Ann, rows: Rows, log: seq<Rows>, losses: nat)

  datatype StoreState =
    | LegacyCompat
    | Active(profile: Profile)
    | Rebuilding(serving: Option<Profile>, candidate: Profile)
    | Failed(serving: Option<Profile>, candidate: Profile, reason: string)

  /** The durable side. `activated` records the profiles the registry has activated. */
  datatype Ledger = Ledger(state: StoreState, tables: map<Profile, Table>, activated: set<Profile>)

  /** Rows read for `profile` after its `generation` was read, with the durable
    * generation and the losses of the table at the moment the rows were read. */
  datatype Scan = Scan(profile: Profile, generation: int, rows: Rows, readAt: int, losses: nat)

  datatype Origin = Reconciled | Loaded
  datatype Snapshot = Snapshot(scan: Scan, origin: Origin)

  datatype Pc =
    | Idle
    // reconcile_managed_snapshot
    | SawState(state: StoreState)
    | SawGeneration(profile: Profile, generation: int, candidate: bool)
    | Holding(scan: Scan, candidate: bool)
    | Published(scan: Scan)
    | Scanned(scan: Scan)
    | Ready(scan: Scan)
    // load_managed_snapshot
    | LoadSawState(profile: Profile)
    | LoadSawGeneration(profile: Profile, generation: int)
    | LoadHolding(scan: Scan)

  datatype Store = Store(pc: Pc, snapshot: Option<Snapshot>)

  datatype Machine = Machine(db: Ledger, stores: map<nat, Store>)

  datatype Action =
    // other connections
    | Commit(profile: Profile, rows: Rows)
    | DeadLetter(profile: Profile, owner: Owner)
    | Adopt(id: Profile, fp: Fingerprint)
    | FailRebuild(candidate: Profile, reason: string)
    // one store
    | ReadState(store: nat)
    | LoadState(store: nat)
    | ReadGeneration(store: nat)
    | ReadRows(store: nat)
    | MarkPublished(store: nat)
    | VerifyFullScan(store: nat, vectorsCurrent: bool)
    | Activate(store: nat, vectorsCurrent: bool)
    | Install(store: nat)
    | Abort(store: nat)

  // ---------------------------------------------------------------- durable side

  /** A worker transaction replaces the rows and opens a generation. */
  function Committed(t: Table, rows: Rows): Table {
    Table(t.fp, Ann(t.ann.durable + 1, t.ann.published, None), rows, t.log + [rows], 0)
  }

  /** A dead-lettered job drops its owner's rows. Only an attachment opens a generation. */
  function WithoutDead(t: Table, o: Owner): Table {
    if o !in t.rows then t
    else if o.kind == Attachment then Committed(t, t.rows - {o})
    else t.(rows := t.rows - {o}, losses := t.losses + 1)
  }

  function Update(db: Ledger, p: Profile, t: Table): Ledger { db.(tables := db.tables[p := t]) }

  datatype AdoptOutcome =
    | Unchanged
    | RebuildInProgress
    | PreviousRebuildFailed(reason: string)
    | RebuildStarted
    | Refused

  function ServingProfile(state: StoreState): Option<Profile> {
    match state
    case LegacyCompat => None
    case Active(p) => Some(p)
    case Rebuilding(s, _) => s
    case Failed(s, _, _) => s
  }

  predicate Same(db: Ledger, id: Profile, fp: Fingerprint) {
    id in db.tables && db.tables[id].fp == fp
  }

  predicate FingerprintUsed(db: Ledger, fp: Fingerprint) {
    exists id :: id in db.tables && db.tables[id].fp == fp
  }

  /** begin_rebuild: profile ids and fingerprints stay unique, retired ones included. */
  predicate MayBegin(db: Ledger, id: Profile, fp: Fingerprint) {
    && !db.state.Rebuilding?
    && ServingProfile(db.state) != Some(id)
    && id !in db.tables
    && !FingerprintUsed(db, fp)
  }

  function Outcome(db: Ledger, id: Profile, fp: Fingerprint): AdoptOutcome {
    if db.state.Active? && Same(db, db.state.profile, fp) then Unchanged
    else if db.state.Rebuilding? then
      if Same(db, db.state.candidate, fp) then RebuildInProgress else Refused
    else if db.state.Failed? && Same(db, db.state.candidate, fp) then PreviousRebuildFailed(db.state.reason)
    else if MayBegin(db, id, fp) then RebuildStarted
    else Refused
  }

  function AdoptProfile(db: Ledger, id: Profile, fp: Fingerprint): Ledger {
    if Outcome(db, id, fp) != RebuildStarted then db else
      db.(state := Rebuilding(ServingProfile(db.state), id),
          tables := db.tables[id := Table(fp, Ann(0, -1, None), map[], [map[]], 0)])
  }

  predicate MayActivate(db: Ledger, p: Profile) {
    && db.state.Rebuilding? && db.state.candidate == p
    && p in db.tables
    && db.tables[p].ann.fullScan == Some(db.tables[p].ann.durable)
    && db.tables[p].ann.published == db.tables[p].ann.durable
  }

  // ---------------------------------------------------------------- one store

  function Stamp(s: Store): Option<(Profile, int)> {
    if s.snapshot.None? then None
    else Some((s.snapshot.value.scan.profile, s.snapshot.value.scan.generation))
  }

  /** Reconciling reads the generation of the profile to serve, and stops when the
    * installed snapshot already carries it. A failed registry keeps what is
    * installed. Loading stops unless that generation is published. */
  function AfterGeneration(db: Ledger, s: Store): Store {
    match s.pc
    case SawState(LegacyCompat) => Store(Idle, None)
    case SawState(Failed(_, _, _)) => s.(pc := Idle)
    case SawState(Active(p)) => Compared(db, s, p, false)
    case SawState(Rebuilding(_, c)) => Compared(db, s, c, true)
    case LoadSawState(p) =>
      if p in db.tables && db.tables[p].ann.published == db.tables[p].ann.durable
      then s.(pc := LoadSawGeneration(p, db.tables[p].ann.durable)) else s.(pc := Idle)
    case _ => s
  }

  function Compared(db: Ledger, s: Store, p: Profile, candidate: bool): Store {
    if p !in db.tables || Stamp(s) == Some((p, db.tables[p].ann.durable)) then s.(pc := Idle)
    else s.(pc := SawGeneration(p, db.tables[p].ann.durable, candidate))
  }

  function ScanOf(p: Profile, g: int, t: Table): Scan { Scan(p, g, t.rows, t.ann.durable, t.losses) }

  function AfterRows(db: Ledger, s: Store): Store {
    match s.pc
    case SawGeneration(p, g, candidate) =>
      if p !in db.tables then s.(pc := Idle)
      else s.(pc := Holding(ScanOf(p, g, db.tables[p]), candidate))
    case LoadSawGeneration(p, g) =>
      if p !in db.tables then s.(pc := Idle)
      else s.(pc := LoadHolding(ScanOf(p, g, db.tables[p])))
    case _ => s
  }

  function AfterInstall(s: Store): Store {
    match s.pc
    case Ready(scan) => Store(Idle, Some(Snapshot(scan, Reconciled)))
    case LoadHolding(scan) => Store(Idle, Some(Snapshot(scan, Loaded)))
    case _ => s
  }

  /** The durable side after one action. */
  function DbStep(m: Machine, a: Action): Ledger {
    var db := m.db;
    match a
    case Commit(p, rows) => if p in db.tables then Update(db, p, Committed(db.tables[p], rows)) else db
    case DeadLetter(p, o) => if p in db.tables then Update(db, p, WithoutDead(db.tables[p], o)) else db
    case Adopt(id, fp) => AdoptProfile(db, id, fp)
    case FailRebuild(c, why) =>
      if db.state.Rebuilding? && db.state.candidate == c
      then db.(state := Failed(db.state.serving, c, why)) else db
    case MarkPublished(r) => if Publishes(m, r) then
        var s := m.stores[r].pc.scan;
        var t := db.tables[s.profile];
        Update(db, s.profile, t.(ann := t.ann.(published := s.generation)))
      else db
    case VerifyFullScan(r, current) => if current && Verifies(m, r) then
        var p := m.stores[r].pc.scan.profile;
        var t := db.tables[p];
        Update(db, p, t.(ann := t.ann.(fullScan := Some(t.ann.durable))))
      else db
    case Activate(r, current) => if current && Activates(m, r) then
        var p := m.stores[r].pc.scan.profile;
        db.(state := Active(p), activated := db.activated + {p})
      else db
    case _ => db
  }

  /** The compare-and-set of mark_published, which fails on a newer generation. */
  predicate Publishes(m: Machine, r: nat) {
    && r in m.stores && m.stores[r].pc.Holding?
    && m.stores[r].pc.scan.profile in m.db.tables
    && m.db.tables[m.stores[r].pc.scan.profile].ann.durable == m.stores[r].pc.scan.generation
  }

  predicate Verifies(m: Machine, r: nat) {
    r in m.stores && m.stores[r].pc.Published? && m.stores[r].pc.scan.profile in m.db.tables
  }

  predicate Activates(m: Machine, r: nat) {
    r in m.stores && m.stores[r].pc.Scanned? && MayActivate(m.db, m.stores[r].pc.scan.profile)
  }

  /** Store `r` after one of its own actions. A failed step ends the call. */
  function StoreStep(m: Machine, r: nat, a: Action): Store
    requires r in m.stores
  {
    var s := m.stores[r];
    match a
    case ReadState(_) => if s.pc.Idle? then s.(pc := SawState(m.db.state)) else s
    case LoadState(_) =>
      if s.pc.Idle? && m.db.state.Active? then s.(pc := LoadSawState(m.db.state.profile)) else s
    case ReadGeneration(_) => AfterGeneration(m.db, s)
    case ReadRows(_) => AfterRows(m.db, s)
    case MarkPublished(_) =>
      if !s.pc.Holding? then s
      else if !Publishes(m, r) then s.(pc := Idle)
      else s.(pc := if s.pc.candidate then Published(s.pc.scan) else Ready(s.pc.scan))
    case VerifyFullScan(_, current) =>
      if !s.pc.Published? then s
      else s.(pc := if current && Verifies(m, r) then Scanned(s.pc.scan) else Idle)
    case Activate(_, current) =>
      if !s.pc.Scanned? then s
      else s.(pc := if current && Activates(m, r) then Ready(s.pc.scan) else Idle)
    case Install(_) => AfterInstall(s)
    case Abort(_) => s.(pc := Idle)
    case _ => s
  }

  predicate ByStore(a: Action) { !a.Commit? && !a.DeadLetter? && !a.Adopt? && !a.FailRebuild? }

  function Apply(m: Machine, a: Action): Machine {
    if ByStore(a) && a.store in m.stores
    then Machine(DbStep(m, a), m.stores[a.store := StoreStep(m, a.store, a)])
    else m.(db := DbStep(m, a))
  }

  function Run(m: Machine, actions: seq<Action>): Machine
    decreases |actions|
  {
    if actions == [] then m else Run(Apply(m, actions[0]), actions[1..])
  }

  predicate Initial(m: Machine) {
    && m.db == Ledger(LegacyCompat, map[], {})
    && forall r :: r in m.stores ==> m.stores[r] == Store(Idle, None)
  }

  // ---------------------------------------------------------------- invariant

  ghost predicate Sub(a: Rows, b: Rows) {
    forall o :: o in a ==> o in b && a[o] == b[o]
  }

  /** The rows are those that the generation they were read from opened with, except for
    * the losses. */
  ghost predicate Faithful(t: Table, s: Scan) {
    && 0 <= s.readAt < |t.log|
    && Sub(s.rows, t.log[s.readAt])
    && (s.rows == t.log[s.readAt] <==> s.losses == 0)
  }

  /** The stamp is never ahead of the rows. While the generation the rows were read from
    * is the durable one, they are what the table held. */
  ghost predicate Tracks(t: Table, s: Scan) {
    && 0 <= s.generation <= s.readAt <= t.ann.durable
    && Faithful(t, s)
    && (s.readAt == t.ann.durable ==>
          && Sub(t.rows, s.rows)
          && s.losses <= t.losses
          && (s.rows == t.rows <==> s.losses == t.losses))
  }

  ghost predicate TableOk(t: Table) {
    && 0 <= t.ann.durable && |t.log| == t.ann.durable + 1
    && Sub(t.rows, t.log[t.ann.durable])
    && (t.rows == t.log[t.ann.durable] <==> t.losses == 0)
  }

  ghost predicate StateOk(db: Ledger, st: StoreState) {
    && (st.Active? ==> st.profile in db.tables && st.profile in db.activated)
    && (st.Rebuilding? || st.Failed? ==> st.candidate in db.tables)
  }

  ghost predicate ScanOk(db: Ledger, s: Scan) {
    s.profile in db.tables && Tracks(db.tables[s.profile], s)
  }

  /** No generation opened between the two reads. */
  predicate Untorn(s: Scan) { s.readAt == s.generation }

  ghost predicate PcOk(db: Ledger, pc: Pc) {
    match pc
    case Idle => true
    case SawState(st) => StateOk(db, st)
    case SawGeneration(p, g, c) =>
      p in db.tables && 0 <= g <= db.tables[p].ann.durable && (c || p in db.activated)
    case Holding(s, c) => ScanOk(db, s) && (c || s.profile in db.activated)
    case Published(s) => ScanOk(db, s) && Untorn(s)
    case Scanned(s) => ScanOk(db, s) && Untorn(s)
    case Ready(s) => ScanOk(db, s) && Untorn(s) && s.profile in db.activated
    case LoadSawState(p) => p in db.tables && p in db.activated
    case LoadSawGeneration(p, g) => p in db.tables && p in db.activated && 0 <= g <= db.tables[p].ann.durable
    case LoadHolding(s) => ScanOk(db, s) && s.profile in db.activated
  }

  ghost predicate StoreOk(db: Ledger, s: Store) {
    && PcOk(db, s.pc)
    && (s.snapshot.Some? ==>
          && ScanOk(db, s.snapshot.value.scan)
          && s.snapshot.value.scan.profile in db.activated
          && (s.snapshot.value.origin == Reconciled ==> Untorn(s.snapshot.value.scan)))
  }

  ghost predicate LedgerOk(db: Ledger) {
    && StateOk(db, db.state)
    && forall p :: p in db.tables ==> TableOk(db.tables[p])
  }

  ghost predicate Inv(m: Machine) {
    LedgerOk(m.db) && forall r :: r in m.stores ==> StoreOk(m.db, m.stores[r])
  }

  /** How an action may move a table: no generation is forgotten, and within one
    * generation rows only disappear, one loss at a time. */
  ghost predicate Moves(t: Table, t': Table) {
    && t.fp == t'.fp
    && t.log <= t'.log
    && t.ann.durable <= t'.ann.durable
    && (t.ann.durable == t'.ann.durable ==>
          || (t'.rows == t.rows && t'.losses == t.losses)
          || exists o :: o in t.rows && t'.rows == t.rows - {o} && t'.losses == t.losses + 1)
  }

  ghost predicate Evolves(db: Ledger, db': Ledger) {
    && db.activated <= db'.activated
    && forall p :: p in db.tables ==> p in db'.tables && Moves(db.tables[p], db'.tables[p])
  }

  lemma ScanKept(t: Table, t': Table, s: Scan)
    requires Moves(t, t') && Tracks(t, s)
    ensures Tracks(t', s)
  {
  }

  lemma StoreKept(db: Ledger, db': Ledger, s: Store)
    requires Evolves(db, db') && StoreOk(db, s)
    ensures StoreOk(db', s)
  {
    if s.snapshot.Some? {
      var scan := s.snapshot.value.scan;
      ScanKept(db.tables[scan.profile], db'.tables[scan.profile], scan);
    }
    if s.pc.Holding? || s.pc.Published? || s.pc.Scanned? || s.pc.Ready? || s.pc.LoadHolding? {
      ScanKept(db.tables[s.pc.scan.profile], db'.tables[s.pc.scan.profile], s.pc.scan);
    }
  }

  lemma TableSteps(t: Table, rows: Rows, o: Owner)
    requires TableOk(t)
    ensures TableOk(Committed(t, rows)) && Moves(t, Committed(t, rows))
    ensures TableOk(WithoutDead(t, o)) && Moves(t, WithoutDead(t, o))
  {
    if o in t.rows && o.kind != Attachment {
      assert o in t.log[t.ann.durable] && o !in WithoutDead(t, o).rows;
    }
  }

  lemma UpdateOk(db: Ledger, p: Profile, t: Table)
    requires LedgerOk(db) && p in db.tables && TableOk(t) && Moves(db.tables[p], t)
    ensures Evolves(db, Update(db, p, t)) && LedgerOk(Update(db, p, t))
  {
  }

  lemma WorkerStepOk(db: Ledger, p: Profile, rows: Rows, o: Owner)
    requires LedgerOk(db) && p in db.tables
    ensures var db' := Update(db, p, Committed(db.tables[p], rows)); Evolves(db, db') && LedgerOk(db')
    ensures var db' := Update(db, p, WithoutDead(db.tables[p], o)); Evolves(db, db') && LedgerOk(db')
  {
    TableSteps(db.tables[p], rows, o);
    UpdateOk(db, p, Committed(db.tables[p], rows));
    UpdateOk(db, p, WithoutDead(db.tables[p], o));
  }

  lemma MarkOk(db: Ledger, p: Profile, published: int, fullScan: Option<int>)
    requires LedgerOk(db) && p in db.tables
    ensures var t := db.tables[p];
            var db' := Update(db, p, t.(ann := Ann(t.ann.durable, published, fullScan)));
            Evolves(db, db') && LedgerOk(db')
  {
    var t := db.tables[p];
    UpdateOk(db, p, t.(ann := Ann(t.ann.durable, published, fullScan)));
  }

  lemma AdoptOk(db: Ledger, id: Profile, fp: Fingerprint)
    requires LedgerOk(db)
    ensures Evolves(db, AdoptProfile(db, id, fp)) && LedgerOk(AdoptProfile(db, id, fp))
  {
  }

  lemma MarkStepOk(m: Machine, r: nat)
    requires LedgerOk(m.db) && Publishes(m, r)
    ensures Evolves(m.db, DbStep(m, MarkPublished(r))) && LedgerOk(DbStep(m, MarkPublished(r)))
  {
    var s := m.stores[r].pc.scan;
    MarkOk(m.db, s.profile, s.generation, m.db.tables[s.profile].ann.fullScan);
  }

  lemma VerifyStepOk(m: Machine, r: nat)
    requires LedgerOk(m.db) && Verifies(m, r)
    ensures Evolves(m.db, DbStep(m, VerifyFullScan(r, true))) && LedgerOk(DbStep(m, VerifyFullScan(r, true)))
  {
    var p := m.stores[r].pc.scan.profile;
    MarkOk(m.db, p, m.db.tables[p].ann.published, Some(m.db.tables[p].ann.durable));
  }

  lemma StateStepOk(db: Ledger, state: StoreState, activated: set<Profile>)
    requires LedgerOk(db) && db.activated <= activated
    requires StateOk(db.(activated := activated), state)
    ensures var db' := db.(state := state, activated := activated); Evolves(db, db') && LedgerOk(db')
  {
  }

  lemma ActivateStepOk(m: Machine, r: nat)
    requires LedgerOk(m.db) && Activates(m, r)
    ensures Evolves(m.db, DbStep(m, Activate(r, true))) && LedgerOk(DbStep(m, Activate(r, true)))
  {
    var p := m.stores[r].pc.scan.profile;
    StateStepOk(m.db, Active(p), m.db.activated + {p});
  }

  lemma NoStepOk(db: Ledger)
    requires LedgerOk(db)
    ensures Evolves(db, db)
  {
  }

  lemma DbStepOk(m: Machine, a: Action)
    requires LedgerOk(m.db)
    ensures Evolves(m.db, DbStep(m, a)) && LedgerOk(DbStep(m, a))
  {
    var db := m.db;
    NoStepOk(db);
    match a
    case Commit(p, rows) => if p in db.tables { WorkerStepOk(db, p, rows, OWNER); }
    case DeadLetter(p, o) => if p in db.tables { WorkerStepOk(db, p, map[], o); }
    case Adopt(id, fp) => AdoptOk(db, id, fp);
    case FailRebuild(c, why) =>
      if db.state.Rebuilding? && db.state.candidate == c {
        StateStepOk(db, Failed(db.state.serving, c, why), db.activated);
      }
    case MarkPublished(r) => if Publishes(m, r) { MarkStepOk(m, r); }
    case VerifyFullScan(r, current) => if current && Verifies(m, r) { VerifyStepOk(m, r); }
    case Activate(r, current) => if current && Activates(m, r) { ActivateStepOk(m, r); }
    case _ =>
  }

  lemma GenerationOk(db: Ledger, s: Store)
    requires LedgerOk(db) && StoreOk(db, s)
    ensures StoreOk(db, AfterGeneration(db, s))
  {
  }

  lemma RowsOk(db: Ledger, s: Store)
    requires LedgerOk(db) && StoreOk(db, s)
    ensures StoreOk(db, AfterRows(db, s))
  {
  }

  lemma InstallOk(db: Ledger, s: Store)
    requires StoreOk(db, s)
    ensures StoreOk(db, AfterInstall(s))
  {
  }

  /** A pc that is sound on its own makes a store sound beside its old snapshot. */
  lemma PcStepOk(db: Ledger, s: Store, pc: Pc)
    requires StoreOk(db, s) && PcOk(db, pc)
    ensures StoreOk(db, s.(pc := pc))
  {
  }

  lemma BeginOk(m: Machine, r: nat, a: Action)
    requires Inv(m) && r in m.stores && (a == ReadState(r) || a == LoadState(r) || a == Abort(r))
    ensures StoreOk(m.db, StoreStep(m, r, a))
  {
    PcStepOk(m.db, m.stores[r], StoreStep(m, r, a).pc);
  }

  lemma PublishOk(m: Machine, r: nat, a: Action)
    requires Inv(m) && r in m.stores && a == MarkPublished(r)
    ensures StoreOk(DbStep(m, a), StoreStep(m, r, a))
  {
    var s, s', db' := m.stores[r], StoreStep(m, r, a), DbStep(m, a);
    DbStepOk(m, a);
    StoreKept(m.db, db', s);
    PcStepOk(db', s, s'.pc);
  }

  lemma VerifyOk(m: Machine, r: nat, a: Action)
    requires Inv(m) && r in m.stores && a.VerifyFullScan? && a.store == r
    ensures StoreOk(DbStep(m, a), StoreStep(m, r, a))
  {
    var s, s', db' := m.stores[r], StoreStep(m, r, a), DbStep(m, a);
    DbStepOk(m, a);
    StoreKept(m.db, db', s);
    PcStepOk(db', s, s'.pc);
  }

  lemma ActivateOk(m: Machine, r: nat, a: Action)
    requires Inv(m) && r in m.stores && a.Activate? && a.store == r
    ensures StoreOk(DbStep(m, a), StoreStep(m, r, a))
  {
    var s, s', db' := m.stores[r], StoreStep(m, r, a), DbStep(m, a);
    DbStepOk(m, a);
    StoreKept(m.db, db', s);
    PcStepOk(db', s, s'.pc);
  }

  lemma StoreStepOk(m: Machine, r: nat, a: Action)
    requires Inv(m) && r in m.stores && ByStore(a) && a.store == r
    ensures StoreOk(DbStep(m, a), StoreStep(m, r, a))
  {
    match a
    case ReadGeneration(_) => GenerationOk(m.db, m.stores[r]);
    case ReadRows(_) => RowsOk(m.db, m.stores[r]);
    case Install(_) => InstallOk(m.db, m.stores[r]);
    case ReadState(_) => BeginOk(m, r, a);
    case LoadState(_) => BeginOk(m, r, a);
    case Abort(_) => BeginOk(m, r, a);
    case MarkPublished(_) => PublishOk(m, r, a);
    case VerifyFullScan(_, _) => VerifyOk(m, r, a);
    case Activate(_, _) => ActivateOk(m, r, a);
  }

  lemma ApplyInv(m: Machine, a: Action)
    requires Inv(m)
    ensures Inv(Apply(m, a)) && Evolves(m.db, Apply(m, a).db)
  {
    DbStepOk(m, a);
    forall r | r in m.stores ensures StoreOk(Apply(m, a).db, Apply(m, a).stores[r]) {
      StoreKept(m.db, DbStep(m, a), m.stores[r]);
      if ByStore(a) && a.store == r { StoreStepOk(m, r, a); }
    }
  }

  lemma {:induction false} RunInv(m: Machine, actions: seq<Action>)
    requires Inv(m)
    ensures Inv(Run(m, actions))
    decreases |actions|
  {
    if actions != [] {
      ApplyInv(m, actions[0]);
      RunInv(Apply(m, actions[0]), actions[1..]);
    }
  }

  lemma {:induction false} RunSplit(m: Machine, left: seq<Action>, right: seq<Action>)
    ensures Run(m, left + right) == Run(Run(m, left), right)
    decreases |left|
  {
    if left == [] {
      assert left + right == right;
    } else {
      assert (left + right)[1..] == left[1..] + right;
      RunSplit(Apply(m, left[0]), left[1..], right);
    }
  }

  lemma RunLast(m: Machine, actions: seq<Action>)
    requires actions != []
    ensures Run(m, actions) == Apply(Run(m, actions[..|actions| - 1]), actions[|actions| - 1])
  {
    var last := [actions[|actions| - 1]];
    assert actions == actions[..|actions| - 1] + last;
    RunSplit(m, actions[..|actions| - 1], last);
    assert Run(Run(m, actions[..|actions| - 1]), last) == Run(Apply(Run(m, actions[..|actions| - 1]), last[0]), []);
  }

  // ---------------------------------------------------------------- snapshots

  /** In every interleaving, a snapshot that reconciling installs holds rows of the
    * generation on its stamp, and all of them exactly when no owner had been
    * dead-lettered out of that generation before the rows were read. */
  lemma ReconciledSnapshotIsItsGeneration(m: Machine, actions: seq<Action>, r: nat)
    requires Initial(m)
    requires r in Run(m, actions).stores && Run(m, actions).stores[r].snapshot.Some?
    requires Run(m, actions).stores[r].snapshot.value.origin == Reconciled
    ensures var s, db := Run(m, actions).stores[r].snapshot.value.scan, Run(m, actions).db;
            && s.profile in db.tables && 0 <= s.generation < |db.tables[s.profile].log|
            && Sub(s.rows, db.tables[s.profile].log[s.generation])
            && (s.rows == db.tables[s.profile].log[s.generation] <==> s.losses == 0)
  {
    RunInv(m, actions);
  }

  /** However it was installed, a snapshot holds the rows of the generation that was
    * durable when they were read, all of them exactly without losses. So one without
    * losses is what its stamp says if and only if that generation opened with the same
    * rows as the stamped one, and always if no generation opened between the two reads. */
  lemma SnapshotIsTheGenerationRead(m: Machine, actions: seq<Action>, r: nat)
    requires Initial(m)
    requires r in Run(m, actions).stores && Run(m, actions).stores[r].snapshot.Some?
    ensures var s, db := Run(m, actions).stores[r].snapshot.value.scan, Run(m, actions).db;
            && s.profile in db.tables && 0 <= s.generation <= s.readAt < |db.tables[s.profile].log|
            && var log := db.tables[s.profile].log;
            && Sub(s.rows, log[s.readAt])
            && (s.rows == log[s.readAt] <==> s.losses == 0)
            && (s.losses == 0 ==> (s.rows == log[s.generation] <==> log[s.readAt] == log[s.generation]))
            && (Untorn(s) ==> (s.rows == log[s.generation] <==> s.losses == 0))
  {
    RunInv(m, actions);
  }

  /** A snapshot on the durable generation, however it was installed, equals the
    * table exactly when no owner was dead-lettered since its rows were read. So
    * reconciling may skip a snapshot that carries the durable generation. */
  lemma CurrentStampMeansCurrentRows(m: Machine, actions: seq<Action>, r: nat)
    requires Initial(m)
    requires r in Run(m, actions).stores && Run(m, actions).stores[r].snapshot.Some?
    ensures var s, db := Run(m, actions).stores[r].snapshot.value.scan, Run(m, actions).db;
            && s.profile in db.tables
            && (s.generation == db.tables[s.profile].ann.durable ==>
                  (s.rows == db.tables[s.profile].rows <==> s.losses == db.tables[s.profile].losses))
  {
    RunInv(m, actions);
  }

  /** No job of an entity or a relation is dead-lettered. */
  ghost predicate Lossless(actions: seq<Action>) {
    forall a :: a in actions && a.DeadLetter? ==> a.owner.kind == Attachment
  }

  ghost predicate ScanClean(pc: Pc) {
    && (pc.Holding? ==> pc.scan.losses == 0)
    && (pc.Published? || pc.Scanned? || pc.Ready? || pc.LoadHolding? ==> pc.scan.losses == 0)
  }

  ghost predicate StoreClean(s: Store) {
    ScanClean(s.pc) && (s.snapshot.Some? ==> s.snapshot.value.scan.losses == 0)
  }

  ghost predicate Clean(m: Machine) {
    && (forall p :: p in m.db.tables ==> m.db.tables[p].losses == 0)
    && (forall r :: r in m.stores ==> StoreClean(m.stores[r]))
  }

  lemma DbStepClean(m: Machine, a: Action)
    requires Clean(m) && (a.DeadLetter? ==> a.owner.kind == Attachment)
    ensures forall p :: p in DbStep(m, a).tables ==> DbStep(m, a).tables[p].losses == 0
  {
  }

  lemma StoreStepClean(m: Machine, r: nat, a: Action)
    requires r in m.stores && StoreClean(m.stores[r])
    requires forall p :: p in m.db.tables ==> m.db.tables[p].losses == 0
    ensures StoreClean(StoreStep(m, r, a))
  {
  }

  lemma ApplyClean(m: Machine, a: Action)
    requires Clean(m) && (a.DeadLetter? ==> a.owner.kind == Attachment)
    ensures Clean(Apply(m, a))
  {
    DbStepClean(m, a);
    if ByStore(a) && a.store in m.stores { StoreStepClean(m, a.store, a); }
  }

  lemma {:induction false} RunClean(m: Machine, actions: seq<Action>)
    requires Clean(m) && Lossless(actions)
    ensures Clean(Run(m, actions))
    decreases |actions|
  {
    if actions != [] {
      ApplyClean(m, actions[0]);
      RunClean(Apply(m, actions[0]), actions[1..]);
    }
  }

  /** Without such a dead letter, stamps tell the whole truth. */
  lemma LosslessRunsAreExact(m: Machine, actions: seq<Action>, r: nat)
    requires Initial(m) && Lossless(actions)
    requires r in Run(m, actions).stores && Run(m, actions).stores[r].snapshot.Some?
    ensures var snap, db := Run(m, actions).stores[r].snapshot.value, Run(m, actions).db;
            && snap.scan.profile in db.tables
            && (snap.origin == Reconciled ==>
                  && 0 <= snap.scan.generation < |db.tables[snap.scan.profile].log|
                  && snap.scan.rows == db.tables[snap.scan.profile].log[snap.scan.generation])
            && (snap.scan.generation == db.tables[snap.scan.profile].ann.durable ==>
                  snap.scan.rows == db.tables[snap.scan.profile].rows)
  {
    RunInv(m, actions);
    RunClean(m, actions);
  }

  ghost predicate ActivatedAt(m: Machine, actions: seq<Action>, k: nat, p: Profile)
    requires k < |actions|
  {
    var before := Run(m, actions[..k]);
    && actions[k].Activate? && actions[k].vectorsCurrent
    && Activates(before, actions[k].store)
    && before.stores[actions[k].store].pc.scan.profile == p
  }

  lemma {:induction false} ActivationHasACause(m: Machine, actions: seq<Action>, p: Profile)
    requires p !in m.db.activated && p in Run(m, actions).db.activated
    ensures exists k: nat :: k < |actions| && ActivatedAt(m, actions, k, p)
    decreases |actions|
  {
    if actions != [] {
      var n := |actions| - 1;
      RunLast(m, actions);
      if p in Run(m, actions[..n]).db.activated {
        ActivationHasACause(m, actions[..n], p);
        var k: nat :| k < n && ActivatedAt(m, actions[..n], k, p);
        assert actions[..n][..k] == actions[..k];
        assert ActivatedAt(m, actions, k, p);
      } else {
        assert ActivatedAt(m, actions, n, p);
      }
    }
  }

  /** A candidate is never visible: behind every installed snapshot lies an
    * activation, at a moment when one generation of its profile was at once the
    * durable, the published and the fully scanned one. */
  lemma OnlyActivatedProfilesAreServed(m: Machine, actions: seq<Action>, r: nat)
    requires Initial(m)
    requires r in Run(m, actions).stores && Run(m, actions).stores[r].snapshot.Some?
    ensures var p := Run(m, actions).stores[r].snapshot.value.scan.profile;
            exists k: nat :: k < |actions| && ActivatedAt(m, actions, k, p)
                             && MayActivate(Run(m, actions[..k]).db, p)
  {
    RunInv(m, actions);
    var p := Run(m, actions).stores[r].snapshot.value.scan.profile;
    ActivationHasACause(m, actions, p);
    var k: nat :| k < |actions| && ActivatedAt(m, actions, k, p);
    assert MayActivate(Run(m, actions[..k]).db, p);
  }

  // ---------------------------------------------------------------- where stamps mislead

  const OWNER := Owner(Entity, 7)
  const FIRST: Rows := map[OWNER := [[1.0]]]

  /** Adopt a profile, commit its rows and serve them from store 0. */
  const FILL := [Adopt(1, "f"), Commit(1, FIRST), ReadState(0)]
  const SCAN := [ReadGeneration(0), ReadRows(0), MarkPublished(0)]
  const SERVE := [VerifyFullScan(0, true), Activate(0, true), Install(0)]

  const START := Machine(Ledger(LegacyCompat, map[], {}), map[0 := Store(Idle, None), 1 := Store(Idle, None)])

  const FILLED :=
    Machine(Ledger(Rebuilding(None, 1), map[1 := Table("f", Ann(1, -1, None), FIRST, [map[], FIRST], 0)], {}),
            map[0 := Store(SawState(Rebuilding(None, 1)), None), 1 := Store(Idle, None)])

  const MARKED :=
    Machine(Ledger(Rebuilding(None, 1), map[1 := Table("f", Ann(1, 1, None), FIRST, [map[], FIRST], 0)], {}),
            map[0 := Store(Published(Scan(1, 1, FIRST, 1, 0)), None), 1 := Store(Idle, None)])

  const SERVING :=
    Machine(Ledger(Active(1), map[1 := Table("f", Ann(1, 1, Some(1)), FIRST, [map[], FIRST], 0)], {1}),
            map[0 := Store(Idle, Some(Snapshot(Scan(1, 1, FIRST, 1, 0), Reconciled))), 1 := Store(Idle, None)])

  lemma Three(m: Machine, a: Action, b: Action, c: Action)
    ensures Run(m, [a, b, c]) == Apply(Apply(Apply(m, a), b), c)
  {
    assert [a, b, c][1..] == [b, c] && [b, c][1..] == [c] && [c][1..] == [];
    var m2 := Apply(Apply(m, a), b);
    assert Run(m2, [c]) == Run(Apply(m2, c), []);
    assert Run(Apply(m, a), [b, c]) == Run(m2, [c]);
  }

  lemma FillRuns()
    ensures Run(START, FILL) == FILLED
  {
    Three(START, FILL[0], FILL[1], FILL[2]);
    assert [map[]] + [FIRST] == [map[], FIRST];
    assert Apply(START, FILL[0]).db.tables == map[1 := Table("f", Ann(0, -1, None), map[], [map[]], 0)];
  }

  lemma ScanRuns()
    ensures Run(FILLED, SCAN) == MARKED
  {
    Three(FILLED, SCAN[0], SCAN[1], SCAN[2]);
  }

  const VERIFIED :=
    Machine(Ledger(Rebuilding(None, 1), map[1 := Table("f", Ann(1, 1, Some(1)), FIRST, [map[], FIRST], 0)], {}),
            map[0 := Store(Scanned(Scan(1, 1, FIRST, 1, 0)), None), 1 := Store(Idle, None)])

  lemma FullScanVerifies()
    ensures Apply(MARKED, SERVE[0]) == VERIFIED
  {
  }

  lemma ActivationServes()
    ensures Apply(Apply(VERIFIED, SERVE[1]), SERVE[2]) == SERVING
  {
  }

  lemma ServingIsReachable()
    ensures Initial(START) && Run(START, FILL + SCAN + SERVE) == SERVING
  {
    FillRuns();
    ScanRuns();
    Three(MARKED, SERVE[0], SERVE[1], SERVE[2]);
    FullScanVerifies();
    ActivationServes();
    RunSplit(START, FILL, SCAN);
    RunSplit(START, FILL + SCAN, SERVE);
  }

  /** Dead-lettering the entity empties its table without a new generation: the
    * next reconcile finds its stamp current and keeps serving the removed rows. */
  lemma DeadLetterGoesUnnoticed()
    ensures Run(SERVING, [DeadLetter(1, OWNER), ReadState(0), ReadGeneration(0)])
         == Machine(Ledger(Active(1), map[1 := Table("f", Ann(1, 1, Some(1)), map[], [map[], FIRST], 1)], {1}),
                    map[0 := Store(Idle, Some(Snapshot(Scan(1, 1, FIRST, 1, 0), Reconciled))), 1 := Store(Idle, None)])
  {
    Three(SERVING, DeadLetter(1, OWNER), ReadState(0), ReadGeneration(0));
    assert FIRST - {OWNER} == map[];
  }

  /** Store 1 may stand between its two reads while store 0 serves. */
  lemma LoadingIsReachable()
    ensures Run(SERVING, [LoadState(1), ReadGeneration(1)]).stores[1].pc == LoadSawGeneration(1, 1)
  {
    var m := Apply(SERVING, LoadState(1));
    assert [LoadState(1), ReadGeneration(1)][1..] == [ReadGeneration(1)];
    assert Run(m, [ReadGeneration(1)]) == Run(Apply(m, ReadGeneration(1)), []);
  }

  /** What store `r` has after reading the rows and installing them. */
  function Loads(m: Machine, r: nat): Machine { Apply(Apply(m, ReadRows(r)), Install(r)) }

  /** Loading does not check its generation again: a commit of other rows between its two
    * reads is installed under the stamp that was read before. */
  lemma LoadMayTear(m: Machine, r: nat, rows: Rows)
    requires Inv(m) && r in m.stores && m.stores[r].pc.LoadSawGeneration?
    requires rows != m.db.tables[m.stores[r].pc.profile].log[m.stores[r].pc.generation]
    ensures var p, g := m.stores[r].pc.profile, m.stores[r].pc.generation;
            var m' := Loads(Apply(m, Commit(p, rows)), r);
            && m'.stores[r].snapshot == Some(Snapshot(Scan(p, g, rows, m'.db.tables[p].ann.durable, 0), Loaded))
            && rows != m'.db.tables[p].log[g]
  {
    var p := m.stores[r].pc.profile;
    var m1 := Apply(m, Commit(p, rows));
    assert m1.db.tables[p] == Committed(m.db.tables[p], rows) && m1.stores == m.stores;
    LoadInstalls(m1, r);
  }

  lemma LoadInstalls(m: Machine, r: nat)
    requires r in m.stores && m.stores[r].pc.LoadSawGeneration? && m.stores[r].pc.profile in m.db.tables
    ensures var p, g := m.stores[r].pc.profile, m.stores[r].pc.generation;
            Loads(m, r).stores[r].snapshot == Some(Snapshot(ScanOf(p, g, m.db.tables[p]), Loaded))
            && Loads(m, r).db == m.db
  {
    var m1 := Apply(m, ReadRows(r));
    assert m1.stores[r].pc.LoadHolding? && m1.db == m.db;
  }

  /** No action of store `r`. */
  ghost predicate Others(actions: seq<Action>, r: nat) {
    forall a :: a in actions && ByStore(a) ==> a.store != r
  }

  lemma {:induction false} OthersLeave(m: Machine, actions: seq<Action>, r: nat)
    requires Inv(m) && Others(actions, r) && r in m.stores
    ensures Inv(Run(m, actions))
    ensures r in Run(m, actions).stores && Run(m, actions).stores[r] == m.stores[r]
    decreases |actions|
  {
    if actions != [] {
      ApplyInv(m, actions[0]);
      OthersLeave(Apply(m, actions[0]), actions[1..], r);
    }
  }

  /** Whatever happens between the two reads: what loading installs is the generation on
    * its stamp, up to losses, if that one is still durable when the rows are read; and
    * without losses exactly if the generation then durable opened with the same rows. */
  lemma LoadIsExactIff(m: Machine, between: seq<Action>, r: nat)
    requires Inv(m) && r in m.stores && m.stores[r].pc.LoadSawGeneration? && Others(between, r)
    ensures var p, g := m.stores[r].pc.profile, m.stores[r].pc.generation;
            var m' := Loads(Run(m, between), r);
            && r in m'.stores && m'.stores[r].snapshot.Some? && p in m'.db.tables
            && 0 <= g <= m'.db.tables[p].ann.durable < |m'.db.tables[p].log|
            && var t, s := m'.db.tables[p], m'.stores[r].snapshot.value.scan;
            && s.generation == g && s.losses == t.losses
            && (t.ann.durable == g ==> (s.rows == t.log[g] <==> t.losses == 0))
            && (t.losses == 0 ==> (s.rows == t.log[g] <==> t.log[t.ann.durable] == t.log[g]))
  {
    OthersLeave(m, between, r);
    LoadInstalls(Run(m, between), r);
  }

  // ---------------------------------------------------------------- adopting a profile

  ghost predicate StartsRebuild(m: Machine, actions: seq<Action>, k: nat)
    requires k < |actions|
  {
    actions[k].Adopt? && Outcome(Run(m, actions[..k]).db, actions[k].id, actions[k].fp) == RebuildStarted
  }

  lemma {:induction false} UsedForEver(m: Machine, actions: seq<Action>, fp: Fingerprint)
    requires FingerprintUsed(m.db, fp)
    ensures FingerprintUsed(Run(m, actions).db, fp)
    decreases |actions|
  {
    if actions != [] {
      StepMovesRegistry(m, actions[0]);
      var id :| id in m.db.tables && m.db.tables[id].fp == fp;
      assert DbStep(m, actions[0]).tables[id].fp == fp;
      UsedForEver(Apply(m, actions[0]), actions[1..], fp);
    }
  }

  /** Over every run, no two calls start a rebuild into one fingerprint. */
  lemma OneRebuildPerFingerprint(m: Machine, actions: seq<Action>, i: nat, j: nat)
    requires i < j < |actions|
    requires StartsRebuild(m, actions, i) && StartsRebuild(m, actions, j)
    ensures actions[i].fp != actions[j].fp
  {
    var upTo, rest := actions[..i + 1], actions[i + 1..j];
    RunLast(m, upTo);
    assert upTo[..i] == actions[..i];
    var started := Run(m, upTo);
    assert started.db.tables[actions[i].id].fp == actions[i].fp;
    UsedForEver(started, rest, actions[i].fp);
    RunSplit(m, upTo, rest);
    assert upTo + rest == actions[..j];
  }

  /** The profile the registry serves, rebuilds into or failed on has this fingerprint. */
  predicate SettledOn(db: Ledger, fp: Fingerprint) {
    match db.state
    case LegacyCompat => false
    case Active(p) => Same(db, p, fp)
    case Rebuilding(_, c) => Same(db, c, fp)
    case Failed(_, c, _) => Same(db, c, fp)
  }

  ghost predicate FingerprintsKept(db: Ledger, db': Ledger) {
    forall p :: p in db.tables ==> p in db'.tables && db'.tables[p].fp == db.tables[p].fp
  }

  /** The registry moves only along a rebuild, or to a fingerprint never used. */
  ghost predicate RegistryMoves(db: Ledger, db': Ledger, a: Action) {
    || db'.state == db.state
    || (a.Adopt? && Outcome(db, a.id, a.fp) == RebuildStarted && db'.state.Rebuilding?
        && db'.state.candidate == a.id && Same(db', a.id, a.fp))
    || (db.state.Rebuilding? && db'.state == Active(db.state.candidate))
    || (db.state.Rebuilding? && db'.state.Failed? && db'.state.candidate == db.state.candidate)
  }

  lemma StepMovesRegistry(m: Machine, a: Action)
    ensures RegistryMoves(m.db, DbStep(m, a), a)
    ensures FingerprintsKept(m.db, DbStep(m, a))
  {
  }

  lemma SettledKept(db: Ledger, db': Ledger, a: Action, fp: Fingerprint)
    requires StateOk(db, db.state)
    requires FingerprintsKept(db, db') && RegistryMoves(db, db', a) && FingerprintUsed(db, fp)
    requires SettledOn(db, fp) ==> (a.Adopt? ==> a.fp == fp)
    ensures SettledOn(db', fp) == SettledOn(db, fp) && FingerprintUsed(db', fp)
  {
    var id :| id in db.tables && db.tables[id].fp == fp;
    assert db'.tables[id].fp == fp;
  }

  lemma SettledStep(m: Machine, a: Action, fp: Fingerprint)
    requires Inv(m) && FingerprintUsed(m.db, fp)
    requires SettledOn(m.db, fp) ==> (a.Adopt? ==> a.fp == fp)
    ensures SettledOn(Apply(m, a).db, fp) == SettledOn(m.db, fp)
    ensures FingerprintUsed(Apply(m, a).db, fp)
  {
    StepMovesRegistry(m, a);
    SettledKept(m.db, DbStep(m, a), a, fp);
  }

  /** While every call asks for one fingerprint and a rebuild into it has begun,
    * no call starts another and none is refused, whatever is activated or fails. */
  lemma {:induction false} RepeatedAdoptionIsIdle(m: Machine, actions: seq<Action>, id: Profile, fp: Fingerprint)
    requires Inv(m) && SettledOn(m.db, fp) && FingerprintUsed(m.db, fp)
    requires forall a :: a in actions && a.Adopt? ==> a.fp == fp
    ensures Outcome(Run(m, actions).db, id, fp) !in {RebuildStarted, Refused}
    ensures AdoptProfile(Run(m, actions).db, id, fp) == Run(m, actions).db
    decreases |actions|
  {
    if actions != [] {
      ApplyInv(m, actions[0]);
      SettledStep(m, actions[0], fp);
      RepeatedAdoptionIsIdle(Apply(m, actions[0]), actions[1..], id, fp);
    }
  }

  /** Fingerprints are unique for ever, so a store that moved on to another profile
    * refuses the earlier one in every later state, even after the move failed. */
  lemma {:induction false} AbandonedProfileNeverReturns(m: Machine, actions: seq<Action>, id: Profile, fp: Fingerprint)
    requires Inv(m) && FingerprintUsed(m.db, fp) && !SettledOn(m.db, fp)
    ensures Outcome(Run(m, actions).db, id, fp) == Refused
    ensures !SettledOn(Run(m, actions).db, fp)
    decreases |actions|
  {
    if actions != [] {
      ApplyInv(m, actions[0]);
      SettledStep(m, actions[0], fp);
      AbandonedProfileNeverReturns(Apply(m, actions[0]), actions[1..], id, fp);
    }
  }
}
