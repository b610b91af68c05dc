/** The attachment incarnation fence. An attachment id can be used again after a delete,
  * so a snapshot records the creation time of every file it holds vectors of, and a hit
  * resolves only to a live file with that creation time. */
module AttachmentFence {

  import opened Wrappers

  type Id = int
  type EntityId = int

  datatype Status = Uploaded | Extracting | Ready | Failed

  datatype Segment = Segment(page: int, text: string)

  /** What an upload fixes for good. Incarnations are numbered in order of upload. */
  datatype Birth = Birth(id: Id, created: int, filename: string, entity: EntityId)

  datatype File = File(incarnation: nat, birth: Birth, status: Status, segments: map<int, Segment>)

  datatype Parent = Parent(name: string, typeName: string, flags: int)

  /** A chunk vector, with the incarnation whose text it embeds. */
  datatype Row = Row(id: Id, chunk: int, incarnation: nat)

  /** An installed snapshot: its rows and, by attachment id, the creation times. For the
    * record, `seen` is the incarnation of every file at the moment these were read, and
    * `bornBy` the number of uploads until then. */
  datatype Snapshot = Snapshot(rows: set<Row>, stamps: map<Id, int>, seen: map<Id, nat>, bornBy: nat)

  /** Rows that were loaded at a generation, on their way to a snapshot. */
  datatype Build = Build(rows: set<Row>, generation: nat, marked: bool)

  datatype World = World(
    files: map<Id, File>, parents: map<EntityId, Parent>, vectors: set<Row>, generation: nat,
    births: seq<Birth>, build: Option<Build>, snapshot: Option<Snapshot>)

  const START := World(map[], map[], {}, 0, [], None, None)

  // ---------------------------------------------------------------- the three resolve paths

  function Stamps(files: map<Id, File>, vectors: set<Row>): map<Id, int> {
    map id | id in (set r | r in vectors :: r.id) && id in files :: files[id].birth.created
  }

  function Incarnation(w: World, id: Id): Option<int> {
    if w.snapshot.Some? && id in w.snapshot.value.stamps then Some(w.snapshot.value.stamps[id]) else None
  }

  /** The row all three queries select: ready, of the recorded creation time, with its
    * parent in the table and not flagged. */
  function FencedFile(w: World, id: Id): Option<File> {
    match Incarnation(w, id)
    case None => None
    case Some(fence) =>
      if id in w.files && w.files[id].status.Ready? && w.files[id].birth.created == fence
         && w.files[id].birth.entity in w.parents && w.parents[w.files[id].birth.entity].flags == 0
      then Some(w.files[id]) else None
  }

  datatype Resolved = Resolved(name: string, entityType: string)

  function ParentOf(w: World, f: File): Parent {
    if f.birth.entity in w.parents then w.parents[f.birth.entity] else Parent("", "", 0)
  }

  function ResolveOwner(w: World, id: Id): Option<Resolved> {
    match FencedFile(w, id)
    case None => None
    case Some(f) => Some(Resolved(f.birth.filename, ParentOf(w, f).typeName))
  }

  datatype OwnerRow = OwnerRow(id: Id, filename: string, parentName: string, parentType: string)

  function AttachmentOwner(w: World, hit: Row): Option<OwnerRow> {
    match FencedFile(w, hit.id)
    case None => None
    case Some(f) => Some(OwnerRow(hit.id, f.birth.filename, ParentOf(w, f).name, ParentOf(w, f).typeName))
  }

  function AttachmentSegment(w: World, hit: Row): Option<Segment> {
    match FencedFile(w, hit.id)
    case None => None
    case Some(f) => if hit.chunk in f.segments then Some(f.segments[hit.chunk]) else None
  }

  // ---------------------------------------------------------------- runs

  datatype Action =
    | Upload(birth: Birth)
    | Extract(id: Id, status: Status, segments: map<int, Segment>)
    | Index(id: Id)
    | DeadLetter(id: Id)
    | Delete(id: Id)
    | SetParent(entity: EntityId, parent: Option<Parent>)
    | LoadRows
    | Mark
    | ReadStamps
    | Clear

  function VectorsOf(vectors: set<Row>, id: Id): set<Row> { set r | r in vectors && r.id == id }

  /** The chunks a commit must bring: one for each stored segment that is not empty. */
  function Chunks(f: File): set<Row> {
    set c | c in f.segments && f.segments[c].text != "" :: Row(f.birth.id, c, f.incarnation)
  }

  /** Removing a file's vectors opens a generation if there are any. */
  function Unindexed(w: World, id: Id): World {
    if VectorsOf(w.vectors, id) == {} then w
    else w.(vectors := w.vectors - VectorsOf(w.vectors, id), generation := w.generation + 1)
  }

  function Incarnations(files: map<Id, File>): map<Id, nat> { map id | id in files :: files[id].incarnation }

  /** Every action is one transaction or one statement. Deleting a file takes its vectors
    * along, indexing replaces a file's vectors by those of its present text. A build loads
    * its rows, marks them published unless a generation has opened since (the load path
    * does without), and only then reads the creation times and installs. */
  function Apply(w: World, a: Action): World {
    match a
    case Upload(b) =>
      if b.id in w.files then w else
      w.(files := w.files[b.id := File(|w.births|, b, Uploaded, map[])], births := w.births + [b])
    case Extract(id, status, segments) =>
      if id !in w.files then w else w.(files := w.files[id := w.files[id].(status := status, segments := segments)])
    case Index(id) =>
      if id !in w.files then w else
      w.(vectors := w.vectors - VectorsOf(w.vectors, id) + Chunks(w.files[id]), generation := w.generation + 1)
    case DeadLetter(id) => Unindexed(w, id)
    case Delete(id) => Unindexed(w, id).(files := w.files - {id})
    case SetParent(e, p) => w.(parents := if p.Some? then w.parents[e := p.value] else w.parents - {e})
    case LoadRows => w.(build := Some(Build(w.vectors, w.generation, false)))
    case Mark =>
      if w.build.None? then w
      else if w.build.value.generation == w.generation then w.(build := Some(w.build.value.(marked := true)))
      else w.(build := None)
    case ReadStamps =>
      if w.build.None? then w
      else w.(build := None,
              snapshot := Some(Snapshot(w.build.value.rows, Stamps(w.files, w.vectors), Incarnations(w.files), |w.births|)))
    case Clear => w.(snapshot := None)
  }

  function Run(w: World, actions: seq<Action>): World
    decreases |actions|
  {
    if actions == [] then w else Run(Apply(w, actions[0]), actions[1..])
  }

  // ---------------------------------------------------------------- the invariant

  ghost predicate FilesAreBorn(files: map<Id, File>, births: seq<Birth>) {
    forall id :: id in files ==>
      files[id].incarnation < |births| && births[files[id].incarnation] == files[id].birth && files[id].birth.id == id
  }

  predicate Lives(files: map<Id, File>, id: Id, incarnation: nat) {
    id in files && files[id].incarnation == incarnation
  }

  ghost predicate VectorsAreLive(vectors: set<Row>, files: map<Id, File>) {
    forall r :: r in vectors ==> Lives(files, r.id, r.incarnation)
  }

  ghost predicate RowsAreBorn(rows: set<Row>, births: seq<Birth>) {
    forall r :: r in rows ==> r.incarnation < |births| && births[r.incarnation].id == r.id
  }

  /** While no generation has opened, the loaded rows are the table's. */
  ghost predicate BuildOk(w: World, b: Build) {
    && RowsAreBorn(b.rows, w.births) && b.generation <= w.generation
    && (b.generation == w.generation ==> b.rows == w.vectors)
  }

  /** Each stamp is the creation time of the incarnation seen with it. */
  ghost predicate StampsAreTrue(s: Snapshot, births: seq<Birth>) {
    forall id :: id in s.stamps ==>
      && id in s.seen && s.seen[id] < |births|
      && births[s.seen[id]].id == id && births[s.seen[id]].created == s.stamps[id]
  }

  /** An incarnation that was gone when the stamps were read stays gone. */
  ghost predicate GoneIsGone(s: Snapshot, files: map<Id, File>) {
    forall id :: id in files && files[id].incarnation < s.bornBy ==> id in s.seen && s.seen[id] == files[id].incarnation
  }

  /** The row's own file was there when the stamps were read. */
  predicate SeenAs(s: Snapshot, r: Row) { r.id in s.seen && s.seen[r.id] == r.incarnation }

  ghost predicate SnapshotOk(w: World, s: Snapshot) {
    && RowsAreBorn(s.rows, w.births) && s.bornBy <= |w.births|
    && (forall r :: r in s.rows ==> r.incarnation < s.bornBy)
    && StampsAreTrue(s, w.births) && GoneIsGone(s, w.files)
  }

  ghost predicate Inv(w: World) {
    && FilesAreBorn(w.files, w.births)
    && VectorsAreLive(w.vectors, w.files)
    && (w.build.Some? ==> BuildOk(w, w.build.value))
    && (w.snapshot.Some? ==> SnapshotOk(w, w.snapshot.value))
  }

  lemma UploadInv(w: World, b: Birth)
    requires Inv(w)
    ensures Inv(Apply(w, Upload(b)))
  {
  }

  lemma VectorsInv(w: World, a: Action)
    requires Inv(w) && (a.Index? || a.DeadLetter? || a.Delete?)
    ensures Inv(Apply(w, a))
  {
    assert forall r :: r in w.vectors && r.id == a.id ==> r in VectorsOf(w.vectors, a.id);
  }

  lemma BuildInv(w: World, a: Action)
    requires Inv(w) && (a.LoadRows? || a.Mark? || a.ReadStamps?)
    ensures Inv(Apply(w, a))
  {
  }

  lemma ApplyInv(w: World, a: Action)
    requires Inv(w)
    ensures Inv(Apply(w, a))
  {
    match a
    case Upload(b) => UploadInv(w, b);
    case Index(_) => VectorsInv(w, a);
    case DeadLetter(_) => VectorsInv(w, a);
    case Delete(_) => VectorsInv(w, a);
    case LoadRows => BuildInv(w, a);
    case Mark => BuildInv(w, a);
    case ReadStamps => BuildInv(w, a);
    case Clear =>
    case Extract(_, _, _) =>
    case SetParent(_, _) =>
  }

  lemma {:induction false} RunInv(w: World, actions: seq<Action>)
    requires Inv(w)
    ensures Inv(Run(w, actions))
    decreases |actions|
  {
    if actions != [] {
      ApplyInv(w, actions[0]);
      RunInv(Apply(w, actions[0]), actions[1..]);
    }
  }

  // ---------------------------------------------------------------- what the fence promises

  /** No two incarnations of one attachment id share a creation time. */
  ghost predicate BirthsDiffer(births: seq<Birth>) {
    forall i, j :: 0 <= i < j < |births| && births[i].id == births[j].id ==> births[i].created != births[j].created
  }

  /** The file of `incarnation` is there to be shown. */
  ghost predicate Showable(w: World, id: Id, incarnation: nat) {
    && Lives(w.files, id, incarnation) && w.files[id].status.Ready?
    && w.files[id].birth.entity in w.parents && w.parents[w.files[id].birth.entity].flags == 0
  }

  /** The three paths show a file at once, the last if it has the segment, and what they
    * show is that file's. */
  lemma PathsAgree(w: World, hit: Row)
    ensures ResolveOwner(w, hit.id).Some? <==> FencedFile(w, hit.id).Some?
    ensures AttachmentOwner(w, hit).Some? <==> FencedFile(w, hit.id).Some?
    ensures FencedFile(w, hit.id).Some? ==>
              var f := FencedFile(w, hit.id).value;
              && hit.id in w.files && f == w.files[hit.id]
              && ResolveOwner(w, hit.id).value.name == f.birth.filename
              && AttachmentOwner(w, hit).value.filename == f.birth.filename
              && AttachmentOwner(w, hit).value.id == hit.id
              && AttachmentSegment(w, hit) == if hit.chunk in f.segments then Some(f.segments[hit.chunk]) else None
    ensures FencedFile(w, hit.id).None? ==> AttachmentSegment(w, hit).None?
  {
  }

  /** After every run, whatever the creation times and whatever happened within the build:
    * a hit of the installed snapshot shows a file exactly if its id was stamped and the
    * file there is showable and created at the stamped time. */
  lemma FenceIsExact(actions: seq<Action>, hit: Row)
    requires Run(START, actions).snapshot.Some?
    ensures var w := Run(START, actions);
            var s := w.snapshot.value;
            && Inv(w)
            && (FencedFile(w, hit.id).Some? <==>
                  && hit.id in s.stamps && hit.id in w.files
                  && Showable(w, hit.id, w.files[hit.id].incarnation)
                  && w.births[w.files[hit.id].incarnation].created == w.births[s.seen[hit.id]].created)
  {
    RunInv(START, actions);
  }

  lemma {:induction false} RunSplit(w: World, left: seq<Action>, right: seq<Action>)
    ensures Run(w, left + right) == Run(Run(w, left), right)
    decreases |left|
  {
    if left == [] {
      assert left + right == right;
    } else {
      assert (left + right)[1..] == left[1..] + right;
      RunSplit(Apply(w, left[0]), left[1..], right);
    }
  }

  /** A hit's incarnation was uploaded before the installed stamps were read. */
  ghost predicate Known(w: World, hit: Row) {
    && hit.incarnation < |w.births| && w.births[hit.incarnation].id == hit.id
    && (w.snapshot.Some? ==> hit.incarnation < w.snapshot.value.bornBy)
  }

  lemma KnownStep(w: World, a: Action, hit: Row)
    requires Known(w, hit)
    ensures Known(Apply(w, a), hit)
  {
  }

  lemma {:induction false} KnownStays(w: World, actions: seq<Action>, hit: Row)
    requires Known(w, hit)
    ensures Known(Run(w, actions), hit)
    decreases |actions|
  {
    if actions != [] {
      KnownStep(w, actions[0], hit);
      KnownStays(Apply(w, actions[0]), actions[1..], hit);
    }
  }

  /** A hit of the snapshot installed after `k` actions, resolved at the end of the run with
    * whatever snapshot is installed then, the same or a later one. If incarnations of one
    * id have different creation times, the three paths show exactly the file that was there
    * when the stamps now installed were read. So the hit
    *   resolves to its own file, exactly while that is showable, if the id was stamped
    *     while its own file was there;
    *   resolves to nothing if the id was not stamped;
    *   is fooled, exactly while the other file is showable, if the id was stamped while
    *     another file was there, and its own file is then gone for good. */
  lemma HitsResolveToTheirIncarnation(actions: seq<Action>, k: nat, hit: Row)
    requires k <= |actions|
    requires var found := Run(START, actions[..k]); found.snapshot.Some? && hit in found.snapshot.value.rows
    requires var w := Run(START, actions); BirthsDiffer(w.births) && w.snapshot.Some?
    ensures var w := Run(START, actions);
            var s, shown := w.snapshot.value, FencedFile(w, hit.id);
            && hit.incarnation < |w.births|
            && (ResolveOwner(w, hit.id).Some? <==> shown.Some?)
            && (AttachmentOwner(w, hit).Some? <==> shown.Some?)
            && (AttachmentSegment(w, hit).Some? <==> shown.Some? && hit.chunk in shown.value.segments)
            && (hit.id in s.stamps && SeenAs(s, hit) ==>
                  && (shown.Some? <==> Showable(w, hit.id, hit.incarnation))
                  && (shown.Some? ==> shown.value == w.files[hit.id]
                                      && shown.value.birth == w.births[hit.incarnation]))
            && (hit.id !in s.stamps ==> shown.None?)
            && (hit.id in s.stamps && !SeenAs(s, hit) ==>
                  && !Lives(w.files, hit.id, hit.incarnation)
                  && hit.id in s.seen && s.seen[hit.id] != hit.incarnation
                  && (shown.Some? <==> Showable(w, hit.id, s.seen[hit.id])))
  {
    var found, w := Run(START, actions[..k]), Run(START, actions);
    RunInv(START, actions[..k]);
    KnownStays(found, actions[k..], hit);
    RunInv(START, actions);
    RunSplit(START, actions[..k], actions[k..]);
    assert actions == actions[..k] + actions[k..];
    FenceIsExact(actions, hit);
    PathsAgree(w, hit);
    if hit.id in w.files && hit.id in w.snapshot.value.stamps {
      SameBirth(w.births, w.files[hit.id].incarnation, w.snapshot.value.seen[hit.id]);
    }
  }

  lemma SameBirth(births: seq<Birth>, i: nat, j: nat)
    requires BirthsDiffer(births) && i < |births| && j < |births| && births[i].id == births[j].id
    ensures births[i].created == births[j].created <==> i == j
  {
  }

  // ---------------------------------------------------------------- when a build is safe

  /** A mark succeeds only while every loaded row is still live. */
  lemma MarkedRowsAreLive(actions: seq<Action>)
    ensures var w := Run(START, actions);
            var w' := Apply(w, Mark);
            w'.build.Some? ==> w'.build.value.marked && VectorsAreLive(w'.build.value.rows, w'.files)
  {
    RunInv(START, actions);
  }

  lemma {:induction false} GoneStays(w: World, actions: seq<Action>, id: Id, incarnation: nat)
    requires !Lives(w.files, id, incarnation) && incarnation < |w.births|
    ensures !Lives(Run(w, actions).files, id, incarnation)
    decreases |actions|
  {
    if actions != [] {
      GoneStays(Apply(w, actions[0]), actions[1..], id, incarnation);
    }
  }

  /** A file stays the incarnation it is exactly until it is deleted. */
  lemma {:induction false} LivesUntilDeleted(w: World, actions: seq<Action>, id: Id, incarnation: nat)
    requires Lives(w.files, id, incarnation) && incarnation < |w.births|
    ensures Lives(Run(w, actions).files, id, incarnation) <==> Delete(id) !in actions
    decreases |actions|
  {
    if actions != [] {
      var next := Apply(w, actions[0]);
      if actions[0] == Delete(id) {
        GoneStays(next, actions[1..], id, incarnation);
      } else {
        LivesUntilDeleted(next, actions[1..], id, incarnation);
      }
    }
  }

  /** Whatever happens until stamps are read: a live file is seen as itself exactly if it
    * is not deleted first. So a build is safe for a row of its own that lives at the mark,
    * or the load, and for a hit of an earlier snapshot that lives at any time before, in
    * every later state and exactly under that condition. */
  lemma BuildIsSafeIff(w: World, between: seq<Action>, hit: Row)
    requires Inv(w) && Lives(w.files, hit.id, hit.incarnation) && Run(w, between).build.Some?
    ensures var w' := Apply(Run(w, between), ReadStamps);
            && w'.snapshot.Some? && w'.snapshot.value.rows == Run(w, between).build.value.rows
            && (SeenAs(w'.snapshot.value, hit) <==> Delete(hit.id) !in between)
  {
    LivesUntilDeleted(w, between, hit.id, hit.incarnation);
  }

  /** Two honest builds are not enough for a hit that is carried across: if its file is
    * deleted, its id used again and the new file indexed before the next build, the hit
    * resolves to the new file, however different the creation times are. */
  lemma CarriedHitIsFooled(w: World, hit: Row, reused: Birth, segments: map<int, Segment>)
    requires Inv(w) && w.snapshot.Some? && hit in w.snapshot.value.rows && Showable(w, hit.id, hit.incarnation)
    requires reused.id == hit.id && reused.entity == w.files[hit.id].birth.entity
    requires hit.chunk in segments && segments[hit.chunk].text != ""
    ensures var w' := Apply(Apply(Apply(Reused(w, reused, segments), LoadRows), Mark), ReadStamps);
            && w'.snapshot.Some? && hit !in w'.snapshot.value.rows
            && hit.id in w'.files && w'.files[hit.id].incarnation != hit.incarnation
            && ResolveOwner(w', hit.id).Some? && ResolveOwner(w', hit.id).value.name == reused.filename
            && AttachmentSegment(w', hit) == Some(segments[hit.chunk])
  {
    ReusedIsIndexed(w, hit, reused, segments);
    var later := Reused(w, reused, segments);
    var built := Apply(Apply(later, LoadRows), Mark);
    assert built == later.(build := Some(Build(later.vectors, later.generation, true)));
  }

  lemma ReusedIsIndexed(w: World, hit: Row, reused: Birth, segments: map<int, Segment>)
    requires Inv(w) && hit.incarnation < |w.births| && Lives(w.files, hit.id, hit.incarnation)
    requires reused.id == hit.id && hit.chunk in segments && segments[hit.chunk].text != ""
    ensures var later := Reused(w, reused, segments);
            && later.build == w.build && later.parents == w.parents && hit !in later.vectors
            && hit.id in later.files && later.files[hit.id] == File(|w.births|, reused, Ready, segments)
            && hit.id in Stamps(later.files, later.vectors)
            && Stamps(later.files, later.vectors)[hit.id] == reused.created
  {
    var file := File(|w.births|, reused, Ready, segments);
    var later := Reused(w, reused, segments);
    assert later.files[hit.id] == file;
    assert Row(hit.id, hit.chunk, |w.births|) in Chunks(file);
    assert hit.id in (set r | r in later.vectors :: r.id);
  }

  /** Different creation times are needed: if a showable hit's file is deleted and its id
    * used again with the same creation time, the hit resolves to the new file. */
  lemma SharedCreationTimeFools(w: World, hit: Row, reused: Birth, segments: map<int, Segment>)
    requires Inv(w) && w.snapshot.Some? && hit in w.snapshot.value.rows && Showable(w, hit.id, hit.incarnation)
    requires hit.id in w.snapshot.value.stamps && SeenAs(w.snapshot.value, hit)
    requires reused.id == hit.id && reused.created == w.files[hit.id].birth.created
    requires reused.entity == w.files[hit.id].birth.entity
    ensures var w' := Apply(Apply(Apply(w, Delete(hit.id)), Upload(reused)), Extract(hit.id, Ready, segments));
            && hit in w'.snapshot.value.rows && w'.files[hit.id].incarnation != hit.incarnation
            && ResolveOwner(w', hit.id).Some? && ResolveOwner(w', hit.id).value.name == reused.filename
  {
    var w' := Apply(Apply(Apply(w, Delete(hit.id)), Upload(reused)), Extract(hit.id, Ready, segments));
    assert w'.files[hit.id] == File(|w.births|, reused, Ready, segments);
  }

  /** An undisturbed build is needed, a mark does not make one: if after the mark a row's
    * file is deleted, its id used again and the new file indexed, then the hit resolves to
    * the new file, however different the creation times are. */
  lemma TornBuildFools(w: World, hit: Row, reused: Birth, segments: map<int, Segment>)
    requires Inv(w) && w.build.Some? && w.build.value.marked && hit in w.build.value.rows
    requires Showable(w, hit.id, hit.incarnation)
    requires reused.id == hit.id && reused.entity == w.files[hit.id].birth.entity
    requires hit.chunk in segments && segments[hit.chunk].text != ""
    ensures var torn := Apply(Reused(w, reused, segments), ReadStamps);
            && torn.snapshot.Some? && hit in torn.snapshot.value.rows
            && hit.id in torn.files && torn.files[hit.id].incarnation != hit.incarnation
            && ResolveOwner(torn, hit.id).Some? && ResolveOwner(torn, hit.id).value.name == reused.filename
            && AttachmentSegment(torn, hit) == Some(segments[hit.chunk])
  {
    ReusedIsIndexed(w, hit, reused, segments);
  }

  /** The id deleted, used again, extracted and indexed. */
  function Reused(w: World, b: Birth, segments: map<int, Segment>): World {
    Apply(Apply(Apply(Apply(w, Delete(b.id)), Upload(b)), Extract(b.id, Ready, segments)), Index(b.id))
  }
}
