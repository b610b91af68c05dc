/** The per-project handle registries: a weak map naming each project's canonical
  * handle and a bounded LRU of strong references. The code registry and the vector
  * registry are the same scheme with different bounds, the second standing on the first. */
module HandleRegistry {

  import opened Wrappers

  type Project = string

  /** A handle is known by its place in the order of successful opens. */
  type Handle = nat

  const MAX_PROJECT_LEN := 64
  const CODE_WARM_HANDLES := 16
  const VECTOR_WARM_HANDLES := 8

  datatype Error = InvalidProject | NotInitialized | OpenFailed

  predicate ProjectChar(c: char) {
    'a' <= c <= 'z' || 'A' <= c <= 'Z' || '0' <= c <= '9' || c == '_' || c == '-'
  }

  predicate ValidProject(p: Project) {
    0 < |p| <= MAX_PROJECT_LEN && forall i :: 0 <= i < |p| ==> ProjectChar(p[i])
  }

  // ---------------------------------------------------------------- the warm LRU

  /** A warm slot: a strong reference kept for a project. Slots run from the least to the
    * most recently used. */
  datatype Slot = Slot(project: Project, handle: Handle)

  function Pop(warm: seq<Slot>, p: Project): seq<Slot> {
    if warm == [] then []
    else if warm[0].project == p then Pop(warm[1..], p)
    else [warm[0]] + Pop(warm[1..], p)
  }

  predicate Warm(warm: seq<Slot>, p: Project) { exists i :: 0 <= i < |warm| && warm[i].project == p }

  function Put(warm: seq<Slot>, bound: nat, s: Slot): seq<Slot>
    requires bound > 0
  {
    if Warm(warm, s.project) then Pop(warm, s.project) + [s]
    else if |warm| >= bound then warm[1..] + [s]
    else warm + [s]
  }

  lemma {:induction false} PopMembers(warm: seq<Slot>, p: Project)
    ensures forall s :: s in Pop(warm, p) <==> s in warm && s.project != p
    ensures |Pop(warm, p)| <= |warm|
    ensures Warm(warm, p) ==> |Pop(warm, p)| < |warm|
  {
    if warm != [] {
      PopMembers(warm[1..], p);
      assert forall s :: s in warm <==> s == warm[0] || s in warm[1..];
      if i :| 0 <= i < |warm| && warm[i].project == p && i > 0 {
        assert warm[1..][i - 1].project == p;
      }
    }
  }

  lemma PutMembers(warm: seq<Slot>, bound: nat, s: Slot)
    requires bound > 0 && |warm| <= bound
    ensures s in Put(warm, bound, s) && |Put(warm, bound, s)| <= bound
    ensures forall t :: t in Put(warm, bound, s) ==> t == s || (t in warm && t.project != s.project)
  {
    PopMembers(warm, s.project);
    if !Warm(warm, s.project) {
      assert forall t :: t in warm ==> t.project != s.project;
    }
  }

  // ---------------------------------------------------------------- the world

  /** Where a handle came from: its project, and how many drops had happened before. */
  datatype Opening = Opening(project: Project, dropsBefore: nat)

  /** The registry, with what its weak references depend on: the references callers hold,
    * every open, and every drop. */
  datatype World = World(
    ready: bool,
    live: map<Project, Handle>,
    warm: seq<Slot>,
    held: multiset<Handle>,
    openings: seq<Opening>,
    drops: seq<Project>)

  const START := World(false, map[], [], multiset{}, [], [])

  predicate Kept(warm: seq<Slot>, h: Handle) { exists i :: 0 <= i < |warm| && warm[i].handle == h }

  /** A handle lives while a caller or a warm slot holds a strong reference to it. */
  predicate Alive(w: World, h: Handle) { h in w.held || Kept(w.warm, h) }

  /** The handle's project has not been dropped since the handle was opened. */
  predicate Current(w: World, h: Handle) {
    h < |w.openings| && w.openings[h].dropsBefore <= |w.drops|
    && w.openings[h].project !in w.drops[w.openings[h].dropsBefore..]
  }

  function Upgrade(w: World, p: Project): Option<Handle> {
    if p in w.live && Alive(w, w.live[p]) then Some(w.live[p]) else None
  }

  function Retained(w: World): map<Project, Handle> {
    map p | p in w.live && Alive(w, w.live[p]) :: w.live[p]
  }

  /** What resolving answers; `opens` says whether opening the file would succeed. */
  function Answer(w: World, p: Project, opens: bool): Result<Handle, Error> {
    if !ValidProject(p) then Err(InvalidProject)
    else if !w.ready then Err(NotInitialized)
    else match Upgrade(w, p)
      case Some(h) => Ok(h)
      case None => if opens then Ok(|w.openings|) else Err(OpenFailed)
  }

  /** A new handle becomes the project's canonical one. */
  function Opens(w: World, bound: nat, p: Project): World
    requires bound > 0
  {
    var h := |w.openings|;
    w.(live := w.live[p := h], warm := Put(w.warm, bound, Slot(p, h)),
       held := w.held + multiset{h}, openings := w.openings + [Opening(p, |w.drops|)])
  }

  function Resolved(w: World, bound: nat, p: Project, opens: bool): World
    requires bound > 0
  {
    if !ValidProject(p) || !w.ready then w
    else match Upgrade(w, p)
      case Some(h) => w.(warm := Put(w.warm, bound, Slot(p, h)), held := w.held + multiset{h})
      case None =>
        if !opens then w.(live := Retained(w)) else Opens(w.(live := Retained(w)), bound, p)
  }

  function Dropped(w: World, p: Project): World {
    if !ValidProject(p) || !w.ready then w
    else w.(live := w.live - {p}, warm := Pop(w.warm, p), drops := w.drops + [p])
  }

  class Registry {
    const bound: nat
    var ready: bool
    var live: map<Project, Handle>
    var warm: seq<Slot>
    var held: multiset<Handle>
    var openings: seq<Opening>
    var drops: seq<Project>

    function Now(): World reads this { World(ready, live, warm, held, openings, drops) }

    constructor (bound: nat)
      requires bound > 0
      ensures this.bound == bound && Now() == START
    {
      this.bound := bound;
      ready, live, warm := false, map[], [];
      held, openings, drops := multiset{}, [], [];
    }

    method Init()
      modifies this
      ensures Now() == old(Now()).(ready := true)
    {
      ready := true;
    }

    method Resolve(p: Project, opens: bool) returns (r: Result<Handle, Error>)
      requires bound > 0
      modifies this
      ensures r == Answer(old(Now()), p, opens)
      ensures Now() == Resolved(old(Now()), bound, p, opens)
    {
      if !ValidProject(p) { return Err(InvalidProject); }
      if !ready { return Err(NotInitialized); }
      if p in live && Alive(Now(), live[p]) {
        warm := Put(warm, bound, Slot(p, live[p]));
        held := held + multiset{live[p]};
        return Ok(live[p]);
      }
      live := Retained(Now());
      if !opens { return Err(OpenFailed); }
      var h: Handle := |openings|;
      openings := openings + [Opening(p, |drops|)];
      live := live[p := h];
      warm := Put(warm, bound, Slot(p, h));
      held := held + multiset{h};
      return Ok(h);
    }

    /** Dropping before initialisation panics in the source. */
    method DropProject(p: Project) returns (r: Result<(), Error>)
      requires ready || !ValidProject(p)
      modifies this
      ensures r == if ValidProject(p) then Ok(()) else Err(InvalidProject)
      ensures Now() == Dropped(old(Now()), p)
    {
      if !ValidProject(p) { return Err(InvalidProject); }
      live := live - {p};
      warm := Pop(warm, p);
      drops := drops + [p];
      return Ok(());
    }
  }

  // ---------------------------------------------------------------- runs

  datatype Action =
    | Init
    | Resolve(project: Project, opens: bool)
    | Share(handle: Handle)
    | Release(handle: Handle)
    | Drop(project: Project)

  /** Callers may copy a reference they hold and let one go. */
  function Apply(w: World, bound: nat, a: Action): World
    requires bound > 0
  {
    match a
    case Init => w.(ready := true)
    case Resolve(p, opens) => Resolved(w, bound, p, opens)
    case Share(h) => if h in w.held then w.(held := w.held + multiset{h}) else w
    case Release(h) => if h in w.held then w.(held := w.held - multiset{h}) else w
    case Drop(p) => Dropped(w, p)
  }

  function Run(w: World, bound: nat, actions: seq<Action>): World
    requires bound > 0
    decreases |actions|
  {
    if actions == [] then w else Run(Apply(w, bound, actions[0]), bound, actions[1..])
  }

  // ---------------------------------------------------------------- the invariant

  /** The weak map names, for each project, a handle of that project opened since its
    * last drop. */
  ghost predicate LiveIsCurrent(w: World) {
    forall p :: p in w.live ==> Current(w, w.live[p]) && w.openings[w.live[p]].project == p
  }

  /** Each warm slot holds the canonical handle of its project. */
  ghost predicate WarmIsCanonical(w: World) {
    forall s :: s in w.warm ==> s.project in w.live && w.live[s.project] == s.handle
  }

  /** Every living handle opened since its project's last drop is the canonical one. */
  ghost predicate AliveIsCanonical(w: World) {
    forall h: Handle :: Alive(w, h) && Current(w, h) ==>
      w.openings[h].project in w.live && w.live[w.openings[h].project] == h
  }

  ghost predicate Opened(w: World) { forall h :: h in w.held ==> h < |w.openings| }

  ghost predicate Inv(w: World, bound: nat) {
    && LiveIsCurrent(w) && WarmIsCanonical(w) && AliveIsCanonical(w) && Opened(w)
    && |w.warm| <= bound
    && forall h :: 0 <= h < |w.openings| ==> w.openings[h].dropsBefore <= |w.drops|
  }

  lemma KeptIsASlot(warm: seq<Slot>, h: Handle)
    ensures Kept(warm, h) <==> exists s :: s in warm && s.handle == h
  {
    if s :| s in warm && s.handle == h {
      var i :| 0 <= i < |warm| && warm[i] == s;
      assert warm[i].handle == h;
    }
  }

  /** A put of the canonical handle keeps alive only handles that lived before, and itself. */
  lemma PutAlive(warm: seq<Slot>, bound: nat, s: Slot, h: Handle)
    requires bound > 0 && |warm| <= bound
    ensures Kept(Put(warm, bound, s), h) ==> h == s.handle || Kept(warm, h)
  {
    PutMembers(warm, bound, s);
    KeptIsASlot(warm, h);
    KeptIsASlot(Put(warm, bound, s), h);
  }

  lemma UpgradeInv(w: World, bound: nat, p: Project)
    requires bound > 0 && Inv(w, bound) && Upgrade(w, p).Some?
    ensures Inv(w.(warm := Put(w.warm, bound, Slot(p, w.live[p])), held := w.held + multiset{w.live[p]}), bound)
  {
    var s := Slot(p, w.live[p]);
    var w' := w.(warm := Put(w.warm, bound, s), held := w.held + multiset{s.handle});
    PutMembers(w.warm, bound, s);
    forall h: Handle | Alive(w', h) && Current(w', h)
      ensures w'.openings[h].project in w'.live && w'.live[w'.openings[h].project] == h
    {
      PutAlive(w.warm, bound, s, h);
      assert Alive(w, h) && Current(w, h);
    }
    forall h: Handle ensures Current(w', h) <==> Current(w, h) {}
  }

  lemma RetainInv(w: World, bound: nat)
    requires Inv(w, bound)
    ensures Inv(w.(live := Retained(w)), bound)
  {
    var w' := w.(live := Retained(w));
    forall s | s in w.warm ensures s.project in w'.live && w'.live[s.project] == s.handle {
      KeptIsASlot(w.warm, s.handle);
    }
    forall h: Handle | Alive(w', h) && Current(w', h)
      ensures w'.openings[h].project in w'.live && w'.live[w'.openings[h].project] == h
    {
      assert Alive(w, h) && Current(w, h);
    }
    assert forall p :: p in w'.live ==> Current(w, w.live[p]) ==> Current(w', w'.live[p]);
  }

  lemma OpenCurrent(w: World, bound: nat, p: Project)
    requires bound > 0
    ensures var w' := Opens(w, bound, p);
            && Current(w', |w.openings|)
            && forall h: Handle :: h < |w.openings| ==> (Current(w', h) <==> Current(w, h)) && w'.openings[h] == w.openings[h]
  {
  }

  lemma OpenAlive(w: World, bound: nat, p: Project, h: Handle)
    requires bound > 0 && |w.warm| <= bound
    ensures Alive(Opens(w, bound, p), h) ==> h == |w.openings| || Alive(w, h)
  {
    PutAlive(w.warm, bound, Slot(p, |w.openings|), h);
  }

  lemma OpenInv(w: World, bound: nat, p: Project)
    requires bound > 0 && Inv(w, bound) && p !in w.live
    ensures Inv(Opens(w, bound, p), bound)
  {
    var w' := Opens(w, bound, p);
    OpenCurrent(w, bound, p);
    PutMembers(w.warm, bound, Slot(p, |w.openings|));
    forall h: Handle | Alive(w', h) && Current(w', h)
      ensures w'.openings[h].project in w'.live && w'.live[w'.openings[h].project] == h
    {
      OpenAlive(w, bound, p, h);
      if h != |w.openings| { assert Alive(w, h) && Current(w, h); }
    }
  }

  lemma DropInv(w: World, bound: nat, p: Project)
    requires Inv(w, bound) && ValidProject(p) && w.ready
    ensures Inv(Dropped(w, p), bound)
  {
    var w' := Dropped(w, p);
    PopMembers(w.warm, p);
    forall h: Handle ensures Current(w', h) <==> Current(w, h) && w.openings[h].project != p {
      if h < |w.openings| {
        var since := w.openings[h].dropsBefore;
        assert w'.drops[since..] == w.drops[since..] + [p];
      }
    }
    forall h: Handle | Alive(w', h) && Current(w', h)
      ensures w'.openings[h].project in w'.live && w'.live[w'.openings[h].project] == h
    {
      KeptIsASlot(w.warm, h);
      KeptIsASlot(w'.warm, h);
      assert Alive(w, h) && Current(w, h);
    }
  }

  lemma HeldInv(w: World, bound: nat, held: multiset<Handle>)
    requires Inv(w, bound) && forall h :: h in held ==> h in w.held
    ensures Inv(w.(held := held), bound)
  {
    var w' := w.(held := held);
    forall h: Handle ensures Current(w', h) <==> Current(w, h) {}
    forall h: Handle | Alive(w', h) ensures Alive(w, h) {}
  }

  lemma ApplyInv(w: World, bound: nat, a: Action)
    requires bound > 0 && Inv(w, bound)
    ensures Inv(Apply(w, bound, a), bound)
  {
    match a
    case Init =>
      var w' := Apply(w, bound, a);
      forall h: Handle ensures (Current(w', h) <==> Current(w, h)) && (Alive(w', h) <==> Alive(w, h)) {}
    case Resolve(p, opens) =>
      if ValidProject(p) && w.ready {
        match Upgrade(w, p)
        case Some(h) => UpgradeInv(w, bound, p);
        case None =>
          RetainInv(w, bound);
          if opens { OpenInv(w.(live := Retained(w)), bound, p); }
      }
    case Share(h) => if h in w.held { HeldInv(w, bound, w.held + multiset{h}); }
    case Release(h) => if h in w.held { HeldInv(w, bound, w.held - multiset{h}); }
    case Drop(p) => if ValidProject(p) && w.ready { DropInv(w, bound, p); }
  }

  lemma {:induction false} RunInv(w: World, bound: nat, actions: seq<Action>)
    requires bound > 0 && Inv(w, bound)
    ensures Inv(Run(w, bound, actions), bound)
    decreases |actions|
  {
    if actions != [] {
      ApplyInv(w, bound, actions[0]);
      RunInv(Apply(w, bound, actions[0]), bound, actions[1..]);
    }
  }

  // ---------------------------------------------------------------- what every run promises

  /** In every run of resolves, copies, releases, evictions and drops: two living handles
    * of one project, both opened since its last drop, are the same handle; every warm
    * handle lives, belongs to its slot's project and is the canonical one; and the warm
    * set stays within its bound. */
  lemma OneLiveHandlePerProject(bound: nat, actions: seq<Action>, a: Handle, b: Handle)
    requires bound > 0
    ensures var w := Run(START, bound, actions);
            && |w.warm| <= bound
            && (forall s :: s in w.warm ==>
                  && s.project in w.live && w.live[s.project] == s.handle
                  && Alive(w, s.handle) && Current(w, s.handle)
                  && w.openings[s.handle].project == s.project)
            && ((&& Alive(w, a) && Current(w, a) && Alive(w, b) && Current(w, b)
                 && w.openings[a].project == w.openings[b].project) ==> a == b)
  {
    var w := Run(START, bound, actions);
    RunInv(START, bound, actions);
    forall s | s in w.warm ensures Alive(w, s.handle) {
      KeptIsASlot(w.warm, s.handle);
    }
  }

  /** Resolving hands back the living handle if there is one, and opens only when none
    * lives, in every state a run reaches. */
  lemma ResolveIsCanonical(bound: nat, actions: seq<Action>, p: Project, opens: bool)
    requires bound > 0 && ValidProject(p)
    ensures var w := Run(START, bound, actions);
            && (forall h: Handle :: w.ready && Alive(w, h) && Current(w, h) && w.openings[h].project == p
                  ==> Answer(w, p, opens) == Ok(h) && Resolved(w, bound, p, opens).openings == w.openings)
            && (Answer(w, p, opens).Ok? ==>
                  var w' := Resolved(w, bound, p, opens);
                  var h := Answer(w, p, opens).value;
                  Alive(w', h) && Current(w', h) && w'.openings[h].project == p)
  {
    var w := Run(START, bound, actions);
    RunInv(START, bound, actions);
    ApplyInv(w, bound, Resolve(p, opens));
  }

  /** A handle somebody keeps hold of is the answer to every later resolve of its project
    * until the project is dropped, however many other projects pass through the LRU. */
  lemma {:induction false} PinnedHandleIsReturned(w: World, bound: nat, actions: seq<Action>, h: Handle, opens: bool)
    requires bound > 0 && Inv(w, bound) && w.ready
    requires h in w.held && Current(w, h) && ValidProject(w.openings[h].project)
    requires forall i :: 0 <= i < |actions| ==>
               actions[i] != Release(h) && actions[i] != Drop(w.openings[h].project)
    ensures var w' := Run(w, bound, actions);
            Answer(w', w.openings[h].project, opens) == Ok(h) && Current(w', h)
    decreases |actions|
  {
    if actions != [] {
      var next := Apply(w, bound, actions[0]);
      ApplyInv(w, bound, actions[0]);
      StaysPinned(w, bound, actions[0], h);
      forall i | 0 <= i < |actions[1..]|
        ensures actions[1..][i] != Release(h) && actions[1..][i] != Drop(w.openings[h].project)
      {
        assert actions[1..][i] == actions[i + 1];
      }
      PinnedHandleIsReturned(next, bound, actions[1..], h, opens);
    }
  }

  lemma StaysPinned(w: World, bound: nat, a: Action, h: Handle)
    requires bound > 0 && w.ready && h in w.held && Current(w, h)
    requires a != Release(h) && a != Drop(w.openings[h].project)
    ensures var w' := Apply(w, bound, a);
            w'.ready && h in w'.held && Current(w', h) && w'.openings[h] == w.openings[h]
  {
    if a.Drop? {
      var since := w.openings[h].dropsBefore;
      assert (w.drops + [a.project])[since..] == w.drops[since..] + [a.project];
    }
  }

  /** After a drop only callers keep the project's handles open: none is warm, and the
    * next successful resolve opens a new one. */
  lemma DropForgets(w: World, bound: nat, p: Project)
    requires bound > 0 && Inv(w, bound) && w.ready && ValidProject(p)
    ensures var w' := Dropped(w, p);
            && (forall h: Handle :: h < |w'.openings| && w'.openings[h].project == p ==>
                  !Current(w', h) && (Alive(w', h) <==> h in w'.held))
            && Answer(w', p, true) == Ok(|w.openings|)
  {
    var w' := Dropped(w, p);
    DropInv(w, bound, p);
    forall h: Handle | h < |w'.openings| && w'.openings[h].project == p
      ensures !Current(w', h) && (Alive(w', h) <==> h in w'.held)
    {
      assert w'.drops[|w.drops|] == p;
      assert p in w'.drops[w.openings[h].dropsBefore..] by {
        assert w'.drops[w.openings[h].dropsBefore..][|w.drops| - w.openings[h].dropsBefore] == p;
      }
      KeptIsASlot(w'.warm, h);
    }
  }

  /** The restriction to handles opened since the last drop is needed: dropping a project
    * and resolving it again leaves a second living handle beside the new one exactly when
    * a caller still holds one from before. */
  lemma SecondHandleAcrossADrop(w: World, bound: nat, p: Project, h: Handle)
    requires bound > 0 && Inv(w, bound) && w.ready && ValidProject(p)
    requires h < |w.openings| && w.openings[h].project == p
    ensures var w' := Resolved(Dropped(w, p), bound, p, true);
            && Alive(w', |w.openings|) && w'.openings[|w.openings|].project == p
            && w'.openings[h].project == p
            && (Alive(w', h) <==> h in w.held)
  {
    var dropped := Dropped(w, p);
    var w' := Resolved(dropped, bound, p, true);
    DropInv(w, bound, p);
    DropForgets(w, bound, p);
    assert Upgrade(dropped, p).None?;
    RetainInv(dropped, bound);
    assert h in w'.held <==> h in w.held;
    PutAlive(dropped.warm, bound, Slot(p, |w.openings|), h);
  }

  // ---------------------------------------------------------------- who stays warm

  ghost predicate OneSlotEach(warm: seq<Slot>) {
    forall i, j :: 0 <= i < j < |warm| ==> warm[i].project != warm[j].project
  }

  /** The slots used more recently than `p`'s. */
  ghost function After(warm: seq<Slot>, p: Project): seq<Slot> {
    if warm == [] then [] else if warm[0].project == p then warm[1..] else After(warm[1..], p)
  }

  ghost function Projects(slots: seq<Slot>): set<Project> { set s | s in slots :: s.project }

  lemma {:induction false} PopKeepsOneEach(warm: seq<Slot>, p: Project)
    requires OneSlotEach(warm)
    ensures OneSlotEach(Pop(warm, p))
  {
    if warm != [] {
      PopKeepsOneEach(warm[1..], p);
      PopMembers(warm[1..], p);
      var rest := Pop(warm[1..], p);
      assert forall s :: s in warm[1..] ==> s.project != warm[0].project;
      assert forall i :: 0 <= i < |rest| ==> rest[i] in rest && rest[i].project != warm[0].project;
    }
  }

  lemma PutKeepsOneEach(warm: seq<Slot>, bound: nat, s: Slot)
    requires bound > 0 && OneSlotEach(warm)
    ensures OneSlotEach(Put(warm, bound, s))
  {
    PopKeepsOneEach(warm, s.project);
    PopMembers(warm, s.project);
    var rest := Pop(warm, s.project);
    assert forall i :: 0 <= i < |rest| ==> rest[i] in rest && rest[i].project != s.project;
  }

  lemma {:induction false} PopAfter(warm: seq<Slot>, p: Project, q: Project)
    requires Warm(warm, p) && p != q
    ensures Warm(Pop(warm, q), p) && Projects(After(Pop(warm, q), p)) <= Projects(After(warm, p))
  {
    if warm[0].project == p {
      PopMembers(warm[1..], q);
      assert Pop(warm, q)[1..] == Pop(warm[1..], q);
      assert Pop(warm, q)[0].project == p;
    } else {
      var i :| 0 <= i < |warm| && warm[i].project == p;
      assert warm[1..][i - 1].project == p;
      PopAfter(warm[1..], p, q);
      var rest := Pop(warm[1..], q);
      if warm[0].project != q {
        assert ([warm[0]] + rest)[1..] == rest;
        var k :| 0 <= k < |rest| && rest[k].project == p;
        assert Pop(warm, q)[k + 1].project == p;
      }
    }
  }

  lemma {:induction false} AppendAfter(warm: seq<Slot>, p: Project, s: Slot)
    requires Warm(warm, p)
    ensures Warm(warm + [s], p) && After(warm + [s], p) == After(warm, p) + [s]
  {
    var i :| 0 <= i < |warm| && warm[i].project == p;
    assert (warm + [s])[i].project == p;
    assert (warm + [s])[1..] == warm[1..] + [s];
    if warm[0].project != p {
      assert warm[1..][i - 1].project == p;
      AppendAfter(warm[1..], p, s);
    }
  }

  lemma {:induction false} SlotCount(warm: seq<Slot>)
    requires OneSlotEach(warm)
    ensures |Projects(warm)| == |warm|
  {
    if warm != [] {
      SlotCount(warm[1..]);
      assert Projects(warm) == {warm[0].project} + Projects(warm[1..]);
      assert forall s :: s in warm[1..] ==> s.project != warm[0].project;
    }
  }

  lemma Within(small: set<Project>, big: set<Project>)
    requires small <= big
    ensures |small| <= |big|
  {
    assert big == small + (big - small);
  }

  /** A put of another project keeps `p` warm while fewer than `bound` other projects have
    * been used since `p` was. */
  lemma PutAfter(warm: seq<Slot>, bound: nat, s: Slot, p: Project, since: set<Project>)
    requires bound > 0 && OneSlotEach(warm) && Warm(warm, p) && s.project != p
    requires Projects(After(warm, p)) <= since && |since + {s.project}| < bound
    ensures Warm(Put(warm, bound, s), p)
    ensures Projects(After(Put(warm, bound, s), p)) <= since + {s.project}
  {
    if Warm(warm, s.project) {
      PopAfter(warm, p, s.project);
      AppendAfter(Pop(warm, s.project), p, s);
    } else if |warm| >= bound {
      if warm[0].project == p {
        SlotCount(warm[1..]);
        var later := Projects(warm[1..]);
        assert s.project !in later;
        Within(later + {s.project}, since + {s.project});
        assert false;
      }
      var i :| 0 <= i < |warm| && warm[i].project == p;
      assert warm[1..][i - 1].project == p;
      AppendAfter(warm[1..], p, s);
    } else {
      AppendAfter(warm, p, s);
    }
  }

  ghost function Touched(actions: seq<Action>, p: Project): set<Project> {
    set a | a in actions && a.Resolve? && a.project != p :: a.project
  }

  lemma PutNewest(warm: seq<Slot>, bound: nat, s: Slot)
    requires bound > 0 && OneSlotEach(warm)
    ensures Warm(Put(warm, bound, s), s.project) && After(Put(warm, bound, s), s.project) == []
  {
    var rest := if Warm(warm, s.project) then Pop(warm, s.project)
                else if |warm| >= bound then warm[1..] else warm;
    PopMembers(warm, s.project);
    assert (rest + [s])[|rest|] == s;
    assert forall t :: t in rest ==> t.project != s.project;
    AfterLast(rest, s);
  }

  lemma {:induction false} AfterLast(rest: seq<Slot>, s: Slot)
    requires forall t :: t in rest ==> t.project != s.project
    ensures After(rest + [s], s.project) == []
  {
    if rest != [] {
      assert (rest + [s])[1..] == rest[1..] + [s];
      AfterLast(rest[1..], s);
    }
  }

  lemma WarmStep(w: World, bound: nat, a: Action, p: Project, since: set<Project>)
    requires bound > 0 && OneSlotEach(w.warm) && Warm(w.warm, p) && a != Drop(p)
    requires Projects(After(w.warm, p)) <= since && |since + Touched([a], p)| < bound
    ensures var w' := Apply(w, bound, a);
            && OneSlotEach(w'.warm) && Warm(w'.warm, p)
            && Projects(After(w'.warm, p)) <= since + Touched([a], p)
  {
    var w' := Apply(w, bound, a);
    match a
    case Resolve(q, opens) =>
      if w'.warm != w.warm {
        var s := Slot(q, if Upgrade(w, q).Some? then w.live[q] else |w.openings|);
        assert w'.warm == Put(w.warm, bound, s);
        PutKeepsOneEach(w.warm, bound, s);
        if q == p {
          PutNewest(w.warm, bound, s);
        } else {
          assert a in [a];
          assert Touched([a], p) == {q};
          PutAfter(w.warm, bound, s, p, since);
        }
      }
    case Drop(q) =>
      if w'.warm != w.warm {
        PopKeepsOneEach(w.warm, q);
        PopAfter(w.warm, p, q);
      }
    case Init =>
    case Share(_) =>
    case Release(_) =>
  }

  /** The LRU forgets in order of use: a project stays warm, so its handle stays open even
    * with no caller, as long as fewer than `bound` other projects have been resolved since
    * and it has not been dropped. */
  lemma {:induction false} RecentlyResolvedStaysWarm(w: World, bound: nat, actions: seq<Action>, p: Project, since: set<Project>)
    requires bound > 0 && OneSlotEach(w.warm) && Warm(w.warm, p)
    requires Projects(After(w.warm, p)) <= since && |since + Touched(actions, p)| < bound
    requires Drop(p) !in actions
    ensures Warm(Run(w, bound, actions).warm, p)
    decreases |actions|
  {
    if actions != [] {
      var a, rest := actions[0], actions[1..];
      assert actions == [a] + rest;
      var since' := since + Touched([a], p);
      assert since + Touched(actions, p) == since' + Touched(rest, p);
      Within(since', since + Touched(actions, p));
      WarmStep(w, bound, a, p, since);
      RecentlyResolvedStaysWarm(Apply(w, bound, a), bound, rest, p, since');
    }
  }

  // ---------------------------------------------------------------- both registries

  /** The vector registry resolves in two locked steps: the code registry first, whose
    * handle it lets go at once, then its own. `prepared` counts calls between the two. */
  datatype Pair = Pair(code: World, vectors: World, prepared: multiset<Project>)

  datatype PairAction =
    | OnCode(action: Action)
    | OnVectors(action: Action)
    | Prepare(project: Project, opens: bool)
    | Finish(project: Project, opens: bool)

  function Prepared(m: Pair, p: Project, opens: bool): Pair {
    if !ValidProject(p) || !m.vectors.ready then m else
    var code := Resolved(m.code, CODE_WARM_HANDLES, p, opens);
    match Answer(m.code, p, opens)
    case Ok(h) => m.(code := Apply(code, CODE_WARM_HANDLES, Release(h)), prepared := m.prepared + multiset{p})
    case Err(_) => m.(code := code)
  }

  function PairApply(m: Pair, a: PairAction): Pair {
    match a
    case OnCode(act) => m.(code := Apply(m.code, CODE_WARM_HANDLES, act))
    case OnVectors(act) => if act.Resolve? then m else m.(vectors := Apply(m.vectors, VECTOR_WARM_HANDLES, act))
    case Prepare(p, opens) => Prepared(m, p, opens)
    case Finish(p, opens) =>
      if p !in m.prepared then m else
      m.(vectors := Resolved(m.vectors, VECTOR_WARM_HANDLES, p, opens), prepared := m.prepared - multiset{p})
  }

  function PairRun(m: Pair, actions: seq<PairAction>): Pair
    decreases |actions|
  {
    if actions == [] then m else PairRun(PairApply(m, actions[0]), actions[1..])
  }

  ghost predicate OpenedFor(openings: seq<Opening>, p: Project) {
    exists i :: 0 <= i < |openings| && openings[i].project == p
  }

  ghost predicate PairInv(m: Pair) {
    && Inv(m.code, CODE_WARM_HANDLES) && Inv(m.vectors, VECTOR_WARM_HANDLES)
    && (forall p :: p in m.prepared ==> OpenedFor(m.code.openings, p))
    && (forall h :: 0 <= h < |m.vectors.openings| ==> OpenedFor(m.code.openings, m.vectors.openings[h].project))
  }

  lemma OpeningsGrow(w: World, bound: nat, a: Action)
    requires bound > 0
    ensures w.openings <= Apply(w, bound, a).openings
  {
  }

  lemma OpenedStays(before: seq<Opening>, after: seq<Opening>)
    requires before <= after
    ensures forall p :: OpenedFor(before, p) ==> OpenedFor(after, p)
  {
    forall p | OpenedFor(before, p) ensures OpenedFor(after, p) {
      var i :| 0 <= i < |before| && before[i].project == p;
      assert after[i].project == p;
    }
  }

  lemma CodeStep(m: Pair, a: Action)
    requires PairInv(m)
    ensures PairInv(m.(code := Apply(m.code, CODE_WARM_HANDLES, a)))
  {
    ApplyInv(m.code, CODE_WARM_HANDLES, a);
    OpeningsGrow(m.code, CODE_WARM_HANDLES, a);
    OpenedStays(m.code.openings, Apply(m.code, CODE_WARM_HANDLES, a).openings);
  }

  lemma PreparedInv(m: Pair, p: Project, opens: bool)
    requires PairInv(m)
    ensures PairInv(Prepared(m, p, opens))
  {
    if ValidProject(p) && m.vectors.ready {
      CodeStep(m, Resolve(p, opens));
      var code := Resolved(m.code, CODE_WARM_HANDLES, p, opens);
      match Answer(m.code, p, opens)
      case Err(_) =>
      case Ok(h) =>
        assert code.openings[h].project == p;
        assert OpenedFor(code.openings, p);
        CodeStep(m.(code := code), Release(h));
    }
  }

  lemma FinishInv(m: Pair, p: Project, opens: bool)
    requires PairInv(m) && p in m.prepared
    ensures PairInv(PairApply(m, Finish(p, opens)))
  {
    ApplyInv(m.vectors, VECTOR_WARM_HANDLES, Resolve(p, opens));
    var after := Resolved(m.vectors, VECTOR_WARM_HANDLES, p, opens);
    forall h | 0 <= h < |after.openings| ensures OpenedFor(m.code.openings, after.openings[h].project) {
      if h < |m.vectors.openings| { assert after.openings[h] == m.vectors.openings[h]; }
    }
  }

  lemma PairApplyInv(m: Pair, a: PairAction)
    requires PairInv(m)
    ensures PairInv(PairApply(m, a))
  {
    match a
    case OnCode(act) => CodeStep(m, act);
    case OnVectors(act) => if !act.Resolve? { VectorsStep(m, act); }
    case Prepare(p, opens) => PreparedInv(m, p, opens);
    case Finish(p, opens) => if p in m.prepared { FinishInv(m, p, opens); }
  }

  lemma VectorsStep(m: Pair, a: Action)
    requires PairInv(m) && !a.Resolve?
    ensures PairInv(m.(vectors := Apply(m.vectors, VECTOR_WARM_HANDLES, a)))
  {
    ApplyInv(m.vectors, VECTOR_WARM_HANDLES, a);
    assert Apply(m.vectors, VECTOR_WARM_HANDLES, a).openings == m.vectors.openings;
  }

  lemma {:induction false} PairRunInv(m: Pair, actions: seq<PairAction>)
    requires PairInv(m)
    ensures PairInv(PairRun(m, actions))
    decreases |actions|
  {
    if actions != [] {
      PairApplyInv(m, actions[0]);
      PairRunInv(PairApply(m, actions[0]), actions[1..]);
    }
  }

  /** In every interleaving of the two registries each keeps its own bound and invariant,
    * and a vector index is only ever opened on a project whose code database has been
    * opened earlier in the run. It may have been dropped again in between: the two locks
    * are taken one after the other. */
  lemma VectorsStandOnCode(actions: seq<PairAction>)
    ensures var m := PairRun(Pair(START, START, multiset{}), actions);
            && Inv(m.code, CODE_WARM_HANDLES) && Inv(m.vectors, VECTOR_WARM_HANDLES)
            && forall h :: 0 <= h < |m.vectors.openings| ==>
                 OpenedFor(m.code.openings, m.vectors.openings[h].project)
  {
    PairRunInv(Pair(START, START, multiset{}), actions);
  }
}
