/** Ranking of snapshot chunks by distance: the one-pass best-chunk-per-owner scan,
  * and the reduction of hits to owners. Distances are reals. */
module Ranking {
  import opened Wrappers
  import opened Owners

  datatype ChunkKind = IdentityChunk | ObservationChunk | RelationChunk | AttachmentChunk

  datatype SnapshotVector =
    SnapshotVector(owner: Owner, chunkKind: ChunkKind, chunkIndex: int, typeId: int, vector: seq<real>)

  datatype Hit = Hit(owner: Owner, chunkKind: ChunkKind, chunkIndex: int, typeId: int, dist: real)

  datatype Triple = Triple(from: string, to: string, relationType: string)

  datatype RelationFilter =
    RelationFilter(from: Option<string>, to: Option<string>, relationType: Option<string>)

  datatype Filter = Filter(
    allowAttachments: bool, kind: Option<string>, typeName: Option<string>, relation: Option<RelationFilter>)

  /** The live tables a filter reads: type names by id, and relation triples. */
  datatype Live = Live(types: set<(int, string)>, triples: map<int, Triple>)

  datatype Error = DimensionMismatch

  function KindName(k: OwnerKind): string {
    match k case Entity => "entity" case Relation => "relation" case Attachment => "attachment"
  }

  predicate Wants(want: Option<string>, have: string) { want.None? || want.value == have }

  /** A relation filter with no member is no filter. A relation that is gone never passes. */
  predicate RelationPasses(live: Live, f: RelationFilter, id: int) {
    || (f.from.None? && f.to.None? && f.relationType.None?)
    || (id in live.triples
        && Wants(f.from, live.triples[id].from) && Wants(f.to, live.triples[id].to)
        && Wants(f.relationType, live.triples[id].relationType))
  }

  predicate Passes(live: Live, f: Filter, sv: SnapshotVector) {
    && (f.allowAttachments || !sv.owner.kind.Attachment?)
    && Wants(f.kind, KindName(sv.owner.kind))
    && (f.typeName.None? || (sv.typeId, f.typeName.value) in live.types)
    && (sv.owner.kind.Relation? && f.relation.Some? ==> RelationPasses(live, f.relation.value, sv.owner.id))
  }

  function HitOf(distance: seq<real> -> real, sv: SnapshotVector): Hit {
    Hit(sv.owner, sv.chunkKind, sv.chunkIndex, sv.typeId, distance(sv.vector))
  }

  /** The filtered scan, in row order; `live(n)` is what the filter's queries find at row `n`. */
  function Scan(live: nat -> Live, f: Filter, distance: seq<real> -> real, rows: seq<SnapshotVector>): seq<Hit> {
    if rows == [] then [] else
      var n := |rows| - 1;
      Scan(live, f, distance, rows[..n])
      + if Passes(live(n), f, rows[n]) then [HitOf(distance, rows[n])] else []
  }

  // ---------------------------------------------------------------- stable sort

  function Insert<T>(key: T -> real, s: seq<T>, x: T): seq<T> {
    if s == [] || key(s[|s| - 1]) <= key(x) then s + [x]
    else Insert(key, s[..|s| - 1], x) + [s[|s| - 1]]
  }

  /** The library's stable sort by a key. */
  function StableSort<T>(key: T -> real, s: seq<T>): seq<T> {
    if s == [] then [] else Insert(key, StableSort(key, s[..|s| - 1]), s[|s| - 1])
  }

  ghost predicate Ascending<T>(key: T -> real, s: seq<T>) {
    forall i, j :: 0 <= i < j < |s| ==> key(s[i]) <= key(s[j])
  }

  /** The elements with one key, in order. */
  function Ties<T>(key: T -> real, s: seq<T>, k: real): seq<T> {
    if s == [] then [] else
      var n := |s| - 1;
      Ties(key, s[..n], k) + if key(s[n]) == k then [s[n]] else []
  }

  lemma InsertSnoc<T>(key: T -> real, s: seq<T>, z: T, x: T)
    ensures Insert(key, s + [z], x) == if key(z) <= key(x) then s + [z] + [x] else Insert(key, s, x) + [z]
  {
    assert (s + [z])[..|s|] == s;
  }

  lemma SortSnoc<T>(key: T -> real, s: seq<T>, x: T)
    ensures StableSort(key, s + [x]) == Insert(key, StableSort(key, s), x)
  {
    assert (s + [x])[..|s|] == s;
  }

  lemma TiesSnoc<T>(key: T -> real, s: seq<T>, x: T, k: real)
    ensures Ties(key, s + [x], k) == Ties(key, s, k) + if key(x) == k then [x] else []
  {
    assert (s + [x])[..|s|] == s;
  }

  lemma Snoc<T>(s: seq<T>)
    requires s != []
    ensures s == s[..|s| - 1] + [s[|s| - 1]]
  {
  }

  lemma {:induction false} InsertElements<T>(key: T -> real, s: seq<T>, x: T)
    ensures multiset(Insert(key, s, x)) == multiset(s) + multiset{x}
  {
    if s != [] {
      Snoc(s);
      InsertSnoc(key, s[..|s| - 1], s[|s| - 1], x);
      InsertElements(key, s[..|s| - 1], x);
    }
  }

  lemma {:induction false} InsertAscends<T>(key: T -> real, s: seq<T>, x: T)
    requires Ascending(key, s)
    ensures Ascending(key, Insert(key, s, x))
  {
    if s != [] && key(s[|s| - 1]) > key(x) {
      var front, last := s[..|s| - 1], s[|s| - 1];
      InsertAscends(key, front, x);
      InsertElements(key, front, x);
      var r := Insert(key, front, x);
      forall i | 0 <= i < |r| ensures key(r[i]) <= key(last) {
        assert r[i] in multiset(r);
      }
    }
  }

  lemma {:induction false} InsertKeepsTies<T>(key: T -> real, s: seq<T>, x: T, k: real)
    requires Ascending(key, s)
    ensures Ties(key, Insert(key, s, x), k) == Ties(key, s, k) + if key(x) == k then [x] else []
  {
    if s == [] || key(s[|s| - 1]) <= key(x) {
      TiesSnoc(key, s, x, k);
    } else {
      var front, last := s[..|s| - 1], s[|s| - 1];
      Snoc(s);
      InsertKeepsTies(key, front, x, k);
      TiesSnoc(key, front, last, k);
      TiesSnoc(key, Insert(key, front, x), last, k);
      if key(x) == k { NoTiesBelow(key, s, k); }
    }
  }

  lemma NoTiesBelow<T>(key: T -> real, s: seq<T>, k: real)
    requires s != [] && key(s[|s| - 1]) > k
    ensures Ties(key, s, k) == Ties(key, s[..|s| - 1], k)
  {
  }

  /** Sorted, the same elements, and ties in their first order: this is the one
    * stable sort. */
  lemma {:induction false} StableSortIsStable<T>(key: T -> real, s: seq<T>, k: real)
    ensures Ascending(key, StableSort(key, s))
    ensures multiset(StableSort(key, s)) == multiset(s)
    ensures Ties(key, StableSort(key, s), k) == Ties(key, s, k)
  {
    if s != [] {
      var front, last := s[..|s| - 1], s[|s| - 1];
      Snoc(s);
      StableSortIsStable(key, front, k);
      InsertAscends(key, StableSort(key, front), last);
      InsertElements(key, StableSort(key, front), last);
      InsertKeepsTies(key, StableSort(key, front), last, k);
    }
  }

  lemma {:induction false} SortedIsFixed<T>(key: T -> real, s: seq<T>)
    requires Ascending(key, s)
    ensures StableSort(key, s) == s
  {
    if s != [] {
      SortedIsFixed(key, s[..|s| - 1]);
      Snoc(s);
    }
  }

  lemma SortMembers<T>(key: T -> real, s: seq<T>)
    ensures Ascending(key, StableSort(key, s))
    ensures |StableSort(key, s)| == |s|
    ensures forall x :: x in StableSort(key, s) <==> x in s
  {
    StableSortIsStable(key, s, 0.0);
    assert |multiset(s)| == |s| && |multiset(StableSort(key, s))| == |StableSort(key, s)|;
    assert forall x :: x in StableSort(key, s) <==> x in multiset(StableSort(key, s));
    assert forall x :: x in s <==> x in multiset(s);
  }

  // ---------------------------------------------------------------- owners

  const DIST: Hit -> real := (h: Hit) => h.dist

  predicate HasOwner(s: seq<Hit>, o: Owner) { exists h :: h in s && h.owner == o }

  /** The first hit of each owner. */
  function FirstPerOwner(s: seq<Hit>): seq<Hit> {
    if s == [] then [] else
      var front, x := s[..|s| - 1], s[|s| - 1];
      if HasOwner(front, x.owner) then FirstPerOwner(front) else FirstPerOwner(front) + [x]
  }

  function Without(s: seq<Hit>, o: Owner): seq<Hit> {
    if s == [] then [] else
      var front, x := s[..|s| - 1], s[|s| - 1];
      if x.owner == o then Without(front, o) else Without(front, o) + [x]
  }

  /** One step of the scan: an owner's slot keeps the first of its nearest hits. */
  function Keep(slots: seq<Hit>, x: Hit): seq<Hit> {
    var i := Slot(slots, x.owner);
    if i == |slots| then slots + [x]
    else if x.dist < slots[i].dist then slots[i := x] else slots
  }

  function Slot(slots: seq<Hit>, o: Owner): (i: nat)
    ensures i <= |slots| && (i < |slots| ==> slots[i].owner == o)
    ensures forall j :: 0 <= j < i ==> slots[j].owner != o
  {
    if slots == [] then 0
    else if slots[0].owner == o then 0 else 1 + Slot(slots[1..], o)
  }

  function OnePass(hits: seq<Hit>): seq<Hit> {
    if hits == [] then [] else Keep(OnePass(hits[..|hits| - 1]), hits[|hits| - 1])
  }

  ghost predicate DistinctOwners(s: seq<Hit>) {
    forall i, j :: 0 <= i < j < |s| ==> s[i].owner != s[j].owner
  }

  /** The hits of each owner stand together. */
  ghost predicate Grouped(s: seq<Hit>) {
    s == [] ||
    var front, x := s[..|s| - 1], s[|s| - 1];
    Grouped(front) && (HasOwner(front, x.owner) ==> front[|front| - 1].owner == x.owner)
  }

  lemma FirstSnoc(s: seq<Hit>, x: Hit)
    ensures FirstPerOwner(s + [x]) == FirstPerOwner(s) + if HasOwner(s, x.owner) then [] else [x]
  {
    assert (s + [x])[..|s|] == s;
  }

  lemma WithoutSnoc(s: seq<Hit>, x: Hit, o: Owner)
    ensures Without(s + [x], o) == Without(s, o) + if x.owner == o then [] else [x]
  {
    assert (s + [x])[..|s|] == s;
  }

  lemma InsertMembers(s: seq<Hit>, x: Hit)
    ensures forall h :: h in Insert(DIST, s, x) <==> h in s || h == x
  {
    InsertElements(DIST, s, x);
    assert forall h :: h in Insert(DIST, s, x) <==> h in multiset(Insert(DIST, s, x));
    assert forall h :: h in s <==> h in multiset(s);
  }

  /** Each slot is one of the hits, no owner has two, and each hit has a slot of its
    * owner that is at least as near. */
  lemma {:induction false} OnePassSlots(hits: seq<Hit>)
    ensures DistinctOwners(OnePass(hits))
    ensures forall h :: h in OnePass(hits) ==> h in hits
  {
    if hits != [] {
      OnePassSlots(hits[..|hits| - 1]);
      Snoc(hits);
    }
  }

  lemma {:induction false} OnePassIsNearest(hits: seq<Hit>, h: Hit)
    requires h in hits
    ensures var i := Slot(OnePass(hits), h.owner); i < |OnePass(hits)| && OnePass(hits)[i].dist <= h.dist
  {
    var front, x := hits[..|hits| - 1], hits[|hits| - 1];
    Snoc(hits);
    OnePassSlots(hits);
    var slots, slots' := OnePass(front), OnePass(hits);
    if h in front {
      OnePassIsNearest(front, h);
      SlotIsUnique(slots', Slot(slots, h.owner));
    } else {
      SlotIsUnique(slots', Slot(slots, x.owner));
    }
  }

  lemma SlotIsUnique(slots: seq<Hit>, i: nat)
    requires DistinctOwners(slots) && i < |slots|
    ensures Slot(slots, slots[i].owner) == i
  {
  }

  /** In a grouped scan the owner being scanned has the last slot. */
  lemma {:induction false} LastSlot(hits: seq<Hit>)
    requires Grouped(hits) && hits != []
    ensures OnePass(hits) != []
    ensures OnePass(hits)[|OnePass(hits)| - 1].owner == hits[|hits| - 1].owner
  {
    var front, x := hits[..|hits| - 1], hits[|hits| - 1];
    var i := Slot(OnePass(front), x.owner);
    if i < |OnePass(front)| {
      OnePassSlots(front);
      assert OnePass(front)[i] in front;
      LastSlot(front);
    }
  }

  lemma {:induction false} FirstMembers(s: seq<Hit>)
    ensures forall h :: h in FirstPerOwner(s) ==> h in s
  {
    if s != [] {
      FirstMembers(s[..|s| - 1]);
      Snoc(s);
    }
  }

  lemma {:induction false} FirstIsDistinct(s: seq<Hit>)
    ensures DistinctOwners(FirstPerOwner(s))
  {
    if s != [] {
      FirstIsDistinct(s[..|s| - 1]);
      FirstMembers(s[..|s| - 1]);
    }
  }

  lemma {:induction false} FirstAscends(s: seq<Hit>)
    requires Ascending(DIST, s)
    ensures Ascending(DIST, FirstPerOwner(s))
  {
    if s != [] {
      var front := s[..|s| - 1];
      FirstAscends(front);
      FirstMembers(front);
      AscendingLast(s);
      assert forall h :: h in FirstPerOwner(front) ==> h in s && h.dist <= s[|s| - 1].dist;
    }
  }

  lemma AscendingLast(s: seq<Hit>)
    requires Ascending(DIST, s) && s != []
    ensures forall h :: h in s ==> h.dist <= s[|s| - 1].dist
  {
  }

  lemma {:induction false} WithoutAbsent(s: seq<Hit>, o: Owner)
    requires !HasOwner(s, o)
    ensures Without(s, o) == s
  {
    if s != [] {
      Snoc(s);
      WithoutAbsent(s[..|s| - 1], o);
    }
  }

  lemma {:induction false} WithoutInserted(s: seq<Hit>, x: Hit)
    requires !HasOwner(s, x.owner)
    ensures Without(Insert(DIST, s, x), x.owner) == s
  {
    if s == [] || s[|s| - 1].dist <= x.dist {
      WithoutSnoc(s, x, x.owner);
      WithoutAbsent(s, x.owner);
    } else {
      Snoc(s);
      WithoutInserted(s[..|s| - 1], x);
      WithoutSnoc(Insert(DIST, s[..|s| - 1], x), s[|s| - 1], x.owner);
    }
  }

  /** A hit nearer than all others of its owner takes the owner's place. */
  lemma {:induction false} FirstAfterNearer(s: seq<Hit>, x: Hit)
    requires Ascending(DIST, s)
    requires forall h :: h in s && h.owner == x.owner ==> h.dist > x.dist
    ensures FirstPerOwner(Insert(DIST, s, x)) == Insert(DIST, Without(FirstPerOwner(s), x.owner), x)
  {
    if s == [] || s[|s| - 1].dist <= x.dist {
      FirstMembers(s);
      if s != [] { AscendingLast(s); }
      assert !HasOwner(s, x.owner);
      WithoutAbsent(FirstPerOwner(s), x.owner);
      FirstSnoc(s, x);
    } else {
      var front, z := s[..|s| - 1], s[|s| - 1];
      Snoc(s);
      FirstAfterNearer(front, x);
      InsertMembers(front, x);
      NearerThanLast(front, z, x);
    }
  }

  lemma NearerThanLast(front: seq<Hit>, z: Hit, x: Hit)
    requires z.dist > x.dist
    requires FirstPerOwner(Insert(DIST, front, x)) == Insert(DIST, Without(FirstPerOwner(front), x.owner), x)
    requires forall o :: HasOwner(Insert(DIST, front, x), o) <==> HasOwner(front, o) || o == x.owner
    ensures FirstPerOwner(Insert(DIST, front + [z], x)) == Insert(DIST, Without(FirstPerOwner(front + [z]), x.owner), x)
  {
    InsertSnoc(DIST, front, z, x);
    FirstSnoc(Insert(DIST, front, x), z);
    FirstSnoc(front, z);
    WithoutSnoc(FirstPerOwner(front), z, x.owner);
    InsertSnoc(DIST, Without(FirstPerOwner(front), x.owner), z, x);
  }

  /** A hit no nearer than another of its owner changes nothing. */
  lemma {:induction false} FirstAfterFarther(s: seq<Hit>, x: Hit)
    requires Ascending(DIST, s)
    requires exists h :: h in s && h.owner == x.owner && h.dist <= x.dist
    ensures FirstPerOwner(Insert(DIST, s, x)) == FirstPerOwner(s)
  {
    var front, z := s[..|s| - 1], s[|s| - 1];
    Snoc(s);
    if z.dist <= x.dist {
      FirstSnoc(s, x);
    } else {
      FirstAfterFarther(front, x);
      InsertMembers(front, x);
      FirstSnoc(Insert(DIST, front, x), z);
    }
  }

  lemma NearerLastSlot(sorted: seq<Hit>, m: seq<Hit>, c: Hit, x: Hit)
    requires Ascending(DIST, sorted) && DistinctOwners(m + [c])
    requires c.owner == x.owner && x.dist < c.dist
    requires forall h :: h in sorted && h.owner == x.owner ==> h.dist >= c.dist
    requires StableSort(DIST, m + [c]) == FirstPerOwner(sorted)
    ensures StableSort(DIST, m + [x]) == FirstPerOwner(Insert(DIST, sorted, x))
  {
    var t := StableSort(DIST, m);
    SortSnoc(DIST, m, c);
    SortSnoc(DIST, m, x);
    SortMembers(DIST, m);
    forall h | h in t ensures h.owner != x.owner {
      var j :| 0 <= j < |m| && m[j] == h;
      assert (m + [c])[j].owner != (m + [c])[|m|].owner;
    }
    WithoutInserted(t, c);
    FirstAfterNearer(sorted, x);
  }

  /** On a grouped scan, sorting the slots of the one pass gives exactly the full
    * stable sort reduced to the first hit of each owner, ties included. */
  lemma {:induction false} OnePassIsSortThenFirst(hits: seq<Hit>)
    requires Grouped(hits)
    ensures StableSort(DIST, OnePass(hits)) == FirstPerOwner(StableSort(DIST, hits))
  {
    if hits != [] {
      var front, x := hits[..|hits| - 1], hits[|hits| - 1];
      OnePassIsSortThenFirst(front);
      OnePassStep(front, x);
      Snoc(hits);
    }
  }

  lemma OnePassStep(front: seq<Hit>, x: Hit)
    requires Grouped(front) && (HasOwner(front, x.owner) ==> front[|front| - 1].owner == x.owner)
    requires StableSort(DIST, OnePass(front)) == FirstPerOwner(StableSort(DIST, front))
    ensures StableSort(DIST, Keep(OnePass(front), x)) == FirstPerOwner(Insert(DIST, StableSort(DIST, front), x))
  {
    var slots := OnePass(front);
    OnePassSlots(front);
    if Slot(slots, x.owner) == |slots| {
      NewOwnerStep(front, x);
    } else {
      KnownOwnerStep(front, slots, StableSort(DIST, front), x);
    }
  }

  lemma NewOwnerStep(front: seq<Hit>, x: Hit)
    requires Slot(OnePass(front), x.owner) == |OnePass(front)|
    requires StableSort(DIST, OnePass(front)) == FirstPerOwner(StableSort(DIST, front))
    ensures StableSort(DIST, OnePass(front) + [x]) == FirstPerOwner(Insert(DIST, StableSort(DIST, front), x))
  {
    var sorted := StableSort(DIST, front);
    SortMembers(DIST, front);
    forall h | h in front ensures h.owner != x.owner { OnePassIsNearest(front, h); }
    FirstAfterNearer(sorted, x);
    FirstMembers(sorted);
    WithoutAbsent(FirstPerOwner(sorted), x.owner);
    SortSnoc(DIST, OnePass(front), x);
  }

  lemma KnownOwnerStep(front: seq<Hit>, slots: seq<Hit>, sorted: seq<Hit>, x: Hit)
    requires slots == OnePass(front) && sorted == StableSort(DIST, front)
    requires Slot(slots, x.owner) < |slots| && DistinctOwners(slots)
    requires Grouped(front) && (HasOwner(front, x.owner) ==> front[|front| - 1].owner == x.owner)
    requires StableSort(DIST, slots) == FirstPerOwner(sorted)
    ensures StableSort(DIST, Keep(slots, x)) == FirstPerOwner(Insert(DIST, sorted, x))
  {
    var c := KnownSlot(front, slots, sorted, x);
    KeepInLastSlot(slots, sorted, c, x);
  }

  lemma KeepInLastSlot(slots: seq<Hit>, sorted: seq<Hit>, c: Hit, x: Hit)
    requires DistinctOwners(slots) && slots != [] && Slot(slots, x.owner) == |slots| - 1
    requires c == slots[|slots| - 1] && c.owner == x.owner && c in sorted && Ascending(DIST, sorted)
    requires forall h :: h in sorted && h.owner == x.owner ==> h.dist >= c.dist
    requires StableSort(DIST, slots) == FirstPerOwner(sorted)
    ensures StableSort(DIST, Keep(slots, x)) == FirstPerOwner(Insert(DIST, sorted, x))
  {
    if x.dist < c.dist {
      var m := slots[..|slots| - 1];
      Snoc(slots);
      assert slots[|slots| - 1 := x] == m + [x];
      NearerLastSlot(sorted, m, c, x);
    } else {
      FirstAfterFarther(sorted, x);
    }
  }

  lemma KnownSlot(front: seq<Hit>, slots: seq<Hit>, sorted: seq<Hit>, x: Hit) returns (c: Hit)
    requires slots == OnePass(front) && sorted == StableSort(DIST, front)
    requires Slot(slots, x.owner) < |slots| && DistinctOwners(slots)
    requires Grouped(front) && (HasOwner(front, x.owner) ==> front[|front| - 1].owner == x.owner)
    ensures slots != [] && Slot(slots, x.owner) == |slots| - 1 && c == slots[|slots| - 1]
    ensures c.owner == x.owner && c in sorted && Ascending(DIST, sorted)
    ensures forall h :: h in sorted && h.owner == x.owner ==> h.dist >= c.dist
  {
    c := slots[Slot(slots, x.owner)];
    OnePassSlots(front);
    SortMembers(DIST, front);
    assert c in front;
    LastSlot(front);
    SlotIsUnique(slots, |slots| - 1);
    forall h | h in front && h.owner == x.owner ensures h.dist >= c.dist { OnePassIsNearest(front, h); }
  }

  // ---------------------------------------------------------------- the scan over loaded rows

  /** The order in which the rows are loaded: by the name of the owner kind, the
    * owner id, and the chunk index. */
  function KindRank(k: OwnerKind): int { match k case Attachment => 0 case Entity => 1 case Relation => 2 }

  predicate LoadedBefore(a: Owner, b: Owner) {
    KindRank(a.kind) < KindRank(b.kind) || (a.kind == b.kind && a.id <= b.id)
  }

  ghost predicate LoadOrder(rows: seq<SnapshotVector>) {
    forall i, j :: 0 <= i < j < |rows| ==> LoadedBefore(rows[i].owner, rows[j].owner)
  }

  lemma ScanSnoc(live: nat -> Live, f: Filter, distance: seq<real> -> real, rows: seq<SnapshotVector>, n: nat)
    requires n < |rows|
    ensures Scan(live, f, distance, rows[..n + 1])
         == if Passes(live(n), f, rows[n]) then Scan(live, f, distance, rows[..n]) + [HitOf(distance, rows[n])]
            else Scan(live, f, distance, rows[..n])
  {
    assert rows[..n + 1][..n] == rows[..n];
  }

  lemma GroupedSnoc(hits: seq<Hit>, x: Hit)
    requires Grouped(hits) && (HasOwner(hits, x.owner) ==> hits[|hits| - 1].owner == x.owner)
    ensures Grouped(hits + [x])
  {
    assert (hits + [x])[..|hits|] == hits;
  }

  ghost predicate UpTo(hits: seq<Hit>, o: Owner) {
    forall h :: h in hits ==> LoadedBefore(h.owner, o)
  }

  /** Rows in load order scan to a grouped list whose last owner comes last. */
  lemma {:induction false} LoadOrderGroups(live: nat -> Live, f: Filter, distance: seq<real> -> real, rows: seq<SnapshotVector>)
    requires LoadOrder(rows)
    ensures var hits := Scan(live, f, distance, rows);
            && Grouped(hits)
            && (rows != [] ==> UpTo(hits, rows[|rows| - 1].owner))
            && (hits != [] ==> UpTo(hits, hits[|hits| - 1].owner))
  {
    if rows != [] {
      var n := |rows| - 1;
      var front, sv := rows[..n], rows[n];
      var hits, x := Scan(live, f, distance, front), HitOf(distance, sv);
      LoadOrderGroups(live, f, distance, front);
      ScanSnoc(live, f, distance, rows, n);
      assert rows[..n + 1] == rows;
      forall h | h in hits ensures LoadedBefore(h.owner, sv.owner) {
        assert front != [] && LoadedBefore(front[n - 1].owner, sv.owner);
      }
      if HasOwner(hits, x.owner) {
        var last := hits[|hits| - 1].owner;
        assert last.kind == sv.owner.kind && last.id == sv.owner.id;
      }
      GroupedSnoc(hits, x);
    }
  }

  /** What the best-chunk search returns: the full filtered scan, stably sorted by
    * distance, reduced to the first hit of each owner, and truncated. */
  function BestChunks(live: nat -> Live, f: Filter, distance: seq<real> -> real, rows: seq<SnapshotVector>, k: nat): seq<Hit> {
    Take(FirstPerOwner(StableSort(DIST, Scan(live, f, distance, rows))), k)
  }

  function Take<T>(s: seq<T>, k: nat): seq<T> { if k <= |s| then s[..k] else s }

  function Clamp(n: nat): nat { if n < 1 then 1 else if n > 1000 then 1000 else n }

  function Dims(rows: seq<SnapshotVector>, query: seq<real>): nat {
    if rows == [] then |query| else |rows[0].vector|
  }

  function DistanceFrom(metric: (seq<real>, seq<real>) -> real, query: seq<real>): seq<real> -> real {
    v => metric(query, v)
  }

  ghost predicate Indexed(index: map<Owner, nat>, slots: seq<Hit>) {
    && DistinctOwners(slots)
    && (forall o :: o in index ==> index[o] < |slots| && slots[index[o]].owner == o)
    && (forall i :: 0 <= i < |slots| ==> slots[i].owner in index)
  }

  lemma IndexedSlot(index: map<Owner, nat>, slots: seq<Hit>, o: Owner)
    requires Indexed(index, slots)
    ensures Slot(slots, o) == if o in index then index[o] else |slots|
  {
    if o in index { SlotIsUnique(slots, index[o]); }
  }

  lemma OnePassSnoc(hits: seq<Hit>, x: Hit)
    ensures OnePass(hits + [x]) == Keep(OnePass(hits), x)
  {
    assert (hits + [x])[..|hits|] == hits;
  }

  lemma IndexedKeep(index: map<Owner, nat>, slots: seq<Hit>, x: Hit)
    requires Indexed(index, slots)
    ensures x.owner in index ==>
              && Keep(slots, x) == (if x.dist < slots[index[x.owner]].dist then slots[index[x.owner] := x] else slots)
              && Indexed(index, Keep(slots, x))
    ensures x.owner !in index ==> Keep(slots, x) == slots + [x] && Indexed(index[x.owner := |slots|], slots + [x])
  {
    IndexedSlot(index, slots, x.owner);
  }

  /** One snapshot scanned once; `index` holds the slot of each owner seen. */
  method RankChunks(
      snapshot: Option<seq<SnapshotVector>>, query: seq<real>, metric: (seq<real>, seq<real>) -> real,
      fetchK: nat, f: Filter, live: nat -> Live, bestOnly: bool) returns (r: Result<seq<Hit>, Error>)
    ensures snapshot.None? ==> r == Ok([])
    ensures snapshot.Some? ==> (r.Err? <==> |query| != Dims(snapshot.value, query))
    ensures snapshot.Some? && r.Ok? && bestOnly && LoadOrder(snapshot.value) ==>
              r.value == BestChunks(live, f, DistanceFrom(metric, query), snapshot.value, Clamp(fetchK))
    ensures snapshot.Some? && r.Ok? && !bestOnly ==>
              r.value == Take(StableSort(DIST, Scan(live, f, DistanceFrom(metric, query), snapshot.value)), Clamp(fetchK))
  {
    if snapshot.None? { return Ok([]); }
    var rows := snapshot.value;
    if |query| != Dims(rows, query) { return Err(DimensionMismatch); }
    var distance := DistanceFrom(metric, query);
    var matches: seq<Hit> := [];
    var index: map<Owner, nat> := map[];
    for n := 0 to |rows|
      invariant bestOnly ==> matches == OnePass(Scan(live, f, distance, rows[..n])) && Indexed(index, matches)
      invariant !bestOnly ==> matches == Scan(live, f, distance, rows[..n])
    {
      ScanSnoc(live, f, distance, rows, n);
      if Passes(live(n), f, rows[n]) {
        var hit := HitOf(distance, rows[n]);
        if bestOnly {
          OnePassSnoc(Scan(live, f, distance, rows[..n]), hit);
          IndexedKeep(index, matches, hit);
          if hit.owner in index {
            if hit.dist < matches[index[hit.owner]].dist {
              matches := matches[index[hit.owner] := hit];
            }
          } else {
            index := index[hit.owner := |matches|];
            matches := matches + [hit];
          }
        } else {
          matches := matches + [hit];
        }
      }
    }
    assert rows[..|rows|] == rows;
    ghost var hits := Scan(live, f, distance, rows);
    if LoadOrder(rows) {
      LoadOrderGroups(live, f, distance, rows);
      OnePassIsSortThenFirst(hits);
    }
    r := Ok(Take(StableSort(DIST, matches), Clamp(fetchK)));
  }

  /** A row of the hit's owner that is at least as near. */
  ghost predicate Covers(s: seq<Hit>, h: Hit) { exists r :: r in s && r.owner == h.owner && r.dist <= h.dist }

  lemma CoversLonger(s: seq<Hit>, t: seq<Hit>, g: Hit, h: Hit)
    requires Covers(s, g) && s <= t && g.owner == h.owner && g.dist <= h.dist
    ensures Covers(t, h)
  {
    var r :| r in s && r.owner == g.owner && r.dist <= g.dist;
    assert r in t;
  }

  lemma {:induction false} FirstCovers(s: seq<Hit>, h: Hit)
    requires Ascending(DIST, s) && h in s
    ensures Covers(FirstPerOwner(s), h)
  {
    var front, x := s[..|s| - 1], s[|s| - 1];
    Snoc(s);
    FirstSnoc(front, x);
    if h in front {
      FirstCovers(front, h);
      CoversLonger(FirstPerOwner(front), FirstPerOwner(s), h, h);
    } else if HasOwner(front, x.owner) {
      var g :| g in front && g.owner == x.owner;
      AscendingLast(s);
      assert g in s && g.dist <= x.dist;
      FirstCovers(front, g);
      CoversLonger(FirstPerOwner(front), FirstPerOwner(s), g, h);
    } else {
      assert x in FirstPerOwner(s);
    }
  }

  /** Full of rows of other owners that are at least as near. */
  ghost predicate FullBefore(s: seq<Hit>, k: nat, h: Hit) {
    |s| == k && forall r :: r in s ==> r.dist <= h.dist && r.owner != h.owner
  }

  lemma TruncatedOrKept(all: seq<Hit>, k: nat, h: Hit)
    requires DistinctOwners(all) && Ascending(DIST, all) && Covers(all, h)
    ensures Covers(Take(all, k), h) || FullBefore(Take(all, k), k, h)
  {
    var best := Take(all, k);
    var i :| 0 <= i < |all| && all[i].owner == h.owner && all[i].dist <= h.dist;
    if i < |best| {
      assert best[i] in best;
    } else {
      forall r | r in best ensures r.dist <= h.dist && r.owner != h.owner {
        var j :| 0 <= j < |best| && best[j] == r;
        assert all[j] == r;
      }
    }
  }

  lemma TakeKeeps(all: seq<Hit>, k: nat)
    requires DistinctOwners(all) && Ascending(DIST, all)
    ensures DistinctOwners(Take(all, k)) && Ascending(DIST, Take(all, k))
    ensures forall r :: r in Take(all, k) ==> r in all
  {
  }

  /** The results are hits of distinct owners in ascending order. An owner that
    * passes the filter has its nearest hit among them, unless the list is full of
    * other owners at least as near. */
  lemma OmittedOwnersAreNoNearer(
      live: nat -> Live, f: Filter, distance: seq<real> -> real, rows: seq<SnapshotVector>, k: nat, h: Hit)
    requires h in Scan(live, f, distance, rows)
    ensures var best := BestChunks(live, f, distance, rows, k);
            && DistinctOwners(best) && Ascending(DIST, best)
            && (forall r :: r in best ==> r in Scan(live, f, distance, rows))
            && (Covers(best, h) || FullBefore(best, k, h))
  {
    BestOfHits(Scan(live, f, distance, rows), k, h);
  }

  lemma BestOfHits(hits: seq<Hit>, k: nat, h: Hit)
    requires h in hits
    ensures var best := Take(FirstPerOwner(StableSort(DIST, hits)), k);
            && DistinctOwners(best) && Ascending(DIST, best)
            && (forall r :: r in best ==> r in hits)
            && (Covers(best, h) || FullBefore(best, k, h))
  {
    var sorted := StableSort(DIST, hits);
    SortMembers(DIST, hits);
    FirstIsDistinct(sorted);
    FirstAscends(sorted);
    FirstMembers(sorted);
    FirstCovers(sorted, h);
    TruncatedOrKept(FirstPerOwner(sorted), k, h);
    TakeKeeps(FirstPerOwner(sorted), k);
  }

  lemma {:induction false} FirstOfPrefix(s: seq<Hit>, k: nat)
    requires k <= |s|
    ensures FirstPerOwner(s[..k]) <= FirstPerOwner(s) && |FirstPerOwner(s[..k])| <= k
    decreases |s|
  {
    if s != [] {
      Snoc(s);
      FirstSnoc(s[..|s| - 1], s[|s| - 1]);
      if k < |s| {
        assert s[..|s| - 1][..k] == s[..k];
        FirstOfPrefix(s[..|s| - 1], k);
      } else {
        assert s[..k] == s;
        FirstOfPrefix(s[..|s| - 1], |s| - 1);
        assert s[..|s| - 1][..|s| - 1] == s[..|s| - 1];
      }
    }
  }

  /** A long file cannot crowd out other owners: the owners among the k nearest
    * chunks lead the k best owners. */
  lemma BestOwnersExtendNearestChunks(hits: seq<Hit>, k: nat)
    ensures FirstPerOwner(Take(StableSort(DIST, hits), k)) <= Take(FirstPerOwner(StableSort(DIST, hits)), k)
  {
    var s := StableSort(DIST, hits);
    if k <= |s| { FirstOfPrefix(s, k); } else { FirstOfPrefix(s, |s|); assert s[..|s|] == s; }
  }

  // ---------------------------------------------------------------- aggregation

  /** One owner with its best distance, and the chunk index when it is an observation. */
  datatype Best = Best(owner: Owner, dist: real, chunk: Option<int>)

  const BEST_DIST: Best -> real := (b: Best) => b.dist

  function BestOf(h: Hit): Best {
    Best(h.owner, h.dist, if h.chunkKind.ObservationChunk? then Some(h.chunkIndex) else None)
  }

  function BestEach(s: seq<Hit>): (r: seq<Best>)
    ensures |r| == |s| && forall i :: 0 <= i < |s| ==> r[i] == BestOf(s[i])
  {
    seq(|s|, i requires 0 <= i < |s| => BestOf(s[i]))
  }

  lemma BestEachOwners(s: seq<Hit>, o: Owner)
    ensures HasOwner(s, o) <==> exists i :: 0 <= i < |s| && BestEach(s)[i].owner == o
  {
    if HasOwner(s, o) {
      var i :| 0 <= i < |s| && s[i].owner == o;
      assert BestEach(s)[i].owner == o;
    }
  }

  /** On hits in ascending order, one row per owner with its nearest hit, in that order. */
  method AggregateOwners(hits: seq<Hit>, topK: nat) returns (out: seq<Best>)
    ensures out == Take(StableSort(BEST_DIST, BestEach(FirstPerOwner(hits))), topK)
    ensures Ascending(DIST, hits) ==> out == Take(BestEach(FirstPerOwner(hits)), topK)
  {
    out := [];
    for n := 0 to |hits|
      invariant out == BestEach(FirstPerOwner(hits[..n]))
    {
      var front, hit := hits[..n], hits[n];
      assert hits[..n + 1] == front + [hit];
      FirstSnoc(front, hit);
      FirstMembers(front);
      FirstOwners(front, hit.owner);
      BestEachOwners(FirstPerOwner(front), hit.owner);
      if !exists i :: 0 <= i < |out| && out[i].owner == hit.owner {
        out := out + [BestOf(hit)];
      }
    }
    assert hits[..|hits|] == hits;
    if Ascending(DIST, hits) {
      FirstAscends(hits);
      SortedIsFixed(BEST_DIST, out);
    }
    out := Take(StableSort(BEST_DIST, out), topK);
  }

  lemma {:induction false} FirstOwners(s: seq<Hit>, o: Owner)
    ensures HasOwner(FirstPerOwner(s), o) <==> HasOwner(s, o)
  {
    FirstMembers(s);
    if s != [] {
      Snoc(s);
      FirstOwners(s[..|s| - 1], o);
      FirstSnoc(s[..|s| - 1], s[|s| - 1]);
      if HasOwner(FirstPerOwner(s[..|s| - 1]), o) {
        var h :| h in FirstPerOwner(s[..|s| - 1]) && h.owner == o;
        assert h in FirstPerOwner(s);
      } else if HasOwner(s, o) {
        assert s[|s| - 1] in FirstPerOwner(s);
      }
    }
  }

  /** Aggregating the best-chunk search keeps its rows, one for one. */
  lemma AggregatingBestChunksKeepsRows(
      live: nat -> Live, f: Filter, distance: seq<real> -> real, rows: seq<SnapshotVector>, k: nat, topK: nat)
    ensures var best := BestChunks(live, f, distance, rows, k);
            Take(StableSort(BEST_DIST, BestEach(FirstPerOwner(best))), topK) == Take(BestEach(best), topK)
  {
    var hits := Scan(live, f, distance, rows);
    var sorted, best := StableSort(DIST, hits), BestChunks(live, f, distance, rows, k);
    SortMembers(DIST, hits);
    FirstIsDistinct(sorted);
    FirstAscends(sorted);
    DistinctIsFixed(best);
    SortedIsFixed(BEST_DIST, BestEach(best));
  }

  lemma {:induction false} DistinctIsFixed(s: seq<Hit>)
    requires DistinctOwners(s)
    ensures FirstPerOwner(s) == s
  {
    if s != [] {
      DistinctIsFixed(s[..|s| - 1]);
      Snoc(s);
    }
  }
}
