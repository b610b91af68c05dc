/** The vector store's two-way cache of entity names. Other processes rename and delete
  * entities behind its back, so every lookup asks the entity table and only then brings
  * the cache into line. */
module NameCache {

  import opened Wrappers

  type EntityId = int

  datatype Entity = Entity(name: string, typeName: string, flags: int)

  /** The entity table as one lookup finds it. Names need not be unique. */
  type Table = map<EntityId, Entity>

  predicate Live(t: Table, id: EntityId) { id in t && t[id].flags == 0 }

  ghost predicate Inverse(nameToId: map<string, EntityId>, idToName: map<EntityId, string>) {
    && (forall n :: n in nameToId ==> nameToId[n] in idToName && idToName[nameToId[n]] == n)
    && (forall i :: i in idToName ==> idToName[i] in nameToId && nameToId[idToName[i]] == i)
  }

  /** The pairs of a two-way cache after `id` and `name` are tied to each other: any pair
    * with either of them goes. */
  function Tied(m: map<EntityId, string>, id: EntityId, name: string): map<EntityId, string> {
    (map i | i in m && m[i] != name :: m[i])[id := name]
  }

  function Without(m: map<EntityId, string>, name: string): map<EntityId, string> {
    map i | i in m && m[i] != name :: m[i]
  }

  /** A removal that happens only if the key still maps to the given value. */
  function RemoveIf<K, V(==)>(m: map<K, V>, k: K, v: V): map<K, V> { if k in m && m[k] == v then m - {k} else m }

  /** `name` loses its id, then `id` its name, when tying the two displaces them. */
  function NamesAfter(n: map<string, EntityId>, m: map<EntityId, string>, id: EntityId, name: string)
    : map<string, EntityId>
  {
    if id in m && m[id] != name then RemoveIf(n, m[id], id) else n
  }

  function IdsAfter(n: map<string, EntityId>, m: map<EntityId, string>, id: EntityId, name: string)
    : map<EntityId, string>
  {
    if name in n && n[name] != id then RemoveIf(m, n[name], name) else m
  }

  lemma Untie(n: map<string, EntityId>, m: map<EntityId, string>, id: EntityId)
    requires Inverse(n, m) && id in m
    ensures Inverse(n - {m[id]}, m - {id})
  {
  }

  lemma Tie(n: map<string, EntityId>, m: map<EntityId, string>, id: EntityId, name: string)
    requires Inverse(n, m) && id !in m && name !in n
    ensures Inverse(n[name := id], m[id := name]) && Tied(m, id, name) == m[id := name]
  {
    assert forall i :: i in m ==> m[i] in n;
  }

  /** The two insertions with their removals replace, in both maps, the pairs of `id` and
    * of `name` by the one new pair. */
  lemma TieSteps(n: map<string, EntityId>, m: map<EntityId, string>, id: EntityId, name: string)
    requires Inverse(n, m)
    ensures var n' := NamesAfter(n, m, id, name);
            var m' := IdsAfter(n', m[id := name], id, name);
            Inverse(n'[name := id], m') && m' == Tied(m, id, name)
  {
    var n1, m1 := n, m;
    if id in m {
      Untie(n, m, id);
      n1, m1 := n - {m[id]}, m - {id};
    }
    var n2, m2 := n1, m1;
    if name in n1 {
      Untie(n1, m1, n1[name]);
      n2, m2 := n1 - {name}, m1 - {n1[name]};
    }
    Tie(n2, m2, id, name);
    var n' := NamesAfter(n, m, id, name);
    assert n'[name := id] == n2[name := id];
    assert IdsAfter(n', m[id := name], id, name) == m2[id := name];
    TiedDropsBoth(n, m, m2, id, name);
  }

  lemma TiedDropsBoth(n: map<string, EntityId>, m: map<EntityId, string>, m2: map<EntityId, string>, id: EntityId, name: string)
    requires Inverse(n, m)
    requires m2 == m - {id} - if name in n then {n[name]} else {}
    ensures m2[id := name] == Tied(m, id, name)
  {
    forall i | i in m && m[i] == name ensures name in n && n[name] == i {
      assert m[i] in n;
    }
  }

  datatype Query =
    | ById(id: EntityId)
    | ByName(name: string)
    | Invalidate(names: seq<string>)

  datatype Reply = Found(id: EntityId, name: string, typeName: Option<string>) | Missing | Done

  /** The reply is what the table holds. A name shared by several live entities may be
    * answered by any of them. */
  ghost predicate Truthful(t: Table, q: Query, r: Reply) {
    match q
    case ById(id) => r == if Live(t, id) then Found(id, t[id].name, Some(t[id].typeName)) else Missing
    case ByName(name) =>
      if exists id :: Live(t, id) && t[id].name == name
      then r.Found? && Live(t, r.id) && t[r.id].name == name && r.name == name
      else r == Missing
    case Invalidate(_) => r == Done
  }

  class Cache {
    var nameToId: map<string, EntityId>
    var idToName: map<EntityId, string>

    ghost predicate Valid() reads this { Inverse(nameToId, idToName) }

    /** The load at start-up, row by row; `id` is the table's primary key. */
    constructor Load(rows: seq<(EntityId, string)>)
      requires forall i, j :: 0 <= i < j < |rows| ==> rows[i].0 != rows[j].0
      ensures Valid() <==> forall i, j :: 0 <= i < j < |rows| ==> rows[i].1 != rows[j].1
      ensures forall id :: id in idToName <==> exists k :: 0 <= k < |rows| && rows[k].0 == id
      ensures forall k :: 0 <= k < |rows| ==> idToName[rows[k].0] == rows[k].1
    {
      nameToId, idToName := map[], map[];
      new;
      for k := 0 to |rows|
        invariant forall i :: 0 <= i < k ==> rows[i].0 in idToName && idToName[rows[i].0] == rows[i].1
        invariant forall i :: 0 <= i < k ==> rows[i].1 in nameToId
        invariant forall id :: id in idToName ==> exists i :: 0 <= i < k && rows[i].0 == id
        invariant forall n :: n in nameToId ==> exists i :: 0 <= i < k && rows[i] == (nameToId[n], n)
      {
        nameToId := nameToId[rows[k].1 := rows[k].0];
        idToName := idToName[rows[k].0 := rows[k].1];
      }
    }

    method CacheEntityName(id: EntityId, name: string)
      requires Valid()
      modifies this
      ensures Valid() && idToName == Tied(old(idToName), id, name)
    {
      TieSteps(nameToId, idToName, id, name);
      var previousName := if id in idToName then Some(idToName[id]) else None;
      idToName := idToName[id := name];
      if previousName.Some? && previousName.value != name {
        nameToId := RemoveIf(nameToId, previousName.value, id);
      }
      var previousId := if name in nameToId then Some(nameToId[name]) else None;
      nameToId := nameToId[name := id];
      if previousId.Some? && previousId.value != id {
        idToName := RemoveIf(idToName, previousId.value, name);
      }
    }

    method ForgetEntityName(name: string)
      requires Valid()
      modifies this
      ensures Valid() && idToName == Without(old(idToName), name)
    {
      assert forall i :: i in idToName && idToName[i] == name ==> name in nameToId && nameToId[name] == i;
      if name in nameToId {
        var id := nameToId[name];
        nameToId := nameToId - {name};
        idToName := RemoveIf(idToName, id, name);
      }
    }

    method EntityByName(t: Table, name: string) returns (r: Reply)
      requires Valid()
      modifies this
      ensures Valid() && Truthful(t, ByName(name), r)
      ensures idToName == if r.Found? then Tied(old(idToName), r.id, name) else Without(old(idToName), name)
    {
      if id :| id in t && t[id].name == name && t[id].flags == 0 {
        CacheEntityName(id, name);
        return Found(id, name, None);
      }
      ForgetEntityName(name);
      return Missing;
    }

    method EntityById(t: Table, id: EntityId) returns (r: Reply)
      requires Valid()
      modifies this
      ensures Valid() && Truthful(t, ById(id), r)
      ensures idToName == if r.Found? then Tied(old(idToName), id, r.name) else old(idToName) - {id}
    {
      if id in t && t[id].flags == 0 {
        CacheEntityName(id, t[id].name);
        return Found(id, t[id].name, Some(t[id].typeName));
      }
      if id in idToName {
        var name := idToName[id];
        idToName := idToName - {id};
        nameToId := RemoveIf(nameToId, name, id);
      }
      return Missing;
    }

    method InvalidateEntityCache(names: seq<string>)
      requires Valid()
      modifies this
      ensures Valid()
      ensures idToName == map i | i in old(idToName) && old(idToName)[i] !in names :: old(idToName)[i]
    {
      for k := 0 to |names|
        invariant Valid()
        invariant idToName == map i | i in old(idToName) && old(idToName)[i] !in names[..k] :: old(idToName)[i]
      {
        ForgetEntityName(names[k]);
        assert names[..k + 1] == names[..k] + [names[k]];
      }
      assert names[..|names|] == names;
    }

    /** Any sequence of lookups and invalidations, each met by a table that may have
      * changed in any way since the one before: the maps stay inverse to each other and
      * every reply is the truth of its own moment. */
    method Serve(queries: seq<Query>, tables: seq<Table>) returns (replies: seq<Reply>)
      requires Valid() && |tables| == |queries|
      modifies this
      ensures Valid() && |replies| == |queries|
      ensures forall k :: 0 <= k < |queries| ==> Truthful(tables[k], queries[k], replies[k])
    {
      replies := [];
      for k := 0 to |queries|
        invariant Valid() && |replies| == k
        invariant forall i :: 0 <= i < k ==> Truthful(tables[i], queries[i], replies[i])
      {
        var r: Reply;
        match queries[k] {
          case ById(id) => r := EntityById(tables[k], id);
          case ByName(name) => r := EntityByName(tables[k], name);
          case Invalidate(names) => InvalidateEntityCache(names); r := Done;
        }
        replies := replies + [r];
      }
    }
  }

  // ---------------------------------------------------------------- the cache as pairs

  /** Once every id has been looked up in an unchanging table with one live entity per
    * name, the cache holds that table's live names, whatever it held before. */
  lemma {:induction false} LookupsRepairTheCache(m: map<EntityId, string>, t: Table, ids: seq<EntityId>)
    requires forall i, j :: Live(t, i) && Live(t, j) && t[i].name == t[j].name ==> i == j
    ensures forall id :: id in ids ==>
              (id in LookedUp(m, t, ids) <==> Live(t, id)) && (Live(t, id) ==> LookedUp(m, t, ids)[id] == t[id].name)
  {
    if ids != [] {
      var n := |ids| - 1;
      LookupsRepairTheCache(m, t, ids[..n]);
      var before := LookedUp(m, t, ids[..n]);
      forall id | id in ids
        ensures (id in LookedUp(m, t, ids) <==> Live(t, id)) && (Live(t, id) ==> LookedUp(m, t, ids)[id] == t[id].name)
      {
        if id != ids[n] { assert id in ids[..n]; }
      }
    }
  }

  /** The pairs after looking up ids one after another. */
  function LookedUp(m: map<EntityId, string>, t: Table, ids: seq<EntityId>): map<EntityId, string> {
    if ids == [] then m else
    var n := |ids| - 1;
    var before := LookedUp(m, t, ids[..n]);
    if Live(t, ids[n]) then Tied(before, ids[n], t[ids[n]].name) else before - {ids[n]}
  }

  // ---------------------------------------------------------------- invalidation without the lock

  /** Where a lookup stands in caching what it found: before its first insertion, before
    * the removal of a displaced name, before its second insertion, before the removal of a
    * displaced id, or done. */
  datatype Lookup = Begin | DropName(previous: string) | Name | DropId(displaced: EntityId) | Cached

  /** Where an invalidation stands: before its removal of the name, or before the removal
    * of the id that name had. */
  datatype Invalidation = Waiting | Taken(id: EntityId) | Forgotten

  /** Both maps, and a lookup and an invalidation of one name under way. */
  datatype Race = Race(nameToId: map<string, EntityId>, idToName: map<EntityId, string>, lookup: Lookup, invalidation: Invalidation)

  /** The next map operation of the lookup, which holds the connection lock. */
  function LookupStep(r: Race, id: EntityId, name: string): Race {
    match r.lookup
    case Begin =>
      r.(idToName := r.idToName[id := name],
         lookup := if id in r.idToName && r.idToName[id] != name then DropName(r.idToName[id]) else Name)
    case DropName(previous) => r.(nameToId := RemoveIf(r.nameToId, previous, id), lookup := Name)
    case Name =>
      r.(nameToId := r.nameToId[name := id],
         lookup := if name in r.nameToId && r.nameToId[name] != id then DropId(r.nameToId[name]) else Cached)
    case DropId(displaced) => r.(idToName := RemoveIf(r.idToName, displaced, name), lookup := Cached)
    case Cached => r
  }

  /** The next map operation of the invalidation, which holds no lock. */
  function InvalidationStep(r: Race, name: string): Race {
    match r.invalidation
    case Waiting =>
      if name in r.nameToId
      then r.(nameToId := r.nameToId - {name}, invalidation := Taken(r.nameToId[name]))
      else r.(invalidation := Forgotten)
    case Taken(id) => r.(idToName := RemoveIf(r.idToName, id, name), invalidation := Forgotten)
    case Forgotten => r
  }

  datatype Turn = LookupTurn | InvalidationTurn

  /** A lookup of `id` and `name` beside an invalidation of `x`. */
  function Step(r: Race, id: EntityId, name: string, x: string, turn: Turn): Race {
    if turn.LookupTurn? then LookupStep(r, id, name) else InvalidationStep(r, x)
  }

  function Scheduled(r: Race, id: EntityId, name: string, x: string, schedule: seq<Turn>): Race
    decreases |schedule|
  {
    if schedule == [] then r else Scheduled(Step(r, id, name, x, schedule[0]), id, name, x, schedule[1..])
  }

  /** Both have begun and neither is done. */
  predicate BothUnderWay(r: Race) {
    !r.lookup.Begin? && !r.lookup.Cached? && !r.invalidation.Waiting? && !r.invalidation.Forgotten?
  }

  ghost predicate Overlap(r: Race, id: EntityId, name: string, x: string, schedule: seq<Turn>)
    decreases |schedule|
  {
    BothUnderWay(r) || (schedule != [] && Overlap(Step(r, id, name, x, schedule[0]), id, name, x, schedule[1..]))
  }

  /** The maps `n` and `m` of a cached pair, with the name or the id of the pair missing. */
  ghost predicate Shows(
      r: Race, n: map<string, EntityId>, m: map<EntityId, string>, id: EntityId, name: string, hasName: bool, hasId: bool)
  {
    && r.nameToId == (if hasName then n else n - {name})
    && r.idToName == (if hasId then m else m - {id})
  }

  /** Which halves of the pair are there, by where both stand and whether they overlapped. */
  ghost predicate Halves(r: Race, id: EntityId, overlapped: bool, hasName: bool, hasId: bool) {
    match (r.lookup, r.invalidation)
    case (Begin, Waiting) => !overlapped && hasName && hasId
    case (Name, Waiting) => !overlapped && hasName && hasId
    case (Cached, Waiting) => !overlapped && hasName && hasId
    case (Begin, Taken(i)) => !overlapped && i == id && !hasName && hasId
    case (Begin, Forgotten) => !overlapped && !hasName && !hasId
    case (Name, Taken(i)) => overlapped && i == id && !hasName && hasId
    case (Name, Forgotten) => !hasName && hasId == !overlapped
    case (Cached, Taken(i)) => i == id && hasName == overlapped && hasId
    case (Cached, Forgotten) => if overlapped then hasName && !hasId else hasName == hasId
    case _ => false
  }

  lemma HalfPair(
      n: map<string, EntityId>, m: map<EntityId, string>, id: EntityId, name: string, hasName: bool, hasId: bool)
    requires Inverse(n, m) && id in m && m[id] == name
    ensures Inverse(if hasName then n else n - {name}, if hasId then m else m - {id}) <==> hasName == hasId
  {
    Untie(n, m, id);
    assert hasName != hasId ==> name in n && n[name] == id;
  }

  lemma LookupTurnKeeps(
      r: Race, n: map<string, EntityId>, m: map<EntityId, string>, id: EntityId, name: string,
      overlapped: bool, hasName: bool, hasId: bool) returns (hasName': bool, hasId': bool)
    requires Inverse(n, m) && id in m && m[id] == name
    requires Shows(r, n, m, id, name, hasName, hasId) && Halves(r, id, overlapped, hasName, hasId)
    ensures var r' := LookupStep(r, id, name);
            && Shows(r', n, m, id, name, hasName', hasId')
            && Halves(r', id, overlapped || BothUnderWay(r'), hasName', hasId')
  {
    hasName' := hasName || r.lookup.Name?;
    hasId' := hasId || r.lookup.Begin?;
  }

  lemma InvalidationTurnKeeps(
      r: Race, n: map<string, EntityId>, m: map<EntityId, string>, id: EntityId, name: string,
      overlapped: bool, hasName: bool, hasId: bool) returns (hasName': bool, hasId': bool)
    requires Inverse(n, m) && id in m && m[id] == name
    requires Shows(r, n, m, id, name, hasName, hasId) && Halves(r, id, overlapped, hasName, hasId)
    ensures var r' := InvalidationStep(r, name);
            && Shows(r', n, m, id, name, hasName', hasId')
            && Halves(r', id, overlapped || BothUnderWay(r'), hasName', hasId')
  {
    hasName' := hasName && !r.invalidation.Waiting?;
    hasId' := hasId && !r.invalidation.Taken?;
  }

  lemma {:induction false} HalvesAtTheEnd(
      r: Race, n: map<string, EntityId>, m: map<EntityId, string>, id: EntityId, name: string,
      overlapped: bool, hasName: bool, hasId: bool, schedule: seq<Turn>) returns (hasName': bool, hasId': bool)
    requires Inverse(n, m) && id in m && m[id] == name
    requires Shows(r, n, m, id, name, hasName, hasId) && Halves(r, id, overlapped, hasName, hasId)
    requires BothUnderWay(r) ==> overlapped
    ensures var r' := Scheduled(r, id, name, name, schedule);
            && Shows(r', n, m, id, name, hasName', hasId')
            && Halves(r', id, overlapped || Overlap(r, id, name, name, schedule), hasName', hasId')
    decreases |schedule|
  {
    if schedule == [] {
      assert Overlap(r, id, name, name, schedule) == BothUnderWay(r);
      return hasName, hasId;
    }
    var next, rest := Step(r, id, name, name, schedule[0]), schedule[1..];
    var a, b;
    if schedule[0].LookupTurn? {
      a, b := LookupTurnKeeps(r, n, m, id, name, overlapped, hasName, hasId);
    } else {
      a, b := InvalidationTurnKeeps(r, n, m, id, name, overlapped, hasName, hasId);
    }
    var now := overlapped || BothUnderWay(next);
    assert Overlap(r, id, name, name, schedule) == (BothUnderWay(r) || Overlap(next, id, name, name, rest));
    assert BothUnderWay(next) ==> Overlap(next, id, name, name, rest);
    assert (overlapped || Overlap(r, id, name, name, schedule)) == (now || Overlap(next, id, name, name, rest));
    hasName', hasId' := HalvesAtTheEnd(next, n, m, id, name, now, a, b, rest);
    SameHalves(Scheduled(r, id, name, name, schedule), id,
               now || Overlap(next, id, name, name, rest), overlapped || Overlap(r, id, name, name, schedule), hasName', hasId');
  }

  lemma SameHalves(r: Race, id: EntityId, a: bool, b: bool, hasName: bool, hasId: bool)
    requires a == b && Halves(r, id, a, hasName, hasId)
    ensures Halves(r, id, b, hasName, hasId)
  {
  }

  /** The same pair, already cached: inverse if and only if the two do not overlap. */
  lemma CachedPairRace(
      n: map<string, EntityId>, m: map<EntityId, string>, id: EntityId, name: string, schedule: seq<Turn>)
    requires Inverse(n, m) && id in m && m[id] == name
    requires var end := Scheduled(Race(n, m, Begin, Waiting), id, name, name, schedule);
             end.lookup.Cached? && end.invalidation.Forgotten?
    ensures var start := Race(n, m, Begin, Waiting);
            var end := Scheduled(start, id, name, name, schedule);
            && (Inverse(end.nameToId, end.idToName) <==> !Overlap(start, id, name, name, schedule))
            && (Overlap(start, id, name, name, schedule) ==> end.nameToId == n && end.idToName == m - {id})
  {
    var start := Race(n, m, Begin, Waiting);
    var hasName, hasId := HalvesAtTheEnd(start, n, m, id, name, false, true, true, schedule);
    HalfPair(n, m, id, name, hasName, hasId);
  }

  // ---------------------------------------------------------------- the other races

  /** A lookup of `id` and `name` and an invalidation of `x` that start from `n` and `m`. */
  datatype Contest = Contest(n: map<string, EntityId>, m: map<EntityId, string>, id: EntityId, name: string, x: string)

  /** The one dangerous contest: the invalidated pair is the one the lookup finds cached. */
  predicate SamePair(c: Contest) { c.id in c.m && c.m[c.id] == c.name && c.x == c.name }

  /** The invalidated name is the one the lookup displaces. */
  predicate Displaces(c: Contest) { c.id in c.m && c.m[c.id] == c.x && c.x != c.name }

  /** The names once the displaced one is gone, the ids once the first insertion is made,
    * and the id that had a name at the start. */
  function LessName(c: Contest): map<string, EntityId> { NamesAfter(c.n, c.m, c.id, c.name) }

  function WithId(c: Contest): map<EntityId, string> { c.m[c.id := c.name] }

  function Holder(c: Contest, y: string): set<EntityId> { if y in c.n then {c.n[y]} else {} }

  /** The maps of the lookup on its own. */
  function AloneNames(c: Contest, l: Lookup): map<string, EntityId> {
    if l.Begin? || l.DropName? then c.n else if l.Name? then LessName(c) else LessName(c)[c.name := c.id]
  }

  function AloneIds(c: Contest, l: Lookup): map<EntityId, string> {
    if l.Begin? then c.m else if l.Cached? then IdsAfter(LessName(c), WithId(c), c.id, c.name) else WithId(c)
  }

  /** What a lookup remembers it has read at the start. */
  ghost predicate Remembers(c: Contest, l: Lookup) {
    && (l.DropName? ==> c.id in c.m && c.m[c.id] == l.previous != c.name)
    && (l.DropId? ==> c.name in c.n && c.n[c.name] == l.displaced != c.id)
  }

  /** Another name: the two do not touch each other's entries. */
  ghost predicate Apart(c: Contest, r: Race) {
    && Remembers(c, r.lookup)
    && r.nameToId == AloneNames(c, r.lookup) - (if r.invalidation.Waiting? then {} else {c.x})
    && r.idToName == AloneIds(c, r.lookup) - (if r.invalidation.Forgotten? then Holder(c, c.x) else {})
    && (r.invalidation.Taken? ==> c.x in c.n && c.n[c.x] == r.invalidation.id)
  }

  /** The displaced name: whoever comes second finds it gone. */
  ghost predicate Ousted(c: Contest, r: Race) {
    && Remembers(c, r.lookup)
    && (r.invalidation.Taken? ==> r.invalidation.id == c.id)
    && r.nameToId == (
         if r.invalidation.Waiting? && (r.lookup.Begin? || r.lookup.DropName?) then c.n
         else if r.lookup.DropId? || r.lookup.Cached? then (c.n - {c.x})[c.name := c.id]
         else c.n - {c.x})
    && r.idToName == (
         if r.lookup.Begin? then (if r.invalidation.Forgotten? then c.m - {c.id} else c.m)
         else if r.lookup.Cached? then WithId(c) - Holder(c, c.name)
         else WithId(c))
  }

  /** The name looked up, not cached with this id: an invalidation before the second
    * insertion does away with the old pair, one after it with the new. */
  ghost predicate Renewed(c: Contest, r: Race) {
    && Remembers(c, r.lookup)
    && match r.lookup
       case DropId(_) =>
         && (r.invalidation.Taken? ==> r.invalidation.id == c.id)
         && r.nameToId == (if r.invalidation.Waiting? then LessName(c)[c.name := c.id] else LessName(c) - {c.name})
         && r.idToName == (if r.invalidation.Forgotten? then WithId(c) - {c.id} else WithId(c))
       case Cached =>
         var tied, untied := LessName(c)[c.name := c.id], LessName(c) - {c.name};
         var ids := WithId(c) - Holder(c, c.name);
         (match r.invalidation
          case Waiting => r.nameToId == tied && r.idToName == ids
          case Taken(y) =>
            || (y == c.id && r.nameToId == untied && r.idToName == ids)
            || (c.name in c.n && y == c.n[c.name] && r.nameToId == tied && r.idToName == WithId(c))
          case Forgotten =>
            || (r.nameToId == untied && r.idToName == ids - {c.id})
            || (r.nameToId == tied && r.idToName == ids))
       case _ =>
         && (r.invalidation.Taken? ==> c.name in c.n && c.n[c.name] == r.invalidation.id)
         && r.nameToId == AloneNames(c, r.lookup) - (if r.invalidation.Waiting? then {} else {c.name})
         && r.idToName == AloneIds(c, r.lookup) - (if r.invalidation.Forgotten? then Holder(c, c.name) else {})
  }

  ghost predicate Safe(c: Contest, r: Race) {
    if c.x == c.name then Renewed(c, r) else if Displaces(c) then Ousted(c, r) else Apart(c, r)
  }

  lemma ApartFirst(c: Contest, r: Race)
    requires Inverse(c.n, c.m) && c.x != c.name && !Displaces(c) && Apart(c, r)
    requires r.lookup.Begin? || r.lookup.DropName?
    ensures Apart(c, LookupStep(r, c.id, c.name))
  {
  }

  lemma ApartSecond(c: Contest, r: Race)
    requires Inverse(c.n, c.m) && c.x != c.name && !Displaces(c) && Apart(c, r) && r.lookup.Name?
    ensures Apart(c, LookupStep(r, c.id, c.name))
  {
    assert c.name in LessName(c) <==> c.name in c.n;
    assert c.name in c.n ==> LessName(c)[c.name] == c.n[c.name];
  }

  lemma ApartLast(c: Contest, r: Race)
    requires Inverse(c.n, c.m) && c.x != c.name && !Displaces(c) && Apart(c, r) && r.lookup.DropId?
    ensures Apart(c, LookupStep(r, c.id, c.name))
  {
    var q := c.n[c.name];
    assert c.m[q] == c.name && c.name in LessName(c) && LessName(c)[c.name] == q;
    assert AloneIds(c, Cached) == WithId(c) - {q};
  }

  lemma ApartInvalidation(c: Contest, r: Race)
    requires Inverse(c.n, c.m) && c.x != c.name && !Displaces(c) && Apart(c, r)
    ensures Apart(c, InvalidationStep(r, c.x))
  {
    assert c.x in AloneNames(c, r.lookup) <==> c.x in c.n;
    assert c.x in c.n ==> AloneNames(c, r.lookup)[c.x] == c.n[c.x];
  }

  lemma OustedStep(c: Contest, r: Race, turn: Turn)
    requires Inverse(c.n, c.m) && Displaces(c) && Ousted(c, r)
    ensures Ousted(c, Step(r, c.id, c.name, c.x, turn))
  {
  }

  lemma RenewedFirst(c: Contest, r: Race)
    requires Inverse(c.n, c.m) && c.x == c.name && !SamePair(c) && Renewed(c, r)
    requires r.lookup.Begin? || r.lookup.DropName?
    ensures Renewed(c, LookupStep(r, c.id, c.name))
  {
  }

  lemma RenewedSecond(c: Contest, r: Race)
    requires Inverse(c.n, c.m) && c.x == c.name && !SamePair(c) && Renewed(c, r)
    requires r.lookup.Name? || r.lookup.DropId?
    ensures Renewed(c, LookupStep(r, c.id, c.name))
  {
  }

  lemma RenewedLookup(c: Contest, r: Race)
    requires Inverse(c.n, c.m) && c.x == c.name && !SamePair(c) && Renewed(c, r)
    ensures Renewed(c, LookupStep(r, c.id, c.name))
  {
    if r.lookup.Begin? || r.lookup.DropName? {
      RenewedFirst(c, r);
    } else if r.lookup.Name? || r.lookup.DropId? {
      RenewedSecond(c, r);
    }
  }

  lemma RenewedInvalidation(c: Contest, r: Race)
    requires Inverse(c.n, c.m) && c.x == c.name && !SamePair(c) && Renewed(c, r)
    ensures Renewed(c, InvalidationStep(r, c.x))
  {
  }

  lemma ApartStep(c: Contest, r: Race, turn: Turn)
    requires Inverse(c.n, c.m) && c.x != c.name && !Displaces(c) && Apart(c, r)
    ensures Apart(c, Step(r, c.id, c.name, c.x, turn))
  {
    if turn.InvalidationTurn? {
      ApartInvalidation(c, r);
    } else if r.lookup.Begin? || r.lookup.DropName? {
      ApartFirst(c, r);
    } else if r.lookup.Name? {
      ApartSecond(c, r);
    } else if r.lookup.DropId? {
      ApartLast(c, r);
    }
  }

  lemma {:induction false} SafeRun(c: Contest, r: Race, schedule: seq<Turn>)
    requires Inverse(c.n, c.m) && !SamePair(c) && Safe(c, r)
    ensures Safe(c, Scheduled(r, c.id, c.name, c.x, schedule))
    decreases |schedule|
  {
    if schedule != [] {
      if c.x == c.name {
        if schedule[0].LookupTurn? { RenewedLookup(c, r); } else { RenewedInvalidation(c, r); }
      } else if Displaces(c) {
        OustedStep(c, r, schedule[0]);
      } else {
        ApartStep(c, r, schedule[0]);
      }
      SafeRun(c, Step(r, c.id, c.name, c.x, schedule[0]), schedule[1..]);
    }
  }

  /** The maps of the lookup alone are inverse, with or without any pair of theirs. */
  lemma AloneEnd(c: Contest, i: EntityId)
    requires Inverse(c.n, c.m)
    ensures var names, ids := AloneNames(c, Cached), AloneIds(c, Cached);
            && Inverse(names, ids) && ids == Tied(c.m, c.id, c.name) && ids[c.id] == c.name
            && (i in ids ==> Inverse(names - {ids[i]}, ids - {i}))
  {
    TieSteps(c.n, c.m, c.id, c.name);
    if i in AloneIds(c, Cached) { Untie(AloneNames(c, Cached), AloneIds(c, Cached), i); }
  }

  lemma ApartEnd(c: Contest, r: Race)
    requires Inverse(c.n, c.m) && c.x != c.name && !Displaces(c) && Apart(c, r)
    requires r.lookup.Cached? && r.invalidation.Forgotten?
    ensures Inverse(r.nameToId, r.idToName)
  {
    if c.x in c.n {
      AloneEnd(c, c.n[c.x]);
      assert AloneIds(c, Cached)[c.n[c.x]] == c.x;
    } else {
      AloneEnd(c, c.id);
      assert r.nameToId == AloneNames(c, Cached);
    }
  }

  lemma OustedEnd(c: Contest, r: Race)
    requires Inverse(c.n, c.m) && Displaces(c) && Ousted(c, r)
    requires r.lookup.Cached? && r.invalidation.Forgotten?
    ensures Inverse(r.nameToId, r.idToName)
  {
    AloneEnd(c, c.id);
    assert r.nameToId == AloneNames(c, Cached) && r.idToName == AloneIds(c, Cached);
  }

  lemma RenewedEnd(c: Contest, r: Race)
    requires Inverse(c.n, c.m) && c.x == c.name && !SamePair(c) && Renewed(c, r)
    requires r.lookup.Cached? && r.invalidation.Forgotten?
    ensures Inverse(r.nameToId, r.idToName)
  {
    AloneEnd(c, c.id);
    var names, ids := AloneNames(c, Cached), AloneIds(c, Cached);
    assert ids == WithId(c) - Holder(c, c.name);
    assert LessName(c) - {c.name} == names - {c.name};
  }

  lemma SafeEnd(c: Contest, r: Race)
    requires Inverse(c.n, c.m) && !SamePair(c) && Safe(c, r)
    requires r.lookup.Cached? && r.invalidation.Forgotten?
    ensures Inverse(r.nameToId, r.idToName)
  {
    if c.x == c.name {
      RenewedEnd(c, r);
    } else if Displaces(c) {
      OustedEnd(c, r);
    } else {
      ApartEnd(c, r);
    }
  }

  /** Lookups run under the connection lock, invalidation does not. Whatever pairs are
    * cached, whatever is looked up and whatever name is invalidated, and whatever the
    * schedule of their map operations: once both are done, the maps are inverse unless the
    * lookup found its own pair cached, the invalidation was of that pair's name, and the
    * two were under way together. */
  lemma RaceIsSafeIff(
      n: map<string, EntityId>, m: map<EntityId, string>, id: EntityId, name: string, x: string, schedule: seq<Turn>)
    requires Inverse(n, m)
    requires var end := Scheduled(Race(n, m, Begin, Waiting), id, name, x, schedule);
             end.lookup.Cached? && end.invalidation.Forgotten?
    ensures var start := Race(n, m, Begin, Waiting);
            var end := Scheduled(start, id, name, x, schedule);
            Inverse(end.nameToId, end.idToName) <==>
              !(id in m && m[id] == name && x == name && Overlap(start, id, name, x, schedule))
  {
    var c, start := Contest(n, m, id, name, x), Race(n, m, Begin, Waiting);
    if SamePair(c) {
      CachedPairRace(n, m, id, name, schedule);
    } else {
      SafeRun(c, start, schedule);
      SafeEnd(c, Scheduled(start, id, name, x, schedule));
    }
  }

  /** Such a schedule exists for every cached pair, and leaves a name without its id. */
  lemma RacingInvalidationBreaksThePair(
      n: map<string, EntityId>, m: map<EntityId, string>, id: EntityId, name: string)
    requires Inverse(n, m) && id in m && m[id] == name
    ensures var start := Race(n, m, Begin, Waiting);
            var schedule := [LookupTurn, InvalidationTurn, LookupTurn, InvalidationTurn];
            var end := Scheduled(start, id, name, name, schedule);
            && end.lookup.Cached? && end.invalidation.Forgotten? && Overlap(start, id, name, name, schedule)
            && name in end.nameToId && end.nameToId[name] == id && id !in end.idToName
  {
    var r0 := Race(n, m, Begin, Waiting);
    var s0 := [LookupTurn, InvalidationTurn, LookupTurn, InvalidationTurn];
    var r1 := LookupStep(r0, id, name);
    var r2 := InvalidationStep(r1, name);
    var r3 := LookupStep(r2, id, name);
    var s1, s2 := [InvalidationTurn, LookupTurn, InvalidationTurn], [LookupTurn, InvalidationTurn];
    assert s0[1..] == s1 && s1[1..] == s2 && s2[1..] == [InvalidationTurn];
    assert Scheduled(r3, id, name, name, [InvalidationTurn]) == InvalidationStep(r3, name);
    assert Scheduled(r2, id, name, name, s2) == InvalidationStep(r3, name);
    assert Overlap(r2, id, name, name, s2);
    assert Overlap(r1, id, name, name, s1);
    CachedPairRace(n, m, id, name, s0);
  }

  /** Left alone, the lookup's map operations are those of caching a name. */
  lemma LookupAloneTies(n: map<string, EntityId>, m: map<EntityId, string>, id: EntityId, name: string)
    requires Inverse(n, m)
    ensures var r := Race(n, m, Begin, Waiting);
            var r1 := LookupStep(r, id, name);
            var r2 := if r1.lookup.DropName? then LookupStep(r1, id, name) else r1;
            var r3 := LookupStep(r2, id, name);
            var r4 := if r3.lookup.DropId? then LookupStep(r3, id, name) else r3;
            r4.lookup.Cached? && Inverse(r4.nameToId, r4.idToName) && r4.idToName == Tied(m, id, name)
  {
    TieSteps(n, m, id, name);
  }
}
