/** The waitlist of refused would-be users and its promotion into runtime principals.
  * The two tables are maps; each method is one hold of the store's connection. */
module Waitlist {

  import opened Wrappers
  import opened Integers

  datatype Key = Key(iss: string, sub: string)

  datatype Entry = Entry(name: string, firstSeen: int, lastSeen: int)

  datatype Principal = Principal(name: string, title: Option<string>, scopes: seq<string>, created: int, updated: int)

  datatype Error = DuplicateKey

  type Table = map<Key, Entry>

  const WAITLIST_CAP := 25

  // ---------------------------------------------------------------- recording a refusal

  /** The upsert: a repeat sighting keeps the first one's time. */
  function Sighted(w: Table, k: Key, name: string, now: int): Table {
    w[k := Entry(name, if k in w then w[k].firstSeen else now, now)]
  }

  predicate Expired(e: Entry, ttl: int, now: int) { ttl > 0 && e.firstSeen < SaturatingSub(now, ttl) }

  function Unexpired(w: Table, ttl: int, now: int): Table {
    map k | k in w && !Expired(w[k], ttl, now) :: w[k]
  }

  /** The eviction order: by last sighting, then by first. */
  predicate NoMoreRecent(a: Entry, b: Entry) {
    a.lastSeen < b.lastSeen || (a.lastSeen == b.lastSeen && a.firstSeen <= b.firstSeen)
  }

  ghost predicate VictimsAreOldest(before: Table, after: Table) {
    forall v, s :: v in before && v !in after && s in after ==> NoMoreRecent(before[v], after[s])
  }

  ghost predicate Within(after: Table, before: Table) {
    forall k :: k in after ==> k in before && after[k] == before[k]
  }

  /** `after` is `before` cut down to the cap. Which of several equally old entries go is
    * left open, as the statement leaves it. */
  ghost predicate Trimmed(before: Table, after: Table) {
    && Within(after, before)
    && (if |before| > WAITLIST_CAP then |after| == WAITLIST_CAP else after == before)
    && VictimsAreOldest(before, after)
  }

  /** One recorded refusal; `now` is read for the upsert and `later` for the eviction. */
  ghost predicate Recorded(w: Table, k: Key, name: string, ttl: int, now: int, later: int, w': Table) {
    Trimmed(Unexpired(Sighted(w, k, name, now), ttl, later), w')
  }

  /** Approving moves the entry, or changes neither table. */
  function Approved(w: Table, principals: map<Key, Principal>, k: Key, scopes: seq<string>, now: int)
    : (Table, map<Key, Principal>, Result<Option<Principal>, Error>)
  {
    if k !in w then (w, principals, Ok(None))
    else if k in principals then (w, principals, Err(DuplicateKey))
    else
      var p := Principal(w[k].name, None, scopes, now, now);
      (w - {k}, principals[k := p], Ok(Some(p)))
  }

  method OldestEntry(w: Table) returns (oldest: Key)
    requires w != map[]
    ensures oldest in w && forall k :: k in w ==> NoMoreRecent(w[oldest], w[k])
  {
    oldest :| oldest in w;
    var left := w.Keys - {oldest};
    while left != {}
      invariant left <= w.Keys && oldest in w
      invariant forall k :: k in w && k !in left ==> NoMoreRecent(w[oldest], w[k])
      decreases left
    {
      var k :| k in left;
      if !NoMoreRecent(w[oldest], w[k]) { oldest := k; }
      left := left - {k};
    }
  }

  lemma DropOldest(before: Table, now: Table, oldest: Key)
    requires Within(now, before) && VictimsAreOldest(before, now)
    requires oldest in now && forall k :: k in now ==> NoMoreRecent(now[oldest], now[k])
    ensures Within(now - {oldest}, before) && VictimsAreOldest(before, now - {oldest})
    ensures |now - {oldest}| == |now| - 1
  {
    assert (now - {oldest}).Keys == now.Keys - {oldest};
    assert |(now - {oldest}).Keys| == |now.Keys| - 1;
  }

  class PrincipalsStore {
    var waitlist: Table
    var principals: map<Key, Principal>

    constructor ()
      ensures waitlist == map[] && principals == map[]
    {
      waitlist, principals := map[], map[];
    }

    method RecordWaitlist(k: Key, name: string, ttl: int, now: int, later: int)
      modifies this`waitlist
      ensures Recorded(old(waitlist), k, name, ttl, now, later, waitlist)
    {
      waitlist := Sighted(waitlist, k, name, now);
      Evict(ttl, later);
    }

    method Evict(ttl: int, now: int)
      modifies this`waitlist
      ensures Trimmed(Unexpired(old(waitlist), ttl, now), waitlist)
    {
      if ttl > 0 {
        waitlist := map k | k in waitlist && waitlist[k].firstSeen >= SaturatingSub(now, ttl) :: waitlist[k];
      }
      ghost var before := Unexpired(old(waitlist), ttl, now);
      assert waitlist == before;
      while |waitlist| > WAITLIST_CAP
        invariant Within(waitlist, before) && VictimsAreOldest(before, waitlist)
        invariant waitlist == before || WAITLIST_CAP <= |waitlist| < |before|
        decreases |waitlist|
      {
        var oldest := OldestEntry(waitlist);
        DropOldest(before, waitlist, oldest);
        waitlist := waitlist - {oldest};
      }
    }

    method DismissWaitlist(k: Key) returns (found: bool)
      modifies this`waitlist
      ensures waitlist == old(waitlist) - {k} && found == (k in old(waitlist))
    {
      found := k in waitlist;
      waitlist := waitlist - {k};
    }

    method Approve(k: Key, scopes: seq<string>, now: int) returns (r: Result<Option<Principal>, Error>)
      modifies this
      ensures (waitlist, principals, r) == Approved(old(waitlist), old(principals), k, scopes, now)
    {
      if k !in waitlist { return Ok(None); }
      if k in principals { return Err(DuplicateKey); }
      var p := Principal(waitlist[k].name, None, scopes, now, now);
      principals := principals[k := p];
      waitlist := waitlist - {k};
      return Ok(Some(p));
    }
  }

  // ---------------------------------------------------------------- one refusal

  /** The waitlist under a clock that never runs backwards, last read at `clock`. */
  ghost predicate Orderly(w: Table, clock: int) {
    && |w| <= WAITLIST_CAP
    && forall k :: k in w ==> w[k].firstSeen <= w[k].lastSeen <= clock
  }

  /** A recorded refusal leaves an orderly list: within the cap, none expired, first
    * sightings as they were, and what the cap evicts no more recent than what stays. */
  lemma RefusalLeavesOrder(w: Table, k: Key, name: string, ttl: int, now: int, later: int, w': Table)
    requires forall x :: x in w ==> w[x].firstSeen <= w[x].lastSeen <= now
    requires now <= later && Recorded(w, k, name, ttl, now, later, w')
    ensures Orderly(w', later)
    ensures ttl > 0 ==> forall x :: x in w' ==> w'[x].firstSeen >= SaturatingSub(later, ttl)
    ensures forall x :: x in w' && x in w ==> w'[x].firstSeen == w[x].firstSeen
    ensures forall x :: x in w' ==> x in w || x == k
    ensures k in w' ==> w'[k].lastSeen == now && w'[k].name == name
    ensures forall x :: x in w' && x != k ==> w'[x] == w[x]
    ensures forall v, s :: v in w && v !in w' && s in w' && v != k && !Expired(w[v], ttl, later) ==> NoMoreRecent(w[v], w'[s])
  {
    var sighted := Sighted(w, k, name, now);
    var kept := Unexpired(sighted, ttl, later);
    assert forall x :: x in w && x != k ==> sighted[x] == w[x];
    assert forall x :: x in w' ==> x in kept && w'[x] == kept[x] && kept[x] == sighted[x];
    forall v, s | v in w && v !in w' && s in w' && v != k && !Expired(w[v], ttl, later)
      ensures NoMoreRecent(w[v], w'[s])
    {
      assert v in kept;
    }
  }

  /** With a strictly increasing clock the entry just recorded stays exactly when its
    * first sighting is within the time to live. */
  lemma NewestStaysIff(w: Table, k: Key, name: string, ttl: int, now: int, later: int, w': Table)
    requires forall x :: x in w ==> w[x].lastSeen < now
    requires Recorded(w, k, name, ttl, now, later, w')
    ensures k in w' <==> ttl <= 0 || (if k in w then w[k].firstSeen else now) >= SaturatingSub(later, ttl)
  {
    var kept := Unexpired(Sighted(w, k, name, now), ttl, later);
    assert forall s :: s in w' && s != k ==> w'[s].lastSeen < now;
    if k in kept && k !in w' { assert false; }
  }

  /** Two sightings in one microsecond can cost the newcomer its place: a full list seen at
    * the same instant may be left exactly as it was. */
  lemma TieMayDropTheNewest(w: Table, k: Key, name: string, now: int)
    requires |w| == WAITLIST_CAP && k !in w
    requires forall x :: x in w ==> w[x].firstSeen == now && w[x].lastSeen == now
    ensures Recorded(w, k, name, 0, now, now, w)
  {
    var sighted := Sighted(w, k, name, now);
    assert Unexpired(sighted, 0, now) == sighted;
    assert sighted.Keys == w.Keys + {k};
    assert |sighted.Keys| == WAITLIST_CAP + 1;
  }

  // ---------------------------------------------------------------- who is sure to stay

  /** The other entries at least as recent as `k`'s. */
  ghost function Rivals(w: Table, k: Key): set<Key>
    requires k in w
  {
    set x | x in w && x != k && NoMoreRecent(w[k], w[x])
  }

  /** Too few rivals to fill the list: no trimming evicts `k`. */
  lemma FewRivalsKeep(before: Table, after: Table, k: Key)
    requires Trimmed(before, after) && k in before && |Rivals(before, k)| < WAITLIST_CAP
    ensures k in after
  {
    if k !in after {
      assert after.Keys <= Rivals(before, k);
      SubsetSize(after.Keys, Rivals(before, k));
      assert false;
    }
  }

  lemma SubsetSize<T>(small: set<T>, big: set<T>)
    requires small <= big
    ensures |small| <= |big|
  {
    assert big == small + (big - small);
  }

  lemma {:induction false} SomeOldest(w: Table, keys: set<Key>) returns (oldest: Key)
    requires keys != {} && keys <= w.Keys
    ensures oldest in keys && forall x :: x in keys ==> NoMoreRecent(w[oldest], w[x])
    decreases |keys|
  {
    var k :| k in keys;
    if keys == {k} {
      return k;
    }
    var other := SomeOldest(w, keys - {k});
    oldest := if NoMoreRecent(w[k], w[other]) then k else other;
  }

  /** Dropping an oldest entry at a time reaches a trimmed list. */
  lemma {:induction false} TrimOn(before: Table, now: Table) returns (after: Table)
    requires Within(now, before) && VictimsAreOldest(before, now)
    requires now == before || WAITLIST_CAP <= |now| < |before|
    ensures Trimmed(before, after) && Within(after, now)
    decreases |now|
  {
    if |now| <= WAITLIST_CAP {
      return now;
    }
    var oldest := SomeOldest(now, now.Keys);
    DropOldest(before, now, oldest);
    after := TrimOn(before, now - {oldest});
  }

  /** Enough rivals to fill the list: dropping entries before they are all that is left
    * comes to `k` at last. */
  lemma {:induction false} ManyRivalsEvict(before: Table, now: Table, k: Key) returns (after: Table)
    requires k in now && Within(now, before) && VictimsAreOldest(before, now)
    requires now == before || |now| < |before|
    requires |Rivals(before, k)| >= WAITLIST_CAP && Rivals(before, k) <= now.Keys
    ensures Trimmed(before, after) && k !in after
    decreases |now|
  {
    var rivals := Rivals(before, k);
    SubsetSize(rivals + {k}, now.Keys);
    assert |rivals + {k}| == |rivals| + 1;
    var oldest := SomeOldest(now, now.Keys);
    if NoMoreRecent(now[k], now[oldest]) {
      DropOldest(before, now, k);
      after := TrimOn(before, now - {k});
    } else {
      DropOldest(before, now, oldest);
      after := ManyRivalsEvict(before, now - {oldest}, k);
    }
  }

  /** Whatever the ties: trimming is sure to keep an entry if and only if fewer than 25
    * others are at least as recent. */
  lemma SureToStayIff(before: Table, k: Key)
    requires k in before
    ensures (forall after :: Trimmed(before, after) ==> k in after) <==> |Rivals(before, k)| < WAITLIST_CAP
  {
    if |Rivals(before, k)| < WAITLIST_CAP {
      forall after | Trimmed(before, after) ensures k in after {
        FewRivalsKeep(before, after, k);
      }
    } else {
      var after := ManyRivalsEvict(before, before, k);
      assert Trimmed(before, after) && k !in after;
    }
  }

  /** So a recorded refusal is sure to leave an entry in place, the newcomer's or any other,
    * if and only if it has not expired and fewer than 25 others that have not are at least
    * as recent, under any clock. */
  lemma RefusalKeepsIff(w: Table, k: Key, name: string, ttl: int, now: int, later: int, x: Key)
    ensures var kept := Unexpired(Sighted(w, k, name, now), ttl, later);
            (forall w' :: Recorded(w, k, name, ttl, now, later, w') ==> x in w')
            <==> x in kept && |Rivals(kept, x)| < WAITLIST_CAP
  {
    var kept := Unexpired(Sighted(w, k, name, now), ttl, later);
    if x in kept {
      SureToStayIff(kept, x);
      assert forall w' :: Recorded(w, k, name, ttl, now, later, w') <==> Trimmed(kept, w');
    } else {
      var after := TrimOn(kept, kept);
      assert Recorded(w, k, name, ttl, now, later, after);
    }
  }

  // ---------------------------------------------------------------- runs

  datatype Store = Store(waitlist: Table, principals: map<Key, Principal>, clock: int)

  datatype Action =
    | Record(key: Key, name: string, ttl: int, now: int, later: int)
    | Approve(key: Key, scopes: seq<string>, now: int)
    | Dismiss(key: Key)
    | Admin(principals: map<Key, Principal>)

  /** One step under a clock that never runs backwards. Direct administration of the
    * principals may do anything to their table. */
  ghost predicate Step(s: Store, a: Action, s': Store) {
    match a
    case Record(k, name, ttl, now, later) =>
      && s.clock <= now <= later == s'.clock
      && Recorded(s.waitlist, k, name, ttl, now, later, s'.waitlist) && s'.principals == s.principals
    case Approve(k, scopes, now) =>
      && s.clock <= now == s'.clock
      && var r := Approved(s.waitlist, s.principals, k, scopes, now); s'.waitlist == r.0 && s'.principals == r.1
    case Dismiss(k) => s' == s.(waitlist := s.waitlist - {k})
    case Admin(principals) => s' == s.(principals := principals)
  }

  ghost predicate IsRun(states: seq<Store>, actions: seq<Action>) {
    && |states| == |actions| + 1
    && states[0].waitlist == map[]
    && forall i :: 0 <= i < |actions| ==> Step(states[i], actions[i], states[i + 1])
  }

  lemma RemovalSize(w: Table, k: Key)
    ensures (w - {k}).Keys == w.Keys - {k}
    ensures |w - {k}| == if k in w then |w| - 1 else |w|
  {
    assert |(w - {k}).Keys| == |w.Keys - {k}|;
  }

  lemma StepOrderly(s: Store, a: Action, s': Store)
    requires Orderly(s.waitlist, s.clock) && Step(s, a, s')
    ensures Orderly(s'.waitlist, s'.clock) && s.clock <= s'.clock
    ensures forall x :: x in s.waitlist && x in s'.waitlist ==> s'.waitlist[x].firstSeen == s.waitlist[x].firstSeen
  {
    match a
    case Record(k, name, ttl, now, later) =>
      RefusalLeavesOrder(s.waitlist, k, name, ttl, now, later, s'.waitlist);
    case Approve(k, _, _) => RemovalSize(s.waitlist, k);
    case Dismiss(k) => RemovalSize(s.waitlist, k);
    case Admin(_) =>
  }

  /** Every state of every run is orderly. */
  lemma {:induction false} RunsStayOrderly(states: seq<Store>, actions: seq<Action>, i: nat)
    requires IsRun(states, actions) && i < |states|
    ensures Orderly(states[i].waitlist, states[i].clock)
  {
    if i > 0 {
      RunsStayOrderly(states, actions, i - 1);
      StepOrderly(states[i - 1], actions[i - 1], states[i]);
    }
  }

  /** The time to live runs from the first attempt: however often a user is refused
    * again, the first sighting stands for as long as the entry does. */
  lemma {:induction false} FirstSightingStands(states: seq<Store>, actions: seq<Action>, k: Key, i: nat, j: nat)
    requires IsRun(states, actions) && i <= j < |states|
    requires forall n :: i <= n <= j ==> k in states[n].waitlist
    ensures k in states[i].waitlist && k in states[j].waitlist
    ensures states[j].waitlist[k].firstSeen == states[i].waitlist[k].firstSeen
    decreases j
  {
    if i < j {
      FirstSightingStands(states, actions, k, i, j - 1);
      SightingStands(states, actions, k, j - 1);
    }
  }

  lemma SightingStands(states: seq<Store>, actions: seq<Action>, k: Key, i: nat)
    requires IsRun(states, actions) && i < |actions|
    requires k in states[i].waitlist && k in states[i + 1].waitlist
    ensures states[i + 1].waitlist[k].firstSeen == states[i].waitlist[k].firstSeen
  {
    RunsStayOrderly(states, actions, i);
    var s, a, s' := states[i], actions[i], states[i + 1];
    assert Step(s, a, s');
    StepOrderly(s, a, s');
  }

  lemma AdditionSize(ps: map<Key, Principal>, k: Key, p: Principal)
    requires k !in ps
    ensures ps[k := p].Keys == ps.Keys + {k} && |ps[k := p]| == |ps| + 1
  {
    assert |ps[k := p].Keys| == |ps.Keys| + 1;
  }

  /** Approving conserves keys: it moves one from the list to the principals, keeping the
    * name, or fails and changes neither table; and it moves one exactly when the key is
    * listed and not yet a principal. */
  lemma ApprovalConserves(w: Table, ps: map<Key, Principal>, k: Key, scopes: seq<string>, now: int)
    ensures var (w', ps', r) := Approved(w, ps, k, scopes, now);
            && w'.Keys + ps'.Keys == w.Keys + ps.Keys
            && |w'| + |ps'| == |w| + |ps|
            && (forall x :: x != k ==> (x in w' <==> x in w) && (x in ps' <==> x in ps))
            && (r.Ok? && r.value.Some? <==> k in w && k !in ps)
            && (r.Ok? && r.value.Some? ==>
                  k !in w' && k in ps' && ps'[k] == r.value.value && ps'[k].name == w[k].name)
            && (!(r.Ok? && r.value.Some?) ==> w' == w && ps' == ps)
  {
    if k in w && k !in ps {
      RemovalSize(w, k);
      AdditionSize(ps, k, Principal(w[k].name, None, scopes, now, now));
    }
  }
}
