/** The upstream login protocol: authorize, callback, consent.
  *
  * The store lock is released between the steps of a callback, so a login row
  * travels through the callback's hands while other requests run. Each action
  * below is what happens under one hold of the lock, or one answer of the
  * provider. An action whose guard does not hold leaves the machine as it is. */
module Login {
  import opened Wrappers

  type Token = nat
  type Human = string
  type Scope = string

  const MAX_REQUESTED_SCOPES := 16
  const MAX_APPROVED_SCOPES := 16
  const LOGIN_TTL_US := 10 * 60 * 1_000_000

  datatype Row = Row(
    state: Token, client: string, redirect: string, scopes: seq<Scope>, csrf: Token,
    principal: Option<Human>, expires: int)

  /** Where a callback stands with the row it took. */
  datatype Hand =
    | Exchanging(row: Row)
    | Returning(row: Row)
    | Naming(row: Row)

  datatype Code = Code(state: Token, human: Human, scopes: seq<Scope>, client: string, redirect: string)

  /** What the callback learned about one login: the human and the scopes held. */
  datatype Naming = Learned(human: Human, held: set<Scope>)

  /** What the run has done: the rows that were authorized, the logins whose
    * upstream code was spent, and what was learned of them. */
  datatype Past = Past(issued: map<Token, Row>, exchanged: seq<Token>, learned: map<Token, Naming>)

  /** The table of logins, the rows in the hands of callbacks, and every
    * authorization code that was minted. */
  datatype Machine = Machine(store: map<Token, Row>, hands: map<nat, Hand>, past: Past, codes: seq<Code>)

  datatype Action =
    | Authorize(row: Row, now: int, storeOk: bool)
    | Take(callback: nat, state: Token, now: int)
    | ExchangeFails(callback: nat)
    | ExchangeRefuses(callback: nat)
    | ExchangeNames(callback: nat, human: Human, held: set<Scope>)
    | PutBack(callback: nat, storeOk: bool)
    | Approve(state: Token, csrf: Token, approved: seq<Scope>, now: int, storeOk: bool)
    | Deny(state: Token, csrf: Token, now: int, storeOk: bool)
    | Sweep(now: int)
    | RevokePrincipal(human: Human)

  /** The scopes a human may be offered: asked for and held, each once, in the
    * order of the request. */
  function Offered(requested: seq<Scope>, held: set<Scope>): (offered: seq<Scope>)
    ensures forall s :: s in offered <==> s in requested && s in held
    ensures forall i, j :: 0 <= i < j < |offered| ==> offered[i] != offered[j]
  {
    if requested == [] then [] else
      var n := |requested| - 1;
      var front, last := Offered(requested[..n], held), requested[n];
      assert forall s :: s in requested <==> s in requested[..n] || s == last;
      if last in held && last !in front then front + [last] else front
  }

  /** The grant keeps the offered order and drops what was not approved. */
  function Granted(offered: seq<Scope>, approved: seq<Scope>): (granted: seq<Scope>)
    ensures forall s :: s in granted <==> s in offered && s in approved
  {
    if offered == [] then []
    else if offered[0] in approved then [offered[0]] + Granted(offered[1..], approved)
    else Granted(offered[1..], approved)
  }

  /** DELETE ... RETURNING: an expired row is never returned. */
  predicate Takes(m: Machine, state: Token, now: int) { state in m.store && m.store[state].expires > now }

  /** INSERT on the primary key, refused when the row is there or the store fails. */
  function Inserted(store: map<Token, Row>, row: Row, storeOk: bool): map<Token, Row> {
    if storeOk && row.state !in store then store[row.state := row] else store
  }

  predicate ValidRequest(m: Machine, row: Row, now: int) {
    && row.state !in m.past.issued
    && 0 < |row.scopes| <= MAX_REQUESTED_SCOPES
    && row.principal.None?
    && row.expires == now + LOGIN_TTL_US
  }

  datatype Decision = UnknownLogin | BadCsrf | NotAuthenticated | NotOffered | NothingApproved | Accepted

  function Decide(m: Machine, state: Token, csrf: Token, approved: seq<Scope>, now: int): Decision {
    if !Takes(m, state, now) then UnknownLogin else
    var row := m.store[state];
    if csrf != row.csrf then BadCsrf
    else if row.principal.None? then NotAuthenticated
    else if exists s :: s in approved && s !in row.scopes then NotOffered
    else if Granted(row.scopes, approved) == [] then NothingApproved
    else Accepted
  }

  /** A refused decision takes the row and puts it back under the same lock. */
  function Restored(m: Machine, state: Token, storeOk: bool): Machine
    requires state in m.store
  {
    m.(store := Inserted(m.store - {state}, m.store[state], storeOk))
  }

  function Issued(p: Past, row: Row): Past { p.(issued := p.issued[row.state := row]) }

  function Spent(p: Past, state: Token): Past { p.(exchanged := p.exchanged + [state]) }

  function Learnt(p: Past, state: Token, n: Naming): Past {
    Past(p.issued, p.exchanged + [state], p.learned[state := n])
  }

  function CodeFor(row: Row, approved: seq<Scope>): Code
    requires row.principal.Some?
  {
    Code(row.state, row.principal.value, Granted(row.scopes, approved), row.client, row.redirect)
  }

  function Apply(m: Machine, a: Action): Machine {
    match a
    case Authorize(row, now, storeOk) =>
      if ValidRequest(m, row, now) && storeOk
      then m.(store := m.store[row.state := row], past := Issued(m.past, row)) else m
    case Take(cb, state, now) =>
      if cb in m.hands || !Takes(m, state, now) then m
      else m.(store := m.store - {state}, hands := m.hands[cb := Taken(m.store[state])])
    case ExchangeFails(cb) =>
      if cb in m.hands && m.hands[cb].Exchanging?
      then m.(hands := m.hands[cb := Returning(m.hands[cb].row)]) else m
    case ExchangeRefuses(cb) =>
      if cb in m.hands && m.hands[cb].Exchanging?
      then m.(hands := m.hands - {cb}, past := Spent(m.past, m.hands[cb].row.state)) else m
    case ExchangeNames(cb, human, held) =>
      if cb !in m.hands || !m.hands[cb].Exchanging? then m else
      var row := m.hands[cb].row;
      var offered := Offered(row.scopes, held);
      m.(past := Learnt(m.past, row.state, Learned(human, held)),
         hands := if offered == [] then m.hands - {cb}
                  else m.hands[cb := Naming(row.(principal := Some(human), scopes := offered))])
    case PutBack(cb, storeOk) =>
      if cb !in m.hands || m.hands[cb].Exchanging? then m
      else m.(store := Inserted(m.store, m.hands[cb].row, storeOk), hands := m.hands - {cb})
    case Approve(state, csrf, approved, now, storeOk) =>
      if |approved| > MAX_APPROVED_SCOPES then m else
      var d := Decide(m, state, csrf, approved, now);
      if d == UnknownLogin then m
      else if d != Accepted then Restored(m, state, storeOk)
      else m.(store := m.store - {state},
              codes := if storeOk then m.codes + [CodeFor(m.store[state], approved)] else m.codes)
    case Deny(state, csrf, now, storeOk) =>
      var d := Decide(m, state, csrf, [], now);
      if d == UnknownLogin then m
      else if d == BadCsrf || d == NotAuthenticated then Restored(m, state, storeOk)
      else m.(store := m.store - {state})
    case Sweep(now) => m.(store := map s | s in m.store && m.store[s].expires > now :: m.store[s])
    case RevokePrincipal(human) =>
      m.(store := map s | s in m.store && m.store[s].principal != Some(human) :: m.store[s])
  }

  /** A row that already names its human goes back without an exchange. */
  function Taken(row: Row): Hand { if row.principal.Some? then Returning(row) else Exchanging(row) }

  function Run(m: Machine, actions: seq<Action>): Machine
    decreases |actions|
  {
    if actions == [] then m else Run(Apply(m, actions[0]), actions[1..])
  }

  const INITIAL := Machine(map[], map[], Past(map[], [], map[]), [])

  // ---------------------------------------------------------------- invariant

  ghost predicate Minted(codes: seq<Code>, state: Token) { exists c :: c in codes && c.state == state }

  /** No row is in two places, and none is anywhere once its code is minted. */
  ghost predicate OnePlace(m: Machine) {
    && (forall s :: s in m.store ==> m.store[s].state == s && !Minted(m.codes, s))
    && (forall cb :: cb in m.hands ==>
          m.hands[cb].row.state !in m.store && !Minted(m.codes, m.hands[cb].row.state))
    && (forall a, b :: a in m.hands && b in m.hands && a != b ==> m.hands[a].row.state != m.hands[b].row.state)
  }

  /** A row is what was authorized, narrowed by what its one exchange learned. */
  ghost predicate RowOk(past: Past, row: Row) {
    && row.state in past.issued
    && row.(principal := None, scopes := past.issued[row.state].scopes) == past.issued[row.state]
    && (row.principal.None? <==> row.state !in past.exchanged)
    && (row.principal.None? ==> row.scopes == past.issued[row.state].scopes)
    && row.scopes != []
    && (row.principal.Some? ==>
          && row.state in past.learned
          && row.principal.value == past.learned[row.state].human
          && row.scopes == Offered(past.issued[row.state].scopes, past.learned[row.state].held))
  }

  ghost predicate HandOk(past: Past, hand: Hand) {
    && RowOk(past, hand.row)
    && (hand.Exchanging? ==> hand.row.principal.None?)
    && (hand.Naming? ==> hand.row.principal.Some?)
  }

  ghost predicate RowsOk(m: Machine) {
    && (forall s :: s in m.store ==> RowOk(m.past, m.store[s]))
    && (forall cb :: cb in m.hands ==> HandOk(m.past, m.hands[cb]))
  }

  ghost predicate PastOk(p: Past) {
    && (forall s :: s in p.issued ==> p.issued[s].state == s && p.issued[s].principal.None?)
    && (forall s :: s in p.learned ==> s in p.exchanged)
    && (forall s :: s in p.exchanged ==> s in p.issued)
    && (forall i, j :: 0 <= i < j < |p.exchanged| ==> p.exchanged[i] != p.exchanged[j])
  }

  /** A code carries the human of its login, and only scopes the client asked for
    * and the human holds. */
  ghost predicate CodeOk(past: Past, c: Code) {
    && c.state in past.learned && c.state in past.issued
    && c.human == past.learned[c.state].human
    && c.scopes != []
    && (forall s :: s in c.scopes ==> s in past.issued[c.state].scopes && s in past.learned[c.state].held)
    && c.client == past.issued[c.state].client && c.redirect == past.issued[c.state].redirect
  }

  ghost predicate CodesOk(past: Past, codes: seq<Code>) {
    && (forall c :: c in codes ==> CodeOk(past, c))
    && (forall i, j :: 0 <= i < j < |codes| ==> codes[i].state != codes[j].state)
  }

  ghost predicate Inv(m: Machine) {
    OnePlace(m) && RowsOk(m) && PastOk(m.past) && CodesOk(m.past, m.codes)
  }

  // ---------------------------------------------------------------- one action

  /** Rows that only disappear from the store. */
  lemma ShrinkOk(m: Machine, store: map<Token, Row>)
    requires Inv(m)
    requires forall s :: s in store ==> s in m.store && store[s] == m.store[s]
    ensures Inv(m.(store := store))
  {
  }

  lemma AuthorizeOk(m: Machine, row: Row, now: int)
    requires Inv(m) && ValidRequest(m, row, now)
    ensures Inv(m.(store := m.store[row.state := row], past := Issued(m.past, row)))
  {
    forall s | RowOk(m.past, s) ensures RowOk(Issued(m.past, row), s) {}
    forall c | CodeOk(m.past, c) ensures CodeOk(Issued(m.past, row), c) && c.state != row.state {}
    forall cb | cb in m.hands ensures m.hands[cb].row.state != row.state {
      assert HandOk(m.past, m.hands[cb]);
    }
  }

  lemma TakeOk(m: Machine, cb: nat, state: Token)
    requires Inv(m) && cb !in m.hands && state in m.store
    ensures Inv(m.(store := m.store - {state}, hands := m.hands[cb := Taken(m.store[state])]))
  {
    assert HandOk(m.past, Taken(m.store[state]));
  }

  /** The row leaves the hands of a callback, for the store or for nowhere. */
  lemma PutBackOk(m: Machine, cb: nat, storeOk: bool)
    requires Inv(m) && cb in m.hands
    ensures Inv(m.(store := Inserted(m.store, m.hands[cb].row, storeOk), hands := m.hands - {cb}))
  {
    assert HandOk(m.past, m.hands[cb]);
  }

  lemma FailsOk(m: Machine, cb: nat)
    requires Inv(m) && cb in m.hands && m.hands[cb].Exchanging?
    ensures Inv(m.(hands := m.hands[cb := Returning(m.hands[cb].row)]))
  {
    assert HandOk(m.past, Returning(m.hands[cb].row));
  }

  /** A login nobody holds any more spends its exchange. */
  lemma SpentOk(m: Machine, row: Row, past: Past)
    requires Inv(m) && RowOk(m.past, row) && row.principal.None? && row.state !in m.store
    requires forall cb :: cb in m.hands ==> m.hands[cb].row.state != row.state
    requires past == Spent(m.past, row.state) || exists n :: past == Learnt(m.past, row.state, n)
    ensures Inv(m.(past := past))
  {
    forall r | RowOk(m.past, r) && r.state != row.state ensures RowOk(past, r) {}
    forall c | CodeOk(m.past, c) ensures CodeOk(past, c) {}
  }

  lemma NamedOk(m: Machine, cb: nat, row: Row)
    requires Inv(m) && cb !in m.hands && row.state !in m.store && !Minted(m.codes, row.state)
    requires forall k :: k in m.hands ==> m.hands[k].row.state != row.state
    requires RowOk(m.past, row) && row.principal.Some?
    ensures Inv(m.(hands := m.hands[cb := Naming(row)]))
  {
    assert HandOk(m.past, Naming(row));
  }

  /** The row leaves the callback's hands for good, its exchange spent. */
  lemma LeavesOk(m: Machine, cb: nat, past: Past)
    requires Inv(m) && cb in m.hands && m.hands[cb].Exchanging?
    requires var state := m.hands[cb].row.state;
             past == Spent(m.past, state) || exists n :: past == Learnt(m.past, state, n)
    ensures Inv(m.(hands := m.hands - {cb}, past := past))
  {
    assert HandOk(m.past, m.hands[cb]);
    PutBackOk(m, cb, false);
    SpentOk(m.(hands := m.hands - {cb}), m.hands[cb].row, past);
  }

  /** The row is named while it stays in the callback's hands. */
  lemma NamesOk(m: Machine, cb: nat, named: Row, past: Past)
    requires Inv(m) && cb in m.hands && m.hands[cb].row.state == named.state
    requires Inv(m.(hands := m.hands - {cb}, past := past))
    requires RowOk(past, named) && named.principal.Some?
    ensures Inv(m.(hands := m.hands[cb := Naming(named)], past := past))
  {
    NamedOk(m.(hands := m.hands - {cb}, past := past), cb, named);
    assert (m.hands - {cb})[cb := Naming(named)] == m.hands[cb := Naming(named)];
  }

  lemma ExchangedOk(m: Machine, a: Action)
    requires Inv(m) && (a.ExchangeRefuses? || a.ExchangeNames?)
    ensures Inv(Apply(m, a))
  {
    var cb := a.callback;
    if cb in m.hands && m.hands[cb].Exchanging? {
      assert HandOk(m.past, m.hands[cb]);
      var row, past := m.hands[cb].row, Apply(m, a).past;
      LeavesOk(m, cb, past);
      if a.ExchangeNames? && Offered(row.scopes, a.held) != [] {
        NamesOk(m, cb, row.(principal := Some(a.human), scopes := Offered(row.scopes, a.held)), past);
      }
    }
  }

  lemma MintOk(m: Machine, state: Token, approved: seq<Scope>)
    requires Inv(m) && state in m.store && m.store[state].principal.Some?
    requires Granted(m.store[state].scopes, approved) != []
    ensures Inv(m.(store := m.store - {state}, codes := m.codes + [CodeFor(m.store[state], approved)]))
  {
    var row := m.store[state];
    var code := CodeFor(row, approved);
    assert RowOk(m.past, row);
    assert CodeOk(m.past, code);
    assert !Minted(m.codes, state);
    forall i | 0 <= i < |m.codes| ensures m.codes[i].state != state { assert m.codes[i] in m.codes; }
    forall s | Minted(m.codes + [code], s) ensures Minted(m.codes, s) || s == state {}
  }

  lemma ApproveOk(m: Machine, a: Action)
    requires Inv(m) && a.Approve?
    ensures Inv(Apply(m, a))
  {
    var d := Decide(m, a.state, a.csrf, a.approved, a.now);
    if d != UnknownLogin {
      ShrinkOk(m, m.store - {a.state});
      ShrinkOk(m, Inserted(m.store - {a.state}, m.store[a.state], a.storeOk));
      if d == Accepted { MintOk(m, a.state, a.approved); }
    }
  }

  lemma ApplyInv(m: Machine, a: Action)
    requires Inv(m)
    ensures Inv(Apply(m, a))
  {
    match a
    case Authorize(row, now, _) => if ValidRequest(m, row, now) { AuthorizeOk(m, row, now); }
    case Take(cb, state, now) => if cb !in m.hands && Takes(m, state, now) { TakeOk(m, cb, state); }
    case ExchangeFails(cb) => if cb in m.hands && m.hands[cb].Exchanging? { FailsOk(m, cb); }
    case ExchangeRefuses(_) => ExchangedOk(m, a);
    case ExchangeNames(_, _, _) => ExchangedOk(m, a);
    case PutBack(cb, storeOk) => if cb in m.hands { PutBackOk(m, cb, storeOk); }
    case Approve(_, _, _, _, _) => ApproveOk(m, a);
    case _ => ShrinkOk(m, Apply(m, a).store);
  }

  lemma {:induction false} RunInv(m: Machine, actions: seq<Action>)
    requires Inv(m)
    ensures Inv(Run(m, actions))
    decreases |actions|
  {
    if actions != [] {
      ApplyInv(m, actions[0]);
      RunInv(Apply(m, actions[0]), actions[1..]);
    }
  }

  // ---------------------------------------------------------------- whole runs

  ghost predicate Reachable(m: Machine) { exists actions :: m == Run(INITIAL, actions) }

  lemma ReachableInv(m: Machine)
    requires Reachable(m)
    ensures Inv(m)
  {
    var actions :| m == Run(INITIAL, actions);
    assert Inv(INITIAL);
    RunInv(INITIAL, actions);
  }

  /** The row of login `state`, wherever it is. */
  ghost predicate Holds(m: Machine, state: Token, row: Row) {
    && row.state == state
    && ((state in m.store && m.store[state] == row) || exists cb :: cb in m.hands && m.hands[cb].row == row)
  }

  /** In every interleaving a login row is in the store, or in the hands of one
    * callback, or gone; a login whose code was minted is gone for good. */
  lemma EachRowIsInOnePlace(m: Machine, a: nat, b: nat, c: Code)
    requires Reachable(m)
    ensures a in m.hands ==> m.hands[a].row.state !in m.store
    ensures a in m.hands && b in m.hands && m.hands[a].row.state == m.hands[b].row.state ==> a == b
    ensures c in m.codes ==> forall row :: !Holds(m, c.state, row)
  {
    ReachableInv(m);
    if c in m.codes { assert Minted(m.codes, c.state); }
  }

  /** A row that goes back always finds its key free. */
  lemma PutBackNeverConflicts(m: Machine, cb: nat)
    requires Reachable(m) && cb in m.hands && !m.hands[cb].Exchanging?
    ensures m.hands[cb].row.state !in m.store
    ensures Apply(m, PutBack(cb, true)).store == m.store[m.hands[cb].row.state := m.hands[cb].row]
  {
    ReachableInv(m);
  }

  ghost predicate PastKept(p: Past, q: Past) {
    && (forall s :: s in p.issued ==> s in q.issued && q.issued[s] == p.issued[s])
    && (forall s :: s in p.exchanged ==> s in q.exchanged)
    && (forall s :: s in p.learned ==> s in q.learned && q.learned[s] == p.learned[s])
  }

  lemma PastGrows(p: Past, row: Row, n: Naming)
    ensures row.state !in p.issued ==> PastKept(p, Issued(p, row))
    ensures PastKept(p, Spent(p, row.state))
    ensures row.state !in p.learned ==> PastKept(p, Learnt(p, row.state, n))
  {
  }

  lemma StepKeepsPast(m: Machine, a: Action)
    requires Inv(m)
    ensures PastKept(m.past, Apply(m, a).past)
  {
    if Apply(m, a).past != m.past {
      if a.Authorize? {
        PastGrows(m.past, a.row, Learned("", {}));
      } else {
        assert HandOk(m.past, m.hands[a.callback]);
        PastGrows(m.past, m.hands[a.callback].row, if a.ExchangeNames? then Learned(a.human, a.held) else Learned("", {}));
      }
    }
  }

  lemma {:induction false} RunKeepsPast(m: Machine, actions: seq<Action>)
    requires Inv(m)
    ensures Inv(Run(m, actions)) && PastKept(m.past, Run(m, actions).past)
    decreases |actions|
  {
    if actions != [] {
      ApplyInv(m, actions[0]);
      StepKeepsPast(m, actions[0]);
      RunKeepsPast(Apply(m, actions[0]), actions[1..]);
    }
  }

  lemma HeldRowOk(m: Machine, state: Token, row: Row)
    requires Inv(m) && Holds(m, state, row)
    ensures RowOk(m.past, row)
  {
    if state !in m.store || m.store[state] != row {
      var cb :| cb in m.hands && m.hands[cb].row == row;
      assert HandOk(m.past, m.hands[cb]);
    }
  }

  lemma SameRow(p: Past, q: Past, row: Row, later: Row)
    requires PastKept(p, q) && RowOk(p, row) && RowOk(q, later)
    requires row.state == later.state && row.principal.Some?
    ensures later == row
  {
    assert row == p.issued[row.state].(principal := row.principal, scopes := row.scopes);
    assert later == q.issued[row.state].(principal := later.principal, scopes := later.scopes);
  }

  /** Once a row names its human, whatever happens later the row either is gone or
    * is the same row, human and scopes included. */
  lemma NamedRowNeverChanges(m: Machine, actions: seq<Action>, state: Token, row: Row, later: Row)
    requires Reachable(m) && Holds(m, state, row) && row.principal.Some?
    requires Holds(Run(m, actions), state, later)
    ensures later == row
  {
    ReachableInv(m);
    RunKeepsPast(m, actions);
    HeldRowOk(m, state, row);
    HeldRowOk(Run(m, actions), state, later);
    SameRow(m.past, Run(m, actions).past, row, later);
  }

  /** In `m`, action `a` brings back an identity for a login in a callback's hands. */
  ghost predicate ExchangeSucceeds(m: Machine, a: Action, state: Token) {
    && (a.ExchangeRefuses? || a.ExchangeNames?)
    && a.callback in m.hands && m.hands[a.callback].Exchanging? && m.hands[a.callback].row.state == state
  }

  /** At most one exchange of a login ever succeeds. */
  lemma OneExchangePerLogin(m: Machine, first: Action, between: seq<Action>, second: Action, state: Token)
    requires Reachable(m) && ExchangeSucceeds(m, first, state)
    ensures !ExchangeSucceeds(Run(Apply(m, first), between), second, state)
  {
    ReachableInv(m);
    ApplyInv(m, first);
    var m1 := Apply(m, first);
    assert state in m1.past.exchanged;
    RunKeepsPast(m1, between);
    var m2 := Run(m1, between);
    assert state in m2.past.exchanged;
    forall cb | cb in m2.hands && m2.hands[cb].Exchanging? ensures m2.hands[cb].row.state != state {
      assert HandOk(m2.past, m2.hands[cb]);
    }
  }

  /** At most one code is minted per login, for the human its exchange named, with
    * scopes that the client asked for and that human holds. */
  lemma CodesAreEarned(m: Machine, i: nat, j: nat)
    requires Reachable(m) && i < |m.codes|
    ensures j < |m.codes| && j != i ==> m.codes[j].state != m.codes[i].state
    ensures CodeOk(m.past, m.codes[i])
  {
    ReachableInv(m);
    assert m.codes[i] in m.codes;
  }

  lemma RestoredIsIdentity(m: Machine, state: Token)
    requires Inv(m) && state in m.store
    ensures Restored(m, state, true) == m
  {
    assert (m.store - {state})[state := m.store[state]] == m.store;
  }

  /** A decision that is not accepted leaves everything as it was. */
  lemma RefusedDecisionChangesNothing(m: Machine, state: Token, csrf: Token, approved: seq<Scope>, now: int)
    requires Reachable(m)
    ensures Decide(m, state, csrf, approved, now) != Accepted ==> Apply(m, Approve(state, csrf, approved, now, true)) == m
    ensures Decide(m, state, csrf, [], now) in {UnknownLogin, BadCsrf, NotAuthenticated} ==>
              Apply(m, Deny(state, csrf, now, true)) == m
  {
    ReachableInv(m);
    if state in m.store { RestoredIsIdentity(m, state); }
  }

  /** A callback that learns nothing of the human leaves the login as it found it. */
  lemma FailedCallbackRoundTrip(m: Machine, cb: nat, state: Token, now: int)
    requires Reachable(m) && cb !in m.hands && Takes(m, state, now)
    ensures Apply(Apply(Apply(m, Take(cb, state, now)), ExchangeFails(cb)), PutBack(cb, true)) == m
  {
    ReachableInv(m);
    var m1 := Apply(m, Take(cb, state, now));
    var m2 := Apply(m1, ExchangeFails(cb));
    assert m2.hands[cb] == Returning(m.store[state]) && m2.hands - {cb} == m.hands;
    assert m2.store == m.store - {state} && m2.past == m.past && m2.codes == m.codes;
    assert (m.store - {state})[state := m.store[state]] == m.store;
  }

  // ---------------------------------------------------------------- revocation

  ghost predicate HoldsNamed(m: Machine, h: Human) {
    exists cb :: cb in m.hands && m.hands[cb].row.principal == Some(h)
  }

  /** The logins of `h` that callbacks hold. */
  ghost function HeldLogins(m: Machine, h: Human): set<Token> {
    set cb | cb in m.hands && m.hands[cb].row.principal == Some(h) :: m.hands[cb].row.state
  }

  /** Every row that names `h`, and every code of `h` beyond the first `n`, is of one of
    * these logins. */
  ghost predicate OnlyFrom(m: Machine, n: nat, h: Human, logins: set<Token>) {
    && n <= |m.codes|
    && (forall s :: s in m.store && m.store[s].principal == Some(h) ==> m.store[s].state in logins)
    && (forall cb :: cb in m.hands && m.hands[cb].row.principal == Some(h) ==> m.hands[cb].row.state in logins)
    && (forall i :: n <= i < |m.codes| && m.codes[i].human == h ==> m.codes[i].state in logins)
  }

  /** The login that `a` names `h`, if it does. */
  ghost function NamedBy(m: Machine, a: Action, h: Human): set<Token> {
    if a.ExchangeNames? && a.human == h && a.callback in m.hands && m.hands[a.callback].Exchanging?
    then {m.hands[a.callback].row.state} else {}
  }

  /** The logins that exchanges of the run name `h`. */
  ghost function NamedIn(m: Machine, actions: seq<Action>, h: Human): set<Token>
    decreases |actions|
  {
    if actions == [] then {} else NamedBy(m, actions[0], h) + NamedIn(Apply(m, actions[0]), actions[1..], h)
  }

  lemma OnlyFromStep(m: Machine, a: Action, n: nat, h: Human, logins: set<Token>)
    requires OnlyFrom(m, n, h, logins)
    ensures OnlyFrom(Apply(m, a), n, h, logins + NamedBy(m, a, h))
  {
  }

  lemma {:induction false} OnlyFromRun(m: Machine, actions: seq<Action>, n: nat, h: Human, logins: set<Token>)
    requires OnlyFrom(m, n, h, logins)
    ensures OnlyFrom(Run(m, actions), n, h, logins + NamedIn(m, actions, h))
    decreases |actions|
  {
    if actions == [] {
      assert logins + NamedIn(m, actions, h) == logins;
    } else {
      var now, rest := NamedBy(m, actions[0], h), NamedIn(Apply(m, actions[0]), actions[1..], h);
      OnlyFromStep(m, actions[0], n, h, logins);
      OnlyFromRun(Apply(m, actions[0]), actions[1..], n, h, logins + now);
      assert logins + now + rest == logins + NamedIn(m, actions, h);
    }
  }

  /** No exchange of the run names `h`. */
  ghost predicate NobodyNames(actions: seq<Action>, h: Human) {
    forall a :: a in actions && a.ExchangeNames? ==> a.human != h
  }

  lemma {:induction false} NobodyIsNamed(m: Machine, actions: seq<Action>, h: Human)
    requires NobodyNames(actions, h)
    ensures NamedIn(m, actions, h) == {}
    decreases |actions|
  {
    if actions != [] {
      NobodyIsNamed(Apply(m, actions[0]), actions[1..], h);
    }
  }

  ghost predicate InFlight(m: Machine) { exists cb :: cb in m.hands && m.hands[cb].Exchanging? }

  /** No callback of the run takes a login: every exchange in it was in flight before. */
  ghost predicate NothingTaken(actions: seq<Action>) { forall a :: a in actions ==> !a.Take? }

  lemma {:induction false} NothingInFlight(m: Machine, actions: seq<Action>, h: Human)
    requires NothingTaken(actions) && !InFlight(m)
    ensures NamedIn(m, actions, h) == {}
    decreases |actions|
  {
    if actions != [] {
      NothingInFlight(Apply(m, actions[0]), actions[1..], h);
    }
  }

  /** A code for `h` beyond the first `n`. */
  ghost predicate MintsFor(m: Machine, n: nat, h: Human) {
    exists i :: n <= i < |m.codes| && m.codes[i].human == h
  }

  /** A row that names `h`, in a callback's hands, goes back and mints a code. */
  lemma BackAndApproved(m: Machine, cb: nat, h: Human) returns (actions: seq<Action>)
    requires Inv(m) && cb in m.hands && m.hands[cb].row.principal == Some(h)
    ensures NobodyNames(actions, h) && NothingTaken(actions)
    ensures MintsFor(Run(m, actions), |m.codes|, h)
  {
    assert HandOk(m.past, m.hands[cb]);
    var row := m.hands[cb].row;
    var back, approve := PutBack(cb, true), Approve(row.state, row.csrf, [row.scopes[0]], row.expires - 1, true);
    actions := [back, approve];
    var m1 := Apply(m, back);
    assert m1.store[row.state] == row && m1.codes == m.codes;
    assert row.scopes[0] in Granted(row.scopes, [row.scopes[0]]);
    var m2 := Apply(m1, approve);
    assert m2.codes == m.codes + [CodeFor(row, [row.scopes[0]])];
    assert m2.codes[|m.codes|].human == h;
    assert actions[1..] == [approve];
    assert Run(m1, [approve]) == Run(m2, []);
  }

  /** A held login of the revoked human mints a code after the revocation. */
  lemma HeldLoginMints(m: Machine, h: Human) returns (actions: seq<Action>)
    requires Inv(m) && HoldsNamed(m, h)
    ensures NobodyNames(actions, h) && NothingTaken(actions)
    ensures MintsFor(Run(Apply(m, RevokePrincipal(h)), actions), |m.codes|, h)
  {
    var cb :| cb in m.hands && m.hands[cb].row.principal == Some(h);
    ApplyInv(m, RevokePrincipal(h));
    actions := BackAndApproved(Apply(m, RevokePrincipal(h)), cb, h);
  }

  /** So does an exchange that is in flight at the revocation and names the human then. */
  lemma InFlightMints(m: Machine, h: Human) returns (actions: seq<Action>)
    requires Inv(m) && InFlight(m)
    ensures NothingTaken(actions)
    ensures MintsFor(Run(Apply(m, RevokePrincipal(h)), actions), |m.codes|, h)
  {
    var cb :| cb in m.hands && m.hands[cb].Exchanging?;
    assert HandOk(m.past, m.hands[cb]);
    var row, revoked := m.hands[cb].row, Apply(m, RevokePrincipal(h));
    var names := ExchangeNames(cb, h, {row.scopes[0]});
    ApplyInv(m, RevokePrincipal(h));
    ApplyInv(revoked, names);
    var named := Apply(revoked, names);
    assert row.scopes[0] in Offered(row.scopes, {row.scopes[0]});
    assert named.hands[cb].row.principal == Some(h) && named.codes == m.codes;
    var rest := BackAndApproved(named, cb, h);
    actions := [names] + rest;
    assert actions[1..] == rest;
  }

  /** Revoking a human removes the pending logins of the store and not those in the hands
    * of callbacks. Over every run, each code minted for the human afterwards is of a login
    * that a callback held named so when the revocation came, or of one that an exchange of
    * the human named since. */
  lemma CodesAfterRevocation(m: Machine, h: Human, actions: seq<Action>)
    requires Reachable(m)
    ensures var revoked := Apply(m, RevokePrincipal(h));
            var m' := Run(revoked, actions);
            && |m.codes| <= |m'.codes|
            && forall i :: |m.codes| <= i < |m'.codes| && m'.codes[i].human == h ==>
                 m'.codes[i].state in HeldLogins(m, h) + NamedIn(revoked, actions, h)
  {
    ReachableInv(m);
    OnlyFromRun(Apply(m, RevokePrincipal(h)), actions, |m.codes|, h, HeldLogins(m, h));
  }

  /** Without a login taken after the revocation, a code can still be minted for the human
    * if and only if a callback held a row that named the human, or had an exchange in
    * flight. In runs in which no exchange names the human, if and only if the former. */
  lemma RevocationHoldsIff(m: Machine, h: Human)
    requires Reachable(m)
    ensures var revoked := Apply(m, RevokePrincipal(h));
            && ((exists actions :: NothingTaken(actions) && MintsFor(Run(revoked, actions), |m.codes|, h))
                <==> HoldsNamed(m, h) || InFlight(m))
            && ((exists actions :: NobodyNames(actions, h) && MintsFor(Run(revoked, actions), |m.codes|, h))
                <==> HoldsNamed(m, h))
  {
    ReachableInv(m);
    var revoked := Apply(m, RevokePrincipal(h));
    if HoldsNamed(m, h) {
      var actions := HeldLoginMints(m, h);
    } else {
      assert HeldLogins(m, h) == {};
      forall actions | NobodyNames(actions, h) ensures !MintsFor(Run(revoked, actions), |m.codes|, h) {
        CodesAfterRevocation(m, h, actions);
        NobodyIsNamed(revoked, actions, h);
      }
    }
    if InFlight(m) {
      var actions := InFlightMints(m, h);
    } else if !HoldsNamed(m, h) {
      forall actions | NothingTaken(actions) ensures !MintsFor(Run(revoked, actions), |m.codes|, h) {
        CodesAfterRevocation(m, h, actions);
        NothingInFlight(revoked, actions, h);
      }
    }
  }
}
