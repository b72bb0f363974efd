/**
  E-mail/password registration: start, resend and verify over the one-time
  token store and the account tables, as a state machine whose steps are single
  store or database calls.
 */
module Registration {
  import opened Common

  /** What the account will be made of; fixed when the flow starts. */
  datatype Identity = Identity(
    registrationId: nat, emailCiphertext: string, emailLookup: string,
    passwordHash: string, displayName: string)

  /** The stored record. The keyed code hash is written as the code itself: the
      hasher is taken to be injective for a given token. */
  datatype Pending = Pending(identity: Identity, code: nat, attempts: nat)

  datatype Entry = Entry(value: Pending, expires: int)

  const MAX_ATTEMPTS := 5

  /** `upsert` is the store's replace: false refuses absent keys, as the
      in-memory store does; true writes anyway, as SET EX does. */
  datatype Config = Config(lifetime: int, upsert: bool)

  /** `max(60, lifetime)` */
  function Seconds(c: Config): int { if c.lifetime < 60 then 60 else c.lifetime }

  datatype Flight =
    | Sending(token: nat, value: Pending)
    | ResendRead(token: nat, value: Pending)
    | WrongCode(token: nat, value: Pending)
    | RightCode(token: nat, value: Pending)
    | Consumed(token: nat, value: Pending)

  /** The store and the accounts at an instant; an account lies under its unique
      e-mail lookup hash. Beside them their history: what each token was put
      with (`issued`) and when (`born`), the attempt counter last stored under
      it, every successful consume (`claims`), every comparison with a wrong
      code, and every completed registration. */
  datatype Db = Db(
    now: int,
    store: map<nat, Entry>,
    accounts: map<string, Identity>,
    issued: map<nat, Identity>,
    born: map<nat, int>,
    counters: map<nat, nat>,
    claims: seq<(nat, Identity)>,
    wrong: seq<nat>,
    registered: seq<(nat, Identity)>)

  datatype State = State(db: Db, flights: map<nat, Flight>)

  const INIT := State(Db(0, map[], map[], map[], map[], map[], [], [], []), map[])

  datatype Event =
    | Tick(seconds: nat)
    | Start(r: nat, token: nat, identity: Identity, code: nat)
    | FinishSend(r: nat, delivered: bool, storeUp: bool)
    | ReadResend(r: nat, token: nat, decryptable: bool)
    | WriteResend(r: nat, code: nat)
    | ReadVerify(r: nat, token: nat, code: nat)
    | WriteWrong(r: nat)
    | ClaimRight(r: nat)
    | Register(r: nat, refused: bool)

  /** The record with one more wrong code counted */
  function Counted(value: Pending): Pending { value.(attempts := Min(MAX_ATTEMPTS, value.attempts + 1)) }

  function Purge(store: map<nat, Entry>, now: int): map<nat, Entry> {
    map t | t in store && store[t].expires > now :: store[t]
  }

  function Keep(c: Config, s: Db, token: nat, value: Pending): Db {
    s.(store := s.store[token := Entry(value, s.now + Seconds(c))], counters := s.counters[token := value.attempts])
  }

  /** The store's replace */
  function Replace(c: Config, s: Db, token: nat, value: Pending): Db {
    if token in s.store || c.upsert then Keep(c, s, token, value) else s
  }

  predicate Holds(s: Db, token: nat, value: Pending) { token in s.store && s.store[token].value == value }

  predicate Guessable(s: Db, token: nat) { token in s.store && s.store[token].value.attempts < MAX_ATTEMPTS }

  /** What a request's first call does, and how the request goes on. Tokens are
      fresh, so a put that would meet a known token is left out. */
  function Began(c: Config, s: Db, e: Event): Db {
    match e
    case Tick(d) => s.(now := s.now + d, store := Purge(s.store, s.now + d))
    case Start(_, token, identity, code) =>
      if token in s.issued then s
      else
        var kept := Keep(c, s, token, Pending(identity, code, 0));
        kept.(issued := s.issued[token := identity], born := s.born[token := s.now])
    case ReadVerify(_, token, code) =>
      if Guessable(s, token) && s.store[token].value.code != code then s.(wrong := s.wrong + [token]) else s
    case _ => s
  }

  function Opens(s: Db, e: Event): Option<Flight> {
    match e
    case Start(_, token, identity, code) =>
      if token in s.issued then None else Some(Sending(token, Pending(identity, code, 0)))
    case ReadResend(_, token, decryptable) =>
      if Guessable(s, token) && decryptable then Some(ResendRead(token, s.store[token].value)) else None
    case ReadVerify(_, token, code) =>
      if !Guessable(s, token) then None
      else if s.store[token].value.code == code then Some(RightCode(token, s.store[token].value))
      else Some(WrongCode(token, s.store[token].value))
    case _ => None
  }

  predicate Fits(e: Event, f: Flight) {
    || (e.FinishSend? && f.Sending?) || (e.WriteResend? && f.ResendRead?)
    || (e.WriteWrong? && f.WrongCode?) || (e.ClaimRight? && f.RightCode?) || (e.Register? && f.Consumed?)
  }

  /** What a later call writes, and how the request goes on. */
  function Written(c: Config, s: Db, e: Event, f: Flight): Db
    requires Fits(e, f)
  {
    if e.FinishSend? then
      if e.delivered || !e.storeUp || !Holds(s, f.token, f.value) then s else s.(store := s.store - {f.token})
    else if e.WriteResend? then Replace(c, s, f.token, f.value.(code := e.code))
    else if e.WriteWrong? then Replace(c, s, f.token, Counted(f.value))
    else if e.ClaimRight? then
      if !Holds(s, f.token, f.value) then s
      else s.(store := s.store - {f.token}, claims := s.claims + [(f.token, f.value.identity)])
    else if e.refused then s
    else DoRegister(s, f.token, f.value.identity)
  }

  /** INSERT of the account: refused when its e-mail lookup hash exists. */
  function DoRegister(s: Db, token: nat, identity: Identity): Db {
    if identity.emailLookup in s.accounts then s
    else s.(accounts := s.accounts[identity.emailLookup := identity], registered := s.registered + [(token, identity)])
  }

  function Ahead(c: Config, s: Db, e: Event, f: Flight): Option<Flight>
    requires Fits(e, f)
  {
    if e.WriteResend? && (f.token in s.store || c.upsert)
    then Some(Sending(f.token, f.value.(code := e.code)))
    else if e.ClaimRight? && Holds(s, f.token, f.value) then Some(Consumed(f.token, f.value))
    else None
  }

  function Step(c: Config, s: State, e: Event): State {
    if e.Tick? then s.(db := Began(c, s.db, e))
    else if e.r !in s.flights then State(Began(c, s.db, e), Onward(s.flights, e.r, Opens(s.db, e)))
    else if Fits(e, s.flights[e.r]) then
      var f := s.flights[e.r];
      State(Written(c, s.db, e, f), Onward(s.flights, e.r, Ahead(c, s.db, e, f)))
    else s
  }

  function Run(c: Config, s: State, es: seq<Event>): State
    decreases |es|
  {
    if es == [] then s else Run(c, Step(c, s, es[0]), es[1..])
  }

  lemma {:induction false} RunAppend(c: Config, s: State, a: seq<Event>, b: seq<Event>)
    ensures Run(c, s, a + b) == Run(c, Run(c, s, a), b)
    decreases |a|
  {
    if a == [] {
      assert a + b == b;
    } else {
      assert (a + b)[1..] == a[1..] + b;
      RunAppend(c, Step(c, s, a[0]), a[1..], b);
    }
  }

  // ---------------------------------------- identity and at-most-once consume

  function Claims(claims: seq<(nat, Identity)>, token: nat): nat {
    if claims == [] then 0
    else Claims(claims[..|claims| - 1], token) + (if claims[|claims| - 1].0 == token then 1 else 0)
  }

  predicate Original(issued: map<nat, Identity>, token: nat, value: Pending) {
    token in issued && value.identity == issued[token]
  }

  ghost predicate SameIdentity(s: Db) {
    && (forall t :: t in s.store ==> Original(s.issued, t, s.store[t].value))
    && (forall i :: 0 <= i < |s.claims| ==> s.claims[i].0 in s.issued && s.claims[i].1 == s.issued[s.claims[i].0])
    && (forall i :: 0 <= i < |s.registered| ==>
          s.registered[i].0 in s.issued && s.registered[i].1 == s.issued[s.registered[i].0])
  }

  ghost predicate FlightsCarry(issued: map<nat, Identity>, flights: map<nat, Flight>) {
    forall r :: r in flights ==> Original(issued, flights[r].token, flights[r].value)
  }

  ghost predicate ClaimedOnceFor(s: Db, t: nat) {
    Claims(s.claims, t) <= (if t in s.issued && t !in s.store then 1 else 0)
  }

  ghost predicate ClaimedOnce(s: Db) { forall t :: ClaimedOnceFor(s, t) }

  ghost predicate Remembers(a: map<nat, Identity>, b: map<nat, Identity>) {
    forall t :: t in a ==> t in b && b[t] == a[t]
  }

  lemma BeganKeeps(c: Config, s: Db, e: Event)
    requires SameIdentity(s)
    ensures SameIdentity(Began(c, s, e)) && Remembers(s.issued, Began(c, s, e).issued)
    ensures Opens(s, e).Some? ==> Original(Began(c, s, e).issued, Opens(s, e).value.token, Opens(s, e).value.value)
  {
  }

  lemma WrittenKeeps(c: Config, s: Db, e: Event, f: Flight)
    requires SameIdentity(s) && Fits(e, f) && Original(s.issued, f.token, f.value)
    ensures SameIdentity(Written(c, s, e, f)) && Written(c, s, e, f).issued == s.issued
    ensures Ahead(c, s, e, f).Some? ==> Original(s.issued, Ahead(c, s, e, f).value.token, Ahead(c, s, e, f).value.value)
  {
  }

  lemma ClaimsGrow(claims: seq<(nat, Identity)>, x: (nat, Identity), t: nat)
    ensures Claims(claims + [x], t) == Claims(claims, t) + (if x.0 == t then 1 else 0)
  {
  }

  lemma {:induction false} Unclaimed(claims: seq<(nat, Identity)>, t: nat)
    requires forall i :: 0 <= i < |claims| ==> claims[i].0 != t
    ensures Claims(claims, t) == 0
  {
    if claims != [] { Unclaimed(claims[..|claims| - 1], t); }
  }

  /** While a token is live nothing has claimed it; once gone it stays gone. */
  lemma BeganClaimsOnce(c: Config, s: Db, e: Event, t: nat)
    requires SameIdentity(s) && ClaimedOnceFor(s, t)
    ensures ClaimedOnceFor(Began(c, s, e), t)
  {
  }

  lemma WrittenClaimsOnce(c: Config, s: Db, e: Event, f: Flight, t: nat)
    requires !c.upsert && Fits(e, f) && Original(s.issued, f.token, f.value) && ClaimedOnceFor(s, t)
    ensures ClaimedOnceFor(Written(c, s, e, f), t)
  {
  }

  lemma StepClaimsOnce(c: Config, s: State, e: Event, t: nat)
    requires !c.upsert && SameIdentity(s.db) && FlightsCarry(s.db.issued, s.flights) && ClaimedOnceFor(s.db, t)
    ensures ClaimedOnceFor(Step(c, s, e).db, t)
  {
    if e.Tick? || e.r !in s.flights { BeganClaimsOnce(c, s.db, e, t); }
    else if Fits(e, s.flights[e.r]) { WrittenClaimsOnce(c, s.db, e, s.flights[e.r], t); }
  }

  lemma StepKeeps(c: Config, s: State, e: Event)
    requires SameIdentity(s.db) && FlightsCarry(s.db.issued, s.flights)
    ensures SameIdentity(Step(c, s, e).db) && FlightsCarry(Step(c, s, e).db.issued, Step(c, s, e).flights)
    ensures Remembers(s.db.issued, Step(c, s, e).db.issued)
  {
    if e.Tick? || e.r !in s.flights {
      BeganKeeps(c, s.db, e);
      if !e.Tick? { FlightsStillCarry(s.db.issued, Began(c, s.db, e).issued, s.flights, e.r, Opens(s.db, e)); }
    } else if Fits(e, s.flights[e.r]) {
      var f := s.flights[e.r];
      WrittenKeeps(c, s.db, e, f);
      FlightsStillCarry(s.db.issued, s.db.issued, s.flights, e.r, Ahead(c, s.db, e, f));
    }
  }

  lemma FlightsStillCarry(issued: map<nat, Identity>, issued': map<nat, Identity>, flights: map<nat, Flight>, r: nat,
                          f: Option<Flight>)
    requires FlightsCarry(issued, flights) && Remembers(issued, issued')
    requires f.Some? ==> Original(issued', f.value.token, f.value.value)
    ensures FlightsCarry(issued', Onward(flights, r, f))
  {
  }

  lemma {:induction false} RunKeeps(c: Config, s: State, es: seq<Event>)
    requires SameIdentity(s.db) && FlightsCarry(s.db.issued, s.flights)
    ensures SameIdentity(Run(c, s, es).db) && Remembers(s.db.issued, Run(c, s, es).db.issued)
    ensures !c.upsert && ClaimedOnce(s.db) ==> ClaimedOnce(Run(c, s, es).db)
    decreases |es|
  {
    if es != [] {
      StepKeeps(c, s, es[0]);
      if !c.upsert && ClaimedOnce(s.db) {
        forall t ensures ClaimedOnceFor(Step(c, s, es[0]).db, t) {
          assert ClaimedOnceFor(s.db, t);
          StepClaimsOnce(c, s, es[0], t);
        }
      }
      RunKeeps(c, Step(c, s, es[0]), es[1..]);
    }
  }

  /** In every interleaving, over either store, every value held under a token,
      every consume of it and every registration completed for it carries the
      e-mail ciphertext, password hash, display name and id that were put. */
  lemma IdentityNeverChanges(c: Config, es: seq<Event>)
    ensures var s := Run(c, INIT, es).db;
            && (forall t :: t in s.store ==> t in s.issued && s.store[t].value.identity == s.issued[t])
            && (forall i :: 0 <= i < |s.claims| ==>
                s.claims[i].0 in s.issued && s.claims[i].1 == s.issued[s.claims[i].0])
            && (forall i :: 0 <= i < |s.registered| ==>
                  s.registered[i].0 in s.issued && s.registered[i].1 == s.issued[s.registered[i].0])
  {
    RunKeeps(c, INIT, es);
  }

  /** A wrong guess is read, the right code wins, the wrong guess writes back. */
  function Resurrection(identity: Identity): seq<Event> {
    [Start(0, 0, identity, 1), ReadVerify(1, 0, 2), ReadVerify(2, 0, 1), ClaimRight(2),
     WriteWrong(1), ReadVerify(3, 0, 1), ClaimRight(3)]
  }

  /** The states that trace passes through over a store whose replace upserts. */
  function Revived(c: Config, identity: Identity, n: nat): State
    requires n <= 7
  {
    var p := Pending(identity, 1, 0);
    var p' := p.(attempts := 1);
    var full := map[0 := Entry(p, Seconds(c))];
    var full' := map[0 := Entry(p', Seconds(c))];
    var issued, born := map[0 := identity], map[0 := 0];
    var x := (0, identity);
    var none: map<string, Identity> := map[];
    var zero, one := map[0 := 0], map[0 := 1];
    if n == 0 then INIT
    else if n == 1 then State(Db(0, full, none, issued, born, zero, [], [], []), map[0 := Sending(0, p)])
    else if n == 2 then State(Db(0, full, none, issued, born, zero, [], [0], []),
                              map[0 := Sending(0, p), 1 := WrongCode(0, p)])
    else if n == 3 then
      State(Db(0, full, none, issued, born, zero, [], [0], []),
            map[0 := Sending(0, p), 1 := WrongCode(0, p), 2 := RightCode(0, p)])
    else if n == 4 then
      State(Db(0, map[], none, issued, born, zero, [x], [0], []),
            map[0 := Sending(0, p), 1 := WrongCode(0, p), 2 := Consumed(0, p)])
    else if n == 5 then
      State(Db(0, full', none, issued, born, one, [x], [0], []), map[0 := Sending(0, p), 2 := Consumed(0, p)])
    else if n == 6 then
      State(Db(0, full', none, issued, born, one, [x], [0], []),
            map[0 := Sending(0, p), 2 := Consumed(0, p), 3 := RightCode(0, p')])
    else
      State(Db(0, map[], none, issued, born, one, [x, x], [0], []),
            map[0 := Sending(0, p), 2 := Consumed(0, p), 3 := Consumed(0, p')])
  }

  lemma RevivedStep(c: Config, identity: Identity, n: nat)
    requires c.upsert && n < 7
    ensures Step(c, Revived(c, identity, n), Resurrection(identity)[n]) == Revived(c, identity, n + 1)
  {
    if n < 4 { RevivedEarly(c, identity, n); }
    else if n == 4 { RevivedByWrite(c, identity); }
    else if n == 5 { RevivedRead(c, identity); }
    else { RevivedClaim(c, identity); }
  }

  lemma RevivedEarly(c: Config, identity: Identity, n: nat)
    requires c.upsert && n < 4
    ensures Step(c, Revived(c, identity, n), Resurrection(identity)[n]) == Revived(c, identity, n + 1)
  {
  }

  lemma RevivedByWrite(c: Config, identity: Identity)
    requires c.upsert
    ensures Step(c, Revived(c, identity, 4), WriteWrong(1)) == Revived(c, identity, 5)
  {
  }

  lemma RevivedRead(c: Config, identity: Identity)
    requires c.upsert
    ensures Step(c, Revived(c, identity, 5), ReadVerify(3, 0, 1)) == Revived(c, identity, 6)
  {
  }

  lemma RevivedClaim(c: Config, identity: Identity)
    requires c.upsert
    ensures Step(c, Revived(c, identity, 6), ClaimRight(3)) == Revived(c, identity, 7)
  {
  }

  lemma {:induction false} RevivedRun(c: Config, identity: Identity, n: nat)
    requires c.upsert && n <= 7
    ensures Run(c, Revived(c, identity, n), Resurrection(identity)[n..]) == Revived(c, identity, 7)
    decreases 7 - n
  {
    if n < 7 {
      assert Resurrection(identity)[n..][1..] == Resurrection(identity)[n + 1..];
      RevivedStep(c, identity, n);
      RevivedRun(c, identity, n + 1);
    }
  }

  /** Over a store whose replace upserts one token can be consumed twice. */
  lemma UpsertClaimsTwice(c: Config, identity: Identity)
    requires c.upsert
    ensures Claims(Run(c, INIT, Resurrection(identity)).db.claims, 0) == 2
  {
    RevivedRun(c, identity, 0);
    assert Resurrection(identity)[0..] == Resurrection(identity);
    var x := (0, identity);
    ClaimsGrow([], x, 0);
    ClaimsGrow([x], x, 0);
    assert [] + [x] == [x] && [x] + [x] == [x, x];
  }

  /** Every put leads to at most one successful consume in every interleaving if
      and only if the store's replace refuses absent keys. */
  lemma AtMostOneClaimExactly(c: Config)
    ensures (forall es, t :: Claims(Run(c, INIT, es).db.claims, t) <= 1) <==> !c.upsert
  {
    if c.upsert {
      var es := Resurrection(Identity(0, "", "", "", ""));
      UpsertClaimsTwice(c, Identity(0, "", "", "", ""));
      assert Claims(Run(c, INIT, es).db.claims, 0) == 2;
    } else {
      forall es, t ensures Claims(Run(c, INIT, es).db.claims, t) <= 1 {
        RunKeeps(c, INIT, es);
        assert ClaimedOnceFor(Run(c, INIT, es).db, t);
      }
    }
  }

  // ------------------------------------------------ consumes, run by run

  /** A write to a token that is absent from the store. */
  predicate Misses(s: State, e: Event, t: nat) {
    && (e.WriteResend? || e.WriteWrong?) && e.r in s.flights && Fits(e, s.flights[e.r])
    && s.flights[e.r].token == t && t !in s.db.store
  }

  /** A write that brings back a token already consumed. */
  predicate Revives(c: Config, s: State, e: Event, t: nat) {
    c.upsert && Misses(s, e, t) && Claims(s.db.claims, t) > 0
  }

  /** A successful consume of the token */
  predicate Consumes(s: State, e: Event, t: nat) {
    && e.ClaimRight? && e.r in s.flights && Fits(e, s.flights[e.r])
    && s.flights[e.r].token == t && Holds(s.db, t, s.flights[e.r].value)
  }

  predicate EverConsumes(c: Config, s: State, es: seq<Event>, t: nat)
    decreases |es|
  {
    es != [] && (Consumes(s, es[0], t) || EverConsumes(c, Step(c, s, es[0]), es[1..], t))
  }

  /** Somewhere along the run the token is brought back after a consume, and
      later on consumed. */
  predicate RevivedAndConsumed(c: Config, s: State, es: seq<Event>, t: nat)
    decreases |es|
  {
    && es != []
    && ((Revives(c, s, es[0], t) && EverConsumes(c, Step(c, s, es[0]), es[1..], t))
        || RevivedAndConsumed(c, Step(c, s, es[0]), es[1..], t))
  }

  lemma StepCounts(c: Config, s: State, e: Event, t: nat)
    ensures Claims(Step(c, s, e).db.claims, t) == Claims(s.db.claims, t) + (if Consumes(s, e, t) then 1 else 0)
  {
  }

  lemma {:induction false} RunCounts(c: Config, s: State, es: seq<Event>, t: nat)
    ensures Claims(Run(c, s, es).db.claims, t) >= Claims(s.db.claims, t)
    ensures Claims(Run(c, s, es).db.claims, t) > Claims(s.db.claims, t) <==> EverConsumes(c, s, es, t)
    ensures RevivedAndConsumed(c, s, es, t) ==> EverConsumes(c, s, es, t)
    decreases |es|
  {
    if es != [] {
      StepCounts(c, s, es[0], t);
      RunCounts(c, Step(c, s, es[0]), es[1..], t);
    }
  }

  lemma StepStaysOnce(c: Config, s: State, e: Event, t: nat)
    requires SameIdentity(s.db) && FlightsCarry(s.db.issued, s.flights) && ClaimedOnceFor(s.db, t)
             && !Revives(c, s, e, t)
    ensures ClaimedOnceFor(Step(c, s, e).db, t)
  {
    StepCounts(c, s, e, t);
    if e.Start? && t !in s.db.issued { Unclaimed(s.db.claims, t); }
  }

  lemma {:induction false} OnceExactly(c: Config, s: State, es: seq<Event>, t: nat)
    requires SameIdentity(s.db) && FlightsCarry(s.db.issued, s.flights) && ClaimedOnceFor(s.db, t)
    ensures Claims(Run(c, s, es).db.claims, t) <= 1 <==> !RevivedAndConsumed(c, s, es, t)
    decreases |es|
  {
    if es != [] {
      var m := Step(c, s, es[0]);
      StepKeeps(c, s, es[0]);
      if Revives(c, s, es[0], t) {
        StepCounts(c, s, es[0], t);
        RunCounts(c, m, es[1..], t);
      } else {
        StepStaysOnce(c, s, es[0], t);
        OnceExactly(c, m, es[1..], t);
      }
    }
  }

  /** Along any one run, over either store, a token is consumed at most once if
      and only if it is not consumed after a write brought it back that found it
      absent and consumed before. */
  lemma ConsumedOnceExactly(c: Config, es: seq<Event>, t: nat)
    ensures Claims(Run(c, INIT, es).db.claims, t) <= 1 <==> !RevivedAndConsumed(c, INIT, es, t)
  {
    OnceExactly(c, INIT, es, t);
  }

  /** Every write along the run finds its token in the store. */
  ghost predicate WritesHit(c: Config, s: State, es: seq<Event>)
    decreases |es|
  {
    es == [] || ((forall t :: !Misses(s, es[0], t)) && WritesHit(c, Step(c, s, es[0]), es[1..]))
  }

  /** A run all of whose writes hit is the same over either store, so it keeps
      what holds over the store that refuses absent keys. */
  lemma {:induction false} HitsMakeStoresAlike(c: Config, s: State, es: seq<Event>)
    requires WritesHit(c, s, es)
    ensures Run(c, s, es) == Run(c.(upsert := false), s, es)
    decreases |es|
  {
    if es != [] {
      var d := c.(upsert := false);
      if !es[0].Tick? && es[0].r in s.flights { assert !Misses(s, es[0], s.flights[es[0].r].token); }
      assert Step(c, s, es[0]) == Step(d, s, es[0]);
      HitsMakeStoresAlike(c, Step(c, s, es[0]), es[1..]);
    }
  }

  /** Over either store, a run all of whose writes hit consumes each token at
      most once. */
  lemma HitsConsumeOnce(c: Config, es: seq<Event>, t: nat)
    requires WritesHit(c, INIT, es)
    ensures Claims(Run(c, INIT, es).db.claims, t) <= 1
  {
    HitsMakeStoresAlike(c, INIT, es);
    AtMostOneClaimExactly(c.(upsert := false));
  }

  // ---------------------------------------------- at most one registration

  function Lookups(log: seq<(nat, Identity)>, lookup: string): nat {
    if log == [] then 0
    else Lookups(log[..|log| - 1], lookup) + (if log[|log| - 1].1.emailLookup == lookup then 1 else 0)
  }

  /** The account table holds exactly the lookup hashes that were registered. */
  ghost predicate Booked(s: Db) { forall h :: BookedFor(s, h) }

  predicate BookedFor(s: Db, h: string) { Lookups(s.registered, h) == if h in s.accounts then 1 else 0 }

  /** Every registration follows a successful consume of its own token. */
  ghost predicate Earned(s: Db) { forall i :: 0 <= i < |s.registered| ==> s.registered[i] in s.claims }

  ghost predicate Earning(claims: seq<(nat, Identity)>, flights: map<nat, Flight>) {
    forall r :: r in flights && flights[r].Consumed? ==> (flights[r].token, flights[r].value.identity) in claims
  }

  lemma LookupsGrow(log: seq<(nat, Identity)>, x: (nat, Identity), h: string)
    ensures Lookups(log + [x], h) == Lookups(log, h) + (if x.1.emailLookup == h then 1 else 0)
  {
  }

  lemma StepBooks(c: Config, s: State, e: Event)
    requires Booked(s.db)
    ensures Booked(Step(c, s, e).db)
  {
    forall h ensures BookedFor(Step(c, s, e).db, h) {
      assert BookedFor(s.db, h);
      if e.Register? && e.r in s.flights {
        var f := s.flights[e.r];
        LookupsGrow(s.db.registered, (f.token, f.value.identity), h);
      }
    }
  }

  lemma DbEarns(c: Config, s: State, e: Event)
    requires Earned(s.db) && Earning(s.db.claims, s.flights)
    ensures Earned(Step(c, s, e).db)
  {
  }

  lemma FlightsEarn(c: Config, s: State, e: Event)
    requires Earning(s.db.claims, s.flights)
    ensures Earning(Step(c, s, e).db.claims, Step(c, s, e).flights)
  {
  }

  lemma {:induction false} RunBooks(c: Config, s: State, es: seq<Event>)
    requires Booked(s.db) && Earned(s.db) && Earning(s.db.claims, s.flights)
    ensures Booked(Run(c, s, es).db) && Earned(Run(c, s, es).db)
    decreases |es|
  {
    if es != [] {
      StepBooks(c, s, es[0]);
      DbEarns(c, s, es[0]);
      FlightsEarn(c, s, es[0]);
      RunBooks(c, Step(c, s, es[0]), es[1..]);
    }
  }

  /** When all entries of a token carry one lookup hash, they are among its. */
  lemma {:induction false} ClaimsAmongLookups(log: seq<(nat, Identity)>, t: nat, h: string)
    requires forall i :: 0 <= i < |log| && log[i].0 == t ==> log[i].1.emailLookup == h
    ensures Claims(log, t) <= Lookups(log, h)
  {
    if log != [] { ClaimsAmongLookups(log[..|log| - 1], t, h); }
  }

  /** In every interleaving, over either store, at most one registration is
      completed for a token, and at most one for an e-mail lookup hash across
      all tokens, the account being there exactly when one was. */
  lemma AtMostOneRegistration(c: Config, es: seq<Event>, t: nat, h: string)
    ensures var s := Run(c, INIT, es).db;
            && Claims(s.registered, t) <= 1
            && Lookups(s.registered, h) <= 1
            && (Lookups(s.registered, h) == 1 <==> h in s.accounts)
  {
    var s := Run(c, INIT, es).db;
    RunBooks(c, INIT, es);
    RunKeeps(c, INIT, es);
    assert BookedFor(s, h);
    if t in s.issued {
      var own := s.issued[t].emailLookup;
      assert BookedFor(s, own);
      ClaimsAmongLookups(s.registered, t, own);
    } else {
      Unclaimed(s.registered, t);
    }
  }

  // ------------------------------------------------------- what is registered

  /** The run holds a start of this token with this identity. */
  ghost predicate Started(es: seq<Event>, t: nat, x: Identity) {
    exists i :: 0 <= i < |es| && es[i].Start? && es[i].token == t && es[i].identity == x
  }

  ghost predicate AllStarted(s: Db, es: seq<Event>) { forall t :: t in s.issued ==> Started(es, t, s.issued[t]) }

  lemma StepStarts(c: Config, s: State, e: Event, t: nat)
    requires t in Step(c, s, e).db.issued
    ensures || (t in s.db.issued && Step(c, s, e).db.issued[t] == s.db.issued[t])
            || (e.Start? && e.token == t && Step(c, s, e).db.issued[t] == e.identity)
  {
  }

  lemma StartedLater(past: seq<Event>, e: Event, t: nat, x: Identity)
    ensures Started(past, t, x) ==> Started(past + [e], t, x)
    ensures e.Start? && e.token == t && e.identity == x ==> Started(past + [e], t, x)
  {
    assert (past + [e])[|past|] == e;
    if Started(past, t, x) {
      var i :| 0 <= i < |past| && past[i].Start? && past[i].token == t && past[i].identity == x;
      assert (past + [e])[i] == past[i];
    }
  }

  lemma {:induction false} RunStarts(c: Config, s: State, past: seq<Event>, es: seq<Event>)
    requires AllStarted(s.db, past)
    ensures AllStarted(Run(c, s, es).db, past + es)
    decreases |es|
  {
    if es == [] {
      assert past + es == past;
    } else {
      var m := Step(c, s, es[0]);
      forall t | t in m.db.issued ensures Started(past + [es[0]], t, m.db.issued[t]) {
        StepStarts(c, s, es[0], t);
        StartedLater(past, es[0], t, m.db.issued[t]);
      }
      RunStarts(c, m, past + [es[0]], es[1..]);
      assert past + [es[0]] + es[1..] == past + es;
    }
  }

  /** The account tables hold each completed registration as it was completed,
      and nothing else. */
  ghost predicate Filed(s: Db) {
    && (forall h :: h in s.accounts ==> s.accounts[h].emailLookup == h && Completed(s, s.accounts[h]))
    && (forall i :: 0 <= i < |s.registered| ==>
          var x := s.registered[i].1;
          x.emailLookup in s.accounts && s.accounts[x.emailLookup] == x)
  }

  ghost predicate Completed(s: Db, x: Identity) { exists i :: 0 <= i < |s.registered| && s.registered[i].1 == x }

  lemma RegisterFiles(s: Db, token: nat, identity: Identity)
    requires Filed(s)
    ensures Filed(DoRegister(s, token, identity))
  {
    var t := DoRegister(s, token, identity);
    if t != s {
      assert t.registered[|s.registered|] == (token, identity);
      forall h | h in t.accounts ensures t.accounts[h].emailLookup == h && Completed(t, t.accounts[h]) {
        if h in s.accounts {
          var i :| 0 <= i < |s.registered| && s.registered[i].1 == s.accounts[h];
          assert t.registered[i] == s.registered[i];
        }
      }
    }
  }

  lemma StepFiles(c: Config, s: State, e: Event)
    requires Filed(s.db)
    ensures Filed(Step(c, s, e).db)
  {
    var t := Step(c, s, e).db;
    if e.Register? && e.r in s.flights && Fits(e, s.flights[e.r]) {
      RegisterFiles(s.db, s.flights[e.r].token, s.flights[e.r].value.identity);
    } else {
      assert t.accounts == s.db.accounts && t.registered == s.db.registered;
      assert forall x :: Completed(s.db, x) ==> Completed(t, x);
    }
  }

  lemma {:induction false} RunFiles(c: Config, s: State, es: seq<Event>)
    requires Filed(s.db)
    ensures Filed(Run(c, s, es).db)
    decreases |es|
  {
    if es != [] {
      StepFiles(c, s, es[0]);
      RunFiles(c, Step(c, s, es[0]), es[1..]);
    }
  }

  /** In every interleaving, over either store, an account is field by field the
      identity with which its registration was completed, with which its token
      was put, and which a start of the run named. */
  lemma AccountsAreStarted(c: Config, es: seq<Event>, h: string)
    requires h in Run(c, INIT, es).db.accounts
    ensures var s := Run(c, INIT, es).db;
            exists i :: 0 <= i < |s.registered|
              && s.registered[i].1.emailLookup == h && s.accounts[h] == s.registered[i].1
              && s.registered[i].0 in s.issued && s.issued[s.registered[i].0] == s.accounts[h]
              && Started(es, s.registered[i].0, s.accounts[h])
  {
    var s := Run(c, INIT, es).db;
    RunFiles(c, INIT, es);
    RunKeeps(c, INIT, es);
    RunStarts(c, INIT, [], es);
    assert [] + es == es;
    assert Completed(s, s.accounts[h]);
    var i :| 0 <= i < |s.registered| && s.registered[i].1 == s.accounts[h];
    assert Started(es, s.registered[i].0, s.issued[s.registered[i].0]);
  }

  /** In every interleaving, over either store, what was registered stands in the
      account tables from then on, unchanged. */
  lemma RegistrationsAreStored(c: Config, es: seq<Event>, i: nat)
    requires i < |Run(c, INIT, es).db.registered|
    ensures var s := Run(c, INIT, es).db;
            var x := s.registered[i].1;
            x.emailLookup in s.accounts && s.accounts[x.emailLookup] == x && Started(es, s.registered[i].0, x)
  {
    var s := Run(c, INIT, es).db;
    RunFiles(c, INIT, es);
    RunKeeps(c, INIT, es);
    RunStarts(c, INIT, [], es);
    assert [] + es == es;
    assert Started(es, s.registered[i].0, s.issued[s.registered[i].0]);
  }

  /** Each completed registration follows a successful consume of its token. */
  lemma RegistrationsAreEarned(c: Config, es: seq<Event>, i: nat)
    requires i < |Run(c, INIT, es).db.registered|
    ensures Run(c, INIT, es).db.registered[i] in Run(c, INIT, es).db.claims
  {
    RunBooks(c, INIT, es);
  }
}
