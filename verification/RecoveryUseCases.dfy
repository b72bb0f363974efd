/**
  The password recovery use cases as they run without interference: each is the
  run of its own store and database calls, and together they rotate a password
  exactly once.
 */
module RecoveryUseCases {
  import opened Common
  import opened Recovery

  function Quiet(s: Db): State { State(s, map[]) }

  /** What a recovery request leaves: a reference and a redeemable row, or the
      reference discarded again when the link could not be recorded or sent. */
  function Requested(s: Db, token: nat, user: nat, lifetime: int, outcome: Insertion, delivered: bool,
                     storeUp: bool): Db {
    if token in s.issued then s
    else Settled(Began(s, Put(0, token, user, lifetime)), token, s.now + lifetime, outcome, delivered, storeUp)
  }

  function Settled(s: Db, token: nat, expires: int, outcome: Insertion, delivered: bool, storeUp: bool): Db
    requires token in s.issued
  {
    var i := s.issued[token];
    var inserted := outcome.Inserted? && token !in s.rows;
    var kept := if inserted then s.(rows := s.rows[token := Row(i.transaction, i.user, expires, false)]) else s;
    if (inserted && delivered) || !storeUp then kept
    else Drop(kept, token, i.transaction).(log := kept.log + [Discarded(token)])
  }

  /** What a completion leaves. */
  function Redeemed(s: Db, token: nat, password: string, readUp: bool, consumeUp: bool): Db {
    if !readUp || token !in s.store then s
    else
      var read := Began(s, Read(0, token, true));
      var done := DoComplete(read, Reading(token, s.next, s.store[token].reference), password);
      if Rotates(s, token, readUp) && consumeUp then Drop(done, token, s.store[token].reference) else done
  }

  predicate Rotates(s: Db, token: nat, readUp: bool) {
    readUp && token in s.store && Redeemable(s, token) && HasCredential(s, token)
  }

  // ------------------------------------------------------- runs of the machine

  lemma Lands(f: Flight)
    ensures Onward(map[0 := f], 0, None) == map[]
  {
  }

  lemma Replaces(f: Flight, g: Flight)
    ensures Onward(map[0 := f], 0, Some(g)) == map[0 := g]
  {
  }

  lemma Idle(s: Db, e: Event)
    requires (e.CreateRow? || e.Send? || e.Discard? || e.Complete? || e.Consume?) && e.r == 0
    ensures Step(Quiet(s), e) == Quiet(s)
  {
  }

  lemma FourSteps(s: State, a: Event, b: Event, c: Event, d: Event)
    ensures Run(s, [a, b, c, d]) == Step(Step(Step(Step(s, a), b), c), d)
  {
    assert [a, b, c, d][1..] == [b, c, d];
    ThreeSteps(Step(s, a), b, c, d);
  }

  lemma ThreeSteps(s: State, a: Event, b: Event, c: Event)
    ensures Run(s, [a, b, c]) == Step(Step(Step(s, a), b), c)
  {
    assert [a, b, c][1..] == [b, c] && [b, c][1..] == [c] && [c][1..] == [];
    assert Run(Step(Step(s, a), b), [c]) == Step(Step(Step(s, a), b), c);
    assert Run(Step(s, a), [b, c]) == Run(Step(Step(s, a), b), [c]);
  }

  lemma PutAlone(s: Db, token: nat, user: nat, lifetime: int)
    ensures Step(Quiet(s), Put(0, token, user, lifetime)) ==
            if token in s.issued then Quiet(s)
            else State(Began(s, Put(0, token, user, lifetime)), map[0 := Stored(token, s.now + lifetime)])
  {
  }

  lemma RestIsIdle(s: Db, outcome: Insertion, delivered: bool, storeUp: bool)
    ensures Step(Step(Step(Quiet(s), CreateRow(0, outcome)), Send(0, delivered)), Discard(0, storeUp)) == Quiet(s)
  {
  }

  lemma RequestIsRun(s: Db, token: nat, user: nat, lifetime: int, outcome: Insertion, delivered: bool, storeUp: bool)
    ensures Run(Quiet(s),
                [Put(0, token, user, lifetime), CreateRow(0, outcome), Send(0, delivered), Discard(0, storeUp)])
         == Quiet(Requested(s, token, user, lifetime, outcome, delivered, storeUp))
  {
    FourSteps(Quiet(s), Put(0, token, user, lifetime), CreateRow(0, outcome), Send(0, delivered), Discard(0, storeUp));
    RequestIsSteps(s, token, user, lifetime, outcome, delivered, storeUp);
  }

  lemma RequestIsSteps(s: Db, token: nat, user: nat, lifetime: int, outcome: Insertion, delivered: bool, storeUp: bool)
    ensures Step(Step(Step(Step(Quiet(s), Put(0, token, user, lifetime)), CreateRow(0, outcome)),
                      Send(0, delivered)), Discard(0, storeUp))
         == Quiet(Requested(s, token, user, lifetime, outcome, delivered, storeUp))
  {
    if token in s.issued {
      PutAlone(s, token, user, lifetime);
      RestIsIdle(s, outcome, delivered, storeUp);
    } else {
      NewRequestIsSteps(s, token, user, lifetime, outcome, delivered, storeUp, Began(s, Put(0, token, user, lifetime)));
    }
  }

  lemma NewRequestIsSteps(s: Db, token: nat, user: nat, lifetime: int, outcome: Insertion, delivered: bool,
                          storeUp: bool, t: Db)
    requires token !in s.issued && t == Began(s, Put(0, token, user, lifetime))
    ensures Step(Step(Step(Step(Quiet(s), Put(0, token, user, lifetime)), CreateRow(0, outcome)),
                      Send(0, delivered)), Discard(0, storeUp))
         == Quiet(Requested(s, token, user, lifetime, outcome, delivered, storeUp))
  {
    PutAlone(s, token, user, lifetime);
    PutIssues(s, token, user, lifetime);
    RequestedMeans(s, token, user, lifetime, outcome, delivered, storeUp);
    RequestContinues(t, token, s.now + lifetime, outcome, delivered, storeUp);
  }

  lemma RequestedMeans(s: Db, token: nat, user: nat, lifetime: int, outcome: Insertion, delivered: bool, storeUp: bool)
    requires token !in s.issued && token in Began(s, Put(0, token, user, lifetime)).issued
    ensures Requested(s, token, user, lifetime, outcome, delivered, storeUp) ==
            Settled(Began(s, Put(0, token, user, lifetime)), token, s.now + lifetime, outcome, delivered, storeUp)
  {
  }

  lemma PutIssues(s: Db, token: nat, user: nat, lifetime: int)
    requires token !in s.issued
    ensures token in Began(s, Put(0, token, user, lifetime)).issued
  {
  }

  lemma RequestContinues(s: Db, token: nat, expires: int, outcome: Insertion, delivered: bool, storeUp: bool)
    requires token in s.issued
    ensures Step(Step(Step(State(s, map[0 := Stored(token, expires)]), CreateRow(0, outcome)), Send(0, delivered)),
                 Discard(0, storeUp))
         == Quiet(Settled(s, token, expires, outcome, delivered, storeUp))
  {
  }

  lemma CompletionIsRun(s: Db, token: nat, password: string, readUp: bool, consumeUp: bool)
    ensures Run(Quiet(s), [Read(0, token, readUp), Complete(0, password), Consume(0, consumeUp)])
         == Quiet(Redeemed(s, token, password, readUp, consumeUp))
  {
    var a, b, c := Read(0, token, readUp), Complete(0, password), Consume(0, consumeUp);
    ThreeSteps(Quiet(s), a, b, c);
    var none: map<nat, Flight> := map[];
    assert none - {0} == none;
    if !readUp || token !in s.store {
      Idle(s, b);
      Idle(s, c);
    } else {
      var reference := s.store[token].reference;
      var f := Reading(token, s.next, reference);
      var done := DoComplete(Began(s, a), f, password);
      if Rotates(s, token, readUp) {
        Replaces(f, Completed(token, s.next, reference));
        Lands(Completed(token, s.next, reference));
      } else {
        Lands(f);
        Idle(done, c);
      }
    }
  }

  // -------------------------------------------------------------- end to end

  function Later(s: Db, seconds: nat): Db { Began(s, Tick(seconds)) }

  /** A link that was delivered rotates its user's password within its
      lifetime, and nobody else's, clears the user's failed logins and ends the open
      sessions. */
  lemma DeliveredLinkWorks(s: Db, token: nat, user: nat, lifetime: int, seconds: nat, password: string, up: bool)
    requires token !in s.issued && token !in s.rows && seconds < lifetime && user in s.accounts.credentials
    ensures var r := Later(Requested(s, token, user, lifetime, Inserted, true, up), seconds);
            RotatedTo(s.accounts, Redeemed(r, token, password, true, up).accounts, user, password, s.now + seconds)
  {
    var r := Later(Requested(s, token, user, lifetime, Inserted, true, up), seconds);
    LinkWaits(s, token, user, lifetime, seconds, up, r);
    RedeemedRotates(r, token, password, up);
  }

  lemma LinkWaits(s: Db, token: nat, user: nat, lifetime: int, seconds: nat, up: bool, r: Db)
    requires token !in s.issued && token !in s.rows && seconds < lifetime
    requires r == Later(Requested(s, token, user, lifetime, Inserted, true, up), seconds)
    ensures r.accounts == s.accounts && r.now == s.now + seconds
    ensures token in r.store && Redeemable(r, token) && r.rows[token].user == user
  {
  }

  lemma RedeemedRotates(r: Db, token: nat, password: string, up: bool)
    requires Rotates(r, token, true)
    ensures RotatedTo(r.accounts, Redeemed(r, token, password, true, up).accounts, r.rows[token].user, password, r.now)
  {
    RotateMeans(r.accounts, r.rows[token].user, password, r.now);
  }

  predicate Claimed(s: Db, token: nat) { token in s.rows && s.rows[token].consumed }

  predicate RotatesToken(x: Fact, token: nat) { x.Rotated? && x.token == token }

  /** From one history to a longer one without a rotation of the token. */
  ghost predicate NoNewRotation(s: Db, t: Db, token: nat) {
    s.log <= t.log && forall i :: |s.log| <= i < |t.log| ==> !RotatesToken(t.log[i], token)
  }

  lemma ClaimedStep(s: State, e: Event, token: nat)
    requires Claimed(s.db, token)
    ensures Claimed(Step(s, e).db, token) && NoNewRotation(s.db, Step(s, e).db, token)
  {
  }

  lemma {:induction false} ClaimedStays(s: State, es: seq<Event>, token: nat)
    requires Claimed(s.db, token)
    ensures Claimed(Run(s, es).db, token) && NoNewRotation(s.db, Run(s, es).db, token)
    decreases |es|
  {
    if es != [] {
      var m, t := Step(s, es[0]), Run(s, es);
      ClaimedStep(s, es[0], token);
      ClaimedStays(m, es[1..], token);
      forall i | |s.db.log| <= i < |t.db.log| ensures !RotatesToken(t.db.log[i], token) {
        if i < |m.db.log| { assert t.db.log[i] == m.db.log[i]; }
      }
    }
  }

  /** After a completion that claimed the row, whether or not it found a
      credential to rotate or could consume the reference, nothing that happens
      later, whatever requests are in flight by then and however they interleave,
      rotates a password through this link. */
  lemma LinkWorksOnce(s: Db, token: nat, password: string, up: bool, flights: map<nat, Flight>, later: seq<Event>)
    requires token in s.store && Redeemable(s, token)
    ensures var r := Redeemed(s, token, password, true, up);
            NoNewRotation(r, Run(State(r, flights), later).db, token)
  {
    var r := Redeemed(s, token, password, true, up);
    assert Claimed(r, token);
    ClaimedStays(State(r, flights), later, token);
  }

  /** A link whose request was discarded never works. */
  lemma DiscardedLinkIsDead(s: Db, token: nat, user: nat, lifetime: int, outcome: Insertion, seconds: nat,
                            password: string)
    requires token !in s.issued
    ensures var r := Later(Requested(s, token, user, lifetime, outcome, false, true), seconds);
            Redeemed(r, token, password, true, true) == r
  {
  }

  // ------------------------------------------------------------ the use cases

  class RecoveryDesk {
    var db: Db

    constructor (credentials: map<nat, Credential>)
      ensures db == Init(credentials).db
    {
      db := Init(credentials).db;
    }

    /** `RequestPasswordRecovery.execute`, once the account was found active. */
    method Request(token: nat, user: nat, lifetime: int, outcome: Insertion, delivered: bool, storeUp: bool)
      modifies this
      ensures db == Requested(old(db), token, user, lifetime, outcome, delivered, storeUp)
      ensures token in old(db).issued ==> db == old(db)
      ensures token !in old(db).issued ==>
              && db.issued == old(db).issued[token := Issue(old(db).next, user)]
              && var inserted := outcome.Inserted? && token !in old(db).rows;
              && db.rows == (if inserted then old(db).rows[token := Row(old(db).next, user, db.now + lifetime, false)]
                             else old(db).rows)
              && db.store == (if (inserted && delivered) || !storeUp
                              then old(db).store[token := Entry(old(db).next, db.now + AtLeastMinute(lifetime))]
                              else old(db).store - {token})
      ensures db.accounts == old(db).accounts && db.now == old(db).now
    {
      if token in db.issued { return; }
      var transaction, expires := db.next, db.now + lifetime;
      db := Began(db, Put(0, token, user, lifetime));
      var created := outcome.Inserted? && token !in db.rows;
      if !created {
        DiscardToken(token, transaction, storeUp);
        return;
      }
      db := db.(rows := db.rows[token := Row(transaction, user, expires, false)]);
      if !delivered { DiscardToken(token, transaction, storeUp); }
    }

    method DiscardToken(token: nat, transaction: nat, storeUp: bool)
      modifies this
      ensures db == if storeUp then Drop(old(db), token, transaction).(log := old(db).log + [Discarded(token)])
              else old(db)
    {
      if !storeUp { return; }
      if token in db.store && db.store[token].reference == transaction {
        db := db.(store := db.store - {token});
      }
      db := db.(log := db.log + [Discarded(token)]);
    }

    /** `CompletePasswordRecovery.execute`, for a well-shaped token and password. */
    method Complete(token: nat, password: string, readUp: bool, consumeUp: bool) returns (user: Option<nat>)
      modifies this
      ensures db == Redeemed(old(db), token, password, readUp, consumeUp)
      ensures user.Some? <==>
              && readUp && token in old(db).store && token in old(db).rows
              && !old(db).rows[token].consumed && db.now < old(db).rows[token].expires
              && old(db).rows[token].user in old(db).accounts.credentials
      ensures user.Some? ==>
              && user.value == old(db).rows[token].user
              && RotatedTo(old(db).accounts, db.accounts, user.value, password, db.now)
              && db.store == (if consumeUp then old(db).store - {token} else old(db).store)
      ensures user.None? ==> db.accounts == old(db).accounts && db.store == old(db).store
      ensures db.rows == if readUp && token in old(db).store && token in old(db).rows
                            && !old(db).rows[token].consumed && db.now < old(db).rows[token].expires
                         then old(db).rows[token := old(db).rows[token].(consumed := true)] else old(db).rows
      ensures db.now == old(db).now && db.issued == old(db).issued
    {
      if !readUp || token !in db.store { return None; }
      var reference, attempt := db.store[token].reference, db.next;
      db := db.(next := db.next + 1, log := db.log + [Found(token, attempt, reference)]);
      if token !in db.rows || db.rows[token].consumed || db.rows[token].expires <= db.now { return None; }
      var row := db.rows[token];
      db := db.(rows := db.rows[token := row.(consumed := true)]);
      if row.user !in db.accounts.credentials { return None; }
      RotateMeans(db.accounts, row.user, password, db.now);
      db := db.(accounts := Rotate(db.accounts, row.user, password, db.now),
                log := db.log + [Rotated(token, attempt, row.transaction, row.user, password)]);
      if consumeUp && token in db.store && db.store[token].reference == reference {
        db := db.(store := db.store - {token});
      }
      return Some(row.user);
    }
  }
}
