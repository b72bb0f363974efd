/**
  How many wrong codes a registration token bears: five when every start,
  resend and verification runs to its end before the next begins, and no bound
  at all when resends overlap verifications.
 */
module RegistrationAttempts {
  import opened Common
  import opened Registration

  /** One whole request, run alone; or time passing. */
  datatype Op =
    | Wait(seconds: nat)
    | DoStart(token: nat, identity: Identity, code: nat, delivered: bool, storeUp: bool)
    | DoResend(token: nat, code: nat, decryptable: bool, delivered: bool, storeUp: bool)
    | DoVerify(token: nat, code: nat, refused: bool)

  /** Its store calls, in order; calls that do not apply do nothing. */
  function Script(op: Op): seq<Event> {
    match op
    case Wait(d) => [Tick(d)]
    case DoStart(t, identity, code, delivered, up) => [Start(0, t, identity, code), FinishSend(0, delivered, up)]
    case DoResend(t, code, decryptable, delivered, up) =>
      [ReadResend(0, t, decryptable), WriteResend(0, code), FinishSend(0, delivered, up)]
    case DoVerify(t, code, refused) => [ReadVerify(0, t, code), WriteWrong(0), ClaimRight(0), Register(0, refused)]
  }

  function Serial(ops: seq<Op>): seq<Event> {
    if ops == [] then [] else Script(ops[0]) + Serial(ops[1..])
  }

  // What each request alone does to the store.

  function Dropped(s: Db, token: nat, value: Pending, delivered: bool, up: bool): Db {
    if delivered || !up || !Holds(s, token, value) then s else s.(store := s.store - {token})
  }

  function Slipped(c: Config, s: Db, token: nat, value: Pending): Db {
    Keep(c, s, token, value.(attempts := value.attempts + 1)).(wrong := s.wrong + [token])
  }

  function Redeemed(s: Db, token: nat, value: Pending, refused: bool): Db {
    var consumed := s.(store := s.store - {token}, claims := s.claims + [(token, value.identity)]);
    if refused then consumed else DoRegister(consumed, token, value.identity)
  }

  function Perform(c: Config, s: Db, op: Op): Db {
    match op
    case Wait(d) => s.(now := s.now + d, store := Purge(s.store, s.now + d))
    case DoStart(t, identity, code, delivered, up) =>
      if t in s.issued then s
      else Dropped(Began(c, s, Start(0, t, identity, code)), t, Pending(identity, code, 0), delivered, up)
    case DoResend(t, code, decryptable, delivered, up) =>
      if !Guessable(s, t) || !decryptable then s
      else
        var value := s.store[t].value.(code := code);
        Dropped(Keep(c, s, t, value), t, value, delivered, up)
    case DoVerify(t, code, refused) =>
      if !Guessable(s, t) then s
      else
        var value := s.store[t].value;
        if value.code == code then Redeemed(s, t, value, refused) else Slipped(c, s, t, value)
  }

  function PerformAll(c: Config, s: Db, ops: seq<Op>): Db
    decreases |ops|
  {
    if ops == [] then s else PerformAll(c, Perform(c, s, ops[0]), ops[1..])
  }

  function Quiet(s: Db): State { State(s, map[]) }

  lemma NothingToLand(r: nat)
    ensures Onward<Flight>(map[], r, None) == map[]
  {
  }

  lemma LandsAlone(f: Flight)
    ensures Onward(map[0 := f], 0, None) == map[]
  {
  }

  lemma TwoSteps(c: Config, s: State, a: Event, b: Event)
    ensures Run(c, s, [a, b]) == Step(c, Step(c, s, a), b)
  {
    assert [a, b][1..] == [b] && [b][1..] == [];
    assert Run(c, Step(c, s, a), [b]) == Step(c, Step(c, s, a), b);
  }

  lemma ThreeSteps(c: Config, s: State, a: Event, b: Event, d: Event)
    ensures Run(c, s, [a, b, d]) == Step(c, Step(c, Step(c, s, a), b), d)
  {
    assert [a, b, d][1..] == [b, d];
    TwoSteps(c, Step(c, s, a), b, d);
  }

  lemma FourSteps(c: Config, s: State, a: Event, b: Event, d: Event, e: Event)
    ensures Run(c, s, [a, b, d, e]) == Step(c, Step(c, Step(c, Step(c, s, a), b), d), e)
  {
    assert [a, b, d, e][1..] == [b, d, e];
    ThreeSteps(c, Step(c, s, a), b, d, e);
  }

  /** A later call of a request that is not in flight does nothing. */
  lemma Idle(c: Config, s: Db, e: Event)
    requires e.FinishSend? || e.WriteResend? || e.WriteWrong? || e.ClaimRight? || e.Register?
    ensures Step(c, Quiet(s), e) == Quiet(s)
  {
  }

  lemma StartAlone(c: Config, s: Db, op: Op)
    requires op.DoStart?
    ensures Run(c, Quiet(s), Script(op)) == Quiet(Perform(c, s, op))
  {
    var a, b := Start(0, op.token, op.identity, op.code), FinishSend(0, op.delivered, op.storeUp);
    TwoSteps(c, Quiet(s), a, b);
    NothingToLand(0);
    if op.token in s.issued {
      Idle(c, s, b);
    } else {
      LandsAlone(Sending(op.token, Pending(op.identity, op.code, 0)));
    }
  }

  lemma ResendAlone(c: Config, s: Db, op: Op)
    requires op.DoResend?
    ensures Run(c, Quiet(s), Script(op)) == Quiet(Perform(c, s, op))
  {
    var a, b := ReadResend(0, op.token, op.decryptable), WriteResend(0, op.code);
    var d := FinishSend(0, op.delivered, op.storeUp);
    ThreeSteps(c, Quiet(s), a, b, d);
    NothingToLand(0);
    if !Guessable(s, op.token) || !op.decryptable {
      Idle(c, s, b);
      Idle(c, s, d);
    } else {
      var read := ResendRead(op.token, s.store[op.token].value);
      var sent := Sending(op.token, s.store[op.token].value.(code := op.code));
      assert map[0 := read][0 := sent] == map[0 := sent];
      LandsAlone(sent);
    }
  }

  lemma VerifyAlone(c: Config, s: Db, op: Op)
    requires op.DoVerify?
    ensures Run(c, Quiet(s), Script(op)) == Quiet(Perform(c, s, op))
  {
    var a, b, d, e := ReadVerify(0, op.token, op.code), WriteWrong(0), ClaimRight(0), Register(0, op.refused);
    FourSteps(c, Quiet(s), a, b, d, e);
    NothingToLand(0);
    if !Guessable(s, op.token) {
      Idle(c, s, b);
      Idle(c, s, d);
      Idle(c, s, e);
    } else {
      var value := s.store[op.token].value;
      if value.code == op.code {
        var consumed := Consumed(op.token, value);
        assert map[0 := RightCode(op.token, value)][0 := consumed] == map[0 := consumed];
        LandsAlone(consumed);
      } else {
        LandsAlone(WrongCode(op.token, value));
        Idle(c, Perform(c, s, op), d);
        Idle(c, Perform(c, s, op), e);
      }
    }
  }

  lemma PerformIsScript(c: Config, s: Db, op: Op)
    ensures Run(c, Quiet(s), Script(op)) == Quiet(Perform(c, s, op))
  {
    match op
    case Wait(d) => assert [Tick(d)][1..] == [];
    case DoStart(_, _, _, _, _) => StartAlone(c, s, op);
    case DoResend(_, _, _, _, _) => ResendAlone(c, s, op);
    case DoVerify(_, _, _) => VerifyAlone(c, s, op);
  }

  lemma PerformKeeps(c: Config, s: Db, op: Op)
    requires SameIdentity(s) && Filed(s)
    ensures SameIdentity(Perform(c, s, op)) && Filed(Perform(c, s, op))
  {
    PerformIsScript(c, s, op);
    RunKeeps(c, Quiet(s), Script(op));
    RunFiles(c, Quiet(s), Script(op));
  }

  lemma {:induction false} SerialIsPerform(c: Config, s: Db, ops: seq<Op>)
    ensures Run(c, Quiet(s), Serial(ops)) == Quiet(PerformAll(c, s, ops))
    decreases |ops|
  {
    if ops != [] {
      RunAppend(c, Quiet(s), Script(ops[0]), Serial(ops[1..]));
      PerformIsScript(c, s, ops[0]);
      SerialIsPerform(c, Perform(c, s, ops[0]), ops[1..]);
    }
  }

  // ------------------------------------------------------------- the bound

  function Count(wrong: seq<nat>, t: nat): nat {
    if wrong == [] then 0 else Count(wrong[..|wrong| - 1], t) + (if wrong[|wrong| - 1] == t then 1 else 0)
  }

  lemma CountGrows(wrong: seq<nat>, x: nat, t: nat)
    ensures Count(wrong + [x], t) == Count(wrong, t) + (if x == t then 1 else 0)
  {
  }

  /** While the entry lives its counter is the number of wrong codes so far. */
  ghost predicate Tallied(s: Db, t: nat) {
    && Count(s.wrong, t) <= MAX_ATTEMPTS
    && (t in s.store ==> t in s.issued && s.store[t].value.attempts == Count(s.wrong, t))
    && (t !in s.issued ==> Count(s.wrong, t) == 0)
  }

  lemma PerformTallies(c: Config, s: Db, op: Op, t: nat)
    requires Tallied(s, t)
    ensures Tallied(Perform(c, s, op), t)
  {
    if !op.DoVerify? {
      OthersKeepTally(c, s, op, t);
    } else if Guessable(s, op.token) {
      var value := s.store[op.token].value;
      if value.code == op.code { RedeemedTallies(s, op.token, value, op.refused, t); }
      else { SlippedTallies(c, s, op.token, value, t); }
    }
  }

  lemma SlippedTallies(c: Config, s: Db, token: nat, value: Pending, t: nat)
    requires Tallied(s, t) && Holds(s, token, value) && value.attempts < MAX_ATTEMPTS
    ensures Tallied(Slipped(c, s, token, value), t)
  {
  }

  lemma RedeemedTallies(s: Db, token: nat, value: Pending, refused: bool, t: nat)
    requires Tallied(s, t)
    ensures Tallied(Redeemed(s, token, value, refused), t)
  {
  }

  lemma OthersKeepTally(c: Config, s: Db, op: Op, t: nat)
    requires !op.DoVerify? && Tallied(s, t)
    ensures var s' := Perform(c, s, op);
            && s'.wrong == s.wrong && (t in s.issued ==> t in s'.issued)
            && (t in s'.store ==> t in s'.issued && s'.store[t].value.attempts == Count(s.wrong, t))
  {
    if op.DoResend? { ResendKeepsTally(c, s, op, t); }
  }

  lemma ResendKeepsTally(c: Config, s: Db, op: Op, t: nat)
    requires op.DoResend? && Tallied(s, t)
    ensures var s' := Perform(c, s, op);
            && s'.wrong == s.wrong && s'.issued == s.issued
            && (t in s'.store ==> t in s.issued && s'.store[t].value.attempts == Count(s.wrong, t))
  {
  }

  lemma {:induction false} AllTally(c: Config, s: Db, ops: seq<Op>, t: nat)
    requires Tallied(s, t)
    ensures Tallied(PerformAll(c, s, ops), t)
    decreases |ops|
  {
    if ops != [] {
      PerformTallies(c, s, ops[0], t);
      AllTally(c, Perform(c, s, ops[0]), ops[1..], t);
    }
  }

  /** Run one at a time, requests never compare more than five wrong codes for
      a token, over either store and across any number of resends. */
  lemma FiveWrongCodes(c: Config, ops: seq<Op>, t: nat)
    ensures Count(Run(c, INIT, Serial(ops)).db.wrong, t) <= 5
  {
    SerialIsPerform(c, INIT.db, ops);
    AllTally(c, INIT.db, ops, t);
  }

  ghost predicate StaysSpent(s: Db, s': Db, t: nat) {
    && Claims(s'.claims, t) == Claims(s.claims, t)
    && Count(s'.wrong, t) == Count(s.wrong, t)
    && (t in s.issued ==> t in s'.issued)
    && (t in s'.store ==> t in s.store && s'.store[t] == s.store[t])
  }

  lemma VerifyStaysSpent(c: Config, s: Db, op: Op, t: nat)
    requires t in s.issued && !Guessable(s, t) && op.DoVerify?
    ensures StaysSpent(s, Perform(c, s, op), t)
  {
    if Guessable(s, op.token) {
      var value := s.store[op.token].value;
      assert op.token != t;
      if value.code == op.code {
        RedeemedElsewhere(s, op.token, value, op.refused, t);
        assert Perform(c, s, op) == Redeemed(s, op.token, value, op.refused);
      } else {
        SlippedElsewhere(c, s, op.token, value, t);
        assert Perform(c, s, op) == Slipped(c, s, op.token, value);
      }
    } else {
      assert Perform(c, s, op) == s;
    }
  }

  lemma SlippedElsewhere(c: Config, s: Db, token: nat, value: Pending, t: nat)
    requires token != t
    ensures StaysSpent(s, Slipped(c, s, token, value), t)
  {
  }

  lemma RedeemedElsewhere(s: Db, token: nat, value: Pending, refused: bool, t: nat)
    requires token != t
    ensures StaysSpent(s, Redeemed(s, token, value, refused), t)
  {
  }

  lemma OthersStaySpent(c: Config, s: Db, op: Op, t: nat)
    requires t in s.issued && !Guessable(s, t) && !op.DoVerify?
    ensures StaysSpent(s, Perform(c, s, op), t)
  {
  }

  lemma {:induction false} SpentStays(c: Config, s: Db, ops: seq<Op>, t: nat)
    requires t in s.issued && !Guessable(s, t)
    ensures StaysSpent(s, PerformAll(c, s, ops), t)
    decreases |ops|
  {
    if ops != [] {
      if ops[0].DoVerify? { VerifyStaysSpent(c, s, ops[0], t); } else { OthersStaySpent(c, s, ops[0], t); }
      SpentStays(c, Perform(c, s, ops[0]), ops[1..], t);
    }
  }

  /** After the fifth wrong code no code is accepted any more and the stored
      entry, deadline included, no longer changes until it expires. */
  lemma FifthWrongCodeIsFinal(c: Config, past: seq<Op>, later: seq<Op>, t: nat)
    requires Count(Run(c, INIT, Serial(past)).db.wrong, t) == 5
    ensures var s, s' := Run(c, INIT, Serial(past)).db, Run(c, INIT, Serial(past) + Serial(later)).db;
            && Claims(s'.claims, t) == Claims(s.claims, t)
            && Count(s'.wrong, t) == 5
            && (t in s'.store ==> t in s.store && s'.store[t] == s.store[t])
  {
    SerialIsPerform(c, INIT.db, past);
    var s := PerformAll(c, INIT.db, past);
    AllTally(c, INIT.db, past, t);
    RunAppend(c, INIT, Serial(past), Serial(later));
    SerialIsPerform(c, s, later);
    SpentStays(c, s, later, t);
  }

  // ------------------------------------------------------------- lifetimes

  function Lifetimes(c: Config, n: nat): int { if n == 0 then 0 else Lifetimes(c, n - 1) + Seconds(c) }

  lemma {:induction false} LifetimesAre(c: Config, n: nat, m: nat)
    requires n <= m
    ensures Lifetimes(c, n) <= Lifetimes(c, m) == m * Seconds(c)
    decreases m
  {
    if m > 0 {
      LifetimesAre(c, if n < m then n else m - 1, m - 1);
      assert m * Seconds(c) == (m - 1) * Seconds(c) + Seconds(c);
    }
  }

  ghost predicate Aging(c: Config, s: Db, t: nat) {
    t in s.store ==>
      && t in s.issued && t in s.born && s.store[t].expires > s.now
      && s.store[t].value.attempts <= MAX_ATTEMPTS
      && s.store[t].expires <= s.born[t] + Lifetimes(c, 1 + s.store[t].value.attempts)
  }

  lemma PerformAges(c: Config, s: Db, op: Op, t: nat)
    requires Aging(c, s, t) && !op.DoResend?
    ensures Aging(c, Perform(c, s, op), t)
  {
  }

  lemma Expired(c: Config, s: Db, t: nat)
    requires Aging(c, s, t) && t in s.born && s.now >= s.born[t] + 6 * Seconds(c)
    ensures t !in s.store
  {
    if t in s.store { LifetimesAre(c, 1 + s.store[t].value.attempts, 6); }
  }

  lemma {:induction false} AllAge(c: Config, s: Db, ops: seq<Op>, t: nat)
    requires Aging(c, s, t) && forall i :: 0 <= i < |ops| ==> !ops[i].DoResend?
    ensures Aging(c, PerformAll(c, s, ops), t)
    decreases |ops|
  {
    if ops != [] {
      PerformAges(c, s, ops[0], t);
      AllAge(c, Perform(c, s, ops[0]), ops[1..], t);
    }
  }

  lemma SecondsExactly(c: Config)
    ensures Seconds(c) >= 60 && Seconds(c) >= c.lifetime && (Seconds(c) == 60 || Seconds(c) == c.lifetime)
  {
  }

  /** Without resends an entry is gone six lifetimes, of a minute at least, after
      it was put, although every wrong code renews its deadline. */
  lemma GoneAfterSixLifetimes(c: Config, ops: seq<Op>, t: nat)
    requires forall i :: 0 <= i < |ops| ==> !ops[i].DoResend?
    ensures var s := Run(c, INIT, Serial(ops)).db;
            t in s.born && s.now >= s.born[t] + 6 * (if c.lifetime < 60 then 60 else c.lifetime) ==> t !in s.store
  {
    SecondsExactly(c);
    SerialIsPerform(c, INIT.db, ops);
    AllAge(c, INIT.db, ops, t);
    var s := PerformAll(c, INIT.db, ops);
    if t in s.born && s.now >= s.born[t] + 6 * Seconds(c) { Expired(c, s, t); }
  }

  // ------------------------------------------- overlapping resends: no bound

  /** A verification that runs to its end inside a resend: the resend's write
      restores the attempt count it had read. */
  const LOOP: seq<Event> :=
    [ReadResend(1, 0, true), ReadVerify(2, 0, 2), WriteWrong(2), WriteResend(1, 1), FinishSend(1, true, true)]

  function Loops(n: nat): seq<Event> { if n == 0 then [] else LOOP + Loops(n - 1) }

  function Waiting(c: Config, identity: Identity, n: nat): State {
    var p := Pending(identity, 1, 0);
    State(Db(0, map[0 := Entry(p, Seconds(c))], map[], map[0 := identity], map[0 := 0], map[0 := 0], [],
             seq(n, _ => 0), []), map[])
  }

  lemma LoopOnce(c: Config, identity: Identity, n: nat)
    ensures Run(c, Waiting(c, identity, n), LOOP) == Waiting(c, identity, n + 1)
  {
    var p := Pending(identity, 1, 0);
    var s := Waiting(c, identity, n);
    var wrong' := s.db.wrong + [0];
    var read, slip := ResendRead(0, p), WrongCode(0, p);
    var s1 := State(s.db, map[1 := read]);
    var s2 := State(s.db.(wrong := wrong'), map[1 := read, 2 := slip]);
    var s3 := State(s.db.(wrong := wrong', store := map[0 := Entry(p.(attempts := 1), Seconds(c))],
                          counters := map[0 := 1]), map[1 := read]);
    var s4 := State(s.db.(wrong := wrong'), map[1 := Sending(0, p)]);
    var s5 := State(s.db.(wrong := wrong'), map[]);
    assert Step(c, s, LOOP[0]) == s1;
    assert Step(c, s1, LOOP[1]) == s2;
    LoopWrite(c, s2, s3, s4, p);
    assert Step(c, s4, LOOP[4]) == s5 by { assert map[1 := Sending(0, p)] - {1} == map[]; }
    assert wrong' == Waiting(c, identity, n + 1).db.wrong;
    assert LOOP == LOOP[..2] + LOOP[2..] && LOOP[..2] == [LOOP[0], LOOP[1]] && LOOP[2..] == [LOOP[2], LOOP[3], LOOP[4]];
    TwoSteps(c, s, LOOP[0], LOOP[1]);
    ThreeSteps(c, s2, LOOP[2], LOOP[3], LOOP[4]);
    RunAppend(c, s, LOOP[..2], LOOP[2..]);
  }

  lemma LoopWrite(c: Config, s2: State, s3: State, s4: State, p: Pending)
    requires p.code == 1 && p.attempts == 0 && s2.db.now == 0 && s2.db.counters == map[0 := 0]
    requires s2.db.store == map[0 := Entry(p, Seconds(c))]
    requires s2.flights == map[1 := ResendRead(0, p), 2 := WrongCode(0, p)]
    requires s3 == State(s2.db.(store := map[0 := Entry(p.(attempts := 1), Seconds(c))], counters := map[0 := 1]),
                         map[1 := ResendRead(0, p)])
    requires s4 == State(s2.db, map[1 := Sending(0, p)])
    ensures Step(c, s2, WriteWrong(2)) == s3 && Step(c, s3, WriteResend(1, 1)) == s4
  {
    KeepsOnly(c, s2.db, p.(attempts := 1));
    KeepsOnly(c, s3.db, p);
    assert s2.flights - {2} == s3.flights;
    assert s3.flights[1 := Sending(0, p)] == s4.flights;
  }

  lemma KeepsOnly(c: Config, s: Db, value: Pending)
    requires s.now == 0 && s.store.Keys == {0} && s.counters.Keys == {0}
    ensures Keep(c, s, 0, value) ==
            s.(store := map[0 := Entry(value, Seconds(c))], counters := map[0 := value.attempts])
  {
  }

  lemma {:induction false} LoopsRun(c: Config, identity: Identity, k: nat, n: nat)
    ensures Run(c, Waiting(c, identity, k), Loops(n)) == Waiting(c, identity, k + n)
    decreases n
  {
    if n > 0 {
      LoopOnce(c, identity, k);
      RunAppend(c, Waiting(c, identity, k), LOOP, Loops(n - 1));
      LoopsRun(c, identity, k + 1, n - 1);
    }
  }

  lemma {:induction false} CountZeros(n: nat)
    ensures Count(seq(n, _ => 0), 0) == n
  {
    if n > 0 {
      assert seq(n, _ => 0)[..n - 1] == seq(n - 1, _ => 0);
      CountZeros(n - 1);
    }
  }

  /** With resends overlapping them, verifications that each run to their end
      compare any number of wrong codes, and the token stays guessable. */
  lemma OverlappingResendsLiftTheBound(c: Config, identity: Identity, n: nat)
    ensures var s := Run(c, INIT, [Start(0, 0, identity, 1), FinishSend(0, true, true)] + Loops(n)).db;
            Count(s.wrong, 0) == n && Guessable(s, 0)
  {
    var op := DoStart(0, identity, 1, true, true);
    StartAlone(c, INIT.db, op);
    assert Perform(c, INIT.db, op).wrong == seq(0, _ => 0);
    assert Quiet(Perform(c, INIT.db, op)) == Waiting(c, identity, 0);
    RunAppend(c, INIT, Script(op), Loops(n));
    LoopsRun(c, identity, 0, n);
    CountZeros(n);
  }

  // ------------------------------------------------------------- imperative

  /** The use cases run without interference, as their `execute` bodies do. */
  class RegistrationDesk {
    const config: Config
    var db: Db

    /** What every interleaving keeps: values carry the identity their token was
        put with, and accounts are the completed registrations. */
    ghost predicate Valid()
      reads this
    {
      SameIdentity(db) && Filed(db)
    }

    constructor (config: Config)
      ensures this.config == config && db == INIT.db && Valid()
    {
      this.config := config;
      db := INIT.db;
    }

    method GetPending(token: nat) returns (p: Option<Pending>)
      ensures p == if token in db.store then Some(db.store[token].value) else None
    {
      p := if token in db.store then Some(db.store[token].value) else None;
    }

    method PutPending(token: nat, value: Pending) returns (ok: bool)
      modifies this
      ensures ok <==> token !in old(db).issued
      ensures !ok ==> db == old(db)
      ensures ok ==>
              db == Keep(config, old(db), token, value).(issued := old(db).issued[token := value.identity],
                                                         born := old(db).born[token := old(db).now])
    {
      if token in db.issued { return false; }
      db := db.(store := db.store[token := Entry(value, db.now + Seconds(config))],
                issued := db.issued[token := value.identity], born := db.born[token := db.now],
                counters := db.counters[token := value.attempts]);
      return true;
    }

    method ReplacePending(token: nat, value: Pending) returns (ok: bool)
      modifies this
      ensures db == Replace(config, old(db), token, value)
      ensures ok <==> old(token in db.store) || config.upsert
    {
      if token !in db.store && !config.upsert { return false; }
      db := db.(store := db.store[token := Entry(value, db.now + Seconds(config))],
                counters := db.counters[token := value.attempts]);
      return true;
    }

    method ConsumePending(token: nat, value: Pending) returns (ok: bool)
      modifies this
      ensures ok <==> old(Holds(db, token, value))
      ensures db == if ok then old(db).(store := old(db).store - {token}) else old(db)
    {
      if token !in db.store || db.store[token].value != value { return false; }
      db := db.(store := db.store - {token});
      return true;
    }

    /** `StartEmailPasswordRegistration.execute`, once no account was found. */
    method Start(token: nat, identity: Identity, code: nat, delivered: bool, storeUp: bool) returns (sent: bool)
      requires Valid()
      modifies this
      ensures Valid() && db == Perform(config, old(db), DoStart(token, identity, code, delivered, storeUp))
      ensures sent <==> old(token !in db.issued) && delivered
      ensures old(token in db.issued) ==> db == old(db)
      ensures old(token !in db.issued) ==>
              && db.issued == old(db).issued[token := identity] && db.born == old(db).born[token := db.now]
              && db.store == (if !delivered && storeUp then old(db).store - {token}
                              else old(db).store[token := Entry(Pending(identity, code, 0), db.now + Seconds(config))])
      ensures db.accounts == old(db).accounts && db.registered == old(db).registered && db.now == old(db).now
    {
      PerformKeeps(config, db, DoStart(token, identity, code, delivered, storeUp));
      var pending := Pending(identity, code, 0);
      var stored := PutPending(token, pending);
      if !stored { return false; }
      if !delivered && storeUp { var gone := ConsumePending(token, pending); }
      return delivered;
    }

    /** `VerifyEmailPasswordRegistration.execute`; `refused` is a decryption
        or constraint failure other than a taken e-mail address. */
    method Verify(token: nat, code: nat, refused: bool) returns (registered: Option<Identity>)
      requires Valid()
      modifies this
      ensures Valid() && db == Perform(config, old(db), DoVerify(token, code, refused))
      ensures registered.Some? <==>
              && old(token in db.store && db.store[token].value.attempts < 5 && db.store[token].value.code == code)
              && old(db.store[token].value.identity.emailLookup !in db.accounts) && !refused
      ensures registered.Some? ==>
              && token in db.issued && registered.value == db.issued[token] == old(db.store[token].value.identity)
              && db.accounts == old(db).accounts[registered.value.emailLookup := registered.value]
              && db.registered == old(db).registered + [(token, registered.value)]
      ensures registered.None? ==> db.accounts == old(db).accounts && db.registered == old(db).registered
      ensures old(token !in db.store || db.store[token].value.attempts >= 5) ==> db == old(db)
      ensures old(token in db.store && db.store[token].value.attempts < 5 && db.store[token].value.code == code) ==>
              db.store == old(db).store - {token} && db.wrong == old(db).wrong
      ensures old(token in db.store && db.store[token].value.attempts < 5 && db.store[token].value.code != code) ==>
              && var was := old(db.store[token].value);
              && db.store == old(db).store[token := Entry(Pending(was.identity, was.code, was.attempts + 1),
                                                          db.now + Seconds(config))]
              && db.wrong == old(db).wrong + [token] && db.claims == old(db).claims
      ensures db.now == old(db).now && db.issued == old(db).issued
    {
      PerformKeeps(config, db, DoVerify(token, code, refused));
      var current := GetPending(token);
      if current.None? || current.value.attempts >= MAX_ATTEMPTS { return None; }
      var pending := current.value;
      if pending.code != code {
        db := db.(wrong := db.wrong + [token]);
        var next := Min(MAX_ATTEMPTS, pending.attempts + 1);
        var ok := ReplacePending(token, pending.(attempts := next));
        return None;
      }
      var consumed := ConsumePending(token, pending);
      if !consumed { return None; }
      db := db.(claims := db.claims + [(token, pending.identity)]);
      if refused { return None; }
      var created := InsertAccount(token, pending.identity);
      return if created then Some(pending.identity) else None;
    }

    /** `SqlAlchemyEmailPasswordRegistrationWriter.register` */
    method InsertAccount(token: nat, identity: Identity) returns (created: bool)
      modifies this
      ensures db == DoRegister(old(db), token, identity)
      ensures created <==> old(identity.emailLookup !in db.accounts)
      ensures created ==>
              && db.accounts == old(db).accounts[identity.emailLookup := identity]
              && db.registered == old(db).registered + [(token, identity)]
      ensures !created ==> db == old(db)
      ensures db.store == old(db).store && db.issued == old(db).issued && db.claims == old(db).claims
    {
      if identity.emailLookup in db.accounts { return false; }
      db := db.(accounts := db.accounts[identity.emailLookup := identity],
                registered := db.registered + [(token, identity)]);
      return true;
    }

    /** `StartEmailPasswordRegistration.resend` */
    method Resend(token: nat, code: nat, decryptable: bool, delivered: bool, storeUp: bool) returns (sent: bool)
      requires Valid()
      modifies this
      ensures Valid() && db == Perform(config, old(db), DoResend(token, code, decryptable, delivered, storeUp))
      ensures sent <==> old(token in db.store && db.store[token].value.attempts < 5) && decryptable && delivered
      ensures !(old(token in db.store && db.store[token].value.attempts < 5) && decryptable) ==> db == old(db)
      ensures old(token in db.store && db.store[token].value.attempts < 5) && decryptable ==>
              && var was := old(db.store[token].value);
              && db.store == (if !delivered && storeUp then old(db).store - {token}
                              else old(db).store[token := Entry(Pending(was.identity, code, was.attempts),
                                                                db.now + Seconds(config))])
      ensures db.accounts == old(db).accounts && db.registered == old(db).registered && db.issued == old(db).issued
      ensures db.now == old(db).now && db.wrong == old(db).wrong && db.claims == old(db).claims
    {
      PerformKeeps(config, db, DoResend(token, code, decryptable, delivered, storeUp));
      var current := GetPending(token);
      if current.None? || current.value.attempts >= MAX_ATTEMPTS || !decryptable { return false; }
      var rotated := current.value.(code := code);
      var replaced := ReplacePending(token, rotated);
      if !replaced { return false; }
      if !delivered {
        if storeUp { var gone := ConsumePending(token, rotated); }
        return false;
      }
      return true;
    }
  }
}
