/**
  Which interleavings keep count of the wrong codes: exactly those in which no
  wrong code is compared while another one is being recorded and every write
  finds the attempt counter as it had read it. They keep the bound of five.
 */
module RegistrationOverlap {
  import opened Common
  import opened Registration
  import opened RegistrationAttempts

  /** A verification of the token has compared a wrong code and not yet
      recorded it. */
  predicate Records(f: Flight, t: nat) { f.WrongCode? && f.token == t }

  predicate Recording(flights: map<nat, Flight>, t: nat) { exists r :: r in flights && Records(flights[r], t) }

  /** A wrong code is compared while another one is being recorded. */
  predicate Overlaps(s: State, e: Event, t: nat) {
    && e.ReadVerify? && e.r !in s.flights && e.token == t
    && Guessable(s.db, t) && s.db.store[t].value.code != e.code && Recording(s.flights, t)
  }

  /** A write takes effect although the counter stored under the token, or last
      stored there before the entry went, moved since the read behind it. */
  predicate Stale(c: Config, s: State, e: Event, t: nat) {
    && (e.WriteWrong? || e.WriteResend?) && e.r in s.flights && Fits(e, s.flights[e.r]) && s.flights[e.r].token == t
    && (t in s.db.store || c.upsert)
    && !(t in s.db.counters && s.db.counters[t] == s.flights[e.r].value.attempts)
  }

  predicate Careless(c: Config, s: State, e: Event, t: nat) { Overlaps(s, e, t) || Stale(c, s, e, t) }

  predicate Careful(c: Config, s: State, es: seq<Event>, t: nat)
    decreases |es|
  {
    es == [] || (!Careless(c, s, es[0], t) && Careful(c, Step(c, s, es[0]), es[1..], t))
  }

  /** The live entry's counter tells every wrong code compared so far, but for
      one that is being recorded. */
  predicate Tells(s: State, t: nat) {
    t in s.db.store ==>
      Count(s.db.wrong, t) == s.db.store[t].value.attempts + (if Recording(s.flights, t) then 1 else 0)
  }

  predicate TellsThroughout(c: Config, s: State, es: seq<Event>, t: nat)
    decreases |es|
  {
    Tells(s, t) && (es == [] || TellsThroughout(c, Step(c, s, es[0]), es[1..], t))
  }

  // -------------------------------------------------------------- invariant

  /** While the entry is there, or can come back, every wrong code is in the
      counter last stored or still being recorded. */
  ghost predicate Accounted(c: Config, db: Db, flights: map<nat, Flight>, t: nat) {
    && Count(db.wrong, t) <= MAX_ATTEMPTS
    && (t !in db.issued ==> t !in db.store && Count(db.wrong, t) == 0)
    && (t in db.issued && (t in db.store || c.upsert) ==>
          t in db.counters && Count(db.wrong, t) == db.counters[t] + (if Recording(flights, t) then 1 else 0))
    && (t in db.store ==> t in db.counters && db.counters[t] == db.store[t].value.attempts)
  }

  ghost predicate FlightsOk(db: Db, flights: map<nat, Flight>, t: nat) {
    && (forall r :: r in flights && flights[r].token == t ==> t in db.issued)
    && (forall r :: r in flights && Records(flights[r], t) ==> flights[r].value.attempts < MAX_ATTEMPTS)
    && (forall r, q :: r in flights && q in flights && Records(flights[r], t) && Records(flights[q], t) ==> r == q)
  }

  ghost predicate Sound(c: Config, s: State, t: nat) {
    Accounted(c, s.db, s.flights, t) && FlightsOk(s.db, s.flights, t)
  }

  /** A flight that lands leaves the others recording as they were. */
  lemma RecordingAfter(s: State, r: nat, f: Option<Flight>, t: nat)
    requires r in s.flights ==> !Records(s.flights[r], t)
    ensures Recording(Onward(s.flights, r, f), t)
            <==> Recording(s.flights, t) || (f.Some? && Records(f.value, t))
  {
    var after := Onward(s.flights, r, f);
    if Recording(s.flights, t) {
      var q :| q in s.flights && Records(s.flights[q], t);
      assert q in after && after[q] == s.flights[q];
    }
    if f.Some? { assert r in after && after[r] == f.value; }
  }

  lemma TickSound(c: Config, s: State, e: Event, t: nat)
    requires e.Tick? && Sound(c, s, t)
    ensures Sound(c, Step(c, s, e), t)
  {
  }

  lemma VerifyAccounts(c: Config, s: State, e: Event, t: nat)
    requires e.ReadVerify? && e.r !in s.flights && Sound(c, s, t) && !Overlaps(s, e, t)
    ensures Accounted(c, Began(c, s.db, e), Onward(s.flights, e.r, Opens(s.db, e)), t)
  {
    RecordingAfter(s, e.r, Opens(s.db, e), t);
    CountGrows(s.db.wrong, e.token, t);
  }

  lemma VerifySound(c: Config, s: State, e: Event, t: nat)
    requires e.ReadVerify? && e.r !in s.flights && Sound(c, s, t) && !Overlaps(s, e, t)
    ensures Sound(c, Step(c, s, e), t)
  {
    VerifyAccounts(c, s, e, t);
    FlightsAfter(s.db, Began(c, s.db, e), s.flights, e.r, Opens(s.db, e), t);
  }

  /** One more request in flight, the only one recording if it records. */
  lemma FlightsAfter(db: Db, db': Db, flights: map<nat, Flight>, r: nat, f: Option<Flight>, t: nat)
    requires FlightsOk(db, flights, t) && db'.issued == db.issued && r !in flights
    requires f.Some? && f.value.token == t ==> t in db.issued
    requires f.Some? && Records(f.value, t) ==> f.value.value.attempts < MAX_ATTEMPTS && !Recording(flights, t)
    ensures FlightsOk(db', Onward(flights, r, f), t)
  {
  }

  lemma BeginSound(c: Config, s: State, e: Event, t: nat)
    requires !e.Tick? && !e.ReadVerify? && e.r !in s.flights && Sound(c, s, t)
    ensures Sound(c, Step(c, s, e), t)
  {
    RecordingAfter(s, e.r, Opens(s.db, e), t);
  }

  lemma WriteSound(c: Config, s: State, e: Event, t: nat)
    requires !e.Tick? && e.r in s.flights && Fits(e, s.flights[e.r]) && Sound(c, s, t) && !Stale(c, s, e, t)
    requires !(e.WriteWrong? && s.flights[e.r].token == t)
    ensures Sound(c, Step(c, s, e), t)
  {
    var f := s.flights[e.r];
    RecordingAfter(s, e.r, Ahead(c, s.db, e, f), t);
  }

  lemma RecordSound(c: Config, s: State, e: Event, t: nat)
    requires e.WriteWrong? && e.r in s.flights && Records(s.flights[e.r], t)
    requires Sound(c, s, t) && !Stale(c, s, e, t)
    ensures Sound(c, Step(c, s, e), t)
  {
  }

  lemma StepSound(c: Config, s: State, e: Event, t: nat)
    requires Sound(c, s, t) && !Careless(c, s, e, t)
    ensures Sound(c, Step(c, s, e), t)
  {
    if e.Tick? {
      TickSound(c, s, e, t);
    } else if e.r !in s.flights {
      if e.ReadVerify? { VerifySound(c, s, e, t); } else { BeginSound(c, s, e, t); }
    } else if Fits(e, s.flights[e.r]) {
      if e.WriteWrong? && s.flights[e.r].token == t {
        RecordSound(c, s, e, t);
      } else {
        WriteSound(c, s, e, t);
      }
    }
  }

  lemma {:induction false} RunSound(c: Config, s: State, es: seq<Event>, t: nat)
    requires Sound(c, s, t) && Careful(c, s, es, t)
    ensures Sound(c, Run(c, s, es), t)
    decreases |es|
  {
    if es != [] {
      StepSound(c, s, es[0], t);
      RunSound(c, Step(c, s, es[0]), es[1..], t);
    }
  }

  // ------------------------------------------------------------ exactness

  /** A careless step leaves a live entry whose counter no longer tells. */
  lemma CarelessBreaks(c: Config, s: State, e: Event, t: nat)
    requires Sound(c, s, t) && Careless(c, s, e, t)
    ensures !Tells(Step(c, s, e), t)
  {
    if Overlaps(s, e, t) {
      OverlapBreaks(c, s, e, t);
    } else if e.WriteWrong? {
      var s' := Step(c, s, e);
      assert s'.flights == s.flights - {e.r};
      assert Records(s.flights[e.r], t);
      assert !Recording(s'.flights, t);
    } else {
      var f := s.flights[e.r];
      RecordingAfter(s, e.r, Ahead(c, s.db, e, f), t);
    }
  }

  lemma OverlapBreaks(c: Config, s: State, e: Event, t: nat)
    requires Sound(c, s, t) && Overlaps(s, e, t)
    ensures !Tells(Step(c, s, e), t)
  {
  }

  lemma {:induction false} TellsExactlyFrom(c: Config, s: State, es: seq<Event>, t: nat)
    requires Sound(c, s, t)
    ensures TellsThroughout(c, s, es, t) <==> Careful(c, s, es, t)
    decreases |es|
  {
    assert Tells(s, t);
    if es != [] {
      if Careless(c, s, es[0], t) {
        CarelessBreaks(c, s, es[0], t);
      } else {
        StepSound(c, s, es[0], t);
        TellsExactlyFrom(c, Step(c, s, es[0]), es[1..], t);
      }
    }
  }

  /** Over either store, along an interleaved run the live entry's counter tells
      every wrong code compared, but for one being recorded, if and only if no
      wrong code was compared while another was being recorded and no write
      landed on a counter that had moved. */
  lemma CounterTellsExactly(c: Config, es: seq<Event>, t: nat)
    ensures TellsThroughout(c, INIT, es, t) <==> Careful(c, INIT, es, t)
  {
    TellsExactlyFrom(c, INIT, es, t);
  }

  /** Such runs compare at most five wrong codes. */
  lemma CarefulRunsKeepTheBound(c: Config, es: seq<Event>, t: nat)
    requires Careful(c, INIT, es, t)
    ensures Count(Run(c, INIT, es).db.wrong, t) <= 5
  {
    RunSound(c, INIT, es, t);
  }

  /** The runs that lift the bound are not careful. */
  lemma OverlappingResendsAreStale(c: Config, identity: Identity, n: nat)
    requires n > 5
    ensures !Careful(c, INIT, [Start(0, 0, identity, 1), FinishSend(0, true, true)] + Loops(n), 0)
  {
    var es := [Start(0, 0, identity, 1), FinishSend(0, true, true)] + Loops(n);
    OverlappingResendsLiftTheBound(c, identity, n);
    if Careful(c, INIT, es, 0) { CarefulRunsKeepTheBound(c, es, 0); }
  }
}
