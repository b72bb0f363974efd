/**
  Interleaved requests on one connection: which overlaps reopen a disconnected
  connection and which are audited without changing anything, told by what was
  committed between a request's own read and its save.
 */
module ConnectionOverlap {
  import opened Common
  import opened Connections
  import opened ConnectionOperations

  // ------------------------------------------------------- history of a row

  /** The status last written to a connection from position `from` on. */
  function LastSince(audit: seq<Audit>, from: nat, id: nat): Option<Status> {
    if |audit| <= from then None
    else
      var a := audit[|audit| - 1];
      if a.connection == id then Some(a.status) else LastSince(audit[..|audit| - 1], from, id)
  }

  predicate Wrote(a: Audit, id: nat, status: Status) { a.connection == id && a.status == status }

  /** That status was written to the connection from position `from` on. */
  predicate WrittenSince(audit: seq<Audit>, from: nat, id: nat, status: Status) {
    exists m :: from <= m < |audit| && Wrote(audit[m], id, status)
  }

  /** The last write of all is the last one since, or else the last before. */
  lemma {:induction false} LastSinceSplits(audit: seq<Audit>, from: nat, id: nat)
    requires from <= |audit|
    ensures LastSince(audit, 0, id) ==
            if LastSince(audit, from, id).Some? then LastSince(audit, from, id) else LastSince(audit[..from], 0, id)
    decreases |audit|
  {
    if |audit| == from {
      assert audit[..from] == audit;
    } else {
      var rest := audit[..|audit| - 1];
      LastSinceSplits(rest, from, id);
      assert rest[..from] == audit[..from];
    }
  }

  lemma {:induction false} LastSinceIsThere(audit: seq<Audit>, from: nat, id: nat)
    requires LastSince(audit, from, id).Some?
    ensures WrittenSince(audit, from, id, LastSince(audit, from, id).value)
  {
    var n := |audit| - 1;
    if audit[n].connection == id {
      assert Wrote(audit[n], id, audit[n].status);
    } else {
      LastSinceIsThere(audit[..n], from, id);
      var m :| from <= m < n && Wrote(audit[..n][m], id, LastSince(audit, from, id).value);
      assert Wrote(audit[m], id, LastSince(audit, from, id).value);
    }
  }

  // -------------------------------------------------------------- invariant

  /** The log tells every connection's status. */
  ghost predicate LogTells(s: Db) { forall id :: LogTellsFor(s, id) }

  predicate LogTellsFor(s: Db, id: nat) { StatusOf(s, id) == LastSince(s.audit, 0, id) }

  /** A request that will save read its row in a status from which the save is
      allowed, so neither DISCONNECTED nor the status it saves. */
  predicate ReadBehind(audit: seq<Audit>, f: Flight) {
    match f
    case Managing(_) => true
    case Probing(c, seen) => seen <= |audit| && LastSince(audit[..seen], 0, c.id) == Some(c.status)
    case Saving(c, _, _, seen) => ReadAllows(audit, seen, c)
    case SavingProbe(c, seen) => ReadAllows(audit, seen, c)
  }

  predicate ReadAllows(audit: seq<Audit>, seen: nat, c: Connection) {
    && seen <= |audit| && LastSince(audit[..seen], 0, c.id).Some?
    && c.status in Allowed(LastSince(audit[..seen], 0, c.id).value)
  }

  ghost predicate Reads(audit: seq<Audit>, flights: map<nat, Flight>) {
    forall r :: r in flights ==> ReadBehind(audit, flights[r])
  }

  ghost predicate Known(s: State) { Inv(s) && LogTells(s.db) && Reads(s.db.audit, s.flights) }

  lemma ReadStays(audit: seq<Audit>, later: seq<Audit>, f: Flight)
    requires ReadBehind(audit, f) && audit <= later
    ensures ReadBehind(later, f)
  {
    if !f.Managing? { assert later[..f.seen] == audit[..f.seen]; }
  }

  lemma StepTells(s: State, e: Event, id: nat)
    requires Inv(s) && LogTellsFor(s.db, id)
    ensures LogTellsFor(Step(s, e).db, id)
  {
  }

  lemma OpensKnown(s: Db, e: Event)
    requires DbOk(s) && LogTells(s) && Opens(s, e).Some?
    ensures ReadBehind(s.audit, Opens(s, e).value)
  {
    if e.ListOne? {
      assert LogTellsFor(s, e.connection);
      assert s.audit[..|s.audit|] == s.audit;
    }
  }

  lemma AheadKnown(s: Db, e: Event, f: Flight)
    requires DbOk(s) && LogTells(s) && Fits(e, f) && ReadBehind(s.audit, f) && Ahead(s, e, f).Some?
    ensures ReadBehind(s.audit, Ahead(s, e, f).value)
  {
    if e.ReadCurrent? {
      assert LogTellsFor(s, f.cmd.connection);
      assert s.audit[..|s.audit|] == s.audit;
    }
  }

  lemma StepKnown(s: State, e: Event)
    requires Known(s)
    ensures Known(Step(s, e))
  {
    var t := Step(s, e);
    StepKeeps(s, e);
    forall id ensures LogTellsFor(t.db, id) {
      assert LogTellsFor(s.db, id);
      StepTells(s, e, id);
    }
    forall r | r in t.flights ensures ReadBehind(t.db.audit, t.flights[r]) {
      if r in s.flights && t.flights[r] == s.flights[r] {
        ReadStays(s.db.audit, t.db.audit, s.flights[r]);
      } else if r !in s.flights {
        OpensKnown(s.db, e);
      } else {
        AheadKnown(s.db, e, s.flights[r]);
        ReadStays(s.db.audit, t.db.audit, t.flights[r]);
      }
    }
  }

  // ---------------------------------------------------- reopened connections

  /** A save to another status lands although a disconnect of the connection
      was committed since the save's own read. */
  predicate Overtaken(s: State, e: Event) {
    var f := Landing(s, e);
    && f.Some? && f.value.updated.status != Disconnected
    && WrittenSince(s.db.audit, f.value.seen, f.value.updated.id, Disconnected)
  }

  predicate NeverOvertaken(s: State, es: seq<Event>)
    decreases |es|
  {
    es == [] || (!Overtaken(s, es[0]) && NeverOvertaken(Step(s, es[0]), es[1..]))
  }

  /** So far no disconnect has been undone. */
  ghost predicate Holding(s: Db) {
    forall m, id :: 0 <= m < |s.audit| && Wrote(s.audit[m], id, Disconnected) ==> StatusOf(s, id) == Some(Disconnected)
  }

  lemma StatusSinceRead(s: State, e: Event)
    requires Known(s) && Landing(s, e).Some?
    ensures var f := Landing(s, e).value;
            var since := LastSince(s.db.audit, f.seen, f.updated.id);
            && f.seen <= |s.db.audit| && f.updated.id in s.db.conns
            && (since.Some? ==> s.db.conns[f.updated.id].status == since.value)
            && (since.None? ==> f.updated.status in Allowed(s.db.conns[f.updated.id].status))
  {
    var f := Landing(s, e).value;
    assert ReadBehind(s.db.audit, f);
    assert LogTellsFor(s.db, f.updated.id);
    LastSinceSplits(s.db.audit, f.seen, f.updated.id);
  }

  /** While no disconnect has been undone, a save finds its row disconnected
      exactly when a disconnect overtook it. */
  lemma TooLateIsOvertaken(s: State, e: Event)
    requires Known(s) && Holding(s.db)
    ensures TooLate(s, e) <==> Overtaken(s, e)
  {
    if Landing(s, e).Some? {
      var f := Landing(s, e).value;
      var id := f.updated.id;
      StatusSinceRead(s, e);
      if TooLate(s, e) { LastSinceIsThere(s.db.audit, f.seen, id); }
      if WrittenSince(s.db.audit, f.seen, id, Disconnected) {
        var m :| f.seen <= m < |s.db.audit| && Wrote(s.db.audit[m], id, Disconnected);
        assert StatusOf(s.db, id) == Some(Disconnected);
      }
    }
  }

  lemma HoldsOn(s: State, e: Event)
    requires Known(s) && Holding(s.db) && !TooLate(s, e)
    ensures Holding(Step(s, e).db)
  {
    var t := Step(s, e).db;
    StepAbsorbs(s, e);
    StepKnown(s, e);
    forall m, id | 0 <= m < |t.audit| && Wrote(t.audit[m], id, Disconnected)
      ensures StatusOf(t, id) == Some(Disconnected)
    {
      if m < |s.db.audit| {
        StepKeeps(s, e);
        assert Wrote(s.db.audit[m], id, Disconnected);
        assert StatusOf(s.db, id) == Some(Disconnected);
        assert id in s.db.conns && s.db.conns[id].status == Disconnected;
      } else {
        NewestTells(s, e, id);
        assert m == |s.db.audit|;
      }
    }
  }

  /** A step appends at most one event, which tells the status it wrote. */
  lemma NewestTells(s: State, e: Event, id: nat)
    requires Known(s) && |Step(s, e).db.audit| > |s.db.audit|
    ensures var t := Step(s, e).db;
            && |t.audit| == |s.db.audit| + 1
            && (t.audit[|s.db.audit|].connection == id ==> StatusOf(t, id) == Some(t.audit[|s.db.audit|].status))
  {
  }

  lemma {:induction false} AbsorbingFrom(s: State, es: seq<Event>)
    requires Known(s) && Holding(s.db)
    ensures Absorbing(s, es) <==> NeverOvertaken(s, es)
    decreases |es|
  {
    if es != [] {
      StepAbsorbs(s, es[0]);
      TooLateIsOvertaken(s, es[0]);
      if !TooLate(s, es[0]) {
        HoldsOn(s, es[0]);
        StepKnown(s, es[0]);
        AbsorbingFrom(Step(s, es[0]), es[1..]);
      }
    }
  }

  lemma EmptyIsKnown()
    ensures Known(EMPTY) && Holding(EMPTY.db)
  {
  }

  /** DISCONNECTED is absorbing along an interleaved run if and only if no save
      to another status is committed after a disconnect of its connection that
      was itself committed since the save's own read. */
  lemma AbsorbingExactly(es: seq<Event>)
    ensures Absorbing(EMPTY, es) <==> NeverOvertaken(EMPTY, es)
  {
    EmptyIsKnown();
    AbsorbingFrom(EMPTY, es);
  }

  // ------------------------------------------------------- redundant audits

  /** How often the status of a connection changed along an interleaved run. */
  function Moves(s: State, es: seq<Event>, id: nat): nat
    decreases |es|
  {
    if es == [] then 0
    else (if Moved(s.db, Step(s, es[0]).db, id) then 1 else 0) + Moves(Step(s, es[0]), es[1..], id)
  }

  /** A save of the connection lands, and the last save of that connection
      committed since its own read was of the very same status. */
  predicate Doubled(s: State, e: Event, id: nat) {
    var f := Landing(s, e);
    && f.Some? && f.value.updated.id == id
    && LastSince(s.db.audit, f.value.seen, id) == Some(f.value.updated.status)
  }

  function Doubles(s: State, es: seq<Event>, id: nat): nat
    decreases |es|
  {
    if es == [] then 0
    else (if Doubled(s, es[0], id) then 1 else 0) + Doubles(Step(s, es[0]), es[1..], id)
  }

  lemma SaveAudits(s: Db, c: Connection, key: Option<string>, action: Action, id: nat)
    ensures var t := DoSave(s, c, key, action);
            && AuditsOf(t.audit, id) == AuditsOf(s.audit, id) + (if Saves(s, c, key) && c.id == id then 1 else 0)
            && Present(t, id) == Present(s, id)
            && (Moved(s, t, id) <==> Saves(s, c, key) && c.id == id && s.conns[id].status != c.status)
  {
    AuditsGrow(s.audit, Audit(c.id, c.org, key, c.status), id);
  }

  lemma ConnectAudits(s: Db, e: Event, id: nat)
    requires e.Connect? && DbOk(s)
    ensures var t := DoConnect(s, e.org, e.platform, e.external, e.capabilities);
            AuditsOf(t.audit, id) == AuditsOf(s.audit, id) + Present(t, id) - Present(s, id) && !Moved(s, t, id)
  {
    AuditsGrow(s.audit, Audit(s.next, e.org, None, Pending), id);
  }

  /** What one event adds to a connection's audit count: its creation, a change
      of its status, or a save that lands on its own status. */
  lemma StepCountsAudits(s: State, e: Event, id: nat)
    requires Known(s)
    ensures var t := Step(s, e).db;
            var lands := Landing(s, e).Some? && Landing(s, e).value.updated.id == id;
            && AuditsOf(t.audit, id) ==
               AuditsOf(s.db.audit, id) + Present(t, id) - Present(s.db, id) + (if lands then 1 else 0)
            && (Moved(s.db, t, id) <==> lands && StatusOf(s.db, id) != Some(Landing(s, e).value.updated.status))
  {
    if e.Connect? {
      if e.permitted { ConnectAudits(s.db, e, id); }
    } else if e.r in s.flights && Fits(e, s.flights[e.r]) {
      var f := s.flights[e.r];
      if e.Save? && !e.refused { SaveAudits(s.db, f.updated, f.key, f.action, id); }
      else if e.SaveProbe? && !e.refused { SaveAudits(s.db, f.updated, None, Reauthorize, id); }
    }
  }

  /** Because a request never sets out to save the status it read, its save
      changes nothing exactly when it was doubled. */
  lemma DoubledMeans(s: State, e: Event, id: nat)
    requires Known(s)
    ensures Doubled(s, e, id) <==>
            && Landing(s, e).Some? && Landing(s, e).value.updated.id == id
            && StatusOf(s.db, id) == Some(Landing(s, e).value.updated.status)
  {
    if Landing(s, e).Some? { StatusSinceRead(s, e); }
  }

  lemma StepAudits(s: State, e: Event, id: nat)
    requires Known(s)
    ensures var t := Step(s, e).db;
            AuditsOf(t.audit, id) == AuditsOf(s.db.audit, id) + Present(t, id) - Present(s.db, id)
              + (if Moved(s.db, t, id) then 1 else 0) + (if Doubled(s, e, id) then 1 else 0)
  {
    StepCountsAudits(s, e, id);
    DoubledMeans(s, e, id);
  }

  lemma {:induction false} RunAudits(s: State, es: seq<Event>, id: nat)
    requires Known(s)
    ensures var t := Run(s, es).db;
            AuditsOf(t.audit, id) ==
              AuditsOf(s.db.audit, id) + Present(t, id) - Present(s.db, id) + Moves(s, es, id) + Doubles(s, es, id)
    decreases |es|
  {
    if es != [] {
      StepAudits(s, es[0], id);
      StepKnown(s, es[0]);
      RunAudits(Step(s, es[0]), es[1..], id);
    }
  }

  /** In every interleaving a connection has at least one audit event for its
      creation and one per status change, and exactly these if and only if no
      save landed right after another save of the same connection to the same
      status that was committed since its own read. */
  lemma AuditsExactly(es: seq<Event>, id: nat)
    ensures var t := Run(EMPTY, es).db;
            && AuditsOf(t.audit, id) == Present(t, id) + Moves(EMPTY, es, id) + Doubles(EMPTY, es, id)
            && (AuditsOf(t.audit, id) == Present(t, id) + Moves(EMPTY, es, id) <==> Doubles(EMPTY, es, id) == 0)
  {
    EmptyIsKnown();
    RunAudits(EMPTY, es, id);
  }

  // -------------------------------------------------------- no overlap at all

  /** Nothing was committed to the connection between the read and the save. */
  predicate Undisturbed(s: State, e: Event) {
    var f := Landing(s, e);
    f.Some? ==> LastSince(s.db.audit, f.value.seen, f.value.updated.id).None?
  }

  predicate AllUndisturbed(s: State, es: seq<Event>)
    decreases |es|
  {
    es == [] || (Undisturbed(s, es[0]) && AllUndisturbed(Step(s, es[0]), es[1..]))
  }

  lemma {:induction false} NothingSince(audit: seq<Audit>, from: nat, id: nat, status: Status)
    requires LastSince(audit, from, id).None?
    ensures !WrittenSince(audit, from, id, status)
  {
    if |audit| > from {
      var n := |audit| - 1;
      NothingSince(audit[..n], from, id, status);
      forall m | from <= m < |audit| ensures !Wrote(audit[m], id, status) {
        if m < n { assert audit[m] == audit[..n][m]; }
      }
    }
  }

  lemma {:induction false} UndisturbedFrom(s: State, es: seq<Event>, id: nat)
    requires AllUndisturbed(s, es)
    ensures NeverOvertaken(s, es) && Doubles(s, es, id) == 0
    decreases |es|
  {
    if es != [] {
      if Landing(s, es[0]).Some? {
        var f := Landing(s, es[0]).value;
        NothingSince(s.db.audit, f.seen, f.updated.id, Disconnected);
      }
      UndisturbedFrom(Step(s, es[0]), es[1..], id);
    }
  }

  /** Requests on different connections may interleave as they like: when no
      save is committed to a connection between another request's read of it
      and that request's save, DISCONNECTED is absorbing and every connection
      has one audit event plus one per status change. */
  lemma UndisturbedRuns(es: seq<Event>, id: nat)
    requires AllUndisturbed(EMPTY, es)
    ensures Absorbing(EMPTY, es)
    ensures var t := Run(EMPTY, es).db; AuditsOf(t.audit, id) == Present(t, id) + Moves(EMPTY, es, id)
  {
    UndisturbedFrom(EMPTY, es, id);
    AbsorbingExactly(es);
    AuditsExactly(es, id);
  }
}
