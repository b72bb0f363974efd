/** What the audit log of an organization accounts for, over every interleaving. */
module OrganizationLedger {
  import opened Roles
  import opened Organizations

  function Joins(log: seq<Audit>, org: nat): nat {
    if log == [] then 0
    else
      var a := log[|log| - 1];
      Joins(log[..|log| - 1], org)
      + (if (a.Created? || a.MemberAdded? || a.InvitationAccepted?) && a.org == org then 1 else 0)
  }

  function Departures(log: seq<Audit>, org: nat): nat {
    if log == [] then 0
    else
      var a := log[|log| - 1];
      Departures(log[..|log| - 1], org) + (if a.MemberRemoved? && a.org == org then 1 else 0)
  }

  /** How often an invitation was accepted or revoked. */
  function Settlements(log: seq<Audit>, i: nat): nat {
    if log == [] then 0
    else
      var a := log[|log| - 1];
      Settlements(log[..|log| - 1], i)
      + (if (a.InvitationAccepted? || a.InvitationRevoked?) && a.invitation == i then 1 else 0)
  }

  ghost function MembersOf(s: Db, org: nat): set<(nat, nat)> {
    set k | k in s.members && k.0 == org
  }

  ghost predicate Balanced(s: Db) { forall org :: BalancedIn(s, org) }

  predicate Open(i: Invitation) { i.accepted.None? && i.revoked.None? }

  predicate Settled(s: Db, i: nat) { i in s.invitations && !Open(s.invitations[i]) }

  ghost predicate SettledOnceFor(s: Db, i: nat) {
    Settlements(s.log, i) == if Settled(s, i) then 1 else 0
  }

  ghost predicate SettledOnce(s: Db) { forall i :: SettledOnceFor(s, i) }

  lemma LogGrows(log: seq<Audit>, a: Audit)
    ensures (log + [a])[..|log + [a]| - 1] == log
  {
  }

  ghost predicate BalancedIn(s: Db, org: nat) {
    |MembersOf(s, org)| + Departures(s.log, org) == Joins(s.log, org)
  }

  lemma OneJoinsIn(s: Db, t: Db, k: (nat, nat), m: Membership, a: Audit, org: nat)
    requires BalancedIn(s, org) && k !in s.members && t.members == s.members[k := m] && t.log == s.log + [a]
    requires (a.Created? || a.MemberAdded? || a.InvitationAccepted?) && a.org == k.0
    ensures BalancedIn(t, org)
  {
    LogGrows(s.log, a);
    assert MembersOf(t, org) == MembersOf(s, org) + (if org == k.0 then {k} else {});
  }

  lemma OneLeavesIn(s: Db, t: Db, k: (nat, nat), a: Audit, org: nat)
    requires BalancedIn(s, org) && k in s.members && t.members == s.members - {k} && t.log == s.log + [a]
    requires a.MemberRemoved? && a.org == k.0
    ensures BalancedIn(t, org)
  {
    LogGrows(s.log, a);
    assert MembersOf(s, org) == MembersOf(t, org) + (if org == k.0 then {k} else {});
  }

  lemma NobodyMovesIn(s: Db, t: Db, a: Audit, org: nat)
    requires BalancedIn(s, org) && t.members.Keys == s.members.Keys && t.log == s.log + [a]
    requires a.MemberUpdated? || a.InvitationCreated? || a.InvitationRevoked?
    ensures BalancedIn(t, org)
  {
  }

  lemma CreateBalances(s: Db, actor: nat)
    requires DbInv(s) && Balanced(s) && SettledOnce(s)
    ensures Balanced(DoCreate(s, actor)) && SettledOnce(DoCreate(s, actor))
  {
    var t := DoCreate(s, actor);
    NewNumbers(s);
    forall org ensures BalancedIn(t, org) {
      OneJoinsIn(s, t, (s.next, actor), t.members[(s.next, actor)], Created(s.next, actor), org);
    }
    LogGrows(s.log, Created(s.next, actor));
    forall i ensures SettledOnceFor(t, i) { assert SettledOnceFor(s, i); }
  }

  lemma WriteBalances(s: Db, e: Event, f: Flight, org: nat)
    requires BalancedIn(s, org) && Fits(e, f)
    ensures BalancedIn(Written(s, e, f), org)
  {
    var t := Written(s, e, f);
    if e.WriteDelivery? {
      assert MembersOf(t, org) == MembersOf(s, org);
    } else if t != s {
      if e.WriteAdd? {
        OneJoinsIn(s, t, (f.org, e.found.value), t.members[(f.org, e.found.value)],
                   MemberAdded(f.org, e.found.value, f.role), org);
      } else if e.WriteUpdate? {
        NobodyMovesIn(s, t, MemberUpdated(f.updated.org, f.updated.user, f.updated.role), org);
      } else if e.WriteRemove? {
        var m := f.target.row;
        OneLeavesIn(s, t, (m.org, m.user), MemberRemoved(m.org, m.user), org);
      } else if e.WriteInvite? {
        NobodyMovesIn(s, t, InvitationCreated(s.next), org);
      } else if e.WriteAccept? {
        var k, i := (f.offer.org, f.user), f.offer;
        OneJoinsIn(s, t, k, t.members[k], InvitationAccepted(i.org, f.user, i.role, i.id), org);
      } else {
        NobodyMovesIn(s, t, InvitationRevoked(f.invitation), org);
      }
    }
  }

  predicate Settles(a: Audit, i: nat) { (a.InvitationAccepted? || a.InvitationRevoked?) && a.invitation == i }

  /** An event that settles exactly what becomes settled. */
  lemma OneEventSettles(s: Db, t: Db, a: Audit, i: nat)
    requires SettledOnceFor(s, i) && t.log == s.log + [a]
    requires if Settles(a, i) then !Settled(s, i) && Settled(t, i) else Settled(t, i) == Settled(s, i)
    ensures SettledOnceFor(t, i)
  {
    LogGrows(s.log, a);
  }

  lemma MemberWriteSettles(s: Db, e: Event, f: Flight, i: nat)
    requires (e.WriteAdd? || e.WriteUpdate? || e.WriteRemove?) && SettledOnceFor(s, i) && Fits(e, f)
    ensures SettledOnceFor(Written(s, e, f), i)
  {
    var t := Written(s, e, f);
    if t != s { OneEventSettles(s, t, t.log[|t.log| - 1], i); }
  }

  lemma OfferWriteSettles(s: Db, e: Event, f: Flight, i: nat)
    requires (e.WriteInvite? || e.WriteAccept? || e.WriteRevoke?)
    requires s.next !in s.invitations && SettledOnceFor(s, i) && Fits(e, f)
    ensures SettledOnceFor(Written(s, e, f), i)
  {
    var t := Written(s, e, f);
    if t != s { OneEventSettles(s, t, t.log[|t.log| - 1], i); }
  }

  lemma WriteSettles(s: Db, e: Event, f: Flight, i: nat)
    requires s.next !in s.invitations && SettledOnceFor(s, i) && Fits(e, f)
    ensures SettledOnceFor(Written(s, e, f), i)
  {
    if e.WriteAdd? || e.WriteUpdate? || e.WriteRemove? { MemberWriteSettles(s, e, f, i); }
    else if e.WriteInvite? || e.WriteAccept? || e.WriteRevoke? { OfferWriteSettles(s, e, f, i); }
    else if e.WriteDelivery? { assert Settled(Written(s, e, f), i) == Settled(s, i); }
  }

  lemma StepBalances(s: State, e: Event)
    requires Inv(s) && Balanced(s.db) && SettledOnce(s.db)
    ensures Balanced(Step(s, e).db) && SettledOnce(Step(s, e).db)
  {
    if e.Create? {
      CreateBalances(s.db, e.actor);
    } else if e.r in s.flights && Fits(e, s.flights[e.r]) {
      var f := s.flights[e.r];
      var t := Written(s.db, e, f);
      NewNumbers(s.db);
      forall org ensures BalancedIn(t, org) {
        assert BalancedIn(s.db, org);
        WriteBalances(s.db, e, f, org);
      }
      forall i ensures SettledOnceFor(t, i) {
        assert SettledOnceFor(s.db, i);
        WriteSettles(s.db, e, f, i);
      }
    }
  }

  lemma {:induction false} RunBalances(s: State, es: seq<Event>)
    requires Inv(s) && Balanced(s.db) && SettledOnce(s.db)
    ensures Balanced(Run(s, es).db) && SettledOnce(Run(s, es).db)
    decreases |es|
  {
    if es != [] {
      StepKeeps(s, es[0]);
      StepBalances(s, es[0]);
      RunBalances(Step(s, es[0]), es[1..]);
    }
  }

  lemma EmptyBooks()
    ensures Inv(EMPTY) && Balanced(EMPTY.db) && SettledOnce(EMPTY.db)
  {
  }

  /** In every interleaving the size of an organization is exactly what its
      audit log says: creations, additions and acceptances less removals. */
  lemma HeadcountMatchesLog(es: seq<Event>, org: nat)
    ensures var s := Run(EMPTY, es).db;
            |MembersOf(s, org)| == Joins(s.log, org) - Departures(s.log, org)
  {
    EmptyBooks();
    RunBalances(EMPTY, es);
    assert BalancedIn(Run(EMPTY, es).db, org);
  }

  /** In every interleaving an invitation is accepted or revoked at most once
      altogether, and exactly when its record says so. */
  lemma InvitationSettlesOnce(es: seq<Event>, i: nat)
    ensures var s := Run(EMPTY, es).db;
            && Settlements(s.log, i) <= 1
            && (Settlements(s.log, i) == 1 <==> i in s.invitations && !Open(s.invitations[i]))
  {
    EmptyBooks();
    RunBalances(EMPTY, es);
    assert SettledOnceFor(Run(EMPTY, es).db, i);
  }
}
