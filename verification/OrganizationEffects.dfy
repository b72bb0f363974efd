/**
  What each committed write stores, in terms of what was asked for: every
  request in flight still carries its own parameters, and an invitation keeps
  the terms on which it was made, whatever else is committed in between.
 */
module OrganizationEffects {
  import opened Common
  import opened Roles
  import opened Organizations

  // --------------------------------------------------- what a write may store

  type Rows = map<(nat, nat), Membership>

  /** Of all rows only this user's changed, and it says this. */
  predicate Enrolled(before: Rows, after: Rows, org: nat, user: nat, role: Role, scopes: set<Scope>) {
    && (org, user) in after && after == before[(org, user) := after[(org, user)]]
    && after[(org, user)].org == org && after[(org, user)].user == user
    && after[(org, user)].role == role && after[(org, user)].scopes == scopes
  }

  ghost predicate Unused(rows: Rows, id: nat) { forall k :: k in rows ==> rows[k].id != id }

  /** The user had no row and has one now, under a new number. */
  ghost predicate Joins(before: Rows, after: Rows, org: nat, user: nat, role: Role, scopes: set<Scope>) {
    && (org, user) !in before && Enrolled(before, after, org, user, role, scopes)
    && Unused(before, after[(org, user)].id)
  }

  /** The user's row, still under its number, says something else now. */
  predicate Changes(before: Rows, after: Rows, org: nat, user: nat, role: Role, scopes: set<Scope>) {
    && (org, user) in before && Enrolled(before, after, org, user, role, scopes)
    && after[(org, user)].id == before[(org, user)].id
  }

  /** Neither accepted nor revoked, and its deadline has not come. */
  predicate StillOpen(i: Invitation, now: int) { i.accepted.None? && i.revoked.None? && now < i.expires }

  predicate SameTerms(i: Invitation, j: Invitation) {
    i.id == j.id && i.org == j.org && i.role == j.role && i.scopes == j.scopes && i.expires == j.expires
  }

  lemma StatusMeans(i: Invitation, now: int)
    ensures StatusAt(i, now) == Pending <==> StillOpen(i, now)
    ensures StatusAt(i, now) == Expired <==> i.accepted.None? && i.revoked.None? && i.expires <= now
    ensures StatusAt(i, now) == Accepted <==> i.accepted.Some?
    ensures StatusAt(i, now) == Revoked <==> i.accepted.None? && i.revoked.Some?
  {
  }

  /** The actor is a member whose role may give this one. */
  predicate MayGive(rows: Rows, actor: nat, org: nat, role: Role) {
    (org, actor) in rows && role in Manageable(rows[(org, actor)].role)
  }

  lemma MayGiveExactly(s: Db, actor: nat, org: nat, role: Role)
    ensures ActorMay(Get(s, org, actor), role) <==> MayGive(s.members, actor, org, role)
  {
    if (org, actor) in s.members { RanksExactly(s.members[(org, actor)].role, role); }
  }

  /** The target has a row that the actor, someone else, may give or take away. */
  predicate MayReplace(rows: Rows, actor: nat, org: nat, user: nat) {
    (org, user) in rows && user != actor && MayGive(rows, actor, org, rows[(org, user)].role)
  }

  lemma MayReplaceExactly(s: Db, actor: nat, org: nat, user: nat)
    requires DbInv(s)
    ensures MayTouch(Get(s, org, actor), Get(s, org, user)) <==> MayReplace(s.members, actor, org, user)
  {
    if (org, user) in s.members { MayGiveExactly(s, actor, org, s.members[(org, user)].role); }
  }

  // ---------------------------------------------------- what the writes store

  lemma CreateMeans(s: Db, actor: nat, t: Db)
    requires DbInv(s) && t == DoCreate(s, actor)
    ensures s.next !in s.founders && Joins(s.members, t.members, s.next, actor, Owner, {})
    ensures t.founders == s.founders[s.next := t.members[(s.next, actor)]] && t.invitations == s.invitations
    ensures t.log == s.log + [Created(s.next, actor)]
  {
    NewNumbers(s);
  }

  lemma AddMeans(s: Db, org: nat, role: Role, scopes: set<Scope>, user: nat, t: Db)
    requires DbInv(s) && t == DoAdd(s, org, role, scopes, user)
    ensures t != s <==> (org, user) !in s.members
    ensures t != s ==> Joins(s.members, t.members, org, user, role, scopes)
    ensures t != s ==> t.log == s.log + [MemberAdded(org, user, role)]
    ensures t.founders == s.founders && t.invitations == s.invitations
  {
    NewNumbers(s);
  }

  lemma UpdateMeans(s: Db, m: Membership, t: Db)
    requires t == DoUpdate(s, m)
    ensures t != s <==> (m.org, m.user) in s.members && s.members[(m.org, m.user)].id == m.id
    ensures t != s ==> Changes(s.members, t.members, m.org, m.user, m.role, m.scopes)
    ensures t != s ==> t.log == s.log + [MemberUpdated(m.org, m.user, m.role)]
    ensures t.founders == s.founders && t.invitations == s.invitations
  {
    assert |s.log + [MemberUpdated(m.org, m.user, m.role)]| > |s.log|;
  }

  lemma RemoveMeans(s: Db, m: Membership, t: Db)
    requires t == DoRemove(s, m)
    ensures t != s <==> (m.org, m.user) in s.members && s.members[(m.org, m.user)].id == m.id
    ensures t != s ==> t.members == s.members - {(m.org, m.user)} && t.log == s.log + [MemberRemoved(m.org, m.user)]
    ensures t.founders == s.founders && t.invitations == s.invitations
  {
    assert |s.log + [MemberRemoved(m.org, m.user)]| > |s.log|;
  }

  lemma InviteMeans(s: Db, org: nat, role: Role, scopes: set<Scope>, expires: int, t: Db)
    requires DbInv(s) && t == DoInvite(s, org, role, scopes, expires)
    ensures s.next !in s.invitations && t.log == s.log + [InvitationCreated(s.next)]
    ensures t.invitations == s.invitations[s.next := Invitation(s.next, org, role, scopes, expires, None, None, None)]
    ensures t.founders == s.founders && t.members == s.members
  {
    NewNumbers(s);
  }

  lemma AcceptMeans(s: Db, i: Invitation, user: nat, now: int, t: Db)
    requires DbInv(s) && i.id in s.invitations && SameTerms(i, s.invitations[i.id]) && t == DoAccept(s, i, user, now)
    ensures t != s <==> StillOpen(s.invitations[i.id], now) && (i.org, user) !in s.members
    ensures t != s ==> Joins(s.members, t.members, i.org, user, i.role, i.scopes)
    ensures t != s ==> t.invitations == s.invitations[i.id := s.invitations[i.id].(accepted := Some(now))]
    ensures t != s ==> t.log == s.log + [InvitationAccepted(i.org, user, i.role, i.id)]
    ensures t.founders == s.founders
  {
    NewNumbers(s);
    StatusMeans(s.invitations[i.id], now);
  }

  lemma RevokeMeans(s: Db, org: nat, id: nat, now: int, t: Db)
    requires id in s.invitations && s.invitations[id].org == org && t == DoRevoke(s, org, id, now)
    ensures t != s <==> StillOpen(s.invitations[id], now)
    ensures t != s ==> t.invitations == s.invitations[id := s.invitations[id].(revoked := Some(now))]
    ensures t != s ==> t.log == s.log + [InvitationRevoked(id)]
    ensures t.founders == s.founders && t.members == s.members
  {
    StatusMeans(s.invitations[id], now);
    assert |s.log + [InvitationRevoked(id)]| > |s.log|;
  }

  // ------------------------------------------------------ what was asked for

  predicate Asks(e: Event) {
    e.BeginAdd? || e.BeginUpdate? || e.BeginRemove? || e.BeginInvite? || e.BeginAccept? || e.BeginRevoke?
  }

  /** The call with which the request now in flight under a number began. */
  function Asked(past: seq<Event>, r: nat): Option<Event> {
    if past == [] then None
    else
      var e, before := past[|past| - 1], past[..|past| - 1];
      if Asks(e) && e.r == r && r !in Run(EMPTY, before).flights then Some(e) else Asked(before, r)
  }

  /** A membership of this user in this organization. */
  predicate Of(m: Membership, org: nat, user: nat) { m.org == org && m.user == user }

  /** A request still carries what its first call asked for, and an invitation
      it was shown is stored on the terms it was shown. */
  predicate Recalls(s: Db, f: Flight, q: Event) {
    match f
    case Adding(org, role, scopes, m) =>
      q.BeginAdd? && q.org == org && q.role == role && q.scopes == scopes && Of(m.row, org, q.actor)
    case UpdateRead(m, user, role, scopes) =>
      q.BeginUpdate? && q.user == user && q.role == role && q.scopes == scopes && Of(m.row, q.org, q.actor)
    case Updating(u, t, m) =>
      q.BeginUpdate? && u == Membership(t.row.id, q.user, q.org, q.role, q.scopes) && Of(m.row, q.org, q.actor)
    case RemoveRead(a, _, org, user) =>
      q.BeginRemove? && q.org == org && q.user == user && (a.Some? ==> Of(a.value, org, q.actor))
    case Removing(t, m) => q.BeginRemove? && Of(t.row, q.org, q.user) && Of(m.row, q.org, q.actor)
    case Inviting(org, role, scopes, m) =>
      q.BeginInvite? && q.org == org && q.role == role && q.scopes == scopes && Of(m.row, org, q.actor)
    case Delivering(org, id) =>
      && q.BeginInvite? && q.org == org && id in s.invitations
      && s.invitations[id].org == org && s.invitations[id].role == q.role && s.invitations[id].scopes == q.scopes
    case AcceptRead(i, user, now) => Shown(s, i, q) && q.user == user && q.now == now
    case Joining(i, user, now) => Shown(s, i, q) && q.user == user && q.now == now
    case RevokeRead(a, _, org, id) =>
      q.BeginRevoke? && q.org == org && q.invitation == id && (a.Some? ==> Of(a.value, org, q.actor))
    case Revoking(org, id, role, m) =>
      && q.BeginRevoke? && q.org == org && q.invitation == id && Of(m.row, org, q.actor)
      && id in s.invitations && s.invitations[id].org == org && s.invitations[id].role == role
  }

  predicate Shown(s: Db, i: Invitation, q: Event) {
    q.BeginAccept? && q.invitation == i.id && i.id in s.invitations && SameTerms(i, s.invitations[i.id])
  }

  ghost predicate KeepsOffers(s: Db, t: Db) {
    forall i :: i in s.invitations ==> i in t.invitations && SameTerms(s.invitations[i], t.invitations[i])
  }

  lemma WrittenKeepsOffer(s: Db, e: Event, f: Flight, i: nat)
    requires Fits(e, f) && i in s.invitations && s.next !in s.invitations
    ensures i in Written(s, e, f).invitations && SameTerms(s.invitations[i], Written(s, e, f).invitations[i])
  {
  }

  lemma StepKeepsOffers(s: State, e: Event)
    requires Inv(s)
    ensures KeepsOffers(s.db, Step(s, e).db)
  {
    NewNumbers(s.db);
    if !e.Create? && e.r in s.flights && Fits(e, s.flights[e.r]) {
      forall i | i in s.db.invitations
        ensures i in Step(s, e).db.invitations && SameTerms(s.db.invitations[i], Step(s, e).db.invitations[i])
      {
        WrittenKeepsOffer(s.db, e, s.flights[e.r], i);
      }
    }
  }

  lemma StillRecalls(s: Db, t: Db, f: Flight, q: Event)
    requires Recalls(s, f, q) && KeepsOffers(s, t)
    ensures Recalls(t, f, q)
  {
  }

  lemma BeginRecalls(s: Db, e: Event)
    requires DbInv(s) && Begin(s, e).Some?
    ensures Asks(e) && Recalls(s, Begin(s, e).value, e)
  {
    if e.BeginAccept? {
      assert InvitationOk(s.founders, s.next, e.invitation, s.invitations[e.invitation]);
    } else if Get(s, e.org, e.actor).Some? {
      assert RowOk(s.founders, s.next, (e.org, e.actor), s.members[(e.org, e.actor)]);
    }
  }

  lemma TargetRecalled(s: Db, e: Event, f: Flight, q: Event)
    requires DbInv(s) && Fits(e, f) && Recalls(s, f, q) && Ahead(s, e, f).Some?
    requires e.ReadUpdateTarget? || e.ReadRemoveTarget?
    ensures Recalls(s, Ahead(s, e, f).value, q)
  {
    assert RowOk(s.founders, s.next, (q.org, q.user), s.members[(q.org, q.user)]);
  }

  lemma OfferRecalled(s: Db, e: Event, f: Flight, q: Event)
    requires Fits(e, f) && Recalls(s, f, q) && Ahead(s, e, f).Some?
    requires e.ConfirmAccept? || e.ReadRevokeTarget?
    ensures Recalls(s, Ahead(s, e, f).value, q)
  {
  }

  lemma AheadRecalls(s: Db, e: Event, f: Flight, q: Event)
    requires DbInv(s) && Fits(e, f) && Recalls(s, f, q) && Ahead(s, e, f).Some?
    ensures Recalls(Written(s, e, f), Ahead(s, e, f).value, q)
  {
    if e.ReadUpdateTarget? || e.ReadRemoveTarget? { TargetRecalled(s, e, f, q); }
    else if e.ConfirmAccept? || e.ReadRevokeTarget? { OfferRecalled(s, e, f, q); }
  }

  predicate Untouched(s: State, e: Event, r: nat) {
    e.Create? || r != e.r || (r in s.flights && !Fits(e, s.flights[r]))
  }

  lemma OthersStay(s: State, e: Event, r: nat)
    requires Untouched(s, e, r)
    ensures r in Step(s, e).flights <==> r in s.flights
    ensures r in s.flights ==> Step(s, e).flights[r] == s.flights[r]
  {
  }

  lemma Lands(s: State, e: Event, r: nat)
    requires !Untouched(s, e, r) && r in Step(s, e).flights
    ensures if r in s.flights
            then Ahead(s.db, e, s.flights[r]) == Some(Step(s, e).flights[r])
            else Begin(s.db, e) == Some(Step(s, e).flights[r]) && Step(s, e).db == s.db
  {
  }

  lemma StepRecalls(s: State, e: Event, r: nat, q: Option<Event>)
    requires Inv(s) && r in Step(s, e).flights
    requires r in s.flights ==> q.Some? && Recalls(s.db, s.flights[r], q.value)
    ensures var p := if Asks(e) && e.r == r && r !in s.flights then Some(e) else q;
            p.Some? && Recalls(Step(s, e).db, Step(s, e).flights[r], p.value)
  {
    if Untouched(s, e, r) {
      OthersStay(s, e, r);
      StepKeepsOffers(s, e);
      StillRecalls(s.db, Step(s, e).db, s.flights[r], q.value);
    } else {
      Lands(s, e, r);
      if r in s.flights { AheadRecalls(s.db, e, s.flights[r], q.value); } else { BeginRecalls(s.db, e); }
    }
  }

  lemma LastStep(past: seq<Event>)
    requires past != []
    ensures Run(EMPTY, past) == Step(Run(EMPTY, past[..|past| - 1]), past[|past| - 1])
  {
    var before, last := past[..|past| - 1], [past[|past| - 1]];
    assert past == before + last;
    RunAppend(EMPTY, before, last);
    assert Run(Run(EMPTY, before), last) == Step(Run(EMPTY, before), last[0]);
  }

  /** In every interleaving a request in flight carries what was asked for. */
  lemma {:induction false} RequestsAreRecalled(past: seq<Event>, r: nat)
    requires r in Run(EMPTY, past).flights
    ensures Asked(past, r).Some? && Recalls(Run(EMPTY, past).db, Run(EMPTY, past).flights[r], Asked(past, r).value)
    decreases |past|
  {
    if past != [] {
      var before := past[..|past| - 1];
      LastStep(past);
      RunKeeps(EMPTY, before);
      if r in Run(EMPTY, before).flights { RequestsAreRecalled(before, r); }
      StepRecalls(Run(EMPTY, before), past[|past| - 1], r, Asked(before, r));
    }
  }

  // ------------------------------------------------------------ main results

  /** An acceptance is committed exactly when the invitation is still open and
      the user no member; it gives the user the role and the scopes that the stored
      invitation offers, and changes nothing else but the acceptance itself. */
  ghost predicate AcceptsOffer(s: Db, t: Db, q: Event) {
    && q.BeginAccept? && q.invitation in s.invitations
    && var i := s.invitations[q.invitation];
    && (t != s <==> StillOpen(i, q.now) && (i.org, q.user) !in s.members)
    && (t != s ==>
          && Joins(s.members, t.members, i.org, q.user, i.role, i.scopes)
          && t.invitations == s.invitations[q.invitation := i.(accepted := Some(q.now))]
          && t.founders == s.founders && t.log == s.log + [InvitationAccepted(i.org, q.user, i.role, q.invitation)])
  }

  lemma AcceptStores(s: Db, f: Flight, q: Event, t: Db)
    requires DbInv(s) && f.Joining? && Recalls(s, f, q) && t == DoAccept(s, f.offer, f.user, f.now)
    ensures AcceptsOffer(s, t, q)
  {
    AcceptMeans(s, f.offer, f.user, f.now, t);
  }

  /** In every interleaving a write that accepts, if it is not refused, does so
      on the terms of the stored invitation. */
  lemma AcceptGives(past: seq<Event>, e: Event)
    requires var s := Run(EMPTY, past);
             e.WriteAccept? && !e.refused && e.r in s.flights && s.flights[e.r].Joining?
    ensures Asked(past, e.r).Some?
    ensures AcceptsOffer(Run(EMPTY, past).db, Step(Run(EMPTY, past), e).db, Asked(past, e.r).value)
  {
    var s := Run(EMPTY, past);
    RunKeeps(EMPTY, past);
    RequestsAreRecalled(past, e.r);
    AcceptLands(s, e);
    AcceptStores(s.db, s.flights[e.r], Asked(past, e.r).value, Step(s, e).db);
  }

  lemma AcceptLands(s: State, e: Event)
    requires e.WriteAccept? && !e.refused && e.r in s.flights && s.flights[e.r].Joining?
    ensures var f := s.flights[e.r]; Step(s, e).db == DoAccept(s.db, f.offer, f.user, f.now)
  {
  }

  /** In every interleaving a committed addition gives the role and the scopes
      that were asked for, to the user that was found, and nothing else changes. */
  lemma AddGives(past: seq<Event>, e: Event)
    requires var s := Run(EMPTY, past);
             e.WriteAdd? && e.r in s.flights && s.flights[e.r].Adding?
    ensures var s, t := Run(EMPTY, past).db, Step(Run(EMPTY, past), e).db;
            var q := Asked(past, e.r);
            && q.Some? && q.value.BeginAdd?
            && (t != s <==> !e.refused && e.found.Some? && (q.value.org, e.found.value) !in s.members)
            && (t != s ==>
                  && Joins(s.members, t.members, q.value.org, e.found.value, q.value.role, q.value.scopes)
                  && t.log == s.log + [MemberAdded(q.value.org, e.found.value, q.value.role)])
            && t.founders == s.founders && t.invitations == s.invitations
  {
    var s := Run(EMPTY, past);
    RunKeeps(EMPTY, past);
    RequestsAreRecalled(past, e.r);
    var f := s.flights[e.r];
    if !e.refused && e.found.Some? {
      AddMeans(s.db, f.org, f.role, f.scopes, e.found.value, Step(s, e).db);
    }
  }

  /** In every interleaving a committed update leaves the user's row with the
      role and scopes that were asked for, under the number it was read under,
      and changes no other row. */
  lemma UpdateGives(past: seq<Event>, e: Event)
    requires var s := Run(EMPTY, past);
             e.WriteUpdate? && e.r in s.flights && s.flights[e.r].Updating?
    ensures var s, t := Run(EMPTY, past).db, Step(Run(EMPTY, past), e).db;
            var q, read := Asked(past, e.r), Run(EMPTY, past).flights[e.r].target.row;
            && q.Some? && q.value.BeginUpdate?
            && var k := (q.value.org, q.value.user);
            && (t != s <==> !e.refused && k in s.members && s.members[k].id == read.id)
            && (t != s ==>
                  && Changes(s.members, t.members, q.value.org, q.value.user, q.value.role, q.value.scopes)
                  && t.log == s.log + [MemberUpdated(q.value.org, q.value.user, q.value.role)])
            && t.founders == s.founders && t.invitations == s.invitations
  {
    var s := Run(EMPTY, past);
    RequestsAreRecalled(past, e.r);
    if !e.refused { UpdateMeans(s.db, s.flights[e.r].updated, Step(s, e).db); }
  }

  /** In every interleaving a committed removal takes away the row of the user
      it was asked for, if that is still the row it read, and no other. */
  lemma RemovalTakes(past: seq<Event>, e: Event)
    requires var s := Run(EMPTY, past);
             e.WriteRemove? && e.r in s.flights && s.flights[e.r].Removing?
    ensures var s, t := Run(EMPTY, past).db, Step(Run(EMPTY, past), e).db;
            var q, read := Asked(past, e.r), Run(EMPTY, past).flights[e.r].target.row;
            && q.Some? && q.value.BeginRemove?
            && var k := (q.value.org, q.value.user);
            && (t != s <==> !e.refused && k in s.members && s.members[k].id == read.id)
            && (t != s ==>
                  && t.members == s.members - {k}
                  && t.log == s.log + [MemberRemoved(q.value.org, q.value.user)])
            && t.founders == s.founders && t.invitations == s.invitations
  {
    var s := Run(EMPTY, past);
    RequestsAreRecalled(past, e.r);
    if !e.refused { RemoveMeans(s.db, s.flights[e.r].target.row, Step(s, e).db); }
  }

  /** In every interleaving an invitation is stored open, on the terms that were
      asked for and with the deadline of the write. */
  lemma InviteOffers(past: seq<Event>, e: Event)
    requires var s := Run(EMPTY, past);
             e.WriteInvite? && e.r in s.flights && s.flights[e.r].Inviting?
    ensures var s, t := Run(EMPTY, past).db, Step(Run(EMPTY, past), e).db;
            var q := Asked(past, e.r);
            && q.Some? && q.value.BeginInvite?
            && (e.refused ==> t == s)
            && (!e.refused ==>
                  && s.next !in s.invitations
                  && t.invitations == s.invitations[s.next := Invitation(s.next, q.value.org, q.value.role,
                                                      q.value.scopes, e.expires, None, None, None)]
                  && t.log == s.log + [InvitationCreated(s.next)])
            && t.founders == s.founders && t.members == s.members
  {
    var s := Run(EMPTY, past);
    RunKeeps(EMPTY, past);
    RequestsAreRecalled(past, e.r);
    var f := s.flights[e.r];
    if !e.refused { InviteMeans(s.db, f.org, f.role, f.scopes, e.expires, Step(s, e).db); }
  }

  /** In every interleaving a revocation is committed exactly when the invitation
      it was asked for is still open, and marks that one and no other. */
  lemma RevocationMarks(past: seq<Event>, e: Event)
    requires var s := Run(EMPTY, past);
             e.WriteRevoke? && e.r in s.flights && s.flights[e.r].Revoking?
    ensures var s, t := Run(EMPTY, past).db, Step(Run(EMPTY, past), e).db;
            var q := Asked(past, e.r);
            && q.Some? && q.value.BeginRevoke? && q.value.invitation in s.invitations
            && var i := s.invitations[q.value.invitation];
            && i.org == q.value.org
            && (t != s <==> !e.refused && StillOpen(i, e.now))
            && (t != s ==>
                  && t.invitations == s.invitations[q.value.invitation := i.(revoked := Some(e.now))]
                  && t.log == s.log + [InvitationRevoked(q.value.invitation)])
            && t.founders == s.founders && t.members == s.members
  {
    var s := Run(EMPTY, past);
    RequestsAreRecalled(past, e.r);
    var f := s.flights[e.r];
    if !e.refused { RevokeMeans(s.db, f.org, f.invitation, e.now, Step(s, e).db); }
  }

  /** In every interleaving the terms of an invitation stay as they were made. */
  lemma {:induction false} TermsNeverChange(past: seq<Event>, later: seq<Event>, i: nat)
    requires i in Run(EMPTY, past).db.invitations
    ensures i in Run(EMPTY, past + later).db.invitations
    ensures SameTerms(Run(EMPTY, past).db.invitations[i], Run(EMPTY, past + later).db.invitations[i])
    decreases |later|
  {
    if later == [] {
      assert past + later == past;
    } else {
      var shorter := past + later[..|later| - 1];
      TermsNeverChange(past, later[..|later| - 1], i);
      LastStep(past + later);
      assert (past + later)[..|past + later| - 1] == shorter;
      RunKeeps(EMPTY, shorter);
      StepKeepsOffers(Run(EMPTY, shorter), later[|later| - 1]);
    }
  }
}
