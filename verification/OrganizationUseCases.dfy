/**
  The use cases themselves, each as the guarded reads and the write its
  `execute` performs, run without interference and proved to be its steps in
  sequence.
 */
module OrganizationUseCases {
  import opened Common
  import opened Roles
  import opened Organizations
  import opened OrganizationEffects

  /** The stored state, with no request in flight. */
  function Alone(db: Db): State { State(db, map[]) }

  /** Every organization there was keeps its one owner's row as it was. */
  ghost predicate OwnersKept(s: Db, t: Db) {
    forall o :: o in s.founders ==> o in t.founders && Owners(t, o) == Owners(s, o) == {s.founders[o]}
  }

  lemma RunKeepsOwners(db: Db, es: seq<Event>)
    requires DbInv(db)
    ensures DbInv(Run(Alone(db), es).db) && OwnersKept(db, Run(Alone(db), es).db)
  {
    var t := Run(Alone(db), es).db;
    RunKeeps(Alone(db), es);
    forall o | o in db.founders ensures o in t.founders && Owners(t, o) == Owners(db, o) == {db.founders[o]} {
      OneOwner(db, o);
      OneOwner(t, o);
    }
  }

  lemma RowsLieUnderTheirKeys(db: Db, org: nat, user: nat)
    requires DbInv(db)
    ensures (org, user) in db.members ==> db.members[(org, user)].org == org && db.members[(org, user)].user == user
  {
  }

  /** A new invitation, with the outcome of sending it if that was recorded. */
  function Invited(db: Db, org: nat, role: Role, scopes: set<Scope>, expires: int, delivery: Delivery,
                   unsaved: bool): Db {
    var t := DoInvite(db, org, role, scopes, expires);
    if unsaved then t else DoDeliver(t, org, db.next, delivery)
  }

  class Directory {
    var founders: map<nat, Membership>
    var members: map<(nat, nat), Membership>
    var invitations: map<nat, Invitation>
    var next: nat
    var log: seq<Audit>

    ghost function Rows(): Db
      reads this
    {
      Db(founders, members, invitations, next, log)
    }

    /** The tables satisfy what every interleaving keeps. */
    ghost predicate Valid()
      reads this
    {
      DbInv(Rows())
    }

    constructor ()
      ensures Valid() && Rows() == NO_ROWS
    {
      founders, members, invitations, next, log := map[], map[], map[], 0, [];
    }

    method GetMembership(user: nat, org: nat) returns (m: Option<Membership>)
      ensures m == Get(Rows(), org, user)
    {
      if (org, user) in members { return Some(members[(org, user)]); }
      return None;
    }

    // The repositories' single calls.

    method InsertOrganization(actor: nat) returns (org: nat)
      modifies this
      ensures Rows() == DoCreate(old(Rows()), actor) && org == old(next)
    {
      var owner := Membership(next + 1, actor, next, Owner, {});
      founders := founders[next := owner];
      members := members[(next, actor) := owner];
      log := log + [Created(next, actor)];
      org := next;
      next := next + 2;
    }

    method InsertMember(org: nat, user: nat, role: Role, scopes: set<Scope>) returns (done: bool)
      modifies this
      ensures Rows() == DoAdd(old(Rows()), org, role, scopes, user)
      ensures done <==> |log| > |old(log)|
    {
      if (org, user) in members { return false; }
      members := members[(org, user) := Membership(next, user, org, role, scopes)];
      log := log + [MemberAdded(org, user, role)];
      next := next + 1;
      return true;
    }

    method UpdateRow(m: Membership) returns (done: bool)
      modifies this
      ensures Rows() == DoUpdate(old(Rows()), m)
      ensures done <==> |log| > |old(log)|
    {
      if (m.org, m.user) !in members || members[(m.org, m.user)].id != m.id { return false; }
      members := members[(m.org, m.user) := m];
      log := log + [MemberUpdated(m.org, m.user, m.role)];
      return true;
    }

    method DeleteRow(m: Membership) returns (done: bool)
      modifies this
      ensures Rows() == DoRemove(old(Rows()), m)
      ensures done <==> |log| > |old(log)|
    {
      if (m.org, m.user) !in members || members[(m.org, m.user)].id != m.id { return false; }
      members := members - {(m.org, m.user)};
      log := log + [MemberRemoved(m.org, m.user)];
      return true;
    }

    method InsertInvitation(org: nat, role: Role, scopes: set<Scope>, expires: int) returns (id: nat)
      modifies this
      ensures Rows() == DoInvite(old(Rows()), org, role, scopes, expires) && id == old(next)
    {
      invitations := invitations[next := Invitation(next, org, role, scopes, expires, None, None, None)];
      log := log + [InvitationCreated(next)];
      id := next;
      next := next + 1;
    }

    method UpdateDeliveryStatus(org: nat, id: nat, delivery: Delivery)
      modifies this
      ensures Rows() == DoDeliver(old(Rows()), org, id, delivery)
    {
      if id in invitations && invitations[id].org == org {
        invitations := invitations[id := invitations[id].(delivery := Some(delivery))];
      }
    }

    /** Insert, send and record the outcome. */
    method SendInvitation(org: nat, role: Role, scopes: set<Scope>, expires: int, delivery: Delivery, unsaved: bool)
      returns (id: nat)
      modifies this
      ensures Rows() == Invited(old(Rows()), org, role, scopes, expires, delivery, unsaved)
      ensures id == old(next) && founders == old(founders) && members == old(members)
      ensures invitations == old(invitations)[id := Invitation(id, org, role, scopes, expires, None, None,
                                                if unsaved then None else Some(delivery))]
      ensures log == old(log) + [InvitationCreated(id)]
    {
      id := InsertInvitation(org, role, scopes, expires);
      if !unsaved { UpdateDeliveryStatus(org, id, delivery); }
    }

    method ClaimInvitation(i: Invitation, user: nat, now: int) returns (done: bool)
      modifies this
      ensures Rows() == DoAccept(old(Rows()), i, user, now)
      ensures done <==> |log| > |old(log)|
    {
      if i.id !in invitations || invitations[i.id].org != i.org || StatusAt(invitations[i.id], now) != Pending
         || (i.org, user) in members { return false; }
      invitations := invitations[i.id := invitations[i.id].(accepted := Some(now))];
      members := members[(i.org, user) := Membership(next, user, i.org, i.role, i.scopes)];
      log := log + [InvitationAccepted(i.org, user, i.role, i.id)];
      next := next + 1;
      return true;
    }

    method MarkRevoked(org: nat, id: nat, now: int) returns (done: bool)
      modifies this
      ensures Rows() == DoRevoke(old(Rows()), org, id, now)
      ensures done <==> |log| > |old(log)|
    {
      if id !in invitations || invitations[id].org != org || StatusAt(invitations[id], now) != Pending { return false; }
      invitations := invitations[id := invitations[id].(revoked := Some(now))];
      log := log + [InvitationRevoked(id)];
      return true;
    }

    // The use cases.

    /** `CreateOrganization.execute` */
    method CreateOrganization(actor: nat, active: bool, refused: bool) returns (org: Option<nat>)
      requires Valid()
      modifies this
      ensures Valid() && OwnersKept(old(Rows()), Rows())
      ensures Alone(Rows()) == Step(old(Alone(Rows())), Create(actor, active, refused))
      ensures org.Some? <==> active && !refused
      ensures org.None? ==> Rows() == old(Rows())
      ensures org.Some? ==>
              && org.value !in old(founders) && Joins(old(members), members, org.value, actor, Owner, {})
              && founders == old(founders)[org.value := members[(org.value, actor)]]
              && invitations == old(invitations) && log == old(log) + [Created(org.value, actor)]
    {
      CreateMeans(Rows(), actor, DoCreate(Rows(), actor));
      RunKeepsOwners(Rows(), [Create(actor, active, refused)]);
      OneStep(Alone(Rows()), Create(actor, active, refused));
      if !active || refused { return None; }
      var id := InsertOrganization(actor);
      return Some(id);
    }

    /** `AddOrganizationMember.execute` */
    method AddMember(actor: nat, org: nat, role: Role, scopes: set<Scope>, found: Option<nat>, refused: bool)
      returns (done: bool)
      requires Valid()
      modifies this
      ensures Valid() && OwnersKept(old(Rows()), Rows())
      ensures Alone(Rows()) ==
              Run(old(Alone(Rows())), [BeginAdd(0, actor, org, role, scopes), WriteAdd(0, found, refused)])
      ensures done <==>
              && MayGive(old(members), actor, org, role) && scopes <= Grants(role)
              && found.Some? && !refused && (org, found.value) !in old(members)
      ensures !done ==> Rows() == old(Rows())
      ensures done ==>
              && Joins(old(members), members, org, found.value, role, scopes)
              && founders == old(founders) && invitations == old(invitations)
              && log == old(log) + [MemberAdded(org, found.value, role)]
    {
      MayGiveExactly(Rows(), actor, org, role);
      SupportedExactly(role, scopes);
      if found.Some? {
        AddMeans(Rows(), org, role, scopes, found.value, DoAdd(Rows(), org, role, scopes, found.value));
      }
      RunKeepsOwners(Rows(), [BeginAdd(0, actor, org, role, scopes), WriteAdd(0, found, refused)]);
      AddAlone(Rows(), actor, org, role, scopes, found, refused);
      var a := GetMembership(actor, org);
      if a.None? || !CanManage(a.value.role) || !MayAssign(a.value.role, role) { return false; }
      if !AllSupported(role, scopes) || found.None? || refused { return false; }
      done := InsertMember(org, found.value, role, scopes);
    }

    /** `UpdateOrganizationMember.execute` */
    method UpdateMember(actor: nat, org: nat, user: nat, role: Role, scopes: set<Scope>, refused: bool)
      returns (done: bool)
      requires Valid()
      modifies this
      ensures Valid() && OwnersKept(old(Rows()), Rows())
      ensures Alone(Rows()) ==
              Run(old(Alone(Rows())),
                  [BeginUpdate(0, actor, org, user, role, scopes), ReadUpdateTarget(0), WriteUpdate(0, refused)])
      ensures done <==>
              && MayGive(old(members), actor, org, role) && scopes <= Grants(role)
              && MayReplace(old(members), actor, org, user) && !refused
      ensures !done ==> Rows() == old(Rows())
      ensures done ==>
              && Changes(old(members), members, org, user, role, scopes)
              && founders == old(founders) && invitations == old(invitations) && next == old(next)
              && log == old(log) + [MemberUpdated(org, user, role)]
    {
      MayGiveExactly(Rows(), actor, org, role);
      MayReplaceExactly(Rows(), actor, org, user);
      SupportedExactly(role, scopes);
      RowsLieUnderTheirKeys(Rows(), org, user);
      RunKeepsOwners(Rows(),
                     [BeginUpdate(0, actor, org, user, role, scopes), ReadUpdateTarget(0), WriteUpdate(0, refused)]);
      RowsLieUnderTheirKeys(Rows(), org, actor);
      UpdateAlone(Rows(), actor, org, user, role, scopes, refused);
      var a := GetMembership(actor, org);
      if a.None? || !CanManage(a.value.role) || !MayAssign(a.value.role, role) { return false; }
      if !AllSupported(role, scopes) { return false; }
      var t := GetMembership(user, org);
      if t.None? || t.value.user == a.value.user || !MayAssign(a.value.role, t.value.role) || refused { return false; }
      done := UpdateRow(t.value.(role := role, scopes := scopes));
    }

    /** `RemoveOrganizationMember.execute` */
    method RemoveMember(actor: nat, org: nat, user: nat, refused: bool) returns (done: bool)
      requires Valid()
      modifies this
      ensures Valid() && OwnersKept(old(Rows()), Rows())
      ensures Alone(Rows()) ==
              Run(old(Alone(Rows())), [BeginRemove(0, actor, org, user), ReadRemoveTarget(0), WriteRemove(0, refused)])
      ensures done <==> MayReplace(old(members), actor, org, user) && !refused
      ensures !done ==> Rows() == old(Rows())
      ensures done ==>
              && members == old(members) - {(org, user)}
              && founders == old(founders) && invitations == old(invitations) && next == old(next)
              && log == old(log) + [MemberRemoved(org, user)]
    {
      MayReplaceExactly(Rows(), actor, org, user);
      RowsLieUnderTheirKeys(Rows(), org, user);
      RunKeepsOwners(Rows(), [BeginRemove(0, actor, org, user), ReadRemoveTarget(0), WriteRemove(0, refused)]);
      RemoveAlone(Rows(), actor, org, user, refused);
      var a := GetMembership(actor, org);
      var t := GetMembership(user, org);
      if a.None? || t.None? || t.value.user == a.value.user || !CanManage(a.value.role)
         || !MayAssign(a.value.role, t.value.role) || refused { return false; }
      done := DeleteRow(t.value);
    }

    /** `InviteOrganizationMember.execute` */
    method InviteMember(actor: nat, org: nat, role: Role, scopes: set<Scope>, expires: int, refused: bool,
                        delivery: Delivery, unsaved: bool)
      returns (id: Option<nat>)
      requires Valid()
      modifies this
      ensures Valid() && OwnersKept(old(Rows()), Rows())
      ensures Alone(Rows()) ==
              Run(old(Alone(Rows())),
                  [BeginInvite(0, actor, org, role, scopes), WriteInvite(0, expires, refused),
                   WriteDelivery(0, delivery, unsaved)])
      ensures id.Some? <==>
              org in old(founders) && MayGive(old(members), actor, org, role) && scopes <= Grants(role) && !refused
      ensures id.None? ==> Rows() == old(Rows())
      ensures id.Some? ==>
              && id.value !in old(invitations)
              && invitations ==
                 old(invitations)[id.value := Invitation(id.value, org, role, scopes, expires, None, None,
                                                         if unsaved then None else Some(delivery))]
              && founders == old(founders) && members == old(members) && log == old(log) + [InvitationCreated(id.value)]
    {
      MayGiveExactly(Rows(), actor, org, role);
      SupportedExactly(role, scopes);
      NewNumbers(Rows());
      RunKeepsOwners(Rows(),
                     [BeginInvite(0, actor, org, role, scopes), WriteInvite(0, expires, refused),
                      WriteDelivery(0, delivery, unsaved)]);
      InviteAlone(Rows(), actor, org, role, scopes, expires, refused, delivery, unsaved);
      var a := GetMembership(actor, org);
      if org !in founders || a.None? || !CanManage(a.value.role) || !MayAssign(a.value.role, role) { return None; }
      if !AllSupported(role, scopes) || refused { return None; }
      var n := SendInvitation(org, role, scopes, expires, delivery, unsaved);
      return Some(n);
    }

    /** `AcceptOrganizationInvitation.execute` */
    method AcceptInvitation(user: nat, id: nat, now: int, eligible: bool, refused: bool) returns (done: bool)
      requires Valid()
      modifies this
      ensures Valid() && OwnersKept(old(Rows()), Rows())
      ensures Alone(Rows()) ==
              Run(old(Alone(Rows())),
                  [BeginAccept(0, user, id, now), ConfirmAccept(0, eligible), WriteAccept(0, refused)])
      ensures done <==>
              && id in old(invitations) && StillOpen(old(invitations)[id], now) && eligible && !refused
              && (old(invitations)[id].org, user) !in old(members)
      ensures !done ==> Rows() == old(Rows())
      ensures done ==>
              var offer := old(invitations)[id];
              && Joins(old(members), members, offer.org, user, offer.role, offer.scopes)
              && invitations == old(invitations)[id := offer.(accepted := Some(now))]
              && founders == old(founders) && log == old(log) + [InvitationAccepted(offer.org, user, offer.role, id)]
    {
      if id in invitations {
        StatusMeans(invitations[id], now);
        AcceptMeans(Rows(), invitations[id], user, now, DoAccept(Rows(), invitations[id], user, now));
      }
      RunKeepsOwners(Rows(), [BeginAccept(0, user, id, now), ConfirmAccept(0, eligible), WriteAccept(0, refused)]);
      AcceptAlone(Rows(), user, id, now, eligible, refused);
      if id !in invitations || StatusAt(invitations[id], now) != Pending || !eligible { return false; }
      var existing := GetMembership(user, invitations[id].org);
      if existing.Some? || refused { return false; }
      done := ClaimInvitation(invitations[id], user, now);
    }

    /** `RevokeOrganizationInvitation.execute` */
    method RevokeInvitation(actor: nat, org: nat, id: nat, now: int, refused: bool) returns (done: bool)
      requires Valid()
      modifies this
      ensures Valid() && OwnersKept(old(Rows()), Rows())
      ensures Alone(Rows()) ==
              Run(old(Alone(Rows())),
                  [BeginRevoke(0, actor, org, id), ReadRevokeTarget(0, now), WriteRevoke(0, now, refused)])
      ensures done <==>
              && id in old(invitations) && old(invitations)[id].org == org && StillOpen(old(invitations)[id], now)
              && MayGive(old(members), actor, org, old(invitations)[id].role) && !refused
      ensures !done ==> Rows() == old(Rows())
      ensures done ==>
              && invitations == old(invitations)[id := old(invitations)[id].(revoked := Some(now))]
              && founders == old(founders) && members == old(members) && next == old(next)
              && log == old(log) + [InvitationRevoked(id)]
    {
      if id in invitations {
        StatusMeans(invitations[id], now);
        MayGiveExactly(Rows(), actor, org, invitations[id].role);
      }
      RunKeepsOwners(Rows(), [BeginRevoke(0, actor, org, id), ReadRevokeTarget(0, now), WriteRevoke(0, now, refused)]);
      RevokeAlone(Rows(), actor, org, id, now, refused);
      var a := GetMembership(actor, org);
      if id !in invitations || invitations[id].org != org || a.None? || !CanManage(a.value.role)
         || !MayAssign(a.value.role, invitations[id].role) || StatusAt(invitations[id], now) != Pending || refused
      { return false; }
      done := MarkRevoked(org, id, now);
    }
  }

  lemma OneStep(s: State, a: Event)
    ensures Run(s, [a]) == Step(s, a)
  {
  }

  lemma TwoSteps(s: State, a: Event, b: Event)
    ensures Run(s, [a, b]) == Step(Step(s, a), b)
  {
    assert [a, b][1..] == [b] && [b][1..] == [];
    assert Run(Step(s, a), [b]) == Step(Step(s, a), b);
  }

  lemma ThreeSteps(s: State, a: Event, b: Event, c: Event)
    ensures Run(s, [a, b, c]) == Step(Step(Step(s, a), b), c)
  {
    assert [a, b, c][1..] == [b, c];
    TwoSteps(Step(s, a), b, c);
  }

  predicate Reads(e: Event) { e.ReadUpdateTarget? || e.ReadRemoveTarget? || e.ConfirmAccept? || e.ReadRevokeTarget? }

  predicate Writes(e: Event) {
    || e.WriteAdd? || e.WriteUpdate? || e.WriteRemove? || e.WriteInvite? || e.WriteDelivery?
    || e.WriteAccept? || e.WriteRevoke?
  }

  function With(db: Db, f: Flight): State { State(db, map[0 := f]) }

  predicate Begins(e: Event) { !e.Create? && !Reads(e) && !Writes(e) && e.r == 0 }

  /** The three calls a lone request can make, and where each leaves it. */
  lemma BeginFlies(db: Db, e: Event)
    requires Begins(e)
    ensures Step(Alone(db), e) == if Begin(db, e).None? then Alone(db) else With(db, Begin(db, e).value)
  {
  }

  lemma ReadGoesOn(db: Db, f: Flight, e: Event)
    requires Fits(e, f) && e.r == 0 && Reads(e)
    ensures Step(With(db, f), e) == if Ahead(db, e, f).None? then Alone(db) else With(db, Ahead(db, e, f).value)
  {
  }

  lemma WriteLands(db: Db, f: Flight, e: Event)
    requires Fits(e, f) && e.r == 0 && Writes(e) && !e.WriteInvite?
    ensures Step(With(db, f), e) == Alone(Written(db, e, f))
  {
  }

  lemma Idle(db: Db, e: Event)
    requires (Reads(e) || Writes(e)) && e.r == 0
    ensures Step(Alone(db), e) == Alone(db)
  {
  }

  /** A request of one read and one write. */
  lemma ShortTrip(db: Db, a: Event, b: Event)
    requires Begins(a) && Writes(b) && !b.WriteInvite? && b.r == 0
    requires Begin(db, a).Some? ==> Fits(b, Begin(db, a).value)
    ensures Run(Alone(db), [a, b]) ==
            Alone(if Begin(db, a).None? then db else Written(db, b, Begin(db, a).value))
  {
    TwoSteps(Alone(db), a, b);
    BeginFlies(db, a);
    if Begin(db, a).Some? { WriteLands(db, Begin(db, a).value, b); } else { Idle(db, b); }
  }

  /** A request of two reads and one write. */
  lemma LongTrip(db: Db, a: Event, b: Event, c: Event)
    requires Begins(a) && Reads(b) && Writes(c) && !c.WriteInvite? && b.r == 0 && c.r == 0
    requires Begin(db, a).Some? ==> Fits(b, Begin(db, a).value)
    requires Begin(db, a).Some? && Ahead(db, b, Begin(db, a).value).Some? ==>
             Fits(c, Ahead(db, b, Begin(db, a).value).value)
    ensures Run(Alone(db), [a, b, c]) ==
            Alone(if Begin(db, a).None? || Ahead(db, b, Begin(db, a).value).None? then db
                  else Written(db, c, Ahead(db, b, Begin(db, a).value).value))
  {
    ThreeSteps(Alone(db), a, b, c);
    BeginFlies(db, a);
    if Begin(db, a).None? {
      Idle(db, b);
      Idle(db, c);
    } else {
      var f := Begin(db, a).value;
      ReadGoesOn(db, f, b);
      if Ahead(db, b, f).Some? { WriteLands(db, Ahead(db, b, f).value, c); } else { Idle(db, c); }
    }
  }

  // What each request alone does to the rows, as one expression.

  lemma AddAlone(db: Db, actor: nat, org: nat, role: Role, scopes: set<Scope>, found: Option<nat>, refused: bool)
    ensures Run(Alone(db), [BeginAdd(0, actor, org, role, scopes), WriteAdd(0, found, refused)]) ==
            Alone(if ActorMay(Get(db, org, actor), role) && AllSupported(role, scopes) && found.Some? && !refused
                  then DoAdd(db, org, role, scopes, found.value) else db)
  {
    ShortTrip(db, BeginAdd(0, actor, org, role, scopes), WriteAdd(0, found, refused));
  }

  lemma InviteLands(db: Db, f: Flight, expires: int, refused: bool, delivery: Delivery, unsaved: bool)
    requires f.Inviting?
    ensures Step(Step(With(db, f), WriteInvite(0, expires, refused)), WriteDelivery(0, delivery, unsaved)) ==
            Alone(if refused then db
                  else Invited(db, f.org, f.role, f.scopes, expires, delivery, unsaved))
  {
  }

  lemma InviteAlone(db: Db, actor: nat, org: nat, role: Role, scopes: set<Scope>, expires: int, refused: bool,
                    delivery: Delivery, unsaved: bool)
    ensures Run(Alone(db),
                [BeginInvite(0, actor, org, role, scopes), WriteInvite(0, expires, refused),
                 WriteDelivery(0, delivery, unsaved)]) ==
            Alone(if org in db.founders && ActorMay(Get(db, org, actor), role) && AllSupported(role, scopes) && !refused
                  then Invited(db, org, role, scopes, expires, delivery, unsaved) else db)
  {
    var a, b := BeginInvite(0, actor, org, role, scopes), WriteInvite(0, expires, refused);
    var c := WriteDelivery(0, delivery, unsaved);
    ThreeSteps(Alone(db), a, b, c);
    BeginFlies(db, a);
    if Begin(db, a).Some? {
      InviteLands(db, Begin(db, a).value, expires, refused, delivery, unsaved);
    } else {
      Idle(db, b);
      Idle(db, c);
    }
  }

  lemma UpdateAlone(db: Db, actor: nat, org: nat, user: nat, role: Role, scopes: set<Scope>, refused: bool)
    requires (org, actor) in db.members ==> db.members[(org, actor)].org == org
    ensures Run(Alone(db),
                [BeginUpdate(0, actor, org, user, role, scopes), ReadUpdateTarget(0), WriteUpdate(0, refused)]) ==
            Alone(if ActorMay(Get(db, org, actor), role) && AllSupported(role, scopes)
                     && MayTouch(Get(db, org, actor), Get(db, org, user)) && !refused
                  then DoUpdate(db, Get(db, org, user).value.(role := role, scopes := scopes)) else db)
  {
    LongTrip(db, BeginUpdate(0, actor, org, user, role, scopes), ReadUpdateTarget(0), WriteUpdate(0, refused));
  }

  lemma RemoveAlone(db: Db, actor: nat, org: nat, user: nat, refused: bool)
    ensures Run(Alone(db), [BeginRemove(0, actor, org, user), ReadRemoveTarget(0), WriteRemove(0, refused)]) ==
            Alone(if MayTouch(Get(db, org, actor), Get(db, org, user)) && !refused
                  then DoRemove(db, Get(db, org, user).value) else db)
  {
    LongTrip(db, BeginRemove(0, actor, org, user), ReadRemoveTarget(0), WriteRemove(0, refused));
  }

  lemma AcceptAlone(db: Db, user: nat, id: nat, now: int, eligible: bool, refused: bool)
    ensures Run(Alone(db), [BeginAccept(0, user, id, now), ConfirmAccept(0, eligible), WriteAccept(0, refused)]) ==
            Alone(if id in db.invitations && StatusAt(db.invitations[id], now) == Pending && eligible && !refused
                     && Get(db, db.invitations[id].org, user).None?
                  then DoAccept(db, db.invitations[id], user, now) else db)
  {
    LongTrip(db, BeginAccept(0, user, id, now), ConfirmAccept(0, eligible), WriteAccept(0, refused));
  }

  lemma RevokeAlone(db: Db, actor: nat, org: nat, id: nat, now: int, refused: bool)
    ensures Run(Alone(db), [BeginRevoke(0, actor, org, id), ReadRevokeTarget(0, now), WriteRevoke(0, now, refused)]) ==
            Alone(if id in db.invitations && db.invitations[id].org == org
                     && ActorMay(Get(db, org, actor), db.invitations[id].role)
                     && StatusAt(db.invitations[id], now) == Pending && !refused
                  then DoRevoke(db, org, id, now) else db)
  {
    LongTrip(db, BeginRevoke(0, actor, org, id), ReadRevokeTarget(0, now), WriteRevoke(0, now, refused));
  }
}
