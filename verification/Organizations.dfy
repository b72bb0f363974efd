/**
  Organization membership and invitations as a state machine whose steps are
  the single database calls of the use cases, so that requests interleave.
 */
module Organizations {
  import opened Common
  import opened Roles

  datatype Invitation = Invitation(
    id: nat, org: nat, role: Role, scopes: set<Scope>, expires: int,
    accepted: Option<int>, revoked: Option<int>, delivery: Option<Delivery>)

  /** How sending the invitation went. */
  datatype Delivery = Sent | Unavailable | FailedToSend

  datatype Status = Pending | Accepted | Revoked | Expired

  function StatusAt(i: Invitation, now: int): Status {
    if i.accepted.Some? then Accepted
    else if i.revoked.Some? then Revoked
    else if i.expires <= now then Expired
    else Pending
  }

  /** The audit event each write commits together with its change, with the
      role it gives. */
  datatype Audit =
    | Created(org: nat, user: nat)
    | MemberAdded(org: nat, user: nat, role: Role)
    | MemberUpdated(org: nat, user: nat, role: Role)
    | MemberRemoved(org: nat, user: nat)
    | InvitationCreated(invitation: nat)
    | InvitationAccepted(org: nat, user: nat, role: Role, invitation: nat)
    | InvitationRevoked(invitation: nat)

  /** A membership as it was read, and how many audit events there were then. */
  datatype Sight = Sight(row: Membership, at: nat)

  /** A request between two of its database calls, with what it has read. */
  datatype Flight =
    | Adding(org: nat, role: Role, scopes: set<Scope>, manager: Sight)
    | UpdateRead(manager: Sight, user: nat, role: Role, scopes: set<Scope>)
    | Updating(updated: Membership, target: Sight, manager: Sight)
    | RemoveRead(actor: Option<Membership>, at: nat, org: nat, user: nat)
    | Removing(target: Sight, manager: Sight)
    | Inviting(org: nat, role: Role, scopes: set<Scope>, manager: Sight)
    | Delivering(org: nat, invitation: nat)
    | AcceptRead(offer: Invitation, user: nat, now: int)
    | Joining(offer: Invitation, user: nat, now: int)
    | RevokeRead(actor: Option<Membership>, at: nat, org: nat, invitation: nat)
    | Revoking(org: nat, invitation: nat, role: Role, manager: Sight)

  /** Rows are kept under the unique (organization, user) key. `founders`
      remembers the membership with which each organization was created. */
  datatype Db = Db(
    founders: map<nat, Membership>,
    members: map<(nat, nat), Membership>,
    invitations: map<nat, Invitation>,
    next: nat,
    log: seq<Audit>)

  datatype State = State(db: Db, flights: map<nat, Flight>)

  const NO_ROWS := Db(map[], map[], map[], 0, [])
  const EMPTY := State(NO_ROWS, map[])

  /** One database call of some request. Facts that come from elsewhere (user
      status, e-mail ownership, the clock, a constraint failure that rolls the
      transaction back) are part of the event. */
  datatype Event =
    | Create(actor: nat, active: bool, refused: bool)
    | BeginAdd(r: nat, actor: nat, org: nat, role: Role, scopes: set<Scope>)
    | WriteAdd(r: nat, found: Option<nat>, refused: bool)
    | BeginUpdate(r: nat, actor: nat, org: nat, user: nat, role: Role, scopes: set<Scope>)
    | ReadUpdateTarget(r: nat)
    | WriteUpdate(r: nat, refused: bool)
    | BeginRemove(r: nat, actor: nat, org: nat, user: nat)
    | ReadRemoveTarget(r: nat)
    | WriteRemove(r: nat, refused: bool)
    | BeginInvite(r: nat, actor: nat, org: nat, role: Role, scopes: set<Scope>)
    | WriteInvite(r: nat, expires: int, refused: bool)
    | WriteDelivery(r: nat, delivery: Delivery, refused: bool)
    | BeginAccept(r: nat, user: nat, invitation: nat, now: int)
    | ConfirmAccept(r: nat, eligible: bool)
    | WriteAccept(r: nat, refused: bool)
    | BeginRevoke(r: nat, actor: nat, org: nat, invitation: nat)
    | ReadRevokeTarget(r: nat, now: int)
    | WriteRevoke(r: nat, now: int, refused: bool)

  function Get(s: Db, org: nat, user: nat): Option<Membership> {
    if (org, user) in s.members then Some(s.members[(org, user)]) else None
  }

  /** `require_actor_can_manage` */
  predicate ActorMay(actor: Option<Membership>, target: Role) {
    actor.Some? && CanManage(actor.value.role) && MayAssign(actor.value.role, target)
  }

  predicate MayTouch(actor: Option<Membership>, target: Option<Membership>) {
    target.Some? && ActorMay(actor, target.value.role) && target.value.user != actor.value.user
  }


  function DoCreate(s: Db, actor: nat): Db {
    var owner := Membership(s.next + 1, actor, s.next, Owner, {});
    s.(founders := s.founders[s.next := owner],
       members := s.members[(s.next, actor) := owner],
       next := s.next + 2,
       log := s.log + [Created(s.next, actor)])
  }

  /** INSERT of a membership: refused when the (organization, user) pair exists. */
  function DoAdd(s: Db, org: nat, role: Role, scopes: set<Scope>, user: nat): Db {
    if (org, user) in s.members then s
    else s.(members := s.members[(org, user) := Membership(s.next, user, org, role, scopes)],
            next := s.next + 1,
            log := s.log + [MemberAdded(org, user, role)])
  }

  predicate StillThere(s: Db, m: Membership) {
    (m.org, m.user) in s.members && s.members[(m.org, m.user)].id == m.id
  }

  function DoUpdate(s: Db, m: Membership): Db {
    if !StillThere(s, m) then s
    else s.(members := s.members[(m.org, m.user) := m], log := s.log + [MemberUpdated(m.org, m.user, m.role)])
  }

  function DoRemove(s: Db, m: Membership): Db {
    if !StillThere(s, m) then s
    else s.(members := s.members - {(m.org, m.user)}, log := s.log + [MemberRemoved(m.org, m.user)])
  }

  function DoInvite(s: Db, org: nat, role: Role, scopes: set<Scope>, expires: int): Db {
    s.(invitations := s.invitations[s.next := Invitation(s.next, org, role, scopes, expires, None, None, None)],
       next := s.next + 1,
       log := s.log + [InvitationCreated(s.next)])
  }

  /** `update_delivery_status` */
  function DoDeliver(s: Db, org: nat, id: nat, delivery: Delivery): Db {
    if id !in s.invitations || s.invitations[id].org != org then s
    else s.(invitations := s.invitations[id := s.invitations[id].(delivery := Some(delivery))])
  }

  /** Claims the invitation and inserts the membership in one transaction. */
  function DoAccept(s: Db, i: Invitation, user: nat, now: int): Db {
    if i.id !in s.invitations || s.invitations[i.id].org != i.org
       || StatusAt(s.invitations[i.id], now) != Pending || (i.org, user) in s.members then s
    else
      s.(invitations := s.invitations[i.id := s.invitations[i.id].(accepted := Some(now))],
         members := s.members[(i.org, user) := Membership(s.next, user, i.org, i.role, i.scopes)],
         next := s.next + 1,
         log := s.log + [InvitationAccepted(i.org, user, i.role, i.id)])
  }

  function DoRevoke(s: Db, org: nat, id: nat, now: int): Db {
    if id !in s.invitations || s.invitations[id].org != org || StatusAt(s.invitations[id], now) != Pending then s
    else s.(invitations := s.invitations[id := s.invitations[id].(revoked := Some(now))],
            log := s.log + [InvitationRevoked(id)])
  }

  /** First call of a request: it reads, and may go on. */
  function Begin(s: Db, e: Event): Option<Flight> {
    match e
    case BeginAdd(_, actor, org, role, scopes) =>
      var a := Get(s, org, actor);
      if ActorMay(a, role) && AllSupported(role, scopes)
      then Some(Adding(org, role, scopes, Sight(a.value, |s.log|))) else None
    case BeginUpdate(_, actor, org, user, role, scopes) =>
      var a := Get(s, org, actor);
      if ActorMay(a, role) && AllSupported(role, scopes)
      then Some(UpdateRead(Sight(a.value, |s.log|), user, role, scopes)) else None
    case BeginRemove(_, actor, org, user) => Some(RemoveRead(Get(s, org, actor), |s.log|, org, user))
    case BeginInvite(_, actor, org, role, scopes) =>
      var a := Get(s, org, actor);
      if org in s.founders && ActorMay(a, role) && AllSupported(role, scopes)
      then Some(Inviting(org, role, scopes, Sight(a.value, |s.log|))) else None
    case BeginAccept(_, user, id, now) =>
      if id in s.invitations && StatusAt(s.invitations[id], now) == Pending
      then Some(AcceptRead(s.invitations[id], user, now)) else None
    case BeginRevoke(_, actor, org, id) => Some(RevokeRead(Get(s, org, actor), |s.log|, org, id))
    case _ => None
  }

  /** The call is the next one of a request that stands at this point. */
  predicate Fits(e: Event, f: Flight) {
    || (e.WriteAdd? && f.Adding?)
    || (e.ReadUpdateTarget? && f.UpdateRead?) || (e.WriteUpdate? && f.Updating?)
    || (e.ReadRemoveTarget? && f.RemoveRead?) || (e.WriteRemove? && f.Removing?)
    || (e.WriteInvite? && f.Inviting?) || (e.WriteDelivery? && f.Delivering?)
    || (e.ConfirmAccept? && f.AcceptRead?) || (e.WriteAccept? && f.Joining?)
    || (e.ReadRevokeTarget? && f.RevokeRead?) || (e.WriteRevoke? && f.Revoking?)
  }

  /** What a call lets the request go on with; None ends it. */
  function Ahead(s: Db, e: Event, f: Flight): Option<Flight>
    requires Fits(e, f)
  {
    if e.ReadUpdateTarget? then
      var t := Get(s, f.manager.row.org, f.user);
      if t.None? || t.value.user == f.manager.row.user || !MayAssign(f.manager.row.role, t.value.role) then None
      else Some(Updating(t.value.(role := f.role, scopes := f.scopes), Sight(t.value, |s.log|), f.manager))
    else if e.ReadRemoveTarget? then
      var t := Get(s, f.org, f.user);
      if MayTouch(f.actor, t) then Some(Removing(Sight(t.value, |s.log|), Sight(f.actor.value, f.at))) else None
    else if e.ConfirmAccept? then
      if !e.eligible || Get(s, f.offer.org, f.user).Some? then None else Some(Joining(f.offer, f.user, f.now))
    else if e.ReadRevokeTarget? then
      if f.invitation in s.invitations && s.invitations[f.invitation].org == f.org
         && ActorMay(f.actor, s.invitations[f.invitation].role)
         && StatusAt(s.invitations[f.invitation], e.now) == Pending
      then Some(Revoking(f.org, f.invitation, s.invitations[f.invitation].role, Sight(f.actor.value, f.at))) else None
    else if e.WriteInvite? && !e.refused then Some(Delivering(f.org, s.next))
    else None
  }

  /** What a writing call commits. */
  function Written(s: Db, e: Event, f: Flight): Db
    requires Fits(e, f)
  {
    if e.WriteAdd? then (if e.refused || e.found.None? then s else DoAdd(s, f.org, f.role, f.scopes, e.found.value))
    else if e.WriteUpdate? then (if e.refused then s else DoUpdate(s, f.updated))
    else if e.WriteRemove? then (if e.refused then s else DoRemove(s, f.target.row))
    else if e.WriteInvite? then (if e.refused then s else DoInvite(s, f.org, f.role, f.scopes, e.expires))
    else if e.WriteDelivery? then (if e.refused then s else DoDeliver(s, f.org, f.invitation, e.delivery))
    else if e.WriteAccept? then (if e.refused then s else DoAccept(s, f.offer, f.user, f.now))
    else if e.WriteRevoke? then (if e.refused then s else DoRevoke(s, f.org, f.invitation, e.now))
    else s
  }

  function Step(s: State, e: Event): State {
    if e.Create? then
      if e.active && !e.refused then s.(db := DoCreate(s.db, e.actor)) else s
    else if e.r !in s.flights then
      s.(flights := Onward(s.flights, e.r, Begin(s.db, e)))
    else if Fits(e, s.flights[e.r]) then
      var f := s.flights[e.r];
      State(Written(s.db, e, f), Onward(s.flights, e.r, Ahead(s.db, e, f)))
    else s
  }

  function Run(s: State, es: seq<Event>): State
    decreases |es|
  {
    if es == [] then s else Run(Step(s, es[0]), es[1..])
  }

  // -------------------------------------------------------------- invariant

  type Founders = map<nat, Membership>

  /** An identifier already issued that no founding membership carries. */
  ghost predicate Mortal(fs: Founders, next: nat, id: nat) {
    id < next && forall o :: o in fs ==> fs[o].id != id
  }

  ghost predicate RowOk(fs: Founders, next: nat, k: (nat, nat), m: Membership) {
    && m.org == k.0 && m.user == k.1 && m.org in fs
    && AllSupported(m.role, m.scopes)
    && (if m.role == Owner then m == fs[m.org] else Mortal(fs, next, m.id))
  }

  ghost predicate FounderOk(s: Db, o: nat, m: Membership) {
    && o < s.next && m.id < s.next && m.org == o && m.role == Owner
    && (o, m.user) in s.members && s.members[(o, m.user)] == m
  }

  ghost predicate OfferOk(fs: Founders, i: Invitation) {
    i.role != Owner && AllSupported(i.role, i.scopes) && i.org in fs && !(i.accepted.Some? && i.revoked.Some?)
  }

  ghost predicate InvitationOk(fs: Founders, next: nat, id: nat, i: Invitation) {
    id < next && i.id == id && OfferOk(fs, i)
  }

  ghost predicate FlightOk(fs: Founders, next: nat, f: Flight) {
    match f
    case Adding(org, role, scopes, _) => org in fs && role != Owner && AllSupported(role, scopes)
    case UpdateRead(_, _, role, scopes) => role != Owner && AllSupported(role, scopes)
    case Updating(m, _, _) => m.role != Owner && m.org in fs && AllSupported(m.role, m.scopes) && Mortal(fs, next, m.id)
    case Removing(m, _) => Mortal(fs, next, m.row.id)
    case Inviting(org, role, scopes, _) => org in fs && role != Owner && AllSupported(role, scopes)
    case AcceptRead(i, _, _) => OfferOk(fs, i)
    case Joining(i, _, _) => OfferOk(fs, i)
    case _ => true
  }

  ghost predicate OneIdPerRow(members: map<(nat, nat), Membership>) {
    forall k, l :: k in members && l in members && members[k].id == members[l].id ==> k == l
  }

  ghost predicate DbInv(s: Db) {
    && (forall k :: k in s.members ==> RowOk(s.founders, s.next, k, s.members[k]))
    && (forall o :: o in s.founders ==> FounderOk(s, o, s.founders[o]))
    && (forall i :: i in s.invitations ==> InvitationOk(s.founders, s.next, i, s.invitations[i]))
    && OneIdPerRow(s.members)
  }

  ghost predicate Inv(s: State) {
    && DbInv(s.db)
    && forall r :: r in s.flights ==> FlightOk(s.db.founders, s.db.next, s.flights[r])
  }

  /** What steps may do to the past: nothing. New founders get new numbers. */
  ghost predicate Grows(fs: Founders, next: nat, fs': Founders, next': nat) {
    && next <= next'
    && (forall o :: o in fs ==> o in fs' && fs'[o] == fs[o])
    && (forall o :: o in fs' && o !in fs ==> fs'[o].id >= next)
  }

  lemma GrowKeeps(s: Db, fs: Founders, next: nat)
    requires DbInv(s) && Grows(s.founders, s.next, fs, next)
    ensures forall k :: k in s.members ==> RowOk(fs, next, k, s.members[k])
    ensures forall i :: i in s.invitations ==> InvitationOk(fs, next, i, s.invitations[i])
  {
  }

  lemma FlightGrows(s: Db, f: Flight, fs: Founders, next: nat)
    requires FlightOk(s.founders, s.next, f) && Grows(s.founders, s.next, fs, next)
    ensures FlightOk(fs, next, f)
  {
  }

  lemma NewNumbers(s: Db)
    requires DbInv(s)
    ensures forall k: (nat, nat) :: k in s.members ==> s.members[k].id < s.next && k.0 < s.next
    ensures forall o :: o in s.founders ==> s.founders[o].id < s.next && o < s.next
    ensures s.next !in s.invitations
  {
  }

  /** Rows change at one key only, and not to or from a founder's. */
  lemma RowChangeKeeps(s: Db, t: Db, k: (nat, nat))
    requires DbInv(s) && t.founders == s.founders && s.next <= t.next
    requires k !in s.members || s.members[k].role != Owner
    requires forall l :: l != k ==> (l in s.members <==> l in t.members)
    requires forall l :: l != k && l in s.members ==> t.members[l] == s.members[l]
    requires k in t.members ==> RowOk(s.founders, t.next, k, t.members[k])
    requires k in t.members ==> forall l :: l in s.members && l != k ==> s.members[l].id != t.members[k].id
    ensures forall l :: l in t.members ==> RowOk(t.founders, t.next, l, t.members[l])
    ensures forall o :: o in t.founders ==> FounderOk(t, o, t.founders[o])
    ensures OneIdPerRow(t.members)
  {
    GrowKeeps(s, t.founders, t.next);
    forall o | o in t.founders ensures FounderOk(t, o, t.founders[o]) {
      assert FounderOk(s, o, s.founders[o]);
    }
  }

  lemma CreateKeeps(s: Db, actor: nat)
    requires DbInv(s)
    ensures DbInv(DoCreate(s, actor)) && Grows(s.founders, s.next, DoCreate(s, actor).founders, DoCreate(s, actor).next)
  {
    var t := DoCreate(s, actor);
    NewNumbers(s);
    GrowKeeps(s, t.founders, t.next);
    assert RowOk(t.founders, t.next, (s.next, actor), t.members[(s.next, actor)]);
    assert OneIdPerRow(t.members);
    forall o | o in t.founders ensures FounderOk(t, o, t.founders[o]) {
      if o != s.next { assert FounderOk(s, o, s.founders[o]); }
    }
  }

  lemma AddKeeps(s: Db, f: Flight, user: nat)
    requires DbInv(s) && f.Adding? && FlightOk(s.founders, s.next, f)
    ensures DbInv(DoAdd(s, f.org, f.role, f.scopes, user))
  {
    var t := DoAdd(s, f.org, f.role, f.scopes, user);
    NewNumbers(s);
    GrowKeeps(s, t.founders, t.next);
    if t != s { RowChangeKeeps(s, t, (f.org, user)); }
  }

  /** A row that still carries an identifier no founder has is no founder's. */
  lemma MortalRow(s: Db, m: Membership)
    requires DbInv(s) && Mortal(s.founders, s.next, m.id) && StillThere(s, m)
    ensures s.members[(m.org, m.user)].role != Owner
  {
  }

  lemma UpdateKeeps(s: Db, m: Membership)
    requires DbInv(s) && m.role != Owner && m.org in s.founders && AllSupported(m.role, m.scopes)
             && Mortal(s.founders, s.next, m.id)
    ensures DbInv(DoUpdate(s, m))
  {
    if StillThere(s, m) {
      MortalRow(s, m);
      RowChangeKeeps(s, DoUpdate(s, m), (m.org, m.user));
    }
  }

  lemma RemoveKeeps(s: Db, m: Membership)
    requires DbInv(s) && Mortal(s.founders, s.next, m.id)
    ensures DbInv(DoRemove(s, m))
  {
  }

  lemma InviteKeeps(s: Db, f: Flight, expires: int)
    requires DbInv(s) && f.Inviting? && FlightOk(s.founders, s.next, f)
    ensures DbInv(DoInvite(s, f.org, f.role, f.scopes, expires))
  {
  }

  /** Invitations change at one number only. */
  lemma OfferChangeKeeps(s: Db, t: Db, id: nat)
    requires DbInv(s) && t.founders == s.founders && s.next <= t.next
    requires id in t.invitations && t.invitations == s.invitations[id := t.invitations[id]]
    requires InvitationOk(t.founders, t.next, id, t.invitations[id])
    ensures forall i :: i in t.invitations ==> InvitationOk(t.founders, t.next, i, t.invitations[i])
  {
  }

  lemma AcceptKeeps(s: Db, i: Invitation, user: nat, now: int)
    requires DbInv(s) && OfferOk(s.founders, i)
    ensures DbInv(DoAccept(s, i, user, now))
  {
    var t := DoAccept(s, i, user, now);
    if t != s {
      NewNumbers(s);
      RowChangeKeeps(s, t, (i.org, user));
      OfferChangeKeeps(s, t, i.id);
    }
  }

  lemma RevokeKeeps(s: Db, org: nat, id: nat, now: int)
    requires DbInv(s)
    ensures DbInv(DoRevoke(s, org, id, now))
  {
  }

  lemma DeliverKeeps(s: Db, org: nat, id: nat, delivery: Delivery)
    requires DbInv(s)
    ensures DbInv(DoDeliver(s, org, id, delivery))
  {
  }

  lemma WrittenKeeps(s: Db, e: Event, f: Flight)
    requires DbInv(s) && Fits(e, f) && FlightOk(s.founders, s.next, f)
    ensures DbInv(Written(s, e, f))
  {
    if e.WriteAdd? { if e.found.Some? { AddKeeps(s, f, e.found.value); } }
    else if e.WriteUpdate? { UpdateKeeps(s, f.updated); }
    else if e.WriteRemove? { RemoveKeeps(s, f.target.row); }
    else if e.WriteInvite? { InviteKeeps(s, f, e.expires); }
    else if e.WriteDelivery? { DeliverKeeps(s, f.org, f.invitation, e.delivery); }
    else if e.WriteAccept? { AcceptKeeps(s, f.offer, f.user, f.now); }
    else if e.WriteRevoke? { RevokeKeeps(s, f.org, f.invitation, e.now); }
  }

  lemma WrittenFrame(s: Db, e: Event, f: Flight)
    requires Fits(e, f)
    ensures Written(s, e, f).founders == s.founders && Written(s, e, f).next >= s.next
  {
  }

  lemma BeginOk(s: Db, e: Event)
    requires DbInv(s) && Begin(s, e).Some?
    ensures FlightOk(s.founders, s.next, Begin(s, e).value)
  {
    if e.BeginAdd? || e.BeginUpdate? {
      assert RowOk(s.founders, s.next, (e.org, e.actor), s.members[(e.org, e.actor)]);
    } else if e.BeginAccept? {
      assert InvitationOk(s.founders, s.next, e.invitation, s.invitations[e.invitation]);
    }
  }

  lemma AheadOk(s: Db, e: Event, f: Flight)
    requires DbInv(s) && Fits(e, f) && FlightOk(s.founders, s.next, f) && Ahead(s, e, f).Some?
    ensures FlightOk(s.founders, s.next, Ahead(s, e, f).value)
  {
    if e.ReadUpdateTarget? {
      assert RowOk(s.founders, s.next, (f.manager.row.org, f.user), s.members[(f.manager.row.org, f.user)]);
    } else if e.ReadRemoveTarget? {
      assert RowOk(s.founders, s.next, (f.org, f.user), s.members[(f.org, f.user)]);
    }
  }

  /** Requests in flight stay sound while the tables grow and one moves on. */
  lemma FlightsKeep(s: State, db: Db, r: nat, f: Option<Flight>)
    requires Inv(s) && DbInv(db) && Grows(s.db.founders, s.db.next, db.founders, db.next)
    requires f.Some? ==> FlightOk(s.db.founders, s.db.next, f.value)
    ensures Inv(State(db, Onward(s.flights, r, f)))
  {
    var flights := Onward(s.flights, r, f);
    forall q | q in flights ensures FlightOk(db.founders, db.next, flights[q]) {
      assert FlightOk(s.db.founders, s.db.next, flights[q]);
      FlightGrows(s.db, flights[q], db.founders, db.next);
    }
  }

  lemma StepKeeps(s: State, e: Event)
    requires Inv(s)
    ensures Inv(Step(s, e)) && Grows(s.db.founders, s.db.next, Step(s, e).db.founders, Step(s, e).db.next)
  {
    if e.Create? {
      CreateKeeps(s.db, e.actor);
      var db := DoCreate(s.db, e.actor);
      forall q | q in s.flights ensures FlightOk(db.founders, db.next, s.flights[q]) {
        FlightGrows(s.db, s.flights[q], db.founders, db.next);
      }
    } else if e.r !in s.flights {
      if Begin(s.db, e).Some? { BeginOk(s.db, e); }
      FlightsKeep(s, s.db, e.r, Begin(s.db, e));
    } else if Fits(e, s.flights[e.r]) {
      var f := s.flights[e.r];
      WrittenKeeps(s.db, e, f);
      WrittenFrame(s.db, e, f);
      if Ahead(s.db, e, f).Some? { AheadOk(s.db, e, f); }
      FlightsKeep(s, Written(s.db, e, f), e.r, Ahead(s.db, e, f));
    }
  }

  lemma {:induction false} RunKeeps(s: State, es: seq<Event>)
    requires Inv(s)
    ensures Inv(Run(s, es)) && Grows(s.db.founders, s.db.next, Run(s, es).db.founders, Run(s, es).db.next)
    decreases |es|
  {
    if es != [] {
      StepKeeps(s, es[0]);
      RunKeeps(Step(s, es[0]), es[1..]);
    }
  }

  // ----------------------------------------------------------- main results

  ghost function Owners(s: Db, org: nat): set<Membership> {
    set k | k in s.members && s.members[k].org == org && s.members[k].role == Owner :: s.members[k]
  }

  lemma OneOwner(s: Db, org: nat)
    requires DbInv(s) && org in s.founders
    ensures Owners(s, org) == {s.founders[org]}
  {
  }

  /** In every interleaving each organization has exactly one owner, and it is
      the membership its creator was given. */
  lemma ExactlyOneOwner(es: seq<Event>, org: nat)
    requires org in Run(EMPTY, es).db.founders
    ensures Owners(Run(EMPTY, es).db, org) == {Run(EMPTY, es).db.founders[org]}
  {
    RunKeeps(EMPTY, es);
    OneOwner(Run(EMPTY, es).db, org);
  }

  lemma {:induction false} RunAppend(s: State, a: seq<Event>, b: seq<Event>)
    ensures Run(s, a + b) == Run(Run(s, a), b)
    decreases |a|
  {
    if a == [] {
      assert a + b == b;
    } else {
      assert (a + b)[1..] == a[1..] + b;
      RunAppend(Step(s, a[0]), a[1..], b);
    }
  }

  /** Whatever happens later, the owner's membership row stays the very row that
      creation wrote: same identifier, same user, same role, same scopes. */
  lemma OwnerNeverChanges(past: seq<Event>, later: seq<Event>, org: nat)
    requires org in Run(EMPTY, past).db.founders
    ensures var before, after := Run(EMPTY, past).db, Run(EMPTY, past + later).db;
            && org in after.founders && after.founders[org] == before.founders[org]
            && Owners(after, org) == Owners(before, org)
  {
    RunKeeps(EMPTY, past);
    RunKeeps(Run(EMPTY, past), later);
    RunAppend(EMPTY, past, later);
    ExactlyOneOwner(past, org);
    ExactlyOneOwner(past + later, org);
  }

  /** In every reachable state the client's check answers like the server's for
      every stored membership and every resource and action. */
  lemma ClientAgreesWhenReachable(es: seq<Event>, k: (nat, nat), wanted: Scope)
    requires k in Run(EMPTY, es).db.members
    ensures var m := Run(EMPTY, es).db.members[k];
            && AllSupported(m.role, m.scopes)
            && (ClientAllows(m, wanted) <==> Allows(m, k.1, k.0, wanted))
  {
    RunKeeps(EMPTY, es);
    assert RowOk(Run(EMPTY, es).db.founders, Run(EMPTY, es).db.next, k, Run(EMPTY, es).db.members[k]);
    ClientAgreesExactly(Run(EMPTY, es).db.members[k]);
  }

  lemma OffersStaySupported(es: seq<Event>, i: nat)
    requires i in Run(EMPTY, es).db.invitations
    ensures var inv := Run(EMPTY, es).db.invitations[i];
            inv.role != Owner && AllSupported(inv.role, inv.scopes)
  {
    RunKeeps(EMPTY, es);
    assert InvitationOk(Run(EMPTY, es).db.founders, Run(EMPTY, es).db.next, i, Run(EMPTY, es).db.invitations[i]);
  }
}
