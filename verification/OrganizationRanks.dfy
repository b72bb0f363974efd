/**
  Authority at the moment of writing. The use cases check roles when they read,
  and their writes do not check again, so what counts is what was committed in
  between. The audit log tells exactly that.
 */
module OrganizationRanks {
  import opened Common
  import opened Roles
  import opened Organizations
  import opened OrganizationUseCases
  import OrganizationEffects

  // ------------------------------------------------------- roles in the log

  /** The role of a user in an organization after one more audit event. */
  function Told(a: Audit, k: (nat, nat), before: Option<Role>): Option<Role> {
    match a
    case Created(org, user) => if (org, user) == k then Some(Owner) else before
    case MemberAdded(org, user, role) => if (org, user) == k then Some(role) else before
    case MemberUpdated(org, user, role) => if (org, user) == k then Some(role) else before
    case MemberRemoved(org, user) => if (org, user) == k then None else before
    case InvitationAccepted(org, user, role, _) => if (org, user) == k then Some(role) else before
    case _ => before
  }

  /** The role that the events from position `from` on leave a user with. */
  function Latest(log: seq<Audit>, from: nat, k: (nat, nat), was: Option<Role>): Option<Role> {
    if |log| <= from then was else Told(log[|log| - 1], k, Latest(log[..|log| - 1], from, k, was))
  }

  lemma LatestGrows(log: seq<Audit>, a: Audit, from: nat, k: (nat, nat), was: Option<Role>)
    requires from <= |log|
    ensures Latest(log + [a], from, k, was) == Told(a, k, Latest(log, from, k, was))
  {
  }

  /** The event is about this user in this organization. */
  predicate Concerns(a: Audit, k: (nat, nat)) { !a.InvitationCreated? && !a.InvitationRevoked? && (a.org, a.user) == k }

  lemma {:induction false} NoNews(log: seq<Audit>, from: nat, k: (nat, nat), was: Option<Role>)
    requires forall i :: from <= i < |log| ==> !Concerns(log[i], k)
    ensures Latest(log, from, k, was) == was
  {
    if |log| > from { NoNews(log[..|log| - 1], from, k, was); }
  }

  function RoleIn(s: Db, k: (nat, nat)): Option<Role> {
    if k in s.members then Some(s.members[k].role) else None
  }

  /** What one call may do to a user's role: leave it, or change it as logged. */
  predicate Follows(s: Db, t: Db, k: (nat, nat)) {
    || (t.log == s.log && RoleIn(t, k) == RoleIn(s, k))
    || (|t.log| == |s.log| + 1 && t.log[..|s.log|] == s.log && RoleIn(t, k) == Told(t.log[|s.log|], k, RoleIn(s, k)))
  }

  lemma WrittenFollows(s: Db, e: Event, f: Flight, k: (nat, nat))
    requires Fits(e, f)
    ensures Follows(s, Written(s, e, f), k)
  {
  }

  lemma StepFollows(s: State, e: Event, k: (nat, nat))
    ensures Follows(s.db, Step(s, e).db, k)
  {
    if !e.Create? && e.r in s.flights && Fits(e, s.flights[e.r]) { WrittenFollows(s.db, e, s.flights[e.r], k); }
  }

  predicate ToldSince(s: Db, from: nat, k: (nat, nat), was: Option<Role>) {
    from <= |s.log| && RoleIn(s, k) == Latest(s.log, from, k, was)
  }

  lemma StepTold(s: State, e: Event, from: nat, k: (nat, nat), was: Option<Role>)
    requires ToldSince(s.db, from, k, was)
    ensures ToldSince(Step(s, e).db, from, k, was)
  {
    var t := Step(s, e);
    StepFollows(s, e, k);
    if t.db.log != s.db.log {
      assert t.db.log == s.db.log + [t.db.log[|s.db.log|]];
      LatestGrows(s.db.log, t.db.log[|s.db.log|], from, k, was);
    }
  }

  lemma {:induction false} RunTold(s: State, es: seq<Event>, from: nat, k: (nat, nat), was: Option<Role>)
    requires ToldSince(s.db, from, k, was)
    ensures ToldSince(Run(s, es).db, from, k, was)
    decreases |es|
  {
    if es != [] {
      StepTold(s, es[0], from, k, was);
      RunTold(Step(s, es[0]), es[1..], from, k, was);
    }
  }

  /** In every interleaving the audit log tells who has which role: replaying it
      gives, for every user and organization, the stored role or none. */
  lemma RolesAreTheLog(es: seq<Event>, k: (nat, nat))
    ensures RoleIn(Run(EMPTY, es).db, k) == Latest(Run(EMPTY, es).db.log, 0, k, None)
  {
    RunTold(EMPTY, es, 0, k, None);
  }

  // ---------------------------------------------------- what requests know

  function Key(m: Sight): (nat, nat) { (m.row.org, m.row.user) }

  /** The role of a membership read earlier is what the log since then says. */
  predicate Knows(s: Db, m: Sight) { ToldSince(s, m.at, Key(m), Some(m.row.role)) }

  /** An owner who was read is the founder of the organization. */
  predicate KnowsOwner(s: Db, m: Sight) {
    m.row.role == Owner ==> m.row.org in s.founders && s.founders[m.row.org] == m.row
  }

  predicate KnowsManager(s: Db, m: Sight) { Knows(s, m) && KnowsOwner(s, m) }

  predicate FlightKnows(s: Db, f: Flight) {
    match f
    case Adding(_, _, _, m) => KnowsManager(s, m)
    case UpdateRead(m, _, _, _) => KnowsManager(s, m)
    case Updating(u, t, m) => KnowsManager(s, m) && Knows(s, t) && (u.org, u.user) == Key(t) && u.id == t.row.id
    case RemoveRead(a, at, _, _) => a.Some? ==> KnowsManager(s, Sight(a.value, at))
    case Removing(t, m) => KnowsManager(s, m) && Knows(s, t)
    case Inviting(_, _, _, m) => KnowsManager(s, m)
    case RevokeRead(a, at, _, _) => a.Some? ==> KnowsManager(s, Sight(a.value, at))
    case Revoking(_, i, role, m) => KnowsManager(s, m) && i in s.invitations && s.invitations[i].role == role
    case _ => true
  }

  /** The request is about to make the write its checks were for. */
  predicate AtWrite(f: Flight) { f.Adding? || f.Updating? || f.Removing? || f.Inviting? || f.Revoking? }

  predicate Entitled(actor: Option<Role>, role: Option<Role>) {
    actor.Some? && role.Some? && CanManage(actor.value) && MayAssign(actor.value, role.value)
  }

  /** What the use case checks before this write, for an actor with one role and,
      for an update or removal, a target with another. */
  predicate Passes(f: Flight, actor: Option<Role>, target: Option<Role>)
    requires AtWrite(f)
  {
    match f
    case Updating(u, _, _) => Entitled(actor, Some(u.role)) && Entitled(actor, target)
    case Removing(_, _) => Entitled(actor, target)
    case _ => Entitled(actor, Some(f.role))
  }

  predicate Replaces(f: Flight) { f.Updating? || f.Removing? }

  /** The checks passed when they were made. */
  predicate PassedOnce(f: Flight)
    requires AtWrite(f)
  {
    Passes(f, Some(f.manager.row.role), if Replaces(f) then Some(f.target.row.role) else None)
  }

  ghost predicate FlightInformed(s: Db, f: Flight) {
    && FlightKnows(s, f) && (AtWrite(f) ==> PassedOnce(f))
    && (f.UpdateRead? ==> Entitled(Some(f.manager.row.role), Some(f.role)))
  }

  ghost predicate Informed(s: State) { Inv(s) && forall r :: r in s.flights ==> FlightInformed(s.db, s.flights[r]) }

  lemma SightKnows(s: Db, org: nat, user: nat)
    requires DbInv(s) && (org, user) in s.members
    ensures KnowsManager(s, Sight(s.members[(org, user)], |s.log|))
  {
  }

  lemma StepKnows(s: State, e: Event, m: Sight)
    requires Inv(s) && Knows(s.db, m)
    ensures Knows(Step(s, e).db, m) && (KnowsOwner(s.db, m) ==> KnowsOwner(Step(s, e).db, m))
  {
    StepKeeps(s, e);
    StepTold(s, e, m.at, Key(m), Some(m.row.role));
  }

  lemma FlightStaysInformed(s: State, e: Event, f: Flight)
    requires Inv(s) && FlightInformed(s.db, f)
    ensures FlightInformed(Step(s, e).db, f)
  {
    if AtWrite(f) || f.UpdateRead? { StepKnows(s, e, f.manager); }
    if Replaces(f) { StepKnows(s, e, f.target); }
    if (f.RemoveRead? || f.RevokeRead?) && f.actor.Some? { StepKnows(s, e, Sight(f.actor.value, f.at)); }
    if f.Revoking? { OrganizationEffects.StepKeepsOffers(s, e); }
  }

  lemma BeginInforms(s: Db, e: Event)
    requires DbInv(s) && Begin(s, e).Some?
    ensures FlightInformed(s, Begin(s, e).value)
  {
    if !e.BeginAccept? && Get(s, e.org, e.actor).Some? { SightKnows(s, e.org, e.actor); }
  }

  lemma AheadInforms(s: Db, e: Event, f: Flight)
    requires DbInv(s) && Fits(e, f) && FlightInformed(s, f) && Ahead(s, e, f).Some?
    ensures FlightInformed(s, Ahead(s, e, f).value)
  {
    if e.ReadUpdateTarget? { UpdateInforms(s, e, f); }
    else if e.ReadRemoveTarget? { SightKnows(s, f.org, f.user); }
  }

  lemma UpdateInforms(s: Db, e: Event, f: Flight)
    requires DbInv(s) && e.ReadUpdateTarget? && f.UpdateRead? && FlightInformed(s, f) && Ahead(s, e, f).Some?
    ensures FlightInformed(s, Ahead(s, e, f).value)
  {
    SightKnows(s, f.manager.row.org, f.user);
  }

  lemma OneFlightInformed(s: State, e: Event, r: nat)
    requires Informed(s) && r in Step(s, e).flights
    ensures FlightInformed(Step(s, e).db, Step(s, e).flights[r])
  {
    if e.Create? || r != e.r {
      FlightStaysInformed(s, e, s.flights[r]);
    } else if e.r !in s.flights {
      BeginInforms(s.db, e);
    } else if Fits(e, s.flights[e.r]) {
      AheadInforms(s.db, e, s.flights[r]);
      FlightStaysInformed(s, e, Step(s, e).flights[r]);
    }
  }

  lemma StepInforms(s: State, e: Event)
    requires Informed(s)
    ensures Informed(Step(s, e))
  {
    StepKeeps(s, e);
    forall r | r in Step(s, e).flights ensures FlightInformed(Step(s, e).db, Step(s, e).flights[r]) {
      OneFlightInformed(s, e, r);
    }
  }

  lemma {:induction false} RunInforms(s: State, es: seq<Event>)
    requires Informed(s)
    ensures Informed(Run(s, es))
    decreases |es|
  {
    if es != [] {
      StepInforms(s, es[0]);
      RunInforms(Step(s, es[0]), es[1..]);
    }
  }

  // ------------------------------------------------------------ main results

  /** The checks of the use case would pass if they were made again now. */
  predicate Authorized(s: Db, f: Flight)
    requires AtWrite(f)
  {
    Passes(f, RoleIn(s, Key(f.manager)), if Replaces(f) then RoleIn(s, Key(f.target)) else None)
  }

  /** The role the log leaves a membership with since it was read. */
  function Since(log: seq<Audit>, m: Sight): Option<Role> { Latest(log, m.at, Key(m), Some(m.row.role)) }

  /** In every interleaving, for every request about to write: its checks would
      pass again, its actor being a member who may manage, may give the role and
      outranks whom the write replaces, if and only if they pass on the roles
      that the events committed since its own reads leave actor and target. */
  lemma AuthorizedExactly(past: seq<Event>, r: nat)
    requires r in Run(EMPTY, past).flights && AtWrite(Run(EMPTY, past).flights[r])
    ensures var s := Run(EMPTY, past);
            var f := s.flights[r];
            && (Authorized(s.db, f) <==>
                  Passes(f, Since(s.db.log, f.manager), if Replaces(f) then Since(s.db.log, f.target) else None))
            && (f.Revoking? ==> f.invitation in s.db.invitations && s.db.invitations[f.invitation].role == f.role)
  {
    RunInforms(EMPTY, past);
    assert FlightInformed(Run(EMPTY, past).db, Run(EMPTY, past).flights[r]);
  }

  /** The membership a committed update or removal is about to replace. */
  function Replaced(s: State, e: Event): Option<Membership> {
    if e.WriteUpdate? && e.r in s.flights && s.flights[e.r].Updating? && !e.refused
       && StillThere(s.db, s.flights[e.r].updated)
    then Get(s.db, s.flights[e.r].updated.org, s.flights[e.r].updated.user)
    else if e.WriteRemove? && e.r in s.flights && s.flights[e.r].Removing? && !e.refused
            && StillThere(s.db, s.flights[e.r].target.row)
    then Get(s.db, s.flights[e.r].target.row.org, s.flights[e.r].target.row.user)
    else None
  }

  /** In every interleaving, when an update or removal replaces a membership, its
      actor is a member who outranks it if and only if no event committed since
      the actor was read left them without a membership and the role last given
      to them outranks the role last given to the target since that was read. */
  lemma OutranksExactly(past: seq<Event>, e: Event)
    requires Replaced(Run(EMPTY, past), e).Some?
    ensures var s := Run(EMPTY, past);
            var f, m := s.flights[e.r], Replaced(s, e).value;
            var actor := Get(s.db, f.manager.row.org, f.manager.row.user);
            var now, target := Since(s.db.log, f.manager), Since(s.db.log, f.target);
            && target == Some(m.role)
            && (actor.Some? && MayAssign(actor.value.role, m.role) <==> now.Some? && MayAssign(now.value, target.value))
  {
    RunInforms(EMPTY, past);
    assert FlightInformed(Run(EMPTY, past).db, Run(EMPTY, past).flights[e.r]);
  }

  ghost predicate Untouched(log: seq<Audit>, m: Sight) {
    forall i :: m.at <= i < |log| ==> !Concerns(log[i], Key(m))
  }

  /** A request keeps its authority while nothing is committed to the membership
      of its actor, nor to that of its target, after it read them. */
  lemma UndisturbedIsAuthorized(past: seq<Event>, r: nat)
    requires r in Run(EMPTY, past).flights && AtWrite(Run(EMPTY, past).flights[r])
    requires var s := Run(EMPTY, past);
             var f := s.flights[r];
             Untouched(s.db.log, f.manager) && (Replaces(f) ==> Untouched(s.db.log, f.target))
    ensures Authorized(Run(EMPTY, past).db, Run(EMPTY, past).flights[r])
  {
    var s := Run(EMPTY, past);
    var f := s.flights[r];
    AuthorizedExactly(past, r);
    RunInforms(EMPTY, past);
    assert FlightInformed(s.db, f);
    NoNews(s.db.log, f.manager.at, Key(f.manager), Some(f.manager.row.role));
    if Replaces(f) { NoNews(s.db.log, f.target.at, Key(f.target), Some(f.target.row.role)); }
  }

  /** Every write of an owner that finds its target still there is authorized,
      whatever was committed since the reads: only an admin can lose authority. */
  lemma OwnersStayAuthorized(past: seq<Event>, r: nat)
    requires r in Run(EMPTY, past).flights && AtWrite(Run(EMPTY, past).flights[r])
    requires Run(EMPTY, past).flights[r].manager.row.role == Owner
    requires var s := Run(EMPTY, past);
             Replaces(s.flights[r]) ==> StillThere(s.db, s.flights[r].target.row)
    ensures Authorized(Run(EMPTY, past).db, Run(EMPTY, past).flights[r])
  {
    var s := Run(EMPTY, past);
    var f := s.flights[r];
    RunInforms(EMPTY, past);
    assert FlightInformed(s.db, f);
    OwnerWritesWell(s.db, f);
  }

  lemma OwnerWritesWell(s: Db, f: Flight)
    requires DbInv(s) && FlightOk(s.founders, s.next, f) && AtWrite(f) && FlightInformed(s, f)
    requires f.manager.row.role == Owner && (Replaces(f) ==> StillThere(s, f.target.row))
    ensures Authorized(s, f)
  {
  }

  // --------------------------------------------------------- when it is not

  const OWNER_ROW := Membership(1, 0, 0, Owner, {})
  const ADMIN_ROW := Membership(2, 1, 0, Admin, {})
  const OTHER_ROW := Membership(3, 2, 0, Moderator, {})

  /** An organization with an owner, an admin and a moderator. */
  const STAFF := Db(map[0 := OWNER_ROW], map[(0, 0) := OWNER_ROW, (0, 1) := ADMIN_ROW, (0, 2) := OTHER_ROW], map[], 4,
                    [Created(0, 0), MemberAdded(0, 1, Admin), MemberAdded(0, 2, Moderator)])

  function Hiring(): seq<Event> {
    [Create(0, true, false)]
    + [BeginAdd(0, 0, 0, Admin, {}), WriteAdd(0, Some(1), false)]
    + [BeginAdd(0, 0, 0, Moderator, {}), WriteAdd(0, Some(2), false)]
  }

  /** The admin sets out to make the moderator a viewer; before that write the
      owner gives one of the two another role. */
  function Overtaking(user: nat, role: Role): seq<Event> {
    [BeginUpdate(1, 1, 0, 2, Viewer, {}), ReadUpdateTarget(1),
     BeginUpdate(0, 0, 0, user, role, {}), ReadUpdateTarget(0), WriteUpdate(0, false)]
  }

  lemma HiringRun()
    ensures Run(EMPTY, Hiring()) == Alone(STAFF)
  {
    var one := DoCreate(NO_ROWS, 0);
    var two := DoAdd(one, 0, Admin, {}, 1);
    var a, b, c := [Create(0, true, false)], [BeginAdd(0, 0, 0, Admin, {}), WriteAdd(0, Some(1), false)],
                   [BeginAdd(0, 0, 0, Moderator, {}), WriteAdd(0, Some(2), false)];
    OneStep(EMPTY, Create(0, true, false));
    AddAlone(one, 0, 0, Admin, {}, Some(1), false);
    AddAlone(two, 0, 0, Moderator, {}, Some(2), false);
    RunAppend(EMPTY, a + b, c);
    RunAppend(EMPTY, a, b);
    assert two.members == map[(0, 0) := OWNER_ROW, (0, 1) := ADMIN_ROW];
    assert DoAdd(two, 0, Moderator, {}, 2).members == STAFF.members;
    assert DoAdd(two, 0, Moderator, {}, 2).log == STAFF.log;
  }

  const DEMOTING := Updating(OTHER_ROW.(role := Viewer), Sight(OTHER_ROW, 3), Sight(ADMIN_ROW, 3))

  function Overtaken(user: nat, role: Role, n: nat): State
    requires n <= 5 && (user == 1 || user == 2)
  {
    var row := if user == 1 then ADMIN_ROW else OTHER_ROW;
    var changed := row.(role := role);
    if n == 0 then Alone(STAFF)
    else if n == 1 then State(STAFF, map[1 := UpdateRead(Sight(ADMIN_ROW, 3), 2, Viewer, {})])
    else if n == 2 then State(STAFF, map[1 := DEMOTING])
    else if n == 3 then State(STAFF, map[1 := DEMOTING, 0 := UpdateRead(Sight(OWNER_ROW, 3), user, role, {})])
    else if n == 4 then State(STAFF, map[1 := DEMOTING, 0 := Updating(changed, Sight(row, 3), Sight(OWNER_ROW, 3))])
    else State(STAFF.(members := STAFF.members[(0, user) := changed],
                      log := STAFF.log + [MemberUpdated(0, user, role)]),
               map[1 := DEMOTING])
  }

  lemma OvertakenStep(user: nat, role: Role, n: nat)
    requires n < 5 && (user == 1 || user == 2) && role != Owner
    ensures Step(Overtaken(user, role, n), Overtaking(user, role)[n]) == Overtaken(user, role, n + 1)
  {
    if n < 2 { AdminReads(user, role, n); }
    else if n < 4 { OwnerReads(user, role, n); }
    else { OwnerWrites(user, role); }
  }

  lemma AdminReads(user: nat, role: Role, n: nat)
    requires n < 2 && (user == 1 || user == 2)
    ensures Step(Overtaken(user, role, n), Overtaking(user, role)[n]) == Overtaken(user, role, n + 1)
  {
  }

  lemma OwnerReads(user: nat, role: Role, n: nat)
    requires 2 <= n < 4 && (user == 1 || user == 2) && role != Owner
    ensures Step(Overtaken(user, role, n), Overtaking(user, role)[n]) == Overtaken(user, role, n + 1)
  {
  }

  lemma OwnerWrites(user: nat, role: Role)
    requires (user == 1 || user == 2) && role != Owner
    ensures Step(Overtaken(user, role, 4), WriteUpdate(0, false)) == Overtaken(user, role, 5)
  {
  }

  lemma {:induction false} OvertakenRun(user: nat, role: Role, n: nat)
    requires n <= 5 && (user == 1 || user == 2) && role != Owner
    ensures Run(Alone(STAFF), Overtaking(user, role)[..n]) == Overtaken(user, role, n)
  {
    if n > 0 {
      var es := Overtaking(user, role);
      OvertakenRun(user, role, n - 1);
      OvertakenStep(user, role, n - 1);
      assert es[..n] == es[..n - 1] + [es[n - 1]];
      RunAppend(Alone(STAFF), es[..n - 1], [es[n - 1]]);
      OneStep(Overtaken(user, role, n - 1), es[n - 1]);
    }
  }

  lemma OvertakenFromEmpty(user: nat, role: Role)
    requires (user == 1 || user == 2) && role != Owner
    ensures Run(EMPTY, Hiring() + Overtaking(user, role)) == Overtaken(user, role, 5)
  {
    HiringRun();
    RunAppend(EMPTY, Hiring(), Overtaking(user, role));
    OvertakenRun(user, role, 5);
    assert Overtaking(user, role)[..5] == Overtaking(user, role);
  }

  /** An interleaving in which an admin's update replaces the row of a member
      who is an admin by then. */
  lemma AdminDemotesPeer()
    ensures var s := Run(EMPTY, Hiring() + Overtaking(2, Admin));
            var m := Replaced(s, WriteUpdate(1, false));
            && m.Some? && m.value.role == Admin && RoleIn(s.db, Key(s.flights[1].manager)) == Some(Admin)
            && !Authorized(s.db, s.flights[1])
  {
    OvertakenFromEmpty(2, Admin);
  }

  /** An interleaving in which the update of an actor who is a viewer by then
      replaces the row of a moderator. */
  lemma ViewerDemotesModerator()
    ensures var s := Run(EMPTY, Hiring() + Overtaking(1, Viewer));
            var m := Replaced(s, WriteUpdate(1, false));
            && m.Some? && m.value.role == Moderator && RoleIn(s.db, Key(s.flights[1].manager)) == Some(Viewer)
            && !Authorized(s.db, s.flights[1])
  {
    OvertakenFromEmpty(1, Viewer);
  }
}
