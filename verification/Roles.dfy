/**
  Roles, scopes and the two authorization checks: the server's, which consults
  the role matrix, and the browser client's, which does not.
 */
module Roles {

  datatype Role = Owner | Admin | Moderator | Analyst | Viewer

  datatype Resource = ControlModules | PlatformConnections | AuditEvents | OrganizationMembers

  datatype Action = Read | Manage

  /** A grant; its persistence identifier plays no part in any decision. */
  datatype Scope = Scope(resource: Resource, action: Action)

  datatype Membership = Membership(id: nat, user: nat, org: nat, role: Role, scopes: set<Scope>)

  function Rank(r: Role): nat {
    match r case Owner => 0 case Admin => 1 case Moderator => 2 case Analyst => 3 case Viewer => 4
  }

  predicate MayAssign(actor: Role, target: Role) { Rank(actor) < Rank(target) }

  predicate CanManage(r: Role) { r == Owner || r == Admin }

  /** `_role_supports_pair` */
  predicate Supports(r: Role, s: Scope) {
    match s.resource
    case OrganizationMembers => r == Owner || r == Admin
    case ControlModules => s.action == Read
    case PlatformConnections => r == Admin && (s.action == Read || s.action == Manage)
    case AuditEvents => (r == Admin || r == Analyst) && s.action == Read
  }

  predicate AllSupported(r: Role, scopes: set<Scope>) { forall s :: s in scopes ==> Supports(r, s) }

  /** `OrganizationMembership.allows` */
  predicate Allows(m: Membership, actor: nat, org: nat, wanted: Scope) {
    && actor == m.user && org == m.org
    && (m.role == Owner || (Supports(m.role, wanted) && exists s :: s in m.scopes && s == wanted))
  }

  /** `membershipAllows` of the web client */
  predicate ClientAllows(m: Membership, wanted: Scope) {
    m.role == Owner || exists s :: s in m.scopes && s.resource == wanted.resource && s.action == wanted.action
  }

  /** `roleSupportsMemberScope` of the web client */
  predicate ClientSupports(r: Role, s: Scope) {
    if s.resource == OrganizationMembers then r == Owner || r == Admin
    else if s.resource == ControlModules then s.action == Read
    else if s.resource == PlatformConnections then r == Admin && (s.action == Read || s.action == Manage)
    else if s.resource == AuditEvents then (r == Admin || r == Analyst) && s.action == Read
    else false
  }

  /** `supportedMemberScopesForRole` */
  function ClientFilter(r: Role, scopes: seq<Scope>): seq<Scope> {
    if scopes == [] then []
    else (if ClientSupports(r, scopes[0]) then [scopes[0]] else []) + ClientFilter(r, scopes[1..])
  }

  // ------------------------------------------------------ the tables in full

  /** The roles below a role. */
  function Below(r: Role): set<Role> {
    match r
    case Owner => {Admin, Moderator, Analyst, Viewer}
    case Admin => {Moderator, Analyst, Viewer}
    case Moderator => {Analyst, Viewer}
    case Analyst => {Viewer}
    case Viewer => {}
  }

  /** The roles that a member of a role may give, change and take away. */
  function Manageable(r: Role): set<Role> { if r in {Owner, Admin} then Below(r) else {} }

  /** The scopes that a role can ever use. */
  function Grants(r: Role): set<Scope> {
    match r
    case Owner => {Scope(ControlModules, Read), Scope(OrganizationMembers, Read), Scope(OrganizationMembers, Manage)}
    case Admin =>
      {Scope(ControlModules, Read), Scope(OrganizationMembers, Read), Scope(OrganizationMembers, Manage),
       Scope(PlatformConnections, Read), Scope(PlatformConnections, Manage), Scope(AuditEvents, Read)}
    case Analyst => {Scope(ControlModules, Read), Scope(AuditEvents, Read)}
    case Moderator => {Scope(ControlModules, Read)}
    case Viewer => {Scope(ControlModules, Read)}
  }

  /** Who manages whom. */
  lemma RanksExactly(actor: Role, target: Role)
    ensures MayAssign(actor, target) <==> target in Below(actor)
    ensures CanManage(actor) && MayAssign(actor, target) <==> target in Manageable(actor)
  {
  }

  lemma PairExactly(r: Role, s: Scope)
    ensures Supports(r, s) <==> s in Grants(r)
  {
    assert s == Scope(s.resource, s.action);
    match s.resource
    case ControlModules => match s.action { case Read => case Manage => }
    case PlatformConnections => match s.action { case Read => case Manage => }
    case AuditEvents => match s.action { case Read => case Manage => }
    case OrganizationMembers => match s.action { case Read => case Manage => }
  }

  lemma SupportedExactly(r: Role, scopes: set<Scope>)
    ensures AllSupported(r, scopes) <==> scopes <= Grants(r)
  {
    forall s ensures Supports(r, s) <==> s in Grants(r) { PairExactly(r, s); }
  }

  /** A member may do, in their own organization and nowhere else, everything if
      they own it, and otherwise what they were granted and their role can use. */
  lemma CapabilitiesExactly(m: Membership, actor: nat, org: nat, wanted: Scope)
    ensures Allows(m, actor, org, wanted) <==>
            actor == m.user && org == m.org && (m.role == Owner || wanted in m.scopes * Grants(m.role))
  {
    PairExactly(m.role, wanted);
  }

  function AsSet(scopes: seq<Scope>): set<Scope> { set s | s in scopes }

  /** What the client offers for a role is accepted by the server's matrix, and
      nothing the matrix would accept is withheld. */
  lemma {:induction false} ClientOffersWhatServerAccepts(r: Role, scopes: seq<Scope>)
    ensures AllSupported(r, AsSet(ClientFilter(r, scopes)))
    ensures forall s :: s in scopes && Supports(r, s) ==> s in ClientFilter(r, scopes)
    ensures ClientFilter(r, scopes) == scopes <==> AllSupported(r, AsSet(scopes))
  {
    if scopes != [] {
      ClientOffersWhatServerAccepts(r, scopes[1..]);
      FilterShrinks(r, scopes[1..]);
      assert scopes == [scopes[0]] + scopes[1..];
      assert forall s :: s in AsSet(scopes) <==> s == scopes[0] || s in AsSet(scopes[1..]);
      if ClientFilter(r, scopes) == scopes {
        assert ClientSupports(r, scopes[0]);
        assert ClientFilter(r, scopes)[1..] == ClientFilter(r, scopes[1..]);
      }
      if AllSupported(r, AsSet(scopes)) {
        assert scopes[0] in AsSet(scopes);
        assert AllSupported(r, AsSet(scopes[1..]));
      }
    }
  }

  lemma FilterShrinks(r: Role, scopes: seq<Scope>)
    ensures |ClientFilter(r, scopes)| <= |scopes|
  {
  }

  /** For any membership whatever, the client and the server answer every
      request of its own user and organization alike if and only if it is an
      owner's or all its scopes are supported by its role. */
  lemma ClientAgreesExactly(m: Membership)
    ensures (forall wanted :: ClientAllows(m, wanted) <==> Allows(m, m.user, m.org, wanted))
            <==> (m.role == Owner || AllSupported(m.role, m.scopes))
  {
    if (forall wanted :: ClientAllows(m, wanted) <==> Allows(m, m.user, m.org, wanted)) && m.role != Owner {
      forall s | s in m.scopes ensures Supports(m.role, s) {
        assert ClientAllows(m, s);
      }
    }
  }
}
