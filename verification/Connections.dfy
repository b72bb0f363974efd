/**
  Platform connections: the transition table, the lifecycle commands with their
  idempotency keys and the reconciliation of single connections, as a state
  machine whose steps are single database calls.
 */
module Connections {
  import opened Common

  datatype Status = Pending | Active | Degraded | ReauthRequired | Disconnected

  datatype Reason =
    | InitialPending | Healthy | PreflightFailed | TokenExpired | ScopesMissing
    | PlatformUnreachable | ResourceRemoved | Reauthorized | Revoked | DisconnectedByUser

  datatype Connection = Connection(
    id: nat, org: nat, platform: string, external: string,
    status: Status, reason: Reason, capabilities: seq<string>)

  /** `_ALLOWED_TRANSITIONS` */
  function Allowed(from: Status): set<Status> {
    match from
    case Pending => {Active, Degraded, ReauthRequired, Disconnected}
    case Active => {Degraded, ReauthRequired, Disconnected}
    case Degraded => {Active, ReauthRequired, Disconnected}
    case ReauthRequired => {Active, Disconnected}
    case Disconnected => {}
  }

  function TransitionTo(c: Connection, target: Status, reason: Reason): Option<Connection> {
    if target in Allowed(c.status) then Some(c.(status := target, reason := reason)) else None
  }

  datatype Action = Reauthorize | Revoke | Disconnect

  function Target(a: Action): Status {
    match a case Reauthorize => Active case Revoke => ReauthRequired case Disconnect => Disconnected
  }

  function ReasonOf(a: Action): Reason {
    match a case Reauthorize => Reauthorized case Revoke => Revoked case Disconnect => DisconnectedByUser
  }

  /** A probe's decision; the constructor refuses a target that does not go
      with its reason. */
  datatype DecisionData = Decision(target: Status, reason: Reason)

  predicate Matches(target: Status, reason: Reason) {
    match reason
    case Healthy => target == Pending || target == Active || target == Degraded
    case PreflightFailed => target == Pending || target == Degraded
    case TokenExpired => target == ReauthRequired
    case ScopesMissing => target == ReauthRequired
    case PlatformUnreachable => target == Degraded
    case ResourceRemoved => target == Disconnected
    case _ => false
  }

  type Decision = d: DecisionData | Matches(d.target, d.reason) witness Decision(Active, Healthy)

  datatype Answer = NoProbe | Unavailable | Decided(decision: Decision)

  /** What `_apply_decision` would save for a connection as it was listed. */
  function Reconciled(c: Connection, a: Answer): Option<Connection> {
    if a.NoProbe? || c.status == Disconnected then None
    else
      var d: Decision := if a.Decided? then a.decision else Decision(Degraded, PlatformUnreachable);
      if c.status == d.target then None else TransitionTo(c, d.target, d.reason)
  }

  datatype Receipt = Receipt(connection: nat, action: Action, status: Status, reason: Reason)

  /** The audit event written with a connection's creation or save, and the
      status that was written. */
  datatype Audit = Audit(connection: nat, org: nat, key: Option<string>, status: Status)

  datatype Db = Db(
    conns: map<nat, Connection>,
    receipts: map<(nat, string), Receipt>,
    next: nat,
    audit: seq<Audit>)

  const NO_ROWS := Db(map[], map[], 0, [])

  // --------------------------------------------------------------- database

  /** INSERT of a pending connection; (platform, external id) is unique. */
  function DoConnect(s: Db, org: nat, platform: string, external: string, capabilities: seq<string>): Db {
    if exists k :: k in s.conns && s.conns[k].platform == platform && s.conns[k].external == external then s
    else
      var c := Connection(s.next, org, platform, external, Pending, InitialPending, capabilities);
      s.(conns := s.conns[s.next := c],
         next := s.next + 1,
         audit := s.audit + [Audit(s.next, org, None, Pending)])
  }

  /** `update_status`: the row is addressed by id and organization only; a used
      idempotency key violates the primary key and rolls everything back. */
  predicate Saves(s: Db, c: Connection, key: Option<string>) {
    && c.id in s.conns && s.conns[c.id].org == c.org
    && (key.Some? ==> (c.org, key.value) !in s.receipts)
  }

  function DoSave(s: Db, c: Connection, key: Option<string>, action: Action): Db {
    if !Saves(s, c, key) then s
    else s.(conns := s.conns[c.id := s.conns[c.id].(status := c.status, reason := c.reason)],
            receipts := if key.None? then s.receipts
                        else s.receipts[(c.org, key.value) := Receipt(c.id, action, c.status, c.reason)],
            audit := s.audit + [Audit(c.id, c.org, key, c.status)])
  }

  function Find(s: Db, org: nat, id: nat): Option<Connection> {
    if id in s.conns && s.conns[id].org == org then Some(s.conns[id]) else None
  }

  function StatusOf(s: Db, id: nat): Option<Status> {
    if id in s.conns then Some(s.conns[id].status) else None
  }

  datatype Command = Command(org: nat, connection: nat, action: Action, key: Option<string>)

  datatype Reply = Rejected | Returned(connection: Connection)

  /** A key that has its receipt: the recorded result, or a conflict. The
      replayed value carries no capabilities. */
  function Replay(s: Db, cmd: Command): Reply
    requires cmd.key.Some? && (cmd.org, cmd.key.value) in s.receipts
  {
    var receipt := s.receipts[(cmd.org, cmd.key.value)];
    var current := Find(s, cmd.org, cmd.connection);
    if current.None? || receipt.connection != cmd.connection || receipt.action != cmd.action then Rejected
    else Returned(current.value.(status := receipt.status, reason := receipt.reason, capabilities := []))
  }

  predicate Replays(s: Db, cmd: Command) { cmd.key.Some? && (cmd.org, cmd.key.value) in s.receipts }

  /** What a command without a receipt sets out to save. */
  function Intended(s: Db, cmd: Command): Option<Connection> {
    var current := Find(s, cmd.org, cmd.connection);
    if current.None? || current.value.status == Target(cmd.action) then None
    else TransitionTo(current.value, Target(cmd.action), ReasonOf(cmd.action))
  }

  // ------------------------------------------------------------- the machine

  /** A request between two of its calls. `seen` is how many audit events there
      were when it read the connection. */
  datatype Flight =
    | Managing(cmd: Command)
    | Saving(updated: Connection, key: Option<string>, action: Action, seen: nat)
    | Probing(listed: Connection, seen: nat)
    | SavingProbe(updated: Connection, seen: nat)

  datatype State = State(db: Db, flights: map<nat, Flight>)

  const EMPTY := State(NO_ROWS, map[])

  datatype Event =
    | Connect(org: nat, platform: string, external: string, capabilities: seq<string>, permitted: bool)
    | Manage(r: nat, cmd: Command, permitted: bool)
    | ReadCurrent(r: nat)
    | Save(r: nat, refused: bool)
    | ListOne(r: nat, connection: nat)
    | Probe(r: nat, answer: Answer)
    | SaveProbe(r: nat, refused: bool)

  function Opens(s: Db, e: Event): Option<Flight> {
    match e
    case Manage(_, cmd, permitted) => if permitted && !Replays(s, cmd) then Some(Managing(cmd)) else None
    case ListOne(_, id) =>
      if id in s.conns && s.conns[id].status != Disconnected then Some(Probing(s.conns[id], |s.audit|)) else None
    case _ => None
  }

  predicate Fits(e: Event, f: Flight) {
    || (e.ReadCurrent? && f.Managing?) || (e.Save? && f.Saving?)
    || (e.Probe? && f.Probing?) || (e.SaveProbe? && f.SavingProbe?)
  }

  function Ahead(s: Db, e: Event, f: Flight): Option<Flight>
    requires Fits(e, f)
  {
    if e.ReadCurrent? then
      match Intended(s, f.cmd)
      case None => None
      case Some(c) => Some(Saving(c, f.cmd.key, f.cmd.action, |s.audit|))
    else if e.Probe? then
      match Reconciled(f.listed, e.answer)
      case None => None
      case Some(c) => Some(SavingProbe(c, f.seen))
    else None
  }

  function Written(s: Db, e: Event, f: Flight): Db
    requires Fits(e, f)
  {
    if e.Save? then (if e.refused then s else DoSave(s, f.updated, f.key, f.action))
    else if e.SaveProbe? then (if e.refused then s else DoSave(s, f.updated, None, Reauthorize))
    else s
  }

  function Step(s: State, e: Event): State {
    if e.Connect? then
      if e.permitted then s.(db := DoConnect(s.db, e.org, e.platform, e.external, e.capabilities)) else s
    else if e.r !in s.flights then s.(flights := Onward(s.flights, e.r, Opens(s.db, e)))
    else if Fits(e, s.flights[e.r]) then
      var f := s.flights[e.r];
      State(Written(s.db, e, f), Onward(s.flights, e.r, Ahead(s.db, e, f)))
    else s
  }

  function Run(s: State, es: seq<Event>): State
    decreases |es|
  {
    if es == [] then s else Run(Step(s, es[0]), es[1..])
  }

  lemma {:induction false} RunAppend(s: State, a: seq<Event>, b: seq<Event>)
    ensures Run(s, a + b) == Run(Run(s, a), b)
    decreases |a|
  {
    if a == [] {
      assert a + b == b;
    } else {
      assert (a + b)[1..] == a[1..] + b;
      RunAppend(Step(s, a[0]), a[1..], b);
    }
  }

  // ------------------------------------------------------ the tables in full

  /** A connection leaves every status but DISCONNECTED, for every other status
      but PENDING, except that REAUTH_REQUIRED never becomes DEGRADED. */
  predicate MayMove(from: Status, to: Status) {
    from != Disconnected && to != Pending && to != from && !(from == ReauthRequired && to == Degraded)
  }

  lemma AllowedExactly(from: Status, to: Status)
    ensures to in Allowed(from) <==> MayMove(from, to)
  {
  }

  /** A connection before and after a probe's answer: without a probe nothing
      happens, and an unavailable one counts as a decision that the platform is
      unreachable. */
  predicate AnsweredBy(before: Connection, a: Answer, after: Connection) {
    match a
    case NoProbe => after == before
    case Unavailable => MovedTo(before, Degraded, PlatformUnreachable, after)
    case Decided(d) => MovedTo(before, d.target, d.reason, after)
  }

  predicate MovedTo(before: Connection, target: Status, reason: Reason, after: Connection) {
    after == if MayMove(before.status, target) then before.(status := target, reason := reason) else before
  }

  /** A decision is refused exactly when it asks for PENDING, for the status the
      connection has, for DEGRADED from REAUTH_REQUIRED, or for anything from
      DISCONNECTED; otherwise the connection gets its status and reason. */
  lemma ReconciledExactly(c: Connection, a: Answer)
    ensures match Reconciled(c, a)
            case None => AnsweredBy(c, a, c)
            case Some(u) => u.status != c.status && AnsweredBy(c, a, u)
    ensures a.Decided? ==>
            (Reconciled(c, a).None? <==>
               || c.status == Disconnected || a.decision.target == Pending || a.decision.target == c.status
               || (c.status == ReauthRequired && a.decision.target == Degraded))
  {
    AllowedExactly(c.status, Degraded);
    if a.Decided? { AllowedExactly(c.status, a.decision.target); }
  }

  /** The decisions a probe may return. */
  lemma DecisionsExactly(target: Status, reason: Reason)
    ensures Matches(target, reason) <==>
            (target, reason) in {(Pending, Healthy), (Active, Healthy), (Degraded, Healthy),
                                 (Pending, PreflightFailed), (Degraded, PreflightFailed),
                                 (ReauthRequired, TokenExpired), (ReauthRequired, ScopesMissing),
                                 (Degraded, PlatformUnreachable), (Disconnected, ResourceRemoved)}
  {
  }

  // -------------------------------------------------------------- invariant

  /** The only reasons a connection ever has in each status. */
  predicate Pairs(status: Status, reason: Reason) {
    match status
    case Pending => reason == InitialPending
    case Active => reason == Healthy || reason == Reauthorized
    case Degraded => reason == Healthy || reason == PreflightFailed || reason == PlatformUnreachable
    case ReauthRequired => reason == TokenExpired || reason == ScopesMissing || reason == Revoked
    case Disconnected => reason == ResourceRemoved || reason == DisconnectedByUser
  }

  /** What a save may write: never PENDING, always a pair of the table. */
  predicate Writable(c: Connection) { c.status != Pending && Pairs(c.status, c.reason) }

  /** The status and reason an action asks for. */
  predicate Commanded(a: Action, status: Status, reason: Reason) {
    || (a == Reauthorize && status == Active && reason == Reauthorized)
    || (a == Revoke && status == ReauthRequired && reason == Revoked)
    || (a == Disconnect && status == Disconnected && reason == DisconnectedByUser)
  }

  predicate FlightOk(f: Flight) {
    && (f.Saving? ==> Commanded(f.action, f.updated.status, f.updated.reason))
    && (f.SavingProbe? ==> Writable(f.updated))
  }

  /** A stored result is what its action asks for, for a connection of its
      organization. */
  predicate ReceiptOk(s: Db, k: (nat, string), receipt: Receipt) {
    && Commanded(receipt.action, receipt.status, receipt.reason)
    && receipt.connection in s.conns && s.conns[receipt.connection].org == k.0
  }

  ghost predicate DbOk(s: Db) {
    && (forall k :: k in s.conns ==> k < s.next && s.conns[k].id == k && Pairs(s.conns[k].status, s.conns[k].reason))
    && (forall k :: k in s.receipts ==> ReceiptOk(s, k, s.receipts[k]))
  }

  ghost predicate Inv(s: State) {
    DbOk(s.db) && forall r :: r in s.flights ==> FlightOk(s.flights[r])
  }

  /** What no step undoes. */
  predicate SameThing(a: Connection, b: Connection) {
    a.id == b.id && a.org == b.org && a.platform == b.platform && a.external == b.external
      && a.capabilities == b.capabilities
  }

  ghost predicate Keeps(s: Db, t: Db) {
    && s.next <= t.next && s.audit <= t.audit
    && (forall k :: k in s.conns ==> k in t.conns && SameThing(s.conns[k], t.conns[k]))
    && (forall k :: k in s.conns && s.conns[k].status != Pending ==> k in t.conns && t.conns[k].status != Pending)
    && (forall k :: k in s.receipts ==> k in t.receipts && t.receipts[k] == s.receipts[k])
  }

  lemma ConnectKeeps(s: Db, e: Event)
    requires DbOk(s) && e.Connect?
    ensures var t := DoConnect(s, e.org, e.platform, e.external, e.capabilities); DbOk(t) && Keeps(s, t)
  {
  }

  lemma SaveKeeps(s: Db, c: Connection, key: Option<string>, action: Action)
    requires DbOk(s) && Writable(c) && (key.Some? ==> Commanded(action, c.status, c.reason))
    ensures DbOk(DoSave(s, c, key, action)) && Keeps(s, DoSave(s, c, key, action))
  {
  }

  lemma AheadOk(s: Db, e: Event, f: Flight)
    requires Fits(e, f) && Ahead(s, e, f).Some?
    ensures FlightOk(Ahead(s, e, f).value)
  {
  }

  lemma StepKeeps(s: State, e: Event)
    requires Inv(s)
    ensures Inv(Step(s, e)) && Keeps(s.db, Step(s, e).db)
  {
    if e.Connect? {
      ConnectKeeps(s.db, e);
    } else if e.r in s.flights && Fits(e, s.flights[e.r]) {
      var f := s.flights[e.r];
      if e.Save? { SaveKeeps(s.db, f.updated, f.key, f.action); }
      else if e.SaveProbe? { SaveKeeps(s.db, f.updated, None, Reauthorize); }
      if Ahead(s.db, e, f).Some? { AheadOk(s.db, e, f); }
    }
  }

  lemma {:induction false} RunKeeps(s: State, es: seq<Event>)
    requires Inv(s)
    ensures Inv(Run(s, es)) && Keeps(s.db, Run(s, es).db)
    decreases |es|
  {
    if es != [] {
      StepKeeps(s, es[0]);
      RunKeeps(Step(s, es[0]), es[1..]);
    }
  }

  /** In every interleaving every connection's status and reason are a pair of
      the table, so PENDING only ever goes with initial_pending. */
  lemma StatusFitsReason(es: seq<Event>, id: nat)
    requires id in Run(EMPTY, es).db.conns
    ensures var c := Run(EMPTY, es).db.conns[id]; Pairs(c.status, c.reason)
  {
    RunKeeps(EMPTY, es);
  }

  /** Whatever is still to come, a connection keeps its identity, organization
      and capabilities, and never becomes pending again. */
  lemma ConnectionsKeepIdentity(past: seq<Event>, later: seq<Event>, id: nat)
    requires id in Run(EMPTY, past).db.conns
    ensures var s, t := Run(EMPTY, past).db, Run(EMPTY, past + later).db;
            && id in t.conns && SameThing(s.conns[id], t.conns[id])
            && (s.conns[id].status != Pending ==> t.conns[id].status != Pending)
  {
    RunAppend(EMPTY, past, later);
    RunKeeps(EMPTY, past);
    RunKeeps(Run(EMPTY, past), later);
  }

  // ------------------------------------------------------- idempotency keys

  /** How many saves were committed under an organization's key. */
  function Uses(audit: seq<Audit>, org: nat, key: string): nat {
    if audit == [] then 0
    else
      var a := audit[|audit| - 1];
      Uses(audit[..|audit| - 1], org, key) + (if a.org == org && a.key == Some(key) then 1 else 0)
  }

  predicate Counted(s: Db, org: nat, key: string) {
    Uses(s.audit, org, key) == if (org, key) in s.receipts then 1 else 0
  }

  lemma StepCounts(s: State, e: Event, org: nat, key: string)
    requires Counted(s.db, org, key)
    ensures Counted(Step(s, e).db, org, key)
  {
  }

  lemma {:induction false} RunCounts(s: State, es: seq<Event>, org: nat, key: string)
    requires Counted(s.db, org, key)
    ensures Counted(Run(s, es).db, org, key)
    decreases |es|
  {
    if es != [] {
      StepCounts(s, es[0], org, key);
      RunCounts(Step(s, es[0]), es[1..], org, key);
    }
  }

  /** In every interleaving a key changes state at most once, and exactly when
      it has a receipt. */
  lemma KeyChangesStateOnce(es: seq<Event>, org: nat, key: string)
    ensures var s := Run(EMPTY, es).db;
            && Uses(s.audit, org, key) <= 1
            && (Uses(s.audit, org, key) == 1 <==> (org, key) in s.receipts)
  {
    RunCounts(EMPTY, es, org, key);
  }

  /** Once a key has its receipt, every later use by the same connection and
      action returns the first status and reason and writes nothing; every
      other use is rejected and writes nothing. */
  lemma KeyReplaysForever(past: seq<Event>, later: seq<Event>, r: nat, cmd: Command)
    requires cmd.key.Some? && (cmd.org, cmd.key.value) in Run(EMPTY, past).db.receipts
    requires r !in Run(EMPTY, past + later).flights
    ensures var receipt := Run(EMPTY, past).db.receipts[(cmd.org, cmd.key.value)];
            var t := Run(EMPTY, past + later);
            && Step(t, Manage(r, cmd, true)) == t
            && Replays(t.db, cmd)
            && (if receipt.connection == cmd.connection && receipt.action == cmd.action
                then Replay(t.db, cmd).Returned?
                     && Replay(t.db, cmd).connection.id == cmd.connection
                     && Replay(t.db, cmd).connection.status == receipt.status
                     && Replay(t.db, cmd).connection.reason == receipt.reason
                else Replay(t.db, cmd).Rejected?)
  {
    RunAppend(EMPTY, past, later);
    RunKeeps(EMPTY, past);
    RunKeeps(Run(EMPTY, past), later);
    var t := Run(EMPTY, past + later);
    assert t.flights - {r} == t.flights;
    var k := (cmd.org, cmd.key.value);
    assert ReceiptOk(t.db, k, t.db.receipts[k]);
  }

  // ------------------------------------------------------- what a save stores

  /** In every interleaving a command's save is committed exactly when its row is
      there and its key unused; the row then has the status and reason that the
      command's action asks for, its other columns and all other rows stay as they
      are, and the key, if there is one, has its receipt. */
  lemma SaveStores(past: seq<Event>, e: Event)
    requires var s := Run(EMPTY, past);
             e.Save? && e.r in s.flights && s.flights[e.r].Saving?
    ensures var s, t := Run(EMPTY, past).db, Step(Run(EMPTY, past), e).db;
            var f := Run(EMPTY, past).flights[e.r];
            var id, org := f.updated.id, f.updated.org;
            && (t != s <==> !e.refused && id in s.conns && s.conns[id].org == org
                            && (f.key.Some? ==> (org, f.key.value) !in s.receipts))
            && (t != s ==>
                  && var row := t.conns[id];
                  && Commanded(f.action, row.status, row.reason)
                  && SameThing(s.conns[id], row) && t.conns == s.conns[id := row] && t.next == s.next
                  && t.audit == s.audit + [Audit(id, org, f.key, row.status)]
                  && var receipt := Receipt(id, f.action, row.status, row.reason);
                  && t.receipts == if f.key.None? then s.receipts else s.receipts[(org, f.key.value) := receipt])
  {
    var s := Run(EMPTY, past);
    RunKeeps(EMPTY, past);
    var f := s.flights[e.r];
    assert FlightOk(f);
    assert |s.db.audit + [Audit(f.updated.id, f.updated.org, f.key, f.updated.status)]| > |s.db.audit|;
  }

  // --------------------------------------------- DISCONNECTED: when absorbing

  /** The request whose save this event commits, if any. */
  function Landing(s: State, e: Event): Option<Flight> {
    if e.Save? && e.r in s.flights && s.flights[e.r].Saving? && !e.refused
       && Saves(s.db, s.flights[e.r].updated, s.flights[e.r].key) then Some(s.flights[e.r])
    else if e.SaveProbe? && e.r in s.flights && s.flights[e.r].SavingProbe? && !e.refused
            && Saves(s.db, s.flights[e.r].updated, None) then Some(s.flights[e.r])
    else None
  }

  /** The connection as this event saves it, if any. */
  function Commits(s: State, e: Event): (c: Option<Connection>)
    ensures c.Some? ==> c.value.id in s.db.conns
  {
    match Landing(s, e)
    case Some(Saving(c, _, _, _)) => Some(c)
    case Some(SavingProbe(c, _)) => Some(c)
    case _ => None
  }

  /** The row is already disconnected when a save to another status lands. */
  predicate TooLate(s: State, e: Event) {
    var c := Commits(s, e);
    c.Some? && s.db.conns[c.value.id].status == Disconnected && c.value.status != Disconnected
  }

  ghost predicate StaysDisconnected(s: Db, t: Db) {
    forall k :: k in s.conns && s.conns[k].status == Disconnected ==> k in t.conns && t.conns[k].status == Disconnected
  }

  ghost predicate Absorbing(s: State, es: seq<Event>)
    decreases |es|
  {
    es == [] || (StaysDisconnected(s.db, Step(s, es[0]).db) && Absorbing(Step(s, es[0]), es[1..]))
  }

  lemma StepAbsorbs(s: State, e: Event)
    requires Inv(s)
    ensures StaysDisconnected(s.db, Step(s, e).db) <==> !TooLate(s, e)
  {
  }

  /** A reauthorization read before a disconnect and saved after it. */
  function Reopening(): seq<Event> {
    [Connect(0, "discord", "g", [], true),
     Manage(1, Command(0, 0, Reauthorize, None), true), ReadCurrent(1),
     Manage(2, Command(0, 0, Disconnect, None), true), ReadCurrent(2), Save(2, false),
     Save(1, false)]
  }

  function Reopened(n: nat): State
    requires n <= 7
  {
    var c := Connection(0, 0, "discord", "g", Pending, InitialPending, []);
    var reauthorize, disconnect := Command(0, 0, Reauthorize, None), Command(0, 0, Disconnect, None);
    var active := c.(status := Active, reason := Reauthorized);
    var gone := c.(status := Disconnected, reason := DisconnectedByUser);
    var one, dropped, back := Audit(0, 0, None, Pending), Audit(0, 0, None, Disconnected), Audit(0, 0, None, Active);
    var two, three := [one, dropped], [one, dropped, back];
    var saving := Saving(active, None, Reauthorize, 1);
    if n == 0 then EMPTY
    else if n == 1 then State(Db(map[0 := c], map[], 1, [one]), map[])
    else if n == 2 then State(Db(map[0 := c], map[], 1, [one]), map[1 := Managing(reauthorize)])
    else if n == 3 then State(Db(map[0 := c], map[], 1, [one]), map[1 := saving])
    else if n == 4 then State(Db(map[0 := c], map[], 1, [one]), map[1 := saving, 2 := Managing(disconnect)])
    else if n == 5 then State(Db(map[0 := c], map[], 1, [one]),
                              map[1 := saving, 2 := Saving(gone, None, Disconnect, 1)])
    else if n == 6 then State(Db(map[0 := gone], map[], 1, two), map[1 := saving])
    else State(Db(map[0 := active], map[], 1, three), map[])
  }

  lemma ReopenedEarly(n: nat)
    requires n < 5
    ensures Step(Reopened(n), Reopening()[n]) == Reopened(n + 1)
  {
  }

  lemma ReopenedLate(n: nat)
    requires 5 <= n < 7
    ensures Step(Reopened(n), Reopening()[n]) == Reopened(n + 1)
  {
  }

  lemma {:induction false} ReopenedRun(n: nat)
    requires n <= 7
    ensures Run(EMPTY, Reopening()[..n]) == Reopened(n)
  {
    if n > 0 {
      ReopenedRun(n - 1);
      if n <= 5 { ReopenedEarly(n - 1); } else { ReopenedLate(n - 1); }
      assert Reopening()[..n] == Reopening()[..n - 1] + [Reopening()[n - 1]];
      RunAppend(EMPTY, Reopening()[..n - 1], [Reopening()[n - 1]]);
      assert [Reopening()[n - 1]][1..] == [];
    }
  }

  /** An interleaving in which a disconnected connection becomes active again. */
  lemma StaleSaveReopens()
    ensures StatusOf(Run(EMPTY, Reopening()[..6]).db, 0) == Some(Disconnected)
    ensures StatusOf(Run(EMPTY, Reopening()).db, 0) == Some(Active)
  {
    ReopenedRun(6);
    ReopenedRun(7);
    assert Reopening()[..7] == Reopening();
  }

  // ------------------------------------------------- every pair is reached

  const NEW_ROW := Connection(0, 0, "discord", "g", Pending, InitialPending, [])
  const CONNECTED := State(Db(map[0 := NEW_ROW], map[], 1, [Audit(0, 0, None, Pending)]), map[])

  function ActionFor(reason: Reason): Action {
    match reason case Reauthorized => Reauthorize case Revoked => Revoke case _ => Disconnect
  }

  predicate ByCommand(reason: Reason) { reason == Reauthorized || reason == Revoked || reason == DisconnectedByUser }

  /** The calls that take a new connection to a pair of the table. */
  function Reaching(status: Status, reason: Reason): seq<Event>
    requires Pairs(status, reason)
  {
    if status == Pending then []
    else if ByCommand(reason) then
      [Manage(1, Command(0, 0, ActionFor(reason), None), true), ReadCurrent(1), Save(1, false)]
    else [ListOne(1, 0), Probe(1, Decided(Decision(status, reason))), SaveProbe(1, false)]
  }

  lemma FirstConnect()
    ensures Step(EMPTY, Connect(0, "discord", "g", [], true)) == CONNECTED
  {
  }

  lemma ThreeCalls(s: State, a: Event, b: Event, c: Event)
    ensures Run(s, [a, b, c]) == Step(Step(Step(s, a), b), c)
  {
    assert [a, b, c][1..] == [b, c] && [b, c][1..] == [c] && [c][1..] == [];
    assert Run(Step(Step(s, a), b), [c]) == Step(Step(Step(s, a), b), c);
    assert Run(Step(s, a), [b, c]) == Run(Step(Step(s, a), b), [c]);
  }

  lemma CommandReaches(action: Action)
    ensures var es := [Manage(1, Command(0, 0, action, None), true), ReadCurrent(1), Save(1, false)];
            Run(CONNECTED, es).db.conns == map[0 := NEW_ROW.(status := Target(action), reason := ReasonOf(action))]
  {
    var cmd := Command(0, 0, action, None);
    var row := NEW_ROW.(status := Target(action), reason := ReasonOf(action));
    ThreeCalls(CONNECTED, Manage(1, cmd, true), ReadCurrent(1), Save(1, false));
    assert Step(CONNECTED, Manage(1, cmd, true)) == State(CONNECTED.db, map[1 := Managing(cmd)]);
    assert Intended(CONNECTED.db, cmd) == Some(row);
    assert Step(State(CONNECTED.db, map[1 := Managing(cmd)]), ReadCurrent(1)) ==
           State(CONNECTED.db, map[1 := Saving(row, None, action, 1)]);
  }

  lemma ProbeReaches(d: Decision)
    requires d.target != Pending
    ensures Run(CONNECTED, [ListOne(1, 0), Probe(1, Decided(d)), SaveProbe(1, false)]).db.conns ==
            map[0 := NEW_ROW.(status := d.target, reason := d.reason)]
  {
    var row := NEW_ROW.(status := d.target, reason := d.reason);
    ThreeCalls(CONNECTED, ListOne(1, 0), Probe(1, Decided(d)), SaveProbe(1, false));
    assert Step(CONNECTED, ListOne(1, 0)) == State(CONNECTED.db, map[1 := Probing(NEW_ROW, 1)]);
    assert Reconciled(NEW_ROW, Decided(d)) == Some(row);
    assert Step(State(CONNECTED.db, map[1 := Probing(NEW_ROW, 1)]), Probe(1, Decided(d))) ==
           State(CONNECTED.db, map[1 := SavingProbe(row, 1)]);
  }

  /** Every pair of the table is reached, a DEGRADED connection that carries the
      reason healthy among them, so the table is exact. */
  lemma EveryPairIsReached(status: Status, reason: Reason)
    requires Pairs(status, reason)
    ensures var db := Run(EMPTY, [Connect(0, "discord", "g", [], true)] + Reaching(status, reason)).db;
            0 in db.conns && db.conns[0].status == status && db.conns[0].reason == reason
  {
    var es := Reaching(status, reason);
    FirstConnect();
    assert ([Connect(0, "discord", "g", [], true)] + es)[1..] == es;
    if status != Pending {
      if ByCommand(reason) { CommandReaches(ActionFor(reason)); } else { ProbeReaches(Decision(status, reason)); }
    }
  }
}
