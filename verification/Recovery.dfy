/**
  Password recovery: a request puts a reference in the token store, creates a
  database transaction and sends a link, discarding the reference when it
  cannot; a completion reads the reference, completes the transaction and
  consumes the reference. Steps are single store or database calls.
 */
module Recovery {
  import opened Common

  datatype Entry = Entry(reference: nat, expires: int)

  /** A row of password_recovery_transactions, unique by token hash. */
  datatype Row = Row(transaction: nat, user: nat, expires: int, consumed: bool)

  datatype Issue = Issue(transaction: nat, user: nat)

  /** What happened, in order. An attempt is one run of the completion; a
      password is chosen at registration or by the password change. */
  datatype Fact =
    | Referenced(token: nat, transaction: nat, user: nat)
    | Discarded(token: nat)
    | Found(token: nat, attempt: nat, reference: nat)
    | Rotated(token: nat, attempt: nat, transaction: nat, user: nat, password: string)
    | Chosen(user: nat, password: string)

  /** A password with its record of failed logins. */
  datatype Credential = Credential(password: string, failedAttempts: nat, lockedUntil: Option<int>)

  /** A login session; `since` is how many facts there were when it was opened. */
  datatype Session = Session(user: nat, expires: int, revoked: bool, since: nat)

  datatype Accounts = Accounts(credentials: map<nat, Credential>, sessions: map<nat, Session>)

  datatype Db = Db(
    now: int,
    next: nat,
    store: map<nat, Entry>,
    rows: map<nat, Row>,
    issued: map<nat, Issue>,
    accounts: Accounts,
    log: seq<Fact>)

  datatype Flight =
    | Stored(token: nat, expires: int)
    | Created(token: nat)
    | Failing(token: nat)
    | Reading(token: nat, attempt: nat, reference: nat)
    | Completed(token: nat, attempt: nat, reference: nat)

  datatype State = State(db: Db, flights: map<nat, Flight>)

  datatype Insertion = Inserted | Conflict | Raises

  datatype Event =
    | Tick(seconds: nat)
    | LoginFailed(user: nat, attempts: nat, lockedUntil: Option<int>)
    | SessionOpened(session: nat, user: nat, expires: int)
    | CredentialCreated(user: nat, password: string)
    | PasswordChanged(user: nat, password: string)
    | Put(r: nat, token: nat, user: nat, lifetime: int)
    | CreateRow(r: nat, outcome: Insertion)
    | Send(r: nat, delivered: bool)
    | Discard(r: nat, storeUp: bool)
    | Read(r: nat, token: nat, storeUp: bool)
    | Complete(r: nat, password: string)
    | Consume(r: nat, storeUp: bool)

  /** No request of its own: time, and the flows beside the recovery that touch
      credentials and sessions. */
  predicate Ambient(e: Event) {
    e.Tick? || e.LoginFailed? || e.SessionOpened? || e.CredentialCreated? || e.PasswordChanged?
  }

  function Init(credentials: map<nat, Credential>): State {
    State(Db(0, 0, map[], map[], map[], Accounts(credentials, map[]), []), map[])
  }

  predicate IsOpen(x: Session, now: int) { !x.revoked && x.expires > now }

  /** What a rotation does to a user: new password, no failures, no session. */
  function Rotate(a: Accounts, user: nat, password: string, now: int): Accounts {
    Accounts(
      a.credentials[user := Credential(password, 0, None)],
      map i | i in a.sessions :: if a.sessions[i].user == user && IsOpen(a.sessions[i], now)
                                 then a.sessions[i].(revoked := true) else a.sessions[i])
  }

  function Failed(a: Accounts, user: nat, attempts: nat, lockedUntil: Option<int>): Accounts {
    if user !in a.credentials then a
    else
      var c := a.credentials[user].(failedAttempts := attempts, lockedUntil := lockedUntil);
      a.(credentials := a.credentials[user := c])
  }

  function Opened(a: Accounts, session: nat, user: nat, expires: int, since: nat): Accounts {
    if session in a.sessions then a
    else a.(sessions := a.sessions[session := Session(user, expires, false, since)])
  }

  /** A password chosen outside the recovery; open sessions stay open. */
  function Choose(s: Db, user: nat, password: string): Db {
    s.(accounts := s.accounts.(credentials := s.accounts.credentials[user := Credential(password, 0, None)]),
       log := s.log + [Chosen(user, password)])
  }

  /** `max(60, lifetime)` */
  function AtLeastMinute(lifetime: int): (r: int)
    ensures r >= 60 && r >= lifetime && (r == 60 || r == lifetime)
  {
    if lifetime < 60 then 60 else lifetime
  }

  function Purge(store: map<nat, Entry>, now: int): map<nat, Entry> {
    map t | t in store && store[t].expires > now :: store[t]
  }

  predicate Holds(s: Db, token: nat, reference: nat) { token in s.store && s.store[token].reference == reference }

  function Drop(s: Db, token: nat, reference: nat): Db {
    if Holds(s, token, reference) then s.(store := s.store - {token}) else s
  }

  /** A request's first call. Tokens are fresh, so none is put twice. */
  function Began(s: Db, e: Event): Db {
    match e
    case Tick(d) => s.(now := s.now + d, store := Purge(s.store, s.now + d))
    case LoginFailed(user, attempts, lockedUntil) => s.(accounts := Failed(s.accounts, user, attempts, lockedUntil))
    case SessionOpened(session, user, expires) => s.(accounts := Opened(s.accounts, session, user, expires, |s.log|))
    case CredentialCreated(user, password) => if user in s.accounts.credentials then s else Choose(s, user, password)
    case PasswordChanged(user, password) => if user in s.accounts.credentials then Choose(s, user, password) else s
    case Put(_, token, user, lifetime) =>
      if token in s.issued then s
      else s.(store := s.store[token := Entry(s.next, s.now + AtLeastMinute(lifetime))],
              issued := s.issued[token := Issue(s.next, user)],
              next := s.next + 1,
              log := s.log + [Referenced(token, s.next, user)])
    case Read(_, token, storeUp) =>
      if !storeUp || token !in s.store then s
      else s.(next := s.next + 1, log := s.log + [Found(token, s.next, s.store[token].reference)])
    case _ => s
  }

  function Opens(s: Db, e: Event): Option<Flight> {
    match e
    case Put(_, token, _, lifetime) => if token in s.issued then None else Some(Stored(token, s.now + lifetime))
    case Read(_, token, storeUp) =>
      if !storeUp || token !in s.store then None else Some(Reading(token, s.next, s.store[token].reference))
    case _ => None
  }

  predicate Fits(e: Event, f: Flight) {
    || (e.CreateRow? && f.Stored?) || (e.Send? && f.Created?) || (e.Discard? && f.Failing?)
    || (e.Complete? && f.Reading?) || (e.Consume? && f.Completed?)
  }

  predicate Redeemable(s: Db, token: nat) {
    token in s.rows && !s.rows[token].consumed && s.rows[token].expires > s.now
  }

  /** The transaction of `complete`: the row is claimed even when the user has
      no credential to rotate, because that path returns without rolling back. */
  function DoComplete(s: Db, f: Flight, password: string): Db
    requires f.Reading?
  {
    if !Redeemable(s, f.token) then s
    else
      var row := s.rows[f.token];
      var claimed := s.(rows := s.rows[f.token := row.(consumed := true)]);
      if row.user !in s.accounts.credentials then claimed
      else claimed.(accounts := Rotate(s.accounts, row.user, password, s.now),
                    log := s.log + [Rotated(f.token, f.attempt, row.transaction, row.user, password)])
  }

  predicate HasCredential(s: Db, token: nat) { token in s.rows && s.rows[token].user in s.accounts.credentials }

  function Written(s: Db, e: Event, f: Flight): Db
    requires Fits(e, f)
  {
    if e.CreateRow? then
      if !e.outcome.Inserted? || f.token in s.rows || f.token !in s.issued then s
      else s.(rows := s.rows[f.token := Row(s.issued[f.token].transaction, s.issued[f.token].user, f.expires, false)])
    else if e.Discard? then
      if !e.storeUp || f.token !in s.issued then s
      else Drop(s, f.token, s.issued[f.token].transaction).(log := s.log + [Discarded(f.token)])
    else if e.Complete? then DoComplete(s, f, e.password)
    else if e.Consume? && e.storeUp then Drop(s, f.token, f.reference)
    else s
  }

  function Ahead(s: Db, e: Event, f: Flight): Option<Flight>
    requires Fits(e, f)
  {
    if e.CreateRow? then
      Some(if e.outcome.Inserted? && f.token !in s.rows && f.token in s.issued then Created(f.token)
           else Failing(f.token))
    else if e.Send? then (if e.delivered then None else Some(Failing(f.token)))
    else if e.Complete? && HasCredential(s, f.token) && Redeemable(s, f.token)
    then Some(Completed(f.token, f.attempt, f.reference))
    else None
  }

  function Step(s: State, e: Event): State {
    if Ambient(e) then s.(db := Began(s.db, e))
    else if e.r !in s.flights then State(Began(s.db, e), Onward(s.flights, e.r, Opens(s.db, e)))
    else if Fits(e, s.flights[e.r]) then
      var f := s.flights[e.r];
      State(Written(s.db, e, f), Onward(s.flights, e.r, Ahead(s.db, e, f)))
    else s
  }

  function Run(s: State, es: seq<Event>): State
    decreases |es|
  {
    if es == [] then s else Run(Step(s, es[0]), es[1..])
  }

  // -------------------------------------------------------------- history

  /** What may follow a history. A rotation needs an earlier read by the same
      attempt that found the very transaction it rotates, and no rotation of
      that token before it; a read needs the reference and no discard before. */
  ghost predicate MayFollow(past: seq<Fact>, x: Fact) {
    match x
    case Referenced(t, tx, _) =>
      forall i :: 0 <= i < |past| && !past[i].Chosen? ==>
                    past[i].token != t && (past[i].Referenced? ==> past[i].transaction != tx)
    case Discarded(t) => exists i :: 0 <= i < |past| && past[i].Referenced? && past[i].token == t
    case Found(t, a, ref) =>
      && (exists i :: 0 <= i < |past| && past[i].Referenced? && past[i].token == t && past[i].transaction == ref)
      && (forall i :: 0 <= i < |past| ==> past[i] != Discarded(t))
      && (forall i :: 0 <= i < |past| && past[i].Found? ==> past[i].attempt != a)
    case Rotated(t, a, tx, u, _) =>
      && Referenced(t, tx, u) in past && Found(t, a, tx) in past
      && (forall i :: 0 <= i < |past| ==> !(past[i].Rotated? && past[i].token == t))
    case Chosen(_, _) => true
  }

  ghost predicate Sound(log: seq<Fact>) {
    forall i :: 0 <= i < |log| ==> MayFollow(log[..i], log[i])
  }

  lemma SoundGrows(log: seq<Fact>, x: Fact)
    requires Sound(log) && MayFollow(log, x)
    ensures Sound(log + [x])
  {
    forall i | 0 <= i < |log + [x]| ensures MayFollow((log + [x])[..i], (log + [x])[i]) {
      assert (log + [x])[..i] == log[..i];
      if i == |log| { assert log[..i] == log; }
    }
  }

  /** The passwords after the facts of a history, in order. */
  function Told(passwords: map<nat, string>, log: seq<Fact>): map<nat, string> {
    if log == [] then passwords
    else
      var p := Told(passwords, log[..|log| - 1]);
      var x := log[|log| - 1];
      if x.Rotated? || x.Chosen? then p[x.user := x.password] else p
  }

  lemma ToldGrows(passwords: map<nat, string>, log: seq<Fact>, x: Fact)
    ensures Told(passwords, log + [x]) ==
            if x.Rotated? || x.Chosen? then Told(passwords, log)[x.user := x.password] else Told(passwords, log)
  {
  }

  // ------------------------------------------------------------- invariant

  ghost predicate Issued(s: Db, t: nat, tx: nat, u: nat) {
    t in s.issued && s.issued[t] == Issue(tx, u) && Referenced(t, tx, u) in s.log
  }

  ghost predicate FactOk(s: Db, x: Fact) {
    && (!x.Chosen? ==> x.token in s.issued)
    && (x.Discarded? ==> x.token !in s.store)
    && (x.Rotated? ==> x.token in s.rows && s.rows[x.token].consumed)
    && (x.Found? ==> x.attempt < s.next)
    && (x.Referenced? ==> x.transaction < s.next)
  }

  ghost predicate FlightOk(s: Db, f: Flight) {
    && f.token in s.issued
    && ((f.Reading? || f.Completed?) ==>
          f.reference == s.issued[f.token].transaction && Found(f.token, f.attempt, f.reference) in s.log)
  }

  /** Every issue was logged with the reference it put. */
  ghost predicate IssuesOk(s: Db) {
    forall t :: t in s.issued ==> Issued(s, t, s.issued[t].transaction, s.issued[t].user)
  }

  ghost predicate TablesOk(s: Db) {
    && (forall t :: t in s.store ==> t in s.issued && s.store[t].reference == s.issued[t].transaction)
    && (forall t :: t in s.rows ==> t in s.issued && s.issued[t] == Issue(s.rows[t].transaction, s.rows[t].user))
  }

  ghost predicate FactsOk(s: Db) { forall i :: 0 <= i < |s.log| ==> FactOk(s, s.log[i]) }

  ghost predicate DbOk(s: Db) { Sound(s.log) && FactsOk(s) && IssuesOk(s) && TablesOk(s) }

  ghost predicate Inv(s: State) {
    DbOk(s.db) && forall r :: r in s.flights ==> FlightOk(s.db, s.flights[r])
  }

  /** Facts and issues are only added, dead tokens stay dead, claims stay made. */
  ghost predicate Extends(s: Db, t: Db) {
    && s.log <= t.log && s.next <= t.next
    && (forall k :: k in s.issued ==> k in t.issued && t.issued[k] == s.issued[k])
    && (forall k :: k in t.store && k in s.issued ==> k in s.store)
    && (forall k :: k in s.rows ==> k in t.rows && (s.rows[k].consumed ==> t.rows[k].consumed))
  }

  lemma FlightExtends(s: Db, t: Db, f: Flight)
    requires FlightOk(s, f) && Extends(s, t)
    ensures FlightOk(t, f)
  {
  }

  /** The past stays true in any extension. */
  lemma PastExtends(s: Db, t: Db)
    requires FactsOk(s) && IssuesOk(s) && Extends(s, t)
    ensures forall i :: 0 <= i < |s.log| ==> FactOk(t, s.log[i])
    ensures forall k :: k in s.issued ==> Issued(t, k, s.issued[k].transaction, s.issued[k].user)
  {
  }

  /** A change of tables alone. */
  lemma SilentKeeps(s: Db, t: Db)
    requires DbOk(s) && Extends(s, t) && t.log == s.log && t.issued == s.issued && TablesOk(t)
    ensures DbOk(t)
  {
  }

  /** A change that logs one admissible fact and issues nothing. */
  lemma LoggedKeeps(s: Db, t: Db, x: Fact)
    requires DbOk(s) && Extends(s, t) && t.log == s.log + [x] && t.issued == s.issued && TablesOk(t)
    requires MayFollow(s.log, x) && FactOk(t, x)
    ensures DbOk(t)
  {
    PastExtends(s, t);
    SoundGrows(s.log, x);
    assert forall i :: 0 <= i < |t.log| ==> t.log[i] == if i < |s.log| then s.log[i] else x;
  }

  lemma MayPut(s: Db, token: nat, user: nat)
    requires DbOk(s) && token !in s.issued
    ensures MayFollow(s.log, Referenced(token, s.next, user))
  {
  }

  lemma PutKeeps(s: Db, token: nat, user: nat, t: Db)
    requires DbOk(s) && token !in s.issued && Extends(s, t) && s.next < t.next
    requires t.issued == s.issued[token := Issue(s.next, user)]
    requires t.log == s.log + [Referenced(token, s.next, user)]
    requires TablesOk(t)
    ensures DbOk(t)
  {
    MayPut(s, token, user);
    SoundGrows(s.log, Referenced(token, s.next, user));
    PutFactsOk(s, token, user, t);
    PutIssuesOk(s, token, user, t);
  }

  lemma PutFactsOk(s: Db, token: nat, user: nat, t: Db)
    requires FactsOk(s) && IssuesOk(s) && Extends(s, t) && s.next < t.next && token in t.issued
    requires t.log == s.log + [Referenced(token, s.next, user)]
    ensures FactsOk(t)
  {
  }

  lemma PutIssuesOk(s: Db, token: nat, user: nat, t: Db)
    requires FactsOk(s) && IssuesOk(s) && Extends(s, t)
    requires t.issued == s.issued[token := Issue(s.next, user)] && token !in s.issued
    requires t.log == s.log + [Referenced(token, s.next, user)]
    ensures IssuesOk(t)
  {
  }

  lemma MayFind(s: Db, token: nat)
    requires DbOk(s) && token in s.store
    ensures MayFollow(s.log, Found(token, s.next, s.store[token].reference))
  {
  }

  lemma MayRotate(s: Db, f: Flight, password: string)
    requires DbOk(s) && f.Reading? && FlightOk(s, f) && Redeemable(s, f.token)
    ensures MayFollow(s.log, Rotated(f.token, f.attempt, s.rows[f.token].transaction, s.rows[f.token].user, password))
  {
  }

  lemma MayDiscard(s: Db, token: nat)
    requires DbOk(s) && token in s.issued
    ensures MayFollow(s.log, Discarded(token))
  {
  }

  lemma PutBegins(s: Db, e: Event)
    requires DbOk(s) && e.Put?
    ensures DbOk(Began(s, e)) && Extends(s, Began(s, e))
  {
    var t := Began(s, e);
    if e.token !in s.issued {
      assert Extends(s, t) && TablesOk(t);
      PutKeeps(s, e.token, e.user, t);
    }
  }

  lemma ReadBegins(s: Db, e: Event)
    requires DbOk(s) && e.Read?
    ensures DbOk(Began(s, e)) && Extends(s, Began(s, e))
  {
    var t := Began(s, e);
    if e.storeUp && e.token in s.store {
      MayFind(s, e.token);
      assert Extends(s, t) && TablesOk(t);
      LoggedKeeps(s, t, Found(e.token, s.next, s.store[e.token].reference));
    }
  }

  lemma TimePasses(s: Db, e: Event)
    requires DbOk(s) && e.Tick?
    ensures DbOk(Began(s, e)) && Extends(s, Began(s, e))
  {
  }

  lemma LoginsKeep(s: Db, e: Event)
    requires DbOk(s) && (e.LoginFailed? || e.SessionOpened?)
    ensures DbOk(Began(s, e)) && Extends(s, Began(s, e))
  {
  }

  lemma ChoiceKeeps(s: Db, user: nat, password: string)
    requires DbOk(s)
    ensures DbOk(Choose(s, user, password)) && Extends(s, Choose(s, user, password))
  {
    var t := Choose(s, user, password);
    assert Extends(s, t) && TablesOk(t);
    LoggedKeeps(s, t, Chosen(user, password));
  }

  lemma BeganKeeps(s: Db, e: Event)
    requires DbOk(s)
    ensures DbOk(Began(s, e)) && Extends(s, Began(s, e))
  {
    if e.Put? { PutBegins(s, e); }
    else if e.Read? { ReadBegins(s, e); }
    else if e.Tick? { TimePasses(s, e); }
    else if e.CredentialCreated? || e.PasswordChanged? { ChoiceKeeps(s, e.user, e.password); }
    else if Ambient(e) { LoginsKeep(s, e); }
    else { assert Began(s, e) == s; }
  }

  lemma OpensOk(s: Db, e: Event)
    requires DbOk(s) && Opens(s, e).Some?
    ensures FlightOk(Began(s, e), Opens(s, e).value)
  {
  }

  lemma CompleteKeeps(s: Db, f: Flight, password: string)
    requires DbOk(s) && f.Reading? && FlightOk(s, f)
    ensures DbOk(DoComplete(s, f, password)) && Extends(s, DoComplete(s, f, password))
  {
    var t := DoComplete(s, f, password);
    if Redeemable(s, f.token) {
      assert Extends(s, t) && TablesOk(t);
      if HasCredential(s, f.token) {
        MayRotate(s, f, password);
        LoggedKeeps(s, t, Rotated(f.token, f.attempt, s.rows[f.token].transaction, s.rows[f.token].user, password));
      } else {
        SilentKeeps(s, t);
      }
    }
  }

  lemma DiscardKeeps(s: Db, e: Event, f: Flight)
    requires DbOk(s) && e.Discard? && f.Failing? && FlightOk(s, f)
    ensures DbOk(Written(s, e, f)) && Extends(s, Written(s, e, f))
  {
    if e.storeUp {
      var t := Written(s, e, f);
      MayDiscard(s, f.token);
      assert Extends(s, t) && TablesOk(t);
      LoggedKeeps(s, t, Discarded(f.token));
    }
  }

  lemma RowCreated(s: Db, e: Event, f: Flight)
    requires DbOk(s) && e.CreateRow? && f.Stored? && FlightOk(s, f)
    ensures DbOk(Written(s, e, f)) && Extends(s, Written(s, e, f))
  {
    var t := Written(s, e, f);
    if t != s {
      assert Extends(s, t) && TablesOk(t);
      SilentKeeps(s, t);
    }
  }

  lemma Dropped(s: Db, token: nat, reference: nat)
    requires DbOk(s)
    ensures DbOk(Drop(s, token, reference)) && Extends(s, Drop(s, token, reference))
  {
  }

  lemma WrittenKeeps(s: Db, e: Event, f: Flight)
    requires DbOk(s) && Fits(e, f) && FlightOk(s, f)
    ensures DbOk(Written(s, e, f)) && Extends(s, Written(s, e, f))
  {
    if e.Discard? { DiscardKeeps(s, e, f); }
    else if e.Complete? { CompleteKeeps(s, f, e.password); }
    else if e.CreateRow? { RowCreated(s, e, f); }
    else if e.Consume? { Dropped(s, f.token, f.reference); }
  }

  lemma AheadOk(s: Db, e: Event, f: Flight)
    requires Fits(e, f) && FlightOk(s, f) && Ahead(s, e, f).Some?
    ensures FlightOk(s, Ahead(s, e, f).value)
  {
  }

  /** Requests in flight stay sound while the tables change and one moves on. */
  lemma FlightsKeep(s: State, db: Db, r: nat, f: Option<Flight>)
    requires Inv(s) && DbOk(db) && Extends(s.db, db)
    requires f.Some? ==> FlightOk(db, f.value)
    ensures Inv(State(db, Onward(s.flights, r, f)))
  {
  }

  lemma StepBegins(s: State, e: Event)
    requires Inv(s) && (Ambient(e) || e.r !in s.flights)
    ensures Inv(Step(s, e)) && Extends(s.db, Step(s, e).db)
  {
    var t := Step(s, e);
    BeganKeeps(s.db, e);
    if Ambient(e) {
      forall q | q in s.flights ensures FlightOk(t.db, s.flights[q]) { FlightExtends(s.db, t.db, s.flights[q]); }
    } else {
      if Opens(s.db, e).Some? { OpensOk(s.db, e); }
      FlightsKeep(s, t.db, e.r, Opens(s.db, e));
    }
  }

  predicate Continues(s: State, e: Event) { !Ambient(e) && e.r in s.flights && Fits(e, s.flights[e.r]) }

  lemma StepContinues(s: State, e: Event)
    requires Inv(s)
    ensures Continues(s, e) ==> Inv(Step(s, e)) && Extends(s.db, Step(s, e).db)
  {
    if Continues(s, e) {
      var f := s.flights[e.r];
      var db, g := Written(s.db, e, f), Ahead(s.db, e, f);
      WrittenKeeps(s.db, e, f);
      if g.Some? {
        AheadOk(s.db, e, f);
        FlightExtends(s.db, db, g.value);
      }
      FlightsKeep(s, db, e.r, g);
    }
  }

  lemma StepKeeps(s: State, e: Event)
    requires Inv(s)
    ensures Inv(Step(s, e)) && Extends(s.db, Step(s, e).db)
  {
    if Ambient(e) || e.r !in s.flights { StepBegins(s, e); }
    else if Fits(e, s.flights[e.r]) { StepContinues(s, e); }
    else { assert Step(s, e) == s; }
  }

  lemma {:induction false} RunKeeps(s: State, es: seq<Event>)
    requires Inv(s)
    ensures Inv(Run(s, es)) && Extends(s.db, Run(s, es).db)
    decreases |es|
  {
    if es != [] {
      StepKeeps(s, es[0]);
      RunKeeps(Step(s, es[0]), es[1..]);
    }
  }

  // ----------------------------------------------------------- main results

  /** Each kind of fact, read off a sound history. */
  lemma ReferencedFirst(log: seq<Fact>, j: nat)
    requires Sound(log) && j < |log| && log[j].Referenced?
    ensures forall i :: 0 <= i < j && !log[i].Chosen? ==> log[i].token != log[j].token
    ensures forall i :: 0 <= i < j && log[i].Referenced? ==> log[i].transaction != log[j].transaction
  {
  }

  lemma FoundUndiscarded(log: seq<Fact>, j: nat)
    requires Sound(log) && j < |log| && log[j].Found?
    ensures forall i :: 0 <= i < j ==> log[i] != Discarded(log[j].token)
    ensures exists h :: 0 <= h < j && log[h].Referenced?
                        && log[h].token == log[j].token && log[h].transaction == log[j].reference
  {
  }

  lemma RotatedFirst(log: seq<Fact>, j: nat)
    requires Sound(log) && j < |log| && log[j].Rotated?
    ensures forall i :: 0 <= i < j ==> !(log[i].Rotated? && log[i].token == log[j].token)
    ensures exists i :: 0 <= i < j && log[i] == Found(log[j].token, log[j].attempt, log[j].transaction)
    ensures exists i :: 0 <= i < j && log[i] == Referenced(log[j].token, log[j].transaction, log[j].user)
  {
  }

  /** In every interleaving a transaction rotates a password at most once. */
  lemma RotatesAtMostOnce(credentials: map<nat, Credential>, es: seq<Event>, i: nat, j: nat)
    requires var log := Run(Init(credentials), es).db.log;
             i < j < |log| && log[i].Rotated? && log[j].Rotated?
    ensures var log := Run(Init(credentials), es).db.log;
            log[i].token != log[j].token && log[i].transaction != log[j].transaction
  {
    RunKeeps(Init(credentials), es);
    RotationsDiffer(Run(Init(credentials), es).db.log, i, j);
  }

  lemma RotationsDiffer(log: seq<Fact>, i: nat, j: nat)
    requires Sound(log) && i < j < |log| && log[i].Rotated? && log[j].Rotated?
    ensures log[i].token != log[j].token && log[i].transaction != log[j].transaction
  {
    RotatedFirst(log, i);
    RotatedFirst(log, j);
    var h :| 0 <= h < i && log[h] == Referenced(log[i].token, log[i].transaction, log[i].user);
    var g :| 0 <= g < j && log[g] == Referenced(log[j].token, log[j].transaction, log[j].user);
    if h < g { ReferencedFirst(log, g); } else { ReferencedFirst(log, h); }
  }

  /** Each rotation comes after a read by the same attempt that found, alive, the
      reference put for that token, and it is that transaction's user whose
      password rotates. */
  lemma RotationFollowsRead(credentials: map<nat, Credential>, es: seq<Event>, j: nat)
    requires j < |Run(Init(credentials), es).db.log| && Run(Init(credentials), es).db.log[j].Rotated?
    ensures var log := Run(Init(credentials), es).db.log;
            var x := log[j];
            exists i, h :: 0 <= h < i < j
              && log[i] == Found(x.token, x.attempt, x.transaction)
              && log[h] == Referenced(x.token, x.transaction, x.user)
  {
    RunKeeps(Init(credentials), es);
    var log := Run(Init(credentials), es).db.log;
    ReadBehindRotation(log, j);
  }

  lemma ReadBehindRotation(log: seq<Fact>, j: nat)
    requires Sound(log) && j < |log| && log[j].Rotated?
    ensures exists i, h :: 0 <= h < i < j
              && log[i] == Found(log[j].token, log[j].attempt, log[j].transaction)
              && log[h] == Referenced(log[j].token, log[j].transaction, log[j].user)
  {
  }

  /** A completion whose read comes after the request's discard never rotates:
      whoever still succeeds had read before the discard. */
  lemma DiscardStopsLaterReads(credentials: map<nat, Credential>, es: seq<Event>, d: nat, i: nat)
    requires var log := Run(Init(credentials), es).db.log;
             d < |log| && i < |log| && log[d].Discarded? && log[i].Found? && log[i].token == log[d].token
    ensures i < d
  {
    RunKeeps(Init(credentials), es);
    FoundUndiscarded(Run(Init(credentials), es).db.log, i);
  }

  // ------------------------------------------------- passwords and sessions

  function Passwords(s: Db): map<nat, string> {
    map u | u in s.accounts.credentials :: s.accounts.credentials[u].password
  }

  lemma ChoiceIsTold(s: Db, user: nat, password: string, passwords: map<nat, string>)
    requires Passwords(s) == Told(passwords, s.log)
    ensures Passwords(Choose(s, user, password)) == Told(passwords, Choose(s, user, password).log)
  {
  }

  lemma BeganIsTold(s: Db, e: Event, passwords: map<nat, string>)
    requires Passwords(s) == Told(passwords, s.log)
    ensures Passwords(Began(s, e)) == Told(passwords, Began(s, e).log)
  {
    if e.CredentialCreated? || e.PasswordChanged? {
      ChoiceIsTold(s, e.user, e.password, passwords);
    } else {
      assert Passwords(Began(s, e)) == Passwords(s);
      if e.Put? { ToldGrows(passwords, s.log, Referenced(e.token, s.next, e.user)); }
      else if e.Read? && e.token in s.store {
        ToldGrows(passwords, s.log, Found(e.token, s.next, s.store[e.token].reference));
      }
    }
  }

  lemma CompleteRotates(s: Db, f: Flight, password: string)
    requires f.Reading? && Redeemable(s, f.token) && HasCredential(s, f.token)
    ensures Passwords(DoComplete(s, f, password)) == Passwords(s)[s.rows[f.token].user := password]
  {
  }

  lemma WrittenIsTold(s: Db, e: Event, f: Flight, passwords: map<nat, string>)
    requires Passwords(s) == Told(passwords, s.log) && Fits(e, f)
    ensures Passwords(Written(s, e, f)) == Told(passwords, Written(s, e, f).log)
  {
    if e.Discard? { ToldGrows(passwords, s.log, Discarded(f.token)); }
    else if e.Complete? && Redeemable(s, f.token) && HasCredential(s, f.token) {
      var row := s.rows[f.token];
      CompleteRotates(s, f, e.password);
      ToldGrows(passwords, s.log, Rotated(f.token, f.attempt, row.transaction, row.user, e.password));
    }
  }

  lemma StepIsTold(s: State, e: Event, passwords: map<nat, string>)
    requires Passwords(s.db) == Told(passwords, s.db.log)
    ensures Passwords(Step(s, e).db) == Told(passwords, Step(s, e).db.log)
  {
    if Ambient(e) || e.r !in s.flights { BeganIsTold(s.db, e, passwords); }
    else if Fits(e, s.flights[e.r]) { WrittenIsTold(s.db, e, s.flights[e.r], passwords); }
  }

  /** Stored passwords are the initial ones with exactly the logged rotations
      and choices applied in order: nothing else writes a password. */
  lemma {:induction false} PasswordsAreTold(s: State, es: seq<Event>, passwords: map<nat, string>)
    requires Passwords(s.db) == Told(passwords, s.db.log)
    ensures Passwords(Run(s, es).db) == Told(passwords, Run(s, es).db.log)
    decreases |es|
  {
    if es != [] {
      StepIsTold(s, es[0], passwords);
      PasswordsAreTold(Step(s, es[0]), es[1..], passwords);
    }
  }

  // ------------------------------------------------------- what a rotation does

  /** The user has the new password, no failed logins and no lock, the sessions
      they had open are revoked, and nobody else's credential or session and no
      other session of theirs is touched. */
  ghost predicate RotatedTo(a: Accounts, b: Accounts, user: nat, password: string, now: int) {
    && user in b.credentials && b.credentials[user] == Credential(password, 0, None)
    && (forall u :: u != user ==> (u in b.credentials <==> u in a.credentials))
    && (forall u :: u != user && u in a.credentials ==> b.credentials[u] == a.credentials[u])
    && b.sessions.Keys == a.sessions.Keys
    && (forall i :: i in a.sessions ==>
          b.sessions[i] == if a.sessions[i].user == user && !a.sessions[i].revoked && now < a.sessions[i].expires
                           then a.sessions[i].(revoked := true) else a.sessions[i])
  }

  lemma RotateMeans(a: Accounts, user: nat, password: string, now: int)
    ensures RotatedTo(a, Rotate(a, user, password, now), user, password, now)
  {
  }

  /** What the flows beside the recovery do: time takes away the references whose
      deadline has come, a failed login is recorded with the user's credential, a
      chosen password clears failures and lock and leaves sessions open. */
  lemma AmbientMeans(s: Db, e: Event, t: Db)
    requires Ambient(e) && t == Began(s, e)
    ensures e.Tick? ==>
            && t.accounts == s.accounts && t.now == s.now + e.seconds
            && (forall k :: k in t.store <==> k in s.store && t.now < s.store[k].expires)
            && (forall k :: k in t.store ==> t.store[k] == s.store[k])
    ensures !e.Tick? ==> t.now == s.now && t.store == s.store && t.rows == s.rows
    ensures e.LoginFailed? && e.user in s.accounts.credentials ==>
            t.accounts.credentials == s.accounts.credentials[
              e.user := Credential(s.accounts.credentials[e.user].password, e.attempts, e.lockedUntil)]
    ensures !e.SessionOpened? ==> t.accounts.sessions == s.accounts.sessions
    ensures e.SessionOpened? && e.session !in s.accounts.sessions ==>
            t.accounts.sessions == s.accounts.sessions[e.session := Session(e.user, e.expires, false, |s.log|)]
    ensures (e.CredentialCreated? && e.user !in s.accounts.credentials)
            || (e.PasswordChanged? && e.user in s.accounts.credentials) ==>
            && t.accounts.credentials == s.accounts.credentials[e.user := Credential(e.password, 0, None)]
            && t.log == s.log + [Chosen(e.user, e.password)]
  {
  }

  /** The next call completes a recovery: its row is there, unclaimed and not
      expired, and its user has a credential. */
  predicate AboutToRotate(s: State, e: Event) {
    && e.Complete? && e.r in s.flights && s.flights[e.r].Reading?
    && var token := s.flights[e.r].token;
    && token in s.db.rows && !s.db.rows[token].consumed && s.db.now < s.db.rows[token].expires
    && s.db.rows[token].user in s.db.accounts.credentials
  }

  /** The step logs a rotation. */
  predicate LogsRotation(s: Db, t: Db) { |t.log| > |s.log| && t.log[|s.log|].Rotated? }

  lemma WrittenRotates(s: Db, e: Event, f: Flight, t: Db)
    requires Fits(e, f) && t == Written(s, e, f)
    ensures !AboutToRotate(State(s, map[e.r := f]), e) ==> t.accounts == s.accounts && !LogsRotation(s, t)
    ensures AboutToRotate(State(s, map[e.r := f]), e) ==>
            && var row := s.rows[f.token];
            && t.log == s.log + [Rotated(f.token, f.attempt, row.transaction, row.user, e.password)]
            && RotatedTo(s.accounts, t.accounts, row.user, e.password, s.now)
  {
    if e.Complete? && f.token in s.rows { RotateMeans(s.accounts, s.rows[f.token].user, e.password, s.now); }
  }

  /** In every state and for every call, whatever else is in flight: a rotation
      is logged exactly when a completion finds its row and credential; then the
      row's user, and nobody else, has the completion's password, no failed logins,
      no lock and no session left open; and no other call of a recovery touches an
      account. */
  lemma RotationMeans(s: State, e: Event)
    ensures var t := Step(s, e);
            && (LogsRotation(s.db, t.db) <==> AboutToRotate(s, e))
            && (AboutToRotate(s, e) ==>
                  && var f := s.flights[e.r];
                  && var row := s.db.rows[f.token];
                  && t.db.log == s.db.log + [Rotated(f.token, f.attempt, row.transaction, row.user, e.password)]
                  && RotatedTo(s.db.accounts, t.db.accounts, row.user, e.password, s.db.now)
                  && t.db.rows == s.db.rows[f.token := row.(consumed := true)] && t.db.store == s.db.store)
            && (!AboutToRotate(s, e) && !Ambient(e) ==> t.db.accounts == s.db.accounts)
  {
    if !Ambient(e) && e.r in s.flights && Fits(e, s.flights[e.r]) {
      WrittenRotates(s.db, e, s.flights[e.r], Step(s, e).db);
    }
  }

  /** In every interleaving a step that logs a rotation leaves its user with the
      logged password, no failed logins, no lock and no open session. */
  lemma RotationLeavesUserClean(credentials: map<nat, Credential>, past: seq<Event>, e: Event)
    requires LogsRotation(Run(Init(credentials), past).db, Step(Run(Init(credentials), past), e).db)
    ensures var s, t := Run(Init(credentials), past).db, Step(Run(Init(credentials), past), e).db;
            var x := t.log[|s.log|];
            && s.accounts.credentials.Keys == t.accounts.credentials.Keys
            && t.accounts.credentials[x.user] == Credential(x.password, 0, None)
            && (forall i :: i in t.accounts.sessions && t.accounts.sessions[i].user == x.user ==>
                  !IsOpen(t.accounts.sessions[i], t.now))
  {
    RotationMeans(Run(Init(credentials), past), e);
  }

  predicate Rotation(x: Fact, user: nat) { x.Rotated? && x.user == user }

  /** A session still open was opened after its user's last rotation. */
  predicate Survivor(s: Db, x: Session) {
    x.since <= |s.log| && (IsOpen(x, s.now) ==> forall j :: x.since <= j < |s.log| ==> !Rotation(s.log[j], x.user))
  }

  ghost predicate Survivors(s: Db) { forall i :: i in s.accounts.sessions ==> Survivor(s, s.accounts.sessions[i]) }

  lemma StepSurvivors(s: State, e: Event)
    requires Survivors(s.db)
    ensures Survivors(Step(s, e).db)
  {
  }

  lemma {:induction false} RunSurvivors(s: State, es: seq<Event>)
    requires Survivors(s.db)
    ensures Survivors(Run(s, es).db)
    decreases |es|
  {
    if es != [] {
      StepSurvivors(s, es[0]);
      RunSurvivors(Step(s, es[0]), es[1..]);
    }
  }

  /** In every interleaving with logins, a rotation ends every session its user
      had: one that is open now was opened after that user's last rotation. */
  lemma RotationEndsSessions(credentials: map<nat, Credential>, es: seq<Event>, i: nat, j: nat)
    requires i in Run(Init(credentials), es).db.accounts.sessions
    requires j < |Run(Init(credentials), es).db.log|
    ensures var s := Run(Init(credentials), es).db;
            var x := s.accounts.sessions[i];
            IsOpen(x, s.now) && Rotation(s.log[j], x.user) ==> j < x.since
  {
    RunSurvivors(Init(credentials), es);
    var s := Run(Init(credentials), es).db;
    assert Survivor(s, s.accounts.sessions[i]);
  }
}
