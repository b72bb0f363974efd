/**
  Whole operations on platform connections, each run to its end before the next
  begins: connecting, one lifecycle command, and one reconciliation pass over a
  listed batch. They are runs of the machine in `Connections`.
 */
module ConnectionOperations {
  import opened Common
  import opened Text
  import opened Connections

  // ---------------------------------------------------------- normalized keys

  datatype KeyResult = TooLong | Key(key: Option<string>)

  /** `_normalized_idempotency_key` */
  function Normalized(raw: Option<string>): KeyResult {
    if raw.None? then Key(None)
    else
      var k := Trim(raw.value, IsSpace);
      if k == "" then Key(None) else if |k| > 128 then TooLong else Key(Some(k))
  }

  /** A key is what remains between the white space around it, and two raw keys
      name one normalized key exactly when they differ only in that. */
  lemma NormalizedExactly(raw: string, k: string)
    ensures Normalized(Some(raw)) == Key(Some(k)) <==> 1 <= |k| <= 128 && TrimmedTo(raw, k, IsSpace)
    ensures Normalized(Some(raw)) == Key(None) <==> Only(raw, IsSpace)
  {
    TrimExactly(raw, k, IsSpace);
    TrimBlank(raw, IsSpace);
  }

  // ------------------------------------------------------------- batch passes

  function AnswerFor(answers: map<nat, Answer>, id: nat): Answer {
    if id in answers then answers[id] else NoProbe
  }

  /** `list_reconcilable`: the first rows by id, from `start` on, that are not
      disconnected. */
  function Listed(s: Db, start: nat, limit: nat): seq<Connection>
    decreases if start < s.next then s.next - start else 0
  {
    if limit == 0 || start >= s.next then []
    else if start in s.conns && s.conns[start].status != Disconnected
    then [s.conns[start]] + Listed(s, start + 1, limit - 1)
    else Listed(s, start + 1, limit)
  }

  /** A batch of rows as they are now, no row twice. */
  ghost predicate Fresh(s: Db, batch: seq<Connection>) {
    && (forall i :: 0 <= i < |batch| ==> batch[i].id in s.conns && s.conns[batch[i].id] == batch[i])
    && (forall i, j :: 0 <= i < j < |batch| ==> batch[i].id != batch[j].id)
  }

  ghost predicate Has(batch: seq<Connection>, id: nat) { exists i :: 0 <= i < |batch| && batch[i].id == id }

  lemma {:induction false} ListedIsFresh(s: Db, start: nat, limit: nat)
    requires DbOk(s)
    ensures var b := Listed(s, start, limit);
            && |b| <= limit && Fresh(s, b)
            && (forall i :: 0 <= i < |b| ==> start <= b[i].id && b[i].status != Disconnected)
            && (forall i, j :: 0 <= i < j < |b| ==> b[i].id < b[j].id)
    decreases if start < s.next then s.next - start else 0
  {
    if limit > 0 && start < s.next {
      if start in s.conns && s.conns[start].status != Disconnected {
        ListedIsFresh(s, start + 1, limit - 1);
      } else {
        ListedIsFresh(s, start + 1, limit);
      }
    }
  }

  /** A row is left out only when the batch is full of rows before it. */
  lemma {:induction false} ListedIsComplete(s: Db, start: nat, limit: nat, id: nat)
    requires DbOk(s) && id in s.conns && start <= id && s.conns[id].status != Disconnected
    ensures var b := Listed(s, start, limit);
            Has(b, id) || (|b| == limit && forall i :: 0 <= i < |b| ==> b[i].id < id)
    decreases if start < s.next then s.next - start else 0
  {
    var b := Listed(s, start, limit);
    if limit > 0 {
      if start in s.conns && s.conns[start].status != Disconnected {
        var rest := Listed(s, start + 1, limit - 1);
        assert b == [s.conns[start]] + rest;
        if id == start {
          assert b[0].id == id;
        } else {
          ListedIsComplete(s, start + 1, limit - 1, id);
          if Has(rest, id) {
            var i :| 0 <= i < |rest| && rest[i].id == id;
            assert b[i + 1].id == id;
          }
        }
      } else {
        ListedIsComplete(s, start + 1, limit, id);
      }
    }
  }

  /** One round of the loop, for a connection as it was listed. */
  function SweepOne(s: Db, c: Connection, a: Answer): Db {
    match Reconciled(c, a)
    case None => s
    case Some(u) => DoSave(s, u, None, Reauthorize)
  }

  function Sweep(s: Db, batch: seq<Connection>, answers: map<nat, Answer>): Db
    decreases |batch|
  {
    if batch == [] then s
    else Sweep(SweepOne(s, batch[0], AnswerFor(answers, batch[0].id)), batch[1..], answers)
  }

  /** Where one probe answer leaves a connection. */
  function After(c: Connection, a: Answer): Connection {
    match Reconciled(c, a) case None => c case Some(u) => u
  }

  /** Answering again moves nothing. */
  lemma AfterSettles(c: Connection, a: Answer)
    ensures Reconciled(After(c, a), a) == None
    ensures Reconciled(c, a).Some? <==> After(c, a).status != c.status
    ensures AnsweredBy(c, a, After(c, a))
  {
    ReconciledExactly(c, a);
  }

  lemma SweepOneMeans(s: Db, c: Connection, a: Answer)
    requires c.id in s.conns && s.conns[c.id] == c
    ensures var t := SweepOne(s, c, a);
            && t.conns == s.conns[c.id := After(c, a)]
            && t.receipts == s.receipts && t.next == s.next
            && t.audit == s.audit
               + (if Reconciled(c, a).Some? then [Audit(c.id, c.org, None, After(c, a).status)] else [])
  {
  }

  lemma FreshRest(s: Db, batch: seq<Connection>, a: Answer)
    requires batch != [] && Fresh(s, batch)
    ensures Fresh(SweepOne(s, batch[0], a), batch[1..])
  {
  }

  function AuditsOf(audit: seq<Audit>, id: nat): nat {
    if audit == [] then 0
    else AuditsOf(audit[..|audit| - 1], id) + (if audit[|audit| - 1].connection == id then 1 else 0)
  }

  lemma AuditsGrow(audit: seq<Audit>, a: Audit, id: nat)
    ensures AuditsOf(audit + [a], id) == AuditsOf(audit, id) + (if a.connection == id then 1 else 0)
  {
  }

  /** What a whole pass leaves under one id, whatever the order of the batch:
      the probe's answer applied to the row as it was, if the row was listed,
      with one audit event exactly when its status changed. */
  lemma {:induction false} SweepMeans(s: Db, batch: seq<Connection>, answers: map<nat, Answer>, id: nat)
    requires Fresh(s, batch)
    ensures var t := Sweep(s, batch, answers);
            && t.conns.Keys == s.conns.Keys && t.receipts == s.receipts && t.next == s.next
            && (id in s.conns ==>
                t.conns[id] == if Has(batch, id) then After(s.conns[id], AnswerFor(answers, id)) else s.conns[id])
            && (id in s.conns && Has(batch, id) ==> AnsweredBy(s.conns[id], AnswerFor(answers, id), t.conns[id]))
            && AuditsOf(t.audit, id) == AuditsOf(s.audit, id) + (if StatusOf(t, id) != StatusOf(s, id) then 1 else 0)
    decreases |batch|
  {
    if batch != [] {
      var c, rest := batch[0], batch[1..];
      var a := AnswerFor(answers, c.id);
      var m := SweepOne(s, c, a);
      SweepOneMeans(s, c, a);
      AfterSettles(c, a);
      FreshRest(s, batch, a);
      SweepMeans(m, rest, answers, id);
      AuditsGrow(s.audit, Audit(c.id, c.org, None, After(c, a).status), id);
      assert s.audit + [] == s.audit;
      HasSplits(batch, id);
      if id == c.id { assert !Has(rest, id); }
    }
  }

  lemma HasSplits(batch: seq<Connection>, id: nat)
    requires batch != []
    ensures Has(batch, id) <==> batch[0].id == id || Has(batch[1..], id)
  {
  }

  /** After a pass, a second pass over any of the same connections with the
      same answers changes nothing, audit log included. */
  lemma {:induction false} SecondPassChangesNothing(s: Db, batch: seq<Connection>, again: seq<Connection>,
                                                    answers: map<nat, Answer>)
    requires Fresh(s, batch)
    requires Fresh(Sweep(s, batch, answers), again)
    requires forall i :: 0 <= i < |again| ==> Has(batch, again[i].id)
    ensures Sweep(Sweep(s, batch, answers), again, answers) == Sweep(s, batch, answers)
    decreases |again|
  {
    if again != [] {
      var c := again[0];
      var a := AnswerFor(answers, c.id);
      assert Has(batch, c.id);
      SweepMeans(s, batch, answers, c.id);
      AfterSettles(s.conns[c.id], a);
      assert SweepOne(Sweep(s, batch, answers), c, a) == Sweep(s, batch, answers);
      SecondPassChangesNothing(s, batch, again[1..], answers);
    }
  }

  function Pass(s: Db, limit: nat, answers: map<nat, Answer>): Db { Sweep(s, Listed(s, 0, limit), answers) }

  lemma SweepKeepsOk(s: Db, batch: seq<Connection>, answers: map<nat, Answer>)
    requires DbOk(s)
    ensures DbOk(Sweep(s, batch, answers))
    decreases |batch|
  {
    if batch != [] {
      var c := batch[0];
      var a := AnswerFor(answers, c.id);
      if Reconciled(c, a).Some? { SaveKeeps(s, Reconciled(c, a).value, None, Reauthorize); }
      SweepKeepsOk(SweepOne(s, c, a), batch[1..], answers);
    }
  }

  /** A pass whose limit did not cut its batch is idempotent, although the
      second pass lists afresh and no longer sees what became disconnected. */
  lemma UncutPassIsIdempotent(s: Db, limit: nat, answers: map<nat, Answer>)
    requires DbOk(s) && |Listed(s, 0, limit)| < limit
    ensures Pass(Pass(s, limit, answers), limit, answers) == Pass(s, limit, answers)
  {
    var batch, t := Listed(s, 0, limit), Pass(s, limit, answers);
    var again := Listed(t, 0, limit);
    ListedIsFresh(s, 0, limit);
    SweepKeepsOk(s, batch, answers);
    ListedIsFresh(t, 0, limit);
    forall i | 0 <= i < |again| ensures Has(batch, again[i].id) {
      var id := again[i].id;
      SweepMeans(s, batch, answers, id);
      if !Has(batch, id) { ListedIsComplete(s, 0, limit, id); }
    }
    SecondPassChangesNothing(s, batch, again, answers);
  }

  // ------------------------------------------------------- lifecycle commands

  /** What a lifecycle command leaves when it runs alone. */
  function Ordered(s: Db, cmd: Command, permitted: bool): Db {
    if !permitted || Replays(s, cmd) then s
    else
      match Intended(s, cmd)
      case None => s
      case Some(c) => DoSave(s, c, cmd.key, cmd.action)
  }

  /** What it answers. */
  function Answered(s: Db, cmd: Command, permitted: bool): Reply {
    if !permitted then Rejected
    else if Replays(s, cmd) then Replay(s, cmd)
    else
      var current := Find(s, cmd.org, cmd.connection);
      if current.None? then Rejected
      else if current.value.status == Target(cmd.action) then Returned(current.value)
      else
        match Intended(s, cmd)
        case None => Rejected
        case Some(c) => if Saves(s, c, cmd.key) then Returned(c) else Rejected
  }

  /** A rejected command changes nothing; an accepted one answers with the
      status it commanded, which without a replay is the stored row. */
  lemma OrderOutcome(s: Db, cmd: Command, permitted: bool)
    requires DbOk(s)
    ensures var t, reply := Ordered(s, cmd, permitted), Answered(s, cmd, permitted);
            && DbOk(t)
            && (reply.Rejected? ==> t == s)
            && (reply.Returned? ==> reply.connection.status == Target(cmd.action))
            && (reply.Returned? && !Replays(s, cmd) ==> Find(t, cmd.org, cmd.connection) == Some(reply.connection))
  {
    if permitted && !Replays(s, cmd) && Intended(s, cmd).Some? {
      SaveKeeps(s, Intended(s, cmd).value, cmd.key, cmd.action);
    }
  }

  /** A permitted command without a receipt is rejected exactly when its row is
      missing or is disconnected and it does not ask for that; otherwise the row is
      left in the status asked for, with the reason asked for if that is a change,
      and everything else as it was. */
  lemma OrderExactly(s: Db, cmd: Command)
    requires DbOk(s) && !Replays(s, cmd)
    ensures var t, reply := Ordered(s, cmd, true), Answered(s, cmd, true);
            var id := cmd.connection;
            && (reply.Rejected? <==>
                  || id !in s.conns || s.conns[id].org != cmd.org
                  || (s.conns[id].status == Disconnected && cmd.action != Disconnect))
            && (reply.Rejected? ==> t == s)
            && (reply.Returned? ==>
                  && id in t.conns && reply.connection == t.conns[id]
                  && (t == s || Changed(s, t, cmd, t.conns[id]))
                  && (t == s <==> exists r :: Commanded(cmd.action, s.conns[id].status, r)))
  {
    if Find(s, cmd.org, cmd.connection).Some? {
      AllowedExactly(s.conns[cmd.connection].status, Target(cmd.action));
    }
    assert Commanded(cmd.action, Target(cmd.action), ReasonOf(cmd.action));
    assert forall c :: |s.audit + [c]| > |s.audit|;
  }

  /** One row is changed as the command asks, with its audit event and receipt. */
  predicate Changed(s: Db, t: Db, cmd: Command, row: Connection) {
    && cmd.connection in s.conns && SameThing(s.conns[cmd.connection], row)
    && Commanded(cmd.action, row.status, row.reason)
    && t.conns == s.conns[cmd.connection := row] && t.next == s.next
    && t.audit == s.audit + [Audit(cmd.connection, cmd.org, cmd.key, row.status)]
    && var receipt := Receipt(cmd.connection, cmd.action, row.status, row.reason);
    && t.receipts == if cmd.key.None? then s.receipts else s.receipts[(cmd.org, cmd.key.value) := receipt]
  }

  /** Sending a command again, with a key or without, changes nothing more and
      is answered alike, but for the capabilities a replay leaves out. */
  lemma RetryIsSafe(s: Db, cmd: Command, permitted: bool)
    requires DbOk(s)
    ensures var t := Ordered(s, cmd, permitted);
            var first, second := Answered(s, cmd, permitted), Answered(t, cmd, permitted);
            && Ordered(t, cmd, permitted) == t
            && (first.Rejected? <==> second.Rejected?)
            && (first.Returned? ==> second.connection.(capabilities := []) == first.connection.(capabilities := []))
  {
  }

  /** A command with a receipt gets the recorded result, without capabilities, if
      the receipt is for its connection and action, and is rejected otherwise. */
  lemma ReplayExactly(s: Db, cmd: Command)
    requires DbOk(s) && Replays(s, cmd)
    ensures var receipt, reply := s.receipts[(cmd.org, cmd.key.value)], Answered(s, cmd, true);
            && Ordered(s, cmd, true) == s
            && (reply.Rejected? <==> cmd.connection != receipt.connection || cmd.action != receipt.action)
            && (reply.Returned? ==>
                  && cmd.connection in s.conns
                  && reply.connection == s.conns[cmd.connection].(status := receipt.status, reason := receipt.reason,
                                                                  capabilities := []))
  {
    assert ReceiptOk(s, (cmd.org, cmd.key.value), s.receipts[(cmd.org, cmd.key.value)]);
  }

  // ------------------------------------------------- operations one at a time

  datatype Op =
    | Join(org: nat, platform: string, external: string, capabilities: seq<string>, permitted: bool)
    | Order(cmd: Command, permitted: bool)
    | Reconcile(limit: nat, answers: map<nat, Answer>)

  function Perform(s: Db, op: Op): Db {
    match op
    case Join(org, platform, external, capabilities, permitted) =>
      if permitted then DoConnect(s, org, platform, external, capabilities) else s
    case Order(cmd, permitted) => Ordered(s, cmd, permitted)
    case Reconcile(limit, answers) => Pass(s, limit, answers)
  }

  function PerformAll(s: Db, ops: seq<Op>): Db
    decreases |ops|
  {
    if ops == [] then s else PerformAll(Perform(s, ops[0]), ops[1..])
  }

  function Listing(batch: seq<Connection>, from: nat): seq<Event>
    requires from <= |batch|
    decreases |batch| - from
  {
    if from == |batch| then [] else [ListOne(from, batch[from].id)] + Listing(batch, from + 1)
  }

  function Probing(batch: seq<Connection>, answers: map<nat, Answer>, from: nat): seq<Event>
    requires from <= |batch|
    decreases |batch| - from
  {
    if from == |batch| then []
    else [Probe(from, AnswerFor(answers, batch[from].id)), SaveProbe(from, false)] + Probing(batch, answers, from + 1)
  }

  /** Its database calls, in order: a pass lists its whole batch before the
      first probe; calls that do not apply do nothing. */
  function Script(s: Db, op: Op): seq<Event> {
    match op
    case Join(org, platform, external, capabilities, permitted) =>
      [Connect(org, platform, external, capabilities, permitted)]
    case Order(cmd, permitted) => [Manage(0, cmd, permitted), ReadCurrent(0), Save(0, false)]
    case Reconcile(limit, answers) => Listing(Listed(s, 0, limit), 0) + Probing(Listed(s, 0, limit), answers, 0)
  }

  function Serial(s: Db, ops: seq<Op>): seq<Event>
    decreases |ops|
  {
    if ops == [] then [] else Script(s, ops[0]) + Serial(Perform(s, ops[0]), ops[1..])
  }

  function Quiet(s: Db): State { State(s, map[]) }

  /** The flights of a pass that has yet to list, or to probe, some members,
      `seen` audit events having been there when it listed them. */
  function Between(batch: seq<Connection>, from: nat, to: nat, seen: nat): map<nat, Flight>
    requires from <= to <= |batch|
  {
    map i: nat | from <= i < to :: Connections.Probing(batch[i], seen)
  }

  lemma RunFirst(s: State, e: Event, rest: seq<Event>)
    ensures Run(s, [e] + rest) == Run(Step(s, e), rest)
  {
  }

  lemma ListNext(s: Db, batch: seq<Connection>, from: nat)
    requires from < |batch| && Fresh(s, batch) && batch[from].status != Disconnected
    ensures Step(State(s, Between(batch, 0, from, |s.audit|)), ListOne(from, batch[from].id)) ==
            State(s, Between(batch, 0, from + 1, |s.audit|))
  {
  }

  lemma {:induction false} ListingRuns(s: Db, batch: seq<Connection>, from: nat)
    requires from <= |batch| && Fresh(s, batch)
    requires forall i :: 0 <= i < |batch| ==> batch[i].status != Disconnected
    ensures Run(State(s, Between(batch, 0, from, |s.audit|)), Listing(batch, from)) ==
            State(s, Between(batch, 0, |batch|, |s.audit|))
    decreases |batch| - from
  {
    if from < |batch| {
      ListNext(s, batch, from);
      RunFirst(State(s, Between(batch, 0, from, |s.audit|)), ListOne(from, batch[from].id), Listing(batch, from + 1));
      ListingRuns(s, batch, from + 1);
    }
  }

  /** One member's probe and save, whatever else is in flight. */
  lemma ProbeOne(s: Db, flights: map<nat, Flight>, r: nat, c: Connection, a: Answer)
    requires r in flights && flights[r].Probing? && flights[r].listed == c
    ensures Step(Step(State(s, flights), Probe(r, a)), SaveProbe(r, false)) == State(SweepOne(s, c, a), flights - {r})
  {
  }

  lemma {:induction false} ProbingRuns(s: Db, batch: seq<Connection>, answers: map<nat, Answer>, from: nat, seen: nat)
    requires from <= |batch|
    ensures Run(State(s, Between(batch, from, |batch|, seen)), Probing(batch, answers, from)) ==
            Quiet(Sweep(s, batch[from..], answers))
    decreases |batch| - from
  {
    var flights := Between(batch, from, |batch|, seen);
    if from == |batch| {
      assert flights == map[];
    } else {
      var c := batch[from];
      var a := AnswerFor(answers, c.id);
      var es := Probing(batch, answers, from);
      ProbeOne(s, flights, from, c, a);
      assert flights - {from} == Between(batch, from + 1, |batch|, seen);
      assert es[1..][1..] == Probing(batch, answers, from + 1);
      assert batch[from..][1..] == batch[from + 1..];
      ProbingRuns(SweepOne(s, c, a), batch, answers, from + 1, seen);
    }
  }

  lemma PassIsRun(s: Db, limit: nat, answers: map<nat, Answer>)
    requires DbOk(s)
    ensures Run(Quiet(s), Script(s, Reconcile(limit, answers))) == Quiet(Pass(s, limit, answers))
  {
    var batch := Listed(s, 0, limit);
    ListedIsFresh(s, 0, limit);
    RunAppend(Quiet(s), Listing(batch, 0), Probing(batch, answers, 0));
    assert Between(batch, 0, 0, |s.audit|) == map[];
    ListingRuns(s, batch, 0);
    ProbingRuns(s, batch, answers, 0, |s.audit|);
    assert batch[0..] == batch;
  }

  lemma ThreeSteps(s: State, a: Event, b: Event, c: Event)
    ensures Run(s, [a, b, c]) == Step(Step(Step(s, a), b), c)
  {
    assert [a, b, c][1..] == [b, c] && [b, c][1..] == [c] && [c][1..] == [];
    assert Run(Step(Step(s, a), b), [c]) == Step(Step(Step(s, a), b), c);
    assert Run(Step(s, a), [b, c]) == Run(Step(Step(s, a), b), [c]);
  }

  lemma OrderIsRun(s: Db, cmd: Command, permitted: bool)
    ensures Run(Quiet(s), Script(s, Order(cmd, permitted))) == Quiet(Ordered(s, cmd, permitted))
  {
    ThreeSteps(Quiet(s), Manage(0, cmd, permitted), ReadCurrent(0), Save(0, false));
    var none: map<nat, Flight> := map[];
    assert none - {0} == none;
    if permitted && !Replays(s, cmd) {
      var flights := none[0 := Managing(cmd)];
      assert flights - {0} == none;
      if Intended(s, cmd).Some? {
        var saving := Saving(Intended(s, cmd).value, cmd.key, cmd.action, |s.audit|);
        assert flights[0 := saving] - {0} == none;
      }
    }
  }

  /** Every whole operation is the run of its database calls. */
  lemma PerformIsScript(s: Db, op: Op)
    requires DbOk(s)
    ensures Run(Quiet(s), Script(s, op)) == Quiet(Perform(s, op)) && DbOk(Perform(s, op))
  {
    match op
    case Join(_, _, _, _, _) =>
      assert Script(s, op)[1..] == [];
    case Order(cmd, permitted) => OrderIsRun(s, cmd, permitted);
    case Reconcile(limit, answers) => PassIsRun(s, limit, answers);
    RunKeeps(Quiet(s), Script(s, op));
  }

  lemma {:induction false} SerialIsPerform(s: Db, ops: seq<Op>)
    requires DbOk(s)
    ensures Run(Quiet(s), Serial(s, ops)) == Quiet(PerformAll(s, ops)) && DbOk(PerformAll(s, ops))
    decreases |ops|
  {
    if ops != [] {
      RunAppend(Quiet(s), Script(s, ops[0]), Serial(Perform(s, ops[0]), ops[1..]));
      PerformIsScript(s, ops[0]);
      SerialIsPerform(Perform(s, ops[0]), ops[1..]);
    }
  }

  // ------------------------------------------------------------ serial safety

  function Present(s: Db, id: nat): nat { if id in s.conns then 1 else 0 }

  predicate Moved(s: Db, t: Db, id: nat) { id in s.conns && id in t.conns && s.conns[id].status != t.conns[id].status }

  /** How often the status of a connection changed along a serial run. */
  function Changes(s: Db, ops: seq<Op>, id: nat): nat
    decreases |ops|
  {
    if ops == [] then 0
    else (if Moved(s, Perform(s, ops[0]), id) then 1 else 0) + Changes(Perform(s, ops[0]), ops[1..], id)
  }

  lemma PerformAudits(s: Db, op: Op, id: nat)
    requires DbOk(s)
    ensures var t := Perform(s, op);
            && AuditsOf(t.audit, id) ==
               AuditsOf(s.audit, id) + Present(t, id) - Present(s, id) + (if Moved(s, t, id) then 1 else 0)
            && (StatusOf(s, id) == Some(Disconnected) ==> StatusOf(t, id) == Some(Disconnected))
  {
    match op
    case Join(org, _, _, _, _) => AuditsGrow(s.audit, Audit(s.next, org, None, Pending), id);
    case Order(cmd, _) => AuditsGrow(s.audit, Audit(cmd.connection, cmd.org, cmd.key, Target(cmd.action)), id);
    case Reconcile(limit, answers) =>
      ListedIsFresh(s, 0, limit);
      SweepMeans(s, Listed(s, 0, limit), answers, id);
  }

  lemma {:induction false} AllAudits(s: Db, ops: seq<Op>, id: nat)
    requires DbOk(s)
    ensures var t := PerformAll(s, ops);
            && AuditsOf(t.audit, id) == AuditsOf(s.audit, id) + Present(t, id) - Present(s, id) + Changes(s, ops, id)
            && (StatusOf(s, id) == Some(Disconnected) ==> StatusOf(t, id) == Some(Disconnected))
    decreases |ops|
  {
    if ops != [] {
      PerformAudits(s, ops[0], id);
      PerformIsScript(s, ops[0]);
      AllAudits(Perform(s, ops[0]), ops[1..], id);
    }
  }

  /** Run one at a time, operations write one audit event for the creation of
      a connection and one for each change of its status, and no other. */
  lemma AuditsAreOnePlusChanges(ops: seq<Op>, id: nat)
    ensures var t := Run(EMPTY, Serial(NO_ROWS, ops)).db;
            AuditsOf(t.audit, id) == Present(t, id) + Changes(NO_ROWS, ops, id)
  {
    SerialIsPerform(NO_ROWS, ops);
    AllAudits(NO_ROWS, ops, id);
  }

  /** Run one at a time, no operation reopens a disconnected connection. */
  lemma DisconnectedIsFinal(past: seq<Op>, later: seq<Op>, id: nat)
    ensures var s := PerformAll(NO_ROWS, past);
            && Run(EMPTY, Serial(NO_ROWS, past) + Serial(s, later)) == Quiet(PerformAll(s, later))
            && (StatusOf(s, id) == Some(Disconnected) ==> StatusOf(PerformAll(s, later), id) == Some(Disconnected))
  {
    var s := PerformAll(NO_ROWS, past);
    RunAppend(EMPTY, Serial(NO_ROWS, past), Serial(s, later));
    SerialIsPerform(NO_ROWS, past);
    SerialIsPerform(s, later);
    AllAudits(s, later, id);
  }

  // ------------------------------------------------------------ the use cases

  class ConnectionDesk {
    var db: Db

    constructor ()
      ensures db == NO_ROWS
    {
      db := NO_ROWS;
    }

    /** `ConnectPlatformConnection.execute` */
    method Connect(org: nat, platform: string, rawExternal: string, capabilities: seq<string>, allowed: bool,
                   verified: bool)
      returns (created: Option<Connection>)
      requires DbOk(db)
      modifies this
      ensures DbOk(db)
      ensures var external := Trim(rawExternal, IsSpace);
              db == Perform(old(db),
                            Join(org, platform, external, capabilities, allowed && verified && 1 <= |external| <= 255))
      ensures created.Some? <==>
              && allowed && verified && 1 <= |Trim(rawExternal, IsSpace)| <= 255
              && forall k :: k in old(db).conns ==>
                   old(db).conns[k].platform != platform || old(db).conns[k].external != Trim(rawExternal, IsSpace)
      ensures created.Some? ==>
              && var id := created.value.id;
              && id !in old(db).conns && db.conns == old(db).conns[id := created.value]
              && created.value ==
                 Connection(id, org, platform, Trim(rawExternal, IsSpace), Pending, InitialPending, capabilities)
              && db.receipts == old(db).receipts && db.audit == old(db).audit + [Audit(id, org, None, Pending)]
      ensures created.None? ==> db == old(db)
    {
      var external := Trim(rawExternal, IsSpace);
      if !allowed || !verified || |external| == 0 || |external| > 255 { return None; }
      var row := Connection(db.next, org, platform, external, Pending, InitialPending, capabilities);
      ConnectKeeps(db, Connections.Connect(org, platform, external, capabilities, true));
      var next := DoConnect(db, org, platform, external, capabilities);
      if next.next == db.next { return None; }
      db := next;
      return Some(row);
    }

    /** `ManagePlatformConnectionLifecycle.execute` */
    method Manage(org: nat, connection: nat, action: Action, rawKey: Option<string>, allowed: bool)
      returns (reply: Reply)
      requires DbOk(db)
      modifies this
      ensures DbOk(db)
      ensures match Normalized(rawKey)
              case TooLong => db == old(db) && reply == Rejected
              case Key(key) =>
                var cmd := Command(org, connection, action, key);
                && db == Perform(old(db), Order(cmd, allowed)) && reply == Answered(old(db), cmd, allowed)
                && (!allowed ==> db == old(db) && reply == Rejected)
                && (allowed && !Replays(old(db), cmd) ==>
                      && (reply.Rejected? <==>
                            || connection !in old(db).conns || old(db).conns[connection].org != org
                            || (old(db).conns[connection].status == Disconnected && action != Disconnect))
                      && (reply.Rejected? ==> db == old(db))
                      && (reply.Returned? ==>
                            && connection in db.conns && reply.connection == db.conns[connection]
                            && (if exists r :: Commanded(action, old(db).conns[connection].status, r) then db == old(db)
                                else Changed(old(db), db, cmd, reply.connection))))
                && (allowed && Replays(old(db), cmd) ==>
                      && db == old(db)
                      && var receipt := db.receipts[(org, key.value)];
                      && (reply.Rejected? <==> connection != receipt.connection || action != receipt.action)
                      && (reply.Returned? ==>
                            && connection in db.conns
                            && reply.connection ==
                               db.conns[connection].(status := receipt.status, reason := receipt.reason,
                                                     capabilities := [])))
    {
      if !allowed { return Rejected; }
      var normalized := Normalized(rawKey);
      if normalized.TooLong? { return Rejected; }
      var cmd := Command(org, connection, action, normalized.key);
      OrderOutcome(db, cmd, allowed);
      if Replays(db, cmd) { ReplayExactly(db, cmd); } else { OrderExactly(db, cmd); }
      if cmd.key.Some? && (org, cmd.key.value) in db.receipts {
        var receipt := db.receipts[(org, cmd.key.value)];
        var row := Find(db, org, connection);
        if row.None? || receipt.connection != connection || receipt.action != action { return Rejected; }
        return Returned(row.value.(status := receipt.status, reason := receipt.reason, capabilities := []));
      }
      var current := Find(db, org, connection);
      if current.None? { return Rejected; }
      if current.value.status == Target(action) { return Returned(current.value); }
      var updated := TransitionTo(current.value, Target(action), ReasonOf(action));
      if updated.None? { return Rejected; }
      if !Saves(db, updated.value, cmd.key) { return Rejected; }
      db := DoSave(db, updated.value, cmd.key, action);
      return Returned(updated.value);
    }

    /** `ReconcilePlatformConnections.execute` */
    method Reconcile(limit: nat, answers: map<nat, Answer>) returns (inspected: nat, changed: nat, skipped: nat)
      requires DbOk(db)
      modifies this
      ensures DbOk(db)
      ensures db == Perform(old(db), Op.Reconcile(limit, answers))
      ensures inspected == |Listed(old(db), 0, limit)| && inspected == changed + skipped
      ensures |db.audit| == |old(db).audit| + changed
      ensures db.conns.Keys == old(db).conns.Keys && db.receipts == old(db).receipts
      ensures forall id :: id in db.conns ==>
                if Has(Listed(old(db), 0, limit), id)
                then AnsweredBy(old(db).conns[id], AnswerFor(answers, id), db.conns[id])
                else db.conns[id] == old(db).conns[id]
    {
      var batch := Listed(db, 0, limit);
      ListedIsFresh(db, 0, limit);
      SweepKeepsOk(db, batch, answers);
      forall id { SweepMeans(db, batch, answers, id); }
      inspected, changed, skipped := 0, 0, 0;
      while inspected < |batch|
        invariant inspected <= |batch| && inspected == changed + skipped
        invariant Fresh(db, batch[inspected..])
        invariant Sweep(db, batch[inspected..], answers) == Sweep(old(db), batch, answers)
        invariant |db.audit| == |old(db).audit| + changed
      {
        var c := batch[inspected];
        var answer := AnswerFor(answers, c.id);
        assert batch[inspected..][0] == c && batch[inspected..][1..] == batch[inspected + 1..];
        FreshRest(db, batch[inspected..], answer);
        SweepOneMeans(db, c, answer);
        inspected := inspected + 1;
        var updated := Reconciled(c, answer);
        if updated.Some? && Saves(db, updated.value, None) {
          db := DoSave(db, updated.value, None, Reauthorize);
          changed := changed + 1;
        } else {
          skipped := skipped + 1;
        }
      }
    }
  }
}
