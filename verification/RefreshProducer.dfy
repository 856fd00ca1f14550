// The retry loop around one batch, and the sequence of batches of a run, against an adversarial
// database (integrations/pg-mdm/bounded_refresh_producer.py:205-302, 305-322, 375-456).

module RefreshProducer {
  import opened Basics
  import opened SourceTable

  // ---- Constants (seconds are reals: the clock is exact) ----

  const MAX_BATCH_RETRY_SECONDS: real := 300.0
  const CONNECTION_RETRY_INTERVAL_SECONDS: real := 1.0
  const MAX_TRANSACTION_RETRIES: nat := 4
  const TRANSACTION_RETRY_BASE_SECONDS: real := 0.1
  const TRANSACTION_RETRY_MAX_SECONDS: real := 1.0
  const PSQL_TIMEOUT_SECONDS: real := 120.0

  // A batch makes three calls; the retry window holds three of this length.
  const CALM_SECONDS: real := 100.0

  function Shorter(a: real, b: real): real {
    if a <= b then a else b
  }

  function Power2(n: nat): real {
    if n == 0 then 1.0 else 2.0 * Power2(n - 1)
  }

  // ---- The database side ----

  datatype Identity = Identity(database: string, systemIdentifier: string)

  type Tables = map<Identity, Table>

  function TableAt(tables: Tables, server: Identity): Table {
    if server in tables then tables[server] else map[]
  }

  /** A source transaction whose client is gone and which the server has not finished yet. */
  datatype LateTransaction = LateTransaction(server: Identity, rows: seq<SourceRow>)

  datatype Database = Database(tables: Tables, late: seq<LateTransaction>)

  /** What psql reports back; Garbled is a success whose output lacks the expected markers. */
  datatype Reply = Answered | Garbled | ConnectionDropped | RetryableError | OtherError

  /** What became of a transaction whose client lost the connection, timed out, or ended in an error of its own. */
  datatype Fate = Committed | StillRunning | RolledBack

  /** A late transaction, by position, that now commits or rolls back. */
  datatype Settlement = Settlement(position: nat, commits: bool)

  type Duration = s: real | s >= 0.0 witness 0.0

  /** The adversary's choices for one psql call: nothing in them is under the producer's control. */
  datatype Behaviour = Behaviour(
    settled: seq<Settlement>, server: Identity, elapsed: Duration, reply: Reply, fate: Fate, txidGap: nat)

  function CommitSource(tables: Tables, server: Identity, rows: seq<SourceRow>): Tables {
    match SourceTransaction(TableAt(tables, server), rows)
    case None => tables
    case Some(table) => tables[server := table]
  }

  function Settle(db: Database, s: Settlement): Database {
    if s.position >= |db.late| then db
    else
      var z := db.late[s.position];
      Database(if s.commits then CommitSource(db.tables, z.server, z.rows) else db.tables,
               db.late[..s.position] + db.late[s.position + 1..])
  }

  function SettleAll(db: Database, settled: seq<Settlement>): Database
    decreases settled
  {
    if settled == [] then db else SettleAll(Settle(db, settled[0]), settled[1..])
  }

  // ---- How the database may evolve while a run sends only rows of one universe ----

  ghost predicate Within(rows: seq<SourceRow>, universe: seq<SourceRow>) {
    forall row :: row in rows ==> row in universe
  }

  ghost function Servers(late: seq<LateTransaction>): set<Identity> {
    set z | z in late :: z.server
  }

  ghost predicate LateWithin(late: seq<LateTransaction>, universe: seq<SourceRow>) {
    forall z :: z in late ==> Within(z.rows, universe)
  }

  ghost predicate GrownAt(before: Database, after: Database, universe: seq<SourceRow>, server: Identity) {
    && Extends(TableAt(before.tables, server), TableAt(after.tables, server))
    && DrawnFrom(TableAt(before.tables, server), universe, TableAt(after.tables, server))
  }

  /** No stored row is overwritten, nothing but rows of the universe is added, and only on reachable servers. */
  ghost predicate Evolves(before: Database, after: Database, universe: seq<SourceRow>, reach: set<Identity>) {
    && LateWithin(after.late, universe)
    && Servers(after.late) <= Servers(before.late) + reach
    && (forall server :: GrownAt(before, after, universe, server))
    && (forall server :: server !in Servers(before.late) + reach ==>
                           TableAt(after.tables, server) == TableAt(before.tables, server))
  }

  lemma EvolvesRefl(db: Database, universe: seq<SourceRow>, reach: set<Identity>)
    requires LateWithin(db.late, universe)
    ensures Evolves(db, db, universe, reach)
  {
  }

  lemma EvolvesTrans(a: Database, b: Database, c: Database, universe: seq<SourceRow>, reach: set<Identity>)
    requires Evolves(a, b, universe, reach) && Evolves(b, c, universe, reach)
    ensures Evolves(a, c, universe, reach)
  {
    forall server ensures GrownAt(a, c, universe, server) {
      assert GrownAt(a, b, universe, server) && GrownAt(b, c, universe, server);
    }
  }

  lemma EvolvesWider(a: Database, b: Database, universe: seq<SourceRow>, narrow: set<Identity>, wide: set<Identity>)
    requires Evolves(a, b, universe, narrow) && narrow <= wide
    ensures Evolves(a, b, universe, wide)
  {
  }

  lemma EvolvesMore(a: Database, b: Database, c: Database, universe: seq<SourceRow>, narrow: set<Identity>,
                    wide: set<Identity>)
    requires Evolves(a, b, universe, wide) && Evolves(b, c, universe, narrow) && narrow <= wide
    ensures Evolves(a, c, universe, wide)
  {
    EvolvesWider(b, c, universe, narrow, wide);
    EvolvesTrans(a, b, c, universe, wide);
  }

  lemma EvolvesOn(a: Database, b: Database, c: Database, universe: seq<SourceRow>, pinnedBefore: Option<Identity>,
                  pinned: Option<Identity>)
    requires Evolves(a, b, universe, PinnedReach(pinnedBefore)) && Evolves(b, c, universe, PinnedReach(pinned))
    requires pinnedBefore.Some? ==> pinned == pinnedBefore
    ensures Evolves(a, c, universe, PinnedReach(pinned))
  {
    EvolvesWider(a, b, universe, PinnedReach(pinnedBefore), PinnedReach(pinned));
    EvolvesTrans(a, b, c, universe, PinnedReach(pinned));
  }

  lemma CommitEvolves(db: Database, server: Identity, rows: seq<SourceRow>, universe: seq<SourceRow>,
                      reach: set<Identity>)
    requires LateWithin(db.late, universe) && Within(rows, universe) && server in Servers(db.late) + reach
    ensures Evolves(db, db.(tables := CommitSource(db.tables, server, rows)), universe, reach)
  {
    CommitsTheUnion(TableAt(db.tables, server), rows);
    var after := db.(tables := CommitSource(db.tables, server, rows));
    forall other ensures GrownAt(db, after, universe, other) {
    }
  }

  lemma SettleEvolves(db: Database, s: Settlement, universe: seq<SourceRow>, reach: set<Identity>)
    requires LateWithin(db.late, universe)
    ensures Evolves(db, Settle(db, s), universe, reach)
  {
    if s.position < |db.late| {
      var z := db.late[s.position];
      assert z in db.late;
      if s.commits { CommitEvolves(db, z.server, z.rows, universe, reach); }
      var committed := db.(tables := Settle(db, s).tables);
      assert Evolves(db, committed, universe, reach);
      var kept := db.late[..s.position] + db.late[s.position + 1..];
      assert forall y :: y in kept ==> y in db.late;
      forall server ensures GrownAt(db, Settle(db, s), universe, server) {
        assert GrownAt(db, committed, universe, server);
      }
    }
  }

  lemma {:induction false} SettleAllEvolves(db: Database, settled: seq<Settlement>, universe: seq<SourceRow>,
                                            reach: set<Identity>)
    requires LateWithin(db.late, universe)
    ensures Evolves(db, SettleAll(db, settled), universe, reach)
    decreases settled
  {
    if settled != [] {
      SettleEvolves(db, settled[0], universe, reach);
      SettleAllEvolves(Settle(db, settled[0]), settled[1..], universe, reach);
      EvolvesTrans(db, Settle(db, settled[0]), SettleAll(db, settled), universe, reach);
    }
  }

  // ---- The producer ----

  datatype CallResult<+T> = Done(value: T) | ConnectionLost | TransactionRetry | Failed

  /** How one attempt at a batch ends. */
  datatype AttemptResult =
    | Served(source: Receipt, refresh: Receipt)
    | LostConnection
    | MustRetry
    | Broken(identityChanged: bool)

  function Unserved<T>(r: CallResult<T>): AttemptResult
    requires !r.Done?
  {
    match r
    case ConnectionLost => LostConnection
    case TransactionRetry => MustRetry
    case Failed => Broken(false)
  }

  datatype Receipt = Receipt(txid: nat, server: Identity)

  /** One psql process: the server it reached and what it reported; a timeout reads as a dropped connection. */
  datatype Contact = Contact(server: Identity, reply: Reply, fate: Fate, txidGap: nat)

  /** A refresh that ran on the server, with the source table it saw. */
  datatype Refresh = Refresh(server: Identity, seen: Table)

  datatype StopReason =
    | RetryWindowClosed      // DatabaseConnectionLost with no time left
    | RetriesExhausted       // DatabaseTransactionRetry beyond the retry limit
    | MissingService         // line 431 reads an attribute that DatabaseTransactionRetry never sets
    | CallFailed             // any other error of a call
    | IdentityChanged        // the refresh service now leads to another database or cluster
    | Mismatch               // the checks after the retry loop

  /** How the retry loop of a batch ends. */
  datatype RetryResult =
    | Reached(source: Receipt, refresh: Receipt, attempts: nat, retrySleep: real)
    | GaveUp(reason: StopReason, attempts: nat, retrySleep: real)

  /** retrySleep is the time slept for transaction retries. */
  datatype FlushOutcome =
    | Completed(attempts: nat, retrySleep: real)
    | Stopped(reason: StopReason, attempts: nat, retrySleep: real)

  predicate PostRetryMismatch(source: Receipt, refresh: Receipt) {
    || source.server.systemIdentifier != refresh.server.systemIdentifier
    || source.server.database != refresh.server.database
    || source.txid == refresh.txid
  }

  /** Refreshes were added, all on the server. */
  ghost predicate RanOn(before: seq<Refresh>, after: seq<Refresh>, server: Option<Identity>) {
    before <= after && forall i :: |before| <= i < |after| ==> Some(after[i].server) == server
  }

  /** Both histories went on: the database evolved, and refreshes were added on the pinned server. */
  ghost predicate Advances(a: Database, b: Database, before: seq<Refresh>, after: seq<Refresh>,
                           universe: seq<SourceRow>, pinned: Option<Identity>) {
    forall k :: Unfolded(k) ==> Evolves(a, b, universe, PinnedReach(pinned)) && RanOn(before, after, pinned)
  }

  lemma AdvancesRefl(db: Database, refreshes: seq<Refresh>, universe: seq<SourceRow>, pinned: Option<Identity>)
    requires LateWithin(db.late, universe)
    ensures Advances(db, db, refreshes, refreshes, universe, pinned)
  {
    EvolvesRefl(db, universe, PinnedReach(pinned));
  }

  lemma AdvancesOn(a: Database, b: Database, c: Database, x: seq<Refresh>, y: seq<Refresh>, z: seq<Refresh>,
                   universe: seq<SourceRow>, pinnedBefore: Option<Identity>, pinned: Option<Identity>)
    requires Advances(a, b, x, y, universe, pinnedBefore) && (pinnedBefore.Some? ==> pinned == pinnedBefore)
    requires Evolves(b, c, universe, PinnedReach(pinned)) && RanOn(y, z, pinned)
    ensures Advances(a, c, x, z, universe, pinned)
  {
    assert Unfolded(0);
    EvolvesOn(a, b, c, universe, pinnedBefore, pinned);
    RanOnTrans(x, y, z, pinnedBefore, pinned);
  }

  lemma RanOnTrans(a: seq<Refresh>, b: seq<Refresh>, c: seq<Refresh>, pinnedBefore: Option<Identity>,
                   pinned: Option<Identity>)
    requires RanOn(a, b, pinnedBefore) && RanOn(b, c, pinned) && (pinnedBefore.Some? ==> pinned == pinnedBefore)
    ensures RanOn(a, c, pinned)
  {
  }

  /** The refresh at this position ran on the server and saw the rows. */
  ghost predicate CompletedAfter(refreshes: seq<Refresh>, position: nat, server: Option<Identity>,
                                 rows: seq<SourceRow>) {
    && position < |refreshes|
    && Some(refreshes[position].server) == server
    && AllStored(refreshes[position].seen, rows)
  }

  /** How a call ends for the producer: it reads as dropped when no time is left, or when it takes too long. */
  function Hears(b: Behaviour, remaining: real): Reply {
    if remaining <= 0.0 || b.elapsed > remaining || b.elapsed > 120.0 then ConnectionDropped else b.reply
  }

  /** An error that no retry can help: unexpected output, or a failure other than a deadlock. */
  predicate Fatal(heard: Reply) {
    heard == Garbled || heard == OtherError
  }

  /** The time that the call takes. */
  function Takes(b: Behaviour, remaining: real): real {
    if remaining <= 0.0 then 0.0 else Shorter(b.elapsed, Shorter(120.0, remaining))
  }

  /** The call ends in an error that the producer retries. */
  predicate Retried(heard: Reply) {
    heard == ConnectionDropped || heard == RetryableError
  }

  /** The first call of an attempt ended in an error to retry, and so did the attempt. */
  predicate FailedFirst(b: Behaviour, remaining: real, heard: Reply, callsMade: int, time: real) {
    Retried(Hears(b, remaining)) ==>
      heard == Hears(b, remaining) && callsMade == (if remaining > 0.0 then 1 else 0) && time == Takes(b, remaining)
  }

  class Producer {
    const script: nat -> Behaviour
    var db: Database
    var refreshes: seq<Refresh>
    var nextTxid: nat
    var clock: real
    var calls: nat
    var pinned: Option<Identity>
    var batchNumber: nat
    var refreshCalls: nat
    var completions: seq<nat> // the refresh reported by each batch_complete event, by position
    var connectionRetries: nat
    var transactionRetries: nat
    ghost var heard: Reply // how the last call ended for the producer; a call refused for lack of time was dropped
    ghost var fatal: nat   // how many calls ended in a fatal error

    constructor (script: nat -> Behaviour, db: Database, nextTxid: nat, clock: real)
      ensures this.script == script && this.db == db && this.clock == clock && pinned == None && calls == 0
      ensures batchNumber == refreshCalls == connectionRetries == transactionRetries == 0 && completions == []
    {
      this.script := script;
      this.db, this.nextTxid, this.clock := db, nextTxid, clock;
      refreshes, completions, calls, pinned := [], [], 0, None;
      batchNumber, refreshCalls, connectionRetries, transactionRetries := 0, 0, 0, 0;
      heard := ConnectionDropped;
      fatal := 0;
    }

    ghost function LastCall(): Behaviour
      requires calls > 0
      reads this`calls
    {
      script(calls - 1)
    }

    /** Every call is answered, in at most 100 seconds. */
    ghost predicate Calm() {
      forall n :: script(n).reply == Answered && script(n).elapsed <= CALM_SECONDS
    }

    /** One psql process, bounded by the call timeout and by the batch's retry deadline. */
    method Psql(deadline: real, ghost universe: seq<SourceRow>) returns (r: Option<Contact>)
      requires LateWithin(db.late, universe) && clock <= deadline
      modifies this`db, this`clock, this`calls, this`heard, this`fatal
      ensures old(clock) <= clock <= deadline
      ensures Evolves(old(db), db, universe, {})
      ensures old(clock) >= deadline ==>
        r == None && calls == old(calls) && clock == old(clock) && db == old(db)
      ensures old(clock) < deadline ==>
        && calls == old(calls) + 1 && db == SettleAll(old(db), LastCall().settled)
        && r == Some(Contact(LastCall().server, heard, LastCall().fate, LastCall().txidGap))
        && clock == old(clock) + Shorter(LastCall().elapsed, Shorter(120.0, deadline - old(clock)))
      ensures heard == Hears(script(old(calls)), deadline - old(clock))
      ensures fatal == old(fatal) + if Fatal(heard) then 1 else 0
    {
      var timeout := Shorter(PSQL_TIMEOUT_SECONDS, deadline - clock);
      EvolvesRefl(db, universe, {});
      if timeout <= 0.0 {
        heard := ConnectionDropped;
        return None;
      }
      var b := script(calls);
      calls := calls + 1;
      SettleAllEvolves(db, b.settled, universe, {});
      db := SettleAll(db, b.settled);
      clock := clock + Shorter(b.elapsed, timeout);
      var reply := if b.elapsed > timeout then ConnectionDropped else b.reply;
      heard := reply;
      fatal := fatal + if Fatal(reply) then 1 else 0;
      r := Some(Contact(b.server, reply, b.fate, b.txidGap));
    }

    method DatabaseIdentity(deadline: real, ghost universe: seq<SourceRow>) returns (r: CallResult<Identity>)
      requires LateWithin(db.late, universe) && clock <= deadline
      modifies this`db, this`clock, this`calls, this`heard, this`fatal
      ensures old(clock) <= clock <= deadline
      ensures Evolves(old(db), db, universe, {})
      ensures r.Done? ==> calls > 0 && LastCall().server == r.value
      ensures r.Failed? ==> calls > 0 && (LastCall().reply == Garbled || LastCall().reply == OtherError)
      ensures heard == Hears(script(old(calls)), deadline - old(clock))
      ensures fatal == old(fatal) + if Fatal(heard) then 1 else 0
      ensures (r.Done? <==> heard == Answered) && (r.Failed? <==> Fatal(heard))
      ensures (r.TransactionRetry? <==> heard == RetryableError) && (r.ConnectionLost? <==> heard == ConnectionDropped)
      ensures Calm() && old(clock) + CALM_SECONDS <= deadline ==> r.Done? && clock <= old(clock) + CALM_SECONDS
      ensures FailedFirst(script(old(calls)), deadline - old(clock), heard, calls - old(calls), clock - old(clock))
    {
      var contact := Psql(deadline, universe);
      if contact.None? {
        return ConnectionLost;
      }
      match contact.value.reply {
        case Answered => r := Done(contact.value.server);
        case ConnectionDropped => r := ConnectionLost;
        case RetryableError => r := TransactionRetry;
        case _ => r := Failed;
      }
    }

    /** What becomes of a source transaction whose client has gone: psql may be killed after it sent the commit. */
    method Abandon(fate: Fate, expected: Identity, rows: seq<SourceRow>, ghost universe: seq<SourceRow>)
      requires LateWithin(db.late, universe) && Within(rows, universe)
      modifies this`db
      ensures Evolves(old(db), db, universe, {expected})
      ensures fate == RolledBack ==> db == old(db)
      ensures fate == Committed ==> db == old(db).(tables := CommitSource(old(db).tables, expected, rows))
      ensures fate == StillRunning ==> db == old(db).(late := old(db).late + [LateTransaction(expected, rows)])
    {
      match fate {
        case Committed =>
          CommitEvolves(db, expected, rows, universe, {expected});
          db := db.(tables := CommitSource(db.tables, expected, rows));
        case StillRunning =>
          db := db.(late := db.late + [LateTransaction(expected, rows)]);
        case RolledBack =>
          EvolvesRefl(db, universe, {expected});
      }
    }

    /** The source transaction: guarded by the pinned identity, then insert and verify. */
    method SendSource(rows: seq<SourceRow>, expected: Identity, deadline: real, ghost universe: seq<SourceRow>)
      returns (r: CallResult<Receipt>)
      requires LateWithin(db.late, universe) && Within(rows, universe) && clock <= deadline
      modifies this`db, this`clock, this`calls, this`heard, this`fatal, this`nextTxid
      ensures old(clock) <= clock <= deadline && old(nextTxid) <= nextTxid
      ensures Evolves(old(db), db, universe, {expected})
      ensures r.Done? ==> r.value.server == expected && r.value.txid < nextTxid
      ensures r.Done? ==> AllStored(TableAt(db.tables, expected), rows)
      ensures r.Failed? ==> calls > 0 && Breaks(LastCall(), expected, db, rows)
      ensures heard == Hears(script(old(calls)), deadline - old(clock))
      ensures fatal == old(fatal) + if Fatal(heard) then 1 else 0
      ensures (r.Done? ==> heard == Answered) && (Fatal(heard) ==> r.Failed?)
      ensures heard == Answered ==> calls > 0
      ensures heard == Answered ==>
        (r.Done? <==> LastCall().server == expected && Compatible(TableAt(db.tables, expected), rows))
      ensures (r.TransactionRetry? <==> heard == RetryableError) && (r.ConnectionLost? <==> heard == ConnectionDropped)
      ensures Calm() && old(clock) + CALM_SECONDS <= deadline ==>
        (r.Done? || r.Failed?) && clock <= old(clock) + CALM_SECONDS
    {
      var contact := Psql(deadline, universe);
      EvolvesWider(old(db), db, universe, {}, {expected});
      if contact.None? {
        return ConnectionLost;
      }
      ghost var reached := db;
      var c := contact.value;
      var txid := nextTxid + c.txidGap;
      nextTxid := txid + 1;
      var committed := SourceTransaction(TableAt(db.tables, c.server), rows);
      var runs := c.server == expected && committed.Some?;
      CommitsTheUnion(TableAt(db.tables, c.server), rows);
      match c.reply {
        case Answered =>
          if !runs {
            return Failed;
          }
          CommitEvolves(db, expected, rows, universe, {expected});
          db := db.(tables := CommitSource(db.tables, expected, rows));
          r := Done(Receipt(txid, c.server));
        case Garbled =>
          r := Failed;
          if runs {
            CommitEvolves(db, expected, rows, universe, {expected});
            db := db.(tables := CommitSource(db.tables, expected, rows));
          } else {
            EvolvesRefl(db, universe, {expected});
          }
        case ConnectionDropped =>
          r := ConnectionLost;
          Abandon(if runs then c.fate else RolledBack, expected, rows, universe);
        case RetryableError =>
          r := TransactionRetry;
          EvolvesRefl(db, universe, {expected});
        case OtherError =>
          r := Failed;
          Abandon(if runs then c.fate else RolledBack, expected, rows, universe);
      }
      EvolvesTrans(old(db), reached, db, universe, {expected});
    }

    /** The refresh transaction: guarded the same way; it sees the source table as it then is. */
    method SendRefresh(expected: Identity, deadline: real, ghost universe: seq<SourceRow>)
      returns (r: CallResult<Receipt>)
      requires LateWithin(db.late, universe) && clock <= deadline
      modifies this`db, this`clock, this`calls, this`heard, this`fatal, this`nextTxid, this`refreshes
      ensures old(clock) <= clock <= deadline
      ensures Evolves(old(db), db, universe, {})
      ensures RanOn(old(refreshes), refreshes, Some(expected))
      ensures r.Done? ==> r.value.server == expected && r.value.txid >= old(nextTxid)
      ensures r.Done? ==> refreshes != [] &&
                          refreshes[|refreshes| - 1] == Refresh(expected, TableAt(db.tables, expected))
      ensures r.Failed? ==> calls > 0 && Breaks(LastCall(), expected, db, [])
      ensures heard == Hears(script(old(calls)), deadline - old(clock))
      ensures fatal == old(fatal) + if Fatal(heard) then 1 else 0
      ensures (r.Done? ==> heard == Answered) && (Fatal(heard) ==> r.Failed?)
      ensures heard == Answered ==> calls > 0
      ensures heard == Answered ==> (r.Done? <==> LastCall().server == expected)
      ensures (r.TransactionRetry? <==> heard == RetryableError) && (r.ConnectionLost? <==> heard == ConnectionDropped)
      ensures Calm() && old(clock) + CALM_SECONDS <= deadline ==> r.Done? || r.Failed?
    {
      var contact := Psql(deadline, universe);
      if contact.None? {
        return ConnectionLost;
      }
      var c := contact.value;
      var txid := nextTxid + c.txidGap;
      nextTxid := txid + 1;
      var ran := c.server == expected &&
        (c.reply == Answered || c.reply == Garbled
         || ((c.reply == ConnectionDropped || c.reply == OtherError) && c.fate != RolledBack));
      if ran {
        refreshes := refreshes + [Refresh(expected, TableAt(db.tables, expected))];
      }
      match c.reply {
        case Answered => r := if ran then Done(Receipt(txid, c.server)) else Failed;
        case ConnectionDropped => r := ConnectionLost;
        case RetryableError => r := TransactionRetry;
        case _ => r := Failed;
      }
    }

    /** Pins the identity that the first answer reports, and checks every later one against it. */
    method PinIdentity(deadline: real, ghost universe: seq<SourceRow>) returns (failure: Option<AttemptResult>)
      requires LateWithin(db.late, universe) && clock <= deadline
      modifies this`db, this`clock, this`calls, this`heard, this`fatal, this`pinned
      ensures old(clock) <= clock <= deadline
      ensures old(pinned).Some? ==> pinned == old(pinned)
      ensures Evolves(old(db), db, universe, PinnedReach(pinned))
      ensures failure.None? ==> pinned.Some? && calls > 0 && LastCall().server == pinned.value
      ensures failure.Some? ==> !failure.value.Served?
      ensures failure == Some(MustRetry) <==> heard == RetryableError
      ensures failure == Some(LostConnection) <==> heard == ConnectionDropped
      ensures failure == Some(Broken(false)) <==> Fatal(heard)
      ensures fatal == old(fatal) + if Fatal(heard) then 1 else 0
      ensures heard == Answered ==> calls > 0
      ensures heard == Answered ==> (failure.None? <==> old(pinned) == None || old(pinned) == Some(LastCall().server))
      ensures FailedFirst(script(old(calls)), deadline - old(clock), heard, calls - old(calls), clock - old(clock))
      ensures failure.Some? && failure.value.Broken? ==>
        calls > 0 && FailureExplained(LastCall(), pinned, failure.value.identityChanged, db, [])
      ensures Calm() && old(clock) + CALM_SECONDS <= deadline ==>
        (failure.Some? ==> failure.value.Broken?) && clock <= old(clock) + CALM_SECONDS
    {
      var observed := DatabaseIdentity(deadline, universe);
      EvolvesWider(old(db), db, universe, {}, PinnedReach(pinned));
      if !observed.Done? {
        return Some(Unserved(observed));
      }
      if pinned == None {
        pinned := Some(observed.value);
        EvolvesWider(old(db), db, universe, {}, PinnedReach(pinned));
      } else if pinned != Some(observed.value) {
        return Some(Broken(true));
      }
      failure := None;
    }

    /** Write the source rows and refresh, both on the pinned server. */
    method Deliver(rows: seq<SourceRow>, deadline: real, ghost universe: seq<SourceRow>) returns (r: AttemptResult)
      requires LateWithin(db.late, universe) && Within(rows, universe) && clock <= deadline && pinned.Some?
      modifies this`db, this`clock, this`calls, this`heard, this`fatal, this`nextTxid, this`refreshes
      ensures old(clock) <= clock <= deadline
      ensures Evolves(old(db), db, universe, PinnedReach(pinned))
      ensures RanOn(old(refreshes), refreshes, pinned)
      ensures r.Served? ==> Delivered(rows) && !PostRetryMismatch(r.source, r.refresh)
      ensures Calm() && old(clock) + 2.0 * CALM_SECONDS <= deadline ==> r.Served? || r.Broken?
      ensures (r.MustRetry? <==> heard == RetryableError) && (r.LostConnection? <==> heard == ConnectionDropped)
      ensures (r.Served? ==> heard == Answered) && (Fatal(heard) ==> r == Broken(false))
      ensures fatal == old(fatal) + if Fatal(heard) then 1 else 0
      ensures r.Broken? ==> calls > 0 && r == Broken(false) && Breaks(LastCall(), pinned.value, db, rows)
    {
      var expected := pinned.value;
      ghost var reach := PinnedReach(pinned);
      ghost var atSource := db;
      var source := SendSource(rows, expected, deadline, universe);
      EvolvesTrans(old(db), atSource, db, universe, reach);
      if !source.Done? {
        return Unserved(source);
      }
      ghost var atRefresh := db;
      var refresh := SendRefresh(expected, deadline, universe);
      EvolvesMore(old(db), atRefresh, db, universe, {}, reach);
      if !refresh.Done? {
        return Unserved(refresh);
      }
      StillStored(atRefresh, db, universe, reach, expected, rows);
      r := Served(source.value, refresh.value);
    }

    /** One attempt: pin or check the identity, write the source rows, refresh. */
    method Attempt(rows: seq<SourceRow>, deadline: real, ghost universe: seq<SourceRow>)
      returns (r: AttemptResult)
      requires LateWithin(db.late, universe) && Within(rows, universe) && clock <= deadline
      modifies this`db, this`clock, this`calls, this`heard, this`fatal, this`nextTxid, this`refreshes, this`pinned
      ensures old(clock) <= clock <= deadline
      ensures old(pinned).Some? ==> pinned == old(pinned)
      ensures Evolves(old(db), db, universe, PinnedReach(pinned))
      ensures RanOn(old(refreshes), refreshes, pinned)
      ensures r.Served? ==> pinned.Some? && Delivered(rows) && !PostRetryMismatch(r.source, r.refresh)
      ensures Calm() && old(clock) + 3.0 * CALM_SECONDS <= deadline ==> r.Served? || r.Broken?
      ensures (r.MustRetry? <==> heard == RetryableError) && (r.LostConnection? <==> heard == ConnectionDropped)
      ensures (r.Served? ==> heard == Answered) && (Fatal(heard) ==> r == Broken(false))
      ensures fatal == old(fatal) + if Fatal(heard) then 1 else 0
      ensures FailedFirst(script(old(calls)), deadline - old(clock), heard, calls - old(calls), clock - old(clock))
      ensures r.Broken? ==> calls > 0 && FailureExplained(LastCall(), pinned, r.identityChanged, db, rows)
    {
      var failure := PinIdentity(deadline, universe);
      if failure.Some? {
        return failure.value;
      }
      ghost var atIdentity := db;
      r := Deliver(rows, deadline, universe);
      EvolvesTrans(old(db), atIdentity, db, universe, PinnedReach(pinned));
    }

    /** The rows are stored on the pinned server and the latest refresh saw them there. */
    ghost predicate Delivered(rows: seq<SourceRow>)
      reads this`pinned, this`refreshes, this`db
    {
      && pinned.Some? && refreshes != []
      && refreshes[|refreshes| - 1] == Refresh(pinned.value, TableAt(db.tables, pinned.value))
      && AllStored(TableAt(db.tables, pinned.value), rows)
    }

    /** One attempt within a retry loop that began at this database and these refreshes. */
    method AttemptAgain(rows: seq<SourceRow>, deadline: real, ghost universe: seq<SourceRow>,
                        ghost start: Database, ghost ran: seq<Refresh>)
      returns (r: AttemptResult)
      requires LateWithin(db.late, universe) && Within(rows, universe) && clock <= deadline
      requires Advances(start, db, ran, refreshes, universe, pinned)
      modifies this`db, this`clock, this`calls, this`heard, this`fatal, this`nextTxid, this`refreshes, this`pinned
      ensures old(clock) <= clock <= deadline
      ensures old(pinned).Some? ==> pinned == old(pinned)
      ensures LateWithin(db.late, universe) && Advances(start, db, ran, refreshes, universe, pinned)
      ensures r.Served? ==> Delivered(rows) && !PostRetryMismatch(r.source, r.refresh)
      ensures Calm() && old(clock) + 3.0 * CALM_SECONDS <= deadline ==> r.Served? || r.Broken?
      ensures (r.MustRetry? <==> heard == RetryableError) && (r.LostConnection? <==> heard == ConnectionDropped)
      ensures (r.Served? ==> heard == Answered) && (Fatal(heard) ==> r == Broken(false))
      ensures fatal == old(fatal) + if Fatal(heard) then 1 else 0
      ensures FailedFirst(script(old(calls)), deadline - old(clock), heard, calls - old(calls), clock - old(clock))
      ensures r.Broken? ==> calls > 0 && FailureExplained(LastCall(), pinned, r.identityChanged, db, rows)
    {
      r := Attempt(rows, deadline, universe);
      AdvancesOn(start, old(db), db, ran, old(refreshes), refreshes, universe, old(pinned), pinned);
    }

    /** An attempt, and what the retry loop does after it. */
    method AttemptAndSleep(rows: seq<SourceRow>, deadline: real, ghost universe: seq<SourceRow>,
                           retryAttempt: nat, transactionRetryAttempt: nat, retrySleep: real,
                           ghost start: Database, ghost ran: seq<Refresh>, ghost end: Option<Foreseen>)
      returns (next: Decision)
      requires LateWithin(db.late, universe) && Within(rows, universe) && clock <= deadline
      requires Advances(start, db, ran, refreshes, universe, pinned)
      requires retryAttempt <= 300 && transactionRetryAttempt <= MAX_TRANSACTION_RETRIES
      requires 0.0 <= retrySleep <= BackoffTotal(transactionRetryAttempt)
      modifies this`db, this`clock, this`calls, this`heard, this`fatal, this`nextTxid, this`refreshes, this`pinned
      modifies this`connectionRetries, this`transactionRetries
      ensures old(clock) <= clock <= deadline
      ensures old(pinned).Some? ==> pinned == old(pinned)
      ensures LateWithin(db.late, universe) && Advances(start, db, ran, refreshes, universe, pinned)
      ensures connectionRetries == old(connectionRetries) + if next.SleepForConnection? then 1 else 0
      ensures transactionRetries == old(transactionRetries) + if next.SleepForTransaction? then 1 else 0
      ensures next.End? ==> EndsFor(next.result, retryAttempt, transactionRetryAttempt, clock == deadline, heard)
      ensures fatal == old(fatal) + if next.End? && Fatal(heard) then 1 else 0
      ensures next.End? && next.result.Reached? ==>
        Delivered(rows) && !PostRetryMismatch(next.result.source, next.result.refresh)
      ensures next.End? && IsFinal(next.result) ==>
        calls > 0 && FailureExplained(LastCall(), pinned, next.result.reason == IdentityChanged, db, rows)
      ensures next.SleepForConnection? ==> old(clock) < deadline && (clock < deadline ==> clock >= old(clock) + 1.0)
      ensures next.End? ==> next.result.retrySleep == retrySleep
      ensures next.SleepForTransaction? ==> transactionRetryAttempt < MAX_TRANSACTION_RETRIES
      ensures next.SleepForTransaction? ==>
        next.delay >= 0.0 && retrySleep + next.delay <= BackoffTotal(transactionRetryAttempt + 1)
      ensures Calm() && old(clock) + 3.0 * CALM_SECONDS <= deadline ==> next.End?
      ensures Calm() && old(clock) + 3.0 * CALM_SECONDS <= deadline && next.End? ==>
        next.result.Reached? || IsFinal(next.result)
      ensures HeadsFor(script, old(calls), retryAttempt, transactionRetryAttempt, deadline - old(clock), end) ==>
        match next
        case End(r) => r.GaveUp? && end == Some(Foreseen(r.reason, r.attempts))
        case SleepForConnection(_) =>
          HeadsFor(script, calls, retryAttempt + 1, transactionRetryAttempt, deadline - clock, end)
        case SleepForTransaction(_) =>
          HeadsFor(script, calls, retryAttempt, transactionRetryAttempt + 1, deadline - clock, end)
    {
      var result := AttemptAgain(rows, deadline, universe, start, ran);
      if HeadsFor(script, old(calls), retryAttempt, transactionRetryAttempt, deadline - old(clock), end) {
        DecideAsForetold(script, old(calls), retryAttempt, transactionRetryAttempt, retrySleep,
                         deadline - old(clock), end, result, heard, calls, clock - old(clock));
      }
      next := Decide(result, retryAttempt, transactionRetryAttempt, retrySleep, deadline - clock);
      DecideFacts(result, retryAttempt, transactionRetryAttempt, retrySleep, deadline - clock, heard);
      match next {
        case End(_) =>
        case SleepForConnection(delay) =>
          connectionRetries := connectionRetries + 1;
          clock := clock + delay;
        case SleepForTransaction(delay) =>
          transactionRetries := transactionRetries + 1;
          clock := clock + delay;
      }
    }

    /** Attempt the batch until it is served, the window closes, or an error is final. */
    method Retry(rows: seq<SourceRow>, deadline: real, ghost universe: seq<SourceRow>) returns (r: RetryResult)
      requires LateWithin(db.late, universe) && Within(rows, universe) && deadline == clock + MAX_BATCH_RETRY_SECONDS
      modifies this`db, this`clock, this`calls, this`heard, this`fatal, this`nextTxid, this`refreshes, this`pinned
      modifies this`connectionRetries, this`transactionRetries
      ensures old(clock) <= clock <= deadline
      ensures old(pinned).Some? ==> pinned == old(pinned)
      ensures Advances(old(db), db, old(refreshes), refreshes, universe, pinned)
      ensures r.Reached? ==> Delivered(rows) && !PostRetryMismatch(r.source, r.refresh)
      ensures EndsFor(r, connectionRetries - old(connectionRetries), transactionRetries - old(transactionRetries),
                      clock == deadline, heard)
      ensures fatal == old(fatal) + if Fatal(heard) then 1 else 0
      ensures Calm() && r.GaveUp? ==> r.reason == CallFailed || r.reason == IdentityChanged
      ensures var end := Foretold(script, old(calls), 0, 0, MAX_BATCH_RETRY_SECONDS);
              end.Some? ==> r.GaveUp? && end == Some(Foreseen(r.reason, r.attempts))
      ensures r.GaveUp? && (r.reason == CallFailed || r.reason == IdentityChanged) ==>
        calls > 0 && FailureExplained(LastCall(), pinned, r.reason == IdentityChanged, db, rows)
    {
      ghost var start, end := clock, Foretold(script, calls, 0, 0, MAX_BATCH_RETRY_SECONDS);
      var retryAttempt, transactionRetryAttempt := 0, 0;
      var retrySleep := 0.0;
      AdvancesRefl(db, refreshes, universe, pinned);
      while true
        invariant start <= clock <= deadline == start + MAX_BATCH_RETRY_SECONDS
        invariant Calm() ==> clock == start
        invariant fatal == old(fatal)
        invariant retryAttempt <= 300 && connectionRetries == old(connectionRetries) + retryAttempt
        invariant clock < deadline ==> retryAttempt as real <= clock - start
        invariant transactionRetryAttempt <= MAX_TRANSACTION_RETRIES
        invariant transactionRetries == old(transactionRetries) + transactionRetryAttempt
        invariant 0.0 <= retrySleep <= BackoffTotal(transactionRetryAttempt)
        invariant end.Some? ==>
          HeadsFor(script, calls, retryAttempt, transactionRetryAttempt, deadline - clock, end)
        invariant old(pinned).Some? ==> pinned == old(pinned)
        invariant LateWithin(db.late, universe)
        invariant Advances(old(db), db, old(refreshes), refreshes, universe, pinned)
        decreases 300 - retryAttempt + MAX_TRANSACTION_RETRIES - transactionRetryAttempt
      {
        var next := AttemptAndSleep(rows, deadline, universe, retryAttempt, transactionRetryAttempt, retrySleep,
                                    old(db), old(refreshes), end);
        match next {
          case End(ended) =>
            return ended;
          case SleepForConnection(_) =>
            retryAttempt := retryAttempt + 1;
          case SleepForTransaction(delay) =>
            transactionRetryAttempt := transactionRetryAttempt + 1;
            retrySleep := retrySleep + delay;
        }
      }
    }

    /** One batch: number it, retry it, check the receipts, and report it. */
    method Flush(rows: seq<SourceRow>, ghost universe: seq<SourceRow>) returns (outcome: FlushOutcome)
      requires LateWithin(db.late, universe) && Within(rows, universe)
      modifies this
      ensures old(clock) <= clock <= old(clock) + MAX_BATCH_RETRY_SECONDS
      ensures batchNumber == old(batchNumber) + 1
      ensures 0 <= connectionRetries - old(connectionRetries) <= 300
      ensures 0 <= transactionRetries - old(transactionRetries) <= MAX_TRANSACTION_RETRIES
      ensures old(pinned).Some? ==> pinned == old(pinned)
      ensures Evolves(old(db), db, universe, PinnedReach(pinned))
      ensures RanOn(old(refreshes), refreshes, pinned)
      ensures outcome.attempts == 1 + connectionRetries - old(connectionRetries)
        + transactionRetries - old(transactionRetries)
      ensures outcome.attempts <= 305 && 0.0 <= outcome.retrySleep <= 1.5
      ensures outcome.Completed? ==> Delivered(rows) && heard == Answered
      ensures Fatal(heard) ==> outcome.Stopped? && outcome.reason == CallFailed
      ensures fatal == old(fatal) + if Fatal(heard) then 1 else 0
      ensures outcome.Completed? ==>
        refreshCalls == old(refreshCalls) + 1 && completions == old(completions) + [|refreshes| - 1]
      ensures outcome.Stopped? ==> refreshCalls == old(refreshCalls) && completions == old(completions)
      ensures outcome.Stopped? ==> outcome.reason != Mismatch
      ensures Calm() && outcome.Stopped? ==> outcome.reason == CallFailed || outcome.reason == IdentityChanged
      ensures outcome.Stopped? && outcome.reason == RetryWindowClosed ==>
        clock == old(clock) + MAX_BATCH_RETRY_SECONDS && heard == ConnectionDropped
      ensures outcome.Stopped? && outcome.reason == RetriesExhausted ==>
        heard == RetryableError && transactionRetries == old(transactionRetries) + MAX_TRANSACTION_RETRIES
      ensures outcome.Stopped? && outcome.reason == MissingService <==>
        && heard == RetryableError && transactionRetries < old(transactionRetries) + MAX_TRANSACTION_RETRIES
        && clock == old(clock) + MAX_BATCH_RETRY_SECONDS
      ensures var end := Foretold(script, old(calls), 0, 0, MAX_BATCH_RETRY_SECONDS);
              end.Some? ==> outcome.Stopped? && end == Some(Foreseen(outcome.reason, outcome.attempts))
      ensures outcome.Stopped? && (outcome.reason == CallFailed || outcome.reason == IdentityChanged) ==>
        calls > 0 && FailureExplained(LastCall(), pinned, outcome.reason == IdentityChanged, db, rows)
    {
      batchNumber := batchNumber + 1;
      var retried := Retry(rows, clock + MAX_BATCH_RETRY_SECONDS, universe);
      assert Unfolded(0);
      if retried.GaveUp? {
        return Stopped(retried.reason, retried.attempts, retried.retrySleep);
      }
      outcome := Stopped(Mismatch, retried.attempts, retried.retrySleep);
      if !PostRetryMismatch(retried.source, retried.refresh) {
        refreshCalls := refreshCalls + 1;
        completions := completions + [|refreshes| - 1];
        outcome := Completed(retried.attempts, retried.retrySleep);
      }
    }

    /** The batches of a run in order, stopping at the first that does not complete. */
    method RunBatches(batches: seq<seq<SourceRow>>) returns (outcome: Option<StopReason>)
      requires pinned == None && completions == [] && LateWithin(db.late, Flatten(batches))
      modifies this
      ensures Evolves(old(db), db, Flatten(batches), PinnedReach(pinned))
      ensures RanOn(old(refreshes), refreshes, pinned)
      ensures outcome.None? ==>
        batchNumber == old(batchNumber) + |batches| && refreshCalls == old(refreshCalls) + |batches|
      ensures outcome.None? && batches != [] ==> Delivered(Flatten(batches))
      ensures outcome.None? && batches != [] ==>
        SourceTransaction(TableAt(old(db).tables, pinned.value), Flatten(batches))
          == Some(TableAt(db.tables, pinned.value))
      ensures outcome.None? && batches != [] ==> Compatible(TableAt(old(db).tables, pinned.value), Flatten(batches))
      ensures outcome.None? ==> |completions| == |batches|
      ensures |completions| <= |batches|
      ensures forall k :: 0 <= k < |completions| ==>
        CompletedAfter(refreshes, completions[k], pinned, Flatten(batches[..k + 1]))
      ensures outcome != Some(Mismatch)
      ensures outcome.None? ==> fatal == old(fatal)
      ensures fatal <= old(fatal) + 1 && (fatal > old(fatal) ==> outcome == Some(CallFailed) && Fatal(heard))
      ensures Calm() && outcome.Some? ==> outcome.value == CallFailed || outcome.value == IdentityChanged
      ensures outcome == Some(CallFailed) || outcome == Some(IdentityChanged) ==>
        calls > 0 && FailureExplained(LastCall(), pinned, outcome == Some(IdentityChanged), old(db), Flatten(batches))
    {
      ghost var universe := Flatten(batches);
      ghost var reach := PinnedReach(pinned);
      EvolvesRefl(db, universe, reach);
      for k := 0 to |batches|
        invariant Evolves(old(db), db, universe, PinnedReach(pinned))
        invariant RanOn(old(refreshes), refreshes, pinned)
        invariant batchNumber == old(batchNumber) + k && refreshCalls == old(refreshCalls) + k
        invariant fatal == old(fatal)
        invariant k > 0 ==> Delivered(Flatten(batches[..k]))
        invariant |completions| == k
        invariant forall j :: 0 <= j < k ==>
          CompletedAfter(refreshes, completions[j], pinned, Flatten(batches[..j + 1]))
      {
        ghost var before, pinnedBefore, sent := db, pinned, Flatten(batches[..k]);
        FlattenHolds(batches, k);
        var flushed := Flush(batches[k], universe);
        EvolvesOn(old(db), before, db, universe, pinnedBefore, pinned);
        if flushed.Stopped? {
          if flushed.reason == CallFailed || flushed.reason == IdentityChanged {
            StopIsExplained(LastCall(), pinned, flushed.reason == IdentityChanged, old(db), db, universe, batches[k]);
          }
          return Some(flushed.reason);
        }
        if k > 0 {
          StillStored(before, db, universe, PinnedReach(pinned), pinned.value, sent);
        }
        assert batches[..k + 1][..k] == batches[..k];
        AllStoredConcat(TableAt(db.tables, pinned.value), sent, batches[k]);
      }
      assert batches[..|batches|] == batches;
      if batches != [] {
        assert GrownAt(old(db), db, universe, pinned.value);
        UnionIsCommitted(TableAt(old(db).tables, pinned.value), universe, TableAt(db.tables, pinned.value));
        CommitsTheUnion(TableAt(old(db).tables, pinned.value), universe);
      }
      outcome := None;
    }
  }

  ghost function PinnedReach(pinned: Option<Identity>): set<Identity> {
    if pinned.Some? then {pinned.value} else {}
  }

  /** A call that cannot succeed: an error, the wrong server, or rows at odds with the table or each other. */
  ghost predicate Breaks(b: Behaviour, expected: Identity, db: Database, rows: seq<SourceRow>) {
    || b.reply == Garbled || b.reply == OtherError
    || (b.reply == Answered && (b.server != expected || !Compatible(TableAt(db.tables, expected), rows)))
  }

  /** Why an attempt failed for good, in terms of the last call. */
  ghost predicate FailureExplained(b: Behaviour, pinned: Option<Identity>, identityChanged: bool, db: Database,
                                   rows: seq<SourceRow>) {
    if identityChanged then pinned.Some? && b.server != pinned.value
    else b.reply == Garbled || b.reply == OtherError || (pinned.Some? && Breaks(b, pinned.value, db, rows))
  }

  /** Rows that conflict with what the run has stored conflict with the initial table or with the input. */
  lemma BrokenFromTheStart(b: Behaviour, expected: Identity, before: Database, after: Database,
                           universe: seq<SourceRow>, reach: set<Identity>, rows: seq<SourceRow>)
    requires Evolves(before, after, universe, reach) && Within(rows, universe) && Breaks(b, expected, after, rows)
    ensures Breaks(b, expected, before, universe)
  {
    var earlier, later := TableAt(before.tables, expected), TableAt(after.tables, expected);
    if Compatible(earlier, universe) {
      assert GrownAt(before, after, universe, expected);
      RestartPreservesMeaning(earlier, universe, later);
      CommitsTheUnion(earlier, universe);
      CommitsTheUnion(later, universe);
      CompatibleSome(later, universe, rows);
    }
  }

  /** So the input explains the stop of a run. */
  lemma StopIsExplained(b: Behaviour, pinned: Option<Identity>, identityChanged: bool, before: Database,
                        after: Database, universe: seq<SourceRow>, rows: seq<SourceRow>)
    requires Evolves(before, after, universe, PinnedReach(pinned)) && Within(rows, universe)
    requires FailureExplained(b, pinned, identityChanged, after, rows)
    ensures FailureExplained(b, pinned, identityChanged, before, universe)
  {
    if pinned.Some? && Breaks(b, pinned.value, after, rows) {
      BrokenFromTheStart(b, pinned.value, before, after, universe, PinnedReach(pinned), rows);
    }
  }

  lemma CompatibleSome(table: Table, universe: seq<SourceRow>, rows: seq<SourceRow>)
    requires Compatible(table, universe) && Within(rows, universe)
    ensures Compatible(table, rows)
  {
    forall i | 0 <= i < |rows| ensures exists k :: 0 <= k < |universe| && universe[k] == rows[i] {
      assert rows[i] in rows;
    }
    forall i, j | 0 <= i < j < |rows| && rows[i].key == rows[j].key ensures rows[i].values == rows[j].values {
      assert rows[i] in universe && rows[j] in universe;
      var k, l :| 0 <= k < |universe| && 0 <= l < |universe| && universe[k] == rows[i] && universe[l] == rows[j];
      if k < l { assert universe[k].values == universe[l].values; }
      if l < k { assert universe[l].values == universe[k].values; }
    }
  }

  lemma StillStored(before: Database, after: Database, universe: seq<SourceRow>, reach: set<Identity>, server: Identity,
                    rows: seq<SourceRow>)
    requires Evolves(before, after, universe, reach) && AllStored(TableAt(before.tables, server), rows)
    ensures AllStored(TableAt(after.tables, server), rows)
  {
    assert GrownAt(before, after, universe, server);
  }

  /** Once every row of the universe is stored, whatever late transactions still do changes no table there. */
  lemma {:induction false} LateTransactionsAreHarmless(db: Database, settled: seq<Settlement>, universe: seq<SourceRow>,
                                                       server: Identity)
    requires LateWithin(db.late, universe) && AllStored(TableAt(db.tables, server), universe)
    ensures TableAt(SettleAll(db, settled).tables, server) == TableAt(db.tables, server)
    decreases settled
  {
    if settled != [] {
      var s := settled[0];
      SettleEvolves(db, s, universe, {});
      if s.position < |db.late| && db.late[s.position].server == server {
        var z := db.late[s.position];
        assert z in db.late;
        forall i | 0 <= i < |z.rows| ensures Stored(TableAt(db.tables, server), z.rows[i]) {
          assert z.rows[i] in universe;
        }
        ReplayIsIdempotent(TableAt(db.tables, server), z.rows);
      }
      LateTransactionsAreHarmless(Settle(db, s), settled[1..], universe, server);
    }
  }

  lemma AllStoredConcat(table: Table, a: seq<SourceRow>, b: seq<SourceRow>)
    requires AllStored(table, a) && AllStored(table, b)
    ensures AllStored(table, a + b)
  {
  }

  lemma {:induction false} FlattenHolds<T>(parts: seq<seq<T>>, k: nat)
    requires k < |parts|
    ensures forall x :: x in parts[k] ==> x in Flatten(parts)
  {
    if k < |parts| - 1 {
      FlattenHolds(parts[..|parts| - 1], k);
    }
  }

  // ---- After an attempt ----

  datatype Decision = End(result: RetryResult) | SleepForConnection(delay: real) | SleepForTransaction(delay: real)

  /** What the retry loop does after an attempt, by the exception that the attempt ended in. */
  function Decide(result: AttemptResult, retries: nat, transactionRetries: nat, slept: real,
                  remaining: real): Decision {
    var attempts := 1 + retries + transactionRetries;
    match result
    case Served(source, refresh) => End(Reached(source, refresh, attempts, slept))
    case LostConnection =>
      if remaining <= 0.0 then End(GaveUp(RetryWindowClosed, attempts, slept))
      else SleepForConnection(Shorter(CONNECTION_RETRY_INTERVAL_SECONDS, remaining))
    case MustRetry =>
      if transactionRetries >= MAX_TRANSACTION_RETRIES then End(GaveUp(RetriesExhausted, attempts, slept))
      else if remaining <= 0.0 then End(GaveUp(MissingService, attempts, slept))
      else SleepForTransaction(Shorter(Backoff(transactionRetries + 1), remaining))
    case Broken(identityChanged) => End(GaveUp(if identityChanged then IdentityChanged else CallFailed, attempts,
                                               slept))
  }

  /** The batch ended in an error that no retry can help. */
  predicate IsFinal(r: RetryResult) {
    r.GaveUp? && (r.reason == CallFailed || r.reason == IdentityChanged)
  }

  /** How a batch may end: its attempts counted, its sleep bounded, and each reason to give up with its cause. */
  predicate EndsFor(r: RetryResult, retries: int, transactionRetries: int, late: bool, heard: Reply) {
    && 0 <= retries <= 300 && 0 <= transactionRetries <= MAX_TRANSACTION_RETRIES
    && r.attempts == 1 + retries + transactionRetries && 0.0 <= r.retrySleep <= 1.5
    && (r.GaveUp? ==> r.reason != Mismatch)
    && (r.Reached? ==> heard == Answered)
    && (Fatal(heard) ==> r.GaveUp? && r.reason == CallFailed)
    && (r.GaveUp? && (r.reason == CallFailed || r.reason == IdentityChanged) ==> Fatal(heard) || heard == Answered)
    && (r.GaveUp? && r.reason == RetryWindowClosed <==> heard == ConnectionDropped)
    && (r.GaveUp? && r.reason == RetryWindowClosed ==> late)
    && (r.GaveUp? && r.reason == RetriesExhausted <==>
          heard == RetryableError && transactionRetries == MAX_TRANSACTION_RETRIES)
    && (r.GaveUp? && r.reason == MissingService <==>
        heard == RetryableError && transactionRetries < MAX_TRANSACTION_RETRIES && late)
  }

  lemma DecideFacts(result: AttemptResult, retries: nat, transactionRetries: nat, slept: real, remaining: real,
                    heard: Reply)
    requires retries <= 300 && transactionRetries <= MAX_TRANSACTION_RETRIES
    requires 0.0 <= slept <= BackoffTotal(transactionRetries) && remaining >= 0.0
    requires (result.Served? ==> heard == Answered) && (Fatal(heard) ==> result == Broken(false))
    requires (result.MustRetry? <==> heard == RetryableError)
    requires (result.LostConnection? <==> heard == ConnectionDropped)
    ensures match Decide(result, retries, transactionRetries, slept, remaining)
            case End(r) => EndsFor(r, retries, transactionRetries, remaining == 0.0, heard)
            case SleepForConnection(delay) => 0.0 < delay <= remaining && (delay < 1.0 ==> delay == remaining)
            case SleepForTransaction(delay) =>
              0.0 < delay <= remaining && slept + delay <= BackoffTotal(transactionRetries + 1)
  {
    BackoffBound(transactionRetries);
  }

  // ---- Backoff ----

  /** The delay after the n-th transaction retry, before the retry window cuts it. */
  function Backoff(n: nat): (delay: real)
    requires n > 0
    ensures 0.0 < delay <= TRANSACTION_RETRY_MAX_SECONDS && BackoffTotal(n - 1) + delay <= BackoffTotal(n)
  {
    PowerPositive(n - 1);
    Shorter(TRANSACTION_RETRY_BASE_SECONDS * Power2(n - 1), TRANSACTION_RETRY_MAX_SECONDS)
  }

  /** The first n transaction-retry delays, uncapped. */
  function BackoffTotal(n: nat): real {
    if n == 0 then 0.0 else BackoffTotal(n - 1) + TRANSACTION_RETRY_BASE_SECONDS * Power2(n - 1)
  }

  /** How the retry loop will end, after how many attempts. */
  datatype Foreseen = Foreseen(reason: StopReason, attempts: nat)

  /** The end of the retry loop if the first call of every attempt from now on ends in an error to retry; None if one
      does not. */
  ghost function Foretold(script: nat -> Behaviour, calls: nat, retries: nat, transactionRetries: nat, remaining: real)
    : Option<Foreseen>
    decreases 301 - retries + 5 - transactionRetries
  {
    var heard, left := Hears(script(calls), remaining), remaining - Takes(script(calls), remaining);
    var next, attempts := calls + (if remaining > 0.0 then 1 else 0), 1 + retries + transactionRetries;
    if retries > 300 || transactionRetries > 4 then None
    else if heard == ConnectionDropped then
      if left <= 0.0 then Some(Foreseen(RetryWindowClosed, attempts))
      else Foretold(script, next, retries + 1, transactionRetries, left - Shorter(1.0, left))
    else if heard == RetryableError then
      if transactionRetries == 4 then Some(Foreseen(RetriesExhausted, attempts))
      else if left <= 0.0 then Some(Foreseen(MissingService, attempts))
      else
        Foretold(script, next, retries, transactionRetries + 1, left - Shorter(Backoff(transactionRetries + 1), left))
    else None
  }

  /** The calls from here on lead to this end. */
  ghost predicate HeadsFor(script: nat -> Behaviour, calls: nat, retries: nat, transactionRetries: nat, remaining: real,
                           end: Option<Foreseen>) {
    forall k :: Unfolded(k) ==> end.Some? && Foretold(script, calls, retries, transactionRetries, remaining) == end
  }

  /** What the next attempt must find on the way to that end. */
  lemma HeadsOn(script: nat -> Behaviour, calls: nat, retries: nat, transactionRetries: nat, remaining: real,
                end: Option<Foreseen>)
    requires retries <= 300 && transactionRetries <= 4
    ensures var left := remaining - Takes(script(calls), remaining);
            var next := calls + if remaining > 0.0 then 1 else 0;
            HeadsFor(script, calls, retries, transactionRetries, remaining, end) ==>
              if Hears(script(calls), remaining) == ConnectionDropped then
                if left <= 0.0 then end == Some(Foreseen(RetryWindowClosed, 1 + retries + transactionRetries))
                else HeadsFor(script, next, retries + 1, transactionRetries, left - Shorter(1.0, left), end)
              else
                && Hears(script(calls), remaining) == RetryableError
                && if transactionRetries == 4 then
                     end == Some(Foreseen(RetriesExhausted, 1 + retries + transactionRetries))
                   else if left <= 0.0 then end == Some(Foreseen(MissingService, 1 + retries + transactionRetries))
                   else HeadsFor(script, next, retries, transactionRetries + 1,
                                 left - Shorter(Backoff(transactionRetries + 1), left), end)
  {
    assert Unfolded(0);
  }

  lemma DecideAsForetold(script: nat -> Behaviour, before: nat, retries: nat, transactionRetries: nat, slept: real,
                         remaining: real, end: Option<Foreseen>, result: AttemptResult, heard: Reply, calls: nat,
                         time: real)
    requires retries <= 300 && transactionRetries <= MAX_TRANSACTION_RETRIES
    requires FailedFirst(script(before), remaining, heard, calls - before, time)
    requires result.MustRetry? <==> heard == RetryableError
    requires result.LostConnection? <==> heard == ConnectionDropped
    requires HeadsFor(script, before, retries, transactionRetries, remaining, end)
    ensures match Decide(result, retries, transactionRetries, slept, remaining - time)
            case End(r) => r.GaveUp? && end == Some(Foreseen(r.reason, r.attempts))
            case SleepForConnection(delay) =>
              HeadsFor(script, calls, retries + 1, transactionRetries, remaining - time - delay, end)
            case SleepForTransaction(delay) =>
              HeadsFor(script, calls, retries, transactionRetries + 1, remaining - time - delay, end)
  {
    HeadsOn(script, before, retries, transactionRetries, remaining, end);
  }

  /** The missing attribute is met: three deadlocks, the last when the retry window closes. */
  method MissingServiceIsMet() returns (outcome: FlushOutcome)
    ensures outcome.Stopped? && outcome.reason == MissingService && outcome.attempts == 3
  {
    var script := (n: nat) =>
      Behaviour([], Identity("", ""), if n < 2 then 100.0 else 99.7, RetryableError, RolledBack, 0);
    BackoffSchedule();
    assert Foretold(script, 2, 0, 2, 99.7) == Some(Foreseen(MissingService, 3));
    assert Foretold(script, 1, 0, 1, 199.9) == Some(Foreseen(MissingService, 3));
    var producer := new Producer(script, Database(map[], []), 0, 0.0);
    outcome := producer.Flush([], []);
  }

  /** A database that is never there is tried 301 times, once a second. */
  method NobodyThere() returns (outcome: FlushOutcome)
    ensures outcome.Stopped? && outcome.reason == RetryWindowClosed && outcome.attempts == 301
  {
    var script := (n: nat) => Behaviour([], Identity("", ""), 0.0, ConnectionDropped, RolledBack, 0);
    EverySecond(script, 0);
    var producer := new Producer(script, Database(map[], []), 0, 0.0);
    outcome := producer.Flush([], []);
  }

  lemma {:induction false} EverySecond(script: nat -> Behaviour, n: nat)
    requires n <= 300 && forall k :: script(k).reply == ConnectionDropped && script(k).elapsed == 0.0
    ensures Foretold(script, n, n, 0, 300.0 - n as real) == Some(Foreseen(RetryWindowClosed, 301))
    decreases 300 - n
  {
    if n < 300 {
      EverySecond(script, n + 1);
    }
  }

  /** The delays of the four retries, and the cap that a fifth would meet. */
  lemma BackoffSchedule()
    ensures Backoff(1) == 0.1 && Backoff(2) == 0.2 && Backoff(3) == 0.4 && Backoff(4) == 0.8 && Backoff(5) == 1.0
  {
    assert Power2(1) == 2.0 && Power2(2) == 4.0 && Power2(3) == 8.0 && Power2(4) == 16.0;
  }

  lemma PowerPositive(n: nat)
    ensures Power2(n) >= 1.0
  {
  }

  lemma {:induction false} BackoffBound(n: nat)
    requires n <= MAX_TRANSACTION_RETRIES
    ensures BackoffTotal(n) <= 1.5
  {
    assert Power2(0) == 1.0 && Power2(1) == 2.0 && Power2(2) == 4.0 && Power2(3) == 8.0;
    assert BackoffTotal(1) == 0.1;
    assert BackoffTotal(2) == 0.1 + 0.2;
    assert BackoffTotal(3) == 0.3 + 0.4;
    assert BackoffTotal(4) == 0.7 + 0.8;
  }
}
