// The two threads of a producer run: the paced offerer and the batching consumer, sharing a bounded
// queue, an ordering lock and a stop flag (integrations/pg-mdm/bounded_refresh_producer.py:347-386,
// 446-542). Every interleaving of their steps is a run of this transition system.

module Pipeline {
  import opened Basics
  import opened SourceTable

  datatype Config = Config(records: seq<Admission>, capacity: nat, batchSize: nat, events: bool)

  datatype Item = Record(index: nat) | Finished | Failure

  datatype Event =
    | AdmissionOffered(index: nat)
    | BatchStarted(batch: nat, upTo: nat) // the batch holds admissions below upTo
    | BatchComplete(batch: nat)

  datatype Holder = Free | Offerer | Consumer

  /** Where the offerer stands; the number is the admission it is working on. */
  datatype OffererAt =
    | Start
    | Next(i: nat)          // head of the loop over the admissions
    | Pace(i: nat)          // waiting for the scheduled time or the stop flag
    | Check(i: nat)         // stop flag test after the wait
    | Test(item: Item)      // stop flag test before a put
    | Put(item: Item)       // inside a put with a timeout, which the stop flag does not wake
    | Count(i: nat)         // no events: count the offer
    | Lock(i: nat)          // events: wait for the ordering lock
    | Emit(i: nat)          // holding the lock
    | Signal(i: nat)        // set the admission's event
    | SignalFailed(i: nat)  // the same, with an exception in flight
    | Exited

  datatype ConsumerAt =
    | Get
    | Wait(i: nat)          // for the admission's event
    | Append(i: nat)
    | FlushBegin
    | FlushLock
    | FlushEmit             // holding the lock
    | FlushWork             // the retry loop
    | AfterLoop
    | Raise
    | Closing(ok: bool)
    | Join(ok: bool)
    | Over(ok: bool)

  datatype State = State(
    offerer: OffererAt, consumer: ConsumerAt,
    queue: seq<Item>, stop: bool, lock: Holder, signalled: nat, offered: nat,
    finished: bool, batch: seq<nat>, admissions: nat, sourceRows: nat,
    batchNumber: nat, refreshCalls: nat,
    // history, read by no step
    batches: seq<seq<nat>>, log: seq<Event>, pushed: nat, sent: Option<Item>, emitFailed: bool)

  function Init(): State {
    State(Start, Get, [], false, Free, 0, 0, false, [], 0, 0, 0, 0, [], [], 0, None, false)
  }

  /** How a consumer step ends: as written, in an Exception, or in a KeyboardInterrupt. */
  datatype Mode = Proceed | Fail | Interrupt

  datatype Action = OffererMoves(fails: bool) | PutTimesOut | ConsumerMoves(mode: Mode)

  // ---- The offerer ----

  predicate Full(c: Config, s: State) {
    |s.queue| >= c.capacity
  }

  /** One step of the offerer, None when it is blocked; only an emission can fail. */
  function Offer(c: Config, s: State, fails: bool): Option<State> {
    if fails && !s.offerer.Emit? then None
    else
      match s.offerer
      case Start => Some(s.(offerer := Next(0)))
      case Next(i) => Some(s.(offerer := if i < |c.records| then Pace(i) else Test(Finished)))
      case Pace(i) => Some(s.(offerer := if s.stop then Exited else Check(i)))
      case Check(i) => Some(s.(offerer := if s.stop then Exited else Test(Record(i))))
      case Test(item) => Some(s.(offerer := if s.stop then Exited else Put(item)))
      case Put(item) => if Full(c, s) then None else Some(Push(c, s, item))
      case Count(i) => Some(s.(offerer := Next(i + 1), offered := i + 1))
      case Lock(i) => if s.lock == Free then Some(s.(offerer := Emit(i), lock := Offerer)) else None
      case Emit(i) =>
        if fails then Some(s.(offerer := SignalFailed(i), lock := Free, offered := i + 1, emitFailed := true))
        else Some(s.(offerer := Signal(i), lock := Free, offered := i + 1, log := s.log + [AdmissionOffered(i)]))
      case Signal(i) => Some(s.(offerer := Next(i + 1), signalled := i + 1))
      case SignalFailed(i) => Some(s.(offerer := Test(Failure), signalled := i + 1))
      case Exited => None
  }

  /** The put succeeds, whether the stop flag was set meanwhile or not. */
  function Push(c: Config, s: State, item: Item): State {
    match item
    case Record(i) =>
      s.(offerer := if c.events then Lock(i) else Count(i), queue := s.queue + [item], pushed := s.pushed + 1)
    case _ => s.(offerer := Exited, queue := s.queue + [item], sent := Some(item))
  }

  /** The put gives up on a full queue, and the offerer goes back to the stop flag. */
  function TimeOut(c: Config, s: State): Option<State> {
    if s.offerer.Put? && Full(c, s) then Some(s.(offerer := Test(s.offerer.item))) else None
  }

  // ---- The consumer ----

  predicate Running(at: ConsumerAt) {
    !at.Closing? && !at.Join? && !at.Over?
  }

  function Released(s: State): Holder {
    if s.consumer.FlushEmit? then Free else s.lock
  }

  function Consume(c: Config, s: State, mode: Mode): Option<State> {
    match mode
    case Proceed => Advance(c, s)
    case Fail =>
      if s.consumer.FlushEmit? || s.consumer.FlushWork? then Some(s.(consumer := Raise, lock := Released(s))) else None
    case Interrupt =>
      if Running(s.consumer) then Some(s.(consumer := Closing(false), lock := Released(s))) else None
  }

  /** One step of the consumer as written, None when it is blocked. */
  function Advance(c: Config, s: State): Option<State> {
    match s.consumer
    case Get => if s.queue == [] then None else Some(Take(c, s))
    case Wait(i) => if i < s.signalled then Some(s.(consumer := Append(i))) else None
    case Append(i) =>
      var batch := s.batch + [i];
      Some(s.(batch := batch, admissions := s.admissions + 1,
           sourceRows := s.sourceRows + if i < |c.records| then |c.records[i]| else 0,
           consumer := if |batch| == c.batchSize then FlushBegin else Get))
    case FlushBegin =>
      Some(s.(batchNumber := s.batchNumber + 1, consumer := if c.events then FlushLock else FlushWork))
    case FlushLock => if s.lock == Free then Some(s.(consumer := FlushEmit, lock := Consumer)) else None
    case FlushEmit =>
      Some(s.(consumer := FlushWork, lock := Free, log := s.log + [BatchStarted(s.batchNumber, s.admissions)]))
    case FlushWork =>
      Some(s.(consumer := if s.finished then Closing(true) else Get, refreshCalls := s.refreshCalls + 1,
           batches := s.batches + [s.batch], batch := [], log := s.log + [BatchComplete(s.batchNumber)]))
    case AfterLoop => Some(s.(consumer := if s.batch == [] then Closing(true) else FlushBegin))
    case Raise => Some(s.(consumer := Closing(false), stop := true))
    case Closing(ok) => Some(s.(consumer := Join(ok), stop := true))
    case Join(ok) => if s.offerer == Exited then Some(s.(consumer := Over(ok))) else None
    case Over(_) => None
  }

  function Take(c: Config, s: State): State
    requires s.queue != []
  {
    var rest := s.(queue := s.queue[1..]);
    match s.queue[0]
    case Record(i) => rest.(consumer := if c.events then Wait(i) else Append(i))
    case Finished => rest.(consumer := AfterLoop, finished := true)
    case Failure => rest.(consumer := Raise)
  }

  function Apply(c: Config, s: State, a: Action): Option<State> {
    match a
    case OffererMoves(fails) => Offer(c, s, fails)
    case PutTimesOut => TimeOut(c, s)
    case ConsumerMoves(mode) => Consume(c, s, mode)
  }

  ghost predicate IsRun(c: Config, states: seq<State>, actions: seq<Action>) {
    && |states| == |actions| + 1 && states[0] == Init()
    && forall i :: 0 <= i < |actions| ==> Apply(c, states[i], actions[i]) == Some(states[i + 1])
  }

  ghost predicate Valid(c: Config) {
    c.capacity > 0 && c.batchSize > 0
  }

  // ---- The invariant ----

  function Range(lo: nat, hi: nat): (r: seq<nat>)
    requires lo <= hi
    ensures |r| == hi - lo && forall k :: 0 <= k < |r| ==> r[k] == lo + k
  {
    seq(hi - lo, k requires 0 <= k => lo + k)
  }

  function Records(lo: nat, hi: nat): (r: seq<Item>)
    requires lo <= hi
    ensures |r| == hi - lo && forall k :: 0 <= k < |r| ==> r[k] == Record(lo + k)
  {
    seq(hi - lo, k requires 0 <= k => Record(lo + k))
  }

  function RowCount(records: seq<Admission>, n: nat): nat
    requires n <= |records|
  {
    if n == 0 then 0 else RowCount(records, n - 1) + |records[n - 1]|
  }

  /** Admissions that the consumer has taken off the queue. */
  function Taken(s: State): nat {
    s.admissions + if s.consumer.Wait? || s.consumer.Append? then 1 else 0
  }

  /** The closing item, while it is still in the queue. */
  function LastInQueue(s: State): seq<Item> {
    if s.sent.Some? && !s.finished then [s.sent.value] else []
  }

  ghost predicate LockInv(s: State) {
    && (s.lock == Offerer <==> s.offerer.Emit?)
    && (s.lock == Consumer <==> s.consumer.FlushEmit?)
  }

  ghost predicate OffererInv(c: Config, s: State) {
    && s.pushed <= |c.records|
    && (s.sent.Some? ==> s.offerer == Exited && !s.sent.value.Record?)
    && (s.offerer == Exited ==> s.sent.Some? || s.stop)
    && OffererCount(c, s)
    && OffererFlags(c, s)
  }

  ghost predicate OffererFlags(c: Config, s: State) {
    && (s.emitFailed ==> AfterFailure(s.offerer))
    && (s.emitFailed ==> s.sent != Some(Finished))
    && (c.events ==> s.signalled == s.pushed - if Announcing(s.offerer) then 1 else 0)
  }

  /** The exception of a failed emission is on its way to the queue. */
  predicate AfterFailure(at: OffererAt) {
    at.SignalFailed? || at == Test(Failure) || at == Put(Failure) || at == Exited
  }

  /** How many admissions are pushed and counted at each place of the offerer. */
  ghost predicate OffererCount(c: Config, s: State) {
    match s.offerer
    case Start => s.pushed == 0 && s.offered == 0
    case Next(i) => s.pushed == i && s.offered == i
    case Pace(i) => s.pushed == i < |c.records| && s.offered == i
    case Check(i) => s.pushed == i < |c.records| && s.offered == i
    case Test(item) => ReadyToPut(c, s, item)
    case Put(item) => ReadyToPut(c, s, item)
    case Count(i) => s.pushed == i + 1 && !c.events
    case Lock(i) => s.pushed == i + 1 && c.events
    case Emit(i) => s.pushed == i + 1 && c.events
    case Signal(i) => s.pushed == i + 1 && c.events && s.offered == i + 1
    case SignalFailed(i) => s.pushed == i + 1 && c.events && s.emitFailed
    case Exited => s.sent == Some(Finished) ==> s.pushed == |c.records| && s.offered == |c.records|
  }

  ghost predicate ReadyToPut(c: Config, s: State, item: Item) {
    match item
    case Record(i) => s.pushed == i < |c.records| && s.offered == i
    case Finished => s.pushed == |c.records| && s.offered == |c.records|
    case Failure => s.emitFailed
  }

  predicate Announcing(at: OffererAt) {
    at.Lock? || at.Emit? || at.Signal? || at.SignalFailed?
  }

  ghost predicate QueueInv(c: Config, s: State) {
    && Taken(s) <= s.pushed
    && |s.queue| <= c.capacity
    && (s.finished ==> s.sent == Some(Finished) && s.queue == [] && Taken(s) == s.pushed)
    && (Looping(s.consumer) ==> s.queue == Records(Taken(s), s.pushed) + LastInQueue(s))
  }

  /** No exception or interrupt has reached the consumer, and it has not left its main block. */
  predicate Looping(at: ConsumerAt) {
    Running(at) && at != Raise
  }

  predicate Flushing(at: ConsumerAt) {
    at.FlushLock? || at.FlushEmit? || at.FlushWork?
  }

  ghost predicate AllFull(c: Config, batches: seq<seq<nat>>) {
    forall k :: 0 <= k < |batches| ==> |batches[k]| == c.batchSize
  }

  ghost predicate FullButLast(c: Config, batches: seq<seq<nat>>) {
    batches != [] ==>
      && AllFull(c, batches[..|batches| - 1])
      && 0 < |batches[|batches| - 1]| <= c.batchSize
  }

  /** What holds at each place of the consumer. */
  ghost predicate ControlInv(c: Config, s: State) {
    && (s.stop ==> !Looping(s.consumer) && s.consumer != Raise)
    && (s.consumer.Join? || s.consumer.Over? ==> s.stop)
    && (s.consumer.Over? ==> s.offerer == Exited)
    && (c.events ==> s.admissions <= s.signalled)
    && (Looping(s.consumer) ==> s.batchNumber == |s.batches| + if Flushing(s.consumer) then 1 else 0)
    && match s.consumer
       case Get => !s.finished && |s.batch| < c.batchSize
       case Wait(i) => !s.finished && |s.batch| < c.batchSize && i == s.admissions && c.events
       case Append(i) => !s.finished && |s.batch| < c.batchSize && i == s.admissions && (c.events ==> i < s.signalled)
       case FlushBegin => 0 < |s.batch| <= c.batchSize && (!s.finished ==> |s.batch| == c.batchSize)
       case FlushLock => 0 < |s.batch| <= c.batchSize && (!s.finished ==> |s.batch| == c.batchSize) && c.events
       case FlushEmit => 0 < |s.batch| <= c.batchSize && (!s.finished ==> |s.batch| == c.batchSize) && c.events
       case FlushWork => 0 < |s.batch| <= c.batchSize && (!s.finished ==> |s.batch| == c.batchSize)
       case AfterLoop => s.finished && |s.batch| < c.batchSize
       case _ => true
  }

  /** The admissions taken so far lie in the finished batches and the open one, in order. */
  ghost predicate ContentInv(c: Config, s: State) {
    && s.admissions <= |c.records|
    && Flatten(s.batches) + s.batch == Range(0, s.admissions)
    && s.sourceRows == RowCount(c.records, s.admissions)
    && s.refreshCalls == |s.batches|
    && (Looping(s.consumer) ==> AllFull(c, s.batches))
    && (LeftWell(s.consumer) ==> Succeeded(c, s))
  }

  /** The consumer left its loop without an exception. */
  predicate LeftWell(at: ConsumerAt) {
    at == Closing(true) || at == Join(true) || at == Over(true)
  }

  ghost predicate Succeeded(c: Config, s: State) {
    s.finished && s.batch == [] && FullButLast(c, s.batches) && s.batchNumber == |s.batches|
  }

  /** Only an admission whose own emission failed can be missing before a later batch. */
  ghost predicate OfferedBefore(s: State, j: nat, log: seq<Event>) {
    AdmissionOffered(j) in log || (s.emitFailed && j == s.pushed - 1)
  }

  ghost predicate StartedAfterOffers(s: State, p: nat)
    requires p < |s.log|
  {
    s.log[p].BatchStarted? ==>
      s.log[p].upTo <= s.pushed && forall j :: 0 <= j < s.log[p].upTo ==> OfferedBefore(s, j, s.log[..p])
  }

  ghost predicate LogInv(c: Config, s: State) {
    && (forall p :: 0 <= p < |s.log| ==> StartedAfterOffers(s, p))
    && (c.events ==> forall j :: 0 <= j < Announced(s) ==> OfferedBefore(s, j, s.log))
  }

  /** The log holds the start of this batch, with the number of admissions up to its end. */
  ghost predicate HasStarted(log: seq<Event>, batches: seq<seq<nat>>, k: nat)
    requires k < |batches|
  {
    BatchStarted(k + 1, |Flatten(batches[..k + 1])|) in log
  }

  /** Every finished batch has its start in the log, and so has the batch being worked on. */
  ghost predicate StartedInv(c: Config, s: State) {
    c.events ==>
      && (forall k :: 0 <= k < |s.batches| ==> HasStarted(s.log, s.batches, k))
      && (s.consumer == FlushWork ==> BatchStarted(s.batchNumber, s.admissions) in s.log)
  }

  /** An admission whose emission failed, or is still to come, is not in the log. */
  ghost predicate AnnouncedInv(c: Config, s: State) {
    && (forall j: nat :: AdmissionOffered(j) in s.log ==> j < s.pushed && (Unannounced(s) ==> j < s.pushed - 1))
    && (s.emitFailed ==> c.events)
  }

  predicate Unannounced(s: State) {
    s.emitFailed || s.offerer.Lock? || s.offerer.Emit?
  }

  function Announced(s: State): nat {
    s.signalled + if s.offerer.Signal? then 1 else 0
  }

  ghost predicate Inv(c: Config, s: State) {
    && Valid(c) && LockInv(s) && OffererInv(c, s) && QueueInv(c, s)
    && ControlInv(c, s) && ContentInv(c, s) && LogInv(c, s) && StartedInv(c, s) && AnnouncedInv(c, s)
  }

  // ---- Every step keeps the invariant ----

  lemma OfferKeepsLockInv(c: Config, s: State, fails: bool)
    requires LockInv(s) && Offer(c, s, fails).Some?
    ensures LockInv(Offer(c, s, fails).value)
  {
    match s.offerer
    case Lock(i) =>
    case Emit(i) =>
    case Put(item) =>
    case _ =>
  }

  lemma OfferKeepsOffererInv(c: Config, s: State, fails: bool)
    requires OffererInv(c, s) && Offer(c, s, fails).Some?
    ensures OffererInv(c, Offer(c, s, fails).value)
  {
    OfferKeepsOffererCount(c, s, fails);
    OfferKeepsOffererFlags(c, s, fails);
    OfferKeepsSent(c, s, fails);
  }

  lemma OfferKeepsOffererCount(c: Config, s: State, fails: bool)
    requires s.pushed <= |c.records| && OffererCount(c, s) && Offer(c, s, fails).Some?
    requires s.sent.Some? ==> s.offerer == Exited
    ensures Offer(c, s, fails).value.pushed <= |c.records| && OffererCount(c, Offer(c, s, fails).value)
  {
    if s.offerer.Put? {
      PushKeepsOffererCount(c, s, s.offerer.item);
    } else if Announcing(s.offerer) || s.offerer.Count? {
      AnnounceKeepsOffererCount(c, s, fails);
    } else {
      PacingKeepsOffererCount(c, s);
    }
  }

  lemma AnnounceKeepsOffererCount(c: Config, s: State, fails: bool)
    requires s.pushed <= |c.records| && OffererCount(c, s) && Offer(c, s, fails).Some?
    requires Announcing(s.offerer) || s.offerer.Count?
    ensures Offer(c, s, fails).value.pushed == s.pushed && OffererCount(c, Offer(c, s, fails).value)
  {
    match s.offerer
    case Count(i) =>
    case Lock(i) =>
    case Emit(i) =>
    case Signal(i) =>
    case SignalFailed(i) =>
  }

  lemma PacingKeepsOffererCount(c: Config, s: State)
    requires s.pushed <= |c.records| && OffererCount(c, s) && s.sent == None && Offer(c, s, false).Some?
    requires s.offerer == Start || s.offerer.Next? || s.offerer.Pace? || s.offerer.Check? || s.offerer.Test?
    ensures Offer(c, s, false).value.pushed == s.pushed && OffererCount(c, Offer(c, s, false).value)
  {
    match s.offerer
    case Start =>
    case Next(i) =>
    case Pace(i) =>
    case Check(i) =>
    case Test(item) =>
  }

  lemma PushKeepsOffererCount(c: Config, s: State, item: Item)
    requires s.pushed <= |c.records| && ReadyToPut(c, s, item) && s.sent == None
    ensures Push(c, s, item).pushed <= |c.records| && OffererCount(c, Push(c, s, item))
  {
  }

  lemma OfferKeepsOffererFlags(c: Config, s: State, fails: bool)
    requires OffererCount(c, s) && OffererFlags(c, s) && Offer(c, s, fails).Some?
    requires s.sent.Some? ==> s.offerer == Exited
    ensures OffererFlags(c, Offer(c, s, fails).value)
  {
    match s.offerer
    case Put(item) =>
    case Emit(i) =>
    case SignalFailed(i) =>
    case _ =>
  }

  lemma OfferKeepsSent(c: Config, s: State, fails: bool)
    requires s.sent.Some? ==> s.offerer == Exited && !s.sent.value.Record?
    requires Offer(c, s, fails).Some?
    ensures var t := Offer(c, s, fails).value;
            && (t.sent.Some? ==> t.offerer == Exited && !t.sent.value.Record?)
            && (t.offerer == Exited ==> t.sent.Some? || t.stop)
  {
  }

  lemma OfferKeepsQueueInv(c: Config, s: State, fails: bool)
    requires OffererInv(c, s) && QueueInv(c, s) && ControlInv(c, s) && Offer(c, s, fails).Some?
    ensures QueueInv(c, Offer(c, s, fails).value)
  {
    var t := Offer(c, s, fails).value;
    assert t.consumer == s.consumer && Taken(t) == Taken(s) && t.finished == s.finished;
    if s.offerer.Put? && s.offerer.item.Record? && Looping(s.consumer) {
      assert s.sent == None;
      assert Records(Taken(s), t.pushed) == Records(Taken(s), s.pushed) + [Record(s.pushed)];
    }
  }

  /** The offerer leaves the consumer's part of the state alone, but for the queue and the lock. */
  lemma OfferLeavesConsumer(c: Config, s: State, fails: bool)
    requires Offer(c, s, fails).Some?
    ensures var t := Offer(c, s, fails).value;
            && t.consumer == s.consumer && t.finished == s.finished && t.batch == s.batch && t.batches == s.batches
            && t.admissions == s.admissions && t.sourceRows == s.sourceRows && t.batchNumber == s.batchNumber
            && t.refreshCalls == s.refreshCalls && t.stop == s.stop
  {
  }

  lemma OfferKeepsControlInv(c: Config, s: State, fails: bool)
    requires OffererInv(c, s) && ControlInv(c, s) && Offer(c, s, fails).Some?
    ensures ControlInv(c, Offer(c, s, fails).value)
  {
    OfferLeavesConsumer(c, s, fails);
    OfferOnlySignals(c, s, fails);
    SameControlInv(c, s, Offer(c, s, fails).value);
  }

  lemma OfferOnlySignals(c: Config, s: State, fails: bool)
    requires OffererInv(c, s) && Offer(c, s, fails).Some?
    ensures Offer(c, s, fails).value.signalled >= s.signalled
  {
  }

  lemma SameControlInv(c: Config, s: State, t: State)
    requires ControlInv(c, s) && (s.offerer == Exited ==> t.offerer == Exited)
    requires t.consumer == s.consumer && t.finished == s.finished && t.batch == s.batch && t.batches == s.batches
    requires t.admissions == s.admissions && t.batchNumber == s.batchNumber && t.stop == s.stop
    requires t.signalled >= s.signalled
    ensures ControlInv(c, t)
  {
  }

  lemma OfferKeepsContentInv(c: Config, s: State, fails: bool)
    requires ContentInv(c, s) && Offer(c, s, fails).Some?
    ensures ContentInv(c, Offer(c, s, fails).value)
  {
    OfferLeavesConsumer(c, s, fails);
    SameContentInv(c, s, Offer(c, s, fails).value);
  }

  lemma SameContentInv(c: Config, s: State, t: State)
    requires ContentInv(c, s)
    requires t.consumer == s.consumer && t.finished == s.finished && t.batch == s.batch && t.batches == s.batches
    requires t.admissions == s.admissions && t.sourceRows == s.sourceRows && t.batchNumber == s.batchNumber
    requires t.refreshCalls == s.refreshCalls
    ensures ContentInv(c, t)
  {
  }

  /** What the log's older part says survives its growth. */
  lemma LogGrows(s: State, t: State, p: nat)
    requires p < |s.log| && s.log <= t.log && s.pushed <= t.pushed && StartedAfterOffers(s, p)
    requires s.emitFailed ==> t.emitFailed && t.pushed == s.pushed
    ensures StartedAfterOffers(t, p)
  {
    assert t.log[..p] == s.log[..p];
    if s.log[p].BatchStarted? {
      forall j | 0 <= j < s.log[p].upTo ensures OfferedBefore(t, j, t.log[..p]) {
        assert OfferedBefore(s, j, s.log[..p]);
      }
    }
  }

  lemma OfferKeepsLogInv(c: Config, s: State, fails: bool)
    requires OffererInv(c, s) && LogInv(c, s) && Offer(c, s, fails).Some?
    ensures LogInv(c, Offer(c, s, fails).value)
  {
    var t := Offer(c, s, fails).value;
    assert s.emitFailed ==> t.emitFailed && t.pushed == s.pushed;
    assert s.log <= t.log && s.pushed <= t.pushed;
    forall p | 0 <= p < |t.log| ensures StartedAfterOffers(t, p) {
      if p < |s.log| { LogGrows(s, t, p); }
    }
    if c.events {
      forall j | 0 <= j < Announced(t) ensures OfferedBefore(t, j, t.log) {
        if j < Announced(s) { assert OfferedBefore(s, j, s.log); }
      }
    }
  }

  lemma TimeOutKeepsInv(c: Config, s: State)
    requires Inv(c, s) && TimeOut(c, s).Some?
    ensures Inv(c, TimeOut(c, s).value)
  {
    var t := TimeOut(c, s).value;
    assert t == s.(offerer := Test(s.offerer.item));
    SameControlInv(c, s, t);
    SameContentInv(c, s, t);
    TimeOutKeepsOffererInv(c, s);
    TimeOutKeepsLogInv(c, s);
  }

  lemma TimeOutKeepsOffererInv(c: Config, s: State)
    requires OffererInv(c, s) && TimeOut(c, s).Some?
    ensures OffererInv(c, TimeOut(c, s).value)
  {
  }

  lemma TimeOutKeepsLogInv(c: Config, s: State)
    requires LogInv(c, s) && TimeOut(c, s).Some?
    ensures LogInv(c, TimeOut(c, s).value)
  {
    var t := TimeOut(c, s).value;
    forall p | 0 <= p < |t.log| ensures StartedAfterOffers(t, p) {
      LogGrows(s, t, p);
    }
    if c.events {
      forall j | 0 <= j < Announced(t) ensures OfferedBefore(t, j, t.log) {
        assert OfferedBefore(s, j, s.log);
      }
    }
  }

  // ---- What a step of the consumer touches, mode by mode and place by place ----

  /** The offerer's part of the state. */
  predicate SameOfferer(s: State, t: State) {
    && t.offerer == s.offerer && t.pushed == s.pushed && t.sent == s.sent && t.offered == s.offered
    && t.emitFailed == s.emitFailed && t.signalled == s.signalled
  }

  /** The lock is taken on the way into an emission and released on the way out. */
  predicate LockMoves(s: State, t: State) {
    if t.consumer == FlushEmit then s.consumer == FlushLock && s.lock == Free && t.lock == Consumer
    else t.lock == Released(s)
  }

  /** The log grows by the start of a batch after an emission, and by its end when it is finished. */
  predicate LogMoves(c: Config, s: State, t: State) {
    if s.consumer == FlushEmit && t.consumer == FlushWork then
      t.batches == s.batches && t.log == s.log + [BatchStarted(t.batchNumber, t.admissions)]
        && t.admissions == s.admissions
    else
      && (t.consumer == FlushWork ==> !c.events)
      && if s.consumer == FlushWork && (t.consumer == Get || t.consumer == Closing(true))
         then t.batches == s.batches + [s.batch] && t.log == s.log + [BatchComplete(s.batchNumber)]
         else t.batches == s.batches && t.log == s.log
  }

  predicate Touches(c: Config, s: State, t: State) {
    SameOfferer(s, t) && (s.stop ==> t.stop) && LockMoves(s, t) && LogMoves(c, s, t)
  }

  lemma LoopTouches(c: Config, s: State)
    requires s.consumer == Get || s.consumer.Wait? || s.consumer.Append? || s.consumer == AfterLoop
    requires Advance(c, s).Some?
    ensures Touches(c, s, Advance(c, s).value)
  {
    match s.consumer
    case Get => assert Advance(c, s).value == Take(c, s);
    case Wait(i) =>
    case Append(i) =>
    case AfterLoop =>
  }

  lemma FlushTouches(c: Config, s: State)
    requires (s.consumer == FlushBegin || Flushing(s.consumer)) && Advance(c, s).Some?
    ensures Touches(c, s, Advance(c, s).value)
  {
    match s.consumer
    case FlushBegin =>
    case FlushLock =>
    case FlushEmit =>
    case FlushWork =>
  }

  lemma EndTouches(c: Config, s: State)
    requires (s.consumer == Raise || !Running(s.consumer)) && Advance(c, s).Some?
    ensures Touches(c, s, Advance(c, s).value)
  {
    match s.consumer
    case Raise =>
    case Closing(ok) =>
    case Join(ok) =>
  }

  lemma BreakTouches(c: Config, s: State, mode: Mode)
    requires mode != Proceed && Consume(c, s, mode).Some?
    ensures Touches(c, s, Consume(c, s, mode).value)
  {
    assert Consume(c, s, mode).value == s.(consumer := Consume(c, s, mode).value.consumer, lock := Released(s));
  }

  lemma ConsumerTouches(c: Config, s: State, mode: Mode)
    requires Consume(c, s, mode).Some?
    ensures Touches(c, s, Consume(c, s, mode).value)
  {
    if mode != Proceed {
      BreakTouches(c, s, mode);
    } else if s.consumer == FlushBegin || Flushing(s.consumer) {
      FlushTouches(c, s);
    } else if s.consumer == Raise || !Running(s.consumer) {
      EndTouches(c, s);
    } else {
      LoopTouches(c, s);
    }
  }

  lemma ConsumeKeepsLockInv(c: Config, s: State, mode: Mode)
    requires LockInv(s) && Consume(c, s, mode).Some?
    ensures LockInv(Consume(c, s, mode).value)
  {
    ConsumerTouches(c, s, mode);
  }

  lemma ConsumeKeepsOffererInv(c: Config, s: State, mode: Mode)
    requires OffererInv(c, s) && Consume(c, s, mode).Some?
    ensures OffererInv(c, Consume(c, s, mode).value)
  {
    ConsumerTouches(c, s, mode);
    SameOffererInv(c, s, Consume(c, s, mode).value);
  }

  lemma SameOffererInv(c: Config, s: State, t: State)
    requires OffererInv(c, s) && SameOfferer(s, t) && (s.stop ==> t.stop)
    ensures OffererInv(c, t)
  {
  }

  lemma ConsumeKeepsQueueInv(c: Config, s: State, mode: Mode)
    requires OffererInv(c, s) && QueueInv(c, s) && ControlInv(c, s) && Consume(c, s, mode).Some?
    ensures QueueInv(c, Consume(c, s, mode).value)
  {
    if s.consumer == Get && mode == Proceed {
      GetTakesNext(c, s);
      GetKeepsQueueInv(c, s);
    } else {
      QueueUntouched(c, s, mode);
    }
  }

  lemma GetKeepsQueueInv(c: Config, s: State)
    requires OffererInv(c, s) && QueueInv(c, s) && ControlInv(c, s) && s.consumer == Get && s.queue != []
    requires Taken(s) < s.pushed ==> s.queue[0] == Record(s.admissions)
                                     && s.queue[1..] == Records(s.admissions + 1, s.pushed) + LastInQueue(s)
    requires Taken(s) == s.pushed ==> s.sent == Some(s.queue[0]) && s.queue[1..] == []
    ensures QueueInv(c, Consume(c, s, Proceed).value)
  {
    var t := Consume(c, s, Proceed).value;
    if Taken(s) < s.pushed {
      assert Taken(t) == s.admissions + 1 && LastInQueue(t) == LastInQueue(s);
    } else {
      assert Records(s.pushed, s.pushed) == [];
    }
  }

  /** Every other consumer step leaves the queue and the number of taken admissions alone. */
  lemma QueueUntouched(c: Config, s: State, mode: Mode)
    requires QueueInv(c, s) && Consume(c, s, mode).Some? && (s.consumer == Get ==> mode != Proceed)
    requires s.finished ==> !s.consumer.Wait? && !s.consumer.Append?
    ensures QueueInv(c, Consume(c, s, mode).value)
  {
    var t := Consume(c, s, mode).value;
    assert t.queue == s.queue && t.pushed == s.pushed && t.sent == s.sent && t.finished == s.finished;
    assert Taken(t) <= Taken(s) && (Looping(t.consumer) ==> Looping(s.consumer) && Taken(t) == Taken(s));
    assert s.finished && !s.consumer.Wait? && !s.consumer.Append? ==> Taken(t) == Taken(s);
    assert LastInQueue(t) == LastInQueue(s);
  }

  /** The head of the queue is the next admission, or else the closing item. */
  lemma GetTakesNext(c: Config, s: State)
    requires OffererInv(c, s) && QueueInv(c, s) && ControlInv(c, s) && s.consumer == Get && s.queue != []
    ensures Taken(s) < s.pushed ==> s.queue[0] == Record(s.admissions)
                                    && s.queue[1..] == Records(s.admissions + 1, s.pushed) + LastInQueue(s)
    ensures Taken(s) == s.pushed ==> s.sent == Some(s.queue[0]) && s.queue[1..] == []
  {
    if Taken(s) < s.pushed {
      assert Records(s.admissions, s.pushed)[1..] == Records(s.admissions + 1, s.pushed);
    } else {
      assert s.queue == LastInQueue(s);
    }
  }

  lemma ConsumeKeepsControlInv(c: Config, s: State, mode: Mode)
    requires OffererInv(c, s) && QueueInv(c, s) && ControlInv(c, s) && Consume(c, s, mode).Some?
    requires Valid(c)
    ensures ControlInv(c, Consume(c, s, mode).value)
  {
    if s.consumer == Get && mode == Proceed {
      GetTakesNext(c, s);
      GetKeepsControlInv(c, s);
    } else {
      OtherKeepsControlInv(c, s, mode);
    }
  }

  lemma GetKeepsControlInv(c: Config, s: State)
    requires OffererInv(c, s) && ControlInv(c, s) && s.consumer == Get && s.queue != []
    requires (s.queue[0] == Record(s.admissions) && s.admissions < s.pushed) || s.sent == Some(s.queue[0])
    ensures ControlInv(c, Consume(c, s, Proceed).value)
  {
  }

  lemma OtherKeepsControlInv(c: Config, s: State, mode: Mode)
    requires ControlInv(c, s) && Consume(c, s, mode).Some? && (s.consumer == Get ==> mode != Proceed)
    requires c.batchSize > 0
    ensures ControlInv(c, Consume(c, s, mode).value)
  {
    if mode == Proceed {
      match s.consumer
      case Append(i) => assert |s.batch + [i]| == |s.batch| + 1;
      case FlushWork =>
      case AfterLoop =>
      case _ =>
    }
  }

  lemma ConsumeKeepsContentInv(c: Config, s: State, mode: Mode)
    requires Valid(c) && OffererInv(c, s) && Taken(s) <= s.pushed && ControlInv(c, s) && ContentInv(c, s)
    requires Consume(c, s, mode).Some?
    ensures ContentInv(c, Consume(c, s, mode).value)
  {
    if mode == Proceed {
      match s.consumer
      case Append(i) => AppendKeepsContentInv(c, s);
      case FlushWork => FlushKeepsContentInv(c, s);
      case _ => ControlStepKeepsContentInv(c, s);
    } else {
      assert Consume(c, s, mode).value == s.(consumer := Consume(c, s, mode).value.consumer, lock := Released(s));
    }
  }

  /** The consumer steps that only move control, the lock and the log. */
  lemma ControlStepKeepsContentInv(c: Config, s: State)
    requires Valid(c) && ControlInv(c, s) && ContentInv(c, s) && Consume(c, s, Proceed).Some?
    requires !s.consumer.Append? && s.consumer != FlushWork
    ensures ContentInv(c, Consume(c, s, Proceed).value)
  {
    var t := Consume(c, s, Proceed).value;
    assert t.batches == s.batches && t.batch == s.batch && t.admissions == s.admissions;
    assert t.sourceRows == s.sourceRows && t.refreshCalls == s.refreshCalls;
    assert Looping(t.consumer) ==> Looping(s.consumer);
    if LeftWell(t.consumer) {
      if s.consumer == AfterLoop { AllFullIsFullButLast(c, s.batches); }
      assert Succeeded(c, t);
    }
  }

  lemma AppendKeepsContentInv(c: Config, s: State)
    requires s.consumer == Append(s.admissions) && s.admissions < |c.records| && ContentInv(c, s)
    ensures ContentInv(c, Consume(c, s, Proceed).value)
  {
    var t := Consume(c, s, Proceed).value;
    assert Flatten(t.batches) + t.batch == Range(0, s.admissions) + [s.admissions];
    assert Range(0, t.admissions) == Range(0, s.admissions) + [s.admissions];
  }

  lemma FlushKeepsContentInv(c: Config, s: State)
    requires Valid(c) && ControlInv(c, s) && ContentInv(c, s) && s.consumer == FlushWork
    ensures ContentInv(c, Consume(c, s, Proceed).value)
  {
    var t := Consume(c, s, Proceed).value;
    assert t.batches[..|t.batches| - 1] == s.batches;
    assert Flatten(t.batches) + t.batch == Flatten(s.batches) + s.batch;
  }

  lemma AllFullIsFullButLast(c: Config, batches: seq<seq<nat>>)
    requires Valid(c) && AllFull(c, batches)
    ensures FullButLast(c, batches)
  {
  }

  lemma ConsumeKeepsLogInv(c: Config, s: State, mode: Mode)
    requires OffererInv(c, s) && ControlInv(c, s) && LogInv(c, s) && Consume(c, s, mode).Some?
    ensures LogInv(c, Consume(c, s, mode).value)
  {
    ConsumerTouches(c, s, mode);
    LogInvOn(c, s, Consume(c, s, mode).value);
  }

  lemma LogInvOn(c: Config, s: State, t: State)
    requires OffererInv(c, s) && ControlInv(c, s) && LogInv(c, s) && SameOfferer(s, t) && LogMoves(c, s, t)
    ensures LogInv(c, t)
  {
    forall p | 0 <= p < |t.log| ensures StartedAfterOffers(t, p) {
      if p < |s.log| {
        LogGrows(s, t, p);
      } else if t.log[p].BatchStarted? {
        assert t.log[..p] == s.log;
        forall j | 0 <= j < t.log[p].upTo ensures OfferedBefore(t, j, t.log[..p]) {
          assert OfferedBefore(s, j, s.log);
        }
      }
    }
    if c.events {
      forall j | 0 <= j < Announced(t) ensures OfferedBefore(t, j, t.log) {
        assert OfferedBefore(s, j, s.log);
      }
    }
  }

  lemma OfferKeepsStartedInv(c: Config, s: State, fails: bool)
    requires StartedInv(c, s) && Offer(c, s, fails).Some?
    ensures StartedInv(c, Offer(c, s, fails).value)
  {
    OfferLeavesConsumer(c, s, fails);
    OfferLogs(c, s, fails);
    StartsStay(s.log, Offer(c, s, fails).value.log, s.batches);
  }

  lemma StartsStay(log: seq<Event>, longer: seq<Event>, batches: seq<seq<nat>>)
    requires log <= longer
    ensures forall k :: 0 <= k < |batches| && HasStarted(log, batches, k) ==> HasStarted(longer, batches, k)
    ensures forall e :: e in log ==> e in longer
  {
    forall e | e in log ensures e in longer {
      var i :| 0 <= i < |log| && log[i] == e;
      assert longer[i] == e;
    }
  }

  /** The offerer logs nothing but the announcement of the admission it is emitting. */
  lemma OfferLogs(c: Config, s: State, fails: bool)
    requires Offer(c, s, fails).Some?
    ensures var t := Offer(c, s, fails).value;
            t.log == if s.offerer.Emit? && !fails then s.log + [AdmissionOffered(s.offerer.i)] else s.log
  {
  }

  lemma ConsumeKeepsStartedInv(c: Config, s: State, mode: Mode)
    requires ControlInv(c, s) && ContentInv(c, s) && StartedInv(c, s) && Consume(c, s, mode).Some?
    ensures StartedInv(c, Consume(c, s, mode).value)
  {
    ConsumerTouches(c, s, mode);
    StartsStay(s.log, Consume(c, s, mode).value.log, s.batches);
    if s.consumer == FlushWork && mode == Proceed {
      FlushKeepsStartedInv(c, s);
    }
  }

  lemma FlushKeepsStartedInv(c: Config, s: State)
    requires ControlInv(c, s) && ContentInv(c, s) && StartedInv(c, s) && s.consumer == FlushWork
    ensures StartedInv(c, Consume(c, s, Proceed).value)
  {
    var t := Consume(c, s, Proceed).value;
    var n := |s.batches|;
    assert t.batches[..n] == s.batches;
    if c.events {
      forall k | 0 <= k < |t.batches| ensures HasStarted(t.log, t.batches, k) {
        if k < n {
          assert t.batches[..k + 1] == s.batches[..k + 1];
          assert HasStarted(s.log, s.batches, k);
        } else {
          assert t.batches[..k + 1] == t.batches;
          assert |Flatten(s.batches) + s.batch| == s.admissions;
        }
      }
    }
  }

  lemma OfferKeepsAnnouncedInv(c: Config, s: State, fails: bool)
    requires OffererInv(c, s) && AnnouncedInv(c, s) && Offer(c, s, fails).Some?
    ensures AnnouncedInv(c, Offer(c, s, fails).value)
  {
    OfferLogs(c, s, fails);
  }

  lemma ConsumeKeepsAnnouncedInv(c: Config, s: State, mode: Mode)
    requires AnnouncedInv(c, s) && Consume(c, s, mode).Some?
    ensures AnnouncedInv(c, Consume(c, s, mode).value)
  {
    ConsumerTouches(c, s, mode);
  }

  lemma StepKeepsInv(c: Config, s: State, a: Action)
    requires Inv(c, s) && Apply(c, s, a).Some?
    ensures Inv(c, Apply(c, s, a).value)
  {
    match a
    case OffererMoves(fails) =>
      OfferKeepsLockInv(c, s, fails);
      OfferKeepsOffererInv(c, s, fails);
      OfferKeepsQueueInv(c, s, fails);
      OfferKeepsControlInv(c, s, fails);
      OfferKeepsContentInv(c, s, fails);
      OfferKeepsLogInv(c, s, fails);
      OfferKeepsStartedInv(c, s, fails);
      OfferKeepsAnnouncedInv(c, s, fails);
    case PutTimesOut => TimeOutKeepsInv(c, s);
    case ConsumerMoves(mode) =>
      ConsumeKeepsLockInv(c, s, mode);
      ConsumeKeepsOffererInv(c, s, mode);
      ConsumeKeepsQueueInv(c, s, mode);
      ConsumeKeepsControlInv(c, s, mode);
      ConsumeKeepsContentInv(c, s, mode);
      ConsumeKeepsLogInv(c, s, mode);
      ConsumeKeepsStartedInv(c, s, mode);
      ConsumeKeepsAnnouncedInv(c, s, mode);
  }

  lemma {:induction false} RunKeepsInv(c: Config, states: seq<State>, actions: seq<Action>)
    requires Valid(c) && IsRun(c, states, actions)
    ensures Inv(c, states[|actions|])
  {
    if actions == [] {
      assert Range(0, 0) == [];
    } else {
      var n := |actions| - 1;
      assert Apply(c, states[n], actions[n]) == Some(states[n + 1]);
      RunKeepsInv(c, states[..n + 1], actions[..n]);
      StepKeepsInv(c, states[n], actions[n]);
    }
  }

  // ---- Liveness ----

  predicate Done(s: State) {
    s.consumer.Over? && s.offerer == Exited
  }

  /** Neither thread can go on by itself. */
  predicate Waiting(c: Config, s: State) {
    Offer(c, s, false).None? && Advance(c, s).None?
  }

  /** The consumer waits for an offerer that is inside a put on a full queue, which nobody reads any more. */
  predicate InPutAfterStop(c: Config, s: State) {
    s.consumer.Join? && s.offerer.Put? && Full(c, s)
  }

  /** The threads wait for each other exactly when they are done, or when the consumer joins a put on a full queue. */
  lemma OnlyPutWaits(c: Config, s: State)
    requires Inv(c, s)
    ensures Waiting(c, s) <==> Done(s) || InPutAfterStop(c, s)
  {
    if Advance(c, s).None? && Running(s.consumer) {
      OffererGoesOn(c, s);
    }
  }

  /** Whatever the consumer waits for in its main block, the offerer can bring it on. */
  lemma OffererGoesOn(c: Config, s: State)
    requires Inv(c, s) && Running(s.consumer) && Advance(c, s).None?
    ensures Offer(c, s, false).Some?
  {
    match s.consumer
    case Get => assert s.queue == [] && s.offerer != Exited;
    case Wait(i) => assert Announcing(s.offerer);
    case FlushLock => assert s.offerer.Emit?;
  }

  /** The step that is always possible until both threads are done. */
  function NextAction(c: Config, s: State): Action {
    if Advance(c, s).Some? then ConsumerMoves(Proceed)
    else if Offer(c, s, false).Some? then OffererMoves(false)
    else PutTimesOut
  }

  /** No interleaving deadlocks. Only after the stop flag is set can a put timeout be the only step. */
  lemma NoDeadlock(c: Config, s: State)
    requires Inv(c, s) && !Done(s)
    ensures Apply(c, s, NextAction(c, s)).Some?
    ensures NextAction(c, s) == PutTimesOut <==> InPutAfterStop(c, s)
    ensures InPutAfterStop(c, s) ==> s.stop
  {
    OnlyPutWaits(c, s);
  }

  /** No step of the run is a failed emission, a failed flush or an interrupt. */
  ghost predicate Undisturbed(actions: seq<Action>) {
    forall i :: 0 <= i < |actions| ==>
      actions[i] == OffererMoves(false) || actions[i] == PutTimesOut || actions[i] == ConsumerMoves(Proceed)
  }

  /** Nothing has failed so far. */
  predicate Sound(s: State) {
    && !s.emitFailed && !s.offerer.SignalFailed? && s.offerer != Test(Failure) && s.offerer != Put(Failure)
    && s.sent != Some(Failure)
    && s.consumer != Raise && (Running(s.consumer) || LeftWell(s.consumer))
  }

  lemma StepStaysSound(c: Config, s: State, a: Action)
    requires Inv(c, s) && Sound(s) && Apply(c, s, a).Some?
    requires a == OffererMoves(false) || a == PutTimesOut || a == ConsumerMoves(Proceed)
    ensures Sound(Apply(c, s, a).value)
  {
    match a
    case OffererMoves(_) => OffererStaysSound(c, s);
    case PutTimesOut =>
    case ConsumerMoves(_) => ConsumerStaysSound(c, s);
  }

  lemma OffererStaysSound(c: Config, s: State)
    requires Sound(s) && Offer(c, s, false).Some?
    ensures Sound(Offer(c, s, false).value)
  {
  }

  lemma ConsumerStaysSound(c: Config, s: State)
    requires Inv(c, s) && Sound(s) && Consume(c, s, Proceed).Some?
    ensures Sound(Consume(c, s, Proceed).value)
  {
    ConsumerTouches(c, s, Proceed);
    if s.consumer == Get {
      GetTakesNext(c, s);
    }
  }

  lemma {:induction false} UndisturbedStaysSound(c: Config, states: seq<State>, actions: seq<Action>)
    requires Valid(c) && IsRun(c, states, actions) && Undisturbed(actions)
    ensures Sound(states[|actions|])
  {
    if actions != [] {
      var n := |actions| - 1;
      assert Apply(c, states[n], actions[n]) == Some(states[n + 1]);
      UndisturbedStaysSound(c, states[..n + 1], actions[..n]);
      RunKeepsInv(c, states[..n + 1], actions[..n]);
      StepStaysSound(c, states[n], actions[n]);
    }
  }

  /** A run that can go no further has ended in both threads, and successfully unless something failed in it. */
  lemma StuckRunIsOver(c: Config, states: seq<State>, actions: seq<Action>)
    requires Valid(c) && IsRun(c, states, actions)
    requires Waiting(c, states[|actions|]) && Apply(c, states[|actions|], PutTimesOut) == None
    ensures Done(states[|actions|])
    ensures Undisturbed(actions) ==> states[|actions|].consumer == Over(true)
  {
    var s := states[|actions|];
    RunKeepsInv(c, states, actions);
    OnlyPutWaits(c, s);
    if Undisturbed(actions) {
      UndisturbedStaysSound(c, states, actions);
    }
  }

  /** The steps that the offerer takes at most once the stop flag is set. */
  function StepsLeft(at: OffererAt): nat {
    match at
    case Exited => 0
    case Test(_) => 1
    case Check(_) => 1
    case Pace(_) => 1
    case Next(_) => 2
    case Start => 3
    case Count(_) => 3
    case Signal(_) => 3
    case SignalFailed(_) => 2
    case Emit(_) => 4
    case Lock(_) => 5
    case Put(_) => 6
  }

  /** After the stop flag the offerer ends within six steps of its own, of which a put timeout can only be the first. */
  lemma StoppedOffererEnds(c: Config, s: State, a: Action)
    requires s.stop && !a.ConsumerMoves? && Apply(c, s, a).Some?
    ensures var t := Apply(c, s, a).value;
            && StepsLeft(t.offerer) < StepsLeft(s.offerer) && !t.offerer.Put?
            && (a == PutTimesOut ==> s.offerer.Put? && t.offerer.Test?)
  {
  }

  /** While the consumer joins, the offerer always has one of these steps. */
  lemma StoppedOffererNeverBlocks(c: Config, s: State)
    requires Inv(c, s) && s.consumer.Join? && s.offerer != Exited
    ensures Offer(c, s, false).Some? <==> !InPutAfterStop(c, s)
    ensures TimeOut(c, s).Some? <==> InPutAfterStop(c, s)
  {
  }

  function Timeouts(states: seq<State>, actions: seq<Action>, stopped: bool): nat
    requires |states| > |actions|
  {
    if actions == [] then 0
    else
      var n := |actions| - 1;
      Timeouts(states[..n + 1], actions[..n], stopped)
      + if actions[n] == PutTimesOut && states[n].stop == stopped then 1 else 0
  }

  /** At most one put timeout follows the setting of the stop flag, and none once the offerer has left that put. */
  lemma {:induction false} OneTimeoutAfterStop(c: Config, states: seq<State>, actions: seq<Action>)
    requires IsRun(c, states, actions)
    ensures var s := states[|actions|];
            Timeouts(states, actions, true) <= if s.stop && !s.offerer.Put? then 1 else 0
  {
    if actions != [] {
      var n := |actions| - 1;
      var s, a := states[n], actions[n];
      assert Apply(c, s, a) == Some(states[n + 1]);
      OneTimeoutAfterStop(c, states[..n + 1], actions[..n]);
      match a
      case ConsumerMoves(mode) => ConsumerTouches(c, s, mode);
      case OffererMoves(fails) =>
        OfferLeavesConsumer(c, s, fails);
        if s.stop { StoppedOffererEnds(c, s, a); }
      case PutTimesOut =>
    }
  }

  function OffererWork(c: Config, s: State): nat {
    var n := |c.records|;
    match s.offerer
    case Start => 17 * n + 22
    case Next(i) => if i <= n then 17 * (n - i) + 21 else 21
    case Pace(i) => if i < n then 17 * (n - i) + 20 else 0
    case Check(i) => if i < n then 17 * (n - i) + 19 else 0
    case Test(item) => if s.stop then 1 else PutWork(n, item) + 1
    case Put(item) => PutWork(n, item)
    case Count(i) => if i < n then 17 * (n - i) + 7 else 0
    case Lock(i) => if i < n then 17 * (n - i) + 7 else 0
    case Emit(i) => if i < n then 17 * (n - i) + 6 else 0
    case Signal(i) => if i < n then 17 * (n - i) + 5 else 0
    case SignalFailed(i) => if i < n then 17 * (n - i) + 5 else 0
    case Exited => 0
  }

  function PutWork(n: nat, item: Item): nat {
    match item
    case Record(i) => if i < n then 17 * (n - i) + 17 else 0
    case _ => 12
  }

  function ConsumerWork(s: State): nat {
    match s.consumer
    case Get => 20
    case Wait(_) => 27
    case Append(_) => 26
    case FlushBegin => 25
    case FlushLock => 24
    case FlushEmit => 23
    case FlushWork => 22
    case AfterLoop => 29
    case Raise => 10
    case Closing(_) => 5
    case Join(_) => 3
    case Over(_) => 0
  }

  function QueueWork(queue: seq<Item>): nat {
    if queue == [] then 0 else ItemWork(queue[0]) + QueueWork(queue[1..])
  }

  function Work(c: Config, s: State): nat {
    OffererWork(c, s) + ConsumerWork(s) + QueueWork(s.queue)
  }

  lemma {:induction false} QueueWorkAppend(queue: seq<Item>, item: Item)
    ensures QueueWork(queue + [item]) == QueueWork(queue) + ItemWork(item)
  {
    if queue == [] {
      assert queue + [item] == [item];
    } else {
      assert (queue + [item])[1..] == queue[1..] + [item];
      QueueWorkAppend(queue[1..], item);
    }
  }

  function ItemWork(item: Item): nat {
    if item.Record? then 8 else 10
  }

  /** The item that a put at this place would append. */
  function ItemAt(at: OffererAt): Item {
    match at
    case Put(item) => item
    case _ => Failure
  }

  lemma OffererWorkDrops(c: Config, s: State, fails: bool)
    requires s.pushed <= |c.records| && OffererCount(c, s) && Offer(c, s, fails).Some?
    ensures var t := Offer(c, s, fails).value;
            if t.queue == s.queue then OffererWork(c, t) < OffererWork(c, s)
            else
              var item := ItemAt(s.offerer);
              t.queue == s.queue + [item] && OffererWork(c, t) + ItemWork(item) < OffererWork(c, s)
  {
    if s.offerer.Put? {
      PushDoesWork(c, s, s.offerer.item);
    } else if Announcing(s.offerer) || s.offerer.Count? {
      AnnouncingDoesWork(c, s, fails);
    } else {
      PacingDoesWork(c, s);
    }
  }

  lemma AnnouncingDoesWork(c: Config, s: State, fails: bool)
    requires s.pushed <= |c.records| && OffererCount(c, s) && Offer(c, s, fails).Some?
    requires Announcing(s.offerer) || s.offerer.Count?
    ensures var t := Offer(c, s, fails).value; t.queue == s.queue && OffererWork(c, t) < OffererWork(c, s)
  {
    match s.offerer
    case Count(i) =>
    case Lock(i) =>
    case Emit(i) =>
    case Signal(i) =>
    case SignalFailed(i) =>
  }

  lemma PacingDoesWork(c: Config, s: State)
    requires s.pushed <= |c.records| && OffererCount(c, s) && Offer(c, s, false).Some?
    requires s.offerer == Start || s.offerer.Next? || s.offerer.Pace? || s.offerer.Check? || s.offerer.Test?
    ensures var t := Offer(c, s, false).value; t.queue == s.queue && OffererWork(c, t) < OffererWork(c, s)
  {
    match s.offerer
    case Start =>
    case Next(i) =>
    case Pace(i) =>
    case Check(i) =>
    case Test(item) =>
  }

  lemma PushDoesWork(c: Config, s: State, item: Item)
    requires s.pushed <= |c.records| && ReadyToPut(c, s, item)
    ensures Push(c, s, item).queue == s.queue + [item] != s.queue
    ensures OffererWork(c, Push(c, s, item)) + ItemWork(item) < PutWork(|c.records|, item)
  {
  }

  lemma OfferDoesWork(c: Config, s: State, fails: bool)
    requires s.pushed <= |c.records| && OffererCount(c, s) && Offer(c, s, fails).Some?
    ensures Work(c, Offer(c, s, fails).value) < Work(c, s)
  {
    OffererWorkDrops(c, s, fails);
    QueueWorkAppend(s.queue, ItemAt(s.offerer));
    OfferLeavesConsumer(c, s, fails);
  }

  lemma ConsumerWorkDrops(c: Config, s: State, mode: Mode)
    requires Consume(c, s, mode).Some?
    ensures var t := Consume(c, s, mode).value;
            && t.offerer == s.offerer
            && if s.consumer == Get && mode == Proceed
               then s.queue != [] && t.queue == s.queue[1..] && ConsumerWork(t) < ConsumerWork(s) + ItemWork(s.queue[0])
               else t.queue == s.queue && ConsumerWork(t) < ConsumerWork(s)
  {
    match mode
    case Proceed =>
      match s.consumer {
        case Get =>
        case Wait(i) =>
        case Append(i) =>
        case FlushBegin =>
        case FlushLock =>
        case FlushEmit =>
        case FlushWork =>
        case AfterLoop =>
        case Raise =>
        case Closing(ok) =>
        case Join(ok) =>
        case Over(ok) =>
      }
    case Fail =>
    case Interrupt =>
  }

  lemma ConsumeDoesWork(c: Config, s: State, mode: Mode)
    requires Consume(c, s, mode).Some?
    ensures Work(c, Consume(c, s, mode).value) < Work(c, s)
  {
    ConsumerWorkDrops(c, s, mode);
  }

  lemma TimeOutDoesWork(c: Config, s: State)
    requires s.pushed <= |c.records| && OffererCount(c, s) && TimeOut(c, s).Some?
    ensures var t := TimeOut(c, s).value; if s.stop then Work(c, t) < Work(c, s) else Work(c, t) == Work(c, s) + 1
  {
  }

  /** A run makes at most 17 n + 42 steps, and two more for each put timeout before the stop flag. */
  lemma {:induction false} RunIsBounded(c: Config, states: seq<State>, actions: seq<Action>)
    requires Valid(c) && IsRun(c, states, actions)
    ensures |actions| + Work(c, states[|actions|]) <= 17 * |c.records| + 42 + 2 * Timeouts(states, actions, false)
  {
    if actions != [] {
      var n := |actions| - 1;
      assert Apply(c, states[n], actions[n]) == Some(states[n + 1]);
      RunIsBounded(c, states[..n + 1], actions[..n]);
      RunKeepsInv(c, states[..n + 1], actions[..n]);
      match actions[n]
      case OffererMoves(fails) => OfferDoesWork(c, states[n], fails);
      case ConsumerMoves(mode) => ConsumeDoesWork(c, states[n], mode);
      case PutTimesOut => TimeOutDoesWork(c, states[n]);
    }
  }

  // ---- What a successful run has done ----

  function CeilDiv(n: nat, d: nat): nat
    requires d > 0
  {
    (n + d - 1) / d
  }

  lemma {:induction false} FlattenLength(c: Config, batches: seq<seq<nat>>)
    requires AllFull(c, batches)
    ensures |Flatten(batches)| == |batches| * c.batchSize
  {
    if batches != [] {
      var n, d := |batches| - 1, c.batchSize;
      FlattenLength(c, batches[..n]);
      assert n * d + d == (n + 1) * d;
    }
  }

  lemma BatchCount(c: Config, batches: seq<seq<nat>>)
    requires Valid(c) && FullButLast(c, batches)
    ensures |batches| == CeilDiv(|Flatten(batches)|, c.batchSize)
  {
    if batches != [] {
      var full, last, d := |batches| - 1, |batches[|batches| - 1]|, c.batchSize;
      FlattenLength(c, batches[..full]);
      assert |Flatten(batches)| == full * d + last;
      assert full * d + last + d - 1 == (full + 1) * d + (last - 1);
      Division(full + 1, d, last - 1);
    }
  }

  /** Exactly once, in file order, in full batches, and counted right. */
  lemma SuccessfulRun(c: Config, states: seq<State>, actions: seq<Action>)
    requires Valid(c) && IsRun(c, states, actions) && states[|actions|].consumer == Over(true)
    ensures var s, n := states[|actions|], |c.records|;
            && Flatten(s.batches) == Range(0, n)
            && FullButLast(c, s.batches)
            && s.admissions == s.offered == n
            && s.batchNumber == s.refreshCalls == |s.batches| == CeilDiv(n, c.batchSize)
            && s.sourceRows == RowCount(c.records, n)
            && s.queue == [] && s.offerer == Exited
  {
    RunKeepsInv(c, states, actions);
    BatchCount(c, states[|actions|].batches);
  }

  /** In a successful run with events every batch started in the log, after the offers of all admissions up to its
      end. */
  lemma OffersPrecedeBatches(c: Config, states: seq<State>, actions: seq<Action>, k: nat) returns (p: nat)
    requires Valid(c) && c.events && IsRun(c, states, actions) && states[|actions|].consumer == Over(true)
    requires k < |states[|actions|].batches|
    ensures var s := states[|actions|];
            && p < |s.log| && s.log[p] == BatchStarted(k + 1, |Flatten(s.batches[..k + 1])|)
            && forall j :: 0 <= j < |Flatten(s.batches[..k + 1])| ==> AdmissionOffered(j) in s.log[..p]
  {
    var s := states[|actions|];
    RunKeepsInv(c, states, actions);
    assert HasStarted(s.log, s.batches, k);
    p :| p < |s.log| && s.log[p] == BatchStarted(k + 1, |Flatten(s.batches[..k + 1])|);
    assert StartedAfterOffers(s, p);
    forall j | 0 <= j < |Flatten(s.batches[..k + 1])| ensures AdmissionOffered(j) in s.log[..p] {
      assert OfferedBefore(s, j, s.log[..p]);
    }
  }

  /** In every reachable state an admission of a started batch lacks its offer exactly when its own emission failed. */
  lemma MissingOffer(c: Config, states: seq<State>, actions: seq<Action>, p: nat, j: nat)
    requires Valid(c) && IsRun(c, states, actions)
    requires var log := states[|actions|].log; p < |log| && log[p].BatchStarted? && j < log[p].upTo
    ensures var s := states[|actions|];
            AdmissionOffered(j) !in s.log[..p] <==> s.emitFailed && j == s.pushed - 1
  {
    var s := states[|actions|];
    RunKeepsInv(c, states, actions);
    assert StartedAfterOffers(s, p);
    assert OfferedBefore(s, j, s.log[..p]);
    assert AdmissionOffered(j) in s.log[..p] ==> AdmissionOffered(j) in s.log;
  }

  // ---- Runs, step by step ----

  /** One more step of a run. */
  lemma Step(c: Config, before: seq<State>, taken: seq<Action>, a: Action, t: State)
    returns (states: seq<State>, actions: seq<Action>)
    requires IsRun(c, before, taken) && Apply(c, before[|taken|], a) == Some(t)
    ensures IsRun(c, states, actions) && states[|actions|] == t
    ensures PutTimesOut !in taken && a != PutTimesOut ==> PutTimesOut !in actions
  {
    states, actions := before + [t], taken + [a];
    forall i | 0 <= i < |actions| ensures Apply(c, states[i], actions[i]) == Some(states[i + 1]) {
      if i < |taken| {
        assert Apply(c, before[i], taken[i]) == Some(before[i + 1]);
      }
    }
  }

  const OFFER: Action := OffererMoves(false)
  const CONSUME: Action := ConsumerMoves(Proceed)

  /** The offerer goes on to the put of its next admission. */
  lemma ReachPut(c: Config, before: seq<State>, taken: seq<Action>, i: nat)
    returns (states: seq<State>, actions: seq<Action>)
    requires IsRun(c, before, taken) && i < |c.records|
    requires before[|taken|].offerer == Next(i) && !before[|taken|].stop && PutTimesOut !in taken
    ensures IsRun(c, states, actions) && PutTimesOut !in actions
    ensures states[|actions|] == before[|taken|].(offerer := Put(Record(i)))
  {
    var s := before[|taken|].(offerer := Pace(i));
    states, actions := Step(c, before, taken, OFFER, s);
    s := s.(offerer := Check(i));
    states, actions := Step(c, states, actions, OFFER, s);
    s := s.(offerer := Test(Record(i)));
    states, actions := Step(c, states, actions, OFFER, s);
    s := s.(offerer := Put(Record(i)));
    states, actions := Step(c, states, actions, OFFER, s);
  }

  lemma Begin(c: Config) returns (states: seq<State>, actions: seq<Action>)
    ensures IsRun(c, states, actions) && PutTimesOut !in actions && states[|actions|] == Init().(offerer := Next(0))
  {
    states, actions := Step(c, [Init()], [], OFFER, Init().(offerer := Next(0)));
  }

  // ---- What the put timeout is for ----

  /** Three admissions, a queue of one, batches of one, no events. */
  const NARROW: Config := Config([[], [], []], 1, 1, false)

  /** The offerer is inside the put of the last admission, the queue is full, and the first admission is being
      flushed. */
  lemma BusyRun() returns (states: seq<State>, actions: seq<Action>)
    ensures IsRun(NARROW, states, actions) && PutTimesOut !in actions
    ensures var s := states[|actions|];
            s.offerer == Put(Record(2)) && s.queue == [Record(1)] && s.consumer == FlushWork && s.lock == Free
              && !s.stop
  {
    states, actions := Begin(NARROW);
    states, actions := ReachPut(NARROW, states, actions, 0);
    var s := Push(NARROW, states[|actions|], Record(0));
    states, actions := Step(NARROW, states, actions, OFFER, s);
    s := s.(offerer := Next(1), offered := 1);
    states, actions := Step(NARROW, states, actions, OFFER, s);
    s := Take(NARROW, s);
    states, actions := Step(NARROW, states, actions, CONSUME, s);
    states, actions := ReachPut(NARROW, states, actions, 1);
    s := Push(NARROW, states[|actions|], Record(1));
    states, actions := Step(NARROW, states, actions, OFFER, s);
    s := s.(offerer := Next(2), offered := 2);
    states, actions := Step(NARROW, states, actions, OFFER, s);
    states, actions := ReachPut(NARROW, states, actions, 2);
    s := Advance(NARROW, states[|actions|]).value;
    states, actions := Step(NARROW, states, actions, CONSUME, s);
    s := Advance(NARROW, s).value;
    states, actions := Step(NARROW, states, actions, CONSUME, s);
  }

  /** Without its timeout the put hangs: the flush fails, and then no step but the timeout is possible, for ever. */
  lemma UntimedPutHangs() returns (states: seq<State>, actions: seq<Action>)
    ensures IsRun(NARROW, states, actions) && PutTimesOut !in actions && !Done(states[|actions|])
    ensures forall a :: a != PutTimesOut ==> Apply(NARROW, states[|actions|], a) == None
  {
    states, actions := BusyRun();
    var s := states[|actions|].(consumer := Raise);
    states, actions := Step(NARROW, states, actions, ConsumerMoves(Fail), s);
    s := s.(consumer := Closing(false), stop := true);
    states, actions := Step(NARROW, states, actions, CONSUME, s);
    s := s.(consumer := Join(false));
    states, actions := Step(NARROW, states, actions, CONSUME, s);
  }

  // ---- A lost announcement ----

  /** One admission with no rows, batches of one, events on. */
  const SMALL: Config := Config([[]], 1, 1, true)

  /** The offerer queues the only admission and fails to print its offer, but sets the admission's event. */
  lemma LostOffer() returns (states: seq<State>, actions: seq<Action>)
    ensures IsRun(SMALL, states, actions)
    ensures states[|actions|]
         == Init().(offerer := Test(Failure), queue := [Record(0)], pushed := 1, offered := 1, signalled := 1,
                    emitFailed := true)
  {
    states, actions := Begin(SMALL);
    states, actions := ReachPut(SMALL, states, actions, 0);
    var s := Push(SMALL, states[|actions|], Record(0));
    states, actions := Step(SMALL, states, actions, OFFER, s);
    s := s.(offerer := Emit(0), lock := Offerer);
    states, actions := Step(SMALL, states, actions, OFFER, s);
    s := s.(offerer := SignalFailed(0), lock := Free, offered := 1, emitFailed := true);
    states, actions := Step(SMALL, states, actions, OffererMoves(true), s);
    s := s.(offerer := Test(Failure), signalled := 1);
    states, actions := Step(SMALL, states, actions, OFFER, s);
  }

  /** The consumer then starts a batch with the admission, whose offer is not in the log. */
  lemma OfferCanBeLost() returns (states: seq<State>, actions: seq<Action>)
    ensures IsRun(SMALL, states, actions) && states[|actions|].log == [BatchStarted(1, 1)]
  {
    states, actions := LostOffer();
    assert states[|actions|].queue[1..] == [];
    var s := states[|actions|].(queue := [], consumer := Wait(0));
    states, actions := Step(SMALL, states, actions, CONSUME, s);
    s := s.(consumer := Append(0));
    states, actions := Step(SMALL, states, actions, CONSUME, s);
    assert s.batch + [0] == [0];
    s := s.(consumer := FlushBegin, batch := [0], admissions := 1);
    states, actions := Step(SMALL, states, actions, CONSUME, s);
    s := s.(consumer := FlushLock, batchNumber := 1);
    states, actions := Step(SMALL, states, actions, CONSUME, s);
    s := s.(consumer := FlushEmit, lock := Consumer);
    states, actions := Step(SMALL, states, actions, CONSUME, s);
    assert s.log + [BatchStarted(1, 1)] == [BatchStarted(1, 1)];
    s := s.(consumer := FlushWork, lock := Free, log := [BatchStarted(1, 1)]);
    states, actions := Step(SMALL, states, actions, CONSUME, s);
  }

  // ---- The rows that reach the database ----

  function BatchRows(records: seq<Admission>, batch: seq<nat>): seq<SourceRow> {
    if batch == [] then []
    else
      var last := batch[|batch| - 1];
      BatchRows(records, batch[..|batch| - 1]) + if last < |records| then records[last] else []
  }

  function AllBatchRows(records: seq<Admission>, batches: seq<seq<nat>>): (r: seq<seq<SourceRow>>)
    ensures |r| == |batches|
  {
    seq(|batches|, k requires 0 <= k < |batches| => BatchRows(records, batches[k]))
  }

  lemma {:induction false} BatchRowsConcat(records: seq<Admission>, a: seq<nat>, b: seq<nat>)
    ensures BatchRows(records, a + b) == BatchRows(records, a) + BatchRows(records, b)
  {
    if b == [] {
      assert a + b == a;
    } else {
      assert (a + b)[..|a + b| - 1] == a + b[..|b| - 1];
      BatchRowsConcat(records, a, b[..|b| - 1]);
    }
  }

  lemma {:induction false} FlattenBatchRows(records: seq<Admission>, batches: seq<seq<nat>>)
    ensures Flatten(AllBatchRows(records, batches)) == BatchRows(records, Flatten(batches))
  {
    if batches != [] {
      var front := batches[..|batches| - 1];
      var rows := AllBatchRows(records, batches);
      assert rows[..|rows| - 1] == AllBatchRows(records, front);
      FlattenBatchRows(records, front);
      BatchRowsConcat(records, Flatten(front), batches[|batches| - 1]);
    }
  }

  lemma {:induction false} RangeRows(records: seq<Admission>, n: nat)
    requires n <= |records|
    ensures BatchRows(records, Range(0, n)) == Flatten(records[..n])
  {
    if n > 0 {
      assert Range(0, n)[..n - 1] == Range(0, n - 1);
      assert records[..n][..n - 1] == records[..n - 1];
      RangeRows(records, n - 1);
    }
  }

  /** The batches of a successful run hold the rows of the input, in order. */
  lemma BatchesHoldTheInput(c: Config, states: seq<State>, actions: seq<Action>)
    requires Valid(c) && IsRun(c, states, actions) && states[|actions|].consumer == Over(true)
    ensures Flatten(AllBatchRows(c.records, states[|actions|].batches)) == Flatten(c.records)
  {
    SuccessfulRun(c, states, actions);
    FlattenBatchRows(c.records, states[|actions|].batches);
    RangeRows(c.records, |c.records|);
    assert c.records[..|c.records|] == c.records;
  }

  /** Whatever the interleaving and the batch size, the run's transactions mean one transaction over the input. */
  lemma RunMeansOneTransaction(c: Config, states: seq<State>, actions: seq<Action>, table: Table)
    requires Valid(c) && IsRun(c, states, actions) && states[|actions|].consumer == Over(true)
    ensures SourceTransactions(table, AllBatchRows(c.records, states[|actions|].batches))
         == SourceTransaction(table, Flatten(c.records))
  {
    BatchesHoldTheInput(c, states, actions);
    BatchingPreservesMeaning(table, AllBatchRows(c.records, states[|actions|].batches));
  }
}
