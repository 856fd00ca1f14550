// The printed events of a run, offers and batches apart: each in order, without gap or repetition.

module EventLog {
  import opened Basics
  import opened SourceTable
  import opened Pipeline

  /** The admissions offered in the log, in its order. */
  function Offers(log: seq<Event>): seq<nat> {
    if log == [] then []
    else
      var last := log[|log| - 1];
      Offers(log[..|log| - 1]) + if last.AdmissionOffered? then [last.index] else []
  }

  /** The other events, in order. */
  function BatchEvents(log: seq<Event>): seq<Event> {
    if log == [] then []
    else
      var last := log[|log| - 1];
      BatchEvents(log[..|log| - 1]) + if last.AdmissionOffered? then [] else [last]
  }

  lemma AppendEvent(log: seq<Event>, event: Event)
    ensures Offers(log + [event]) == Offers(log) + if event.AdmissionOffered? then [event.index] else []
    ensures BatchEvents(log + [event]) == BatchEvents(log) + if event.AdmissionOffered? then [] else [event]
  {
    assert (log + [event])[..|log|] == log;
  }

  /** What the finished batches print: with events also their starts, numbered from 1. */
  function Reports(events: bool, batches: seq<seq<nat>>): seq<Event> {
    if batches == [] then []
    else
      Reports(events, batches[..|batches| - 1])
      + (if events then [BatchStarted(|batches|, |Flatten(batches)|)] else []) + [BatchComplete(|batches|)]
  }

  /** How many admissions have been offered. */
  function Emitted(s: State): nat {
    if Unannounced(s) && s.pushed > 0 then s.pushed - 1 else s.pushed
  }

  ghost predicate Closed(c: Config, s: State) {
    BatchEvents(s.log) == Reports(c.events, s.batches)
  }

  /** The batch being worked on has started. */
  ghost predicate Open(c: Config, s: State) {
    BatchEvents(s.log) == Reports(c.events, s.batches) + [BatchStarted(|s.batches| + 1, s.admissions)]
  }

  ghost predicate BatchLog(c: Config, s: State) {
    if LeftWell(s.consumer) then Closed(c, s)
    else if !Looping(s.consumer) then Closed(c, s) || (c.events && Open(c, s))
    else if c.events && s.consumer == FlushWork then Open(c, s)
    else Closed(c, s)
  }

  ghost predicate OfferLog(c: Config, s: State) {
    Offers(s.log) == if c.events then Range(0, Emitted(s)) else []
  }

  /** The offerer's next announcement is the next number. */
  lemma OfferEmits(c: Config, s: State, fails: bool)
    requires OffererInv(c, s) && AnnouncedInv(c, s) && Offer(c, s, fails).Some?
    ensures var t := Offer(c, s, fails).value;
            if s.offerer.Emit? && !fails then c.events && s.offerer.i == Emitted(s) && Emitted(t) == Emitted(s) + 1
            else c.events ==> Emitted(t) == Emitted(s)
  {
    match s.offerer
    case Put(item) => PutEmits(c, s, item);
    case Emit(i) =>
    case SignalFailed(i) =>
    case _ =>
  }

  lemma PutEmits(c: Config, s: State, item: Item)
    requires OffererInv(c, s) && s.offerer == Put(item)
    ensures c.events ==> Emitted(Push(c, s, item)) == Emitted(s)
  {
  }

  lemma OfferKeepsOfferLog(c: Config, s: State, fails: bool)
    requires OffererInv(c, s) && AnnouncedInv(c, s) && OfferLog(c, s) && Offer(c, s, fails).Some?
    ensures OfferLog(c, Offer(c, s, fails).value) && BatchEvents(Offer(c, s, fails).value.log) == BatchEvents(s.log)
  {
    OfferLogs(c, s, fails);
    OfferEmits(c, s, fails);
    if s.offerer.Emit? && !fails {
      AppendEvent(s.log, AdmissionOffered(s.offerer.i));
      assert Range(0, Emitted(s)) + [s.offerer.i] == Range(0, Emitted(s) + 1);
    }
  }

  lemma OfferLogMoves(c: Config, s: State, t: State)
    requires OfferLog(c, s) && SameOfferer(s, t) && LogMoves(c, s, t)
    ensures OfferLog(c, t)
  {
    AppendEvent(s.log, BatchStarted(t.batchNumber, t.admissions));
    AppendEvent(s.log, BatchComplete(s.batchNumber));
  }

  /** Where a step of the consumer can lead, as far as the log is concerned. */
  predicate Follows(c: Config, s: State, t: State) {
    && (t.admissions == s.admissions || s.consumer.Append?)
    && (t.batchNumber == s.batchNumber || s.consumer == FlushBegin)
    && (Looping(t.consumer) ==> Looping(s.consumer))
    && (LeftWell(t.consumer) ==> LeftWell(s.consumer) || s.consumer == AfterLoop || s.consumer == FlushWork)
    && (s.consumer == FlushWork ==> t.consumer == Get || !Looping(t.consumer))
    && (s.consumer == FlushWork && LeftWell(t.consumer) ==> t.consumer == Closing(true))
    && (s.consumer.Append? ==> Looping(t.consumer) || !LeftWell(t.consumer))
  }

  lemma LoopFollows(c: Config, s: State)
    requires s.consumer == Get || s.consumer.Wait? || s.consumer.Append? || s.consumer == AfterLoop
    requires Advance(c, s).Some?
    ensures Follows(c, s, Advance(c, s).value)
  {
    match s.consumer
    case Get => assert Advance(c, s).value == Take(c, s);
    case Wait(i) =>
    case Append(i) =>
    case AfterLoop =>
  }

  lemma FlushFollows(c: Config, s: State)
    requires (s.consumer == FlushBegin || Flushing(s.consumer)) && Advance(c, s).Some?
    ensures Follows(c, s, Advance(c, s).value)
  {
    match s.consumer
    case FlushBegin =>
    case FlushLock =>
    case FlushEmit =>
    case FlushWork =>
  }

  lemma ConsumerFollows(c: Config, s: State, mode: Mode)
    requires Consume(c, s, mode).Some?
    ensures Follows(c, s, Consume(c, s, mode).value)
  {
    if mode != Proceed {
      assert Consume(c, s, mode).value == s.(consumer := Consume(c, s, mode).value.consumer, lock := Released(s));
    } else if s.consumer == FlushBegin || Flushing(s.consumer) {
      FlushFollows(c, s);
    } else if s.consumer == Raise || !Running(s.consumer) {
      EndFollows(c, s);
    } else {
      LoopFollows(c, s);
    }
  }

  lemma EndFollows(c: Config, s: State)
    requires (s.consumer == Raise || !Running(s.consumer)) && Advance(c, s).Some?
    ensures Follows(c, s, Advance(c, s).value)
  {
    match s.consumer
    case Raise =>
    case Closing(ok) =>
    case Join(ok) =>
  }

  lemma BatchLogMoves(c: Config, s: State, t: State)
    requires ControlInv(c, s) && ContentInv(c, s) && BatchLog(c, s) && LogMoves(c, s, t) && Follows(c, s, t)
    ensures BatchLog(c, t)
  {
    AppendEvent(s.log, BatchStarted(t.batchNumber, t.admissions));
    if s.consumer == FlushWork && (t.consumer == Get || t.consumer == Closing(true)) {
      FinishedIsReported(c, s, t);
    }
  }

  lemma FinishedIsReported(c: Config, s: State, t: State)
    requires ContentInv(c, s) && BatchLog(c, s) && s.consumer == FlushWork && s.batchNumber == |s.batches| + 1
    requires t.batches == s.batches + [s.batch] && t.log == s.log + [BatchComplete(s.batchNumber)]
    ensures Closed(c, t)
  {
    AppendEvent(s.log, BatchComplete(s.batchNumber));
    assert t.batches[..|s.batches|] == s.batches;
    assert |Flatten(s.batches) + s.batch| == s.admissions;
  }

  lemma StepKeepsLog(c: Config, s: State, a: Action)
    requires Inv(c, s) && OfferLog(c, s) && BatchLog(c, s) && Apply(c, s, a).Some?
    ensures OfferLog(c, Apply(c, s, a).value) && BatchLog(c, Apply(c, s, a).value)
  {
    match a
    case OffererMoves(fails) =>
      OfferKeepsOfferLog(c, s, fails);
      OfferLeavesConsumer(c, s, fails);
    case PutTimesOut =>
    case ConsumerMoves(mode) =>
      ConsumerTouches(c, s, mode);
      ConsumerFollows(c, s, mode);
      OfferLogMoves(c, s, Consume(c, s, mode).value);
      BatchLogMoves(c, s, Consume(c, s, mode).value);
  }

  /** In every reachable state the offers are those of the admissions that were put and announced, in order, and the
      batch events those of the finished batches, in order, with the start of an unfinished one behind them. */
  lemma {:induction false} LogIsOrdered(c: Config, states: seq<State>, actions: seq<Action>)
    requires Valid(c) && IsRun(c, states, actions)
    ensures OfferLog(c, states[|actions|]) && BatchLog(c, states[|actions|])
  {
    if actions == [] {
      assert Range(0, 0) == [];
    } else {
      var n := |actions| - 1;
      assert Apply(c, states[n], actions[n]) == Some(states[n + 1]);
      LogIsOrdered(c, states[..n + 1], actions[..n]);
      RunKeepsInv(c, states[..n + 1], actions[..n]);
      StepKeepsLog(c, states[n], actions[n]);
    }
  }

  /** A successful run prints every offer once, in file order, and every batch's start and end, in order. */
  lemma SuccessfulLog(c: Config, states: seq<State>, actions: seq<Action>)
    requires Valid(c) && IsRun(c, states, actions) && states[|actions|].consumer == Over(true)
    ensures var s := states[|actions|];
            && Offers(s.log) == (if c.events then Range(0, |c.records|) else [])
            && BatchEvents(s.log) == Reports(c.events, s.batches)
  {
    LogIsOrdered(c, states, actions);
    RunKeepsInv(c, states, actions);
  }
}
