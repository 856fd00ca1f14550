// A whole producer run: the batches that the two threads form, sent to the database one after another.

module ProducerRun {
  import opened Basics
  import opened SourceTable
  import opened RefreshProducer
  import P = Pipeline

  /** The batches of any successful interleaving, against any database: a run that completes leaves the pinned
      server's table as one transaction over the whole input would, so it needs consistent input. */
  method SendRun(producer: Producer, c: P.Config, batches: seq<seq<nat>>, ghost states: seq<P.State>,
                 ghost actions: seq<P.Action>)
    returns (outcome: Option<StopReason>)
    requires P.Valid(c) && P.IsRun(c, states, actions) && states[|actions|].consumer == P.Over(true)
    requires batches == states[|actions|].batches
    requires producer.pinned == None && producer.completions == [] && LateWithin(producer.db.late, Flatten(c.records))
    modifies producer
    ensures outcome.None? ==> producer.refreshCalls == old(producer.refreshCalls) + P.CeilDiv(|c.records|, c.batchSize)
    ensures outcome.None? && c.records != [] ==>
      && producer.pinned.Some?
      && var before, after := TableAt(old(producer.db).tables, producer.pinned.value),
      TableAt(producer.db.tables, producer.pinned.value);
         SourceTransaction(before, Flatten(c.records)) == Some(after) && Compatible(before, Flatten(c.records))
    ensures Evolves(old(producer.db), producer.db, Flatten(c.records), PinnedReach(producer.pinned))
  {
    P.BatchesHoldTheInput(c, states, actions);
    P.SuccessfulRun(c, states, actions);
    outcome := producer.RunBatches(P.AllBatchRows(c.records, batches));
  }
}
