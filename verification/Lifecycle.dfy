// The lifecycle planner and the reference oracle (src/lifecycle.rs:3-55, src/oracle.rs:7-43).

module Lifecycle {
  import opened Basics

  const MAX_U64: nat := 0xFFFF_FFFF_FFFF_FFFF

  type Key = k: int | -0x8000_0000_0000_0000 <= k < 0x8000_0000_0000_0000

  datatype ActivationState = ActivationState(active: bool, generation: nat)

  datatype EventKind = Activate | Deactivate | Noop

  datatype Transition = Transition(event: EventKind, generation: nat, next: ActivationState)

  /** None is the panic on generation overflow. */
  function Plan(previous: ActivationState, present: bool): Option<Transition> {
    match (previous.active, present)
    case (false, true) =>
      if previous.generation >= MAX_U64 then None
      else
        var generation := previous.generation + 1;
        Some(Transition(Activate, generation, ActivationState(true, generation)))
    case (true, false) => Some(Transition(Deactivate, previous.generation, previous.(active := false)))
    case _ => Some(Transition(Noop, previous.generation, previous))
  }

  // ---- Membership histories ----

  /** The match sets applied so far, oldest first. */
  type History = seq<set<Key>>

  function Active(history: History): set<Key> {
    if history == [] then {} else history[|history| - 1]
  }

  function Seen(history: History): set<Key> {
    if history == [] then {} else Seen(history[..|history| - 1]) + history[|history| - 1]
  }

  /** How often the key entered the match set. */
  function RisingEdges(history: History, key: Key): nat {
    if history == [] then 0
    else
      var before := history[..|history| - 1];
      RisingEdges(before, key) + if key in Active(history) && key !in Active(before) then 1 else 0
  }

  function StateAfter(history: History, key: Key): ActivationState {
    ActivationState(key in Active(history), RisingEdges(history, key))
  }

  function EventOf(before: set<Key>, after: set<Key>, key: Key): EventKind {
    if key in after && key !in before then Activate
    else if key !in after && key in before then Deactivate
    else Noop
  }

  // ---- Event logs ----

  type Log = seq<(Key, Transition)>

  function Replay(active: set<Key>, log: Log): set<Key> {
    if log == [] then active
    else
      var (key, transition) := log[|log| - 1];
      var earlier := Replay(active, log[..|log| - 1]);
      match transition.event
      case Activate => earlier + {key}
      case Deactivate => earlier - {key}
      case Noop => earlier
  }

  lemma {:induction false} ReplayConcat(active: set<Key>, a: Log, b: Log)
    ensures Replay(active, a + b) == Replay(Replay(active, a), b)
  {
    if b == [] {
      assert a + b == a;
    } else {
      assert (a + b)[..|a + b| - 1] == a + b[..|b| - 1];
      ReplayConcat(active, a, b[..|b| - 1]);
    }
  }

  function KeysOf(log: Log): set<Key> {
    set i | 0 <= i < |log| :: log[i].0
  }

  /** One transition per key, in key order, each the planner's answer to the key's membership change. */
  ghost predicate Transitions(history: History, matches: set<Key>, log: Log) {
    && (forall i, j :: 0 <= i < j < |log| ==> log[i].0 < log[j].0)
    && (forall i :: 0 <= i < |log| ==> log[i].1 == TransitionOf(history, matches, log[i].0))
  }

  function TransitionOf(history: History, matches: set<Key>, key: Key): Transition {
    var next := StateAfter(history + [matches], key);
    Transition(EventOf(Active(history), matches, key), next.generation, next)
  }

  /** The key would enter once more after 2^64 - 1 entries. */
  ghost predicate Overflows(history: History, matches: set<Key>, key: Key) {
    key in matches && key !in Active(history) && RisingEdges(history, key) >= MAX_U64
  }

  /** The planner follows the membership history until the generation overflows. */
  lemma PlanFollowsHistory(history: History, matches: set<Key>, key: Key)
    ensures Plan(StateAfter(history, key), key in matches)
         == if Overflows(history, matches, key) then None else Some(TransitionOf(history, matches, key))
  {
    assert (history + [matches])[..|history|] == history;
  }

  lemma UnseenIsDefault(history: History, key: Key)
    requires key !in Seen(history)
    ensures StateAfter(history, key) == ActivationState(false, 0)
  {
    if history != [] {
      UnseenIsDefault(history[..|history| - 1], key);
    }
  }

  /** The events of one application turn the old match set into the new one. */
  lemma {:induction false} ReplayStep(history: History, matches: set<Key>, log: Log)
    requires Transitions(history, matches, log)
    ensures Replay(Active(history), log) == (Active(history) - KeysOf(log)) + (matches * KeysOf(log))
  {
    if log != [] {
      var front, last := log[..|log| - 1], log[|log| - 1];
      ReplayStep(history, matches, front);
      assert KeysOf(log) == KeysOf(front) + {last.0} by {
        forall k | k in KeysOf(front) ensures k in KeysOf(log) {
          var i :| 0 <= i < |front| && front[i].0 == k;
          assert log[i].0 == k;
        }
        assert log[|log| - 1].0 == last.0;
        forall k | k in KeysOf(log) && k != last.0 ensures k in KeysOf(front) {
          var i :| 0 <= i < |log| && log[i].0 == k;
          assert front[i].0 == k;
        }
      }
      assert last.0 !in KeysOf(front);
    }
  }

  // ---- The oracle ----

  predicate IsLeast(key: Key, keys: set<Key>) {
    key in keys && forall k :: k in keys ==> key <= k
  }

  ghost predicate AllBelow(done: set<Key>, remaining: set<Key>) {
    forall k, k' :: k in done && k' in remaining ==> k < k'
  }

  lemma NextLeast(done: set<Key>, remaining: set<Key>, key: Key)
    requires AllBelow(done, remaining) && IsLeast(key, remaining)
    ensures AllBelow(done + {key}, remaining - {key})
    ensures key !in done && forall k :: k in done ==> k < key
    ensures (done + {key}) + (remaining - {key}) == done + remaining
  {
  }

  lemma {:induction false} MinExists(keys: set<Key>) returns (least: Key)
    requires keys != {}
    ensures IsLeast(least, keys)
    decreases |keys|
  {
    var some :| some in keys;
    if keys == {some} {
      least := some;
    } else {
      var rest := MinExists(keys - {some});
      least := if rest < some then rest else some;
      assert forall k :: k in keys ==> k == some || k in keys - {some};
    }
  }

  /** The walk has handled the keys in done; all others still have the state of before. */
  ghost predicate Walked(before: History, matches: set<Key>, done: set<Key>, states: map<Key, ActivationState>,
                         log: Log) {
    && Transitions(before, matches, log) && KeysOf(log) == done
    && states.Keys == Seen(before) + done
    && (forall key :: key in states ==>
          states[key] == StateAfter(if key in done then before + [matches] else before, key))
    && (forall key :: key in done ==> !Overflows(before, matches, key))
  }

  function Lookup(states: map<Key, ActivationState>, key: Key): ActivationState {
    if key in states then states[key] else ActivationState(false, 0)
  }

  lemma WalkOne(before: History, matches: set<Key>, done: set<Key>, states: map<Key, ActivationState>, log: Log,
                key: Key)
    requires Walked(before, matches, done, states, log) && key !in done && forall k :: k in done ==> k < key
    ensures Plan(Lookup(states, key), key in matches).None? <==> Overflows(before, matches, key)
    ensures var plan := Plan(Lookup(states, key), key in matches);
            plan.Some? ==> Walked(before, matches, done + {key}, states[key := plan.value.next],
                                  log + [(key, plan.value)])
  {
    if key !in states { UnseenIsDefault(before, key); }
    PlanFollowsHistory(before, matches, key);
    var plan := Plan(Lookup(states, key), key in matches);
    if plan.Some? {
      KeysAppend(log, (key, plan.value));
      var longer := log + [(key, plan.value)];
      forall i, j | 0 <= i < j < |longer| ensures longer[i].0 < longer[j].0 {
        if j == |log| { assert log[i].0 in KeysOf(log); }
      }
    }
  }

  // ---- The events of one key ----

  /** The events that a membership history should give one key, with the idle applications dropped. */
  function KeyEvents(history: History, key: Key): seq<EventKind> {
    if history == [] then []
    else
      var before := history[..|history| - 1];
      var event := EventOf(Active(before), Active(history), key);
      KeyEvents(before, key) + if event == Noop then [] else [event]
  }

  /** The events that a log holds for one key, without those that change nothing. */
  function EmittedEvents(log: Log, key: Key): seq<EventKind> {
    if log == [] then []
    else
      var (last, transition) := log[|log| - 1];
      EmittedEvents(log[..|log| - 1], key) + if last == key && transition.event != Noop then [transition.event] else []
  }

  lemma {:induction false} EmittedConcat(a: Log, b: Log, key: Key)
    ensures EmittedEvents(a + b, key) == EmittedEvents(a, key) + EmittedEvents(b, key)
  {
    if b == [] {
      assert a + b == a;
    } else {
      assert (a + b)[..|a + b| - 1] == a + b[..|b| - 1];
      EmittedConcat(a, b[..|b| - 1], key);
    }
  }

  /** One application emits at most one effective event for each key. */
  lemma {:induction false} EmittedOnce(history: History, matches: set<Key>, log: Log, key: Key)
    requires Transitions(history, matches, log)
    ensures var event := EventOf(Active(history), matches, key);
            EmittedEvents(log, key) == if key in KeysOf(log) && event != Noop then [event] else []
  {
    if log != [] {
      var front, last := log[..|log| - 1], log[|log| - 1];
      EmittedOnce(history, matches, front, key);
      KeysAppend(front, last);
      assert log == front + [last];
      LastIsNew(history, matches, log);
    }
  }

  /** The last transition's key is above all others. */
  lemma LastIsNew(history: History, matches: set<Key>, log: Log)
    requires Transitions(history, matches, log) && log != []
    ensures Transitions(history, matches, log[..|log| - 1])
    ensures log[|log| - 1].0 !in KeysOf(log[..|log| - 1])
  {
    var front := log[..|log| - 1];
    forall key | key in KeysOf(front) ensures key < log[|log| - 1].0 {
      var i :| 0 <= i < |front| && front[i].0 == key;
      assert log[i].0 < log[|log| - 1].0;
    }
  }

  /** The log's events for every key are those of the history. */
  ghost predicate EventsFollow(history: History, log: Log) {
    forall key :: EmittedEvents(log, key) == KeyEvents(history, key)
  }

  lemma EventsFollowOn(before: History, log: Log, matches: set<Key>, transitions: Log)
    requires EventsFollow(before, log) && Transitions(before, matches, transitions)
    requires KeysOf(transitions) == Seen(before) + matches
    ensures EventsFollow(before + [matches], log + transitions)
  {
    var history := before + [matches];
    assert history[..|history| - 1] == before;
    ActiveIsSeen(before);
    forall key ensures EmittedEvents(log + transitions, key) == KeyEvents(history, key) {
      EmittedConcat(log, transitions, key);
      EmittedOnce(before, matches, transitions, key);
    }
  }

  ghost predicate Consistent(states: map<Key, ActivationState>, history: History, log: Log) {
    && states.Keys == Seen(history)
    && (forall key :: key in states ==> states[key] == StateAfter(history, key))
    && Replay({}, log) == Active(history)
    && EventsFollow(history, log)
  }

  lemma StartWalk(states: map<Key, ActivationState>, history: History, log: Log, matches: set<Key>)
    requires Consistent(states, history, log)
    ensures Walked(history, matches, {}, states, [])
  {
  }

  lemma FinishWalk(states: map<Key, ActivationState>, before: History, log: Log, matches: set<Key>, transitions: Log)
    requires Replay({}, log) == Active(before) && EventsFollow(before, log)
    requires Walked(before, matches, Seen(before) + matches, states, transitions)
    ensures Consistent(states, before + [matches], log + transitions)
    ensures forall key :: !Overflows(before, matches, key)
  {
    var history := before + [matches];
    assert history[..|history| - 1] == before;
    ReplayConcat({}, log, transitions);
    ReplayStep(before, matches, transitions);
    ActiveIsSeen(before);
    EventsFollowOn(before, log, matches, transitions);
  }

  /** The walk through all keys in order: what is done lies below what remains. */
  ghost predicate Walking(before: History, matches: set<Key>, all: set<Key>, done: set<Key>, remaining: set<Key>,
                          states: map<Key, ActivationState>, log: Log)
  {
    forall k :: Unfolded(k) ==>
      done + remaining == all && AllBelow(done, remaining) && Walked(before, matches, done, states, log)
  }

  lemma BeginWalking(states: map<Key, ActivationState>, history: History, log: Log, matches: set<Key>)
    requires Consistent(states, history, log)
    ensures states.Keys + matches == Seen(history) + matches
    ensures Walking(history, matches, Seen(history) + matches, {}, Seen(history) + matches, states, [])
  {
    StartWalk(states, history, log, matches);
  }

  lemma WalkStep(before: History, matches: set<Key>, all: set<Key>, done: set<Key>, remaining: set<Key>,
                 states: map<Key, ActivationState>, log: Log, key: Key)
    requires Walking(before, matches, all, done, remaining, states, log) && IsLeast(key, remaining)
    ensures Plan(Lookup(states, key), key in matches).None? <==> Overflows(before, matches, key)
    ensures var plan := Plan(Lookup(states, key), key in matches);
            plan.Some? ==> Walking(before, matches, all, done + {key}, remaining - {key},
                                   states[key := plan.value.next], log + [(key, plan.value)])
  {
    assert Unfolded(0);
    NextLeast(done, remaining, key);
    WalkOne(before, matches, done, states, log, key);
  }

  lemma EndWalking(states: map<Key, ActivationState>, before: History, log: Log, matches: set<Key>, done: set<Key>,
                   transitions: Log)
    requires Replay({}, log) == Active(before) && EventsFollow(before, log)
    requires Walking(before, matches, Seen(before) + matches, done, {}, states, transitions)
    ensures Consistent(states, before + [matches], log + transitions)
    ensures Transitions(before, matches, transitions) && KeysOf(transitions) == Seen(before) + matches
    ensures forall key :: !Overflows(before, matches, key)
  {
    assert Unfolded(0);
    assert done == Seen(before) + matches;
    FinishWalk(states, before, log, matches, transitions);
  }

  class ReferenceOracle {
    var states: map<Key, ActivationState>
    ghost var history: History
    ghost var log: Log

    ghost predicate Valid()
      reads this
    {
      Consistent(states, history, log)
    }

    constructor ()
      ensures Valid() && history == [] && log == []
    {
      states, history, log := map[], [], [];
    }

    /** None is the overflow panic; it needs a key that has already entered 2^64 - 1 times. */
    method ApplyFinalMatches(matches: set<Key>) returns (r: Option<Log>)
      requires Valid()
      modifies this
      ensures r.None? <==> exists key :: Overflows(old(history), matches, key)
      ensures r.Some? ==> Valid() && history == old(history) + [matches] && log == old(log) + r.value
      ensures r.Some? ==> Transitions(old(history), matches, r.value)
      ensures r.Some? ==> KeysOf(r.value) == Seen(old(history)) + matches
    {
      ghost var before, all := history, Seen(history) + matches;
      ghost var done: set<Key> := {};
      BeginWalking(states, history, log, matches);
      var remaining := states.Keys + matches;
      var transitions: Log := [];
      while remaining != {}
        invariant history == before && log == old(log)
        invariant Walking(before, matches, all, done, remaining, states, transitions)
        decreases |remaining|
      {
        ghost var least := MinExists(remaining);
        var key :| IsLeast(key, remaining);
        var plan := Plan(Lookup(states, key), key in matches);
        WalkStep(before, matches, all, done, remaining, states, transitions, key);
        if plan.None? {
          return None;
        }
        states := states[key := plan.value.next];
        transitions := transitions + [(key, plan.value)];
        done, remaining := done + {key}, remaining - {key};
      }
      EndWalking(states, before, log, matches, done, transitions);
      history := history + [matches];
      log := log + transitions;
      r := Some(transitions);
    }

    method ActiveKeys() returns (keys: set<Key>)
      requires Valid()
      ensures keys == Active(history)
    {
      keys := set key | key in states && states[key].active;
      ActiveIsSeen(history);
    }
  }

  lemma KeysAppend(log: Log, entry: (Key, Transition))
    ensures KeysOf(log + [entry]) == KeysOf(log) + {entry.0}
  {
    var longer := log + [entry];
    forall k | k in KeysOf(log) ensures k in KeysOf(longer) {
      var i :| 0 <= i < |log| && log[i].0 == k;
      assert longer[i].0 == k;
    }
    assert longer[|log|].0 == entry.0;
    forall k | k in KeysOf(longer) && k != entry.0 ensures k in KeysOf(log) {
      var i :| 0 <= i < |longer| && longer[i].0 == k;
      assert log[i].0 == k;
    }
  }

  lemma ActiveIsSeen(history: History)
    ensures Active(history) <= Seen(history)
  {
  }

  // ---- Whole histories ----

  /** A key's events alternate, starting with Activate, two for every generation but an open one. */
  lemma {:induction false} EventsAlternate(history: History, key: Key)
    ensures |KeyEvents(history, key)| == 2 * RisingEdges(history, key) - if key in Active(history) then 1 else 0
    ensures forall i :: 0 <= i < |KeyEvents(history, key)| ==>
                          KeyEvents(history, key)[i] == if i % 2 == 0 then Activate else Deactivate
  {
    if history != [] {
      EventsAlternate(history[..|history| - 1], key);
    }
  }

  /** The events that a consistent log holds for a key alternate, beginning with Activate. */
  lemma EmittedEventsAlternate(states: map<Key, ActivationState>, history: History, log: Log, key: Key)
    requires Consistent(states, history, log)
    ensures |EmittedEvents(log, key)| == 2 * RisingEdges(history, key) - if key in Active(history) then 1 else 0
    ensures forall i :: 0 <= i < |EmittedEvents(log, key)| ==>
                          EmittedEvents(log, key)[i] == if i % 2 == 0 then Activate else Deactivate
  {
    EventsAlternate(history, key);
  }

  /** Applying the same match set again is all Noop and changes no state. */
  lemma ReapplyIsNoop(history: History, matches: set<Key>, log: Log)
    requires history != [] && Active(history) == matches && Transitions(history, matches, log)
    ensures forall i :: 0 <= i < |log| ==>
      log[i].1.event == Noop && log[i].1.next == StateAfter(history, log[i].0)
  {
    assert (history + [matches])[..|history|] == history;
  }

  /** A key enters at most every other application, so an overflow takes about 2^65 of them. */
  lemma {:induction false} EdgesBound(history: History, key: Key)
    ensures 2 * RisingEdges(history, key) <= |history| + if key in Active(history) then 1 else 0
  {
    if history != [] {
      EdgesBound(history[..|history| - 1], key);
    }
  }

  /** The generation of a key, 64 bits wide, overflows only after 2^65 - 2 applications. */
  lemma OverflowIsFar(history: History, matches: set<Key>, key: Key)
    requires Overflows(history, matches, key)
    ensures |history| >= 36893488147419103230
  {
    EdgesBound(history, key);
  }
}
