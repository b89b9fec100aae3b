/** What holds of every run of the promise-queue machine, for every guest and host. */
module RuntimeRuns {
  import opened Collections
  import opened Runtime

  ghost predicate CalledAt(e: Event, level: nat) {
    e.Called? && e.level == level
  }

  ghost predicate BuiltAt(e: Event, level: nat) {
    CalledAt(e, level) && e.built.Some?
  }

  /** The queue built by the last guest call of a level that returned, empty if none did. */
  ghost function LastBuilt(log: seq<Event>, level: nat): seq<Promise> {
    if log == [] then []
    else if BuiltAt(log[|log| - 1], level) then log[|log| - 1].built.value
    else LastBuilt(log[..|log| - 1], level)
  }

  lemma LastBuiltAppend(log: seq<Event>, e: Event, level: nat)
    ensures LastBuilt(log + [e], level) == if BuiltAt(e, level) then e.built.value else LastBuilt(log, level)
  {
    assert (log + [e])[..|log|] == log;
  }

  /** A guest call saw the recorded status of every earlier promise, its own promise
      pending, and the later ones as they were queued. */
  ghost predicate SawEarlier(e: Event, recorded: seq<Promise>)
    requires e.Called?
  {
    && e.index < |e.view| == |recorded|
    && (forall j :: 0 <= j < e.index ==> e.view[j] == recorded[j])
    && recorded[e.index].action == CallSelf(e.functionName, e.args)
    && e.view[e.index] == Promise(recorded[e.index].action, Pending)
  }

  ghost predicate SawLater(e: Event, queued: seq<Promise>)
    requires e.Called?
  {
    e.index < |e.view| == |queued| && forall j :: e.index < j < |queued| ==> e.view[j] == queued[j]
  }

  ghost predicate SameActions(a: seq<Promise>, b: seq<Promise>) {
    |a| == |b| && forall j :: 0 <= j < |a| ==> a[j].action == b[j].action
  }

  /** What a finished promise looks like: a forbidden action is rejected, a broadcast stays
      pending, and everything else is fulfilled or rejected. */
  ghost predicate Settled<W>(m: Machine<W>, p: Promise) {
    if m.limited && p.action.IsLimitedAction() then p.status.Rejected?
    else if p.action.P2PBroadcast? then p.status.Pending?
    else p.status.Fulfilled? || p.status.Rejected?
  }

  ghost predicate AllowedEvent<W>(m: Machine<W>, e: Event) {
    m.limited ==> e.Called? || (e.HostEffect? && e.action.Http?)
  }

  // ----- within one queue

  /** Promises before `i` are settled, the rest untouched. */
  ghost predicate QueueInv<W>(m: Machine<W>, queued: seq<Promise>, queue: seq<Promise>, i: nat) {
    && SameActions(queue, queued) && i <= |queued|
    && (forall j :: i <= j < |queued| ==> queue[j] == queued[j])
    && (forall j :: 0 <= j < i ==> Settled(m, queue[j]))
  }

  /** The guest trapped in promise `f`: it stays pending, and later ones are untouched. */
  ghost predicate BrokenAt<W>(m: Machine<W>, queued: seq<Promise>, queue: seq<Promise>, f: nat) {
    && SameActions(queue, queued) && f < |queued|
    && (forall j :: 0 <= j < f ==> Settled(m, queue[j]))
    && queue[f].action.CallSelf? && queue[f].status == Pending
    && (forall j :: f < j < |queued| ==> queue[j] == queued[j])
  }

  /** Guest calls of this level saw the queue as it stands. */
  ghost predicate CallsInv(queued: seq<Promise>, recorded: seq<Promise>, log: seq<Event>, level: nat, i: nat) {
    forall k :: 0 <= k < |log| && CalledAt(log[k], level) ==>
      log[k].index < i && SawEarlier(log[k], recorded) && SawLater(log[k], queued)
  }

  /** The log grew by allowed events, whose guest calls are of this level. */
  ghost predicate LogGrew<W>(m: Machine<W>, before: seq<Event>, log: seq<Event>, level: nat) {
    && before <= log
    && forall k :: |before| <= k < |log| ==> AllowedEvent(m, log[k]) && (log[k].Called? ==> log[k].level == level)
  }

  /** A step touches its own promise only, and never its action. */
  lemma StepTouchesOne<W>(m: Machine<W>, st: Level<W>, level: nat, i: nat)
    requires i < |st.queue|
    ensures var queue := StepPromise(m, level, st, i).queue;
            && |queue| == |st.queue| && queue[i].action == st.queue[i].action
            && forall j :: 0 <= j < |queue| && j != i ==> queue[j] == st.queue[j]
  {
  }

  lemma StepQueueInv<W>(m: Machine<W>, queued: seq<Promise>, st: Level<W>, level: nat, i: nat)
    requires QueueInv(m, queued, st.queue, i) && i < |queued| && st.error.None?
    ensures var st' := StepPromise(m, level, st, i);
            if st'.error.None? then QueueInv(m, queued, st'.queue, i + 1) else BrokenAt(m, queued, st'.queue, i)
  {
    StepTouchesOne(m, st, level, i);
  }

  /** The one event that a step adds, if it adds one. */
  lemma StepLog<W>(m: Machine<W>, st: Level<W>, level: nat, i: nat)
    requires i < |st.queue| && st.error.None?
    ensures var st' := StepPromise(m, level, st, i);
            || (st'.log == st.log && st'.next == st.next && st'.error.None?)
            || (exists e :: st'.log == st.log + [e] && AllowedEvent(m, e) &&
                  if BuiltAt(e, level) then st'.next == e.built.value else st'.next == st.next)
    ensures var st' := StepPromise(m, level, st, i);
            forall e :: st'.log == st.log + [e] && e.Called? ==>
              && st.queue[i].action == CallSelf(e.functionName, e.args)
              && e.level == level && e.index == i && e.view == st.queue[i := Promise(st.queue[i].action, Pending)]
              && e.built == if st'.error.None? then Some(st'.next) else None
  {
    var st' := StepPromise(m, level, st, i);
    if st'.log != st.log {
      var e := st'.log[|st.log|];
      assert st'.log == st.log + [e];
    }
  }

  lemma StepCallsInv<W>(m: Machine<W>, queued: seq<Promise>, st: Level<W>, level: nat, i: nat)
    requires QueueInv(m, queued, st.queue, i) && CallsInv(queued, st.queue, st.log, level, i)
    requires i < |queued| && st.error.None?
    ensures CallsInv(queued, StepPromise(m, level, st, i).queue, StepPromise(m, level, st, i).log, level, i + 1)
  {
    var st' := StepPromise(m, level, st, i);
    StepTouchesOne(m, st, level, i);
    StepLog(m, st, level, i);
    forall k | 0 <= k < |st'.log| && CalledAt(st'.log[k], level)
      ensures st'.log[k].index < i + 1 && SawEarlier(st'.log[k], st'.queue) && SawLater(st'.log[k], queued)
    {
      if k < |st.log| {
        assert st'.log[k] == st.log[k];
      } else {
        assert st'.log == st.log + [st'.log[k]];
      }
    }
  }

  lemma StepGrew<W>(m: Machine<W>, before: seq<Event>, st: Level<W>, level: nat, i: nat, other: nat)
    requires LogGrew(m, before, st.log, level) && st.next == LastBuilt(st.log, level)
    requires other != level ==> LastBuilt(st.log, other) == LastBuilt(before, other)
    requires i < |st.queue| && st.error.None?
    ensures var st' := StepPromise(m, level, st, i);
            && LogGrew(m, before, st'.log, level) && st'.next == LastBuilt(st'.log, level)
            && (other != level ==> LastBuilt(st'.log, other) == LastBuilt(before, other))
  {
    var st' := StepPromise(m, level, st, i);
    StepLog(m, st, level, i);
    if st'.log != st.log {
      var e := st'.log[|st.log|];
      LastBuiltAppend(st.log, e, level);
      LastBuiltAppend(st.log, e, other);
    }
  }

  /** The log of one queue, whether or not it ends in an error. */
  lemma {:induction false} LevelGrew<W>(m: Machine<W>, before: seq<Event>, st: Level<W>, level: nat, i: nat, other: nat)
    requires i <= |st.queue| && LogGrew(m, before, st.log, level) && st.next == LastBuilt(st.log, level)
    requires other != level ==> LastBuilt(st.log, other) == LastBuilt(before, other)
    ensures var st' := RunFrom(m, level, st, i);
            && LogGrew(m, before, st'.log, level) && st'.next == LastBuilt(st'.log, level)
            && (other != level ==> LastBuilt(st'.log, other) == LastBuilt(before, other))
    decreases |st.queue| - i
  {
    if i < |st.queue| && st.error.None? {
      StepGrew(m, before, st, level, i, other);
      LevelGrew(m, before, StepPromise(m, level, st, i), level, i + 1, other);
    }
  }

  /** How the run of one queue ends: all promises settled, or broken off at a guest call
      that trapped. */
  ghost predicate Ended<W>(m: Machine<W>, queued: seq<Promise>, st: Level<W>, level: nat) {
    if st.error.None? then QueueInv(m, queued, st.queue, |queued|) && CallsInv(queued, st.queue, st.log, level, |queued|)
    else Broken(m, queued, st.queue, st.log, level)
  }

  ghost predicate Broken<W>(m: Machine<W>, queued: seq<Promise>, queue: seq<Promise>, log: seq<Event>, level: nat) {
    exists f: nat :: BrokenAt(m, queued, queue, f) && CallsInv(queued, queue, log, level, f + 1)
  }

  lemma {:induction false} LevelRuns<W>(m: Machine<W>, queued: seq<Promise>, st: Level<W>, level: nat, i: nat)
    requires QueueInv(m, queued, st.queue, i) && CallsInv(queued, st.queue, st.log, level, i) && st.error.None?
    ensures Ended(m, queued, RunFrom(m, level, st, i), level)
    decreases |queued| - i
  {
    if i < |queued| {
      StepQueueInv(m, queued, st, level, i);
      StepCallsInv(m, queued, st, level, i);
      if StepPromise(m, level, st, i).error.None? { LevelRuns(m, queued, StepPromise(m, level, st, i), level, i + 1); }
    }
  }

  // ----- whole runs

  /** The queue that level `k` runs. */
  ghost function QueueFor(entry: seq<Promise>, log: seq<Event>, k: nat): seq<Promise> {
    if k == 0 then entry else LastBuilt(log, k - 1)
  }

  /** Level `k` ran the queue built by the last guest call of the level before, settled
      every promise of it, and its guest calls saw the recorded statuses. */
  ghost predicate LevelLinked<W>(m: Machine<W>, entry: seq<Promise>, trace: seq<seq<Promise>>, log: seq<Event>, k: nat)
    requires k < |trace|
  {
    && SameActions(trace[k], QueueFor(entry, log, k))
    && (forall j :: 0 <= j < |trace[k]| ==> Settled(m, trace[k][j]))
    && (forall i :: 0 <= i < |log| && CalledAt(log[i], k) ==> SawEarlier(log[i], trace[k]) && SawLater(log[i], QueueFor(entry, log, k)))
  }

  /** All finished levels are linked, the level that an error broke off ran the right queue
      and its guest calls, the trapped one included, saw the recorded statuses. */
  ghost predicate Linked<W>(m: Machine<W>, entry: seq<Promise>, run: Run<W>) {
    && (forall k :: 0 <= k < |run.trace| ==> LevelLinked(m, entry, run.trace, run.log, k))
    && (forall i :: 0 <= i < |run.log| ==> AllowedEvent(m, run.log[i]))
    && (run.broken.Some? ==> Broken(m, QueueFor(entry, run.log, |run.trace|), run.broken.value, run.log, |run.trace|))
  }

  ghost predicate CallsBelow(log: seq<Event>, level: nat) {
    forall i :: 0 <= i < |log| && log[i].Called? ==> log[i].level < level
  }

  lemma {:induction false} NothingBuilt(log: seq<Event>, level: nat)
    requires CallsBelow(log, level)
    ensures LastBuilt(log, level) == []
  {
    if log != [] { NothingBuilt(log[..|log| - 1], level); }
  }

  /** Finished levels are not affected by what a later level adds to the log. */
  lemma OlderLinked<W>(m: Machine<W>, entry: seq<Promise>, trace: seq<seq<Promise>>, trace': seq<seq<Promise>>, log: seq<Event>, log': seq<Event>, k: nat)
    requires k < |trace| && trace <= trace' && LevelLinked(m, entry, trace, log, k)
    requires LogGrew(m, log, log', |trace|) && (k > 0 ==> LastBuilt(log', k - 1) == LastBuilt(log, k - 1))
    ensures LevelLinked(m, entry, trace', log', k)
  {
    forall i | 0 <= i < |log'| && CalledAt(log'[i], k)
      ensures SawEarlier(log'[i], trace'[k]) && SawLater(log'[i], QueueFor(entry, log', k))
    {
      assert i < |log| && log'[i] == log[i];
    }
  }

  lemma GrewKeepsLinked<W>(m: Machine<W>, entry: seq<Promise>, run: Run<W>, queue: seq<Promise>, trace': seq<seq<Promise>>)
    requires Linked(m, entry, run) && CallsBelow(run.log, |run.trace|) && run.trace <= trace'
    ensures var st := RunFrom(m, |run.trace|, Level(run.world, queue, [], run.log, None), 0);
            && (forall k :: 0 <= k < |run.trace| ==> LevelLinked(m, entry, trace', st.log, k))
            && (forall i :: 0 <= i < |st.log| ==> AllowedEvent(m, st.log[i]))
            && CallsBelow(st.log, |run.trace| + 1) && st.next == LastBuilt(st.log, |run.trace|)
            && (|run.trace| > 0 ==> LastBuilt(st.log, |run.trace| - 1) == LastBuilt(run.log, |run.trace| - 1))
  {
    var level, start := |run.trace|, Level(run.world, queue, [], run.log, None);
    var st := RunFrom(m, level, start, 0);
    NothingBuilt(run.log, level);
    LevelGrew(m, run.log, start, level, 0, level);
    forall k | 0 <= k < level ensures LevelLinked(m, entry, trace', st.log, k) {
      if k > 0 { LevelGrew(m, run.log, start, level, 0, k - 1); }
      OlderLinked(m, entry, run.trace, trace', run.log, st.log, k);
    }
    if level > 0 { LevelGrew(m, run.log, start, level, 0, level - 1); }
  }

  /** The level that runs next, by its two outcomes. */
  lemma NewLevelLinked<W>(m: Machine<W>, entry: seq<Promise>, run: Run<W>, queue: seq<Promise>)
    requires Linked(m, entry, run) && CallsBelow(run.log, |run.trace|)
    requires queue == QueueFor(entry, run.log, |run.trace|)
    ensures var st := RunFrom(m, |run.trace|, Level(run.world, queue, [], run.log, None), 0);
            if st.error.None? then LevelLinked(m, entry, run.trace + [st.queue], st.log, |run.trace|)
            else Broken(m, QueueFor(entry, st.log, |run.trace|), st.queue, st.log, |run.trace|)
  {
    var level, start := |run.trace|, Level(run.world, queue, [], run.log, None);
    var st := RunFrom(m, level, start, 0);
    LevelRuns(m, queue, start, level, 0);
    GrewKeepsLinked(m, entry, run, queue, run.trace + [st.queue]);
    assert QueueFor(entry, st.log, level) == queue;
  }

  /** The run extended by one more level. */
  lemma OneMoreLevel<W>(m: Machine<W>, entry: seq<Promise>, run: Run<W>, queue: seq<Promise>)
    requires Linked(m, entry, run) && CallsBelow(run.log, |run.trace|) && run.broken.None?
    requires queue == QueueFor(entry, run.log, |run.trace|)
    ensures var st := RunFrom(m, |run.trace|, Level(run.world, queue, [], run.log, None), 0);
            var next := if st.error.None? then Run(st.world, run.trace + [st.queue], st.log, None)
                        else Run(st.world, run.trace, st.log, Some(st.queue));
            && Linked(m, entry, next)
            && (st.error.None? ==> CallsBelow(next.log, |next.trace|) && st.next == QueueFor(entry, next.log, |next.trace|))
  {
    var st := RunFrom(m, |run.trace|, Level(run.world, queue, [], run.log, None), 0);
    NewLevelLinked(m, entry, run, queue);
    GrewKeepsLinked(m, entry, run, queue, if st.error.None? then run.trace + [st.queue] else run.trace);
  }

  /** Every run: each guest call sees the final recorded status of every earlier promise of
      its level, in a level that is broken off as in one that ends; each level is exactly
      the queue built by the last guest call of the level before; every promise of a
      finished level is settled; a run that ends normally ends because the last level built
      nothing, and any other is broken off; and in limited mode nothing but HTTP reaches the
      host. */
  lemma {:induction false} RunsAreLinked<W>(m: Machine<W>, entry: seq<Promise>, run: Run<W>, queue: seq<Promise>, fuel: nat)
    requires Linked(m, entry, run) && CallsBelow(run.log, |run.trace|) && run.broken.None?
    requires queue == QueueFor(entry, run.log, |run.trace|)
    ensures var (run', exit) := RunQueues(m, run, queue, fuel);
            && Linked(m, entry, run')
            && (exit.EmptyQueue? ==> QueueFor(entry, run'.log, |run'.trace|) == [])
            && (exit.ExecutionError? <==> run'.broken.Some?)
    decreases fuel
  {
    if queue != [] && fuel > 0 {
      var st := RunFrom(m, |run.trace|, Level(run.world, queue, [], run.log, None), 0);
      OneMoreLevel(m, entry, run, queue);
      if st.error.None? { RunsAreLinked(m, entry, Run(st.world, run.trace + [st.queue], st.log, None), st.next, fuel - 1); }
    }
  }

  /** `start_runtime` starts such a run; one that ends normally has finished a level. */
  lemma StartIsLinked<W>(m: Machine<W>, world: W, functionName: string, args: seq<string>, fuel: nat)
    ensures var entry := EntryQueue(functionName, args);
            var (run, exit) := RunQueues(m, Run(world, [], [], None), entry, fuel);
            && Linked(m, entry, run) && NonEmptyQueues(run.trace) && (exit.ExecutionError? <==> run.broken.Some?)
            && (exit.EmptyQueue? ==> run.trace != [] && LastBuilt(run.log, |run.trace| - 1) == [])
  {
    var entry := EntryQueue(functionName, args);
    RunsAreLinked(m, entry, Run(world, [], [], None), entry, fuel);
    TracedQueuesNonEmpty(m, Run(world, [], [], None), entry, fuel);
  }

  /** In limited mode no database, chain, event or broadcast effect ever happens. */
  lemma LimitedHasNoEffects<W>(m: Machine<W>, world: W, functionName: string, args: seq<string>, fuel: nat)
    requires m.limited
    ensures var log := RunQueues(m, Run(world, [], [], None), EntryQueue(functionName, args), fuel).0.log;
            forall i :: 0 <= i < |log| ==> !log[i].Broadcast? && (log[i].HostEffect? ==> log[i].action.Http?)
  {
    StartIsLinked(m, world, functionName, args, fuel);
    var log := RunQueues(m, Run(world, [], [], None), EntryQueue(functionName, args), fuel).0.log;
    assert forall i :: 0 <= i < |log| ==> AllowedEvent(m, log[i]);
  }

  // ----- a queue that is never run

  const TWO_CALLS: seq<Promise> := [Promise(CallSelf("first", []), Unfulfilled), Promise(CallSelf("second", []), Unfulfilled)]

  /** The guest's entry point calls two functions, of which the first builds a queue. */
  function Builder(p: Promise): Machine<()> {
    Machine(false, (w, f, args, view) => Returned(w, [], if f == "start" then TWO_CALLS else if f == "first" then [p] else []),
            (w, a) => (w, Ok(None)), (w, data) => w, b => true, text => [])
  }

  ghost predicate OnlyCalls(queue: seq<Promise>) {
    forall j :: 0 <= j < |queue| ==> queue[j].action.CallSelf?
  }

  ghost predicate Built(e: Event, level: nat, queue: seq<Promise>) {
    CalledAt(e, level) && e.built == Some(queue)
  }

  lemma FirstLevel(p: Promise)
    ensures var st := RunFrom(Builder(p), 0, Level((), EntryQueue("start", []), [], [], None), 0);
            && st.world == () && st.error.None? && st.next == TWO_CALLS && OnlyCalls(st.queue)
            && |st.log| == 1 && Built(st.log[0], 0, TWO_CALLS)
  {
  }

  lemma SecondLevel(p: Promise, log: seq<Event>)
    ensures var st := RunFrom(Builder(p), 1, Level((), TWO_CALLS, [], log, None), 0);
            && st.world == () && st.error.None? && st.next == [] && OnlyCalls(st.queue)
            && |st.log| == |log| + 2 && Built(st.log[|log|], 1, [p]) && Built(st.log[|log| + 1], 1, [])
  {
    var st := Level((), TWO_CALLS, [], log, None);
    var st1 := StepPromise(Builder(p), 1, st, 0);
    StepTouchesOne(Builder(p), st, 1, 0);
    StepTouchesOne(Builder(p), st1, 1, 1);
    RunOneMore(Builder(p), 1, st, 0);
    RunOneMore(Builder(p), 1, st1, 1);
    assert RunFrom(Builder(p), 1, st, 0) == StepPromise(Builder(p), 1, st1, 1);
  }

  /** A later guest call of a level discards the queue that an earlier one built: the run
      ends normally after two levels of guest calls, and `p`, though built, is never run. */
  lemma EarlierQueueIsLost(p: Promise) returns (run: Run<()>)
    ensures RunQueues(Builder(p), Run((), [], [], None), EntryQueue("start", []), 3) == (run, EmptyQueue)
    ensures |run.log| == 3 && Built(run.log[1], 1, [p])
    ensures |run.trace| == 2 && OnlyCalls(run.trace[0]) && OnlyCalls(run.trace[1])
  {
    var m, entry := Builder(p), EntryQueue("start", []);
    var st := RunFrom(m, 0, Level((), entry, [], [], None), 0);
    var run1 := Run((), [st.queue], st.log, None);
    var st' := RunFrom(m, 1, Level((), TWO_CALLS, [], st.log, None), 0);
    FirstLevel(p);
    SecondLevel(p, st.log);
    run := Run((), [st.queue, st'.queue], st'.log, None);
    OneLevel(m, Run((), [], [], None), entry, 2);
    assert [] + [st.queue] == run1.trace;
    OneLevel(m, run1, TWO_CALLS, 1);
    assert run1.trace + [st'.queue] == run.trace;
  }

  lemma OneLevel(m: Machine<()>, run: Run<()>, queue: seq<Promise>, fuel: nat)
    requires queue != [] && RunFrom(m, |run.trace|, Level(run.world, queue, [], run.log, None), 0).error.None?
    ensures var st := RunFrom(m, |run.trace|, Level(run.world, queue, [], run.log, None), 0);
            RunQueues(m, run, queue, fuel + 1) == RunQueues(m, Run(st.world, run.trace + [st.queue], st.log, run.broken), st.next, fuel)
  {
  }
}
