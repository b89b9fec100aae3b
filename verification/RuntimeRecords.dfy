/** What the recorded statuses of a run mean: every promise that was run is matched by its
    own events, and the events are what the guest and the host really answered. */
module RuntimeRecords {
  import opened Collections
  import opened Runtime
  import RuntimeRuns

  /** The events of one promise. */
  ghost function EventsAt(log: seq<Event>, level: nat, index: nat): seq<Event> {
    if log == [] then []
    else
      var last := log[|log| - 1];
      EventsAt(log[..|log| - 1], level, index) + if last.level == level && last.index == index then [last] else []
  }

  lemma EventsAtAppend(log: seq<Event>, e: Event, level: nat, index: nat)
    ensures EventsAt(log + [e], level, index) == EventsAt(log, level, index) + if e.level == level && e.index == index then [e] else []
  {
    assert (log + [e])[..|log|] == log;
  }

  /** A status says what the host answered: fulfilled with the value of a success, rejected
      with the text of a failure. */
  ghost predicate SaysResult(status: PromiseStatus, r: HostResult) {
    && (forall v :: status == Fulfilled(v) <==> r == Ok(v))
    && (forall e :: status == Rejected(e) <==> r == Err(e))
  }

  /** Actions that a limited runtime rejects: all but guest calls and HTTP. */
  ghost predicate Forbidden<W>(m: Machine<W>, a: PromiseAction) {
    m.limited && !a.CallSelf? && !a.Http?
  }

  /** The status of a promise that was run, explained by its events `es`. */
  ghost predicate Explained<W>(m: Machine<W>, p: Promise, es: seq<Event>) {
    if Forbidden(m, p.action) then
      es == [] && p.status == Rejected(m.encode("Method `" + p.action.Name() + "` not allowed in limited runtime"))
    else
      match p.action
      case CallSelf(f, args) =>
        && |es| == 1 && es[0].Called? && es[0].functionName == f && es[0].args == args && es[0].built.Some?
        && p.status == Fulfilled(Some(es[0].answer))
      case P2PBroadcast(data) => |es| == 1 && es[0].Broadcast? && es[0].data == data && p.status == Pending
      case _ =>
        if p.action.DatabaseSet? && !m.isUtf8(p.action.value) then es == [] && p.status.Rejected?
        else |es| == 1 && es[0].HostEffect? && es[0].action == p.action && SaysResult(p.status, es[0].result)
  }

  /** The names under which a limited runtime rejects actions. */
  lemma RejectedNames(a: PromiseAction)
    ensures a.DatabaseSet? ==> a.Name() == "db_set"
    ensures a.DatabaseGet? ==> a.Name() == "db_get"
    ensures a.ChainView? ==> a.Name() == "chain_view"
    ensures a.ChainCall? ==> a.Name() == "chain_call"
    ensures a.TriggerEvent? ==> a.Name() == "trigger_event"
    ensures a.P2PBroadcast? ==> a.Name() == "p2p_broadcast"
  {
  }

  ghost predicate AllAt(es: seq<Event>, level: nat, index: nat) {
    forall k :: 0 <= k < |es| ==> es[k].level == level && es[k].index == index
  }

  // ----- one step

  /** A step adds at most one event, at its own position; unless the guest trapped, the event
      explains the status. */
  lemma StepIsExplained<W>(m: Machine<W>, level: nat, st: Level<W>, i: nat) returns (es: seq<Event>)
    requires i < |st.queue| && st.error.None?
    ensures var st' := StepPromise(m, level, st, i);
            && st'.log == st.log + es && |es| <= 1 && AllAt(es, level, i)
            && (st'.error.None? ==> Explained(m, st'.queue[i], es))
  {
    es := StepPromise(m, level, st, i).log[|st.log|..];
    var a := st.queue[i].action;
    if !a.CallSelf? { StatusSays(m.host(st.world, a).1); }
  }

  lemma StatusSays(r: HostResult)
    ensures SaysResult(StatusOf(r), r)
  {
  }

  lemma EventsAtMore(log: seq<Event>, es: seq<Event>, level: nat, i: nat, k: nat, j: nat)
    requires |es| <= 1 && AllAt(es, level, i)
    ensures EventsAt(log + es, k, j) == EventsAt(log, k, j) + if k == level && j == i then es else []
  {
    if es == [] {
      assert log + es == log;
    } else {
      assert es == [es[0]];
      EventsAtAppend(log, es[0], k, j);
    }
  }

  /** Within a level, the promises before `i` are explained and the others have no events. */
  ghost predicate ExplainedUpTo<W>(m: Machine<W>, queue: seq<Promise>, log: seq<Event>, level: nat, i: nat) {
    && i <= |queue|
    && (forall j :: 0 <= j < i ==> Explained(m, queue[j], EventsAt(log, level, j)))
    && (forall j :: i <= j < |queue| ==> EventsAt(log, level, j) == [])
  }

  lemma ExplainedMore<W>(m: Machine<W>, queue: seq<Promise>, queue': seq<Promise>, log: seq<Event>, es: seq<Event>, level: nat, i: nat)
    requires i < |queue| == |queue'| && ExplainedUpTo(m, queue, log, level, i) && |es| <= 1 && AllAt(es, level, i)
    requires forall j :: 0 <= j < |queue| && j != i ==> queue'[j] == queue[j]
    ensures forall j :: 0 <= j < i ==> Explained(m, queue'[j], EventsAt(log + es, level, j))
    ensures Explained(m, queue'[i], es) ==> ExplainedUpTo(m, queue', log + es, level, i + 1)
  {
    forall j | 0 <= j < |queue| ensures EventsAt(log + es, level, j) == if j == i then es else EventsAt(log, level, j) {
      EventsAtMore(log, es, level, i, level, j);
    }
  }

  lemma StepExplains<W>(m: Machine<W>, level: nat, st: Level<W>, i: nat)
    requires i < |st.queue| && st.error.None? && ExplainedUpTo(m, st.queue, st.log, level, i)
    ensures var st' := StepPromise(m, level, st, i);
            st'.error.None? ==> ExplainedUpTo(m, st'.queue, st'.log, level, i + 1)
    ensures var st' := StepPromise(m, level, st, i);
            forall j :: 0 <= j < i ==> Explained(m, st'.queue[j], EventsAt(st'.log, level, j))
  {
    var es := StepIsExplained(m, level, st, i);
    RuntimeRuns.StepTouchesOne(m, st, level, i);
    ExplainedMore(m, st.queue, StepPromise(m, level, st, i).queue, st.log, es, level, i);
  }

  /** Other levels keep their events. */
  lemma {:induction false} LevelKeepsOthers<W>(m: Machine<W>, level: nat, st: Level<W>, i: nat, k: nat, j: nat)
    requires i <= |st.queue| && k != level
    ensures EventsAt(RunFrom(m, level, st, i).log, k, j) == EventsAt(st.log, k, j)
    decreases |st.queue| - i
  {
    if i < |st.queue| && st.error.None? {
      var es := StepIsExplained(m, level, st, i);
      EventsAtMore(st.log, es, level, i, k, j);
      LevelKeepsOthers(m, level, StepPromise(m, level, st, i), i + 1, k, j);
    }
  }

  /** A level that ends has all promises explained; one that is broken off has those before
      the guest call that trapped. */
  ghost predicate LevelExplained<W>(m: Machine<W>, st: Level<W>, level: nat) {
    if st.error.None? then ExplainedUpTo(m, st.queue, st.log, level, |st.queue|)
    else exists f: nat :: ExplainedBefore(m, st.queue, st.log, level, f)
  }

  ghost predicate ExplainedBefore<W>(m: Machine<W>, queue: seq<Promise>, log: seq<Event>, level: nat, f: nat) {
    && f < |queue| && queue[f].action.CallSelf? && queue[f].status == Pending
    && forall j :: 0 <= j < f ==> Explained(m, queue[j], EventsAt(log, level, j))
  }

  lemma TrapStaysPending<W>(m: Machine<W>, level: nat, st: Level<W>, i: nat)
    requires i < |st.queue| && st.error.None? && StepPromise(m, level, st, i).error.Some?
    ensures var queue := StepPromise(m, level, st, i).queue;
            |queue| == |st.queue| && queue[i].action.CallSelf? && queue[i].status == Pending
  {
  }

  lemma {:induction false} LevelIsExplained<W>(m: Machine<W>, level: nat, st: Level<W>, i: nat)
    requires st.error.None? && ExplainedUpTo(m, st.queue, st.log, level, i)
    ensures LevelExplained(m, RunFrom(m, level, st, i), level)
    decreases |st.queue| - i
  {
    if i < |st.queue| {
      StepExplains(m, level, st, i);
      RunOneMore(m, level, st, i);
      var st' := StepPromise(m, level, st, i);
      if st'.error.None? {
        LevelIsExplained(m, level, st', i + 1);
      } else {
        TrapStaysPending(m, level, st, i);
        assert ExplainedBefore(m, st'.queue, st'.log, level, i);
      }
    }
  }

  // ----- whole runs

  ghost predicate LevelsBelow(log: seq<Event>, level: nat) {
    forall k :: 0 <= k < |log| ==> log[k].level < level
  }

  lemma {:induction false} NoEventsYet(log: seq<Event>, level: nat, j: nat)
    requires LevelsBelow(log, level)
    ensures EventsAt(log, level, j) == []
  {
    if log != [] { NoEventsYet(log[..|log| - 1], level, j); }
  }

  lemma {:induction false} LevelStaysBelow<W>(m: Machine<W>, level: nat, st: Level<W>, i: nat)
    requires i <= |st.queue| && LevelsBelow(st.log, level + 1)
    ensures LevelsBelow(RunFrom(m, level, st, i).log, level + 1)
    decreases |st.queue| - i
  {
    if i < |st.queue| && st.error.None? {
      var es := StepIsExplained(m, level, st, i);
      LevelStaysBelow(m, level, StepPromise(m, level, st, i), i + 1);
    }
  }

  /** Every promise of every finished level is explained, and so are those of a broken-off
      level up to the guest call that trapped. */
  ghost predicate RunExplained<W>(m: Machine<W>, run: Run<W>) {
    && (forall k, j :: 0 <= k < |run.trace| && 0 <= j < |run.trace[k]| ==> Explained(m, run.trace[k][j], EventsAt(run.log, k, j)))
    && (run.broken.Some? ==> exists f: nat :: ExplainedBefore(m, run.broken.value, run.log, |run.trace|, f))
  }

  lemma OlderExplained<W>(m: Machine<W>, run: Run<W>, queue: seq<Promise>, k: nat, j: nat)
    requires RunExplained(m, run) && k < |run.trace| && j < |run.trace[k]|
    ensures var st := RunFrom(m, |run.trace|, Level(run.world, queue, [], run.log, None), 0);
            Explained(m, run.trace[k][j], EventsAt(st.log, k, j))
  {
    LevelKeepsOthers(m, |run.trace|, Level(run.world, queue, [], run.log, None), 0, k, j);
  }

  lemma NewLevelExplained<W>(m: Machine<W>, run: Run<W>, queue: seq<Promise>)
    requires LevelsBelow(run.log, |run.trace|)
    ensures var st := RunFrom(m, |run.trace|, Level(run.world, queue, [], run.log, None), 0);
            LevelExplained(m, st, |run.trace|) && LevelsBelow(st.log, |run.trace| + 1)
  {
    var level, start := |run.trace|, Level(run.world, queue, [], run.log, None);
    forall j ensures EventsAt(run.log, level, j) == [] { NoEventsYet(run.log, level, j); }
    LevelIsExplained(m, level, start, 0);
    LevelStaysBelow(m, level, start, 0);
  }

  lemma OneMoreExplained<W>(m: Machine<W>, run: Run<W>, queue: seq<Promise>)
    requires RunExplained(m, run) && LevelsBelow(run.log, |run.trace|) && run.broken.None?
    ensures var st := RunFrom(m, |run.trace|, Level(run.world, queue, [], run.log, None), 0);
            var next := if st.error.None? then Run(st.world, run.trace + [st.queue], st.log, None)
                        else Run(st.world, run.trace, st.log, Some(st.queue));
            RunExplained(m, next) && (st.error.None? ==> LevelsBelow(next.log, |next.trace|))
  {
    var st := RunFrom(m, |run.trace|, Level(run.world, queue, [], run.log, None), 0);
    NewLevelExplained(m, run, queue);
    forall k, j | 0 <= k < |run.trace| && 0 <= j < |run.trace[k]| ensures Explained(m, run.trace[k][j], EventsAt(st.log, k, j)) {
      OlderExplained(m, run, queue, k, j);
    }
  }

  lemma {:induction false} RunsAreExplained<W>(m: Machine<W>, run: Run<W>, queue: seq<Promise>, fuel: nat)
    requires RunExplained(m, run) && LevelsBelow(run.log, |run.trace|) && run.broken.None?
    ensures RunExplained(m, RunQueues(m, run, queue, fuel).0)
    decreases fuel
  {
    if queue != [] && fuel > 0 {
      var st := RunFrom(m, |run.trace|, Level(run.world, queue, [], run.log, None), 0);
      OneMoreExplained(m, run, queue);
      if st.error.None? { RunsAreExplained(m, Run(st.world, run.trace + [st.queue], st.log, None), st.next, fuel - 1); }
    }
  }

  // ----- the events are true

  /** The outside world after an event. */
  ghost function WorldAfter<W>(m: Machine<W>, w: W, e: Event): W {
    match e
    case Called(_, _, f, args, view, _, _) => m.guest(w, f, args, view).world
    case HostEffect(_, _, a, _) => m.host(w, a).0
    case Broadcast(_, _, data) => m.send(w, data)
  }

  /** The outside world after all events of a log. */
  ghost function Replay<W>(m: Machine<W>, w: W, log: seq<Event>): W {
    if log == [] then w else WorldAfter(m, Replay(m, w, log[..|log| - 1]), log[|log| - 1])
  }

  /** The event records what the guest or the host answers in world `w`. */
  ghost predicate Truthful<W>(m: Machine<W>, w: W, e: Event) {
    match e
    case Called(_, _, f, args, view, built, answer) =>
      (match m.guest(w, f, args, view)
       case Returned(_, result, next) => built == Some(next) && answer == result
       case Trapped(_, error) => built == None && answer == error)
    case HostEffect(_, _, a, result) => result == m.host(w, a).1
    case Broadcast(_, _, _) => true
  }

  ghost predicate TrueLog<W>(m: Machine<W>, w: W, log: seq<Event>) {
    log == [] || (TrueLog(m, w, log[..|log| - 1]) && Truthful(m, Replay(m, w, log[..|log| - 1]), log[|log| - 1]))
  }

  lemma ReplayAppend<W>(m: Machine<W>, w: W, log: seq<Event>, e: Event)
    ensures Replay(m, w, log + [e]) == WorldAfter(m, Replay(m, w, log), e)
    ensures TrueLog(m, w, log + [e]) <==> TrueLog(m, w, log) && Truthful(m, Replay(m, w, log), e)
  {
    assert (log + [e])[..|log|] == log;
  }

  lemma StepIsTrue<W>(m: Machine<W>, level: nat, st: Level<W>, i: nat)
    requires i < |st.queue| && st.error.None?
    ensures var st' := StepPromise(m, level, st, i);
            || (st'.log == st.log && st'.world == st.world)
            || (exists e :: st'.log == st.log + [e] && st'.world == WorldAfter(m, st.world, e) && Truthful(m, st.world, e))
  {
    var st' := StepPromise(m, level, st, i);
    if st'.log != st.log {
      var e := st'.log[|st.log|];
      assert st'.log == st.log + [e];
    }
  }

  lemma {:induction false} LevelIsTrue<W>(m: Machine<W>, w: W, level: nat, st: Level<W>, i: nat)
    requires i <= |st.queue| && st.world == Replay(m, w, st.log) && TrueLog(m, w, st.log)
    ensures var st' := RunFrom(m, level, st, i);
            st'.world == Replay(m, w, st'.log) && TrueLog(m, w, st'.log)
    decreases |st.queue| - i
  {
    if i < |st.queue| && st.error.None? {
      var st' := StepPromise(m, level, st, i);
      StepIsTrue(m, level, st, i);
      if st'.log != st.log || st'.world != st.world {
        var e :| st'.log == st.log + [e] && st'.world == WorldAfter(m, st.world, e) && Truthful(m, st.world, e);
        ReplayAppend(m, w, st.log, e);
      }
      LevelIsTrue(m, w, level, st', i + 1);
    }
  }

  lemma {:induction false} RunsAreTrue<W>(m: Machine<W>, w: W, run: Run<W>, queue: seq<Promise>, fuel: nat)
    requires run.world == Replay(m, w, run.log) && TrueLog(m, w, run.log)
    ensures var run' := RunQueues(m, run, queue, fuel).0;
            run'.world == Replay(m, w, run'.log) && TrueLog(m, w, run'.log)
    decreases fuel
  {
    if queue != [] && fuel > 0 {
      var start := Level(run.world, queue, [], run.log, None);
      var st := RunFrom(m, |run.trace|, start, 0);
      LevelIsTrue(m, w, |run.trace|, start, 0);
      if st.error.None? { RunsAreTrue(m, w, Run(st.world, run.trace + [st.queue], st.log, run.broken), st.next, fuel - 1); }
    }
  }

  /** In every run that `start_runtime` makes, the status of every promise is explained by
      its own events, each event is what the guest or host answered at that point, and the
      outside world is where these events lead. */
  lemma StatusesAreEarned<W>(m: Machine<W>, world: W, functionName: string, args: seq<string>, fuel: nat)
    ensures var run := RunQueues(m, Run(world, [], [], None), EntryQueue(functionName, args), fuel).0;
            && RunExplained(m, run) && TrueLog(m, world, run.log) && run.world == Replay(m, world, run.log)
            && (run.log != [] ==> run.log[0].Called? && run.log[0].functionName == functionName && run.log[0].args == args)
  {
    var run, entry := Run(world, [], [], None), EntryQueue(functionName, args);
    RunsAreExplained(m, run, entry, fuel);
    RunsAreTrue(m, world, run, entry, fuel);
    StartsAtEntry(m, run, entry, fuel, functionName, args);
  }

  lemma {:induction false} LogOnlyGrows<W>(m: Machine<W>, level: nat, st: Level<W>, i: nat)
    requires i <= |st.queue|
    ensures st.log <= RunFrom(m, level, st, i).log
    decreases |st.queue| - i
  {
    if i < |st.queue| && st.error.None? {
      var es := StepIsExplained(m, level, st, i);
      LogOnlyGrows(m, level, StepPromise(m, level, st, i), i + 1);
    }
  }

  lemma {:induction false} RunLogGrows<W>(m: Machine<W>, run: Run<W>, queue: seq<Promise>, fuel: nat)
    ensures run.log <= RunQueues(m, run, queue, fuel).0.log
    decreases fuel
  {
    if queue != [] && fuel > 0 {
      var start := Level(run.world, queue, [], run.log, None);
      var st := RunFrom(m, |run.trace|, start, 0);
      LogOnlyGrows(m, |run.trace|, start, 0);
      if st.error.None? { RunLogGrows(m, Run(st.world, run.trace + [st.queue], st.log, run.broken), st.next, fuel - 1); }
    }
  }

  lemma StartsAtEntry<W>(m: Machine<W>, run: Run<W>, entry: seq<Promise>, fuel: nat, f: string, args: seq<string>)
    requires run == Run(run.world, [], [], None) && entry == EntryQueue(f, args)
    ensures var log := RunQueues(m, run, entry, fuel).0.log;
            log != [] ==> log[0].Called? && log[0].functionName == f && log[0].args == args
  {
    if fuel > 0 {
      var start := Level(run.world, entry, [], [], None);
      var st := RunFrom(m, 0, start, 0);
      var st1 := StepPromise(m, 0, start, 0);
      assert |st1.log| == 1 && st1.log[0].Called? && st1.log[0].functionName == f && st1.log[0].args == args;
      LogOnlyGrows(m, 0, st1, 1);
      assert st1.log <= st.log;
      if st.error.None? { RunLogGrows(m, Run(st.world, [] + [st.queue], st.log, None), st.next, fuel - 1); }
    }
  }
}
