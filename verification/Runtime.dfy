/** runtime/core/src/runtime.rs: the promise-queue machine.

    A queue of promises is worked through in order; a `CallSelf` promise runs the guest,
    which sees the statuses recorded so far and may build a new queue.  When a queue is
    done, the queue built by its last `CallSelf` is run in turn. */
module Runtime {
  import opened Bytes
  import opened Collections

  // ----- runtime/sdk/src/promises

  datatype PromiseStatus = Unfulfilled | Pending | Fulfilled(value: Option<Bytes>) | Rejected(error: Bytes)

  datatype PromiseAction =
    | CallSelf(functionName: string, args: seq<string>)
    | DatabaseSet(key: string, value: Bytes)
    | DatabaseGet(key: string)
    | Http(url: string)
    | ChainView(contractId: string, methodName: string, callArgs: Bytes)
    | ChainCall(contractId: string, methodName: string, callArgs: Bytes, deposit: nat)
    | TriggerEvent(event: Bytes)
    | P2PBroadcast(data: Bytes)
  {
    predicate IsLimitedAction() { !(CallSelf? || Http?) }

    function Name(): string {
      match this
      case CallSelf(_, _) => "call_self"
      case DatabaseSet(_, _) => "db_set"
      case DatabaseGet(_) => "db_get"
      case Http(_) => "http"
      case ChainView(_, _, _) => "chain_view"
      case ChainCall(_, _, _, _) => "chain_call"
      case TriggerEvent(_) => "trigger_event"
      case P2PBroadcast(_) => "p2p_broadcast"
    }
  }

  datatype Promise = Promise(action: PromiseAction, status: PromiseStatus)

  /** What a host function returns; a successful one may carry no value. */
  datatype HostResult = Ok(value: Option<Bytes>) | Err(message: Bytes)

  function StatusOf(r: HostResult): PromiseStatus {
    match r
    case Ok(v) => Fulfilled(v)
    case Err(e) => Rejected(e)
  }

  // ----- the foreign parts

  datatype GuestResult<W> = Returned(world: W, result: Bytes, next: seq<Promise>) | Trapped(world: W, error: Bytes)

  /** The guest, the host adapter, the broadcast channel and UTF-8 decoding, over a state
      `W` of everything outside the queue. */
  datatype Machine<!W> = Machine(
    limited: bool,
    guest: (W, string, seq<string>, seq<Promise>) -> GuestResult<W>,
    host: (W, PromiseAction) -> (W, HostResult),
    send: (W, Bytes) -> W,
    isUtf8: Bytes -> bool,
    encode: string -> Bytes)

  /** What a run did, by level and position of the promise: guest calls, with the queue they
      saw, the queue they built unless they trapped, and the result or error they gave; host
      calls with the host's result; and broadcasts. */
  datatype Event =
    | Called(level: nat, index: nat, functionName: string, args: seq<string>, view: seq<Promise>, built: Option<seq<Promise>>, answer: Bytes)
    | HostEffect(level: nat, index: nat, action: PromiseAction, result: HostResult)
    | Broadcast(level: nat, index: nat, data: Bytes)

  // ----- one queue

  datatype Level<W> = Level(world: W, queue: seq<Promise>, next: seq<Promise>, log: seq<Event>, error: Option<Bytes>)

  function Settle<W>(st: Level<W>, i: nat, status: PromiseStatus): Level<W>
    requires i < |st.queue|
  {
    st.(queue := st.queue[i := Promise(st.queue[i].action, status)])
  }

  function CallHost<W>(m: Machine<W>, level: nat, st: Level<W>, i: nat, a: PromiseAction): Level<W>
    requires i < |st.queue|
  {
    var (w, r) := m.host(st.world, a);
    Settle(st.(world := w, log := st.log + [HostEffect(level, i, a, r)]), i, StatusOf(r))
  }

  /** The body of the loop for promise `i`. */
  function StepPromise<W>(m: Machine<W>, level: nat, st: Level<W>, i: nat): (r: Level<W>)
    requires i < |st.queue|
    ensures |r.queue| == |st.queue|
  {
    var s := Settle(st, i, Pending);
    var a := st.queue[i].action;
    if m.limited && a.IsLimitedAction() then
      Settle(s, i, Rejected(m.encode("Method `" + a.Name() + "` not allowed in limited runtime")))
    else
      match a
      case CallSelf(f, args) =>
        (match m.guest(s.world, f, args, s.queue)
         case Trapped(w, e) => s.(world := w, log := s.log + [Called(level, i, f, args, s.queue, None, e)], error := Some(e))
         case Returned(w, result, next) =>
           Settle(s.(world := w, next := next, log := s.log + [Called(level, i, f, args, s.queue, Some(next), result)]), i, Fulfilled(Some(result))))
      case DatabaseSet(key, value) =>
        if m.isUtf8(value) then CallHost(m, level, s, i, a) else Settle(s, i, Rejected(m.encode("invalid utf-8")))
      case P2PBroadcast(data) => s.(world := m.send(s.world, data), log := s.log + [Broadcast(level, i, data)])
      case _ => CallHost(m, level, s, i, a)
  }

  function RunFrom<W>(m: Machine<W>, level: nat, st: Level<W>, i: nat): Level<W>
    requires i <= |st.queue|
    decreases |st.queue| - i
  {
    if i == |st.queue| || st.error.Some? then st else RunFrom(m, level, StepPromise(m, level, st, i), i + 1)
  }

  // ----- all queues

  datatype Exit = EmptyQueue | ExecutionError(error: Bytes) | OutOfFuel

  /** The finished queues, and the queue that an error broke off. */
  datatype Run<W> = Run(world: W, trace: seq<seq<Promise>>, log: seq<Event>, broken: Option<seq<Promise>>)

  /** `execute_promise_queue`.  A guest can keep building queues for ever; `fuel` bounds how
      many of them are run. */
  function RunQueues<W>(m: Machine<W>, run: Run<W>, queue: seq<Promise>, fuel: nat): (Run<W>, Exit)
    decreases fuel
  {
    if queue == [] then (run, EmptyQueue)
    else if fuel == 0 then (run, OutOfFuel)
    else
      var st := RunFrom(m, |run.trace|, Level(run.world, queue, [], run.log, None), 0);
      if st.error.Some? then (Run(st.world, run.trace, st.log, Some(st.queue)), ExecutionError(st.error.value))
      else RunQueues(m, Run(st.world, run.trace + [st.queue], st.log, run.broken), st.next, fuel - 1)
  }

  /** The queue with which `start_runtime` begins. */
  function EntryQueue(functionName: string, args: seq<string>): seq<Promise> {
    [Promise(CallSelf(functionName, args), Unfulfilled)]
  }

  /** The machine as an object: the outside world and the trace of finished queues are
      updated in place.  The log and the broken-off queue are kept for the proofs only. */
  class PromiseRuntime<W> {
    const m: Machine<W>
    var world: W
    var trace: seq<seq<Promise>>
    ghost var log: seq<Event>
    ghost var broken: Option<seq<Promise>>

    constructor (m: Machine<W>, world: W)
      ensures this.m == m && this.world == world && trace == [] && log == [] && broken == None
    {
      this.m, this.world, trace, log, broken := m, world, [], [], None;
    }

    ghost function View(): Run<W>
      reads this
    {
      Run(world, trace, log, broken)
    }

    /** One host call, its result recorded as the promise's status. */
    method HostCall(queue: seq<Promise>, i: nat, a: PromiseAction) returns (settled: seq<Promise>)
      requires i < |queue|
      modifies this`world, this`log
      ensures Level(world, settled, [], log, None) == CallHost(m, |trace|, Level(old(world), queue, [], old(log), None), i, a)
    {
      var (w, r) := m.host(world, a);
      world := w;
      log := log + [HostEffect(|trace|, i, a, r)];
      settled := queue[i := Promise(queue[i].action, StatusOf(r))];
    }

    /** The body of the loop over one queue. */
    method ExecutePromise(queue: seq<Promise>, next: seq<Promise>, i: nat)
      returns (queue': seq<Promise>, next': seq<Promise>, error: Option<Bytes>)
      requires i < |queue|
      modifies this`world, this`log
      ensures Level(world, queue', next', log, error) == StepPromise(m, |trace|, Level(old(world), queue, next, old(log), None), i)
    {
      next', error := next, None;
      queue' := queue[i := Promise(queue[i].action, Pending)];
      var a := queue[i].action;
      if m.limited && a.IsLimitedAction() {
        queue' := queue'[i := Promise(a, Rejected(m.encode("Method `" + a.Name() + "` not allowed in limited runtime")))];
      } else if a.CallSelf? {
        match m.guest(world, a.functionName, a.args, queue') {
          case Trapped(w, e) =>
            world := w;
            log := log + [Called(|trace|, i, a.functionName, a.args, queue', None, e)];
            error := Some(e);
          case Returned(w, result, built) =>
            world := w;
            log := log + [Called(|trace|, i, a.functionName, a.args, queue', Some(built), result)];
            next' := built;
            queue' := queue'[i := Promise(a, Fulfilled(Some(result)))];
        }
      } else if a.DatabaseSet? && !m.isUtf8(a.value) {
        queue' := queue'[i := Promise(a, Rejected(m.encode("invalid utf-8")))];
      } else if a.P2PBroadcast? {
        world := m.send(world, a.data);
        log := log + [Broadcast(|trace|, i, a.data)];
      } else {
        queue' := HostCall(queue', i, a);
      }
    }

    /** The loop over one queue; an error ends it. */
    method ExecuteLevel(promiseQueue: seq<Promise>) returns (queue: seq<Promise>, next: seq<Promise>, error: Option<Bytes>)
      modifies this`world, this`log
      ensures Level(world, queue, next, log, error) == RunFrom(m, |trace|, Level(old(world), promiseQueue, [], old(log), None), 0)
    {
      queue, next, error := promiseQueue, [], None;
      ghost var level := Level(world, queue, next, log, error);
      ghost var goal := RunFrom(m, |trace|, level, 0);
      for i := 0 to |promiseQueue|
        invariant |queue| == |promiseQueue| && error.None? && level == Level(world, queue, next, log, error)
        invariant RunFrom(m, |trace|, level, i) == goal
      {
        queue, next, error := ExecutePromise(queue, next, i);
        RunOneMore(m, |trace|, level, i);
        level := Level(world, queue, next, log, error);
        if error.Some? { return; }
      }
    }

    method ExecutePromiseQueue(promiseQueue: seq<Promise>, fuel: nat) returns (exit: Exit)
      modifies this
      ensures (View(), exit) == RunQueues(m, old(View()), promiseQueue, fuel)
      decreases fuel
    {
      if promiseQueue == [] { return EmptyQueue; }
      if fuel == 0 { return OutOfFuel; }
      var queue, next, error := ExecuteLevel(promiseQueue);
      if error.Some? {
        broken := Some(queue);
        return ExecutionError(error.value);
      }
      trace := trace + [queue];
      exit := ExecutePromiseQueue(next, fuel - 1);
    }

    /** `start_runtime`: run from the entry point and return the status value of the last
        promise of the last finished queue. */
    method StartRuntime(functionName: string, args: seq<string>, fuel: nat) returns (result: Option<Bytes>, exit: Exit)
      requires trace == [] && log == [] && broken == None
      modifies this
      ensures (View(), exit) == RunQueues(m, Run(old(world), [], [], None), EntryQueue(functionName, args), fuel)
      ensures trace != [] ==> trace[|trace| - 1] != []
      ensures trace == [] ==> result == None
      ensures trace != [] ==>
                var last := trace[|trace| - 1][|trace[|trace| - 1]| - 1].status;
                forall data :: result == Some(data) <==> last == Fulfilled(Some(data)) || last == Rejected(data)
    {
      exit := ExecutePromiseQueue(EntryQueue(functionName, args), fuel);
      if trace == [] { return None, exit; }
      TracedQueuesNonEmpty(m, Run(old(world), [], [], None), EntryQueue(functionName, args), fuel);
      var lastQueue := trace[|trace| - 1];
      result := ResultOf(lastQueue[|lastQueue| - 1].status);
    }
  }

  function ResultOf(status: PromiseStatus): Option<Bytes> {
    match status
    case Fulfilled(Some(data)) => Some(data)
    case Rejected(data) => Some(data)
    case _ => None
  }

  ghost predicate NonEmptyQueues(trace: seq<seq<Promise>>) {
    forall k :: 0 <= k < |trace| ==> trace[k] != []
  }

  lemma {:induction false} RunFromLength<W>(m: Machine<W>, level: nat, st: Level<W>, i: nat)
    requires i <= |st.queue|
    ensures |RunFrom(m, level, st, i).queue| == |st.queue|
    decreases |st.queue| - i
  {
    if i < |st.queue| && st.error.None? { RunFromLength(m, level, StepPromise(m, level, st, i), i + 1); }
  }

  lemma RunOneMore<W>(m: Machine<W>, level: nat, st: Level<W>, i: nat)
    requires i < |st.queue| && st.error.None?
    ensures RunFrom(m, level, st, i) == RunFrom(m, level, StepPromise(m, level, st, i), i + 1)
    ensures StepPromise(m, level, st, i).error.Some? ==> RunFrom(m, level, st, i) == StepPromise(m, level, st, i)
    ensures |StepPromise(m, level, st, i).queue| == |st.queue|
  {
  }

  /** Every traced queue is non-empty, so the final pops of `start_runtime` never fail. */
  lemma {:induction false} TracedQueuesNonEmpty<W>(m: Machine<W>, run: Run<W>, queue: seq<Promise>, fuel: nat)
    requires NonEmptyQueues(run.trace)
    ensures NonEmptyQueues(RunQueues(m, run, queue, fuel).0.trace)
    decreases fuel
  {
    if queue != [] && fuel > 0 {
      var st := RunFrom(m, |run.trace|, Level(run.world, queue, [], run.log, None), 0);
      RunFromLength(m, |run.trace|, Level(run.world, queue, [], run.log, None), 0);
      if st.error.None? { TracedQueuesNonEmpty(m, Run(st.world, run.trace + [st.queue], st.log, run.broken), st.next, fuel - 1); }
    }
  }

  /** The fuel only decides whether a run is cut short: two runs that both end of themselves
      are the same run. */
  lemma {:induction false} MoreFuelSameRun<W>(m: Machine<W>, run: Run<W>, queue: seq<Promise>, fuel: nat, more: nat)
    requires fuel <= more && !RunQueues(m, run, queue, fuel).1.OutOfFuel?
    ensures RunQueues(m, run, queue, more) == RunQueues(m, run, queue, fuel)
    decreases fuel
  {
    if queue != [] {
      var st := RunFrom(m, |run.trace|, Level(run.world, queue, [], run.log, None), 0);
      if st.error.None? { MoreFuelSameRun(m, Run(st.world, run.trace + [st.queue], st.log, run.broken), st.next, fuel - 1, more - 1); }
    }
  }
}
