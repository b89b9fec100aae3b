/** node/src/event_queue.rs: events wait in one queue; the job manager takes the first one
    whose id is not among the ids now running. */
module EventQueues {
  import opened Collections

  datatype Event<D> = Event(id: string, data: D)

  /** The first event whose id is not skipped, and the queue without it. */
  function Take<D>(items: seq<Event<D>>, skip: seq<string>): (Option<Event<D>>, seq<Event<D>>) {
    if items == [] then (None, [])
    else if items[0].id !in skip then (Some(items[0]), items[1..])
    else
      var (e, rest) := Take(items[1..], skip);
      (e, [items[0]] + rest)
  }

  lemma {:induction false} TakeAt<D>(items: seq<Event<D>>, skip: seq<string>, i: nat)
    requires i <= |items| && forall j :: 0 <= j < i ==> items[j].id in skip
    requires i < |items| ==> items[i].id !in skip
    ensures Take(items, skip) == if i < |items| then (Some(items[i]), items[..i] + items[i + 1..]) else (None, items)
  {
    if i == 0 {
      if items != [] { assert items[..0] + items[1..] == items[1..]; }
    } else {
      TakeAt(items[1..], skip, i - 1);
      if i < |items| {
        assert [items[0]] + (items[1..][..i - 1] + items[1..][i..]) == items[..i] + items[i + 1..];
      } else {
        assert [items[0]] + items[1..] == items;
      }
    }
  }

  class EventQueue<D> {
    var items: seq<Event<D>>

    constructor ()
      ensures items == []
    {
      items := [];
    }

    method Add(event: Event<D>)
      modifies this
      ensures items == old(items) + [event]
    {
      items := items + [event];
    }

    method GetNext(skipIds: seq<string>) returns (next: Option<Event<D>>)
      modifies this
      ensures (next, items) == Take(old(items), skipIds)
    {
      for index := 0 to |items|
        invariant items == old(items)
        invariant forall j :: 0 <= j < index ==> items[j].id in skipIds
      {
        if items[index].id in skipIds { continue; }
        TakeAt(items, skipIds, index);
        var item := items[index];
        items := items[..index] + items[index + 1..];
        return Some(item);
      }
      TakeAt(items, skipIds, |items|);
      return None;
    }
  }

  // ----- order of delivery

  function Keep<D>(e: Event<D>, id: string): seq<Event<D>> {
    if e.id == id then [e] else []
  }

  function OfId<D>(es: seq<Event<D>>, id: string): seq<Event<D>> {
    if es == [] then [] else Keep(es[0], id) + OfId(es[1..], id)
  }

  lemma {:induction false} OfIdAppend<D>(es: seq<Event<D>>, e: Event<D>, id: string)
    ensures OfId(es + [e], id) == OfId(es, id) + Keep(e, id)
  {
    if es == [] {
      assert es + [e] == [e];
    } else {
      var first, rest := Keep(es[0], id), OfId(es[1..], id);
      assert (es + [e])[1..] == es[1..] + [e];
      OfIdAppend(es[1..], e, id);
      Associative(first, rest, Keep(e, id));
    }
  }

  /** An event is taken before every later event of its id. */
  lemma {:induction false} TakeKeepsOrder<D>(items: seq<Event<D>>, skip: seq<string>, id: string)
    ensures var (e, rest) := Take(items, skip);
            OfId(items, id) == (if e.Some? then Keep(e.value, id) else []) + OfId(rest, id)
    ensures Take(items, skip).0.Some? ==> Take(items, skip).0.value.id !in skip
  {
    if items != [] && items[0].id in skip {
      TakeKeepsOrder(items[1..], skip, id);
      var rest := Take(items[1..], skip).1;
      assert ([items[0]] + rest)[1..] == rest;
    }
  }

  /** Nothing is taken exactly when every waiting event is skipped. */
  lemma {:induction false} TakeNoneExactly<D>(items: seq<Event<D>>, skip: seq<string>)
    ensures Take(items, skip).0.None? <==> forall i :: 0 <= i < |items| ==> items[i].id in skip
  {
    if items != [] {
      TakeNoneExactly(items[1..], skip);
      assert forall i :: 0 < i < |items| ==> items[i] == items[1..][i - 1];
      assert forall i :: 0 <= i < |items[1..]| ==> items[1..][i] == items[i + 1];
    }
  }

  datatype Op<D> = Add(event: Event<D>) | GetNext(skipIds: seq<string>)

  datatype QueueRun<D> = QueueRun(added: seq<Event<D>>, delivered: seq<Event<D>>, items: seq<Event<D>>)

  function Perform<D>(r: QueueRun<D>, op: Op<D>): QueueRun<D> {
    match op
    case Add(e) => r.(added := r.added + [e], items := r.items + [e])
    case GetNext(skip) =>
      var (e, rest) := Take(r.items, skip);
      r.(delivered := if e.Some? then r.delivered + [e.value] else r.delivered, items := rest)
  }

  /** The events added and delivered by the first `i` operations, and those still queued. */
  function After<D>(ops: seq<Op<D>>, i: nat): QueueRun<D>
    requires i <= |ops|
  {
    if i == 0 then QueueRun([], [], []) else Perform(After(ops, i - 1), ops[i - 1])
  }

  /** Of one id, the events delivered and then those queued are those added, in order. */
  ghost predicate InOrder<D>(r: QueueRun<D>, id: string) {
    OfId(r.delivered, id) + OfId(r.items, id) == OfId(r.added, id)
  }

  lemma AddKeepsOrder<D>(r: QueueRun<D>, e: Event<D>, id: string)
    requires InOrder(r, id)
    ensures InOrder(Perform(r, Op.Add(e)), id)
  {
    OfIdAppend(r.added, e, id);
    OfIdAppend(r.items, e, id);
    Associative(OfId(r.delivered, id), OfId(r.items, id), Keep(e, id));
  }

  lemma GetNextKeepsOrder<D>(r: QueueRun<D>, skip: seq<string>, id: string)
    requires InOrder(r, id)
    ensures InOrder(Perform(r, Op.GetNext(skip)), id)
  {
    TakeKeepsOrder(r.items, skip, id);
    var (e, rest) := Take(r.items, skip);
    if e.Some? {
      OfIdAppend(r.delivered, e.value, id);
      Associative(OfId(r.delivered, id), Keep(e.value, id), OfId(rest, id));
    }
  }

  /** For any interleaving of operations and any skip lists, the events of each id are
      delivered in the order added, with none lost or repeated. */
  lemma {:induction false} DeliveredInOrder<D>(ops: seq<Op<D>>, i: nat, id: string)
    requires i <= |ops|
    ensures InOrder(After(ops, i), id)
  {
    if i > 0 {
      DeliveredInOrder(ops, i - 1, id);
      match ops[i - 1]
      case Add(e) => AddKeepsOrder(After(ops, i - 1), e, id);
      case GetNext(skip) => GetNextKeepsOrder(After(ops, i - 1), skip, id);
    }
  }
}
