/** p2p/src/libp2p: which peer to dial next.  Addresses found by a discovery mechanism are
    handed out in the order of the mechanisms' priority, within a maximum per mechanism,
    and not while a failed address cools down. */
module Discovery {
  import opened Collections
  import opened PeerLists

  type I32 = x: int | -0x8000_0000 <= x < 0x8000_0000

  datatype P2PConfig = P2PConfig(
    outPeers: I32, maxManualPeers: I32, maxMdnsPeers: I32, maxKademliaPeers: I32,
    disableManualPeers: bool, disableMdns: bool, disableKademliaPeers: bool, cooldownDuration: nat)

  /** A cast of a 32-bit integer to a 64-bit unsigned one. */
  function AsUsize(x: I32): nat {
    if x < 0 then x + 0x1_0000_0000_0000_0000 else x
  }

  /** A cast of a length to a 32-bit integer. */
  function AsI32(n: nat): I32 {
    var m := n % 0x1_0000_0000;
    if m < 0x8000_0000 then m else m - 0x1_0000_0000
  }

  function MaxPeers(config: P2PConfig, t: ConnectionType): nat {
    match t
    case Manual => AsUsize(config.maxManualPeers)
    case MDns => AsUsize(config.maxMdnsPeers)
    case Kademlia => AsUsize(config.maxKademliaPeers)
    case _ => 0
  }

  predicate Disabled(config: P2PConfig, t: ConnectionType) {
    match t
    case Manual => config.disableManualPeers
    case MDns => config.disableMdns
    case Kademlia => config.disableKademliaPeers
    case _ => true
  }

  datatype Status = Status(
    connected: Peers, cooldown: map<Multiaddr, nat>,
    manual: Peers, chain: Peers, mdns: Peers, kademlia: Peers)

  const NO_PEERS := Peers(map[], map[])

  function New(manualPeers: Peers): Status {
    Status(NO_PEERS, map[], manualPeers, NO_PEERS, NO_PEERS, NO_PEERS)
  }

  function Found(d: Status, t: ConnectionType): Peers {
    match t
    case Manual => d.manual
    case MDns => d.mdns
    case Kademlia => d.kademlia
    case _ => d.chain
  }

  // ----- p2p/src/libp2p/discovery_status.rs

  function OfType(l: Peers, t: ConnectionType): set<Multiaddr> {
    set a | a in l.addrToPeer && l.addrToPeer[a].connType == t
  }

  /** `is_unused_addr`: not connected, and past its cooldown if it has one. */
  predicate IsUnused(config: P2PConfig, d: Status, a: Multiaddr, now: nat) {
    a !in d.connected.addrToPeer && (a in d.cooldown ==> now > d.cooldown[a] + config.cooldownDuration)
  }

  /** A mechanism has room: enabled, below its maximum, and not to be skipped. */
  predicate HasRoom(config: P2PConfig, d: Status, t: ConnectionType, skip: ConnectionType) {
    !Disabled(config, t) && |OfType(d.connected, t)| < MaxPeers(config, t) && skip.Rank() < t.Rank()
  }

  /** The required number of peers is connected. */
  predicate Full(config: P2PConfig, d: Status) {
    AsI32(|d.connected.peerToAddr|) >= config.outPeers
  }

  function CurrentMethod(config: P2PConfig, d: Status, skip: ConnectionType): (t: ConnectionType)
    ensures t != NoConnection ==> HasRoom(config, d, t, skip) && t != Chain
  {
    if Full(config, d) then NoConnection
    else if HasRoom(config, d, Manual, skip) then Manual
    else if HasRoom(config, d, MDns, skip) then MDns
    else if HasRoom(config, d, Kademlia, skip) then Kademlia
    else NoConnection
  }

  function HandOut(d: Status, a: Multiaddr, t: ConnectionType): Status
    requires a in Found(d, t).addrToPeer
  {
    d.(connected := AddPeer(d.connected, a, Found(d, t).addrToPeer[a].peerId, t), cooldown := d.cooldown - {a})
  }

  /** `get_next_*_peer`: the first unused address, in the order in which the hash map yields
      its entries. */
  function NextPeer(config: P2PConfig, d: Status, t: ConnectionType, order: seq<Multiaddr>, now: nat): (Option<Multiaddr>, Status) {
    if order == [] then (None, d)
    else if order[0] in Found(d, t).addrToPeer && IsUnused(config, d, order[0], now) then (Some(order[0]), HandOut(d, order[0], t))
    else NextPeer(config, d, t, order[1..], now)
  }

  function CooldownAddr(d: Status, a: Multiaddr, now: nat): Status {
    d.(cooldown := d.cooldown[a := now])
  }

  /** Losing a connection also forgets where the peer was found, except for manual peers. */
  function Forget(d: Status, t: ConnectionType, f: Peers -> Peers): Status {
    match t
    case Chain => d.(chain := f(d.chain))
    case Kademlia => d.(kademlia := f(d.kademlia))
    case MDns => d.(mdns := f(d.mdns))
    case _ => d
  }

  function RemoveConnectedId(d: Status, p: PeerId): Status {
    var known := p in d.connected.peerToAddr && d.connected.peerToAddr[p] in d.connected.addrToPeer;
    var d1 := if known then Forget(d, d.connected.addrToPeer[d.connected.peerToAddr[p]].connType, l => RemoveById(l, p)) else d;
    d1.(connected := RemoveById(d.connected, p))
  }

  function RemoveConnectedAddr(d: Status, a: Multiaddr): Status {
    var d1 := if a in d.connected.addrToPeer then Forget(d, d.connected.addrToPeer[a].connType, l => RemoveByAddr(l, a)) else d;
    d1.(connected := RemoveByAddr(d.connected, a))
  }

  function RemoveConnected(d: Status, p: Option<PeerId>, a: Option<Multiaddr>): Status {
    var d1 := if p.Some? then RemoveConnectedId(d, p.value) else d;
    if a.Some? then RemoveConnectedAddr(d1, a.value) else d1
  }

  /** `add_connected_peer` panics on an address that is not listed. */
  function ConnectPeer(d: Status, a: Multiaddr, p: PeerId): Option<Status> {
    var l := SetPeerId(d.connected, a, p);
    if l.Some? then Some(d.(connected := l.value)) else None
  }

  // ----- p2p/src/libp2p/mod.rs

  /** The orders in which the three hash maps yield their entries during one search. */
  datatype Orders = Orders(manual: seq<Multiaddr>, mdns: seq<Multiaddr>, kademlia: seq<Multiaddr>) {
    function Of(t: ConnectionType): seq<Multiaddr> {
      match t
      case Manual => manual
      case MDns => mdns
      case _ => kademlia
    }
  }

  datatype Outcome = Dialled(addr: Multiaddr) | AskedKademlia | NothingToDo

  /** `search_new_peer` and the three functions it calls.  No search method is `Chain`. */
  function Search(config: P2PConfig, d: Status, skip: ConnectionType, orders: Orders, now: nat): (Outcome, Status)
    decreases 3 - skip.Rank()
  {
    var t := CurrentMethod(config, d, skip);
    if t == NoConnection then (NothingToDo, d)
    else
      var (a, d') := NextPeer(config, d, t, orders.Of(t), now);
      if a.Some? then (Dialled(a.value), d')
      else if t == Kademlia then (AskedKademlia, d')
      else Search(config, d', t, orders, now)
  }

  /** The status as an object that owns its peer lists. */
  class DiscoveryStatus {
    const config: P2PConfig
    var cooldown: map<Multiaddr, nat>
    const connected: PeerList
    const manual: PeerList
    const chain: PeerList
    const mdns: PeerList
    const kademlia: PeerList

    ghost function Lists(): set<PeerList> { {connected, manual, chain, mdns, kademlia} }

    /** The five lists are different objects. */
    ghost predicate Valid() {
      && connected !in {manual, chain, mdns, kademlia} && manual !in {chain, mdns, kademlia}
      && chain !in {mdns, kademlia} && mdns != kademlia
    }

    ghost function View(): Status
      reads this, Lists()
    {
      Status(connected.View(), cooldown, manual.View(), chain.View(), mdns.View(), kademlia.View())
    }

    constructor (config: P2PConfig, manualPeers: PeerList)
      ensures Valid() && this.config == config && manual == manualPeers && fresh(Lists() - {manualPeers})
      ensures View() == New(manualPeers.View())
    {
      this.config, cooldown, manual := config, map[], manualPeers;
      connected := new PeerList();
      chain := new PeerList();
      mdns := new PeerList();
      kademlia := new PeerList();
    }

    /** `is_unused_addr`: also drops a cooldown that has ended. */
    method IsUnusedAddr(a: Multiaddr, now: nat) returns (unused: bool)
      modifies this`cooldown
      ensures unused == old(IsUnused(config, View(), a, now))
      ensures cooldown == if unused then old(cooldown) - {a} else old(cooldown)
    {
      if a in connected.addrToPeer { return false; }
      if a in cooldown {
        if now > cooldown[a] + config.cooldownDuration {
          cooldown := cooldown - {a};
          return true;
        }
        return false;
      }
      return true;
    }

    method CurrentDiscoveryMethod(skip: ConnectionType) returns (t: ConnectionType)
      ensures t == CurrentMethod(config, View(), skip)
    {
      var l := connected.View();
      if AsI32(|l.peerToAddr|) >= config.outPeers { return NoConnection; }
      if !config.disableManualPeers && |OfType(l, Manual)| < AsUsize(config.maxManualPeers) && skip.Rank() < Manual.Rank() {
        return Manual;
      }
      if !config.disableMdns && |OfType(l, MDns)| < AsUsize(config.maxMdnsPeers) && skip.Rank() < MDns.Rank() {
        return MDns;
      }
      if !config.disableKademliaPeers && |OfType(l, Kademlia)| < AsUsize(config.maxKademliaPeers)
         && skip.Rank() < Kademlia.Rank() {
        return Kademlia;
      }
      return NoConnection;
    }

    method Cooldown(a: Multiaddr, now: nat)
      modifies this`cooldown
      ensures View() == CooldownAddr(old(View()), a, now)
    {
      cooldown := cooldown[a := now];
    }

    /** The result tells whether the server survives: an unlisted address is a panic. */
    method AddConnectedPeer(a: Multiaddr, p: PeerId) returns (ok: bool)
      requires Valid()
      modifies connected
      ensures var d := ConnectPeer(old(View()), a, p);
              ok == d.Some? && View() == if d.Some? then d.value else old(View())
    {
      ok := connected.Set(a, p);
    }

    method RemoveConnectedPeer(p: Option<PeerId>, a: Option<Multiaddr>)
      requires Valid()
      modifies connected, chain, mdns, kademlia
      ensures View() == RemoveConnected(old(View()), p, a)
    {
      if p.Some? { RemoveById(p.value); }
      if a.Some? { RemoveByAddress(a.value); }
    }

    method RemoveById(p: PeerId)
      requires Valid()
      modifies connected, chain, mdns, kademlia
      ensures View() == RemoveConnectedId(old(View()), p)
    {
      var l := connected.View();
      if p in l.peerToAddr && l.peerToAddr[p] in l.addrToPeer {
        match l.addrToPeer[l.peerToAddr[p]].connType {
          case Chain => chain.RemovePeerById(p);
          case Kademlia => kademlia.RemovePeerById(p);
          case MDns => mdns.RemovePeerById(p);
          case _ =>
        }
      }
      connected.RemovePeerById(p);
    }

    method RemoveByAddress(a: Multiaddr)
      requires Valid()
      modifies connected, chain, mdns, kademlia
      ensures View() == RemoveConnectedAddr(old(View()), a)
    {
      if a in connected.addrToPeer {
        match connected.addrToPeer[a].connType {
          case Chain => chain.RemovePeerByAddr(a);
          case Kademlia => kademlia.RemovePeerByAddr(a);
          case MDns => mdns.RemovePeerByAddr(a);
          case _ =>
        }
      }
      connected.RemovePeerByAddr(a);
    }

    /** The loop of `get_next_manual_peer`, `get_next_mdns_peer` and `get_next_kademlia_peer`. */
    method GetNextPeer(t: ConnectionType, order: seq<Multiaddr>, now: nat) returns (next: Option<Multiaddr>)
      requires Valid()
      modifies connected, this`cooldown
      ensures (next, View()) == NextPeer(config, old(View()), t, order, now)
    {
      var peers := match t case Manual => manual case MDns => mdns case Kademlia => kademlia case _ => chain;
      for i := 0 to |order|
        invariant View() == old(View())
        invariant NextPeer(config, View(), t, order[i..], now) == NextPeer(config, View(), t, order, now)
      {
        var addr := order[i];
        assert order[i..][1..] == order[i + 1..];
        if addr in peers.addrToPeer {
          var unused := IsUnusedAddr(addr, now);
          if unused {
            connected.Add(addr, peers.addrToPeer[addr].peerId, t);
            return Some(addr);
          }
        }
      }
      return None;
    }
  }

  /** The search functions of the server call each other on the shared status. */
  class P2PServer {
    const discovery: DiscoveryStatus
    var dials: seq<Multiaddr>

    constructor (discovery: DiscoveryStatus)
      ensures this.discovery == discovery && dials == []
    {
      this.discovery := discovery;
      dials := [];
    }

    /** A search ends, since the type to skip rises with every recursive call, and dials at
        most one peer. */
    method SearchNewPeer(skip: ConnectionType, orders: Orders, now: nat) returns (outcome: Outcome)
      requires discovery.Valid()
      modifies this, discovery, discovery.Lists()
      ensures (outcome, discovery.View()) == Search(discovery.config, old(discovery.View()), skip, orders, now)
      ensures dials == old(dials) + if outcome.Dialled? then [outcome.addr] else []
      decreases 3 - skip.Rank(), 1
    {
      var t := discovery.CurrentDiscoveryMethod(skip);
      if t == NoConnection {
        outcome := NothingToDo;
      } else {
        outcome := SearchPeers(t, skip, orders, now);
      }
    }

    /** `search_manual_peers`, `search_mdns_peers` and `search_kademlia_peers`. */
    method SearchPeers(t: ConnectionType, ghost skip: ConnectionType, orders: Orders, now: nat) returns (outcome: Outcome)
      requires discovery.Valid() && t == CurrentMethod(discovery.config, discovery.View(), skip) && t != NoConnection
      modifies this, discovery, discovery.Lists()
      ensures (outcome, discovery.View()) == Search(discovery.config, old(discovery.View()), skip, orders, now)
      ensures dials == old(dials) + if outcome.Dialled? then [outcome.addr] else []
      decreases 3 - skip.Rank(), 0
    {
      var next := discovery.GetNextPeer(t, orders.Of(t), now);
      if next.Some? {
        dials := dials + [next.value];
        outcome := Dialled(next.value);
      } else if t == Kademlia {
        outcome := AskedKademlia;
      } else {
        outcome := SearchNewPeer(t, orders, now);
      }
    }
  }

  // ----- what a search hands out

  ghost predicate Enumerates(order: seq<Multiaddr>, l: Peers) {
    forall a :: a in order <==> a in l.addrToPeer
  }

  ghost predicate AllEnumerated(orders: Orders, d: Status) {
    Enumerates(orders.manual, d.manual) && Enumerates(orders.mdns, d.mdns) && Enumerates(orders.kademlia, d.kademlia)
  }

  ghost predicate Available(config: P2PConfig, d: Status, t: ConnectionType, a: Multiaddr, now: nat) {
    a in Found(d, t).addrToPeer && IsUnused(config, d, a, now)
  }

  /** A mechanism that may be used and has an address to offer. */
  ghost predicate CanServe(config: P2PConfig, d: Status, t: ConnectionType, skip: ConnectionType, now: nat) {
    HasRoom(config, d, t, skip) && exists a :: Available(config, d, t, a, now)
  }

  lemma {:induction false} NextPeerExactly(config: P2PConfig, d: Status, t: ConnectionType, order: seq<Multiaddr>, now: nat)
    ensures var (a, d') := NextPeer(config, d, t, order, now);
            if a.Some? then a.value in order && Available(config, d, t, a.value, now) && d' == HandOut(d, a.value, t)
            else d' == d && forall b :: b in order ==> !Available(config, d, t, b, now)
  {
    if order != [] { NextPeerExactly(config, d, t, order[1..], now); }
  }

  /** Of the addresses on offer the first in iteration order is handed out. */
  lemma {:induction false} NextPeerIsFirst(config: P2PConfig, d: Status, t: ConnectionType, order: seq<Multiaddr>, now: nat, i: nat)
    requires i < |order| && Available(config, d, t, order[i], now) && forall j :: 0 <= j < i ==> !Available(config, d, t, order[j], now)
    ensures NextPeer(config, d, t, order, now).0 == Some(order[i])
  {
    if i > 0 {
      assert !Available(config, d, t, order[0], now);
      NextPeerIsFirst(config, d, t, order[1..], now, i - 1);
    }
  }

  ghost predicate DialledFor(config: P2PConfig, d: Status, r: (Outcome, Status), t: ConnectionType, now: nat) {
    && r.0.Dialled? && Available(config, d, t, r.0.addr, now)
    && r.1 == d.(connected := r.1.connected, cooldown := d.cooldown - {r.0.addr})
    && r.1.connected.addrToPeer == d.connected.addrToPeer[r.0.addr := PeerInfo(Found(d, t).addrToPeer[r.0.addr].peerId, t)]
  }

  ghost predicate NoneCanServe(config: P2PConfig, d: Status, skip: ConnectionType, now: nat) {
    forall t: ConnectionType :: !CanServe(config, d, t, skip, now)
  }

  /** The mechanism of highest priority that can serve. */
  ghost predicate FirstServer(config: P2PConfig, d: Status, t: ConnectionType, skip: ConnectionType, now: nat) {
    && CanServe(config, d, t, skip, now)
    && forall u: ConnectionType :: u.Rank() < t.Rank() ==> !CanServe(config, d, u, skip, now)
  }

  /** A search dials for the mechanism of highest priority that can serve.  If none can, it
      changes nothing, and asks Kademlia for more exactly when Kademlia has room. */
  ghost predicate ServedFirst(config: P2PConfig, d: Status, skip: ConnectionType, r: (Outcome, Status), now: nat) {
    if NoneCanServe(config, d, skip, now)
    then r == (if HasRoom(config, d, Kademlia, skip) then AskedKademlia else NothingToDo, d)
    else exists t: ConnectionType :: FirstServer(config, d, t, skip, now) && DialledFor(config, d, r, t, now)
  }

  lemma {:induction false} SearchServesFirst(config: P2PConfig, d: Status, skip: ConnectionType, orders: Orders, now: nat)
    requires AllEnumerated(orders, d)
    ensures var r := Search(config, d, skip, orders, now);
            if Full(config, d) then r == (NothingToDo, d) else ServedFirst(config, d, skip, r, now)
    decreases 3 - skip.Rank()
  {
    var t := CurrentMethod(config, d, skip);
    if t != NoConnection {
      NextPeerExactly(config, d, t, orders.Of(t), now);
      var (a, d') := NextPeer(config, d, t, orders.Of(t), now);
      if a.Some? {
        ServedNow(config, d, skip, t, a.value, now);
      } else if t != Kademlia {
        SearchServesFirst(config, d, t, orders, now);
        ServedLater(config, d, skip, t, Search(config, d, t, orders, now), now);
      }
    }
  }

  lemma ServedNow(config: P2PConfig, d: Status, skip: ConnectionType, t: ConnectionType, a: Multiaddr, now: nat)
    requires t == CurrentMethod(config, d, skip) && t != NoConnection && Available(config, d, t, a, now)
    ensures ServedFirst(config, d, skip, (Dialled(a), HandOut(d, a, t)), now)
  {
    assert FirstServer(config, d, t, skip, now);
    assert DialledFor(config, d, (Dialled(a), HandOut(d, a, t)), t, now);
  }

  lemma ServedLater(config: P2PConfig, d: Status, skip: ConnectionType, t: ConnectionType, r: (Outcome, Status), now: nat)
    requires t == CurrentMethod(config, d, skip) && t != NoConnection && t != Kademlia && !CanServe(config, d, t, skip, now)
    requires ServedFirst(config, d, t, r, now)
    ensures ServedFirst(config, d, skip, r, now)
  {
    RoomAbove(config, d, t, skip, now);
    if u: ConnectionType :| FirstServer(config, d, u, t, now) && DialledFor(config, d, r, u, now) {
      assert FirstServer(config, d, u, skip, now);
    }
  }

  /** Skipping past a mechanism that was the first with room leaves the later ones. */
  lemma RoomAbove(config: P2PConfig, d: Status, t: ConnectionType, skip: ConnectionType, now: nat)
    requires t == CurrentMethod(config, d, skip) && t != NoConnection && !CanServe(config, d, t, skip, now)
    ensures forall u: ConnectionType :: CanServe(config, d, u, skip, now) <==> CanServe(config, d, u, t, now)
    ensures t != Kademlia ==> (HasRoom(config, d, Kademlia, skip) <==> HasRoom(config, d, Kademlia, t))
  {
  }

  // ----- runs

  datatype Event =
    | SearchTick(orders: Orders)
    | Connected(addr: Multiaddr, peer: PeerId)
    | Closed(peer: PeerId)
    | Failed(addr: Multiaddr)
    | FoundMdns(addr: Multiaddr, peer: PeerId)
    | FoundKademlia(addr: Multiaddr, peer: PeerId)
    | AddedByHand(addr: Multiaddr, maybePeer: Option<PeerId>)

  datatype Step = Step(now: nat, event: Event)

  /** The effect of one event of the server's loop, `None` when it ends the server: a
      connection to an address that is not listed.  A peer added by hand is filed under
      Kademlia, as the source does. */
  function Handle(config: P2PConfig, d: Status, step: Step): Option<Status> {
    match step.event
    case SearchTick(orders) => Some(Search(config, d, NoConnection, orders, step.now).1)
    case Connected(a, p) => ConnectPeer(d, a, p)
    case Closed(p) => Some(RemoveConnected(d, Some(p), None))
    case Failed(a) => Some(CooldownAddr(RemoveConnected(d, None, Some(a)), a, step.now))
    case FoundMdns(a, p) => Some(d.(mdns := AddPeer(d.mdns, a, Some(p), MDns)))
    case FoundKademlia(a, p) => Some(d.(kademlia := AddPeer(d.kademlia, a, Some(p), Kademlia)))
    case AddedByHand(a, p) => Some(d.(kademlia := AddPeer(d.kademlia, a, p, Kademlia)))
  }

  type Handler = (Status, Step) -> Option<Status>

  function Loop(config: P2PConfig): Handler {
    (d, step) => Handle(config, d, step)
  }

  /** The status after the first `i` events, as long as the server is up. */
  function At(handle: Handler, d: Status, steps: seq<Step>, i: nat): Option<Status>
    requires i <= |steps|
  {
    if i == 0 then Some(d)
    else
      match At(handle, d, steps, i - 1)
      case None => None
      case Some(before) => handle(before, steps[i - 1])
  }

  ghost predicate Capped(config: P2PConfig, d: Status, t: ConnectionType) {
    |OfType(d.connected, t)| <= if Disabled(config, t) then 0 else MaxPeers(config, t)
  }

  lemma FewerOfType(l: Peers, l': Peers, t: ConnectionType)
    requires forall a :: a in l'.addrToPeer ==> a in l.addrToPeer && l'.addrToPeer[a].connType == l.addrToPeer[a].connType
    ensures |OfType(l', t)| <= |OfType(l, t)|
  {
    SubsetCardinality(OfType(l', t), OfType(l, t));
  }

  lemma OneMoreOfType(l: Peers, a: Multiaddr, p: Option<PeerId>, t: ConnectionType, u: ConnectionType)
    requires a !in l.addrToPeer
    ensures |OfType(AddPeer(l, a, p, t), u)| == |OfType(l, u)| + if t == u then 1 else 0
  {
    assert OfType(AddPeer(l, a, p, t), u) == OfType(l, u) + if t == u then {a} else {};
  }

  lemma {:induction false} SearchKeepsCap(config: P2PConfig, d: Status, skip: ConnectionType, orders: Orders, now: nat, u: ConnectionType)
    requires Capped(config, d, u)
    ensures Capped(config, Search(config, d, skip, orders, now).1, u)
    decreases 3 - skip.Rank()
  {
    var t := CurrentMethod(config, d, skip);
    if t != NoConnection {
      NextPeerExactly(config, d, t, orders.Of(t), now);
      var (a, d') := NextPeer(config, d, t, orders.Of(t), now);
      if a.Some? {
        OneMoreOfType(d.connected, a.value, Found(d, t).addrToPeer[a.value].peerId, t, u);
      } else if t != Kademlia {
        SearchKeepsCap(config, d, t, orders, now, u);
      }
    }
  }

  lemma HandleKeepsCap(config: P2PConfig, d: Status, step: Step, u: ConnectionType)
    requires Capped(config, d, u)
    ensures Handle(config, d, step).Some? ==> Capped(config, Handle(config, d, step).value, u)
  {
    match step.event
    case SearchTick(orders) => SearchKeepsCap(config, d, NoConnection, orders, step.now, u);
    case Connected(a, p) => if ConnectPeer(d, a, p).Some? { FewerOfType(d.connected, ConnectPeer(d, a, p).value.connected, u); }
    case Closed(p) => FewerOfType(d.connected, RemoveById(d.connected, p), u);
    case Failed(a) => FewerOfType(d.connected, RemoveByAddr(d.connected, a), u);
    case _ =>
  }

  ghost predicate KeepsCap(config: P2PConfig, handle: Handler, u: ConnectionType) {
    forall d, step :: Capped(config, d, u) && handle(d, step).Some? ==> Capped(config, handle(d, step).value, u)
  }

  lemma {:induction false} CappedAlong(config: P2PConfig, handle: Handler, d: Status, steps: seq<Step>, i: nat, u: ConnectionType)
    requires i <= |steps| && KeepsCap(config, handle, u) && Capped(config, d, u)
    ensures var d' := At(handle, d, steps, i); d'.Some? ==> Capped(config, d'.value, u)
  {
    if i > 0 { CappedAlong(config, handle, d, steps, i - 1, u); }
  }

  lemma LoopKeepsCap(config: P2PConfig, u: ConnectionType)
    ensures KeepsCap(config, Loop(config), u)
  {
    forall d, step | Capped(config, d, u) && Loop(config)(d, step).Some? ensures Capped(config, Loop(config)(d, step).value, u) {
      HandleKeepsCap(config, d, step, u);
    }
  }

  /** Over every run, as long as the server is up, the connected entries of each type stay
      within that type's maximum. */
  lemma ConnectionsStayCapped(config: P2PConfig, manual: Peers, steps: seq<Step>, i: nat, u: ConnectionType)
    requires i <= |steps|
    ensures var d := At(Loop(config), New(manual), steps, i); d.Some? ==> Capped(config, d.value, u)
  {
    assert OfType(NO_PEERS, u) == {};
    LoopKeepsCap(config, u);
    CappedAlong(config, Loop(config), New(manual), steps, i, u);
  }

  /** The same in terms of the settings: no connection by a mechanism that is switched off,
      and no more than its maximum by one that is not. */
  lemma SettingsAreKept(config: P2PConfig, manual: Peers, steps: seq<Step>, i: nat)
    requires i <= |steps| && At(Loop(config), New(manual), steps, i).Some?
    ensures var l := At(Loop(config), New(manual), steps, i).value.connected;
            && (config.disableManualPeers ==> OfType(l, Manual) == {}) && (config.maxManualPeers >= 0 ==> |OfType(l, Manual)| <= config.maxManualPeers)
            && (config.disableMdns ==> OfType(l, MDns) == {}) && (config.maxMdnsPeers >= 0 ==> |OfType(l, MDns)| <= config.maxMdnsPeers)
            && (config.disableKademliaPeers ==> OfType(l, Kademlia) == {})
            && (config.maxKademliaPeers >= 0 ==> |OfType(l, Kademlia)| <= config.maxKademliaPeers)
            && OfType(l, Chain) == {}
  {
    ConnectionsStayCapped(config, manual, steps, i, Manual);
    ConnectionsStayCapped(config, manual, steps, i, MDns);
    ConnectionsStayCapped(config, manual, steps, i, Kademlia);
    ConnectionsStayCapped(config, manual, steps, i, Chain);
  }

  /** As long as the number of known peers fits 31 bits, a search does nothing at all while
      the wanted number of peers is connected. */
  lemma EnoughPeersNoDial(config: P2PConfig, d: Status, skip: ConnectionType, orders: Orders, now: nat)
    requires config.outPeers <= |d.connected.peerToAddr| < 0x8000_0000
    ensures Search(config, d, skip, orders, now) == (NothingToDo, d)
  {
  }

  /** With fewer it dials for the first mechanism that can serve, if there is one. */
  lemma TooFewPeersDial(config: P2PConfig, d: Status, skip: ConnectionType, orders: Orders, now: nat)
    requires |d.connected.peerToAddr| < config.outPeers && AllEnumerated(orders, d)
    ensures Search(config, d, skip, orders, now).0.Dialled? <==> !NoneCanServe(config, d, skip, now)
  {
    SearchServesFirst(config, d, skip, orders, now);
  }

  /** A closed connection is also forgotten by the mechanism that found it, unless that was
      a manual entry; no other list changes. */
  lemma ForgottenWhereFound(d: Status, p: PeerId, a: Multiaddr)
    requires p in d.connected.peerToAddr && d.connected.peerToAddr[p] == a && a in d.connected.addrToPeer
    ensures var d', t := RemoveConnected(d, Some(p), None), d.connected.addrToPeer[a].connType;
            && d'.manual == d.manual && d'.cooldown == d.cooldown && a !in d'.connected.addrToPeer
            && (if t == MDns then p !in d'.mdns.peerToAddr else d'.mdns == d.mdns)
            && (if t == Kademlia then p !in d'.kademlia.peerToAddr else d'.kademlia == d.kademlia)
            && (if t == Chain then p !in d'.chain.peerToAddr else d'.chain == d.chain)
  {
  }

  /** The casts keep numbers modulo a power of two, so that a negative maximum is no bound. */
  lemma CastsExactly(x: I32, n: nat)
    ensures AsUsize(x) == x % 0x1_0000_0000_0000_0000
    ensures (AsI32(n) - n) % 0x1_0000_0000 == 0
  {
  }

  /** Where an event that tells of a peer files it: a peer added by hand under Kademlia. */
  lemma FiledUnder(config: P2PConfig, d: Status, now: nat, a: Multiaddr, p: PeerId)
    ensures Handle(config, d, Step(now, FoundMdns(a, p)))
         == Some(d.(mdns := Peers(d.mdns.addrToPeer[a := PeerInfo(Some(p), MDns)], d.mdns.peerToAddr[p := a])))
    ensures Handle(config, d, Step(now, FoundKademlia(a, p)))
         == Some(d.(kademlia := Peers(d.kademlia.addrToPeer[a := PeerInfo(Some(p), Kademlia)], d.kademlia.peerToAddr[p := a])))
    ensures Handle(config, d, Step(now, AddedByHand(a, None)))
         == Some(d.(kademlia := d.kademlia.(addrToPeer := d.kademlia.addrToPeer[a := PeerInfo(None, Kademlia)])))
  {
  }

  // ----- one peer at two addresses

  /** The addresses at which `p` is listed. */
  function AddressesOf(l: Peers, p: PeerId): set<Multiaddr> {
    set a | a in l.addrToPeer && l.addrToPeer[a].peerId == Some(p)
  }

  /** A closed connection is forgotten altogether exactly when its peer is listed at no
      address but the one on record for it. */
  lemma ClosedIsForgottenExactly(d: Status, p: PeerId)
    ensures AddressesOf(RemoveConnectedId(d, p).connected, p) == {} <==>
              forall a :: a in AddressesOf(d.connected, p) ==> p in d.connected.peerToAddr && d.connected.peerToAddr[p] == a
  {
    var l, l' := d.connected, RemoveById(d.connected, p);
    assert forall a :: a in AddressesOf(l', p) <==> a in AddressesOf(l, p) && !(p in l.peerToAddr && l.peerToAddr[p] == a);
    assert AddressesOf(l', p) == {} <==> forall a :: a !in AddressesOf(l', p);
  }

  /** mDNS finds one peer at two addresses, both are dialled and answered, and the
      connection closes. */
  function TwoAddresses(a: Multiaddr, b: Multiaddr, p: PeerId): seq<Step> {
    var tick := SearchTick(Orders([], [a, b], []));
    [Step(0, FoundMdns(a, p)), Step(0, FoundMdns(b, p)), Step(0, tick), Step(0, tick),
     Step(0, Connected(a, p)), Step(0, Connected(b, p)), Step(0, Closed(p))]
  }

  function Listed(a: Multiaddr, p: PeerId): Peers {
    Peers(map[a := PeerInfo(Some(p), MDns)], map[p := a])
  }

  function ListedTwice(a: Multiaddr, b: Multiaddr, p: PeerId): Peers {
    Peers(map[a := PeerInfo(Some(p), MDns), b := PeerInfo(Some(p), MDns)], map[p := b])
  }

  /** Only mDNS is enabled, for up to two peers. */
  const MDNS_ONLY := P2PConfig(2, 0, 2, 0, true, false, true, 0)

  function FoundTwice(a: Multiaddr, b: Multiaddr, p: PeerId, connected: Peers): Status {
    New(NO_PEERS).(mdns := ListedTwice(a, b, p), connected := connected)
  }

  lemma DialsNext(d: Status, orders: Orders, x: Multiaddr, d': Status)
    requires CurrentMethod(MDNS_ONLY, d, NoConnection) == MDns && NextPeer(MDNS_ONLY, d, MDns, orders.mdns, 0) == (Some(x), d')
    ensures Search(MDNS_ONLY, d, NoConnection, orders, 0) == (Dialled(x), d')
  {
  }

  lemma FirstDialled(a: Multiaddr, b: Multiaddr, p: PeerId)
    requires a != b
    ensures Search(MDNS_ONLY, FoundTwice(a, b, p, NO_PEERS), NoConnection, Orders([], [a, b], []), 0)
         == (Dialled(a), FoundTwice(a, b, p, Listed(a, p)))
  {
    var d, d' := FoundTwice(a, b, p, NO_PEERS), FoundTwice(a, b, p, Listed(a, p));
    assert OfType(NO_PEERS, MDns) == {};
    assert CurrentMethod(MDNS_ONLY, d, NoConnection) == MDns;
    assert d.cooldown - {a} == d.cooldown;
    assert HandOut(d, a, MDns) == d';
    DialsNext(d, Orders([], [a, b], []), a, d');
  }

  lemma SecondDialled(a: Multiaddr, b: Multiaddr, p: PeerId)
    requires a != b
    ensures Search(MDNS_ONLY, FoundTwice(a, b, p, Listed(a, p)), NoConnection, Orders([], [a, b], []), 0)
         == (Dialled(b), FoundTwice(a, b, p, ListedTwice(a, b, p)))
  {
    var d, d' := FoundTwice(a, b, p, Listed(a, p)), FoundTwice(a, b, p, ListedTwice(a, b, p));
    assert OfType(Listed(a, p), MDns) == {a};
    assert CurrentMethod(MDNS_ONLY, d, NoConnection) == MDns;
    assert d.cooldown - {b} == d.cooldown && [a, b][1..] == [b];
    assert HandOut(d, b, MDns) == d';
    assert NextPeer(MDNS_ONLY, d, MDns, [b], 0) == (Some(b), d');
    DialsNext(d, Orders([], [a, b], []), b, d');
  }

  lemma NextStatus(steps: seq<Step>, i: nat, d: Status)
    requires 0 < i <= |steps| && At(Loop(MDNS_ONLY), New(NO_PEERS), steps, i - 1) == Some(d)
    ensures At(Loop(MDNS_ONLY), New(NO_PEERS), steps, i) == Handle(MDNS_ONLY, d, steps[i - 1])
  {
  }

  lemma FindsTwice(a: Multiaddr, b: Multiaddr, p: PeerId)
    requires a != b
    ensures AddPeer(NO_PEERS, a, Some(p), MDns) == Listed(a, p)
    ensures AddPeer(Listed(a, p), b, Some(p), MDns) == ListedTwice(a, b, p)
  {
  }

  /** What is left of the connections once the peer is gone. */
  function LeftOver(a: Multiaddr, p: PeerId): Peers {
    Peers(map[a := PeerInfo(Some(p), MDns)], map[])
  }

  lemma AnswersAt(a: Multiaddr, b: Multiaddr, p: PeerId, x: Multiaddr, y: Multiaddr)
    requires a != b && (x == a || x == b)
    ensures var l := ListedTwice(a, b, p);
            SetPeerId(l.(peerToAddr := map[p := y]), x, p) == Some(l.(peerToAddr := map[p := x]))
  {
    var l := ListedTwice(a, b, p);
    assert l.addrToPeer[x := PeerInfo(Some(p), MDns)] == l.addrToPeer;
    assert map[p := y][p := x] == map[p := x];
  }

  lemma ClosesAtSecond(a: Multiaddr, b: Multiaddr, p: PeerId)
    requires a != b
    ensures RemoveById(ListedTwice(a, b, p), p) == LeftOver(a, p)
  {
  }

  /** The status after each of the seven events. */
  function Stage(a: Multiaddr, b: Multiaddr, p: PeerId, i: nat): Status
    requires i <= 7
  {
    if i == 0 then New(NO_PEERS)
    else if i == 1 then New(NO_PEERS).(mdns := Listed(a, p))
    else if i == 2 then FoundTwice(a, b, p, NO_PEERS)
    else if i == 3 then FoundTwice(a, b, p, Listed(a, p))
    else if i == 4 || i == 6 then FoundTwice(a, b, p, ListedTwice(a, b, p))
    else if i == 5 then FoundTwice(a, b, p, ListedTwice(a, b, p).(peerToAddr := map[p := a]))
    else FoundTwice(a, b, p, LeftOver(a, p)).(mdns := LeftOver(a, p))
  }

  lemma NextStage(a: Multiaddr, b: Multiaddr, p: PeerId, i: nat)
    requires a != b && i < 7
    ensures Handle(MDNS_ONLY, Stage(a, b, p, i), TwoAddresses(a, b, p)[i]) == Some(Stage(a, b, p, i + 1))
  {
    if i < 2 { FindsTwice(a, b, p); } else if i < 4 { Dialling(a, b, p, i); } else { Answering(a, b, p, i); }
  }

  lemma Dialling(a: Multiaddr, b: Multiaddr, p: PeerId, i: nat)
    requires a != b && 2 <= i < 4
    ensures Handle(MDNS_ONLY, Stage(a, b, p, i), TwoAddresses(a, b, p)[i]) == Some(Stage(a, b, p, i + 1))
  {
    Ticks(Stage(a, b, p, i), Orders([], [a, b], []));
    if i == 2 { FirstDialled(a, b, p); } else { SecondDialled(a, b, p); }
  }

  lemma Ticks(d: Status, orders: Orders)
    ensures Handle(MDNS_ONLY, d, Step(0, SearchTick(orders))) == Some(Search(MDNS_ONLY, d, NoConnection, orders, 0).1)
  {
  }

  lemma Answering(a: Multiaddr, b: Multiaddr, p: PeerId, i: nat)
    requires a != b && 4 <= i < 7
    ensures Handle(MDNS_ONLY, Stage(a, b, p, i), TwoAddresses(a, b, p)[i]) == Some(Stage(a, b, p, i + 1))
  {
    if i == 4 {
      AnswersAt(a, b, p, a, b);
    } else if i == 5 {
      AnswersAt(a, b, p, b, a);
    } else {
      ClosesAtSecond(a, b, p);
    }
  }

  lemma {:induction false} AllStages(a: Multiaddr, b: Multiaddr, p: PeerId, i: nat)
    requires a != b && i <= 7
    ensures At(Loop(MDNS_ONLY), New(NO_PEERS), TwoAddresses(a, b, p), i) == Some(Stage(a, b, p, i))
  {
    if i > 0 {
      AllStages(a, b, p, i - 1);
      NextStatus(TwoAddresses(a, b, p), i, Stage(a, b, p, i - 1));
      NextStage(a, b, p, i - 1);
    }
  }

  /** After that run the first address is still listed, under a peer that is gone: it counts
      as a connection of its type, and is not handed out again while it is listed. */
  lemma TwoAddressesLinger(a: Multiaddr, b: Multiaddr, p: PeerId)
    requires a != b
    ensures var d := At(Loop(MDNS_ONLY), New(NO_PEERS), TwoAddresses(a, b, p), 7);
            && d.Some? && !TwoWay(d.value.connected)
            && AddressesOf(d.value.connected, p) == {a} && p !in d.value.connected.peerToAddr
            && OfType(d.value.connected, MDns) == {a} && forall now :: !IsUnused(MDNS_ONLY, d.value, a, now)
  {
    AllStages(a, b, p, 7);
    var l := Stage(a, b, p, 7).connected;
    assert l == LeftOver(a, p) && l.addrToPeer[a].peerId == Some(p);
  }

  // ----- cooldown

  ghost predicate Chronological(steps: seq<Step>) {
    forall i, j :: 0 <= i < j < |steps| ==> steps[i].now <= steps[j].now
  }

  /** The failure of `a` at time `failedAt` is still on record, or its cooldown is over. */
  ghost predicate Remembered(config: P2PConfig, d: Status, a: Multiaddr, failedAt: nat, now: nat) {
    (a in d.cooldown && d.cooldown[a] >= failedAt) || now > failedAt + config.cooldownDuration
  }

  lemma {:induction false} SearchRemembers(config: P2PConfig, d: Status, skip: ConnectionType, orders: Orders, now: nat, a: Multiaddr, failedAt: nat)
    requires Remembered(config, d, a, failedAt, now)
    ensures Remembered(config, Search(config, d, skip, orders, now).1, a, failedAt, now)
    ensures Search(config, d, skip, orders, now).0 == Dialled(a) ==> now > failedAt + config.cooldownDuration
    decreases 3 - skip.Rank()
  {
    var t := CurrentMethod(config, d, skip);
    if t != NoConnection {
      NextPeerExactly(config, d, t, orders.Of(t), now);
      var (b, d') := NextPeer(config, d, t, orders.Of(t), now);
      if b.None? && t != Kademlia { SearchRemembers(config, d, t, orders, now, a, failedAt); }
    }
  }

  lemma HandleRemembers(config: P2PConfig, d: Status, step: Step, a: Multiaddr, failedAt: nat)
    requires Remembered(config, d, a, failedAt, step.now) && failedAt <= step.now
    ensures Handle(config, d, step).Some? ==> Remembered(config, Handle(config, d, step).value, a, failedAt, step.now)
  {
    match step.event
    case SearchTick(orders) => SearchRemembers(config, d, NoConnection, orders, step.now, a, failedAt);
    case _ =>
  }

  /** A handler that forgets no failure of `a` at `failedAt` before its cooldown ends, and
      records one when it is told of it. */
  ghost predicate KeepsFailures(config: P2PConfig, handle: Handler, a: Multiaddr, failedAt: nat) {
    && (forall d: Status, step: Step :: failedAt <= step.now && Remembered(config, d, a, failedAt, step.now) && handle(d, step).Some? ==>
          Remembered(config, handle(d, step).value, a, failedAt, step.now))
    && (forall d: Status, step: Step :: step == Step(failedAt, Failed(a)) && handle(d, step).Some? ==>
          Remembered(config, handle(d, step).value, a, failedAt, failedAt))
  }

  lemma LoopKeepsFailures(config: P2PConfig, a: Multiaddr, failedAt: nat)
    ensures KeepsFailures(config, Loop(config), a, failedAt)
  {
    forall d: Status, step: Step | failedAt <= step.now && Remembered(config, d, a, failedAt, step.now) && Loop(config)(d, step).Some?
      ensures Remembered(config, Loop(config)(d, step).value, a, failedAt, step.now)
    {
      HandleRemembers(config, d, step, a, failedAt);
    }
    forall d: Status, step: Step | step == Step(failedAt, Failed(a)) && Loop(config)(d, step).Some?
      ensures Remembered(config, Loop(config)(d, step).value, a, failedAt, failedAt)
    {
      FailureIsRecorded(config, d, a, failedAt);
    }
  }

  lemma FailureIsRecorded(config: P2PConfig, d: Status, a: Multiaddr, now: nat)
    ensures var d' := Handle(config, d, Step(now, Failed(a))); d'.Some? && Remembered(config, d'.value, a, now, now)
  {
  }

  lemma {:induction false} FailureRemembered(config: P2PConfig, handle: Handler, d: Status, steps: seq<Step>, j: nat, i: nat, a: Multiaddr)
    requires Chronological(steps) && j < i <= |steps| && steps[j].event == Failed(a) && KeepsFailures(config, handle, a, steps[j].now)
    ensures var d' := At(handle, d, steps, i); d'.Some? ==> Remembered(config, d'.value, a, steps[j].now, steps[i - 1].now)
    decreases i
  {
    if i - 1 > j { FailureRemembered(config, handle, d, steps, j, i - 1, a); }
  }

  /** Over every run an address that failed is never dialled before its cooldown ends. */
  lemma CooldownRespected(config: P2PConfig, d: Status, steps: seq<Step>, j: nat, i: nat, a: Multiaddr)
    requires Chronological(steps) && j < i < |steps| && steps[j].event == Failed(a) && steps[i].event.SearchTick?
    requires At(Loop(config), d, steps, i).Some?
    requires Search(config, At(Loop(config), d, steps, i).value, NoConnection, steps[i].event.orders, steps[i].now).0 == Dialled(a)
    ensures steps[i].now > steps[j].now + config.cooldownDuration
  {
    LoopKeepsFailures(config, a, steps[j].now);
    FailureRemembered(config, Loop(config), d, steps, j, i, a);
    SearchRemembers(config, At(Loop(config), d, steps, i).value, NoConnection, steps[i].event.orders, steps[i].now, a, steps[j].now);
  }
}
