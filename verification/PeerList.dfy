/** p2p/src/libp2p/peer_list.rs: peers by address and addresses by peer. */
module PeerLists {
  import opened Collections

  datatype Multiaddr = Multiaddr(text: string)
  datatype PeerId = PeerId(text: string)

  datatype ConnectionType = NoConnection | Manual | MDns | Chain | Kademlia {
    /** The source's discriminant; it orders the types. */
    function Rank(): int {
      match this
      case NoConnection => -1
      case Manual => 0
      case MDns => 1
      case Chain => 2
      case Kademlia => 3
    }
  }

  datatype PeerInfo = PeerInfo(peerId: Option<PeerId>, connType: ConnectionType)

  datatype Peers = Peers(addrToPeer: map<Multiaddr, PeerInfo>, peerToAddr: map<PeerId, Multiaddr>)

  function AddPeer(l: Peers, a: Multiaddr, p: Option<PeerId>, t: ConnectionType): Peers {
    Peers(l.addrToPeer[a := PeerInfo(p, t)], if p.Some? then l.peerToAddr[p.value := a] else l.peerToAddr)
  }

  /** `set_peer_id` panics on an unknown address. */
  function SetPeerId(l: Peers, a: Multiaddr, p: PeerId): Option<Peers> {
    if a !in l.addrToPeer then None
    else Some(Peers(l.addrToPeer[a := l.addrToPeer[a].(peerId := Some(p))], l.peerToAddr[p := a]))
  }

  function RemoveByAddr(l: Peers, a: Multiaddr): Peers {
    Peers(l.addrToPeer - {a},
          if a in l.addrToPeer && l.addrToPeer[a].peerId.Some? then l.peerToAddr - {l.addrToPeer[a].peerId.value} else l.peerToAddr)
  }

  function RemoveById(l: Peers, p: PeerId): Peers {
    Peers(if p in l.peerToAddr then l.addrToPeer - {l.peerToAddr[p]} else l.addrToPeer, l.peerToAddr - {p})
  }

  class PeerList {
    var addrToPeer: map<Multiaddr, PeerInfo>
    var peerToAddr: map<PeerId, Multiaddr>

    function View(): Peers
      reads this
    {
      Peers(addrToPeer, peerToAddr)
    }

    constructor ()
      ensures View() == Peers(map[], map[])
    {
      addrToPeer, peerToAddr := map[], map[];
    }

    method Add(a: Multiaddr, p: Option<PeerId>, t: ConnectionType)
      modifies this
      ensures View() == AddPeer(old(View()), a, p, t)
    {
      addrToPeer := addrToPeer[a := PeerInfo(p, t)];
      if p.Some? { peerToAddr := peerToAddr[p.value := a]; }
    }

    method Set(a: Multiaddr, p: PeerId) returns (ok: bool)
      modifies this
      ensures var l := SetPeerId(old(View()), a, p);
              ok == l.Some? && View() == if l.Some? then l.value else old(View())
    {
      if a !in addrToPeer { return false; }
      var info := addrToPeer[a].(peerId := Some(p));
      addrToPeer := addrToPeer[a := info];
      peerToAddr := peerToAddr[p := a];
      return true;
    }

    method RemovePeerByAddr(a: Multiaddr)
      modifies this
      ensures View() == RemoveByAddr(old(View()), a)
    {
      if a in addrToPeer && addrToPeer[a].peerId.Some? { peerToAddr := peerToAddr - {addrToPeer[a].peerId.value}; }
      addrToPeer := addrToPeer - {a};
    }

    method RemovePeerById(p: PeerId)
      modifies this
      ensures View() == RemoveById(old(View()), p)
    {
      if p in peerToAddr { addrToPeer := addrToPeer - {peerToAddr[p]}; }
      peerToAddr := peerToAddr - {p};
    }
  }

  // ----- the two maps as one relation

  /** The two maps are inverse to each other. */
  ghost predicate TwoWay(l: Peers) {
    && (forall p :: p in l.peerToAddr ==> l.peerToAddr[p] in l.addrToPeer && l.addrToPeer[l.peerToAddr[p]].peerId == Some(p))
    && (forall a :: a in l.addrToPeer && l.addrToPeer[a].peerId.Some? ==>
          l.addrToPeer[a].peerId.value in l.peerToAddr && l.peerToAddr[l.addrToPeer[a].peerId.value] == a)
  }

  /** The address is not held by another peer, nor the peer at another address. */
  ghost predicate Compatible(l: Peers, a: Multiaddr, p: Option<PeerId>) {
    && (a in l.addrToPeer && l.addrToPeer[a].peerId.Some? ==> l.addrToPeer[a].peerId == p)
    && (p.Some? && p.value in l.peerToAddr ==> l.peerToAddr[p.value] == a)
  }

  /** Adding keeps the maps inverse exactly when the new pair is compatible with them: the
      source forgets neither the peer's old address nor the address's old peer. */
  lemma AddKeepsTwoWayExactly(l: Peers, a: Multiaddr, p: Option<PeerId>, t: ConnectionType)
    requires TwoWay(l)
    ensures TwoWay(AddPeer(l, a, p, t)) <==> Compatible(l, a, p)
  {
    var l' := AddPeer(l, a, p, t);
    if !Compatible(l, a, p) {
      if p.Some? && p.value in l.peerToAddr && l.peerToAddr[p.value] != a {
        var b := l.peerToAddr[p.value];
        assert l'.addrToPeer[b].peerId == p && l'.peerToAddr[p.value] == a;
      } else {
        var q := l.addrToPeer[a].peerId.value;
        assert l'.peerToAddr[q] == a && l'.addrToPeer[a].peerId != Some(q);
      }
    }
  }

  lemma SetKeepsTwoWayExactly(l: Peers, a: Multiaddr, p: PeerId)
    requires TwoWay(l) && a in l.addrToPeer
    ensures TwoWay(SetPeerId(l, a, p).value) <==> Compatible(l, a, Some(p))
  {
    AddKeepsTwoWayExactly(l, a, Some(p), l.addrToPeer[a].connType);
    assert SetPeerId(l, a, p).value == AddPeer(l, a, Some(p), l.addrToPeer[a].connType);
  }

  /** Removing by either side keeps the maps inverse and removes both sides. */
  lemma RemovalKeepsTwoWay(l: Peers, a: Multiaddr, p: PeerId)
    requires TwoWay(l)
    ensures TwoWay(RemoveByAddr(l, a)) && TwoWay(RemoveById(l, p))
    ensures p in l.peerToAddr ==> RemoveById(l, p) == RemoveByAddr(l, l.peerToAddr[p])
  {
  }
}
