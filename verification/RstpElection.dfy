/** What role selection computes for each port (userspace/rstp/fsm/prs.c:31-125): which port is the root
    port, what every port advertises, and the role that follows from comparing the two. */
module RstpElection {
  import opened Vector
  import opened RstpPort
  import opened RstpBridge
  import opened RstpRoles

  /** The cost of a path through a port is added to the eight octets from the cost on, and nothing
      else of what was received changes. */
  lemma PathCostIsAdded(v: Vec4)
    ensures RootPathPriority(v)[..8] == v[..8] && RootPathPriority(v)[16..] == v[16..]
    ensures PowerOf256(8) == 0x1_0000_0000_0000_0000
    ensures LittleEndian(RootPathPriority(v)[8..16]) == (LittleEndian(v[8..16]) + 200000) % PowerOf256(8)
  {
    AddLittleEndianIsSum(v[8..16], 200000);
    assert RootPathPriority(v)[8..16] == AddLittleEndian(v[8..16], 200000);
  }

  /** The root port: of all ports that hear from another bridge it has the smallest key, it beats the
      bridge's own claim, and where keys tie it comes first in the list. */
  ghost predicate IsFirstRoot(ports: seq<Port>, id: BridgeId, i: nat)
    requires i < |ports|
  {
    IsRoot(ports, id, i) && forall j | 0 <= j < i :: Later(ports, id, i, j)
  }

  ghost predicate Later(ports: seq<Port>, id: BridgeId, i: nat, j: nat)
    requires i < |ports| && j < |ports|
  {
    IsForeign(ports[j], id) ==> Compare(Key(ports[i]), Key(ports[j])) < 0
  }

  ghost predicate NoRoot(ports: seq<Port>, id: BridgeId) {
    forall i | 0 <= i < |ports| :: !IsRoot(ports, id, i)
  }

  /** The running minimum keeps the first of equals. */
  lemma {:induction false} ScanKeepsTheFirst(ports: seq<Port>, id: BridgeId, n: nat)
    requires n <= |ports| && Scan(ports, id, n).port >= 0
    ensures forall j | 0 <= j < Scan(ports, id, n).port :: Later(ports, id, Scan(ports, id, n).port, j)
  {
    hide Compare, RootPathPriority, OwnPriority;
    var before, best, p := Scan(ports, id, n - 1), Scan(ports, id, n), ports[n - 1];
    ScanIsBest(ports, id, n - 1);
    ScanIsBest(ports, id, n);
    BeatsIsLess(p, before);
    if best == before {
      ScanKeepsTheFirst(ports, id, n - 1);
    } else {
      forall j | 0 <= j < best.port
        ensures Later(ports, id, best.port, j)
      {
        if IsForeign(ports[j], id) {
          CompareIsTransitive(Key(p), BestKey(before), Key(ports[j]));
        }
      }
    }
  }

  lemma OnlyOneFirst(ports: seq<Port>, id: BridgeId, i: nat, j: nat)
    requires i < j < |ports| && IsFirstRoot(ports, id, j)
    ensures !IsRoot(ports, id, i)
  {
    assert Later(ports, id, j, i);
    CompareIsAntisymmetric(Key(ports[i]), Key(ports[j]));
  }

  lemma ScanFindsTheRoot(ports: seq<Port>, id: BridgeId, i: nat)
    requires i < |ports|
    ensures Scan(ports, id, |ports|).port == i <==> IsFirstRoot(ports, id, i)
  {
    var best := Scan(ports, id, |ports|);
    ScanIsBest(ports, id, |ports|);
    if best.port >= 0 {
      ScanKeepsTheFirst(ports, id, |ports|);
      assert IsFirstRoot(ports, id, best.port);
      if i < best.port {
        OnlyOneFirst(ports, id, i, best.port);
      } else if best.port < i && IsFirstRoot(ports, id, i) {
        OnlyOneFirst(ports, id, best.port, i);
      }
    } else if IsRoot(ports, id, i) {
      CompareIsTransitive(Key(ports[i]), OwnKey(id), Key(ports[i]));
      CompareIsAntisymmetric(BestKey(best), Key(ports[i]));
    }
  }

  // ----- What a port advertises ---------------------------------------------

  /** The first twelve octets are the root and the path cost of port r ... */
  ghost predicate NamesRootOf(v: Vec4, r: Port) { v[..12] == RootPathPriority(r.info.portPriority)[..12] }

  /** ... or the bridge itself at no cost; the rest is the bridge's own, and the port's. */
  ghost predicate NamesItself(v: Vec4, id: BridgeId) { v[..8] == id && v[8..12] == [0, 0, 0, 0] }

  ghost predicate Advertises(ports: seq<Port>, id: BridgeId, portId: PortId, v: Vec4) {
    && (forall r | 0 <= r < |ports| :: IsFirstRoot(ports, id, r) ==> NamesRootOf(v, ports[r]))
    && (NoRoot(ports, id) ==> NamesItself(v, id))
    && v[12..20] == id && v[20..22] == portId
  }

  /** The second loop of updtRolesTree, given the minimum that the first one has found. */
  lemma AdvertisedIsBest(b: Bridge, i: nat)
    requires i < |b.ports|
    ensures var best, s := Scan(b.ports, b.id, |b.ports|), UpdtRolesTree(b).ports[i].sel;
            && s.designatedPriority[..12] == best.priority[..12]
            && s.designatedPriority[12..20] == b.id && s.designatedPriority[20..22] == b.ports[i].fixed.portId
            && s.designatedTimes == b.times
  {
    hide Scan;
    var best, v := Scan(b.ports, b.id, |b.ports|), UpdtRolesTree(b).ports[i].sel.designatedPriority;
    assert v == best.priority[..12] + b.id + b.ports[i].fixed.portId;
  }

  lemma WhatIsAdvertised(b: Bridge, i: nat)
    requires i < |b.ports|
    ensures var s := UpdtRolesTree(b).ports[i].sel;
            Advertises(b.ports, b.id, b.ports[i].fixed.portId, s.designatedPriority) && s.designatedTimes == b.times
  {
    hide UpdtRolesTree, Scan;
    AdvertisedIsBest(b, i);
    BestIsNamed(b, UpdtRolesTree(b).ports[i].sel.designatedPriority);
  }

  lemma BestIsNamed(b: Bridge, v: Vec4)
    requires v[..12] == Scan(b.ports, b.id, |b.ports|).priority[..12]
    ensures forall r | 0 <= r < |b.ports| :: IsFirstRoot(b.ports, b.id, r) ==> NamesRootOf(v, b.ports[r])
    ensures NoRoot(b.ports, b.id) ==> NamesItself(v, b.id)
  {
    hide Scan, RootPathPriority;
    var best := Scan(b.ports, b.id, |b.ports|);
    ScanIsBest(b.ports, b.id, |b.ports|);
    forall r | 0 <= r < |b.ports|
      ensures IsFirstRoot(b.ports, b.id, r) ==> NamesRootOf(v, b.ports[r])
    {
      ScanFindsTheRoot(b.ports, b.id, r);
      if best.port == r {
        KeyIsPriority(b.ports[r], best);
      }
    }
    if NoRoot(b.ports, b.id) {
      if best.port >= 0 {
        ScanFindsTheRoot(b.ports, b.id, best.port);
      }
      OwnKeyIsPriority(b.id, best);
      assert v[..8] == v[..12][..8] && v[8..12] == v[..12][8..];
      assert best.priority[..8] == best.priority[..12][..8] && best.priority[8..12] == best.priority[..12][8..];
    }
  }

  lemma KeyIsPriority(p: Port, best: Best)
    requires Key(p) == BestKey(best)
    ensures best.priority == RootPathPriority(p.info.portPriority)
  {
    assert Key(p)[..22] == RootPathPriority(p.info.portPriority) && BestKey(best)[..22] == best.priority;
  }

  lemma OwnKeyIsPriority(id: BridgeId, best: Best)
    requires BestKey(best) == OwnKey(id)
    ensures best.priority[..8] == id && best.priority[8..12] == [0, 0, 0, 0]
  {
    assert OwnKey(id)[..22] == OwnPriority(id) && BestKey(best)[..22] == best.priority;
  }

  // ----- The role of a port -------------------------------------------------

  /** What is received on port p, that is not the root port, is no worse than what it would send. */
  predicate Yields(p: Port, v: Vec4) { Compare(v, p.info.portPriority) >= 0 }

  /** Each role, by the source of the port's information, the place of the port and the comparison of
      what it would send, `s.designatedPriority`, with what it holds; and when that must be sent. */
  ghost predicate HasRole(p: Port, isRoot: bool, id: BridgeId, s: Selection) {
    var received, gives := p.info.infoIs.InfoReceived?, Yields(p, s.designatedPriority);
    && (s.selectedRole.RoleRoot? <==> isRoot)
    && (s.selectedRole.RoleDisabled? <==> p.info.infoIs.InfoDisabled?)
    && (s.selectedRole.RoleAlternate? <==>
          received && !isRoot && gives && DesignatedBridge(p.info.portPriority) != id)
    && (s.selectedRole.RoleBackup? <==>
          received && !isRoot && gives && DesignatedBridge(p.info.portPriority) == id)
    && (s.selectedRole.RoleDesignated? <==>
          p.info.infoIs.InfoAged? || p.info.infoIs.InfoMine? || (received && !isRoot && !gives))
    && (s.updtInfo <==>
          || p.info.infoIs.InfoAged?
          || (received && !isRoot && !gives)
          || (p.info.infoIs.InfoDisabled? && p.sel.updtInfo)
          || (p.info.infoIs.InfoMine?
              && (p.sel.updtInfo || s.designatedPriority != p.info.portPriority
                  || s.designatedTimes != p.info.portTimes)))
  }

  lemma RoleFollows(b: Bridge, i: nat)
    requires i < |b.ports|
    ensures HasRole(b.ports[i], IsFirstRoot(b.ports, b.id, i), b.id, UpdtRolesTree(b).ports[i].sel)
  {
    ScanFindsTheRoot(b.ports, b.id, i);
  }

  /** All that role selection computes for port i. */
  ghost predicate Elected(b: Bridge, c: Bridge, i: nat)
    requires i < |b.ports| && i < |c.ports|
  {
    var p, s := b.ports[i], c.ports[i].sel;
    && c.ports[i] == p.(sel := s)
    && Advertises(b.ports, b.id, p.fixed.portId, s.designatedPriority) && s.designatedTimes == b.times
    && HasRole(p, IsFirstRoot(b.ports, b.id, i), b.id, s)
  }

  ghost predicate AllElected(b: Bridge, c: Bridge) {
    |c.ports| == |b.ports| && forall i | 0 <= i < |b.ports| :: Elected(b, c, i)
  }

  lemma RolesAreElected(b: Bridge)
    ensures AllElected(b, UpdtRolesTree(b))
  {
    forall i | 0 <= i < |b.ports|
      ensures Elected(b, UpdtRolesTree(b), i)
    {
      WhatIsAdvertised(b, i);
      RoleFollows(b, i);
    }
  }

  /** The choice depends on what ports hold and on their identifiers alone. */
  lemma RootIgnoresSelection(ps: seq<Port>, qs: seq<Port>, id: BridgeId, i: nat)
    requires |ps| == |qs| && i < |ps|
    requires forall j | 0 <= j < |ps| :: qs[j].info == ps[j].info && qs[j].fixed == ps[j].fixed
    ensures IsRoot(ps, id, i) <==> IsRoot(qs, id, i)
    ensures IsFirstRoot(ps, id, i) <==> IsFirstRoot(qs, id, i)
  {
    forall j | 0 <= j < |ps|
      ensures Key(ps[j]) == Key(qs[j]) && (IsForeign(ps[j], id) <==> IsForeign(qs[j], id))
      ensures Later(ps, id, i, j) <==> Later(qs, id, i, j)
    {
    }
  }

  lemma AdvertisesTheSame(ps: seq<Port>, qs: seq<Port>, id: BridgeId, portId: PortId, v: Vec4)
    requires |ps| == |qs| && Advertises(qs, id, portId, v)
    requires forall j | 0 <= j < |ps| :: qs[j].info == ps[j].info && qs[j].fixed == ps[j].fixed
    ensures Advertises(ps, id, portId, v)
  {
    forall r | 0 <= r < |ps|
      ensures IsFirstRoot(ps, id, r) ==> NamesRootOf(v, ps[r])
    {
      RootIgnoresSelection(ps, qs, id, r);
      assert NamesRootOf(v, qs[r]) <==> NamesRootOf(v, ps[r]);
    }
    if NoRoot(ps, id) {
      forall r | 0 <= r < |qs|
        ensures !IsRoot(qs, id, r)
      {
        RootIgnoresSelection(ps, qs, id, r);
        assert !IsRoot(ps, id, r);
      }
    }
  }

  /** So a turn of role selection that selects computes this. */
  lemma SelectionElects(b: Bridge)
    requires b.prs.RoleSelection? && !b.prsExec
    ensures AllElected(b, PrsCall(b))
  {
    var cleared := b.(ports := MapPorts(b.ports, ClearReselect));
    RolesAreElected(cleared);
    hide UpdtRolesTree, HasRole, Advertises;
    forall i | 0 <= i < |b.ports|
      ensures |PrsCall(b).ports| == |b.ports| && Elected(b, PrsCall(b), i)
    {
      assert Elected(cleared, UpdtRolesTree(cleared), i);
      SelectionIsUpdate(b, i);
      PrsOn(b, i);
      var s := PrsCall(b).ports[i].sel;
      AdvertisesTheSame(b.ports, cleared.ports, b.id, b.ports[i].fixed.portId, s.designatedPriority);
      RootIgnoresSelection(b.ports, cleared.ports, b.id, i);
      RoleOfCleared(b.ports[i], IsFirstRoot(b.ports, b.id, i), b.id, UpdtRolesTree(cleared).ports[i].sel);
    }
    assert |b.ports| == 0 ==> |PrsCall(b).ports| == 0;
  }

  lemma SelectionIsUpdate(b: Bridge, i: nat)
    requires i < |b.ports| && b.prs.RoleSelection? && !b.prsExec
    ensures |PrsCall(b).ports| == |b.ports|
    ensures var cleared := b.(ports := MapPorts(b.ports, ClearReselect));
            PrsCall(b).ports[i].sel == UpdtRolesTree(cleared).ports[i].sel.(selected := true)
  {
    PrsSelects(b, i);
  }

  lemma RoleOfCleared(p: Port, isRoot: bool, id: BridgeId, s: Selection)
    requires HasRole(ClearReselect(p), isRoot, id, s)
    ensures HasRole(p, isRoot, id, s.(selected := true))
  {
  }

  /** One in its first state leaves every port with the disabled role selected. */
  lemma InitDisables(b: Bridge, i: nat)
    requires b.prs.InitBridge? && i < |b.ports|
    ensures |PrsCall(b).ports| == |b.ports| && PrsCall(b).prs.RoleSelection? && !PrsCall(b).prsExec
    ensures PrsCall(b).ports[i] == b.ports[i].(sel := b.ports[i].sel.(selectedRole := RoleDisabled))
  {
  }

  /** A port that has just been registered holds the bridge's own claim as its own, and takes no part. */
  lemma FreshNamesItself(portId: PortId, id: BridgeId)
    ensures var p := FreshPort(portId, id);
            && NamesItself(p.info.portPriority, id) && p.info.portPriority[12..20] == id
            && p.info.portPriority[20..22] == portId && p.sel.designatedPriority == p.info.portPriority
            && p.info.infoIs.InfoDisabled? && !p.sel.selected && !p.sel.reselect && !p.sel.updtInfo
            && p.rt.role.RoleDisabled? && !p.rt.learn && !p.rt.forward && !p.st.learning && !p.st.forwarding
            && p.tx.state.TransmitInit? && p.info.state.PimDisabled? && p.rt.state.InitPort? && p.st.state.Discarding?
            && p.fixed.portId == portId
            && p.tx.helloWhen == p.tx.txCount == p.tx.tcWhile == p.info.rcvdInfoWhile == p.rt.fdWhile == p.rt.rrWhile
               == p.rt.rbWhile == p.hs.edgeDelayWhile == p.hs.mdelayWhile == 0
            && !p.hs.agree && !p.hs.agreed && !p.hs.proposed && !p.hs.proposing && !p.hs.disputed && !p.hs.sync
            && !p.hs.synced && !p.hs.reRoot && !p.tx.newInfo && !p.info.rcvdMsg
            && !p.tx.exec && !p.info.exec && !p.rt.exec && !p.st.exec
  {
    var v := id + [0, 0, 0, 0] + id + portId;
    assert FreshPort(portId, id).info.portPriority == v;
    assert v[..8] == id && v[8..12] == [0, 0, 0, 0] && v[12..20] == id && v[20..22] == portId;
  }
}
