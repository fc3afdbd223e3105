/** The bridge of the RSTP daemon: all registered ports, the Port Role Selection machine
    (userspace/rstp/fsm/prs.c), the one-second tick and the round-robin loop
    (userspace/rstp/rstpd.c:58-76, 227-250), as a state machine over events. */
module RstpBridge {
  import opened Vector
  import opened RstpPort

  datatype Prs = InitBridge | RoleSelection

  datatype Bridge = Bridge(
    id: BridgeId, times: Times, ports: seq<Port>, prs: Prs, prsExec: bool,
    rootPriority: Vec4, rootPortId: PortId)

  // ----- Role selection -----------------------------------------------------

  /** Adds `carry` to a little-endian number of |b| bytes, dropping what overflows. */
  function AddLittleEndian(b: Bytes, carry: nat): (r: Bytes)
    ensures |r| == |b|
  {
    if b == [] then []
    else [((b[0] as int + carry) % 256) as Byte] + AddLittleEndian(b[1..], (b[0] as int + carry) / 256)
  }

  /** What little-endian bytes stand for. */
  function LittleEndian(b: Bytes): nat {
    if b == [] then 0 else b[0] as nat + 256 * LittleEndian(b[1..])
  }

  function PowerOf256(n: nat): nat { if n == 0 then 1 else 256 * PowerOf256(n - 1) }

  /** The addition, modulo what the bytes can hold. */
  lemma {:induction false} AddLittleEndianAdds(b: Bytes, carry: nat) returns (lost: nat)
    ensures LittleEndian(AddLittleEndian(b, carry)) + PowerOf256(|b|) * lost == LittleEndian(b) + carry
    ensures LittleEndian(AddLittleEndian(b, carry)) < PowerOf256(|b|)
  {
    if b == [] {
      lost := carry;
    } else {
      var sum := b[0] as nat + carry;
      lost := AddLittleEndianAdds(b[1..], sum / 256);
      var r := AddLittleEndian(b[1..], sum / 256);
      assert AddLittleEndian(b, carry) == [(sum % 256) as Byte] + r;
      assert ([(sum % 256) as Byte] + r)[1..] == r;
      Scaled(PowerOf256(|b| - 1), lost);
    }
  }

  lemma AddLittleEndianIsSum(b: Bytes, carry: nat)
    ensures PowerOf256(|b|) > 0
    ensures LittleEndian(AddLittleEndian(b, carry)) == (LittleEndian(b) + carry) % PowerOf256(|b|)
  {
    var lost := AddLittleEndianAdds(b, carry);
    Remainder(PowerOf256(|b|), lost, LittleEndian(AddLittleEndian(b, carry)));
  }

  lemma Remainder(p: nat, q: nat, r: nat)
    requires r < p
    ensures (r + p * q) % p == r
  {
    var x := r + p * q;
    var d := x / p - q;
    assert x == p * (x / p) + x % p;
    assert p * (x / p) - p * q == p * d;
    assert d > 0 ==> p * d >= p;
    assert d < 0 ==> p * d + p <= 0;
    assert d == 0;
  }

  lemma Scaled(p: nat, x: nat)
    ensures 256 * p * x == 256 * (p * x)
  {
  }

  /** The path cost of the receiving port, as the code adds it: through an `unsigned long *`, which
      takes in the four cost bytes and the four that follow. */
  function RootPathPriority(v: Vec4): Vec4 {
    v[..8] + AddLittleEndian(v[8..16], 200000) + v[16..]
  }

  predicate IsForeign(p: Port, id: BridgeId) {
    p.info.infoIs.InfoReceived? && DesignatedBridge(p.info.portPriority) != id
  }

  /** The running minimum of updtRolesTree; `port` is -1 as long as no port has beaten the bridge. */
  datatype Best = Best(priority: Vec4, portId: PortId, port: int)

  predicate Beats(v: Vec4, portId: PortId, best: Best) {
    || Compare(v, best.priority) < 0
    || (Compare(v, best.priority) == 0 && Compare(portId, best.portId) < 0)
  }

  function OwnPriority(id: BridgeId): Vec4 { Vector4(id, [0, 0, 0, 0], id, [0, 0]) }

  /** The minimum over the first n ports, in list order. */
  function Scan(ports: seq<Port>, id: BridgeId, n: nat): (best: Best)
    requires n <= |ports|
    ensures -1 <= best.port < n
  {
    if n == 0 then Best(OwnPriority(id), [0, 0], -1)
    else
      var best, p := Scan(ports, id, n - 1), ports[n - 1];
      var v := RootPathPriority(p.info.portPriority);
      if IsForeign(p, id) && Beats(v, p.fixed.portId, best) then Best(v, p.fixed.portId, n - 1) else best
  }

  /** The last loop of updtRolesTree on one port. */
  function AssignRole(i: Information, s: Selection, isRoot: bool, id: BridgeId): Selection {
    match i.infoIs
    case InfoDisabled => s.(selectedRole := RoleDisabled)
    case InfoAged => s.(updtInfo := true, selectedRole := RoleDesignated)
    case InfoMine =>
      s.(selectedRole := RoleDesignated,
         updtInfo := s.updtInfo || s.designatedPriority != i.portPriority || s.designatedTimes != i.portTimes)
    case InfoReceived =>
      if isRoot then s.(selectedRole := RoleRoot, updtInfo := false)
      else if Compare(s.designatedPriority, i.portPriority) >= 0 then
        s.(selectedRole := if DesignatedBridge(i.portPriority) != id then RoleAlternate else RoleBackup,
           updtInfo := false)
      else s.(selectedRole := RoleDesignated, updtInfo := true)
  }

  /** What the bridge would send on a port. */
  function DesignatedPriority(best: Best, id: BridgeId, portId: PortId): Vec4 {
    best.priority[..12] + id + portId
  }

  /** The second loop of updtRolesTree on one port. */
  function Designated(p: Port, best: Best, id: BridgeId, times: Times): Port {
    p.(sel := p.sel.(designatedPriority := DesignatedPriority(best, id, p.fixed.portId), designatedTimes := times))
  }

  function Assigned(p: Port, isRoot: bool, id: BridgeId): Port {
    p.(sel := AssignRole(p.info, p.sel, isRoot, id))
  }

  function UpdtRoles(p: Port, i: nat, best: Best, id: BridgeId, times: Times): Port {
    Assigned(Designated(p, best, id, times), best.port == i, id)
  }

  function UpdtRolesTree(b: Bridge): (c: Bridge)
    ensures |c.ports| == |b.ports|
  {
    var best := Scan(b.ports, b.id, |b.ports|);
    b.(ports := seq(|b.ports|, i requires 0 <= i < |b.ports| => UpdtRoles(b.ports[i], i, best, b.id, b.times)),
       rootPriority := best.priority, rootPortId := best.portId)
  }

  function MapPorts(ports: seq<Port>, f: Port -> Port): (r: seq<Port>)
    ensures |r| == |ports|
    ensures forall i | 0 <= i < |ports| :: r[i] == f(ports[i])
  {
    seq(|ports|, i requires 0 <= i < |ports| => f(ports[i]))
  }

  function Select(p: Port): Port { p.(sel := p.sel.(selected := true)) }

  function DisableRole(p: Port): Port { p.(sel := p.sel.(selectedRole := RoleDisabled)) }

  function ClearReselect(p: Port): Port { p.(sel := p.sel.(reselect := false)) }

  predicate AnyReselect(ports: seq<Port>) {
    exists i | 0 <= i < |ports| :: ports[i].sel.reselect
  }

  function SetSelectedTree(ports: seq<Port>): seq<Port> {
    if AnyReselect(ports) then ports else MapPorts(ports, Select)
  }

  function PrsCall(b: Bridge): Bridge {
    match b.prs
    case InitBridge =>
      b.(ports := MapPorts(b.ports, DisableRole),
         prs := RoleSelection, prsExec := false)
    case RoleSelection =>
      var c := if b.prsExec then b else Reselected(b);
      c.(prsExec := !AnyReselect(c.ports))
  }

  /** The entry action of role selection. */
  function Reselected(b: Bridge): Bridge {
    var cleared := b.(ports := MapPorts(b.ports, ClearReselect));
    var updated := UpdtRolesTree(cleared);
    updated.(ports := SetSelectedTree(updated.ports))
  }

  // ----- Events -------------------------------------------------------------

  /** What the Receive, Migration and Topology Change machines and the receive thread may set. */
  datatype Surroundings = Surroundings(
    rcvdMsg: bool, sendRSTP: bool, newInfo: bool, tcAck: bool, rcvdTc: bool, rcvdTcAck: bool,
    rcvdTcn: bool, tcWhile: nat, mdelayWhile: nat, edgeDelayWhile: nat, buf: Bpdu)

  datatype Event =
    | Tick
    | PtxTurn(port: nat)
    | PimTurn(port: nat)
    | PrtTurn(port: nat)
    | PstTurn(port: nat)
    | PrsTurn
    | Surround(port: nat, env: Surroundings)
    | Register(portId: PortId)

  function SurroundPort(p: Port, e: Surroundings): Port {
    p.(tx := p.tx.(sendRSTP := e.sendRSTP, newInfo := e.newInfo, tcAck := e.tcAck, tcWhile := e.tcWhile),
       info := p.info.(rcvdMsg := e.rcvdMsg, rcvdTc := e.rcvdTc, rcvdTcAck := e.rcvdTcAck,
                       rcvdTcn := e.rcvdTcn, buf := e.buf),
       hs := p.hs.(mdelayWhile := e.mdelayWhile, edgeDelayWhile := e.edgeDelayWhile))
  }

  predicate Known(b: Bridge, e: Event) {
    match e
    case PtxTurn(i) => i < |b.ports|
    case PimTurn(i) => i < |b.ports|
    case PrtTurn(i) => i < |b.ports|
    case PstTurn(i) => i < |b.ports|
    case Surround(i, _) => i < |b.ports|
    case _ => true
  }

  /** Port j after port i has had its turn in the Port Role Transition machine. */
  function PrtTurnOn(b: Bridge, i: nat, j: nat): Port
    requires i < |b.ports| && j < |b.ports|
  {
    if j == i then PrtCall(b.ports[i]) else PrtTree(Preempted(b.ports[i]).rt.state, b.ports[j])
  }

  function Step(b: Bridge, e: Event): (c: Bridge)
    requires Known(b, e)
    ensures |c.ports| >= |b.ports|
  {
    match e
    case Tick => b.(ports := MapPorts(b.ports, TickPort))
    case PtxTurn(i) => b.(ports := b.ports[i := PtxCall(b.ports[i])])
    case PimTurn(i) => b.(ports := b.ports[i := PimCall(b.ports[i])])
    case PrtTurn(i) =>
      b.(ports := seq(|b.ports|, j requires 0 <= j < |b.ports| => PrtTurnOn(b, i, j)))
    case PstTurn(i) => b.(ports := b.ports[i := PstCall(b.ports[i])])
    case PrsTurn => PrsCall(b)
    case Surround(i, env) => b.(ports := b.ports[i := SurroundPort(b.ports[i], env)])
    case Register(portId) => b.(ports := b.ports + [FreshPort(portId, b.id)])
  }

  /** The bridge at start: no ports, role selection in its first state. */
  ghost predicate Initial(b: Bridge) {
    b.ports == [] && b.prs.InitBridge? && !b.prsExec
  }

  ghost predicate StepAt(bs: seq<Bridge>, es: seq<Event>, k: nat)
    requires |bs| == |es| + 1 && k < |es|
  {
    Known(bs[k], es[k]) && bs[k + 1] == Step(bs[k], es[k])
  }

  /** Any events in any order: ticks fall where they like, and so do the turns of the machines. */
  ghost predicate IsRun(bs: seq<Bridge>, es: seq<Event>) {
    && |bs| == |es| + 1
    && Initial(bs[0])
    && forall k | 0 <= k < |es| :: StepAt(bs, es, k)
  }

  /** Port i changes by at most one event: what the event does to it. */
  function StepOn(b: Bridge, e: Event, i: nat): Port
    requires Known(b, e) && i < |b.ports|
  {
    match e
    case Tick => TickPort(b.ports[i])
    case PtxTurn(j) => if i == j then PtxCall(b.ports[i]) else b.ports[i]
    case PimTurn(j) => if i == j then PimCall(b.ports[i]) else b.ports[i]
    case PrtTurn(j) => PrtTurnOn(b, j, i)
    case PstTurn(j) => if i == j then PstCall(b.ports[i]) else b.ports[i]
    case PrsTurn => PrsCall(b).ports[i]
    case Surround(j, env) => if i == j then SurroundPort(b.ports[i], env) else b.ports[i]
    case Register(_) => b.ports[i]
  }

  lemma StepIsLocal(b: Bridge, e: Event, i: nat)
    requires Known(b, e) && i < |b.ports|
    ensures Step(b, e).ports[i] == StepOn(b, e, i)
  {
  }

  /** One round of fsm_run: the turns of the first n ports, in list order ... */
  function PortTurns(b: Bridge, n: nat): (c: Bridge)
    requires n <= |b.ports|
    ensures |c.ports| == |b.ports|
  {
    if n == 0 then b
    else TurnsOf(PortTurns(b, n - 1), n - 1)
  }

  function TurnsOf(b: Bridge, i: nat): (c: Bridge)
    requires i < |b.ports|
    ensures |c.ports| == |b.ports|
  {
    Step(Step(Step(Step(b, PtxTurn(i)), PimTurn(i)), PrtTurn(i)), PstTurn(i))
  }

  /** ... and then role selection. */
  function Round(b: Bridge): Bridge { PrsCall(PortTurns(b, |b.ports|)) }

  // ----- What a turn of role selection leaves alone -------------------------

  lemma AssignRoleIsARole(i: Information, s: Selection, isRoot: bool, id: BridgeId)
    ensures !AssignRole(i, s, isRoot, id).selectedRole.RoleAlternateBackup?
    ensures AssignRole(i, s, isRoot, id).reselect == s.reselect
    ensures AssignRole(i, s, isRoot, id).selected == s.selected
  {
  }

  /** When roles are computed, every pending reselect is cleared and every port is selected. */
  lemma PrsSelects(b: Bridge, i: nat)
    requires i < |b.ports| && b.prs.RoleSelection? && !b.prsExec
    ensures |PrsCall(b).ports| == |b.ports| && PrsCall(b).prs.RoleSelection? && PrsCall(b).prsExec
    ensures var cleared := MapPorts(b.ports, ClearReselect);
            PrsCall(b).ports[i] ==
              Select(UpdtRoles(cleared[i], i, Scan(cleared, b.id, |cleared|), b.id, b.times))
  {
    var cleared := b.(ports := MapPorts(b.ports, ClearReselect));
    var updated := UpdtRolesTree(cleared);
    var best := Scan(cleared.ports, b.id, |cleared.ports|);
    forall j | 0 <= j < |updated.ports|
      ensures !updated.ports[j].sel.reselect
    {
      var p := Designated(cleared.ports[j], best, b.id, b.times);
      AssignRoleIsARole(p.info, p.sel, best.port == j, b.id);
    }
  }

  /** A turn of role selection changes nothing but what it selects. */
  lemma PrsOn(b: Bridge, i: nat)
    requires i < |b.ports|
    ensures |PrsCall(b).ports| == |b.ports|
    ensures PrsCall(b).ports[i] == b.ports[i].(sel := PrsCall(b).ports[i].sel)
    ensures !b.ports[i].sel.selectedRole.RoleAlternateBackup? ==>
              !PrsCall(b).ports[i].sel.selectedRole.RoleAlternateBackup?
  {
    if b.prs.RoleSelection? && !b.prsExec {
      PrsSelects(b, i);
      var cleared := MapPorts(b.ports, ClearReselect);
      var best := Scan(cleared, b.id, |cleared|);
      var p := Designated(cleared[i], best, b.id, b.times);
      AssignRoleIsARole(p.info, p.sel, best.port == i, b.id);
    }
  }
}
