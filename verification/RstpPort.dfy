/** The per-port state of the RSTP daemon (userspace/include/rstp_client.h:102-221) and the four
    per-port machines (userspace/rstp/fsm/ptx.c, pim.c, prt.c, pst.c) as functions on it: one call
    of a machine is one call of its current state function. `RstpMachine` has the same machines
    as methods that assign fields. */
module RstpPort {
  import opened Vector

  datatype Role = RoleDisabled | RoleAlternateBackup | RoleRoot | RoleDesignated | RoleAlternate | RoleBackup

  datatype Info = InfoDisabled | InfoReceived | InfoMine | InfoAged

  datatype Ptx = TransmitInit | Idle | TransmitPeriodic | TransmitConfig | TransmitTcn | TransmitRstp

  datatype Pim =
    | PimDisabled | PimAged | PimUpdate | PimCurrent | PimReceive
    | SuperiorDesignated | RepeatedDesignated | InferiorDesignated | NotDesignated | PimOther

  datatype Prt =
    | InitPort | DisablePort | DisabledPort
    | RootPort | RootProposed | RootAgreed | ReRoot | RootForward | RootLearn | ReRooted
    | DesignatedPort | DesignatedPropose | DesignatedSynced | DesignatedRetired
    | DesignatedForward | DesignatedLearn | DesignatedDiscard
    | AlternatePort | AlternateProposed | AlternateAgreed | BlockPort | BackupPort

  datatype Pst = Discarding | Learning | Forwarding

  datatype BpduType = BpduTcn | BpduConfig | BpduRstp | BpduOther

  /** The flags octet of a BPDU; `role` is its two role bits. */
  datatype Flags = Flags(
    topologyChange: bool, proposal: bool, role: Role, learn: bool, agreement: bool, topologyChangeAck: bool)

  datatype Bpdu = Bpdu(bpduType: BpduType, flags: Flags, priority: Vec4, times: Times)

  // A port's variables, by the machine they mostly belong to.

  /** Port Transmit. */
  datatype Tx = Tx(
    state: Ptx, exec: bool, helloWhen: nat, txCount: nat, newInfo: bool,
    sendRSTP: bool, tcWhile: nat, tcAck: bool)

  /** Port Information. */
  datatype Information = Information(
    state: Pim, exec: bool, infoIs: Info, rcvdInfoWhile: nat, rcvdMsg: bool,
    rcvdTc: bool, rcvdTcAck: bool, rcvdTcn: bool, buf: Bpdu,
    portPriority: Vec4, portTimes: Times, msgPriority: Vec4, msgTimes: Times)

  /** Port Role Selection. */
  datatype Selection = Selection(
    selectedRole: Role, reselect: bool, selected: bool, updtInfo: bool,
    designatedPriority: Vec4, designatedTimes: Times)

  /** The agreement handshake that the machines have in common. */
  datatype Handshake = Handshake(
    agree: bool, agreed: bool, proposed: bool, proposing: bool, disputed: bool,
    sync: bool, synced: bool, reRoot: bool, edgeDelayWhile: nat, mdelayWhile: nat)

  /** Port Role Transitions. */
  datatype Transitions = Transitions(
    state: Prt, exec: bool, role: Role, learn: bool, forward: bool,
    fdWhile: nat, rrWhile: nat, rbWhile: nat)

  /** Port State Transition. */
  datatype StateOf = StateOf(state: Pst, exec: bool, learning: bool, forwarding: bool)

  /** Variables that are read but that no code assigns after a port is set up. */
  datatype Constants = Constants(portId: PortId, allSynced: bool, reRooted: bool, operEdge: bool)

  datatype Port = Port(
    tx: Tx, info: Information, sel: Selection, hs: Handshake, rt: Transitions, st: StateOf,
    fixed: Constants)

  const NoTimes: Times := Times(0, 0, 0, 0)
  const NoBpdu: Bpdu :=
    Bpdu(BpduConfig, Flags(false, false, RoleDisabled, false, false, false), seq(22, _ => 0), NoTimes)

  /** A port as rstpd_register_interface leaves it, with memory that malloc did not set read as 0. */
  function FreshPort(portId: PortId, bridge: BridgeId): Port {
    var own := Vector4(bridge, [0, 0, 0, 0], bridge, portId);
    Port(Tx(TransmitInit, false, 0, 0, false, false, 0, false),
         Information(PimDisabled, false, InfoDisabled, 0, false, false, false, false, NoBpdu,
                     own, NoTimes, seq(22, _ => 0), NoTimes),
         Selection(RoleDisabled, false, false, false, own, NoTimes),
         Handshake(false, false, false, false, false, false, false, false, 0, 0),
         Transitions(InitPort, false, RoleDisabled, false, false, 0, 0, 0),
         StateOf(Discarding, false, false, false),
         Constants(portId, false, false, false))
  }

  // ----- Timers (pti_loop) --------------------------------------------------

  function Dec(x: nat): nat { if x > 0 then x - 1 else 0 }

  function TickPort(p: Port): Port {
    p.(tx := p.tx.(helloWhen := Dec(p.tx.helloWhen), tcWhile := Dec(p.tx.tcWhile),
                   txCount := Dec(p.tx.txCount)),
       info := p.info.(rcvdInfoWhile := Dec(p.info.rcvdInfoWhile)),
       hs := p.hs.(edgeDelayWhile := Dec(p.hs.edgeDelayWhile), mdelayWhile := Dec(p.hs.mdelayWhile)),
       rt := p.rt.(fdWhile := Dec(p.rt.fdWhile), rrWhile := Dec(p.rt.rrWhile), rbWhile := Dec(p.rt.rbWhile)))
  }

  /** What every decision of the transmit and role machines waits for. */
  predicate Settled(p: Port) { p.sel.selected && !p.sel.updtInfo }

  // ----- Port Transmit (17.26 of IEEE 802.1D-2004) --------------------------

  predicate Sends(p: Port) {
    p.tx.state.TransmitConfig? || p.tx.state.TransmitTcn? || p.tx.state.TransmitRstp?
  }

  /** The transmit machine changes nothing but its own part. */
  function PtxCall(p: Port): Port { p.(tx := PtxNext(p)) }

  function PtxNext(p: Port): Tx {
    var t := p.tx;
    match t.state
    case TransmitInit => t.(newInfo := true, txCount := 0, state := Idle, exec := false)
    case Idle =>
      var hello := if t.exec then t.helloWhen else 2;
      var cond := t.newInfo && t.txCount < 6 && hello != 0 && Settled(p);
      var u := t.(helloWhen := hello, exec := false);
      if t.sendRSTP && cond then u.(state := TransmitRstp)
      else if !t.sendRSTP && p.rt.role.RoleRoot? && cond then u.(state := TransmitTcn)
      else if !t.sendRSTP && p.rt.role.RoleDesignated? && cond then u.(state := TransmitConfig)
      else if hello == 0 then u.(state := TransmitPeriodic)
      else u.(exec := true)
    case TransmitPeriodic =>
      t.(newInfo := t.newInfo || p.rt.role.RoleDesignated? || (p.rt.role.RoleRoot? && t.tcWhile != 0),
         state := Idle, exec := false)
    case TransmitConfig =>
      t.(newInfo := false, txCount := t.txCount + 1, tcAck := false, state := Idle, exec := false)
    case TransmitTcn => t.(newInfo := false, txCount := t.txCount + 1, state := Idle, exec := false)
    case TransmitRstp =>
      t.(newInfo := false, txCount := t.txCount + 1, tcAck := false, state := Idle, exec := false)
  }

  // ----- Port Information (17.27) -------------------------------------------

  predicate BetterOrSameInfo(p: Port, newInfoIs: Info) {
    || (newInfoIs.InfoReceived? && p.info.infoIs.InfoReceived?
        && Compare(p.info.msgPriority, p.info.portPriority) <= 0)
    || (newInfoIs.InfoMine? && p.info.infoIs.InfoMine?
        && Compare(p.sel.designatedPriority, p.info.portPriority) <= 0)
  }

  /** rcvInfo first copies the message out of the buffer; a configuration BPDU gets the
      designated role. */
  function ReadMessage(i: Information): Information {
    if i.buf.bpduType.BpduTcn? then i.(rcvdTcn := true)
    else
      var buf := if i.buf.bpduType.BpduConfig? then i.buf.(flags := i.buf.flags.(role := RoleDesignated))
                 else i.buf;
      i.(buf := buf, msgPriority := buf.priority, msgTimes := buf.times)
  }

  /** ... and then classifies it against what the port holds. */
  function Classify(i: Information): Pim {
    var c := Compare(i.msgPriority, i.portPriority);
    var role := i.buf.flags.role;
    if i.buf.bpduType.BpduTcn? then PimOther
    else if role.RoleDesignated? then
      if c < 0 then SuperiorDesignated
      else if c == 0 then if i.msgTimes != i.portTimes then SuperiorDesignated else RepeatedDesignated
      else InferiorDesignated
    else if (role.RoleRoot? || role.RoleAlternateBackup?) && c >= 0 then NotDesignated
    else PimOther
  }

  predicate CarriesProposal(i: Information) {
    i.buf.flags.role.RoleDesignated? && i.buf.flags.proposal
  }

  function SetTcFlags(i: Information): Information {
    if i.buf.bpduType.BpduTcn? then i.(rcvdTcn := true)
    else i.(rcvdTc := i.rcvdTc || i.buf.flags.topologyChange,
            rcvdTcAck := i.rcvdTcAck || i.buf.flags.topologyChangeAck)
  }

  function UpdtRcvdInfoWhile(i: Information): Information {
    i.(rcvdInfoWhile :=
         if i.portTimes.messageAge + 1 <= i.portTimes.maxAge then 3 * i.portTimes.helloTime else 0)
  }

  function EnterPim(i: Information, state: Pim): Information { i.(state := state, exec := false) }

  /** The states that end the processing of a message. */
  function Processed(i: Information): Information { EnterPim(i.(rcvdMsg := false), PimCurrent) }

  function OnDisabled(p: Port): Port {
    p.(info := EnterPim(p.info.(rcvdMsg := false, rcvdInfoWhile := 0, infoIs := InfoDisabled), PimAged),
       hs := p.hs.(proposing := false, proposed := false, agree := false, agreed := false),
       sel := p.sel.(reselect := true, selected := false))
  }

  function OnAged(p: Port): Port {
    var sel := if p.info.exec then p.sel else p.sel.(reselect := true, selected := false);
    var i := if p.info.exec then p.info else p.info.(infoIs := InfoAged);
    p.(sel := sel, info := if sel.selected && sel.updtInfo then EnterPim(i, PimUpdate) else i.(exec := true))
  }

  function OnUpdate(p: Port): Port {
    if p.info.exec then p.(info := EnterPim(p.info, PimCurrent))
    else
      var agreed := p.hs.agreed && BetterOrSameInfo(p, InfoMine);
      p.(hs := p.hs.(proposing := false, proposed := false, agreed := agreed, synced := p.hs.synced && agreed),
         info := EnterPim(p.info.(portPriority := p.sel.designatedPriority, portTimes := p.sel.designatedTimes,
                                  infoIs := InfoMine), PimCurrent),
         sel := p.sel.(updtInfo := false),
         tx := p.tx.(newInfo := true))
  }

  function OnCurrent(p: Port): Port {
    var i := p.info;
    if p.sel.selected && p.sel.updtInfo then p.(info := EnterPim(i, PimUpdate))
    else if i.infoIs.InfoReceived? && i.rcvdInfoWhile == 0 && !p.sel.updtInfo && !i.rcvdMsg then
      p.(info := EnterPim(i, PimAged))
    else if i.rcvdMsg && !p.sel.updtInfo then p.(info := EnterPim(i, PimReceive))
    else p
  }

  function OnReceive(p: Port): Port {
    p.(info := EnterPim(ReadMessage(p.info), Classify(ReadMessage(p.info))))
  }

  function OnSuperior(p: Port): Port {
    var i := SetTcFlags(p.info).(portPriority := p.info.msgPriority, portTimes := p.info.msgTimes);
    p.(hs := p.hs.(agreed := false, proposing := false,
                   proposed := p.hs.proposed || CarriesProposal(p.info),
                   agree := p.hs.agree && BetterOrSameInfo(p, InfoReceived)),
       info := Processed(UpdtRcvdInfoWhile(i).(infoIs := InfoReceived)),
       sel := p.sel.(reselect := true, selected := false))
  }

  function OnRepeated(p: Port): Port {
    p.(hs := p.hs.(proposed := p.hs.proposed || CarriesProposal(p.info)),
       info := Processed(UpdtRcvdInfoWhile(SetTcFlags(p.info))))
  }

  function OnInferior(p: Port): Port {
    var disputed := p.info.buf.bpduType.BpduRstp? && p.info.buf.flags.learn;
    p.(hs := if disputed then p.hs.(disputed := true, agreed := false) else p.hs, info := Processed(p.info))
  }

  function OnNotDesignated(p: Port): Port {
    p.(hs := if p.info.buf.flags.agreement then p.hs.(agreed := true, proposing := false)
             else p.hs.(agreed := false),
       info := Processed(SetTcFlags(p.info)))
  }

  function PimCall(p: Port): Port {
    match p.info.state
    case PimDisabled => OnDisabled(p)
    case PimAged => OnAged(p)
    case PimUpdate => OnUpdate(p)
    case PimCurrent => OnCurrent(p)
    case PimReceive => OnReceive(p)
    case SuperiorDesignated => OnSuperior(p)
    case RepeatedDesignated => OnRepeated(p)
    case InferiorDesignated => OnInferior(p)
    case NotDesignated => OnNotDesignated(p)
    case PimOther => p.(info := Processed(p.info))
  }

  // ----- Port Role Transitions (17.29) --------------------------------------

  function Enter(t: Transitions, state: Prt): Transitions { t.(state := state, exec := false) }

  /** checkGlobalConditions: a new selected role pre-empts the machine. */
  function CheckGlobal(t: Transitions, selectedRole: Role): Transitions {
    if t.role == selectedRole then t
    else
      match selectedRole
      case RoleDisabled => Enter(t, DisablePort)
      case RoleRoot => Enter(t, RootPort)
      case RoleDesignated => Enter(t, DesignatedPort)
      case RoleAlternate => Enter(t, BlockPort)
      case RoleBackup => Enter(t, BlockPort)
      case RoleAlternateBackup => t
  }

  /** A state whose guard chooses the next one: that state, or stay and mark the entry action done
      or to be done again. */
  datatype Decision = Go(state: Prt) | Stay(exec: bool)

  function Follow(t: Transitions, d: Decision): Transitions {
    match d
    case Go(state) => Enter(t, state)
    case Stay(exec) => t.(exec := exec)
  }

  function RootDecision(p: Port): Decision {
    var t, h, c := p.rt, p.hs, p.fixed;
    var mayMove := t.fdWhile == 0 || (c.reRooted && t.rbWhile == 0);
    if !Settled(p) then Stay(true)
    else if h.proposed && !h.agree then Go(RootProposed)
    else if (c.allSynced && !h.agree) || (h.proposed && h.agree) then Go(RootAgreed)
    else if !t.forward && !h.reRoot then Go(ReRoot)
    else if mayMove && t.learn && !t.forward then Go(RootForward)
    else if mayMove && !t.learn then Go(RootLearn)
    else if h.reRoot && t.forward then Go(ReRooted)
    else Stay(t.rrWhile == 15)
  }

  function DesignatedDecision(p: Port): Decision {
    var t, h, c, s := p.rt, p.hs, p.fixed, p.st;
    var mayMove := (t.fdWhile == 0 || h.agreed || c.operEdge) && (t.rrWhile == 0 || !h.reRoot) && !h.sync;
    if !Settled(p) then Stay(true)
    else if !t.forward && !h.agreed && !h.proposing && !c.operEdge then Go(DesignatedPropose)
    else if (!s.learning && !s.forwarding && !h.synced) || (h.agreed && !h.synced)
            || (c.operEdge && !h.synced) || (h.sync && h.synced) then Go(DesignatedSynced)
    else if t.rrWhile == 0 && h.reRoot then Go(DesignatedRetired)
    else if mayMove && t.learn && !t.forward then Go(DesignatedForward)
    else if mayMove && !t.learn then Go(DesignatedLearn)
    else if ((h.sync && !h.synced) || (h.reRoot && t.rrWhile != 0) || h.disputed)
            && !c.operEdge && (t.learn || t.forward) then Go(DesignatedDiscard)
    else Stay(true)
  }

  function AlternateDecision(p: Port): Decision {
    var t, h, c := p.rt, p.hs, p.fixed;
    if !Settled(p) then Stay(true)
    else if h.proposed && !h.agree then Go(AlternateProposed)
    else if (c.allSynced && !h.agree) || (h.proposed && h.agree) then Go(AlternateAgreed)
    else if t.rbWhile != 4 && t.role.RoleAlternateBackup? then Go(BackupPort)
    else Stay(true)
  }

  /** disable_port and block_port wait for the port state machine to have stopped too. */
  function StopDecision(p: Port, next: Prt): Decision {
    if !p.st.learning && !p.st.forwarding && Settled(p) then Go(next) else Stay(true)
  }

  /** The action of a state when it runs for the first time after being entered. */
  function Entry(p: Port): Port {
    var t, h := p.rt, p.hs;
    match t.state
    case DisablePort => p.(rt := t.(role := p.sel.selectedRole, learn := false, forward := false))
    case BlockPort => p.(rt := t.(role := p.sel.selectedRole, learn := false, forward := false))
    case DisabledPort =>
      p.(rt := t.(fdWhile := 20, rrWhile := 0), hs := h.(synced := true, sync := false, reRoot := false))
    case RootPort => p.(rt := t.(role := RoleRoot, rrWhile := 15))
    case DesignatedPort => p.(rt := t.(role := RoleDesignated))
    case AlternatePort =>
      p.(rt := t.(fdWhile := 15, rrWhile := 0), hs := h.(synced := true, sync := false, reRoot := false))
    case _ => p
  }

  /** One call of the current state function: its effect on the port itself. */
  function PrtOwn(p: Port): Port {
    var t, h := p.rt, p.hs;
    var q := if t.exec then p else Entry(p);
    match t.state
    // states that wait
    case DisablePort => q.(rt := Follow(q.rt, StopDecision(q, DisabledPort)))
    case BlockPort => q.(rt := Follow(q.rt, StopDecision(q, AlternatePort)))
    case DisabledPort =>
      q.(rt := q.rt.(exec := !(Settled(q) && (q.rt.fdWhile != 20 || q.hs.sync || q.hs.reRoot || !q.hs.synced))))
    case RootPort => q.(rt := Follow(q.rt, RootDecision(q)))
    case DesignatedPort => q.(rt := Follow(q.rt, DesignatedDecision(q)))
    case AlternatePort => q.(rt := Follow(q.rt, AlternateDecision(q)))
    // states that act once
    case InitPort =>
      p.(rt := Enter(t.(role := RoleDisabled, learn := false, forward := false,
                        rrWhile := 15, fdWhile := 20, rbWhile := 0), DisablePort),
         hs := h.(synced := false, sync := true, reRoot := true))
    case RootProposed => p.(rt := Enter(t, RootPort), hs := h.(proposed := false))
    case RootAgreed =>
      p.(rt := Enter(t, RootPort), hs := h.(proposed := false, sync := false, agree := true),
         tx := p.tx.(newInfo := true))
    case ReRoot => p.(rt := Enter(t, RootPort))
    case RootForward => p.(rt := Enter(t.(fdWhile := 0, forward := true), RootPort))
    case RootLearn => p.(rt := Enter(t.(fdWhile := 15, learn := true), RootPort))
    case ReRooted => p.(rt := Enter(t, RootPort), hs := h.(reRoot := false))
    case DesignatedPropose =>
      p.(rt := Enter(t, DesignatedPort), hs := h.(proposing := true, edgeDelayWhile := 10),
         tx := p.tx.(newInfo := true))
    case DesignatedSynced =>
      p.(rt := Enter(t.(rrWhile := 0), DesignatedPort), hs := h.(synced := true, sync := false))
    case DesignatedRetired => p.(rt := Enter(t, DesignatedPort), hs := h.(reRoot := false))
    case DesignatedForward =>
      p.(rt := Enter(t.(forward := true, fdWhile := 0), DesignatedPort), hs := h.(agreed := p.tx.sendRSTP))
    case DesignatedLearn => p.(rt := Enter(t.(learn := true, fdWhile := 15), DesignatedPort))
    case DesignatedDiscard =>
      p.(rt := Enter(t.(learn := false, forward := false, fdWhile := 15), DesignatedPort),
         hs := h.(disputed := false))
    case AlternateProposed => p.(rt := Enter(t, AlternatePort), hs := h.(proposed := false))
    case AlternateAgreed =>
      p.(rt := Enter(t, AlternatePort), hs := h.(proposed := false, agree := true),
         tx := p.tx.(newInfo := true))
    case BackupPort => p.(rt := Enter(t.(rbWhile := 4), AlternatePort))
  }

  /** setSyncTree and setReRootTree: what the same call does to every port first. */
  function PrtTree(state: Prt, q: Port): Port {
    if state.RootProposed? || state.AlternateProposed? then q.(hs := q.hs.(sync := true))
    else if state.ReRoot? then q.(hs := q.hs.(reRoot := true))
    else q
  }

  function Preempted(p: Port): Port { p.(rt := CheckGlobal(p.rt, p.sel.selectedRole)) }

  /** One turn of the machine on its own port. */
  function PrtCall(p: Port): Port {
    var q := Preempted(p);
    PrtOwn(PrtTree(q.rt.state, q))
  }

  // ----- Port State Transition (17.30) --------------------------------------

  function PstCall(p: Port): Port { p.(st := PstNext(p.st, p.rt.learn, p.rt.forward)) }

  function PstNext(s: StateOf, learn: bool, forward: bool): StateOf {
    match s.state
    case Discarding =>
      var u := if s.exec then s else s.(learning := false, forwarding := false);
      if learn then u.(state := Learning, exec := false) else u.(exec := true)
    case Learning =>
      var u := if s.exec then s else s.(learning := true);
      if forward then u.(state := Forwarding, exec := false)
      else if !learn then u.(state := Discarding, exec := false)
      else u.(exec := true)
    case Forwarding =>
      var u := if s.exec then s else s.(forwarding := true);
      if !forward then u.(state := Discarding, exec := false) else u.(exec := true)
  }
}
