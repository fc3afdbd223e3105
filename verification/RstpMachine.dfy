/** The RSTP machines as the daemon runs them: methods that assign the variables of a port
    (userspace/rstp/fsm/ptx.c, pim.c, prt.c, pst.c), each proved to be one call of the machine that
    `RstpPort` defines, and to write nothing but the groups of variables it names. */
module RstpMachine {
  import opened Vector
  import opened RstpPort
  import opened RstpActions

  /** struct rstp_interface, its variables grouped as in `RstpPort`. */
  class RstpInterface {
    var tx: Tx
    var info: Information
    var sel: Selection
    var hs: Handshake
    var rt: Transitions
    var st: StateOf
    const fixed: Constants

    ghost function View(): Port
      reads this
    {
      Port(tx, info, sel, hs, rt, st, fixed)
    }

    /** rstpd_register_interface (userspace/rstp/rstpd.c:138-180). */
    constructor (portId: PortId, bridge: BridgeId)
      ensures View() == FreshPort(portId, bridge)
    {
      var own := Vector4(bridge, [0, 0, 0, 0], bridge, portId);
      tx := Tx(TransmitInit, false, 0, 0, false, false, 0, false);
      info := Information(PimDisabled, false, InfoDisabled, 0, false, false, false, false, NoBpdu,
                          own, NoTimes, seq(22, _ => 0), NoTimes);
      sel := Selection(RoleDisabled, false, false, false, own, NoTimes);
      hs := Handshake(false, false, false, false, false, false, false, false, 0, 0);
      rt := Transitions(InitPort, false, RoleDisabled, false, false, 0, 0, 0);
      st := StateOf(Discarding, false, false, false);
      fixed := Constants(portId, false, false, false);
    }

    /** The timers of one port in pti_loop. */
    method DecrementTimers()
      modifies `tx, `info, `hs, `rt
      ensures View() == TickPort(old(View()))
    {
      tx := tx.(helloWhen := Dec(tx.helloWhen));
      tx := tx.(tcWhile := Dec(tx.tcWhile));
      rt := rt.(fdWhile := Dec(rt.fdWhile));
      info := info.(rcvdInfoWhile := Dec(info.rcvdInfoWhile));
      rt := rt.(rrWhile := Dec(rt.rrWhile));
      rt := rt.(rbWhile := Dec(rt.rbWhile));
      hs := hs.(mdelayWhile := Dec(hs.mdelayWhile));
      hs := hs.(edgeDelayWhile := Dec(hs.edgeDelayWhile));
      tx := tx.(txCount := Dec(tx.txCount));
    }

    // ----- Port Transmit -----------------------------------------------------

    method EnterPtx(state: Ptx)
      modifies `tx
      ensures tx == old(tx).(state := state, exec := false)
    {
      tx := tx.(state := state, exec := false);
    }

    method PtxTransmitInit()
      requires tx.state.TransmitInit?
      modifies `tx
      ensures tx == PtxNext(old(View()))
    {
      tx := tx.(newInfo := true);
      tx := tx.(txCount := 0);
      EnterPtx(Idle);
    }

    method PtxIdle()
      requires tx.state.Idle?
      modifies `tx
      ensures tx == PtxNext(old(View()))
    {
      if !tx.exec {
        tx := tx.(helloWhen := 2);
      }
      var cond := tx.newInfo && tx.txCount < 6 && tx.helloWhen != 0 && sel.selected && !sel.updtInfo;
      if tx.sendRSTP && cond {
        EnterPtx(TransmitRstp);
      } else if !tx.sendRSTP && rt.role.RoleRoot? && cond {
        EnterPtx(TransmitTcn);
      } else if !tx.sendRSTP && rt.role.RoleDesignated? && cond {
        EnterPtx(TransmitConfig);
      } else if tx.helloWhen == 0 {
        EnterPtx(TransmitPeriodic);
      } else {
        tx := tx.(exec := true);
      }
    }

    method PtxTransmitPeriodic()
      requires tx.state.TransmitPeriodic?
      modifies `tx
      ensures tx == PtxNext(old(View()))
    {
      tx := tx.(newInfo := tx.newInfo || rt.role.RoleDesignated? || (rt.role.RoleRoot? && tx.tcWhile != 0));
      EnterPtx(Idle);
    }

    /** ptx_transmit_config, ptx_transmit_tcn and ptx_transmit_rstp; what they put on the wire is not
        modelled, that they send is. */
    method PtxTransmit() returns (sent: bool)
      requires Sends(View())
      modifies `tx
      ensures tx == PtxNext(old(View())) && sent
    {
      tx := tx.(newInfo := false);
      sent := true;
      tx := tx.(txCount := tx.txCount + 1);
      if !tx.state.TransmitTcn? {
        tx := tx.(tcAck := false);
      }
      EnterPtx(Idle);
    }

    method PtxTurn() returns (sent: bool)
      modifies `tx
      ensures View() == PtxCall(old(View())) && sent == Sends(old(View()))
    {
      sent := false;
      match tx.state
      case TransmitInit => PtxTransmitInit();
      case Idle => PtxIdle();
      case TransmitPeriodic => PtxTransmitPeriodic();
      case _ => sent := PtxTransmit();
    }

    // ----- Port Information --------------------------------------------------

    method EnterPim(state: Pim)
      modifies `info
      ensures info == RstpPort.EnterPim(old(info), state)
    {
      info := info.(state := state, exec := false);
    }

    /** The common end of the states that deal with a message. */
    method Processed()
      modifies `info
      ensures info == RstpPort.Processed(old(info))
    {
      info := info.(rcvdMsg := false);
      EnterPim(PimCurrent);
    }

    method PimOnDisabled()
      modifies `info, `hs, `sel
      ensures View() == OnDisabled(old(View()))
    {
      info := info.(rcvdMsg := false);
      hs := hs.(proposing := false, proposed := false, agree := false, agreed := false);
      info := info.(rcvdInfoWhile := 0);
      info := info.(infoIs := InfoDisabled);
      sel := sel.(reselect := true);
      sel := sel.(selected := false);
      EnterPim(PimAged);
    }

    method PimOnAged()
      requires info.state.PimAged?
      modifies `info, `sel
      ensures View() == OnAged(old(View()))
    {
      if !info.exec {
        info := info.(infoIs := InfoAged);
        sel := sel.(reselect := true);
        sel := sel.(selected := false);
      }
      if sel.selected && sel.updtInfo {
        EnterPim(PimUpdate);
      } else {
        info := info.(exec := true);
      }
    }

    /** betterorsameInfo. */
    method BetterOrSame(newInfoIs: Info) returns (r: bool)
      ensures r == BetterOrSameInfo(View(), newInfoIs)
    {
      r := (newInfoIs.InfoReceived? && info.infoIs.InfoReceived?
            && Compare(info.msgPriority, info.portPriority) <= 0)
           || (newInfoIs.InfoMine? && info.infoIs.InfoMine?
               && Compare(sel.designatedPriority, info.portPriority) <= 0);
    }

    method PimOnUpdate()
      requires info.state.PimUpdate?
      modifies `info, `hs, `sel, `tx
      ensures View() == OnUpdate(old(View()))
    {
      if !info.exec {
        var better := BetterOrSame(InfoMine);
        UpdateHandshake(better);
        RecordOwnPriority();
        sel := sel.(updtInfo := false);
        tx := tx.(newInfo := true);
      }
      EnterPim(PimCurrent);
    }

    method UpdateHandshake(better: bool)
      modifies `hs
      ensures hs == old(hs).(proposing := false, proposed := false, agreed := old(hs).agreed && better,
                             synced := old(hs).synced && old(hs).agreed && better)
    {
      hs := hs.(proposing := false, proposed := false);
      hs := hs.(agreed := hs.agreed && better);
      hs := hs.(synced := hs.synced && hs.agreed);
    }

    method RecordOwnPriority()
      modifies `info
      ensures info == old(info).(portPriority := sel.designatedPriority, portTimes := sel.designatedTimes,
                                 infoIs := InfoMine)
    {
      info := info.(portPriority := sel.designatedPriority);
      info := info.(portTimes := sel.designatedTimes);
      info := info.(infoIs := InfoMine);
    }

    method PimOnCurrent()
      requires info.state.PimCurrent?
      modifies `info
      ensures View() == OnCurrent(old(View()))
    {
      if sel.selected && sel.updtInfo {
        EnterPim(PimUpdate);
      } else if info.infoIs.InfoReceived? && info.rcvdInfoWhile == 0 && !sel.updtInfo && !info.rcvdMsg {
        EnterPim(PimAged);
      } else if info.rcvdMsg && !sel.updtInfo {
        EnterPim(PimReceive);
      }
    }

    /** rcvInfo. */
    method RcvInfo() returns (rcvdInfo: Pim)
      modifies `info
      ensures info == ReadMessage(old(info)) && rcvdInfo == Classify(info)
    {
      if info.buf.bpduType.BpduTcn? {
        info := info.(rcvdTcn := true);
        return PimOther;
      }
      if info.buf.bpduType.BpduConfig? {
        info := info.(buf := info.buf.(flags := info.buf.flags.(role := RoleDesignated)));
      }
      info := info.(msgPriority := info.buf.priority, msgTimes := info.buf.times);
      rcvdInfo := Compared();
    }

    /** The comparisons of rcvInfo (userspace/rstp/fsm/pim.c:50-75). */
    method Compared() returns (rcvdInfo: Pim)
      requires !info.buf.bpduType.BpduTcn?
      ensures rcvdInfo == Classify(info)
    {
      var c, role := Compare(info.msgPriority, info.portPriority), info.buf.flags.role;
      if role.RoleDesignated? {
        if c < 0 {
          return SuperiorDesignated;
        }
        if info.msgTimes != info.portTimes && c == 0 {
          return SuperiorDesignated;
        }
        if c == 0 && info.msgTimes == info.portTimes {
          return RepeatedDesignated;
        }
        if c > 0 {
          return InferiorDesignated;
        }
      }
      if (role.RoleRoot? || role.RoleAlternateBackup?) && c >= 0 {
        return NotDesignated;
      }
      return PimOther;
    }

    method PimOnReceive()
      modifies `info
      ensures View() == OnReceive(old(View()))
    {
      var rcvdInfo := RcvInfo();
      EnterPim(rcvdInfo);
    }

    method RecordProposal()
      modifies `hs
      ensures hs == old(hs).(proposed := old(hs.proposed) || CarriesProposal(info))
    {
      if info.buf.flags.role.RoleDesignated? && info.buf.flags.proposal {
        hs := hs.(proposed := true);
      }
    }

    method SetTcFlags()
      modifies `info
      ensures info == RstpPort.SetTcFlags(old(info))
    {
      if info.buf.bpduType.BpduTcn? {
        info := info.(rcvdTcn := true);
      } else {
        if info.buf.flags.topologyChange { info := info.(rcvdTc := true); }
        if info.buf.flags.topologyChangeAck { info := info.(rcvdTcAck := true); }
      }
    }

    method UpdtRcvdInfoWhile()
      modifies `info
      ensures info == RstpPort.UpdtRcvdInfoWhile(old(info))
    {
      if info.portTimes.messageAge + 1 <= info.portTimes.maxAge {
        info := info.(rcvdInfoWhile := 3 * info.portTimes.helloTime);
      } else {
        info := info.(rcvdInfoWhile := 0);
      }
    }

    /** recordPriority, recordTimes, updtRcvdInfoWhile */
    method TakeInformation()
      modifies `info
      ensures info == RstpPort.UpdtRcvdInfoWhile(
                        old(info).(portPriority := old(info).msgPriority, portTimes := old(info).msgTimes)).(
                        infoIs := InfoReceived)
    {
      info := info.(portPriority := info.msgPriority);
      info := info.(portTimes := info.msgTimes);
      UpdtRcvdInfoWhile();
      info := info.(infoIs := InfoReceived);
    }

    method PimOnSuperior()
      modifies `info, `hs, `sel
      ensures View() == OnSuperior(old(View()))
    {
      hide RstpPort.UpdtRcvdInfoWhile, CarriesProposal;
      hs := hs.(agreed := false, proposing := false);
      RecordProposal();
      SetTcFlags();
      var better := BetterOrSame(InfoReceived);
      hs := hs.(agree := hs.agree && better);
      TakeInformation();
      sel := sel.(reselect := true);
      sel := sel.(selected := false);
      Processed();
    }

    method PimOnRepeated()
      modifies `info, `hs
      ensures View() == OnRepeated(old(View()))
    {
      RecordProposal();
      SetTcFlags();
      UpdtRcvdInfoWhile();
      Processed();
    }

    method PimOnInferior()
      modifies `info, `hs
      ensures View() == OnInferior(old(View()))
    {
      if info.buf.bpduType.BpduRstp? && info.buf.flags.learn {
        hs := hs.(disputed := true);
        hs := hs.(agreed := false);
      }
      Processed();
    }

    method PimOnNotDesignated()
      modifies `info, `hs
      ensures View() == OnNotDesignated(old(View()))
    {
      if info.buf.flags.agreement {
        hs := hs.(agreed := true);
        hs := hs.(proposing := false);
      } else {
        hs := hs.(agreed := false);
      }
      SetTcFlags();
      Processed();
    }

    method PimTurn()
      modifies `info, `hs, `sel, `tx
      ensures View() == PimCall(old(View()))
    {
      match info.state
      case PimDisabled => PimOnDisabled();
      case PimAged => PimOnAged();
      case PimUpdate => PimOnUpdate();
      case PimCurrent => PimOnCurrent();
      case PimReceive => PimOnReceive();
      case SuperiorDesignated => PimOnSuperior();
      case RepeatedDesignated => PimOnRepeated();
      case InferiorDesignated => PimOnInferior();
      case NotDesignated => PimOnNotDesignated();
      case PimOther => Processed();
    }

    // ----- Port Role Transitions ---------------------------------------------

    method EnterPrt(state: Prt)
      modifies `rt
      ensures rt == Enter(old(rt), state)
    {
      rt := rt.(state := state, exec := false);
    }

    method CheckGlobalConditions()
      modifies `rt
      ensures View() == Preempted(old(View()))
    {
      if rt.role != sel.selectedRole {
        match sel.selectedRole
        case RoleDisabled => EnterPrt(DisablePort);
        case RoleRoot => EnterPrt(RootPort);
        case RoleDesignated => EnterPrt(DesignatedPort);
        case RoleAlternate => EnterPrt(BlockPort);
        case RoleBackup => EnterPrt(BlockPort);
        case RoleAlternateBackup =>
      }
    }

    method PrtInitPort()
      requires rt.state.InitPort?
      modifies `rt, `hs
      ensures View() == PrtOwn(old(View()))
    {
      rt := rt.(role := RoleDisabled);
      rt := rt.(learn := false, forward := false);
      hs := hs.(synced := false);
      hs := hs.(sync := true, reRoot := true);
      rt := rt.(rrWhile := 15);
      rt := rt.(fdWhile := 20);
      rt := rt.(rbWhile := 0);
      EnterPrt(DisablePort);
    }

    /** prt_disable_port and prt_block_port. */
    method PrtStop(next: Prt)
      requires (rt.state.DisablePort? && next.DisabledPort?) || (rt.state.BlockPort? && next.AlternatePort?)
      modifies `rt
      ensures View() == PrtOwn(old(View()))
    {
      if !rt.exec {
        rt := rt.(role := sel.selectedRole);
        rt := rt.(learn := false, forward := false);
      }
      if !st.learning && !st.forwarding && sel.selected && !sel.updtInfo {
        EnterPrt(next);
      } else {
        rt := rt.(exec := true);
      }
    }

    /** The entry action that prt_disabled_port and prt_alternate_port have in common. */
    method HoldBack(delay: nat)
      modifies `rt, `hs
      ensures rt == old(rt).(fdWhile := delay, rrWhile := 0)
      ensures hs == old(hs).(synced := true, sync := false, reRoot := false)
    {
      rt := rt.(fdWhile := delay);
      hs := hs.(synced := true);
      rt := rt.(rrWhile := 0);
      hs := hs.(sync := false, reRoot := false);
    }

    method PrtDisabledPort()
      requires rt.state.DisabledPort?
      modifies `rt, `hs
      ensures View() == PrtOwn(old(View()))
    {
      if !rt.exec {
        HoldBack(20);
      }
      if sel.selected && !sel.updtInfo && (rt.fdWhile != 20 || hs.sync || hs.reRoot || !hs.synced) {
        rt := rt.(exec := false);
      } else {
        rt := rt.(exec := true);
      }
    }

    method PrtRootPort()
      requires rt.state.RootPort?
      modifies `rt
      ensures View() == PrtOwn(old(View()))
    {
      if !rt.exec {
        rt := rt.(role := RoleRoot);
        rt := rt.(rrWhile := 15);
      }
      PrtRootDecision();
    }

    method PrtRootDecision()
      modifies `rt
      ensures rt == Follow(old(rt), RootDecision(old(View())))
    {
      var cond := sel.selected && !sel.updtInfo;
      var mayMove := rt.fdWhile == 0 || (fixed.reRooted && rt.rbWhile == 0);
      if hs.proposed && !hs.agree && cond {
        EnterPrt(RootProposed);
      } else if ((fixed.allSynced && !hs.agree) || (hs.proposed && hs.agree)) && cond {
        EnterPrt(RootAgreed);
      } else if !rt.forward && !hs.reRoot && cond {
        EnterPrt(ReRoot);
      } else if mayMove && rt.learn && !rt.forward && cond {
        EnterPrt(RootForward);
      } else if mayMove && !rt.learn && cond {
        EnterPrt(RootLearn);
      } else if hs.reRoot && rt.forward && cond {
        EnterPrt(ReRooted);
      } else if rt.rrWhile != 15 && cond {
        rt := rt.(exec := false);
      } else {
        rt := rt.(exec := true);
      }
    }

    /** prt_root_proposed after setSyncTree. */
    method PrtRootProposed()
      requires rt.state.RootProposed?
      modifies `rt, `hs
      ensures View() == PrtOwn(old(View()))
    {
      hs := hs.(proposed := false);
      EnterPrt(RootPort);
    }

    method PrtRootAgreed()
      requires rt.state.RootAgreed?
      modifies `rt, `hs, `tx
      ensures View() == PrtOwn(old(View()))
    {
      hs := hs.(proposed := false, sync := false);
      hs := hs.(agree := true);
      tx := tx.(newInfo := true);
      EnterPrt(RootPort);
    }

    method PrtRootForward()
      requires rt.state.RootForward?
      modifies `rt
      ensures View() == PrtOwn(old(View()))
    {
      rt := rt.(fdWhile := 0);
      rt := rt.(forward := true);
      EnterPrt(RootPort);
    }

    method PrtRootLearn()
      requires rt.state.RootLearn?
      modifies `rt
      ensures View() == PrtOwn(old(View()))
    {
      rt := rt.(fdWhile := 15);
      rt := rt.(learn := true);
      EnterPrt(RootPort);
    }

    method PrtReRooted()
      requires rt.state.ReRooted?
      modifies `rt, `hs
      ensures View() == PrtOwn(old(View()))
    {
      hs := hs.(reRoot := false);
      EnterPrt(RootPort);
    }

    method PrtDesignatedPort()
      requires rt.state.DesignatedPort?
      modifies `rt
      ensures View() == PrtOwn(old(View()))
    {
      if !rt.exec {
        rt := rt.(role := RoleDesignated);
      }
      PrtDesignatedDecision();
    }

    method PrtDesignatedDecision()
      modifies `rt
      ensures rt == Follow(old(rt), DesignatedDecision(old(View())))
    {
      var cond := sel.selected && !sel.updtInfo;
      var mayMove := (rt.fdWhile == 0 || hs.agreed || fixed.operEdge) && (rt.rrWhile == 0 || !hs.reRoot) && !hs.sync;
      if !rt.forward && !hs.agreed && !hs.proposing && !fixed.operEdge && cond {
        EnterPrt(DesignatedPropose);
      } else if ((!st.learning && !st.forwarding && !hs.synced) || (hs.agreed && !hs.synced)
                 || (fixed.operEdge && !hs.synced) || (hs.sync && hs.synced)) && cond {
        EnterPrt(DesignatedSynced);
      } else if rt.rrWhile == 0 && hs.reRoot && cond {
        EnterPrt(DesignatedRetired);
      } else if mayMove && rt.learn && !rt.forward && cond {
        EnterPrt(DesignatedForward);
      } else if mayMove && !rt.learn && cond {
        EnterPrt(DesignatedLearn);
      } else if ((hs.sync && !hs.synced) || (hs.reRoot && rt.rrWhile != 0) || hs.disputed)
                && !fixed.operEdge && (rt.learn || rt.forward) && cond {
        EnterPrt(DesignatedDiscard);
      } else {
        rt := rt.(exec := true);
      }
    }

    method PrtDesignatedPropose()
      requires rt.state.DesignatedPropose?
      modifies `rt, `hs, `tx
      ensures View() == PrtOwn(old(View()))
    {
      hs := hs.(proposing := true);
      hs := hs.(edgeDelayWhile := 10);
      tx := tx.(newInfo := true);
      EnterPrt(DesignatedPort);
    }

    method PrtDesignatedSynced()
      requires rt.state.DesignatedSynced?
      modifies `rt, `hs
      ensures View() == PrtOwn(old(View()))
    {
      rt := rt.(rrWhile := 0);
      hs := hs.(synced := true);
      hs := hs.(sync := false);
      EnterPrt(DesignatedPort);
    }

    method PrtDesignatedRetired()
      requires rt.state.DesignatedRetired?
      modifies `rt, `hs
      ensures View() == PrtOwn(old(View()))
    {
      hs := hs.(reRoot := false);
      EnterPrt(DesignatedPort);
    }

    method PrtDesignatedForward()
      requires rt.state.DesignatedForward?
      modifies `rt, `hs
      ensures View() == PrtOwn(old(View()))
    {
      rt := rt.(forward := true);
      rt := rt.(fdWhile := 0);
      hs := hs.(agreed := tx.sendRSTP);
      EnterPrt(DesignatedPort);
    }

    method PrtDesignatedLearn()
      requires rt.state.DesignatedLearn?
      modifies `rt
      ensures View() == PrtOwn(old(View()))
    {
      rt := rt.(learn := true);
      rt := rt.(fdWhile := 15);
      EnterPrt(DesignatedPort);
    }

    method PrtDesignatedDiscard()
      requires rt.state.DesignatedDiscard?
      modifies `rt, `hs
      ensures View() == PrtOwn(old(View()))
    {
      rt := rt.(learn := false, forward := false);
      hs := hs.(disputed := false);
      rt := rt.(fdWhile := 15);
      EnterPrt(DesignatedPort);
    }

    method PrtAlternatePort()
      requires rt.state.AlternatePort?
      modifies `rt, `hs
      ensures View() == PrtOwn(old(View()))
    {
      if !rt.exec {
        HoldBack(15);
      }
      PrtAlternateDecision();
    }

    method PrtAlternateDecision()
      modifies `rt
      ensures rt == Follow(old(rt), AlternateDecision(old(View())))
    {
      var cond := sel.selected && !sel.updtInfo;
      if hs.proposed && !hs.agree && cond {
        EnterPrt(AlternateProposed);
      } else if ((fixed.allSynced && !hs.agree) || (hs.proposed && hs.agree)) && cond {
        EnterPrt(AlternateAgreed);
      } else if rt.rbWhile != 4 && rt.role.RoleAlternateBackup? && cond {
        EnterPrt(BackupPort);
      } else {
        rt := rt.(exec := true);
      }
    }

    /** prt_alternate_proposed after setSyncTree. */
    method PrtAlternateProposed()
      requires rt.state.AlternateProposed?
      modifies `rt, `hs
      ensures View() == PrtOwn(old(View()))
    {
      hs := hs.(proposed := false);
      EnterPrt(AlternatePort);
    }

    method PrtAlternateAgreed()
      requires rt.state.AlternateAgreed?
      modifies `rt, `hs, `tx
      ensures View() == PrtOwn(old(View()))
    {
      hs := hs.(proposed := false);
      hs := hs.(agree := true);
      tx := tx.(newInfo := true);
      EnterPrt(AlternatePort);
    }

    method PrtReRoot()
      requires rt.state.ReRoot?
      modifies `rt
      ensures View() == PrtOwn(old(View()))
    {
      EnterPrt(RootPort);
    }

    method PrtBackupPort()
      requires rt.state.BackupPort?
      modifies `rt
      ensures View() == PrtOwn(old(View()))
    {
      rt := rt.(rbWhile := 4);
      EnterPrt(AlternatePort);
    }

    /** The table of role states, after the loops over all ports that some of them start with. */
    method PrtState()
      modifies `rt, `hs, `tx
      ensures View() == PrtOwn(old(View()))
      ensures MovesRoles(old(rt), sel.selectedRole, rt) && MovesTimers(old(rt), rt)
    {
      hide PrtOwn, MovesRoles, MovesTimers;
      OwnMoves(View());
      match rt.state
      case InitPort => PrtInitPort();
      case DisablePort => PrtStop(DisabledPort);
      case DisabledPort => PrtDisabledPort();
      case RootPort => PrtRootPort();
      case RootProposed => PrtRootProposed();
      case RootAgreed => PrtRootAgreed();
      case ReRoot => PrtReRoot();
      case RootForward => PrtRootForward();
      case RootLearn => PrtRootLearn();
      case ReRooted => PrtReRooted();
      case DesignatedPort => PrtDesignatedPort();
      case DesignatedPropose => PrtDesignatedPropose();
      case DesignatedSynced => PrtDesignatedSynced();
      case DesignatedRetired => PrtDesignatedRetired();
      case DesignatedForward => PrtDesignatedForward();
      case DesignatedLearn => PrtDesignatedLearn();
      case DesignatedDiscard => PrtDesignatedDiscard();
      case AlternatePort => PrtAlternatePort();
      case AlternateProposed => PrtAlternateProposed();
      case AlternateAgreed => PrtAlternateAgreed();
      case BlockPort => PrtStop(AlternatePort);
      case BackupPort => PrtBackupPort();
    }

    // ----- Port State Transition ---------------------------------------------

    method PstTurn()
      modifies `st
      ensures View() == PstCall(old(View()))
    {
      match st.state
      case Discarding =>
        if !st.exec {
          st := st.(learning := false);
          st := st.(forwarding := false);
        }
        if rt.learn {
          st := st.(state := Learning, exec := false);
        } else {
          st := st.(exec := true);
        }
      case Learning =>
        if !st.exec {
          st := st.(learning := true);
        }
        if rt.forward {
          st := st.(state := Forwarding, exec := false);
        } else if !rt.learn {
          st := st.(state := Discarding, exec := false);
        } else {
          st := st.(exec := true);
        }
      case Forwarding =>
        if !st.exec {
          st := st.(forwarding := true);
        }
        if !rt.forward {
          st := st.(state := Discarding, exec := false);
        } else {
          st := st.(exec := true);
        }
    }
  }
}
