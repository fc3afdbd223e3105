/** A run of the daemon, in its own order, on which a port learns in a blocking state. */
module RstpLearns {
  import opened Vector
  import opened RstpPort
  import opened RstpBridge
  import opened RstpSafety
  import opened RstpRoles
  import opened RstpDaemon

  /** Where a port is, but for its transmit machine and what it has received. */
  predicate AtStage(p: Port, pim: Pim, pimExec: bool, infoIs: Info, sel: Selection, hs: Handshake,
                    rt: Transitions, st: StateOf)
  {
    && p.info.state == pim && p.info.exec == pimExec && p.info.infoIs == infoIs && !p.info.rcvdMsg
    && p.sel == sel && p.hs == hs && p.rt == rt && p.st == st
    && p.fixed.portId == [0, 1] && !p.fixed.allSynced && !p.fixed.reRooted && !p.fixed.operEdge
  }

  /** The turns of the per-port machines, the port being alone. */
  function Turns(p: Port): Port { PstCall(PrtCall(PimCall(PtxCall(p)))) }

  lemma AloneInRound(b: Bridge)
    requires |b.ports| == 1
    ensures Round(b) == PrsCall(b.(ports := [Turns(b.ports[0])]))
  {
    var p := b.ports[0];
    var q := PimCall(PtxCall(p));
    assert b.ports[0 := PtxCall(p)] == [PtxCall(p)];
    var c := Step(Step(b, PtxTurn(0)), PimTurn(0));
    assert c.ports == [q];
    var d := Step(c, PrtTurn(0));
    assert d.ports == [PrtCall(q)];
    assert d.ports[0 := PstCall(PrtCall(q))] == [Turns(p)];
    assert PortTurns(b, 1) == TurnsOf(b, 0);
  }

  /** Role selection has nothing to do. */
  lemma QuietRound(b: Bridge)
    requires |b.ports| == 1 && b.prs.RoleSelection? && b.prsExec && !Turns(b.ports[0]).sel.reselect
    ensures Round(b) == b.(ports := [Turns(b.ports[0])])
  {
    AloneInRound(b);
    var c := b.(ports := [Turns(b.ports[0])]);
    assert !AnyReselect(c.ports);
  }

  const QUIET: StateOf := StateOf(Discarding, true, false, false)
  const TIMES: Times := Times(0, 20, 2, 15)
  const AT_START: Handshake := Handshake(false, false, false, false, false, true, false, true, 0, 0)

  function Own(id: BridgeId): Vec4 { Vector4(id, [0, 0, 0, 0], id, [0, 1]) }

  /** The port's own message, as if it came back from a port with a lower number. */
  function Message(id: BridgeId): Vec4 { Vector4(id, [0, 0, 0, 0], id, [0, 0]) }

  function Selected(id: BridgeId, updtInfo: bool): Selection {
    Selection(RoleDesignated, false, true, updtInfo, Own(id), TIMES)
  }

  predicate Running(b: Bridge, id: BridgeId) {
    |b.ports| == 1 && b.prs.RoleSelection? && b.prsExec && b.id == id && b.times == TIMES
  }

  lemma Round0(b: Bridge, id: BridgeId)
    requires b.prs.InitBridge? && b.id == id && b.times == TIMES && b.ports == [FreshPort([0, 1], id)]
    ensures var c := Round(b);
            && |c.ports| == 1 && c.prs.RoleSelection? && !c.prsExec && c.id == id && c.times == TIMES
            && AtStage(c.ports[0], PimAged, false, InfoDisabled, b.ports[0].sel.(reselect := true), AT_START,
                       Transitions(DisablePort, false, RoleDisabled, false, false, 20, 15, 0), QUIET)
  {
    AloneInRound(b);
  }

  lemma Round1(b: Bridge, id: BridgeId)
    requires |b.ports| == 1 && b.prs.RoleSelection? && !b.prsExec && b.id == id && b.times == TIMES
    requires b.ports[0].sel.reselect && !b.ports[0].sel.selected && b.ports[0].sel.selectedRole.RoleDisabled?
    requires AtStage(b.ports[0], PimAged, false, InfoDisabled, b.ports[0].sel, AT_START,
                     Transitions(DisablePort, false, RoleDisabled, false, false, 20, 15, 0), QUIET)
    ensures var c := Round(b);
            && Running(c, id)
            && AtStage(c.ports[0], PimAged, true, InfoAged, Selected(id, true), AT_START,
                       Transitions(DisablePort, true, RoleDisabled, false, false, 20, 15, 0), QUIET)
  {
    AloneInRound(b);
    Turns1(b.ports[0], id);
    FirstSelection(b.(ports := [Turns(b.ports[0])]), id);
  }

  lemma Turns1(p: Port, id: BridgeId)
    requires p.sel.reselect && !p.sel.selected && p.sel.selectedRole.RoleDisabled?
    requires AtStage(p, PimAged, false, InfoDisabled, p.sel, AT_START,
                     Transitions(DisablePort, false, RoleDisabled, false, false, 20, 15, 0), QUIET)
    ensures AtStage(Turns(p), PimAged, true, InfoAged, p.sel, AT_START,
                    Transitions(DisablePort, true, RoleDisabled, false, false, 20, 15, 0), QUIET)
  {
  }

  lemma FirstSelection(c: Bridge, id: BridgeId)
    requires |c.ports| == 1 && c.prs.RoleSelection? && !c.prsExec && c.id == id && c.times == TIMES
    requires c.ports[0].info.infoIs.InfoAged? && c.ports[0].fixed.portId == [0, 1]
    ensures Running(PrsCall(c), id) && PrsCall(c).ports[0] == c.ports[0].(sel := Selected(id, true))
  {
    PrsOn(c, 0);
    PrsSelects(c, 0);
    var cleared := MapPorts(c.ports, ClearReselect);
    assert Scan(cleared, id, 0) == Best(OwnPriority(id), [0, 0], -1);
    assert !IsForeign(cleared[0], id);
    assert Scan(cleared, id, 1) == Best(OwnPriority(id), [0, 0], -1);
    assert OwnPriority(id)[..12] + id + [0, 1] == Own(id);
    assert !AnyReselect(PrsCall(c).ports);
  }

  lemma Round2(b: Bridge, id: BridgeId)
    requires Running(b, id)
    requires AtStage(b.ports[0], PimAged, true, InfoAged, Selected(id, true), AT_START,
                     Transitions(DisablePort, true, RoleDisabled, false, false, 20, 15, 0), QUIET)
    ensures var c := Round(b);
            && Running(c, id)
            && AtStage(c.ports[0], PimUpdate, false, InfoAged, Selected(id, true), AT_START,
                       Transitions(DesignatedPort, true, RoleDesignated, false, false, 20, 15, 0), QUIET)
  {
    Turns2(b.ports[0], id);
    QuietRound(b);
  }

  lemma Turns2(p: Port, id: BridgeId)
    requires AtStage(p, PimAged, true, InfoAged, Selected(id, true), AT_START,
                     Transitions(DisablePort, true, RoleDisabled, false, false, 20, 15, 0), QUIET)
    ensures AtStage(Turns(p), PimUpdate, false, InfoAged, Selected(id, true), AT_START,
                    Transitions(DesignatedPort, true, RoleDesignated, false, false, 20, 15, 0), QUIET)
  {
  }

  /** Ticks run the timers down. */
  lemma OneTick(b: Bridge, id: BridgeId, left: nat)
    requires Running(b, id) && left > 0
    requires AtStage(b.ports[0], PimUpdate, false, InfoAged, Selected(id, true), AT_START, Waiting(left), QUIET)
    ensures var c := Step(b, Event.Tick);
            Running(c, id)
            && AtStage(c.ports[0], PimUpdate, false, InfoAged, Selected(id, true), AT_START, Waiting(left - 1), QUIET)
  {
  }

  function Waiting(left: nat): Transitions {
    Transitions(DesignatedPort, true, RoleDesignated, false, false, left, if left > 5 then left - 5 else 0, 0)
  }

  function Designated(state: Prt, exec: bool): Transitions {
    Transitions(state, exec, RoleDesignated, false, false, 0, 0, 0)
  }

  lemma Round3(b: Bridge, id: BridgeId)
    requires Running(b, id)
    requires AtStage(b.ports[0], PimUpdate, false, InfoAged, Selected(id, true), AT_START, Waiting(0), QUIET)
    ensures var c := Round(b);
            && Running(c, id) && c.ports[0].info.portPriority == Own(id)
            && AtStage(c.ports[0], PimCurrent, false, InfoMine, Selected(id, false), AT_START,
                       Designated(DesignatedPropose, false), QUIET)
  {
    Turns3(b.ports[0], id);
    QuietRound(b);
  }

  lemma Turns3(p: Port, id: BridgeId)
    requires AtStage(p, PimUpdate, false, InfoAged, Selected(id, true), AT_START, Waiting(0), QUIET)
    ensures Turns(p).info.portPriority == Own(id)
    ensures AtStage(Turns(p), PimCurrent, false, InfoMine, Selected(id, false), AT_START,
                    Designated(DesignatedPropose, false), QUIET)
  {
  }

  const PROPOSING: Handshake := Handshake(false, false, false, true, false, true, false, true, 10, 0)
  const SYNCED: Handshake := Handshake(false, false, false, true, false, false, true, true, 10, 0)
  const RETIRED: Handshake := Handshake(false, false, false, true, false, false, true, false, 10, 0)

  /** A designated port that has heard nothing. */
  predicate Unheard(p: Port, id: BridgeId, hs: Handshake, rt: Transitions) {
    && p.info.portPriority == Own(id)
    && AtStage(p, PimCurrent, false, InfoMine, Selected(id, false), hs, rt, QUIET)
  }

  predicate Alone(b: Bridge, id: BridgeId, hs: Handshake, rt: Transitions) {
    Running(b, id) && Unheard(b.ports[0], id, hs, rt)
  }

  lemma AloneGoesOn(b: Bridge, id: BridgeId, hs: Handshake, rt: Transitions)
    requires Running(b, id) && Unheard(Turns(b.ports[0]), id, hs, rt)
    ensures Alone(Round(b), id, hs, rt)
  {
    QuietRound(b);
  }

  lemma Turns4(p: Port, id: BridgeId)
    requires Unheard(p, id, AT_START, Designated(DesignatedPropose, false))
    ensures Unheard(Turns(p), id, PROPOSING, Designated(DesignatedPort, false))
  {
  }

  lemma Turns5(p: Port, id: BridgeId)
    requires Unheard(p, id, PROPOSING, Designated(DesignatedPort, false))
    ensures Unheard(Turns(p), id, PROPOSING, Designated(DesignatedSynced, false))
  {
  }

  lemma Turns6(p: Port, id: BridgeId)
    requires Unheard(p, id, PROPOSING, Designated(DesignatedSynced, false))
    ensures Unheard(Turns(p), id, SYNCED, Designated(DesignatedPort, false))
  {
  }

  lemma Turns7(p: Port, id: BridgeId)
    requires Unheard(p, id, SYNCED, Designated(DesignatedPort, false))
    ensures Unheard(Turns(p), id, SYNCED, Designated(DesignatedRetired, false))
  {
  }

  lemma Round4567(b: Bridge, id: BridgeId)
    requires Alone(b, id, AT_START, Designated(DesignatedPropose, false))
    ensures Alone(Round(Round(Round(Round(b)))), id, SYNCED, Designated(DesignatedRetired, false))
  {
    var c := Round(b);
    Turns4(b.ports[0], id);
    AloneGoesOn(b, id, PROPOSING, Designated(DesignatedPort, false));
    var d := Round(c);
    Turns5(c.ports[0], id);
    AloneGoesOn(c, id, PROPOSING, Designated(DesignatedSynced, false));
    var e := Round(d);
    Turns6(d.ports[0], id);
    AloneGoesOn(d, id, SYNCED, Designated(DesignatedPort, false));
    Turns7(e.ports[0], id);
    AloneGoesOn(e, id, SYNCED, Designated(DesignatedRetired, false));
  }

  // ----- Its own message comes back -----------------------------------------

  function Returned(id: BridgeId): Bpdu {
    Bpdu(BpduRstp, Flags(false, false, RoleDesignated, false, false, false), Message(id), TIMES)
  }

  function Arrival(id: BridgeId): Surroundings {
    Surroundings(true, true, true, false, false, false, false, 0, 0, 10, Returned(id))
  }

  /** The message waits, or has been read. */
  predicate Hearing(p: Port, id: BridgeId, pim: Pim, hs: Handshake, rt: Transitions) {
    && p.info.state == pim && !p.info.exec && p.info.infoIs.InfoMine? && p.info.rcvdMsg && p.info.buf == Returned(id)
    && p.info.portPriority == Own(id) && p.sel == Selected(id, false) && p.hs == hs && p.rt == rt && p.st == QUIET
    && p.fixed.portId == [0, 1] && !p.fixed.allSynced && !p.fixed.reRooted && !p.fixed.operEdge
  }

  lemma Arrives(b: Bridge, id: BridgeId)
    requires Alone(b, id, SYNCED, Designated(DesignatedRetired, false))
    ensures var c := Step(b, Event.Surround(0, Arrival(id)));
            Running(c, id) && Hearing(c.ports[0], id, PimCurrent, SYNCED, Designated(DesignatedRetired, false))
  {
    assert b.ports[0].info.exec == false;
  }

  lemma Turns8(p: Port, id: BridgeId)
    requires Hearing(p, id, PimCurrent, SYNCED, Designated(DesignatedRetired, false))
    ensures Hearing(Turns(p), id, PimReceive, RETIRED, Designated(DesignatedPort, false))
  {
  }

  lemma MessageIsBetter(id: BridgeId)
    ensures Compare(Message(id), Own(id)) < 0 && Compare(Own(id), Message(id)) > 0
    ensures DesignatedBridge(Message(id)) == id
  {
    var front: Bytes := id + [0, 0, 0, 0] + id;
    CompareIsEquality(front, front);
    CompareJoined(front, front, [0, 0], [0, 1]);
    CompareIsAntisymmetric(Message(id), Own(id));
    assert Compare([0, 0], [0, 1]) == Compare([0], [1]);
  }

  lemma Turns9(p: Port, id: BridgeId)
    requires Hearing(p, id, PimReceive, RETIRED, Designated(DesignatedPort, false))
    ensures Hearing(Turns(p), id, SuperiorDesignated, RETIRED, Designated(DesignatedLearn, false))
    ensures Turns(p).info.msgPriority == Message(id)
  {
    MessageIsBetter(id);
  }

  /** The message is taken in and learning allowed in the same cycle. */
  predicate ToldToLearn(p: Port, id: BridgeId) {
    && p.info.state.PimCurrent? && p.info.infoIs.InfoReceived? && p.info.portPriority == Message(id)
    && p.rt == Transitions(DesignatedPort, false, RoleDesignated, true, false, 15, 0, 0)
    && p.st == StateOf(Learning, false, false, false) && p.fixed.portId == [0, 1]
  }

  lemma Turns10(p: Port, id: BridgeId)
    requires Hearing(p, id, SuperiorDesignated, RETIRED, Designated(DesignatedLearn, false))
    requires p.info.msgPriority == Message(id)
    ensures ToldToLearn(Turns(p), id)
  {
    var q := PimCall(PtxCall(p));
    assert q == OnSuperior(PtxCall(p));
    assert q.rt == p.rt && q.sel.selectedRole.RoleDesignated? && q.st == p.st;
    assert PrtCall(q).rt == Transitions(DesignatedPort, false, RoleDesignated, true, false, 15, 0, 0);
  }

  lemma Turns11(p: Port, id: BridgeId)
    requires ToldToLearn(p, id) && p.sel.selectedRole.RoleBackup? && p.sel.selected && !p.sel.updtInfo
    ensures Turns(p).rt.state.AlternatePort? && Turns(p).st.learning
  {
    var q := PimCall(PtxCall(p));
    assert q == OnCurrent(PtxCall(p));
    assert q.rt == p.rt && q.sel == p.sel && q.st == p.st;
    assert PrtCall(q).rt.state.AlternatePort?;
    assert PrtCall(q).st == p.st;
  }

  // ----- With a second port -------------------------------------------------

  /** The role machine is about to do something to all ports. */
  predicate NoTree(p: Port) {
    var s := Preempted(PimCall(PtxCall(p))).rt.state;
    !s.RootProposed? && !s.AlternateProposed? && !s.ReRoot?
  }

  lemma FirstTurns(b: Bridge)
    requires |b.ports| == 2 && NoTree(b.ports[0])
    ensures TurnsOf(b, 0) == b.(ports := [Turns(b.ports[0]), b.ports[1]])
  {
    var p, q := b.ports[0], b.ports[1];
    var c := Step(Step(b, PtxTurn(0)), PimTurn(0));
    assert c.ports == [PimCall(PtxCall(p)), q];
    var d := Step(c, PrtTurn(0));
    assert d.ports == [PrtCall(PimCall(PtxCall(p))), q];
    assert Step(d, PstTurn(0)).ports == [Turns(p), q];
  }

  lemma SecondTurns(b: Bridge)
    requires |b.ports| == 2 && NoTree(b.ports[1])
    ensures TurnsOf(b, 1) == b.(ports := [b.ports[0], Turns(b.ports[1])])
  {
    var p, q := b.ports[0], b.ports[1];
    var c := Step(Step(b, PtxTurn(1)), PimTurn(1));
    assert c.ports == [p, PimCall(PtxCall(q))];
    var d := Step(c, PrtTurn(1));
    assert d.ports == [p, PrtCall(PimCall(PtxCall(q)))];
    assert Step(d, PstTurn(1)).ports == [p, Turns(q)];
  }

  lemma TwoInRound(b: Bridge)
    requires |b.ports| == 2 && NoTree(b.ports[0]) && NoTree(b.ports[1])
    ensures Round(b) == PrsCall(b.(ports := [Turns(b.ports[0]), Turns(b.ports[1])]))
  {
    FirstTurns(b);
    SecondTurns(TurnsOf(b, 0));
    assert PortTurns(b, 1) == TurnsOf(b, 0);
    assert PortTurns(b, 2) == TurnsOf(TurnsOf(b, 0), 1);
  }

  predicate Both(b: Bridge, id: BridgeId, prsExec: bool) {
    |b.ports| == 2 && b.prs.RoleSelection? && b.prsExec == prsExec && b.id == id && b.times == TIMES
  }

  /** The second port, in its first two cycles. */
  predicate Newcomer(p: Port, pim: Pim) {
    && p.info.state == pim && !p.info.exec && p.info.infoIs.InfoDisabled? && p.sel.selectedRole.RoleDisabled?
    && p.rt.role.RoleDisabled? && (p.rt.state.InitPort? || p.rt.state.DisablePort?)
  }

  lemma NewcomerTurns(p: Port, pim: Pim)
    requires Newcomer(p, pim) && (pim.PimDisabled? || pim.PimAged?)
    ensures NoTree(p) && Turns(p).sel.reselect && Turns(p).sel.selectedRole.RoleDisabled?
    ensures !Turns(p).info.infoIs.InfoReceived?
    ensures pim.PimDisabled? ==> Newcomer(Turns(p), PimAged)
    ensures pim.PimAged? ==> Turns(p).info.infoIs.InfoAged? && Turns(p).info.state.PimAged?
                             && Turns(p).rt.role.RoleDisabled? && Turns(p).rt.state.DisablePort?
  {
  }

  lemma Round9(b: Bridge, id: BridgeId)
    requires Both(b, id, true) && Newcomer(b.ports[1], PimDisabled)
    requires Hearing(b.ports[0], id, PimReceive, RETIRED, Designated(DesignatedPort, false))
    ensures var c := Round(b);
            && Both(c, id, false) && Newcomer(c.ports[1], PimAged)
            && Hearing(c.ports[0], id, SuperiorDesignated, RETIRED, Designated(DesignatedLearn, false))
            && c.ports[0].info.msgPriority == Message(id)
  {
    Turns9(b.ports[0], id);
    assert NoTree(b.ports[0]);
    NewcomerTurns(b.ports[1], PimDisabled);
    TwoInRound(b);
    var c := b.(ports := [Turns(b.ports[0]), Turns(b.ports[1])]);
    assert c.ports[1].sel.reselect;
  }

  lemma Round10(b: Bridge, id: BridgeId)
    requires Both(b, id, false) && Newcomer(b.ports[1], PimAged)
    requires Hearing(b.ports[0], id, SuperiorDesignated, RETIRED, Designated(DesignatedLearn, false))
    requires b.ports[0].info.msgPriority == Message(id)
    ensures var c := Round(b);
            && |c.ports| == 2 && ToldToLearn(c.ports[0], id)
            && c.ports[0].sel.selectedRole.RoleBackup? && c.ports[0].sel.selected && !c.ports[0].sel.updtInfo
            && c.ports[1].sel.selectedRole.RoleDesignated? && c.ports[1].rt.role.RoleDisabled?
            && c.ports[1].info.state.PimAged?
  {
    Turns10(b.ports[0], id);
    assert NoTree(b.ports[0]) by {
      assert PimCall(PtxCall(b.ports[0])) == OnSuperior(PtxCall(b.ports[0]));
    }
    NewcomerTurns(b.ports[1], PimAged);
    TwoInRound(b);
    SecondSelection(b.(ports := [Turns(b.ports[0]), Turns(b.ports[1])]), id);
  }

  lemma SecondSelection(c: Bridge, id: BridgeId)
    requires Both(c, id, false) && ToldToLearn(c.ports[0], id) && c.ports[1].info.infoIs.InfoAged?
    ensures var d := PrsCall(c);
            && |d.ports| == 2 && d.ports[0] == c.ports[0].(sel := d.ports[0].sel)
            && d.ports[1] == c.ports[1].(sel := d.ports[1].sel)
            && d.ports[0].sel.selectedRole.RoleBackup? && d.ports[0].sel.selected && !d.ports[0].sel.updtInfo
            && d.ports[1].sel.selectedRole.RoleDesignated?
  {
    PrsOn(c, 0);
    PrsOn(c, 1);
    PrsSelects(c, 0);
    PrsSelects(c, 1);
    MessageIsBetter(id);
    var cleared := MapPorts(c.ports, ClearReselect);
    assert Scan(cleared, id, 0) == Best(OwnPriority(id), [0, 0], -1);
    assert !IsForeign(cleared[0], id) && !IsForeign(cleared[1], id);
    assert Scan(cleared, id, 1) == Scan(cleared, id, 0);
    assert Scan(cleared, id, 2) == Scan(cleared, id, 1);
    assert OwnPriority(id)[..12] + id + [0, 1] == Own(id);
  }

  lemma NoTree11(p: Port, q: Port, id: BridgeId)
    requires ToldToLearn(p, id) && p.sel.selectedRole.RoleBackup? && p.sel.selected && !p.sel.updtInfo
    requires q.sel.selectedRole.RoleDesignated? && q.rt.role.RoleDisabled? && q.info.state.PimAged?
    ensures NoTree(p) && NoTree(q)
  {
    assert PimCall(PtxCall(p)) == OnCurrent(PtxCall(p));
    assert PimCall(PtxCall(q)) == OnAged(PtxCall(q));
  }

  lemma Round11(b: Bridge, id: BridgeId)
    requires |b.ports| == 2 && ToldToLearn(b.ports[0], id)
    requires b.ports[0].sel.selectedRole.RoleBackup? && b.ports[0].sel.selected && !b.ports[0].sel.updtInfo
    requires b.ports[1].sel.selectedRole.RoleDesignated? && b.ports[1].rt.role.RoleDisabled?
    requires b.ports[1].info.state.PimAged?
    ensures var c := Round(b);
            |c.ports| == 2 && c.ports[0].rt.state.AlternatePort? && c.ports[0].st.learning
  {
    NoTree11(b.ports[0], b.ports[1], id);
    TwoInRound(b);
    Turns11(b.ports[0], id);
    PrsOn(b.(ports := [Turns(b.ports[0]), Turns(b.ports[1])]), 0);
  }

  // ----- The run ------------------------------------------------------------

  predicate Started(b: Bridge, id: BridgeId) {
    && Running(b, id)
    && AtStage(b.ports[0], PimUpdate, false, InfoAged, Selected(id, true), AT_START, Waiting(20), QUIET)
  }

  lemma Round012(b: Bridge, id: BridgeId)
    requires b.prs.InitBridge? && b.id == id && b.times == TIMES && b.ports == [FreshPort([0, 1], id)]
    ensures Started(Round(Round(Round(b))), id)
  {
    Round0(b, id);
    Round1(Round(b), id);
    Round2(Round(Round(b)), id);
  }

  method TwentyTicks(d: Daemon, id: BridgeId)
    requires d.OnCycle() && d.Now() == Boundary && Started(d.View(), id)
    modifies d`bs, d`es, d`cs, d.ports
    ensures d.OnCycle() && d.Now() == Boundary && Running(d.View(), id)
    ensures AtStage(d.View().ports[0], PimUpdate, false, InfoAged, Selected(id, true), AT_START, Waiting(0), QUIET)
  {
    for left := 20 downto 0
      invariant d.OnCycle() && d.Now() == Boundary && Running(d.View(), id)
      invariant AtStage(d.View().ports[0], PimUpdate, false, InfoAged, Selected(id, true), AT_START, Waiting(left), QUIET)
    {
      OneTick(d.View(), id, left + 1);
      d.Tick();
    }
  }

  lemma Round34567(b: Bridge, id: BridgeId)
    requires Running(b, id)
    requires AtStage(b.ports[0], PimUpdate, false, InfoAged, Selected(id, true), AT_START, Waiting(0), QUIET)
    ensures Alone(Round(Round(Round(Round(Round(b))))), id, SYNCED, Designated(DesignatedRetired, false))
  {
    Round3(b, id);
    Round4567(Round(b), id);
  }

  lemma IsDisturbed(b: Bridge, id: BridgeId)
    requires Alone(b, id, SYNCED, Designated(DesignatedRetired, false))
    ensures Disturbed(Step(Round(Step(b, Event.Surround(0, Arrival(id)))), Event.Register([0, 2])), id)
  {
    Arrives(b, id);
    var c := Step(b, Event.Surround(0, Arrival(id)));
    Round8(c, id);
    NewcomerComes(Round(c), id);
  }

  lemma NewcomerComes(b: Bridge, id: BridgeId)
    requires Running(b, id) && Hearing(b.ports[0], id, PimReceive, RETIRED, Designated(DesignatedPort, false))
    ensures Disturbed(Step(b, Event.Register([0, 2])), id)
  {
    var c := Step(b, Event.Register([0, 2]));
    assert c.ports[0] == b.ports[0] && c.ports[1] == FreshPort([0, 2], id);
  }

  lemma Round8(b: Bridge, id: BridgeId)
    requires Running(b, id) && Hearing(b.ports[0], id, PimCurrent, SYNCED, Designated(DesignatedRetired, false))
    ensures Running(Round(b), id)
    ensures Hearing(Round(b).ports[0], id, PimReceive, RETIRED, Designated(DesignatedPort, false))
  {
    Turns8(b.ports[0], id);
    QuietRound(b);
  }

  predicate LearnsStopped(b: Bridge) {
    |b.ports| == 2 && b.ports[0].rt.state.AlternatePort? && b.ports[0].st.learning
  }

  lemma Round91011(b: Bridge, id: BridgeId)
    requires Disturbed(b, id)
    ensures LearnsStopped(Round(Round(Round(b))))
  {
    Round9(b, id);
    Round10(Round(b), id);
    Round11(Round(Round(b)), id);
  }

  predicate Disturbed(b: Bridge, id: BridgeId) {
    && Both(b, id, true) && Newcomer(b.ports[1], PimDisabled)
    && Hearing(b.ports[0], id, PimReceive, RETIRED, Designated(DesignatedPort, false))
  }

  method Start(id: BridgeId) returns (d: Daemon)
    ensures fresh(d) && d.OnCycle() && d.Now() == Boundary && |d.ports| == 1 && fresh(d.ports[0])
    ensures Started(Round(Round(Round(d.View()))), id)
  {
    d := new Daemon(id, TIMES);
    d.Register([0, 1]);
    assert d.View().ports == [FreshPort([0, 1], id)];
    Round012(d.View(), id);
  }

  /** The port is designated and alone, and waits for its message. */
  method Settle(d: Daemon, id: BridgeId)
    requires d.OnCycle() && d.Now() == Boundary && Started(Round(Round(Round(d.View()))), id)
    modifies d.ports, d`prs, d`prsExec, d`rootPriority, d`rootPortId, d`bs, d`es, d`cs
    ensures d.OnCycle() && d.Now() == Boundary
    ensures Alone(d.View(), id, SYNCED, Designated(DesignatedRetired, false))
  {
    hide Daemon.OnCycle, Daemon.InSafeState, Round, Started, AtStage, Alone, TurnsOfPorts, AnyReselect, AllSelected;
    d.FsmRound();
    d.FsmRound();
    d.FsmRound();
    TwentyTicks(d, id);
    Round34567(d.View(), id);
    FiveRounds(d);
  }

  method FiveRounds(d: Daemon)
    requires d.OnCycle() && d.Now() == Boundary
    modifies d.ports, d`prs, d`prsExec, d`rootPriority, d`rootPortId, d`bs, d`es, d`cs
    ensures d.OnCycle() && d.Now() == Boundary && d.View() == Round(Round(Round(Round(Round(old(d.View()))))))
  {
    hide Daemon.OnCycle, Daemon.InSafeState, Round, TurnsOfPorts, AnyReselect, AllSelected;
    d.FsmRound();
    d.FsmRound();
    d.FsmRound();
    d.FsmRound();
    d.FsmRound();
  }

  /** The message comes, and then the second port. */
  method Disturb(d: Daemon, id: BridgeId)
    requires d.OnCycle() && d.Now() == Boundary && |d.ports| == 1
    requires Alone(d.View(), id, SYNCED, Designated(DesignatedRetired, false))
    modifies d.ports, d`ports, d`prs, d`prsExec, d`rootPriority, d`rootPortId, d`bs, d`es, d`cs
    ensures d.OnCycle() && d.Now() == Boundary && Disturbed(d.View(), id)
    ensures |d.ports| == 2 && d.ports[0] == old(d.ports[0]) && fresh(d.ports[1])
  {
    hide Daemon.OnCycle, Daemon.InSafeState, Round, Step, Alone, Disturbed, Arrival;
    IsDisturbed(d.View(), id);
    d.Surround(0, Arrival(id));
    d.FsmRound();
    d.Register([0, 2]);
  }

  method ToTheEnd(d: Daemon, id: BridgeId)
    requires d.OnCycle() && d.Now() == Boundary && Disturbed(d.View(), id)
    modifies d.ports, d`prs, d`prsExec, d`rootPriority, d`rootPortId, d`bs, d`es, d`cs
    ensures d.OnCycle() && LearnsStopped(d.View())
  {
    hide Daemon.OnCycle, Daemon.InSafeState, Round, Disturbed, LearnsStopped;
    Round91011(d.View(), id);
    d.FsmRound();
    d.FsmRound();
    d.FsmRound();
  }

  /** The run. A designated port is told to learn in the same cycle in which it takes in its own
      message from a lower-numbered port, and role selection is waiting already, for a port that has
      just been registered. Its role machine blocks it before the state machine has begun to learn. */
  method LearnsWhileBlocked(id: BridgeId) returns (d: Daemon)
    ensures d.OnCycle() && |d.ports| == 2
    ensures Stopped(d.ports[0].rt.state) && d.ports[0].st.learning
  {
    hide Daemon.OnCycle, Round, Started, Alone, Disturbed;
    d := Start(id);
    Settle(d, id);
    Disturb(d, id);
    ToTheEnd(d, id);
    assert d.View().ports[0].rt.state.AlternatePort?;
  }
}
