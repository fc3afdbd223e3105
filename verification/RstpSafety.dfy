/** What no run of the RSTP machines breaks, whatever the number of ports, the order of the turns
    and the placement of the ticks. */
module RstpSafety {
  import opened Vector
  import opened RstpPort
  import opened RstpBridge

  predicate BlockingRole(role: Role) {
    role.RoleDisabled? || role.RoleAlternate? || role.RoleBackup?
  }

  /** The state of the role machine belongs to the role of the port, and is about to forward only
      on a port that learns, about to learn only on one that does not. */
  predicate Consistent(t: Transitions) {
    match t.state
    case InitPort => t.role.RoleDisabled?
    case DisablePort => t.role.RoleDisabled?
    case DisabledPort => t.role.RoleDisabled?
    case RootForward => t.role.RoleRoot? && t.learn
    case RootPort => t.role.RoleRoot?
    case RootProposed => t.role.RoleRoot?
    case RootAgreed => t.role.RoleRoot?
    case ReRoot => t.role.RoleRoot?
    case RootLearn => t.role.RoleRoot? && !t.learn
    case ReRooted => t.role.RoleRoot?
    case DesignatedForward => t.role.RoleDesignated? && t.learn
    case DesignatedPort => t.role.RoleDesignated?
    case DesignatedPropose => t.role.RoleDesignated?
    case DesignatedSynced => t.role.RoleDesignated?
    case DesignatedRetired => t.role.RoleDesignated?
    case DesignatedLearn => t.role.RoleDesignated? && !t.learn
    case DesignatedDiscard => t.role.RoleDesignated?
    case BackupPort => false
    case _ => t.role.RoleAlternate? || t.role.RoleBackup?
  }

  /** States that are entered only after the port has been seen to have stopped. */
  predicate Stopped(state: Prt) {
    state.DisabledPort? || state.AlternatePort? || state.AlternateProposed? || state.AlternateAgreed?
  }

  /** The invariant of the role machine's own part. */
  predicate RolesSafe(t: Transitions) {
    && (t.forward ==> t.learn)
    && (BlockingRole(t.role) ==> !t.learn && !t.forward)
    && !t.role.RoleAlternateBackup?
    && Consistent(t)
  }

  /** The invariant of the state machine's own part. */
  predicate StatesSafe(s: StateOf) {
    && (s.forwarding ==> s.learning)
    && (s.state.Forwarding? ==> s.learning && (s.exec ==> s.forwarding))
    && (s.state.Learning? ==> !s.forwarding && (s.exec ==> s.learning))
    && (s.state.Discarding? && s.exec ==> !s.learning && !s.forwarding)
  }

  predicate ConstantsSafe(c: Constants) { !c.allSynced && !c.reRooted && !c.operEdge }

  /** The invariant of a port: its two machines, and that the state machine lags the role machine
      but never by a port that forwards after it was seen to have stopped. */
  predicate Safe(p: Port) {
    && RolesSafe(p.rt) && StatesSafe(p.st) && ConstantsSafe(p.fixed)
    && !p.sel.selectedRole.RoleAlternateBackup?
    && (Stopped(p.rt.state) ==> !p.st.forwarding && !p.st.state.Forwarding?)
  }

  ghost predicate AllSafe(b: Bridge) {
    forall i | 0 <= i < |b.ports| :: Safe(b.ports[i])
  }

  // ----- Each machine keeps it ----------------------------------------------

  lemma FreshIsSafe(portId: PortId, id: BridgeId)
    ensures Safe(FreshPort(portId, id))
  {
  }

  /** The information machine touches nothing that the invariant speaks of. */
  lemma PimShape(p: Port)
    ensures var q := PimCall(p);
            q.rt == p.rt && q.st == p.st && q.fixed == p.fixed
            && q.sel.selectedRole == p.sel.selectedRole
            && q.tx == p.tx.(newInfo := q.tx.newInfo)
  {
  }

  lemma PstNextIsSafe(s: StateOf, learn: bool, forward: bool)
    requires StatesSafe(s)
    ensures StatesSafe(PstNext(s, learn, forward))
    ensures !learn && !forward && !s.forwarding && !s.state.Forwarding? ==>
              !PstNext(s, learn, forward).forwarding && !PstNext(s, learn, forward).state.Forwarding?
  {
  }

  lemma PstKeepsSafe(p: Port)
    requires Safe(p)
    ensures Safe(PstCall(p))
  {
    PstNextIsSafe(p.st, p.rt.learn, p.rt.forward);
  }

  /** A port about to take its turn: either its role stands and its state is consistent with it, or
      the machine has been pre-empted and is about to take the new role. */
  predicate Ready(t: Transitions, selectedRole: Role) {
    && (t.forward ==> t.learn)
    && (BlockingRole(t.role) ==> !t.learn && !t.forward)
    && !t.role.RoleAlternateBackup?
    && if t.role == selectedRole then Consistent(t)
       else !t.exec && t.state == match selectedRole
                                  case RoleDisabled => DisablePort
                                  case RoleRoot => RootPort
                                  case RoleDesignated => DesignatedPort
                                  case _ => BlockPort
  }

  lemma PreemptedIsReady(t: Transitions, selectedRole: Role)
    requires RolesSafe(t) && !selectedRole.RoleAlternateBackup?
    ensures Ready(CheckGlobal(t, selectedRole), selectedRole)
    ensures Stopped(CheckGlobal(t, selectedRole).state) ==> CheckGlobal(t, selectedRole) == t
  {
  }

  lemma EntryIsSafe(p: Port)
    requires Ready(p.rt, p.sel.selectedRole) && !p.sel.selectedRole.RoleAlternateBackup?
    ensures var q := if p.rt.exec then p else Entry(p);
            && RolesSafe(q.rt) && q.rt.state == p.rt.state
            && q.st == p.st && q.fixed == p.fixed && q.sel == p.sel
            && (q.rt.state.DisablePort? || q.rt.state.BlockPort? ==> !q.rt.learn && !q.rt.forward)
  {
  }

  lemma DecisionIsSafe(p: Port)
    requires RolesSafe(p.rt) && ConstantsSafe(p.fixed)
    ensures p.rt.state.RootPort? ==> RolesSafe(Follow(p.rt, RootDecision(p)))
                                     && !Stopped(Follow(p.rt, RootDecision(p)).state)
    ensures p.rt.state.DesignatedPort? ==> RolesSafe(Follow(p.rt, DesignatedDecision(p)))
                                           && !Stopped(Follow(p.rt, DesignatedDecision(p)).state)
    ensures p.rt.state.AlternatePort? ==> RolesSafe(Follow(p.rt, AlternateDecision(p)))
  {
  }

  /** The port has stopped when the wait for it ends: discarding, or still about to learn, but
      neither forwarding nor about to. */
  lemma StopDecisionIsSafe(p: Port, next: Prt)
    requires RolesSafe(p.rt) && StatesSafe(p.st)
    requires (p.rt.state.DisablePort? && next.DisabledPort?) || (p.rt.state.BlockPort? && next.AlternatePort?)
    ensures RolesSafe(Follow(p.rt, StopDecision(p, next)))
    ensures Stopped(Follow(p.rt, StopDecision(p, next)).state) ==> !p.st.forwarding && !p.st.state.Forwarding?
  {
  }

  predicate Waits(state: Prt) {
    state.DisablePort? || state.BlockPort? || state.DisabledPort?
    || state.RootPort? || state.DesignatedPort? || state.AlternatePort?
  }

  /** States that act once and go back: they keep the port's invariant, and lead to a stopped state
      only from one. */
  lemma ActionIsSafe(p: Port)
    requires RolesSafe(p.rt) && !Waits(p.rt.state)
    ensures RolesSafe(PrtOwn(p).rt)
    ensures Stopped(PrtOwn(p).rt.state) ==> Stopped(p.rt.state)
  {
  }

  lemma PrtOwnShape(p: Port)
    ensures PrtOwn(p).st == p.st && PrtOwn(p).fixed == p.fixed && PrtOwn(p).sel == p.sel
  {
  }

  lemma WaitIsSafe(p: Port)
    requires Ready(p.rt, p.sel.selectedRole) && StatesSafe(p.st) && ConstantsSafe(p.fixed)
    requires !p.sel.selectedRole.RoleAlternateBackup? && Waits(p.rt.state)
    requires Stopped(p.rt.state) ==> !p.st.forwarding && !p.st.state.Forwarding?
    ensures RolesSafe(PrtOwn(p).rt)
    ensures Stopped(PrtOwn(p).rt.state) ==> !p.st.forwarding && !p.st.state.Forwarding?
  {
    EntryIsSafe(p);
    var q := if p.rt.exec then p else Entry(p);
    match p.rt.state
    case DisablePort => StopDecisionIsSafe(q, DisabledPort);
    case BlockPort => StopDecisionIsSafe(q, AlternatePort);
    case DisabledPort =>
    case _ => DecisionIsSafe(q);
  }

  lemma PrtOwnIsSafe(p: Port)
    requires Ready(p.rt, p.sel.selectedRole) && StatesSafe(p.st) && ConstantsSafe(p.fixed)
    requires !p.sel.selectedRole.RoleAlternateBackup?
    requires Stopped(p.rt.state) ==> !p.st.forwarding && !p.st.state.Forwarding?
    ensures Safe(PrtOwn(p))
  {
    PrtOwnShape(p);
    if Waits(p.rt.state) {
      WaitIsSafe(p);
    } else {
      ActionIsSafe(p);
    }
  }

  lemma PrtKeepsSafe(p: Port)
    requires Safe(p)
    ensures Safe(PrtCall(p))
  {
    PreemptedIsReady(p.rt, p.sel.selectedRole);
    PrtOwnIsSafe(PrtTree(Preempted(p).rt.state, Preempted(p)));
  }

  lemma TreeKeepsSafe(state: Prt, p: Port)
    requires Safe(p)
    ensures Safe(PrtTree(state, p))
  {
  }

  lemma PortStepKeepsSafe(b: Bridge, e: Event, i: nat)
    requires Known(b, e) && i < |b.ports| && Safe(b.ports[i])
    ensures Safe(StepOn(b, e, i))
  {
    var p := b.ports[i];
    match e
    case PimTurn(_) => PimShape(p);
    case PrtTurn(j) => PrtKeepsSafe(p); TreeKeepsSafe(Preempted(b.ports[j]).rt.state, p);
    case PstTurn(_) => PstKeepsSafe(p);
    case PrsTurn => PrsOn(b, i);
    case _ =>
  }

  lemma StepKeepsSafe(b: Bridge, e: Event)
    requires AllSafe(b) && Known(b, e)
    ensures AllSafe(Step(b, e))
  {
    var c := Step(b, e);
    forall i | 0 <= i < |c.ports|
      ensures Safe(c.ports[i])
    {
      if i < |b.ports| {
        StepIsLocal(b, e, i);
        PortStepKeepsSafe(b, e, i);
      } else {
        FreshIsSafe(e.portId, b.id);
      }
    }
  }

  // ----- Whole runs ---------------------------------------------------------

  lemma {:induction false} RunsAreSafe(bs: seq<Bridge>, es: seq<Event>, k: nat)
    requires IsRun(bs, es) && k < |bs|
    ensures AllSafe(bs[k])
  {
    if k > 0 {
      RunsAreSafe(bs, es, k - 1);
      assert StepAt(bs, es, k - 1);
      StepKeepsSafe(bs[k - 1], es[k - 1]);
    }
  }

  /** Loop safety of one bridge on every run: a port forwards only if it learns, a port without an
      active role is told to do neither, and one whose role machine has gone on to a blocking state
      does not forward although its state machine may lag behind. The backup state is never
      entered, because no port ever has the role value that its guard asks for. */
  lemma BlockedPortsNeverForward(bs: seq<Bridge>, es: seq<Event>, k: nat, i: nat)
    requires IsRun(bs, es) && k < |bs| && i < |bs[k].ports|
    ensures var p := bs[k].ports[i];
            && (p.rt.forward ==> p.rt.learn) && (p.st.forwarding ==> p.st.learning)
            && (BlockingRole(p.rt.role) ==> !p.rt.learn && !p.rt.forward)
            && (Stopped(p.rt.state) ==> BlockingRole(p.rt.role) && !p.st.forwarding)
            && !p.rt.state.BackupPort?
  {
    RunsAreSafe(bs, es, k);
    assert Safe(bs[k].ports[i]);
  }

  /** The claim does not extend to learning. A port in a blocking state learns after its next state
      turn exactly when that machine had already decided to, and stops with the turn after. */
  lemma BlockedPortsMayLearnForOneTurn(p: Port)
    requires Safe(p) && Stopped(p.rt.state)
    ensures PstCall(p).st.learning <==> p.st.state.Learning?
    ensures !PstCall(PstCall(p)).st.learning
  {
    assert BlockingRole(p.rt.role);
  }

  /** Such a port exists: designated, about to learn, and then told to be an alternate port. */
  lemma BlockedPortThatLearns() returns (p: Port)
    ensures Safe(p) && p.rt.state.DesignatedPort?
    ensures Stopped(PrtCall(p).rt.state) && PstCall(PrtCall(p)).st.learning
  {
    p := FreshPort([0x80, 1], seq(8, _ => 0));
    p := p.(rt := Transitions(DesignatedPort, true, RoleDesignated, true, false, 15, 0, 0),
            st := StateOf(Learning, false, false, false),
            sel := p.sel.(selectedRole := RoleAlternate, selected := true));
    assert CheckGlobal(p.rt, RoleAlternate) == Enter(p.rt, BlockPort);
  }
}
