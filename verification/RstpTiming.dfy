/** What the RSTP machines promise about time: ticks of the one-second timer against the number of
    BPDUs sent (17.13.12 of IEEE 802.1D-2004) and against the move from blocking to forwarding. */
module RstpTiming {
  import opened RstpPort
  import opened RstpBridge
  import opened RstpSafety

  /** The ticks among events j .. k - 1. */
  function Ticks(es: seq<Event>, j: nat, k: nat): nat
    requires j <= k <= |es|
    decreases k
  {
    if j == k then 0 else Ticks(es, j, k - 1) + if es[k - 1].Tick? then 1 else 0
  }

  lemma TicksNext(es: seq<Event>, j: nat, k: nat)
    requires j < k <= |es|
    ensures Ticks(es, j, k) == Ticks(es, j, k - 1) + if es[k - 1].Tick? then 1 else 0
  {
  }

  lemma {:induction false} PortsStay(bs: seq<Bridge>, es: seq<Event>, j: nat, k: nat)
    requires IsRun(bs, es) && j <= k < |bs|
    ensures |bs[j].ports| <= |bs[k].ports|
  {
    if j < k {
      PortsStay(bs, es, j, k - 1);
      assert StepAt(bs, es, k - 1);
    }
  }

  /** What the next event of a run does to a port that is there already. */
  lemma RunStep(bs: seq<Bridge>, es: seq<Event>, k: nat, i: nat)
    requires IsRun(bs, es) && k < |es| && i < |bs[k].ports|
    ensures Known(bs[k], es[k]) && i < |bs[k + 1].ports|
    ensures bs[k + 1].ports[i] == StepOn(bs[k], es[k], i)
    ensures Safe(bs[k].ports[i])
  {
    assert StepAt(bs, es, k);
    StepIsLocal(bs[k], es[k], i);
    RunsAreSafe(bs, es, k);
  }

  // ----- Transmission -------------------------------------------------------

  /** Event m makes port i send a BPDU. */
  predicate SendsAt(b: Bridge, e: Event, i: nat)
    requires i < |b.ports|
  {
    e == PtxTurn(i) && Sends(b.ports[i])
  }

  /** The BPDUs that port i sends in events j .. k - 1. */
  function Sent(bs: seq<Bridge>, es: seq<Event>, i: nat, j: nat, k: nat): nat
    requires IsRun(bs, es) && j <= k <= |es| && i < |bs[j].ports|
    decreases k
  {
    if j == k then 0
    else
      PortsStay(bs, es, j, k - 1);
      Sent(bs, es, i, j, k - 1) + if SendsAt(bs[k - 1], es[k - 1], i) then 1 else 0
  }

  predicate TxSafe(t: Tx) {
    && t.txCount <= 6
    && (t.state.TransmitInit? ==> t.txCount == 0)
    && (t.state.TransmitConfig? || t.state.TransmitTcn? || t.state.TransmitRstp? ==> t.txCount < 6)
  }

  /** Every event lets the count rise by what is sent and fall by what ticks. */
  lemma TxStep(b: Bridge, e: Event, i: nat)
    requires Known(b, e) && i < |b.ports| && TxSafe(b.ports[i].tx)
    ensures TxSafe(StepOn(b, e, i).tx)
    ensures b.ports[i].tx.txCount + (if SendsAt(b, e, i) then 1 else 0)
              <= StepOn(b, e, i).tx.txCount + (if e.Tick? then 1 else 0)
  {
    match e
    case PimTurn(_) => PimShape(b.ports[i]);
    case PrtTurn(j) => PrtTxShape(b.ports[j]); TreeTxShape(Preempted(b.ports[j]).rt.state, b.ports[i]);
    case PrsTurn => PrsOn(b, i);
    case _ =>
  }

  lemma PrtTxShape(p: Port)
    ensures PrtCall(p).tx == p.tx.(newInfo := PrtCall(p).tx.newInfo)
  {
    var q := PrtTree(Preempted(p).rt.state, Preempted(p));
    assert q.tx == p.tx;
    OwnTxShape(q);
  }

  lemma OwnTxShape(q: Port)
    ensures PrtOwn(q).tx == q.tx.(newInfo := PrtOwn(q).tx.newInfo)
  {
  }

  lemma TreeTxShape(state: Prt, p: Port)
    ensures PrtTree(state, p).tx == p.tx
  {
  }

  lemma {:induction false} RunsAreTxSafe(bs: seq<Bridge>, es: seq<Event>, k: nat, i: nat)
    requires IsRun(bs, es) && k < |bs| && i < |bs[k].ports|
    ensures TxSafe(bs[k].ports[i].tx)
  {
    if k > 0 {
      assert StepAt(bs, es, k - 1);
      if i < |bs[k - 1].ports| {
        RunsAreTxSafe(bs, es, k - 1, i);
        TxStep(bs[k - 1], es[k - 1], i);
        StepIsLocal(bs[k - 1], es[k - 1], i);
      }
    }
  }

  ghost predicate AllTxSafe(b: Bridge) {
    forall i | 0 <= i < |b.ports| :: TxSafe(b.ports[i].tx)
  }

  lemma {:induction false} SentIsPaidFor(bs: seq<Bridge>, es: seq<Event>, i: nat, j: nat, k: nat)
    requires IsRun(bs, es) && j <= k <= |es| && i < |bs[j].ports| <= |bs[k].ports|
    ensures bs[j].ports[i].tx.txCount + Sent(bs, es, i, j, k) <= bs[k].ports[i].tx.txCount + Ticks(es, j, k)
    decreases k
  {
    if j < k {
      PortsStay(bs, es, j, k - 1);
      SentIsPaidFor(bs, es, i, j, k - 1);
      RunStep(bs, es, k - 1, i);
      RunsAreTxSafe(bs, es, k - 1, i);
      TxStep(bs[k - 1], es[k - 1], i);
    }
  }

  /** In any stretch of any run a port sends at most six BPDUs more than the clock ticks. */
  lemma TransmitRateBound(bs: seq<Bridge>, es: seq<Event>, i: nat, j: nat, k: nat)
    requires IsRun(bs, es) && j <= k <= |es| && i < |bs[j].ports|
    ensures Sent(bs, es, i, j, k) <= 6 + Ticks(es, j, k)
  {
    PortsStay(bs, es, j, k);
    SentIsPaidFor(bs, es, i, j, k);
    RunsAreTxSafe(bs, es, k, i);
  }

  // ----- Forward delay ------------------------------------------------------

  /** At this event the machine of port i, designated, may move on because it was agreed rather than
      because its timer ran out. */
  predicate AgreedDecision(b: Bridge, e: Event, i: nat)
    requires i < |b.ports|
  {
    e == PrtTurn(i) && Preempted(b.ports[i]).rt.state.DesignatedPort? && b.ports[i].hs.agreed
  }

  predicate AboutToForward(t: Transitions) { t.state.RootForward? || t.state.DesignatedForward? }

  predicate AboutToLearn(t: Transitions) { t.state.RootLearn? || t.state.DesignatedLearn? }

  /** With `ticks` gone since a moment when the port did not learn and had `d` on its timer, this is
      where the role machine can be. */
  predicate OnSchedule(t: Transitions, d: nat, ticks: nat) {
    if t.forward || AboutToForward(t) then ticks >= d + 15
    else if t.learn then t.fdWhile + ticks >= d + 15
    else if AboutToLearn(t) then ticks >= d
    else t.fdWhile + ticks >= d
  }

  lemma TickOnSchedule(p: Port, d: nat, ticks: nat)
    requires OnSchedule(p.rt, d, ticks)
    ensures OnSchedule(TickPort(p).rt, d, ticks + 1)
  {
  }

  lemma CheckOnSchedule(t: Transitions, selectedRole: Role, d: nat, ticks: nat)
    requires d <= 15 && OnSchedule(t, d, ticks)
    ensures OnSchedule(CheckGlobal(t, selectedRole), d, ticks)
  {
  }

  lemma EntryOnSchedule(p: Port, d: nat, ticks: nat)
    requires d <= 15 && OnSchedule(p.rt, d, ticks) && Ready(p.rt, p.sel.selectedRole)
    ensures OnSchedule(Entry(p).rt, d, ticks)
  {
  }

  lemma DecisionOnSchedule(p: Port, d: nat, ticks: nat)
    requires OnSchedule(p.rt, d, ticks) && RolesSafe(p.rt) && ConstantsSafe(p.fixed)
    ensures p.rt.state.RootPort? ==> OnSchedule(Follow(p.rt, RootDecision(p)), d, ticks)
    ensures p.rt.state.DesignatedPort? && !p.hs.agreed ==> OnSchedule(Follow(p.rt, DesignatedDecision(p)), d, ticks)
    ensures p.rt.state.AlternatePort? ==> OnSchedule(Follow(p.rt, AlternateDecision(p)), d, ticks)
  {
  }

  lemma WaitOnSchedule(p: Port, d: nat, ticks: nat)
    requires d <= 15 && OnSchedule(p.rt, d, ticks) && Ready(p.rt, p.sel.selectedRole)
    requires !p.sel.selectedRole.RoleAlternateBackup? && ConstantsSafe(p.fixed) && Waits(p.rt.state)
    requires p.rt.state.DesignatedPort? ==> !p.hs.agreed
    ensures OnSchedule(PrtOwn(p).rt, d, ticks)
  {
    EntryIsSafe(p);
    EntryOnSchedule(p, d, ticks);
    var q := if p.rt.exec then p else Entry(p);
    match p.rt.state
    case DisablePort =>
    case BlockPort =>
    case DisabledPort =>
    case _ => DecisionOnSchedule(q, d, ticks);
  }

  lemma ActionOnSchedule(p: Port, d: nat, ticks: nat)
    requires d <= 15 && OnSchedule(p.rt, d, ticks) && RolesSafe(p.rt) && !Waits(p.rt.state)
    ensures OnSchedule(PrtOwn(p).rt, d, ticks)
  {
  }

  lemma TurnOnSchedule(p: Port, d: nat, ticks: nat)
    requires d <= 15 && OnSchedule(p.rt, d, ticks) && Safe(p)
    requires Preempted(p).rt.state.DesignatedPort? ==> !p.hs.agreed
    ensures OnSchedule(PrtCall(p).rt, d, ticks)
  {
    PreemptedIsReady(p.rt, p.sel.selectedRole);
    CheckOnSchedule(p.rt, p.sel.selectedRole, d, ticks);
    var q := PrtTree(Preempted(p).rt.state, Preempted(p));
    assert q.rt == Preempted(p).rt && q.hs.agreed == p.hs.agreed && q.sel == p.sel && q.fixed == p.fixed;
    if Waits(q.rt.state) {
      WaitOnSchedule(q, d, ticks);
    } else {
      ActionOnSchedule(q, d, ticks);
    }
  }

  lemma EventOnSchedule(b: Bridge, e: Event, i: nat, d: nat, ticks: nat)
    requires Known(b, e) && i < |b.ports| && Safe(b.ports[i])
    requires d <= 15 && OnSchedule(b.ports[i].rt, d, ticks) && !AgreedDecision(b, e, i)
    ensures OnSchedule(StepOn(b, e, i).rt, d, ticks + if e.Tick? then 1 else 0)
  {
    match e
    case Tick => TickOnSchedule(b.ports[i], d, ticks);
    case PimTurn(_) => PimShape(b.ports[i]);
    case PrtTurn(j) => if i == j { TurnOnSchedule(b.ports[i], d, ticks); }
    case PrsTurn => PrsOn(b, i);
    case _ =>
  }

  ghost predicate Unagreed(bs: seq<Bridge>, es: seq<Event>, i: nat, m: nat) {
    m < |es| && m < |bs| && i < |bs[m].ports| && !AgreedDecision(bs[m], es[m], i)
  }

  ghost predicate NoAgreedDecision(bs: seq<Bridge>, es: seq<Event>, i: nat, j: nat, k: nat) {
    forall m | j <= m < k :: Unagreed(bs, es, i, m)
  }

  lemma {:induction false} RunOnSchedule(bs: seq<Bridge>, es: seq<Event>, i: nat, j: nat, k: nat, d: nat)
    requires IsRun(bs, es) && j <= k < |bs| && i < |bs[j].ports| && i < |bs[k].ports| && d <= 15
    requires var p := bs[j].ports[i]; !p.rt.learn && p.rt.fdWhile >= d && (AboutToLearn(p.rt) ==> d == 0)
    requires NoAgreedDecision(bs, es, i, j, k)
    ensures OnSchedule(bs[k].ports[i].rt, d, Ticks(es, j, k))
  {
    if j < k {
      PortsStay(bs, es, j, k - 1);
      RunOnSchedule(bs, es, i, j, k - 1, d);
      RunStep(bs, es, k - 1, i);
      assert Unagreed(bs, es, i, k - 1);
      EventOnSchedule(bs[k - 1], es[k - 1], i, d, Ticks(es, j, k - 1));
    } else {
      RunsAreSafe(bs, es, j);
      assert Safe(bs[j].ports[i]);
    }
  }

  /** On every run, a port that at moment j is not learning and has `d` seconds on its forward delay
      timer, and that forwards at moment k, has waited d + 15 ticks in between, unless it was agreed
      when its machine decided, designated, to move on. */
  lemma ForwardDelay(bs: seq<Bridge>, es: seq<Event>, i: nat, j: nat, k: nat, d: nat)
    requires IsRun(bs, es) && j <= k < |bs| && i < |bs[j].ports| && i < |bs[k].ports| && d <= 15
    requires var p := bs[j].ports[i]; !p.rt.learn && p.rt.fdWhile >= d && (AboutToLearn(p.rt) ==> d == 0)
    requires NoAgreedDecision(bs, es, i, j, k)
    ensures bs[k].ports[i].rt.forward ==> Ticks(es, j, k) >= d + 15
  {
    RunOnSchedule(bs, es, i, j, k, d);
  }

  /** A designated port that discards starts both delays again: thirty ticks to forwarding. */
  lemma ThirtyTicksFromDiscard(bs: seq<Bridge>, es: seq<Event>, i: nat, j: nat, k: nat)
    requires IsRun(bs, es) && j < k < |bs| && i < |bs[j].ports| && i < |bs[k].ports|
    requires es[j] == PrtTurn(i) && Preempted(bs[j].ports[i]).rt.state.DesignatedDiscard?
    requires NoAgreedDecision(bs, es, i, j + 1, k)
    ensures bs[k].ports[i].rt.forward ==> Ticks(es, j + 1, k) >= 30
  {
    RunStep(bs, es, j, i);
    DiscardRestartsTheTimer(bs[j].ports[i]);
    assert StepOn(bs[j], es[j], i) == PrtCall(bs[j].ports[i]);
    ForwardDelay(bs, es, i, j + 1, k, 15);
  }

  lemma DiscardRestartsTheTimer(p: Port)
    requires Preempted(p).rt.state.DesignatedDiscard?
    ensures var t := PrtCall(p).rt; !t.learn && t.fdWhile == 15 && t.state.DesignatedPort?
  {
    var q := PrtTree(Preempted(p).rt.state, Preempted(p));
    assert q == Preempted(p);
  }

  /** The state machine follows: frames are forwarded no earlier than that either. */
  lemma {:induction false} FramesWaitToo(bs: seq<Bridge>, es: seq<Event>, i: nat, j: nat, k: nat, d: nat)
    requires IsRun(bs, es) && j <= k < |bs| && i < |bs[j].ports| && i < |bs[k].ports| && d <= 15
    requires var p := bs[j].ports[i]; !p.rt.learn && p.rt.fdWhile >= d && (AboutToLearn(p.rt) ==> d == 0)
    requires var s := bs[j].ports[i].st; !s.forwarding && !s.state.Forwarding?
    requires NoAgreedDecision(bs, es, i, j, k)
    ensures var s := bs[k].ports[i].st; s.forwarding || s.state.Forwarding? ==> Ticks(es, j, k) >= d + 15
  {
    if j < k {
      PortsStay(bs, es, j, k - 1);
      FramesWaitToo(bs, es, i, j, k - 1, d);
      ForwardDelay(bs, es, i, j, k - 1, d);
      RunStep(bs, es, k - 1, i);
      StateOnlyFollows(bs[k - 1], es[k - 1], i);
      TicksNext(es, j, k);
    }
  }

  lemma StateOnlyFollows(b: Bridge, e: Event, i: nat)
    requires Known(b, e) && i < |b.ports| && Safe(b.ports[i])
    ensures var s, s' := b.ports[i].st, StepOn(b, e, i).st;
            !s.forwarding && !s.state.Forwarding? && !b.ports[i].rt.forward ==>
              !s'.forwarding && !s'.state.Forwarding?
  {
    match e
    case PimTurn(_) => PimShape(b.ports[i]);
    case PrtTurn(j) =>
      PrtOwnShape(PrtTree(Preempted(b.ports[i]).rt.state, Preempted(b.ports[i])));
    case PrsTurn => PrsOn(b, i);
    case _ =>
  }
}
