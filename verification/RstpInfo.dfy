/** The Port Information machine (17.27 of IEEE 802.1D-2004): what received BPDUs may change. */
module RstpInfo {
  import opened Vector
  import opened RstpPort
  import opened RstpBridge
  import opened RstpTiming

  /** Of designated messages, after the machine has read them, a repeated one is exactly one that
      says what the port holds already, a superior one is exactly another that is no worse, and an
      inferior one is exactly one that is worse. */
  lemma DesignatedMessages(i: Information)
    requires !i.buf.bpduType.BpduTcn? && ReadMessage(i).buf.flags.role.RoleDesignated?
    ensures var m, cls := ReadMessage(i), Classify(ReadMessage(i));
            && (cls.RepeatedDesignated? <==> m.msgPriority == i.portPriority && m.msgTimes == i.portTimes)
            && (cls.InferiorDesignated? <==> Compare(i.portPriority, m.msgPriority) < 0)
            && (cls.SuperiorDesignated? <==>
                  Compare(m.msgPriority, i.portPriority) <= 0
                  && (m.msgPriority, m.msgTimes) != (i.portPriority, i.portTimes))
  {
    var m := ReadMessage(i);
    CompareIsEquality(m.msgPriority, i.portPriority);
    CompareIsAntisymmetric(m.msgPriority, i.portPriority);
  }

  /** Only a message that is no worse is ever about to be recorded. */
  predicate InfoSafe(i: Information) {
    i.state.SuperiorDesignated? ==> Compare(i.msgPriority, i.portPriority) <= 0
  }

  /** Outside the states that record, a turn keeps the stored priority. */
  lemma OtherTurnsRecordNothing(p: Port)
    requires !p.info.state.SuperiorDesignated? && !p.info.state.PimUpdate? && !p.info.state.PimReceive?
    ensures PimCall(p).info.portPriority == p.info.portPriority
    ensures !PimCall(p).info.state.SuperiorDesignated?
  {
    match p.info.state
    case PimDisabled => OwnStatesRecordNothing(p);
    case PimAged => OwnStatesRecordNothing(p);
    case PimCurrent => OwnStatesRecordNothing(p);
    case RepeatedDesignated => MessagesRecordNothing(p);
    case InferiorDesignated => MessagesRecordNothing(p);
    case NotDesignated => MessagesRecordNothing(p);
    case PimOther =>
  }

  lemma OwnStatesRecordNothing(p: Port)
    ensures OnDisabled(p).info.portPriority == OnAged(p).info.portPriority == p.info.portPriority
    ensures OnCurrent(p).info.portPriority == p.info.portPriority
    ensures p.info.state.PimDisabled? ==> !OnDisabled(p).info.state.SuperiorDesignated?
    ensures p.info.state.PimAged? ==> !OnAged(p).info.state.SuperiorDesignated?
    ensures p.info.state.PimCurrent? ==> !OnCurrent(p).info.state.SuperiorDesignated?
  {
  }

  lemma MessagesRecordNothing(p: Port)
    ensures OnRepeated(p).info.portPriority == p.info.portPriority && OnRepeated(p).info.state.PimCurrent?
    ensures OnInferior(p).info.portPriority == p.info.portPriority && OnInferior(p).info.state.PimCurrent?
    ensures OnNotDesignated(p).info.portPriority == p.info.portPriority && OnNotDesignated(p).info.state.PimCurrent?
  {
  }

  lemma ReceiveChecksFirst(p: Port)
    ensures InfoSafe(OnReceive(p).info) && OnReceive(p).info.portPriority == p.info.portPriority
  {
    var m := ReadMessage(p.info);
    assert m.portPriority == p.info.portPriority;
    assert Classify(m).SuperiorDesignated? ==> Compare(m.msgPriority, m.portPriority) <= 0;
  }

  lemma RecordingTurns(p: Port)
    ensures OnSuperior(p).info.portPriority == p.info.msgPriority && OnSuperior(p).info.state.PimCurrent?
    ensures OnUpdate(p).info.state.PimCurrent?
    ensures !p.info.exec ==> OnUpdate(p).info.infoIs.InfoMine?
    ensures p.info.exec ==> OnUpdate(p).info.portPriority == p.info.portPriority
  {
  }

  lemma PimKeepsInfoSafe(p: Port)
    requires InfoSafe(p.info)
    ensures InfoSafe(PimCall(p).info)
    ensures p.info.infoIs.InfoReceived? && PimCall(p).info.infoIs.InfoReceived? ==>
              Compare(PimCall(p).info.portPriority, p.info.portPriority) <= 0
  {
    CompareIsEquality(p.info.portPriority, p.info.portPriority);
    RecordingTurns(p);
    match p.info.state
    case PimReceive => ReceiveChecksFirst(p);
    case SuperiorDesignated =>
    case PimUpdate =>
    case _ => OtherTurnsRecordNothing(p);
  }

  lemma EventKeepsInfoSafe(b: Bridge, e: Event, i: nat)
    requires Known(b, e) && i < |b.ports| && InfoSafe(b.ports[i].info)
    ensures InfoSafe(StepOn(b, e, i).info)
    ensures b.ports[i].info.infoIs.InfoReceived? && StepOn(b, e, i).info.infoIs.InfoReceived? ==>
              Compare(StepOn(b, e, i).info.portPriority, b.ports[i].info.portPriority) <= 0
  {
    CompareIsEquality(b.ports[i].info.portPriority, b.ports[i].info.portPriority);
    match e
    case PimTurn(j) => PimKeepsInfoSafe(b.ports[i]);
    case PrtTurn(_) => PrtInfoShape(b.ports[i]);
    case PrsTurn => PrsOn(b, i);
    case _ =>
  }

  lemma PrtInfoShape(p: Port)
    ensures PrtCall(p).info == p.info
  {
    var q := PrtTree(Preempted(p).rt.state, Preempted(p));
    assert q.info == p.info;
    OwnInfoShape(q);
  }

  lemma OwnInfoShape(q: Port)
    ensures PrtOwn(q).info == q.info
  {
  }

  ghost predicate AllInfoSafe(b: Bridge) {
    forall i | 0 <= i < |b.ports| :: InfoSafe(b.ports[i].info)
  }

  lemma {:induction false} RunsAreInfoSafe(bs: seq<Bridge>, es: seq<Event>, k: nat, i: nat)
    requires IsRun(bs, es) && k < |bs| && i < |bs[k].ports|
    ensures InfoSafe(bs[k].ports[i].info)
  {
    if k > 0 {
      assert StepAt(bs, es, k - 1);
      if i < |bs[k - 1].ports| {
        RunsAreInfoSafe(bs, es, k - 1, i);
        RunStep(bs, es, k - 1, i);
        EventKeepsInfoSafe(bs[k - 1], es[k - 1], i);
      }
    }
  }

  ghost predicate Receiving(bs: seq<Bridge>, i: nat, m: nat) {
    m < |bs| && i < |bs[m].ports| && bs[m].ports[i].info.infoIs.InfoReceived?
  }

  /** As long as a port goes on holding received information, what it holds never gets worse,
      whatever BPDUs arrive. */
  lemma {:induction false} ReceivedInformationNeverWorsens(bs: seq<Bridge>, es: seq<Event>, i: nat, j: nat, k: nat)
    requires IsRun(bs, es) && j <= k < |bs|
    requires forall m | j <= m <= k :: Receiving(bs, i, m)
    ensures Receiving(bs, i, j) && Receiving(bs, i, k)
    ensures Compare(bs[k].ports[i].info.portPriority, bs[j].ports[i].info.portPriority) <= 0
  {
    assert Receiving(bs, i, j) && Receiving(bs, i, k);
    if j == k {
      CompareIsEquality(bs[k].ports[i].info.portPriority, bs[k].ports[i].info.portPriority);
    } else {
      assert Receiving(bs, i, k - 1);
      ReceivedInformationNeverWorsens(bs, es, i, j, k - 1);
      RunsAreInfoSafe(bs, es, k - 1, i);
      RunStep(bs, es, k - 1, i);
      EventKeepsInfoSafe(bs[k - 1], es[k - 1], i);
      CompareIsTransitive(bs[k].ports[i].info.portPriority, bs[k - 1].ports[i].info.portPriority,
                          bs[j].ports[i].info.portPriority);
    }
  }

  /** A BPDU that has been accepted is a repetition when it arrives again: processing it once more
      leaves everything that the port holds as it is. */
  lemma AcceptedMessageIsRepeated(p: Port, again: Port)
    requires p.info.state.PimReceive? && Classify(ReadMessage(p.info)).SuperiorDesignated?
    requires var accepted := PimCall(PimCall(p)).info;
             && again.info.state.PimReceive? && again.info.buf == p.info.buf
             && again.info.portPriority == accepted.portPriority
             && again.info.portTimes == accepted.portTimes && again.info.infoIs == accepted.infoIs
    ensures var q := PimCall(again);
            && q.info.state.RepeatedDesignated?
            && PimCall(q).info.portPriority == p.info.buf.priority
            && PimCall(q).info.portTimes == p.info.buf.times
            && PimCall(q).info.infoIs.InfoReceived? && PimCall(q).info.state.PimCurrent?
            && PimCall(q).sel == again.sel
  {
    AcceptanceRecords(p);
    DesignatedMessages(again.info);
    assert PimCall(again) == OnReceive(again);
  }

  lemma AcceptanceRecords(p: Port)
    requires p.info.state.PimReceive? && Classify(ReadMessage(p.info)).SuperiorDesignated?
    ensures var accepted := PimCall(PimCall(p)).info;
            && accepted.portPriority == p.info.buf.priority && accepted.portTimes == p.info.buf.times
            && accepted.infoIs.InfoReceived?
  {
    var q := OnReceive(p);
    ReceiveReads(p);
    assert PimCall(p) == q;
    assert PimCall(q) == OnSuperior(q);
    SuperiorRecords(q);
  }

  lemma ReceiveReads(p: Port)
    requires Classify(ReadMessage(p.info)).SuperiorDesignated?
    ensures var q := OnReceive(p).info;
            q.state.SuperiorDesignated? && q.msgPriority == p.info.buf.priority && q.msgTimes == p.info.buf.times
  {
  }

  lemma SuperiorRecords(p: Port)
    ensures var q := OnSuperior(p).info;
            q.portPriority == p.info.msgPriority && q.portTimes == p.info.msgTimes && q.infoIs.InfoReceived?
  {
  }
}
