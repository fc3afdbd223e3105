/** What one turn of the information and transmit machines does (userspace/rstp/fsm/pim.c:155-324, ptx.c:114-201),
    variable by variable, how long received information lives, and when a BPDU goes out. */
module RstpMessages {
  import opened Vector
  import opened RstpPort
  import opened RstpBridge
  import opened RstpSafety

  // ----- Port Information ---------------------------------------------------

  /** The turn does the work of its state, and does not only wait in it. */
  predicate Working(i: Information, s: Pim) { i.state == s && !i.exec }

  /** What the port would send is no worse than what it holds as its own. */
  predicate OwnStands(p: Port) {
    p.info.infoIs.InfoMine? && Compare(p.sel.designatedPriority, p.info.portPriority) <= 0
  }

  /** What has been received is no worse than what the port holds from before. */
  predicate ReceivedStands(p: Port) {
    p.info.infoIs.InfoReceived? && Compare(p.info.msgPriority, p.info.portPriority) <= 0
  }

  /** A BPDU of this protocol version from a neighbour that learns, worse than what the port sends. */
  predicate Disputes(i: Information) {
    i.state.InferiorDesignated? && i.buf.bpduType.BpduRstp? && i.buf.flags.learn
  }

  /** The handshake after a turn. */
  function HandshakeAfter(p: Port): Handshake {
    var i, h, updates := p.info, p.hs, Working(p.info, PimUpdate);
    var agreed := if i.state.PimDisabled? || i.state.SuperiorDesignated? || Disputes(i) then false
                  else if i.state.NotDesignated? then i.buf.flags.agreement
                  else h.agreed && (updates ==> OwnStands(p));
    Handshake(
      agree := h.agree && !i.state.PimDisabled? && (i.state.SuperiorDesignated? ==> ReceivedStands(p)),
      agreed := agreed,
      proposed := (h.proposed && !i.state.PimDisabled? && !updates)
                  || ((i.state.SuperiorDesignated? || i.state.RepeatedDesignated?) && CarriesProposal(i)),
      proposing := h.proposing && !i.state.PimDisabled? && !updates && !i.state.SuperiorDesignated?
                   && !(i.state.NotDesignated? && i.buf.flags.agreement),
      disputed := h.disputed || Disputes(i),
      sync := h.sync,
      synced := h.synced && (updates ==> agreed),
      reRoot := h.reRoot,
      edgeDelayWhile := h.edgeDelayWhile,
      mdelayWhile := h.mdelayWhile)
  }

  lemma OwnStatesShake(p: Port)
    ensures p.info.state.PimDisabled? ==> OnDisabled(p).hs == HandshakeAfter(p)
    ensures p.info.state.PimAged? ==> OnAged(p).hs == HandshakeAfter(p)
    ensures p.info.state.PimCurrent? ==> OnCurrent(p).hs == HandshakeAfter(p)
    ensures p.info.state.PimReceive? ==> OnReceive(p).hs == HandshakeAfter(p)
  {
  }

  lemma UpdateShakes(p: Port)
    ensures p.info.state.PimUpdate? ==> OnUpdate(p).hs == HandshakeAfter(p)
  {
  }

  lemma DesignatedMessagesShake(p: Port)
    ensures p.info.state.SuperiorDesignated? ==> OnSuperior(p).hs == HandshakeAfter(p)
    ensures p.info.state.RepeatedDesignated? ==> OnRepeated(p).hs == HandshakeAfter(p)
  {
  }

  lemma OtherMessagesShake(p: Port)
    ensures p.info.state.InferiorDesignated? ==> OnInferior(p).hs == HandshakeAfter(p)
    ensures p.info.state.NotDesignated? ==> OnNotDesignated(p).hs == HandshakeAfter(p)
    ensures p.info.state.PimOther? ==> p.hs == HandshakeAfter(p)
  {
  }

  /** In every state of the machine. */
  lemma TurnShakes(p: Port)
    ensures PimCall(p).hs == HandshakeAfter(p)
  {
    OwnStatesShake(p);
    UpdateShakes(p);
    DesignatedMessagesShake(p);
    OtherMessagesShake(p);
    hide HandshakeAfter, OnDisabled, OnAged, OnUpdate, OnCurrent, OnReceive, OnSuperior, OnRepeated, OnInferior,
         OnNotDesignated;
  }

  /** The turn asks role selection to compute the roles anew. */
  predicate Reselects(i: Information) {
    i.state.PimDisabled? || i.state.SuperiorDesignated? || Working(i, PimAged)
  }

  /** What is not information: selection variables, and whether a BPDU is to be sent. */
  predicate TurnSelects(p: Port, q: Port) {
    && q.sel == p.sel.(reselect := p.sel.reselect || Reselects(p.info), selected := p.sel.selected && !Reselects(p.info),
                       updtInfo := p.sel.updtInfo && !Working(p.info, PimUpdate))
    && q.tx == p.tx.(newInfo := p.tx.newInfo || Working(p.info, PimUpdate))
    && q.rt == p.rt && q.st == p.st && q.fixed == p.fixed
  }

  /** The times that came with what a port accepts or hears repeated. */
  function AcceptedTimes(i: Information): Times { if i.state.SuperiorDesignated? then i.msgTimes else i.portTimes }

  /** Three hello times, unless the information is as old as it may get. */
  function LifeTime(t: Times): nat { if t.messageAge < t.maxAge then 3 * t.helloTime else 0 }

  /** Where the information of the port comes from, what it is, and how long it lives. */
  predicate TurnRecords(p: Port, i': Information) {
    var i := p.info;
    && i'.infoIs == (if i.state.PimDisabled? then InfoDisabled
                     else if Working(i, PimAged) then InfoAged
                     else if Working(i, PimUpdate) then InfoMine
                     else if i.state.SuperiorDesignated? then InfoReceived
                     else i.infoIs)
    && (i'.portPriority, i'.portTimes)
       == (if Working(i, PimUpdate) then (p.sel.designatedPriority, p.sel.designatedTimes)
           else if i.state.SuperiorDesignated? then (i.msgPriority, i.msgTimes)
           else (i.portPriority, i.portTimes))
    && i'.rcvdInfoWhile == (if i.state.PimDisabled? then 0
                            else if i.state.SuperiorDesignated? || i.state.RepeatedDesignated? then LifeTime(AcceptedTimes(i))
                            else i.rcvdInfoWhile)
    && (i'.msgPriority, i'.msgTimes)
       == (if i.state.PimReceive? && !i.buf.bpduType.BpduTcn? then (i.buf.priority, i.buf.times)
           else (i.msgPriority, i.msgTimes))
    && (i'.rcvdMsg <==> i.rcvdMsg && (i.state.PimAged? || i.state.PimUpdate? || i.state.PimCurrent? || i.state.PimReceive?))
  }

  lemma OwnStatesSelect(p: Port)
    ensures p.info.state.PimDisabled? ==> TurnSelects(p, OnDisabled(p))
    ensures p.info.state.PimAged? ==> TurnSelects(p, OnAged(p))
  {
  }

  lemma OwnStatesRecord(p: Port)
    ensures p.info.state.PimDisabled? ==> TurnRecords(p, OnDisabled(p).info)
    ensures p.info.state.PimAged? ==> TurnRecords(p, OnAged(p).info)
  {
  }

  lemma HeldStatesSelect(p: Port)
    ensures p.info.state.PimUpdate? ==> TurnSelects(p, OnUpdate(p))
    ensures p.info.state.PimCurrent? ==> TurnSelects(p, OnCurrent(p))
    ensures p.info.state.PimReceive? ==> TurnSelects(p, OnReceive(p))
  {
  }

  lemma UpdateRecords(p: Port)
    ensures p.info.state.PimUpdate? ==> TurnRecords(p, OnUpdate(p).info)
  {
  }

  lemma HeldStatesRecord(p: Port)
    ensures p.info.state.PimCurrent? ==> TurnRecords(p, OnCurrent(p).info)
    ensures p.info.state.PimReceive? ==> TurnRecords(p, OnReceive(p).info)
  {
  }

  lemma DesignatedStatesSelect(p: Port)
    ensures p.info.state.SuperiorDesignated? ==> TurnSelects(p, OnSuperior(p))
    ensures p.info.state.RepeatedDesignated? ==> TurnSelects(p, OnRepeated(p))
  {
  }

  lemma DesignatedStatesRecord(p: Port)
    ensures p.info.state.SuperiorDesignated? ==> TurnRecords(p, OnSuperior(p).info)
    ensures p.info.state.RepeatedDesignated? ==> TurnRecords(p, OnRepeated(p).info)
  {
  }

  lemma OtherStatesSelect(p: Port)
    ensures p.info.state.InferiorDesignated? ==> TurnSelects(p, OnInferior(p))
    ensures p.info.state.NotDesignated? ==> TurnSelects(p, OnNotDesignated(p))
    ensures p.info.state.PimOther? ==> TurnSelects(p, p.(info := Processed(p.info)))
  {
  }

  lemma OtherStatesRecord(p: Port)
    ensures p.info.state.InferiorDesignated? ==> TurnRecords(p, OnInferior(p).info)
    ensures p.info.state.NotDesignated? ==> TurnRecords(p, OnNotDesignated(p).info)
    ensures p.info.state.PimOther? ==> TurnRecords(p, p.(info := Processed(p.info)).info)
  {
  }

  lemma TurnRecordsAndSelects(p: Port)
    ensures TurnSelects(p, PimCall(p)) && TurnRecords(p, PimCall(p).info)
  {
    OwnStatesSelect(p);
    OwnStatesRecord(p);
    HeldStatesSelect(p);
    UpdateRecords(p);
    HeldStatesRecord(p);
    DesignatedStatesSelect(p);
    DesignatedStatesRecord(p);
    OtherStatesSelect(p);
    OtherStatesRecord(p);
    hide TurnSelects, TurnRecords, OnDisabled, OnAged, OnUpdate, OnCurrent, OnReceive, OnSuperior, OnRepeated, OnInferior,
         OnNotDesignated;
  }

  /** A topology change notification or flag is passed on by the states that accept a message. */
  lemma TopologyFlags(p: Port)
    ensures var i, i' := p.info, PimCall(p).info;
            var accepts := i.state.SuperiorDesignated? || i.state.RepeatedDesignated? || i.state.NotDesignated?;
            var tcn := i.buf.bpduType.BpduTcn?;
            && (i'.rcvdTc <==> i.rcvdTc || (accepts && !tcn && i.buf.flags.topologyChange))
            && (i'.rcvdTcAck <==> i.rcvdTcAck || (accepts && !tcn && i.buf.flags.topologyChangeAck))
            && (i'.rcvdTcn <==> i.rcvdTcn || ((accepts || i.state.PimReceive?) && tcn))
  {
    OwnStatesTopology(p);
    MessagesTopology(p);
    hide OnDisabled, OnAged, OnUpdate, OnCurrent, OnReceive, OnSuperior, OnRepeated, OnInferior, OnNotDesignated;
  }

  predicate SameTopology(i: Information, i': Information) {
    i'.rcvdTc == i.rcvdTc && i'.rcvdTcAck == i.rcvdTcAck && i'.rcvdTcn == i.rcvdTcn
  }

  lemma OwnStatesTopology(p: Port)
    ensures SameTopology(p.info, OnDisabled(p).info) && SameTopology(p.info, OnAged(p).info)
    ensures SameTopology(p.info, OnUpdate(p).info) && SameTopology(p.info, OnCurrent(p).info)
    ensures SameTopology(p.info.(rcvdTcn := p.info.rcvdTcn || p.info.buf.bpduType.BpduTcn?), OnReceive(p).info)
  {
  }

  lemma MessagesTopology(p: Port)
    ensures SameTopology(SetTcFlags(p.info), OnSuperior(p).info) && SameTopology(SetTcFlags(p.info), OnRepeated(p).info)
    ensures SameTopology(SetTcFlags(p.info), OnNotDesignated(p).info) && SameTopology(p.info, OnInferior(p).info)
  {
  }

  /** Where a turn goes. Update comes before age, age before a new message, and nothing is read while an
      update of the port's own information is due. */
  lemma TurnGoes(p: Port)
    ensures var i, s := p.info, PimCall(p).info.state;
            var updates := p.sel.selected && p.sel.updtInfo;
            var ages := i.infoIs.InfoReceived? && i.rcvdInfoWhile == 0 && !p.sel.updtInfo && !i.rcvdMsg;
            match i.state
            case PimDisabled => s.PimAged?
            case PimAged => s == if i.exec && updates then PimUpdate else PimAged
            case PimCurrent => s == if updates then PimUpdate
                                    else if ages then PimAged
                                    else if i.rcvdMsg && !p.sel.updtInfo then PimReceive
                                    else PimCurrent
            case PimReceive => !s.PimDisabled? && !s.PimAged? && !s.PimUpdate? && !s.PimCurrent? && !s.PimReceive?
            case _ => s.PimCurrent?
  {
    OwnStatesGo(p);
    MessagesGo(p);
    hide OnDisabled, OnAged, OnUpdate, OnCurrent, OnReceive, OnSuperior, OnRepeated, OnInferior, OnNotDesignated;
  }

  /** A state has done its work when the machine is still in it: but for the state of current information,
      which has none, every other one is entered anew. */
  lemma TurnStays(p: Port)
    ensures var i, i' := p.info, PimCall(p).info;
            i'.exec <==> i'.state == i.state && (i.state.PimAged? || (i.state.PimCurrent? && i.exec))
  {
    OwnStatesStay(p);
    MessagesStay(p);
    hide OnDisabled, OnAged, OnUpdate, OnCurrent, OnReceive, OnSuperior, OnRepeated, OnInferior, OnNotDesignated;
  }

  lemma OwnStatesStay(p: Port)
    ensures !OnDisabled(p).info.exec && !OnUpdate(p).info.exec
    ensures p.info.state.PimAged? ==> (OnAged(p).info.exec <==> OnAged(p).info.state.PimAged?)
    ensures p.info.state.PimCurrent? ==> (OnCurrent(p).info.exec <==> OnCurrent(p).info.state.PimCurrent? && p.info.exec)
  {
  }

  lemma MessagesStay(p: Port)
    ensures !OnReceive(p).info.exec && !OnSuperior(p).info.exec && !OnRepeated(p).info.exec
    ensures !OnInferior(p).info.exec && !OnNotDesignated(p).info.exec
  {
  }

  lemma OwnStatesGo(p: Port)
    ensures OnDisabled(p).info.state.PimAged? && OnUpdate(p).info.state.PimCurrent?
    ensures p.info.state.PimAged? ==>
              OnAged(p).info.state == if p.info.exec && p.sel.selected && p.sel.updtInfo then PimUpdate else PimAged
    ensures p.info.state.PimCurrent? ==>
              OnCurrent(p).info.state
              == if p.sel.selected && p.sel.updtInfo then PimUpdate
                 else if p.info.infoIs.InfoReceived? && p.info.rcvdInfoWhile == 0 && !p.sel.updtInfo && !p.info.rcvdMsg then
                   PimAged
                 else if p.info.rcvdMsg && !p.sel.updtInfo then PimReceive
                 else PimCurrent
  {
  }

  lemma MessagesGo(p: Port)
    ensures var s := OnReceive(p).info.state;
            !s.PimDisabled? && !s.PimAged? && !s.PimUpdate? && !s.PimCurrent? && !s.PimReceive?
    ensures OnSuperior(p).info.state.PimCurrent? && OnRepeated(p).info.state.PimCurrent?
    ensures OnInferior(p).info.state.PimCurrent? && OnNotDesignated(p).info.state.PimCurrent?
  {
  }

  /** A message that does not come from a designated port counts only if it comes from a root, alternate
      or backup port, and is no better than what the port holds: its sender has heard this port. */
  lemma AnswersAreHeard(i: Information)
    requires !i.buf.bpduType.BpduTcn? && !ReadMessage(i).buf.flags.role.RoleDesignated?
    ensures var m := ReadMessage(i);
            && m.msgPriority == i.buf.priority && m.msgTimes == i.buf.times && i.buf.bpduType != BpduConfig
            && Classify(m) == if (i.buf.flags.role.RoleRoot? || i.buf.flags.role.RoleAlternateBackup?)
                                 && Compare(i.buf.priority, i.portPriority) >= 0
                              then NotDesignated else PimOther
  {
  }

  // ----- How long information lives -----------------------------------------

  function Ticked(p: Port, n: nat): Port { if n == 0 then p else TickPort(Ticked(p, n - 1)) }

  function Later(timer: nat, n: nat): nat { if timer > n then timer - n else 0 }

  /** After n ticks, all nine timers of a port. */
  lemma {:induction false} TimersRunDown(p: Port, n: nat)
    ensures var q := Ticked(p, n);
            && q == p.(tx := q.tx, info := q.info, hs := q.hs, rt := q.rt)
            && q.tx == p.tx.(helloWhen := Later(p.tx.helloWhen, n), tcWhile := Later(p.tx.tcWhile, n),
                             txCount := Later(p.tx.txCount, n))
            && q.info == p.info.(rcvdInfoWhile := Later(p.info.rcvdInfoWhile, n))
            && q.hs == p.hs.(edgeDelayWhile := Later(p.hs.edgeDelayWhile, n), mdelayWhile := Later(p.hs.mdelayWhile, n))
            && q.rt == p.rt.(fdWhile := Later(p.rt.fdWhile, n), rrWhile := Later(p.rt.rrWhile, n),
                             rbWhile := Later(p.rt.rbWhile, n))
  {
    if n > 0 {
      TimersRunDown(p, n - 1);
    }
  }

  /** Information that a port accepts, or hears repeated, lives exactly for its life time: n ticks later,
      with no new message and nothing of its own to send, its machine goes to declare it aged exactly
      when that time is over. */
  lemma InformationLives(p: Port, n: nat)
    requires p.info.state.SuperiorDesignated? || (p.info.state.RepeatedDesignated? && p.info.infoIs.InfoReceived?)
    requires !p.sel.updtInfo
    ensures var q := Ticked(PimCall(p), n);
            PimCall(q).info.state == if n >= LifeTime(AcceptedTimes(p.info)) then PimAged else PimCurrent
  {
    hide Ticked;
    TimersRunDown(PimCall(p), n);
    AcceptedIsCurrent(p);
    var q := Ticked(PimCall(p), n);
    assert PimCall(q) == OnCurrent(q) by {
      assert q.info.state.PimCurrent?;
    }
  }

  lemma AcceptedIsCurrent(p: Port)
    requires p.info.state.SuperiorDesignated? || (p.info.state.RepeatedDesignated? && p.info.infoIs.InfoReceived?)
    ensures var i := PimCall(p).info;
            && i.state.PimCurrent? && i.infoIs.InfoReceived? && !i.rcvdMsg
            && i.rcvdInfoWhile == LifeTime(AcceptedTimes(p.info)) && PimCall(p).sel.updtInfo == p.sel.updtInfo
  {
    if p.info.state.SuperiorDesignated? {
      assert PimCall(p) == OnSuperior(p);
    } else {
      assert PimCall(p) == OnRepeated(p);
    }
  }

  /** What is aged is forgotten, and the roles are computed anew. */
  lemma AgedIsForgotten(p: Port)
    requires p.info.state.PimAged? && !p.info.exec
    ensures var q := PimCall(p);
            q.info.infoIs.InfoAged? && q.sel.reselect && !q.sel.selected && q.info.state.PimAged? && q.info.exec
  {
    assert PimCall(p) == OnAged(p);
  }

  // ----- Port Transmit ------------------------------------------------------

  /** The hello timer as the idle state finds it: two seconds again when it is entered. */
  function HelloWhen(t: Tx): nat { if t.exec then t.helloWhen else 2 }

  /** There is something to send, and it may be sent. */
  predicate Due(p: Port) { p.tx.newInfo && p.tx.txCount < 6 && HelloWhen(p.tx) > 0 && Settled(p) }

  /** An idle port sends exactly when something is due: an RST BPDU when it may, or else a notification
      on the root port and a configuration BPDU on a designated one. Otherwise it waits, or, the hello
      time being over, looks whether it is time to send anyway. */
  lemma SendsWhenDue(p: Port)
    requires p.tx.state.Idle?
    ensures var s, due := PtxCall(p).tx.state, Due(p);
            && (s.TransmitRstp? <==> due && p.tx.sendRSTP)
            && (s.TransmitTcn? <==> due && !p.tx.sendRSTP && p.rt.role.RoleRoot?)
            && (s.TransmitConfig? <==> due && !p.tx.sendRSTP && p.rt.role.RoleDesignated?)
            && (s.TransmitPeriodic? <==> HelloWhen(p.tx) == 0)
            && PtxCall(p).tx == p.tx.(state := s, exec := s.Idle?, helloWhen := HelloWhen(p.tx))
  {
  }

  /** What is sent is counted and no longer due; only the notification leaves an acknowledgement due. */
  lemma SendingIsCounted(p: Port)
    requires Sends(p)
    ensures PtxCall(p).tx == p.tx.(state := Idle, exec := false, newInfo := false, txCount := p.tx.txCount + 1,
                                   tcAck := p.tx.tcAck && p.tx.state.TransmitTcn?)
  {
  }

  /** The first turn finds something to send. */
  lemma FirstIsDue(p: Port)
    requires p.tx.state.TransmitInit?
    ensures PtxCall(p).tx == p.tx.(state := Idle, exec := false, newInfo := true, txCount := 0)
  {
  }

  /** When the hello time is over a port sends with its fourth turn, if it has not sent too much: exactly
      when there is something new, or it is designated, or it is the root port and tells of a topology
      change; and it may send at all. */
  lemma HelloIsSent(p: Port)
    requires p.tx.state.Idle? && p.tx.exec && p.tx.helloWhen == 0 && p.tx.txCount < 6 && Settled(p)
    ensures Sends(PtxCall(PtxCall(PtxCall(p))))
            <==> && (p.tx.newInfo || p.rt.role.RoleDesignated? || (p.rt.role.RoleRoot? && p.tx.tcWhile > 0))
                 && (p.tx.sendRSTP || p.rt.role.RoleRoot? || p.rt.role.RoleDesignated?)
  {
    SendsWhenDue(p);
    var q := PtxCall(p);
    assert q.tx.state.TransmitPeriodic? && q.rt == p.rt && q.sel == p.sel;
    var r := PtxCall(q);
    assert r.tx == q.tx.(newInfo := r.tx.newInfo, state := Idle, exec := false) && r.rt == p.rt && r.sel == p.sel;
    SendsWhenDue(r);
    hide PtxCall;
  }

  // ----- Port State Transition ----------------------------------------------

  /** A port that is told to do neither does neither after three turns. */
  lemma StateStops(s: StateOf)
    requires StatesSafe(s)
    ensures var t := PstNext(PstNext(PstNext(s, false, false), false, false), false, false);
            t.state.Discarding? && !t.learning && !t.forwarding
  {
  }

  /** Where a turn goes, and what it turns on and off. */
  lemma StateMoves(s: StateOf, learn: bool, forward: bool)
    ensures var t := PstNext(s, learn, forward);
            && (t.state.Learning? <==> (s.state.Discarding? && learn) || (s.state.Learning? && learn && !forward))
            && (t.state.Forwarding? <==> forward && !s.state.Discarding?)
            && (t.learning <==> if s.exec then s.learning else if s.state.Forwarding? then s.learning else s.state.Learning?)
            && (t.forwarding <==> if s.exec then s.forwarding else if s.state.Learning? then s.forwarding else s.state.Forwarding?)
            && (t.exec <==> t.state == s.state)
  {
  }

  // ----- The surroundings ---------------------------------------------------

  /** Only variables that the other machines and the receive thread set are different. */
  predicate OnlySurroundings(p: Port, q: Port) {
    && q.sel == p.sel && q.rt == p.rt && q.st == p.st && q.fixed == p.fixed
    && q.tx == p.tx.(sendRSTP := q.tx.sendRSTP, newInfo := q.tx.newInfo, tcAck := q.tx.tcAck, tcWhile := q.tx.tcWhile)
    && q.info == p.info.(rcvdMsg := q.info.rcvdMsg, rcvdTc := q.info.rcvdTc, rcvdTcAck := q.info.rcvdTcAck,
                         rcvdTcn := q.info.rcvdTcn, buf := q.info.buf)
    && q.hs == p.hs.(mdelayWhile := q.hs.mdelayWhile, edgeDelayWhile := q.hs.edgeDelayWhile)
  }

  lemma SurroundKeeps(p: Port, env: Surroundings)
    ensures OnlySurroundings(p, SurroundPort(p, env))
  {
  }

  lemma SurroundReaches(p: Port, q: Port) returns (env: Surroundings)
    requires OnlySurroundings(p, q)
    ensures SurroundPort(p, env) == q
  {
    env := Surroundings(q.info.rcvdMsg, q.tx.sendRSTP, q.tx.newInfo, q.tx.tcAck, q.info.rcvdTc, q.info.rcvdTcAck,
                        q.info.rcvdTcn, q.tx.tcWhile, q.hs.mdelayWhile, q.hs.edgeDelayWhile, q.info.buf);
  }

  /** They may take any values at all, and nothing else changes. */
  lemma SurroundingsAreFree(p: Port, q: Port)
    ensures (exists env :: SurroundPort(p, env) == q) <==> OnlySurroundings(p, q)
  {
    hide SurroundPort, OnlySurroundings;
    if env :| SurroundPort(p, env) == q {
      SurroundKeeps(p, env);
    }
    if OnlySurroundings(p, q) {
      var env := SurroundReaches(p, q);
    }
  }
}
