/** What one turn of the role machine does (userspace/rstp/fsm/prt.c:107-503), variable by variable: in which
    of its 22 states each is set and in which it is cleared, and where each waiting state goes. */
module RstpActions {
  import opened Vector
  import opened RstpPort
  import opened RstpMessages
  import opened RstpBridge
  import opened RstpSafety
  import opened RstpTiming

  // ----- What a turn sets ---------------------------------------------------

  /** A state whose entry action is still to be done stops the port. */
  predicate StopsOnEntry(t: Transitions) { !t.exec && (t.state.DisablePort? || t.state.BlockPort?) }

  /** ... or marks it as one that takes no part. */
  predicate RetiresOnEntry(t: Transitions) { !t.exec && (t.state.DisabledPort? || t.state.AlternatePort?) }

  /** The variables of the role machine after a turn that finds it, pre-empted or not, at `t`. */
  predicate MovesRoles(t: Transitions, selectedRole: Role, t': Transitions) {
    var s := t.state;
    && (t'.learn <==> (t.learn || s.RootLearn? || s.DesignatedLearn?)
                      && !s.InitPort? && !s.DesignatedDiscard? && !StopsOnEntry(t))
    && (t'.forward <==> (t.forward || s.RootForward? || s.DesignatedForward?)
                        && !s.InitPort? && !s.DesignatedDiscard? && !StopsOnEntry(t))
    && t'.role == (if s.InitPort? then RoleDisabled
                   else if StopsOnEntry(t) then selectedRole
                   else if !t.exec && s.RootPort? then RoleRoot
                   else if !t.exec && s.DesignatedPort? then RoleDesignated
                   else t.role)
  }

  predicate MovesTimers(t: Transitions, t': Transitions) {
    var s := t.state;
    && t'.fdWhile == (if s.RootForward? || s.DesignatedForward? then 0
                      else if s.RootLearn? || s.DesignatedLearn? || s.DesignatedDiscard? then 15
                      else if s.InitPort? || (!t.exec && s.DisabledPort?) then 20
                      else if !t.exec && s.AlternatePort? then 15
                      else t.fdWhile)
    && t'.rrWhile == (if s.InitPort? || (!t.exec && s.RootPort?) then 15
                      else if s.DesignatedSynced? || RetiresOnEntry(t) then 0
                      else t.rrWhile)
    && t'.rbWhile == (if s.InitPort? then 0 else if s.BackupPort? then 4 else t.rbWhile)
  }

  /** The handshake on the port itself, variable by variable. */
  function MovedHandshake(t: Transitions, h: Handshake, sendRSTP: bool): Handshake {
    var s := t.state;
    Handshake(
      agree := h.agree || s.RootAgreed? || s.AlternateAgreed?,
      agreed := if s.DesignatedForward? then sendRSTP else h.agreed,
      proposed := h.proposed && !s.RootProposed? && !s.RootAgreed? && !s.AlternateProposed? && !s.AlternateAgreed?,
      proposing := h.proposing || s.DesignatedPropose?,
      disputed := h.disputed && !s.DesignatedDiscard?,
      sync := (h.sync || s.RootProposed? || s.AlternateProposed? || s.InitPort?)
              && !s.RootAgreed? && !s.DesignatedSynced? && !RetiresOnEntry(t),
      synced := (h.synced || s.DesignatedSynced? || RetiresOnEntry(t)) && !s.InitPort?,
      reRoot := (h.reRoot || s.ReRoot? || s.InitPort?) && !s.ReRooted? && !s.DesignatedRetired? && !RetiresOnEntry(t),
      edgeDelayWhile := if s.DesignatedPropose? then 10 else h.edgeDelayWhile,
      mdelayWhile := h.mdelayWhile)
  }

  /** A turn asks for a BPDU to be sent. */
  predicate Asks(s: Prt) { s.RootAgreed? || s.AlternateAgreed? || s.DesignatedPropose? }

  /** A waiting state does its entry action, and then nothing but choose. */
  lemma WaitChooses(p: Port)
    requires Waits(p.rt.state)
    ensures var q, e := PrtOwn(p), if p.rt.exec then p else Entry(p);
            && q.rt == e.rt.(state := q.rt.state, exec := q.rt.exec)
            && q.hs == e.hs && q.tx == e.tx && q.info == e.info && q.sel == e.sel && q.st == e.st && q.fixed == e.fixed
  {
    hide Entry, RootDecision, DesignatedDecision, AlternateDecision, StopDecision;
  }

  /** What a turn does to the port itself; `h` is the handshake before setSyncTree and setReRootTree. */
  predicate Moves(t: Transitions, selectedRole: Role, h: Handshake, tx: Tx, q: Port) {
    && MovesRoles(t, selectedRole, q.rt) && MovesTimers(t, q.rt) && q.hs == MovedHandshake(t, h, tx.sendRSTP)
    && q.tx == tx.(newInfo := tx.newInfo || Asks(t.state))
  }

  lemma EntryMoves(p: Port)
    requires Waits(p.rt.state)
    ensures Moves(p.rt, p.sel.selectedRole, p.hs, p.tx, if p.rt.exec then p else Entry(p))
  {
  }

  lemma WaitMoves(p: Port)
    requires Waits(p.rt.state)
    ensures Moves(p.rt, p.sel.selectedRole, p.hs, p.tx, PrtOwn(p))
  {
    WaitChooses(p);
    EntryMoves(p);
    hide PrtOwn, Entry;
  }

  lemma ActRoles(p: Port)
    requires !Waits(p.rt.state)
    ensures MovesRoles(p.rt, p.sel.selectedRole, PrtOwn(p).rt)
  {
    hide RootDecision, DesignatedDecision, AlternateDecision, StopDecision, Entry;
  }

  lemma ActTimers(p: Port)
    requires !Waits(p.rt.state)
    ensures MovesTimers(p.rt, PrtOwn(p).rt)
  {
    hide RootDecision, DesignatedDecision, AlternateDecision, StopDecision, Entry;
  }

  /** The handshake as a turn in state s finds it, after setSyncTree and setReRootTree. */
  predicate TreeDone(s: Prt, before: Handshake, after: Handshake) {
    after == before.(sync := before.sync || s.RootProposed? || s.AlternateProposed?,
                     reRoot := before.reRoot || s.ReRoot?)
  }

  /** The assignments to the handshake, state by state. */
  function Shaken(s: Prt, h: Handshake, sendRSTP: bool): Handshake {
    match s
    case InitPort => h.(synced := false, sync := true, reRoot := true)
    case RootProposed => h.(proposed := false)
    case RootAgreed => h.(proposed := false, sync := false, agree := true)
    case ReRooted => h.(reRoot := false)
    case DesignatedPropose => h.(proposing := true, edgeDelayWhile := 10)
    case DesignatedSynced => h.(synced := true, sync := false)
    case DesignatedRetired => h.(reRoot := false)
    case DesignatedForward => h.(agreed := sendRSTP)
    case DesignatedDiscard => h.(disputed := false)
    case AlternateProposed => h.(proposed := false)
    case AlternateAgreed => h.(proposed := false, agree := true)
    case _ => h
  }

  lemma ActShakes(p: Port)
    requires !Waits(p.rt.state)
    ensures PrtOwn(p).hs == Shaken(p.rt.state, p.hs, p.tx.sendRSTP)
    ensures PrtOwn(p).tx == p.tx.(newInfo := p.tx.newInfo || Asks(p.rt.state))
  {
    hide RootDecision, DesignatedDecision, AlternateDecision, StopDecision, Entry;
  }

  /** This is the table, for a few states at a time. */
  lemma RootIsMoved(t: Transitions, before: Handshake, after: Handshake, sendRSTP: bool)
    requires t.state.RootProposed? || t.state.RootAgreed? || t.state.ReRoot? || t.state.ReRooted?
    requires TreeDone(t.state, before, after)
    ensures Shaken(t.state, after, sendRSTP) == MovedHandshake(t, before, sendRSTP)
  {
  }

  lemma DesignatedIsMoved(t: Transitions, before: Handshake, after: Handshake, sendRSTP: bool)
    requires t.state.DesignatedPropose? || t.state.DesignatedSynced? || t.state.DesignatedRetired?
    requires TreeDone(t.state, before, after)
    ensures Shaken(t.state, after, sendRSTP) == MovedHandshake(t, before, sendRSTP)
  {
  }

  lemma ForwardIsMoved(t: Transitions, before: Handshake, after: Handshake, sendRSTP: bool)
    requires t.state.DesignatedForward? || t.state.DesignatedDiscard?
    requires TreeDone(t.state, before, after)
    ensures Shaken(t.state, after, sendRSTP) == MovedHandshake(t, before, sendRSTP)
  {
  }

  lemma OtherIsMoved(t: Transitions, before: Handshake, after: Handshake, sendRSTP: bool)
    requires t.state.InitPort? || t.state.AlternateProposed? || t.state.AlternateAgreed?
    requires TreeDone(t.state, before, after)
    ensures Shaken(t.state, after, sendRSTP) == MovedHandshake(t, before, sendRSTP)
  {
  }

  lemma NothingIsMoved(t: Transitions, before: Handshake, after: Handshake, sendRSTP: bool)
    requires t.state.RootForward? || t.state.RootLearn? || t.state.DesignatedLearn? || t.state.BackupPort?
    requires TreeDone(t.state, before, after)
    ensures Shaken(t.state, after, sendRSTP) == MovedHandshake(t, before, sendRSTP)
  {
  }

  lemma ShakenIsMoved(t: Transitions, before: Handshake, after: Handshake, sendRSTP: bool)
    requires !Waits(t.state) && TreeDone(t.state, before, after)
    ensures Shaken(t.state, after, sendRSTP) == MovedHandshake(t, before, sendRSTP)
  {
    hide Shaken, MovedHandshake, TreeDone;
    match t.state
    case RootProposed => RootIsMoved(t, before, after, sendRSTP);
    case RootAgreed => RootIsMoved(t, before, after, sendRSTP);
    case ReRoot => RootIsMoved(t, before, after, sendRSTP);
    case ReRooted => RootIsMoved(t, before, after, sendRSTP);
    case DesignatedPropose => DesignatedIsMoved(t, before, after, sendRSTP);
    case DesignatedSynced => DesignatedIsMoved(t, before, after, sendRSTP);
    case DesignatedRetired => DesignatedIsMoved(t, before, after, sendRSTP);
    case DesignatedForward => ForwardIsMoved(t, before, after, sendRSTP);
    case DesignatedDiscard => ForwardIsMoved(t, before, after, sendRSTP);
    case InitPort => OtherIsMoved(t, before, after, sendRSTP);
    case AlternateProposed => OtherIsMoved(t, before, after, sendRSTP);
    case AlternateAgreed => OtherIsMoved(t, before, after, sendRSTP);
    case _ => NothingIsMoved(t, before, after, sendRSTP);
  }

  lemma ActHandshake(p: Port, h: Handshake)
    requires !Waits(p.rt.state) && TreeDone(p.rt.state, h, p.hs)
    ensures PrtOwn(p).hs == MovedHandshake(p.rt, h, p.tx.sendRSTP)
    ensures PrtOwn(p).tx == p.tx.(newInfo := p.tx.newInfo || Asks(p.rt.state))
  {
    hide PrtOwn, MovedHandshake, Shaken;
    ActShakes(p);
    ShakenIsMoved(p.rt, h, p.hs, p.tx.sendRSTP);
  }

  /** The current state function alone. */
  lemma OwnMoves(p: Port)
    ensures MovesRoles(p.rt, p.sel.selectedRole, PrtOwn(p).rt) && MovesTimers(p.rt, PrtOwn(p).rt)
  {
    hide PrtOwn, Entry, MovesRoles, MovesTimers;
    if Waits(p.rt.state) {
      WaitMoves(p);
    } else {
      ActRoles(p);
      ActTimers(p);
    }
  }

  /** One turn: what it does to the port whose turn it is, and that it touches nothing else of it. */
  lemma TurnMoves(p: Port)
    ensures Moves(CheckGlobal(p.rt, p.sel.selectedRole), p.sel.selectedRole, p.hs, p.tx, PrtCall(p))
    ensures var q := PrtCall(p); q.info == p.info && q.sel == p.sel && q.st == p.st && q.fixed == p.fixed
  {
    hide Entry, CheckGlobal, RootDecision, DesignatedDecision, AlternateDecision, StopDecision;
    var x := PrtTree(Preempted(p).rt.state, Preempted(p));
    assert x == p.(rt := CheckGlobal(p.rt, p.sel.selectedRole), hs := x.hs);
    if Waits(x.rt.state) {
      WaitMoves(x);
      WaitChooses(x);
      EntryKeeps(x);
    } else {
      ActRoles(x);
      ActTimers(x);
      ActHandshake(x, p.hs);
      ActKeeps(x);
    }
    hide PrtOwn;
  }

  lemma EntryKeeps(p: Port)
    ensures var q := Entry(p); q.info == p.info && q.sel == p.sel && q.st == p.st && q.fixed == p.fixed
  {
  }

  lemma ActKeeps(p: Port)
    requires !Waits(p.rt.state)
    ensures var q := PrtOwn(p); q.info == p.info && q.sel == p.sel && q.st == p.st && q.fixed == p.fixed
  {
    hide RootDecision, DesignatedDecision, AlternateDecision, StopDecision, Entry;
  }

  /** And what it does to every other port. */
  lemma TurnReaches(b: Bridge, i: nat, j: nat)
    requires i < |b.ports| && j < |b.ports| && i != j
    ensures var s, o, q := CheckGlobal(b.ports[i].rt, b.ports[i].sel.selectedRole).state, b.ports[j],
                           Step(b, PrtTurn(i)).ports[j];
            q == o.(hs := o.hs.(sync := o.hs.sync || s.RootProposed? || s.AlternateProposed?,
                                reRoot := o.hs.reRoot || s.ReRoot?))
  {
  }

  /** A turn of port i on a bridge, in full. */
  ghost predicate TurnDone(b: Bridge, c: Bridge, i: nat)
    requires i < |b.ports| == |c.ports|
  {
    var p, t := b.ports[i], CheckGlobal(b.ports[i].rt, b.ports[i].sel.selectedRole);
    && Moves(t, p.sel.selectedRole, p.hs, p.tx, c.ports[i])
    && c.ports[i] == p.(tx := c.ports[i].tx, hs := c.ports[i].hs, rt := c.ports[i].rt)
    && forall j | 0 <= j < |b.ports| && j != i :: Told(t.state, b.ports[j], c.ports[j])
  }

  /** What another port is told by a turn in state s. */
  predicate Told(s: Prt, o: Port, q: Port) {
    q == o.(hs := o.hs.(sync := o.hs.sync || s.RootProposed? || s.AlternateProposed?, reRoot := o.hs.reRoot || s.ReRoot?))
  }

  lemma TurnIsDone(b: Bridge, i: nat)
    requires i < |b.ports|
    ensures |Step(b, PrtTurn(i)).ports| == |b.ports| && TurnDone(b, Step(b, PrtTurn(i)), i)
  {
    TurnMoves(b.ports[i]);
    hide PrtCall, Moves;
    forall j | 0 <= j < |b.ports| && j != i
      ensures Told(CheckGlobal(b.ports[i].rt, b.ports[i].sel.selectedRole).state, b.ports[j], Step(b, PrtTurn(i)).ports[j])
    {
      TurnReaches(b, i, j);
    }
  }

  // ----- Where a turn goes --------------------------------------------------

  /** The port as its turn finds it, pre-empted or not, waits in state s, and is settled. */
  predicate Chooses(p: Port, s: Prt) {
    Safe(p) && Settled(p) && CheckGlobal(p.rt, p.sel.selectedRole).state == s
  }

  /** A settled root port answers a proposal, or has the other ports give up an old root, or moves on
      when they have been told to and its timer has run out, or retires its own request. */
  lemma RootGoesTo(p: Port)
    requires Chooses(p, RootPort) && p.sel.selectedRole.RoleRoot?
    ensures var t, h, s := p.rt, p.hs, PrtCall(p).rt.state;
            && (s.RootProposed? <==> h.proposed && !h.agree)
            && (s.RootAgreed? <==> h.proposed && h.agree)
            && (s.ReRoot? <==> !h.proposed && !h.reRoot && !t.forward)
            && (s.RootForward? <==> !h.proposed && h.reRoot && !t.forward && t.learn && t.fdWhile == 0)
            && (s.RootLearn? <==> !h.proposed && h.reRoot && !t.learn && t.fdWhile == 0)
            && (s.ReRooted? <==> !h.proposed && h.reRoot && t.forward)
            && (s.RootPort? <==> !h.proposed && if h.reRoot then !t.forward && t.fdWhile > 0 else t.forward)
  {
    var x := Preempted(p);
    assert PrtTree(RootPort, x) == x;
    var e := if x.rt.exec then x else Entry(x);
    assert e.rt == x.rt.(role := e.rt.role, rrWhile := e.rt.rrWhile) && e.hs == p.hs && e.sel == p.sel && e.fixed == p.fixed;
    assert PrtCall(p).rt == Follow(e.rt, RootDecision(e));
    hide PrtOwn, Entry, PrtCall;
  }

  /** What keeps a designated port from moving on: a sync that is pending, or a new root somewhere else
      while this port may have been the old one. */
  predicate MayMove(p: Port) {
    (p.rt.fdWhile == 0 || p.hs.agreed) && (p.rt.rrWhile == 0 || !p.hs.reRoot) && !p.hs.sync
  }

  predicate MustStop(p: Port) {
    (p.hs.sync && !p.hs.synced) || (p.hs.reRoot && p.rt.rrWhile != 0) || p.hs.disputed
  }

  predicate AsksFirst(p: Port) { !p.rt.forward && !p.hs.agreed && !p.hs.proposing }

  predicate MaySync(p: Port) {
    || (p.hs.sync && p.hs.synced)
    || (!p.hs.synced && (p.hs.agreed || (!p.st.learning && !p.st.forwarding)))
  }

  /** A settled designated port proposes before anything else; then it counts as synchronised; then it
      retires an old root's request; then it moves on; and it stops when it must and does not move on. */
  lemma DesignatedGoesTo(p: Port)
    requires Chooses(p, DesignatedPort) && p.sel.selectedRole.RoleDesignated?
    ensures var t, s := p.rt, PrtCall(p).rt.state;
            var first := AsksFirst(p) || MaySync(p);
            var retires := p.hs.reRoot && t.rrWhile == 0;
            && (s.DesignatedPropose? <==> AsksFirst(p))
            && (s.DesignatedSynced? <==> !AsksFirst(p) && MaySync(p))
            && (s.DesignatedRetired? <==> !first && retires)
            && (s.DesignatedForward? <==> !first && !retires && MayMove(p) && t.learn && !t.forward)
            && (s.DesignatedLearn? <==> !first && !retires && MayMove(p) && !t.learn)
            && (s.DesignatedDiscard? <==> !first && !retires && MustStop(p) && t.learn && (t.forward || !MayMove(p)))
  {
    var x := Preempted(p);
    assert PrtTree(DesignatedPort, x) == x;
    var e := if x.rt.exec then x else Entry(x);
    assert e.rt == x.rt.(role := e.rt.role) && e.hs == p.hs && e.st == p.st && e.sel == p.sel && e.fixed == p.fixed;
    assert PrtCall(p).rt == Follow(e.rt, DesignatedDecision(e));
    hide PrtOwn, Entry, PrtCall;
  }

  /** A settled alternate or backup port only answers proposals. */
  lemma AlternateGoesTo(p: Port)
    requires Chooses(p, AlternatePort)
    ensures var h, s := p.hs, PrtCall(p).rt.state;
            && (s.AlternateProposed? <==> h.proposed && !h.agree)
            && (s.AlternateAgreed? <==> h.proposed && h.agree)
            && (s.AlternatePort? <==> !h.proposed)
  {
    var x := Preempted(p);
    assert PrtTree(AlternatePort, x) == x;
    var e := if x.rt.exec then x else Entry(x);
    assert e.hs.proposed == p.hs.proposed && e.hs.agree == p.hs.agree && e.sel == p.sel && e.fixed == p.fixed;
    assert e.rt.role == x.rt.role;
    assert PrtCall(p).rt == Follow(e.rt, AlternateDecision(e));
    hide PrtOwn, Entry, PrtCall;
  }

  /** A port being stopped has stopped when its state machine neither learns nor forwards. */
  lemma StopsWhenStopped(p: Port, s: Prt)
    requires Chooses(p, s) && (s.DisablePort? || s.BlockPort?)
    ensures var q := PrtCall(p).rt;
            q.state == if p.st.learning || p.st.forwarding then s
                       else if s.DisablePort? then DisabledPort else AlternatePort
  {
    var x := Preempted(p);
    assert PrtTree(s, x) == x;
    var e := if x.rt.exec then x else Entry(x);
    assert e.st == p.st && e.sel == p.sel && e.rt.state == s;
  }

  /** A port that stays the root port counts as a recent one all the time. */
  lemma RootStaysRecent(p: Port)
    requires Chooses(p, RootPort) && p.sel.selectedRole.RoleRoot?
    requires PrtCall(p).rt.state.RootPort? && PrtCall(PrtCall(p)).rt.state.RootPort?
    ensures PrtCall(PrtCall(p)).rt.rrWhile == 15
  {
    var x, q := Preempted(p), PrtCall(p);
    RootWaits(x);
    assert PrtTree(RootPort, x) == x && Preempted(q) == q && PrtTree(RootPort, q) == q;
    RootWaits(q);
    hide PrtOwn;
  }

  lemma RootWaits(p: Port)
    requires p.rt.state.RootPort? && Settled(p) && ConstantsSafe(p.fixed) && PrtOwn(p).rt.state.RootPort?
    ensures var q := PrtOwn(p).rt;
            && q.role == (if p.rt.exec then p.rt.role else RoleRoot) && q.rrWhile == (if p.rt.exec then p.rt.rrWhile else 15)
            && (q.exec <==> q.rrWhile == 15)
    ensures PrtOwn(p).sel == p.sel && PrtOwn(p).fixed == p.fixed
  {
  }

  /** A disabled port is synchronised, with all of its forward delay to come, at least after every other turn. */
  lemma DisabledStaysSynchronised(p: Port)
    requires Chooses(p, DisabledPort)
    ensures var q := PrtCall(PrtCall(p));
            q.rt.state.DisabledPort? && q.rt.fdWhile == 20 && q.hs.synced && !q.hs.sync && !q.hs.reRoot
  {
    var x, q := Preempted(p), PrtCall(p);
    assert PrtTree(DisabledPort, x) == x;
    DisabledWaits(x);
    assert q.rt.state.DisabledPort? && Preempted(q) == q && PrtTree(DisabledPort, q) == q;
    DisabledWaits(q);
    hide PrtOwn;
  }

  predicate Synchronised(p: Port) { p.rt.fdWhile == 20 && p.hs.synced && !p.hs.sync && !p.hs.reRoot }

  lemma DisabledWaits(p: Port)
    requires p.rt.state.DisabledPort? && Settled(p)
    ensures var q := PrtOwn(p);
            && q.rt.state.DisabledPort? && q.rt.role == p.rt.role && q.sel == p.sel
            && (Synchronised(q) <==> !p.rt.exec || Synchronised(p)) && (q.rt.exec <==> Synchronised(q))
  {
  }

  // ----- Agreement ----------------------------------------------------------

  /** A port that does not agree and is not about to. */
  predicate DoesNotAgree(p: Port) {
    !p.hs.agree && !p.rt.state.RootAgreed? && !p.rt.state.AlternateAgreed?
  }

  lemma TurnDoesNotAgree(p: Port)
    requires Safe(p) && DoesNotAgree(p)
    ensures DoesNotAgree(PrtCall(p))
  {
    TurnMoves(p);
    PreemptedIsReady(p.rt, p.sel.selectedRole);
    var x := PrtTree(Preempted(p).rt.state, Preempted(p));
    assert !x.hs.agree && x.fixed == p.fixed && x.rt == CheckGlobal(p.rt, p.sel.selectedRole);
    if Waits(x.rt.state) {
      WaitDoesNotAgree(x);
    } else {
      ActReturns(x);
    }
  }

  lemma RootDoesNotAgree(e: Port)
    requires !e.hs.agree && ConstantsSafe(e.fixed)
    ensures RootDecision(e).Go? ==> !RootDecision(e).state.RootAgreed? && !RootDecision(e).state.AlternateAgreed?
    ensures AlternateDecision(e).Go? ==>
              !AlternateDecision(e).state.RootAgreed? && !AlternateDecision(e).state.AlternateAgreed?
    ensures DesignatedDecision(e).Go? ==>
              !DesignatedDecision(e).state.RootAgreed? && !DesignatedDecision(e).state.AlternateAgreed?
  {
  }

  lemma EntryDoesNotAgree(x: Port)
    ensures Entry(x).hs.agree == x.hs.agree && Entry(x).fixed == x.fixed && Entry(x).rt.state == x.rt.state
  {
  }

  lemma WaitDoesNotAgree(x: Port)
    requires Waits(x.rt.state) && !x.hs.agree && ConstantsSafe(x.fixed)
    ensures !PrtOwn(x).rt.state.RootAgreed? && !PrtOwn(x).rt.state.AlternateAgreed?
  {
    hide Entry, RootDecision, DesignatedDecision, AlternateDecision;
    EntryDoesNotAgree(x);
    RootDoesNotAgree(if x.rt.exec then x else Entry(x));
  }

  /** A state that acts goes back to the waiting state of its role, to enter it anew. */
  lemma ActReturns(x: Port)
    requires !Waits(x.rt.state)
    ensures var q, s := PrtOwn(x).rt, x.rt.state;
            && Waits(q.state) && !q.exec
            && (s.InitPort? <==> q.state.DisablePort?)
            && (s.AlternateProposed? || s.AlternateAgreed? || s.BackupPort? <==> q.state.AlternatePort?)
            && (s.RootProposed? || s.RootAgreed? || s.ReRoot? || s.RootForward? || s.RootLearn? || s.ReRooted?
                <==> q.state.RootPort?)
  {
    hide Entry, RootDecision, DesignatedDecision, AlternateDecision, StopDecision;
  }

  lemma InformationDoesNotAgree(p: Port)
    requires DoesNotAgree(p)
    ensures DoesNotAgree(PimCall(p))
  {
    PimShape(p);
    TurnShakes(p);
    hide PimCall;
  }

  lemma EventDoesNotAgree(b: Bridge, e: Event, i: nat)
    requires Known(b, e) && i < |b.ports| && Safe(b.ports[i]) && DoesNotAgree(b.ports[i])
    ensures DoesNotAgree(StepOn(b, e, i))
  {
    hide PimCall, PrtCall, Safe;
    if e.PimTurn? {
      InformationDoesNotAgree(b.ports[i]);
    } else if e.PrtTurn? {
      TurnDoesNotAgree(b.ports[i]);
    } else {
      OthersKeepAgreement(b, e, i);
    }
  }

  lemma OthersKeepAgreement(b: Bridge, e: Event, i: nat)
    requires Known(b, e) && i < |b.ports| && !e.PimTurn? && !e.PrtTurn?
    ensures StepOn(b, e, i).rt.state == b.ports[i].rt.state && StepOn(b, e, i).hs.agree == b.ports[i].hs.agree
  {
    hide PimCall, PrtCall, PrsCall;
    if e.PrsTurn? {
      PrsOn(b, i);
    }
  }

  /** Only a port that the other ports have synchronised with may agree, or one that has agreed before;
      and nothing ever says that they have. So on no run does a port agree to a proposal. */
  lemma {:induction false} NobodyAgrees(bs: seq<Bridge>, es: seq<Event>, k: nat, i: nat)
    requires IsRun(bs, es) && k < |bs| && i < |bs[k].ports|
    ensures DoesNotAgree(bs[k].ports[i])
  {
    if k > 0 {
      assert StepAt(bs, es, k - 1);
      if i < |bs[k - 1].ports| {
        NobodyAgrees(bs, es, k - 1, i);
        RunStep(bs, es, k - 1, i);
        EventDoesNotAgree(bs[k - 1], es[k - 1], i);
      }
    }
  }

  /** A proposal to a settled root port is taken up with its next turn, and with the one after, if it
      stays the root port, all other ports are asked to synchronise and the proposal is gone. */
  lemma ProposalSynchronises(b: Bridge, i: nat, j: nat)
    requires i < |b.ports| && j < |b.ports| && i != j
    requires Chooses(b.ports[i], RootPort) && b.ports[i].sel.selectedRole.RoleRoot?
    requires b.ports[i].hs.proposed && !b.ports[i].hs.agree
    ensures var c := Step(b, PrtTurn(i));
            var d := Step(c, PrtTurn(i));
            d.ports[j].hs.sync && !d.ports[i].hs.proposed && d.ports[i].rt.state.RootPort?
  {
    var c := Step(b, PrtTurn(i));
    RootGoesTo(b.ports[i]);
    TurnMoves(b.ports[i]);
    assert c.ports[i] == PrtCall(b.ports[i]);
    assert c.ports[i].rt.state.RootProposed? && c.ports[i].rt.role.RoleRoot?;
    TurnMoves(c.ports[i]);
    TurnReaches(c, i, j);
    ProposedReturns(c.ports[i]);
    assert Step(c, PrtTurn(i)).ports[i] == PrtCall(c.ports[i]);
    hide PrtCall, MovesRoles, MovesTimers, Chooses;
  }

  lemma ProposedReturns(p: Port)
    requires p.rt.state.RootProposed? && p.rt.role == p.sel.selectedRole
    ensures PrtCall(p).rt.state.RootPort?
  {
  }
}
