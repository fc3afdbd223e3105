/** That the machines get somewhere (17.29 and 17.30 of IEEE 802.1D-2004): what each turn of the role
    machine sets, and that a root or designated port that is left in peace comes to forward. */
module RstpProgress {
  import opened Vector
  import opened RstpPort
  import opened RstpActions
  import opened RstpBridge
  import opened RstpMessages
  import opened RstpSafety
  import opened RstpTiming

  // ----- Left in peace ------------------------------------------------------

  /** A port about to take its turn in the role machine: selected for `role`, with nothing pending
      that would hold it up. */
  predicate Quiet(p: Port, role: Role) {
    && Settled(p) && p.sel.selectedRole == role
    && (role.RoleRoot? ==> !p.hs.proposed)
    && (role.RoleDesignated? ==> !p.hs.sync && !p.hs.reRoot && !p.hs.disputed)
  }

  /** A turn of the information machine that takes no agreement or proposal away. */
  predicate KeepsHandshake(i: Information) {
    || i.state.PimAged? || i.state.PimCurrent? || i.state.PimReceive? || i.state.RepeatedDesignated?
    || i.state.PimOther? || (i.state.NotDesignated? && i.buf.flags.agreement)
  }

  /** An event that leaves port i in peace. */
  predicate Peaceful(b: Bridge, e: Event, i: nat, role: Role)
    requires i < |b.ports|
  {
    && (e == PrtTurn(i) ==> Quiet(b.ports[i], role))
    && (e == PimTurn(i) && role.RoleDesignated? ==> KeepsHandshake(b.ports[i].info))
  }

  // ----- How far it is to forwarding ----------------------------------------

  /** How many turns it takes at most, when no timer has to be waited for. */
  function RootLeft(t: Transitions, h: Handshake): (n: nat)
    ensures n <= 7
  {
    var reRoot, learn := if h.reRoot then 0 else 2, if t.learn then 0 else 2;
    if t.forward then 0
    else
      match t.state
      case RootForward => 1
      case RootPort => 2 + reRoot + learn
      case RootLearn => 3 + reRoot
      case ReRoot => 3 + learn
      case RootProposed => 3 + reRoot + learn
      case RootAgreed => 3 + reRoot + learn
      case ReRooted => 5 + learn
      case _ => 7
  }

  function DesignatedLeft(t: Transitions, h: Handshake): (n: nat)
    ensures n <= 9
  {
    var asked, synced := if h.agreed || h.proposing then 0 else 2, if h.synced then 0 else 2;
    var learn := if t.learn then 0 else 2;
    if t.state.DesignatedDiscard? then 5 + asked + synced
    else if t.forward then 0
    else
      match t.state
      case DesignatedForward => 1
      case DesignatedPort => 2 + asked + synced + learn
      case DesignatedLearn => 3 + asked + synced
      case DesignatedPropose => 3 + synced + learn
      case DesignatedSynced => 3 + asked + learn
      case DesignatedRetired => 3 + asked + synced + learn
      case _ => 9
  }

  function Left(p: Port, role: Role): (n: nat)
    ensures n <= 9
  {
    var t := CheckGlobal(p.rt, role);
    if role.RoleRoot? then RootLeft(t, p.hs) else DesignatedLeft(t, p.hs)
  }

  predicate Discards(p: Port, role: Role) { CheckGlobal(p.rt, role).state.DesignatedDiscard? }

  /** How many ticks may have to be waited for: those on the timer, and those of the delay that starts
      when the port begins to learn. */
  function Wait(p: Port, role: Role): nat {
    if Left(p, role) == 0 then 0
    else if Discards(p, role) then 32
    else p.rt.fdWhile + if p.rt.learn then 0 else 16
  }

  predicate Active(role: Role) { role.RoleRoot? || role.RoleDesignated? }

  /** The same for a port whose machine is about to take the role, or has it. */
  function WaitOf(t: Transitions, left: nat): nat {
    if left == 0 then 0
    else if t.state.DesignatedDiscard? then 32
    else t.fdWhile + if t.learn then 0 else 16
  }

  lemma WaitIsWaitOf(p: Port, role: Role)
    ensures Wait(p, role) == WaitOf(CheckGlobal(p.rt, role), Left(p, role))
  {
  }

  // ----- One turn -----------------------------------------------------------

  /** The machine is in a state of the root role, or about to enter one. */
  predicate AsRoot(p: Port) {
    && Ready(p.rt, RoleRoot) && p.sel.selectedRole.RoleRoot? && Settled(p) && !p.hs.proposed && ConstantsSafe(p.fixed)
    && (p.rt.state.ReRoot? ==> p.hs.reRoot)
  }

  /** What a turn does to the distance. */
  predicate Nearer(t: Transitions, left: nat, t': Transitions, left': nat) {
    && left' <= left && WaitOf(t', left') <= WaitOf(t, left)
    && (t.fdWhile == 0 && left > 0 ==> left' < left)
    && (t.state.DesignatedDiscard? ==> WaitOf(t', left') < WaitOf(t, left))
    && (t.fdWhile == 0 && left' > 0 ==> t'.fdWhile == 0 || WaitOf(t', left') < WaitOf(t, left))
  }

  lemma RootDecides(p: Port)
    requires AsRoot(p) && p.rt.state.RootPort?
    ensures var q := PrtOwn(p);
            q.rt.role.RoleRoot? && q.hs == p.hs && Nearer(p.rt, RootLeft(p.rt, p.hs), q.rt, RootLeft(q.rt, q.hs))
  {
    var e := if p.rt.exec then p else Entry(p);
    assert e.rt == p.rt.(role := RoleRoot, rrWhile := e.rt.rrWhile) && e.hs == p.hs;
    assert e.sel == p.sel && e.fixed == p.fixed;
  }

  lemma RootActs(p: Port)
    requires AsRoot(p) && !p.rt.state.RootPort?
    ensures var q := PrtOwn(p);
            q.rt.role.RoleRoot? && Nearer(p.rt, RootLeft(p.rt, p.hs), q.rt, RootLeft(q.rt, q.hs))
  {
    ActsAsRoot(p);
    hide PrtOwn, Entry, Ready;
  }

  /** What the states that act once do to a root port. */
  lemma ActsAsRoot(p: Port)
    requires AsRoot(p) && !p.rt.state.RootPort?
    ensures var q, s := PrtOwn(p), p.rt.state;
            && p.rt.role.RoleRoot? && q.rt.role.RoleRoot? && q.rt.state.RootPort?
            && q.rt.forward == (p.rt.forward || s.RootForward?) && q.rt.learn == (p.rt.learn || s.RootLearn?)
            && (s.RootForward? ==> p.rt.learn) && (s.RootLearn? ==> !p.rt.learn)
            && q.rt.fdWhile == (if s.RootForward? then 0 else if s.RootLearn? then 15 else p.rt.fdWhile)
            && q.hs.reRoot == (p.hs.reRoot && !s.ReRooted?)
            && (s.RootForward? || s.RootLearn? || s.ReRoot? || s.ReRooted? || s.RootProposed? || s.RootAgreed?)
  {
  }

  lemma RootTurn(p: Port)
    requires Safe(p) && Quiet(p, RoleRoot)
    ensures var q := PrtCall(p);
            Nearer(CheckGlobal(p.rt, RoleRoot), Left(p, RoleRoot), CheckGlobal(q.rt, RoleRoot), Left(q, RoleRoot))
  {
    PreemptedIsReady(p.rt, RoleRoot);
    var x := PrtTree(Preempted(p).rt.state, Preempted(p));
    assert x.rt == CheckGlobal(p.rt, RoleRoot) && x.sel == p.sel && x.fixed == p.fixed && x.hs.proposed == p.hs.proposed;
    assert RootLeft(x.rt, x.hs) <= Left(p, RoleRoot);
    if x.rt.state.RootPort? {
      RootDecides(x);
    } else {
      RootActs(x);
    }
  }

  /** The machine is in a state of the designated role, or about to enter one. */
  predicate AsDesignated(p: Port) {
    && Ready(p.rt, RoleDesignated) && p.sel.selectedRole.RoleDesignated? && Settled(p) && ConstantsSafe(p.fixed)
    && !p.hs.sync && !p.hs.reRoot && !p.hs.disputed
  }

  lemma DesignatedDecides(p: Port)
    requires AsDesignated(p) && p.rt.state.DesignatedPort?
    ensures var q := PrtOwn(p);
            && q.rt.role.RoleDesignated? && q.hs == p.hs
            && Nearer(p.rt, DesignatedLeft(p.rt, p.hs), q.rt, DesignatedLeft(q.rt, q.hs))
  {
    var e := if p.rt.exec then p else Entry(p);
    assert e.rt == p.rt.(role := RoleDesignated) && e.hs == p.hs && e.sel == p.sel && e.fixed == p.fixed;
  }

  /** What the states that act once do to a designated port. */
  lemma ActsAsDesignated(p: Port)
    requires AsDesignated(p) && !p.rt.state.DesignatedPort?
    ensures var q, s := PrtOwn(p), p.rt.state;
            && p.rt.role.RoleDesignated? && q.rt.role.RoleDesignated? && q.rt.state.DesignatedPort?
            && q.rt.forward == ((p.rt.forward || s.DesignatedForward?) && !s.DesignatedDiscard?)
            && q.rt.learn == ((p.rt.learn || s.DesignatedLearn?) && !s.DesignatedDiscard?)
            && (s.DesignatedForward? ==> p.rt.learn) && (s.DesignatedLearn? ==> !p.rt.learn)
            && q.rt.fdWhile == (if s.DesignatedForward? then 0
                                else if s.DesignatedLearn? || s.DesignatedDiscard? then 15 else p.rt.fdWhile)
            && q.hs.proposing == (p.hs.proposing || s.DesignatedPropose?)
            && q.hs.synced == (p.hs.synced || s.DesignatedSynced?)
            && (!s.DesignatedForward? ==> q.hs.agreed == p.hs.agreed)
            && (s.DesignatedForward? || s.DesignatedLearn? || s.DesignatedPropose? || s.DesignatedSynced?
                || s.DesignatedRetired? || s.DesignatedDiscard?)
  {
  }

  lemma DesignatedActs(p: Port)
    requires AsDesignated(p) && !p.rt.state.DesignatedPort?
    ensures var q := PrtOwn(p);
            && q.rt.role.RoleDesignated?
            && Nearer(p.rt, DesignatedLeft(p.rt, p.hs), q.rt, DesignatedLeft(q.rt, q.hs))
  {
    ActsAsDesignated(p);
    hide PrtOwn, Entry, Ready;
  }

  lemma DesignatedTurn(p: Port)
    requires Safe(p) && Quiet(p, RoleDesignated)
    ensures var q := PrtCall(p);
            Nearer(CheckGlobal(p.rt, RoleDesignated), Left(p, RoleDesignated),
                   CheckGlobal(q.rt, RoleDesignated), Left(q, RoleDesignated))
  {
    PreemptedIsReady(p.rt, RoleDesignated);
    var x := PrtTree(Preempted(p).rt.state, Preempted(p));
    assert x == p.(rt := CheckGlobal(p.rt, RoleDesignated));
    if x.rt.state.DesignatedPort? {
      DesignatedDecides(x);
    } else {
      DesignatedActs(x);
    }
  }

  lemma OwnTurn(p: Port, role: Role)
    requires Safe(p) && Quiet(p, role) && Active(role)
    ensures Left(PrtCall(p), role) <= Left(p, role) && Wait(PrtCall(p), role) <= Wait(p, role)
    ensures p.rt.fdWhile == 0 && Left(p, role) > 0 ==> Left(PrtCall(p), role) < Left(p, role)
    ensures Discards(p, role) ==> Wait(PrtCall(p), role) < Wait(p, role)
    ensures p.rt.fdWhile == 0 && Left(PrtCall(p), role) > 0 ==>
              PrtCall(p).rt.fdWhile == 0 || Wait(PrtCall(p), role) < Wait(p, role)
  {
    WaitIsWaitOf(p, role);
    WaitIsWaitOf(PrtCall(p), role);
    if role.RoleRoot? {
      RootTurn(p);
    } else {
      DesignatedTurn(p);
    }
    hide PrtCall, Left, Quiet, Safe;
  }

  // ----- One event ----------------------------------------------------------

  lemma OthersTurn(p: Port, state: Prt, role: Role)
    requires Active(role)
    ensures Left(PrtTree(state, p), role) <= Left(p, role) && Wait(PrtTree(state, p), role) <= Wait(p, role)
    ensures PrtTree(state, p).rt == p.rt
  {
  }

  lemma InformationTurn(p: Port, role: Role)
    requires Active(role) && (role.RoleDesignated? ==> KeepsHandshake(p.info))
    ensures Left(PimCall(p), role) <= Left(p, role) && Wait(PimCall(p), role) <= Wait(p, role)
  {
    PimShape(p);
    InformationKeeps(p);
    hide PimCall, KeepsHandshake;
  }

  lemma InformationKeeps(p: Port)
    ensures PimCall(p).hs.reRoot == p.hs.reRoot
    ensures KeepsHandshake(p.info) ==>
              var h := PimCall(p).hs;
              h.synced == p.hs.synced && (p.hs.agreed || p.hs.proposing ==> h.agreed || h.proposing)
  {
    TurnShakes(p);
    hide PimCall;
  }

  lemma TickWaits(p: Port, role: Role)
    requires Active(role)
    ensures Left(TickPort(p), role) == Left(p, role) && Wait(TickPort(p), role) <= Wait(p, role)
    ensures p.rt.fdWhile > 0 && Left(p, role) > 0 && !Discards(p, role) ==> Wait(TickPort(p), role) < Wait(p, role)
  {
  }

  /** Nothing is to be waited for: the next turn is one that helps. */
  predicate Stuck(p: Port, role: Role) { p.rt.fdWhile == 0 || Discards(p, role) }

  /** From p to q a port does not get further away; a turn of its own brings it nearer, and so does a tick
      as long as there is something to wait for. */
  predicate Helps(p: Port, q: Port, role: Role, ownTurn: bool, tick: bool) {
    && Left(q, role) <= Left(p, role) && Wait(q, role) <= Wait(p, role)
    && (ownTurn && p.rt.fdWhile == 0 && Left(p, role) > 0 ==> Left(q, role) < Left(p, role))
    && (ownTurn && Discards(p, role) ==> Wait(q, role) < Wait(p, role))
    && (tick && Left(p, role) > 0 && !Stuck(p, role) ==> Wait(q, role) < Wait(p, role))
    && (Stuck(p, role) && Left(q, role) > 0 ==> Stuck(q, role) || Wait(q, role) < Wait(p, role))
  }

  lemma TickHelps(p: Port, role: Role)
    requires Active(role)
    ensures Helps(p, TickPort(p), role, false, true)
  {
    TickWaits(p, role);
    hide Left, Wait;
  }

  lemma OwnTurnHelps(p: Port, role: Role)
    requires Safe(p) && Quiet(p, role) && Active(role)
    ensures Helps(p, PrtCall(p), role, true, false)
  {
    OwnTurn(p, role);
    hide Left, Wait, PrtCall, Quiet, Safe;
  }

  lemma OthersTurnHelps(p: Port, state: Prt, role: Role)
    requires Active(role)
    ensures Helps(p, PrtTree(state, p), role, false, false)
  {
    OthersTurn(p, state, role);
    OthersKeepDiscards(p, state, role);
    hide Left, Wait, Discards, PrtTree;
  }

  lemma OthersKeepDiscards(p: Port, state: Prt, role: Role)
    ensures Discards(PrtTree(state, p), role) == Discards(p, role)
  {
  }

  lemma InformationHelps(p: Port, role: Role)
    requires Active(role) && (role.RoleDesignated? ==> KeepsHandshake(p.info))
    ensures Helps(p, PimCall(p), role, false, false)
  {
    PimShape(p);
    InformationTurn(p, role);
    hide Left, Wait, PimCall, KeepsHandshake;
  }

  lemma OthersHelp(p: Port, q: Port, role: Role)
    requires Kept(p, q)
    ensures Helps(p, q, role, false, false)
  {
    SameDistance(p, q, role);
    hide Left, Wait;
  }

  /** The events that are nobody's turn in the information and role machines, nor a tick. */
  lemma OtherEventHelps(b: Bridge, e: Event, i: nat, role: Role)
    requires Known(b, e) && i < |b.ports| && !e.Tick? && !e.PimTurn? && !e.PrtTurn?
    ensures Helps(b.ports[i], StepOn(b, e, i), role, false, false)
  {
    OtherEventKeeps(b, e, i);
    hide Helps, StepOn, Kept;
    OthersHelp(b.ports[i], StepOn(b, e, i), role);
  }

  /** All that the distance depends on is as it was. */
  predicate Kept(p: Port, q: Port) {
    q.rt == p.rt && q.hs == p.hs.(mdelayWhile := q.hs.mdelayWhile, edgeDelayWhile := q.hs.edgeDelayWhile)
  }

  lemma CallsKeep(p: Port)
    ensures Kept(p, p) && Kept(p, PtxCall(p)) && Kept(p, PstCall(p))
    ensures forall env :: Kept(p, SurroundPort(p, env))
  {
    hide PtxNext, PstNext;
  }

  lemma SelectionKeeps(b: Bridge, i: nat)
    requires i < |b.ports|
    ensures |PrsCall(b).ports| == |b.ports| && Kept(b.ports[i], PrsCall(b).ports[i])
  {
    PrsOn(b, i);
    hide PrsCall;
  }

  lemma OtherEventKeeps(b: Bridge, e: Event, i: nat)
    requires Known(b, e) && i < |b.ports| && !e.Tick? && !e.PimTurn? && !e.PrtTurn?
    ensures Kept(b.ports[i], StepOn(b, e, i))
  {
    if e.PrsTurn? {
      SelectionKeeps(b, i);
    } else {
      CallsKeep(b.ports[i]);
    }
    hide Kept, PtxCall, PstCall, SurroundPort, PimCall, PrtCall, PrsCall, PrtTurnOn, TickPort;
  }

  lemma TurnHelps(b: Bridge, j: nat, i: nat, role: Role)
    requires i < |b.ports| && j < |b.ports| && Active(role)
    requires i == j ==> Safe(b.ports[i]) && Quiet(b.ports[i], role)
    ensures Helps(b.ports[i], PrtTurnOn(b, j, i), role, j == i, false)
  {
    hide Helps, PrtCall, PrtTree, Quiet, Safe;
    if i == j {
      OwnTurnHelps(b.ports[i], role);
    } else {
      OthersTurnHelps(b.ports[i], Preempted(b.ports[j]).rt.state, role);
    }
  }

  lemma InformationTurnHelps(b: Bridge, j: nat, i: nat, role: Role)
    requires i < |b.ports| && Active(role)
    requires i == j && role.RoleDesignated? ==> KeepsHandshake(b.ports[i].info)
    ensures Helps(b.ports[i], if i == j then PimCall(b.ports[i]) else b.ports[i], role, false, false)
  {
    hide Helps, PimCall, KeepsHandshake;
    if i == j {
      InformationHelps(b.ports[i], role);
    } else {
      OthersHelp(b.ports[i], b.ports[i], role);
    }
  }

  /** No event takes a port in peace further away. */
  lemma EventHelps(b: Bridge, e: Event, i: nat, role: Role)
    requires Known(b, e) && i < |b.ports| && Safe(b.ports[i]) && Active(role) && Peaceful(b, e, i, role)
    ensures Helps(b.ports[i], StepOn(b, e, i), role, e == PrtTurn(i), e.Tick?)
  {
    hide Helps, Quiet, KeepsHandshake, PimCall, PrtCall, PrtTurnOn, TickPort, PtxCall, PstCall, SurroundPort, Safe, PrsCall;
    match e
    case Tick => TickHelps(b.ports[i], role);
    case PimTurn(j) => InformationTurnHelps(b, j, i, role);
    case PrtTurn(j) => TurnHelps(b, j, i, role);
    case _ => OtherEventHelps(b, e, i, role);
  }

  /** The distance depends on the role machine's own part and on the handshake alone. */
  lemma SameDistance(p: Port, q: Port, role: Role)
    requires Kept(p, q)
    ensures Left(q, role) == Left(p, role) && Wait(q, role) == Wait(p, role)
  {
  }

  // ----- Runs ---------------------------------------------------------------

  ghost predicate PeaceAt(bs: seq<Bridge>, es: seq<Event>, i: nat, role: Role, m: nat) {
    m < |es| && m < |bs| && i < |bs[m].ports| && Peaceful(bs[m], es[m], i, role)
  }

  /** Events j .. k - 1 leave port i in peace. */
  ghost predicate AtPeace(bs: seq<Bridge>, es: seq<Event>, i: nat, role: Role, j: nat, k: nat) {
    && IsRun(bs, es) && j <= k < |bs| && i < |bs[j].ports| && Active(role)
    && forall m | j <= m < k :: PeaceAt(bs, es, i, role, m)
  }

  lemma PeaceBefore(bs: seq<Bridge>, es: seq<Event>, i: nat, role: Role, j: nat, m: nat, k: nat)
    requires AtPeace(bs, es, i, role, j, k) && j <= m <= k
    ensures AtPeace(bs, es, i, role, j, m) && AtPeace(bs, es, i, role, m, k) && i < |bs[k].ports|
  {
    PortsStay(bs, es, j, m);
    PortsStay(bs, es, j, k);
  }

  /** The turns of port i among events j .. k - 1 in the role machine, and those with no timer running. */
  function Turns(es: seq<Event>, i: nat, j: nat, k: nat): nat
    requires j <= k <= |es|
    decreases k
  {
    if j == k then 0 else Turns(es, i, j, k - 1) + if es[k - 1] == PrtTurn(i) then 1 else 0
  }

  ghost function ReadyTurns(bs: seq<Bridge>, es: seq<Event>, i: nat, j: nat, k: nat): nat
    requires j <= k <= |es| < |bs|
    decreases k
  {
    if j == k then 0
    else ReadyTurns(bs, es, i, j, k - 1)
         + if es[k - 1] == PrtTurn(i) && i < |bs[k - 1].ports| && bs[k - 1].ports[i].rt.fdWhile == 0 then 1 else 0
  }

  lemma StepHelps(bs: seq<Bridge>, es: seq<Event>, i: nat, role: Role, j: nat, k: nat)
    requires AtPeace(bs, es, i, role, j, k) && j < k
    ensures AtPeace(bs, es, i, role, j, k - 1) && i < |bs[k - 1].ports| && i < |bs[k].ports|
    ensures Known(bs[k - 1], es[k - 1]) && Safe(bs[k - 1].ports[i]) && Peaceful(bs[k - 1], es[k - 1], i, role)
    ensures bs[k].ports[i] == StepOn(bs[k - 1], es[k - 1], i)
  {
    PeaceBefore(bs, es, i, role, j, k - 1, k);
    assert PeaceAt(bs, es, i, role, k - 1);
    RunStep(bs, es, k - 1, i);
  }

  lemma {:induction false} TurnsLead(bs: seq<Bridge>, es: seq<Event>, i: nat, role: Role, j: nat, k: nat)
    requires AtPeace(bs, es, i, role, j, k)
    ensures i < |bs[k].ports|
    ensures var left := Left(bs[k].ports[i], role);
            left == 0 || left + ReadyTurns(bs, es, i, j, k) <= Left(bs[j].ports[i], role)
    decreases k
  {
    hide Left, Wait, StepOn, Peaceful;
    if j < k {
      StepHelps(bs, es, i, role, j, k);
      TurnsLead(bs, es, i, role, j, k - 1);
      EventHelps(bs[k - 1], es[k - 1], i, role);
    }
  }

  lemma NothingLeft(p: Port, role: Role)
    requires Safe(p) && Active(role) && Left(p, role) == 0
    ensures p.rt.learn && p.rt.forward
  {
  }

  /** On every run, a port that is left in peace as a root or designated port learns and forwards after
      nine turns at which its timer does not run. */
  lemma ForwardsAfterNineTurns(bs: seq<Bridge>, es: seq<Event>, i: nat, role: Role, j: nat, k: nat)
    requires AtPeace(bs, es, i, role, j, k) && ReadyTurns(bs, es, i, j, k) >= 9
    ensures i < |bs[k].ports| && bs[k].ports[i].rt.learn && bs[k].ports[i].rt.forward
  {
    TurnsLead(bs, es, i, role, j, k);
    RunsAreSafe(bs, es, k);
    assert Safe(bs[k].ports[i]);
    NothingLeft(bs[k].ports[i], role);
  }

  // ----- Time ---------------------------------------------------------------

  lemma {:induction false} WaitNeverGrows(bs: seq<Bridge>, es: seq<Event>, i: nat, role: Role, j: nat, k: nat)
    requires AtPeace(bs, es, i, role, j, k)
    ensures i < |bs[k].ports| && Wait(bs[k].ports[i], role) <= Wait(bs[j].ports[i], role)
    ensures Left(bs[j].ports[i], role) == 0 ==> Left(bs[k].ports[i], role) == 0
    decreases k
  {
    hide Left, Wait, StepOn, Peaceful;
    if j < k {
      StepHelps(bs, es, i, role, j, k);
      WaitNeverGrows(bs, es, i, role, j, k - 1);
      EventHelps(bs[k - 1], es[k - 1], i, role);
    }
  }

  /** A tick shortens the wait, or there is nothing to be waited for. */
  lemma {:induction false} TicksLead(bs: seq<Bridge>, es: seq<Event>, i: nat, role: Role, j: nat, k: nat)
    requires AtPeace(bs, es, i, role, j, k) && Ticks(es, j, k) > 0
    ensures i < |bs[k].ports|
    ensures var q := bs[k].ports[i];
            Left(q, role) == 0 || Wait(q, role) < Wait(bs[j].ports[i], role) || Stuck(q, role)
    decreases k
  {
    hide Left, Wait, StepOn, Peaceful, Stuck;
    StepHelps(bs, es, i, role, j, k);
    EventHelps(bs[k - 1], es[k - 1], i, role);
    WaitNeverGrows(bs, es, i, role, j, k - 1);
    if Ticks(es, j, k - 1) > 0 {
      TicksLead(bs, es, i, role, j, k - 1);
    }
  }

  /** Turns bring it to forward, or to the start of a wait that is shorter. */
  lemma {:induction false} TurnsLeadOrWait(bs: seq<Bridge>, es: seq<Event>, i: nat, role: Role, j: nat, k: nat)
    requires AtPeace(bs, es, i, role, j, k) && Stuck(bs[j].ports[i], role)
    ensures i < |bs[k].ports|
    ensures var p, q := bs[j].ports[i], bs[k].ports[i];
            || Left(q, role) == 0 || Wait(q, role) < Wait(p, role)
            || (Stuck(q, role) && Left(q, role) + Turns(es, i, j, k) <= Left(p, role))
    decreases k
  {
    hide Left, Wait, StepOn, Peaceful, Discards;
    if j < k {
      StepHelps(bs, es, i, role, j, k);
      TurnsLeadOrWait(bs, es, i, role, j, k - 1);
      WaitNeverGrows(bs, es, i, role, j, k - 1);
      EventHelps(bs[k - 1], es[k - 1], i, role);
    }
  }

  /** A tick, and then nine turns of port i in the role machine. */
  ghost predicate Second(es: seq<Event>, i: nat, j: nat, k: nat) {
    j <= k <= |es| && exists m | j <= m <= k :: Ticks(es, j, m) > 0 && Turns(es, i, m, k) >= 9
  }

  lemma SecondHelps(bs: seq<Bridge>, es: seq<Event>, i: nat, role: Role, j: nat, k: nat)
    requires AtPeace(bs, es, i, role, j, k) && Second(es, i, j, k)
    ensures i < |bs[k].ports|
    ensures Left(bs[k].ports[i], role) == 0 || Wait(bs[k].ports[i], role) < Wait(bs[j].ports[i], role)
  {
    var m :| j <= m <= k && Ticks(es, j, m) > 0 && Turns(es, i, m, k) >= 9;
    PeaceBefore(bs, es, i, role, j, m, k);
    TicksLead(bs, es, i, role, j, m);
    WaitNeverGrows(bs, es, i, role, j, m);
    WaitNeverGrows(bs, es, i, role, m, k);
    if Stuck(bs[m].ports[i], role) {
      TurnsLeadOrWait(bs, es, i, role, m, k);
    }
  }

  /** The moments `cuts` divide a stretch of events into such seconds. */
  ghost predicate AreSeconds(es: seq<Event>, i: nat, cuts: seq<nat>) {
    |cuts| > 0 && forall n | 0 <= n < |cuts| - 1 :: SecondAt(es, i, cuts, n)
  }

  ghost predicate SecondAt(es: seq<Event>, i: nat, cuts: seq<nat>, n: nat)
    requires n + 1 < |cuts|
  {
    Second(es, i, cuts[n], cuts[n + 1])
  }

  lemma {:induction false} CutsIncrease(es: seq<Event>, i: nat, cuts: seq<nat>, n: nat)
    requires AreSeconds(es, i, cuts) && n < |cuts|
    ensures cuts[0] <= cuts[n] <= cuts[|cuts| - 1]
    decreases |cuts| - n, n
  {
    if n < |cuts| - 1 {
      assert SecondAt(es, i, cuts, n);
      CutsIncrease(es, i, cuts, n + 1);
    }
    CutsFromStart(es, i, cuts, n);
  }

  lemma {:induction false} CutsFromStart(es: seq<Event>, i: nat, cuts: seq<nat>, n: nat)
    requires AreSeconds(es, i, cuts) && n < |cuts|
    ensures cuts[0] <= cuts[n]
  {
    if n > 0 {
      assert SecondAt(es, i, cuts, n - 1);
      CutsFromStart(es, i, cuts, n - 1);
    }
  }

  lemma {:induction false} SecondsLead(bs: seq<Bridge>, es: seq<Event>, i: nat, role: Role, cuts: seq<nat>, n: nat)
    requires AreSeconds(es, i, cuts) && n < |cuts| && AtPeace(bs, es, i, role, cuts[0], cuts[|cuts| - 1])
    ensures cuts[n] < |bs| && i < |bs[cuts[n]].ports|
    ensures var q := bs[cuts[n]].ports[i];
            Left(q, role) == 0 || Wait(q, role) + n <= Wait(bs[cuts[0]].ports[i], role)
  {
    hide Left, Wait;
    CutsIncrease(es, i, cuts, n);
    PeaceBefore(bs, es, i, role, cuts[0], cuts[n], cuts[|cuts| - 1]);
    if n > 0 {
      SecondsLead(bs, es, i, role, cuts, n - 1);
      CutsIncrease(es, i, cuts, n - 1);
      assert SecondAt(es, i, cuts, n - 1);
      PeaceBefore(bs, es, i, role, cuts[0], cuts[n - 1], cuts[n]);
      SecondHelps(bs, es, i, role, cuts[n - 1], cuts[n]);
      WaitNeverGrows(bs, es, i, role, cuts[n - 1], cuts[n]);
    }
  }

  // ----- The timer is bounded -----------------------------------------------

  lemma {:induction false} TimerIsBounded(bs: seq<Bridge>, es: seq<Event>, i: nat, k: nat)
    requires IsRun(bs, es) && k < |bs| && i < |bs[k].ports|
    ensures bs[k].ports[i].rt.fdWhile <= 20
  {
    if k > 0 {
      assert StepAt(bs, es, k - 1);
      if i < |bs[k - 1].ports| {
        TimerIsBounded(bs, es, i, k - 1);
        StepIsLocal(bs[k - 1], es[k - 1], i);
        EventBoundsTimer(bs[k - 1], es[k - 1], i);
      }
    }
  }

  lemma EventBoundsTimer(b: Bridge, e: Event, i: nat)
    requires Known(b, e) && i < |b.ports| && b.ports[i].rt.fdWhile <= 20
    ensures StepOn(b, e, i).rt.fdWhile <= 20
  {
    hide PimCall, PrtCall, PtxNext, PstNext, MovesRoles;
    match e
    case PimTurn(_) => PimShape(b.ports[i]);
    case PrtTurn(j) =>
      TurnMoves(b.ports[i]);
      assert i == j ==> StepOn(b, e, i) == PrtCall(b.ports[i]);
    case PrsTurn => PrsOn(b, i);
    case _ =>
  }

  /** On every run, a port that is left in peace for thirty-seven seconds, each with a tick and then nine
      turns, learns and forwards at their end; for seventeen, if its timer has run out and it is not
      about to discard. */
  lemma ForwardsInTime(bs: seq<Bridge>, es: seq<Event>, i: nat, role: Role, cuts: seq<nat>)
    requires AreSeconds(es, i, cuts) && AtPeace(bs, es, i, role, cuts[0], cuts[|cuts| - 1])
    requires var p := bs[cuts[0]].ports[i];
             || |cuts| - 1 >= 37
             || (|cuts| - 1 >= 17 && p.rt.fdWhile == 0 && !p.rt.state.DesignatedDiscard?)
    ensures var k := cuts[|cuts| - 1];
            i < |bs[k].ports| && bs[k].ports[i].rt.learn && bs[k].ports[i].rt.forward
            && Left(bs[k].ports[i], role) == 0
  {
    var k := cuts[|cuts| - 1];
    TimerIsBounded(bs, es, i, cuts[0]);
    SecondsLead(bs, es, i, role, cuts, |cuts| - 1);
    RunsAreSafe(bs, es, k);
    assert Safe(bs[k].ports[i]);
    NothingLeft(bs[k].ports[i], role);
  }

  // ----- The state machine follows ------------------------------------------

  /** How many turns of the state machine it takes to forward frames, on a port told to. */
  function StatesLeft(s: StateOf): nat {
    match s.state
    case Forwarding => if s.forwarding then 0 else 1
    case Learning => 2
    case Discarding => 3
  }

  lemma StateTurn(s: StateOf)
    requires StatesSafe(s)
    ensures var t := PstNext(s, true, true);
            StatesLeft(t) <= StatesLeft(s) && (StatesLeft(s) > 0 ==> StatesLeft(t) < StatesLeft(s))
  {
  }

  lemma OthersKeepState(b: Bridge, e: Event, i: nat)
    requires Known(b, e) && i < |b.ports| && e != PstTurn(i)
    ensures StepOn(b, e, i).st == b.ports[i].st
  {
    match e
    case PimTurn(_) => PimShape(b.ports[i]);
    case PrtTurn(_) => PrtOwnShape(PrtTree(Preempted(b.ports[i]).rt.state, Preempted(b.ports[i])));
    case PrsTurn => PrsOn(b, i);
    case _ =>
  }

  /** The turns of port i among events j .. k - 1 in the state machine. */
  function StateTurns(es: seq<Event>, i: nat, j: nat, k: nat): nat
    requires j <= k <= |es|
    decreases k
  {
    if j == k then 0 else StateTurns(es, i, j, k - 1) + if es[k - 1] == PstTurn(i) then 1 else 0
  }

  lemma {:induction false} StatesFollow(bs: seq<Bridge>, es: seq<Event>, i: nat, role: Role, j: nat, k: nat)
    requires AtPeace(bs, es, i, role, j, k) && Left(bs[j].ports[i], role) == 0
    ensures i < |bs[k].ports|
    ensures var left := StatesLeft(bs[k].ports[i].st);
            left == 0 || left + StateTurns(es, i, j, k) <= StatesLeft(bs[j].ports[i].st)
    decreases k
  {
    hide Left, Peaceful, StatesLeft;
    if j < k {
      StepHelps(bs, es, i, role, j, k);
      StatesFollow(bs, es, i, role, j, k - 1);
      WaitNeverGrows(bs, es, i, role, j, k - 1);
      NothingLeft(bs[k - 1].ports[i], role);
      if es[k - 1] == PstTurn(i) {
        StateTurn(bs[k - 1].ports[i].st);
      } else {
        OthersKeepState(bs[k - 1], es[k - 1], i);
      }
    }
  }

  /** And with three more turns of the state machine in the same peace, frames are learnt from and
      forwarded. */
  lemma FramesAreForwarded(bs: seq<Bridge>, es: seq<Event>, i: nat, role: Role, cuts: seq<nat>, k: nat)
    requires AreSeconds(es, i, cuts) && |cuts| - 1 >= 37 && cuts[|cuts| - 1] <= k
    requires AtPeace(bs, es, i, role, cuts[0], k) && StateTurns(es, i, cuts[|cuts| - 1], k) >= 3
    ensures i < |bs[k].ports|
    ensures var p := bs[k].ports[i]; p.rt.learn && p.rt.forward && p.st.learning && p.st.forwarding
  {
    var m := cuts[|cuts| - 1];
    CutsIncrease(es, i, cuts, |cuts| - 1);
    PeaceBefore(bs, es, i, role, cuts[0], m, k);
    ForwardsInTime(bs, es, i, role, cuts);
    StatesFollow(bs, es, i, role, m, k);
    WaitNeverGrows(bs, es, i, role, m, k);
    RunsAreSafe(bs, es, k);
    assert Safe(bs[k].ports[i]);
    NothingLeft(bs[k].ports[i], role);
  }
}
