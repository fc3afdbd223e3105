/** Role selection (17.21.25 of IEEE 802.1D-2004): which port becomes the root port, and how the
    reselect handshake between the information machines and role selection settles. */
module RstpRoles {
  import opened Vector
  import opened RstpPort
  import opened RstpBridge

  // ----- The root port is a minimum -----------------------------------------

  /** What candidates are compared by: root path priority, then port identifier. */
  function Key(p: Port): Bytes { RootPathPriority(p.info.portPriority) + p.fixed.portId }

  function OwnKey(id: BridgeId): Bytes { OwnPriority(id) + [0, 0] }

  function BestKey(best: Best): Bytes { best.priority + best.portId }

  lemma BeatsIsLess(p: Port, best: Best)
    ensures Beats(RootPathPriority(p.info.portPriority), p.fixed.portId, best) <==>
              Compare(Key(p), BestKey(best)) < 0
  {
    CompareJoined(RootPathPriority(p.info.portPriority), best.priority, p.fixed.portId, best.portId);
  }

  ghost predicate IsBest(ports: seq<Port>, id: BridgeId, n: nat, best: Best)
    requires n <= |ports|
  {
    && Compare(BestKey(best), OwnKey(id)) <= 0
    && (forall i | 0 <= i < n && IsForeign(ports[i], id) :: Compare(BestKey(best), Key(ports[i])) <= 0)
    && if 0 <= best.port < n then
         && IsForeign(ports[best.port], id) && Key(ports[best.port]) == BestKey(best)
         && Compare(BestKey(best), OwnKey(id)) < 0
       else best.port == -1 && BestKey(best) == OwnKey(id)
  }

  lemma {:induction false} ScanIsBest(ports: seq<Port>, id: BridgeId, n: nat)
    requires n <= |ports|
    ensures IsBest(ports, id, n, Scan(ports, id, n))
  {
    if n == 0 {
      CompareIsEquality(OwnKey(id), OwnKey(id));
    } else {
      ScanIsBest(ports, id, n - 1);
      var before, best, p := Scan(ports, id, n - 1), Scan(ports, id, n), ports[n - 1];
      BeatsIsLess(p, before);
      BestStep(ports, id, n, before, best);
    }
  }

  lemma BestStep(ports: seq<Port>, id: BridgeId, n: nat, before: Best, after: Best)
    requires 0 < n <= |ports| && IsBest(ports, id, n - 1, before) && -1 <= before.port < n - 1
    requires var p := ports[n - 1];
             if IsForeign(p, id) && Compare(Key(p), BestKey(before)) < 0 then
               after == Best(RootPathPriority(p.info.portPriority), p.fixed.portId, n - 1)
             else after == before
    ensures IsBest(ports, id, n, after)
  {
    var p := ports[n - 1];
    CompareIsAntisymmetric(Key(p), BestKey(before));
    if after != before {
      assert BestKey(after) == Key(p);
      CompareIsTransitive(BestKey(after), BestKey(before), OwnKey(id));
      CompareIsEquality(BestKey(after), Key(p));
      forall i | 0 <= i < n - 1 && IsForeign(ports[i], id)
        ensures Compare(BestKey(after), Key(ports[i])) <= 0
      {
        CompareIsTransitive(BestKey(after), BestKey(before), Key(ports[i]));
      }
    }
  }

  ghost predicate DistinctIds(ports: seq<Port>) {
    forall i, j | 0 <= i < j < |ports| :: ports[i].fixed.portId != ports[j].fixed.portId
  }

  /** Port i is the one that role selection should make the root port: it hears from another bridge,
      that beats the bridge's own claim, and no other such port has a smaller key. */
  ghost predicate IsRoot(ports: seq<Port>, id: BridgeId, i: nat)
    requires i < |ports|
  {
    && IsForeign(ports[i], id)
    && Compare(Key(ports[i]), OwnKey(id)) < 0
    && forall j | 0 <= j < |ports| && IsForeign(ports[j], id) :: Compare(Key(ports[i]), Key(ports[j])) <= 0
  }

  /** updtRolesTree gives the root role to exactly the minimal port, and to no port exactly when no
      port hears of a better root; so at most one port has it. */
  lemma RootRoleIsTheMinimum(b: Bridge, i: nat)
    requires i < |b.ports| && DistinctIds(b.ports)
    ensures UpdtRolesTree(b).ports[i].sel.selectedRole.RoleRoot? <==> IsRoot(b.ports, b.id, i)
    ensures UpdtRolesTree(b).rootPriority + UpdtRolesTree(b).rootPortId ==
              BestKey(Scan(b.ports, b.id, |b.ports|))
  {
    var best := Scan(b.ports, b.id, |b.ports|);
    ScanIsBest(b.ports, b.id, |b.ports|);
    RootRoleIsBest(b, i);
    if IsRoot(b.ports, b.id, i) && best.port != i {
      MinimumIsUnique(b, i, best);
    }
  }

  lemma RootRoleIsBest(b: Bridge, i: nat)
    requires i < |b.ports|
    ensures UpdtRolesTree(b).ports[i].sel.selectedRole.RoleRoot?
            <==> b.ports[i].info.infoIs.InfoReceived? && Scan(b.ports, b.id, |b.ports|).port == i
  {
  }

  lemma MinimumIsUnique(b: Bridge, i: nat, best: Best)
    requires i < |b.ports| && DistinctIds(b.ports) && IsRoot(b.ports, b.id, i)
    requires IsBest(b.ports, b.id, |b.ports|, best)
    ensures best.port == i
  {
    var r := best.port;
    CompareIsAntisymmetric(BestKey(best), Key(b.ports[i]));
    if r != -1 {
      CompareIsEquality(Key(b.ports[r]), Key(b.ports[i]));
      assert Key(b.ports[r])[22..] == b.ports[r].fixed.portId;
      assert Key(b.ports[i])[22..] == b.ports[i].fixed.portId;
    }
  }

  /** The choice does not depend on the order in which ports were registered. */
  lemma RootDoesNotDependOnOrder(b: Bridge, c: Bridge, i: nat, j: nat)
    requires b.id == c.id && DistinctIds(b.ports) && DistinctIds(c.ports)
    requires forall p :: p in b.ports <==> p in c.ports
    requires i < |b.ports| && j < |c.ports| && b.ports[i] == c.ports[j]
    ensures UpdtRolesTree(b).ports[i].sel.selectedRole.RoleRoot? <==>
              UpdtRolesTree(c).ports[j].sel.selectedRole.RoleRoot?
  {
    RootRoleIsTheMinimum(b, i);
    RootRoleIsTheMinimum(c, j);
    if IsRoot(b.ports, b.id, i) {
      RootDependsOnMembers(b.ports, c.ports, b.id, i, j);
    }
    if IsRoot(c.ports, c.id, j) {
      RootDependsOnMembers(c.ports, b.ports, b.id, j, i);
    }
  }

  lemma RootDependsOnMembers(ps: seq<Port>, qs: seq<Port>, id: BridgeId, i: nat, j: nat)
    requires forall p :: p in qs ==> p in ps
    requires i < |ps| && j < |qs| && ps[i] == qs[j] && IsRoot(ps, id, i)
    ensures IsRoot(qs, id, j)
  {
    forall m | 0 <= m < |qs| && IsForeign(qs[m], id)
      ensures Compare(Key(qs[j]), Key(qs[m])) <= 0
    {
      assert qs[m] in ps;
      var n :| 0 <= n < |ps| && ps[n] == qs[m];
    }
  }

  // ----- Reselection settles ------------------------------------------------

  /** The machine whose turn is next in fsm_run, on port `port`; role selection after the last. */
  datatype Machine = OfPtx | OfPim | OfPrt | OfPst

  datatype Cursor = At(port: nat, machine: Machine)

  const Boundary: Cursor := At(0, OfPtx)

  function Turn(c: Cursor, n: nat): Event {
    if c.port >= n then PrsTurn
    else
      match c.machine
      case OfPtx => PtxTurn(c.port)
      case OfPim => PimTurn(c.port)
      case OfPrt => PrtTurn(c.port)
      case OfPst => PstTurn(c.port)
  }

  function Advance(c: Cursor, n: nat): Cursor {
    if c.port >= n then Boundary
    else
      match c.machine
      case OfPtx => At(c.port, OfPim)
      case OfPim => At(c.port, OfPrt)
      case OfPrt => At(c.port, OfPst)
      case OfPst => At(c.port + 1, OfPtx)
  }

  /** fsm_run's order over n ports, with ticks and the surroundings anywhere and registration between
      cycles, where the list lock lets it. */
  predicate InTurn(e: Event, c: Cursor, n: nat, next: Cursor) {
    match e
    case Tick => next == c
    case Surround(_, _) => next == c
    case Register(_) => c == Boundary && next == c
    case _ => e == Turn(c, n) && next == Advance(c, n)
  }

  ghost predicate CursorAt(bs: seq<Bridge>, es: seq<Event>, cs: seq<Cursor>, k: nat)
    requires |bs| == |cs| == |es| + 1 && k < |es|
  {
    InTurn(es[k], cs[k], |bs[k].ports|, cs[k + 1])
  }

  ghost predicate IsCycling(bs: seq<Bridge>, es: seq<Event>, cs: seq<Cursor>) {
    && IsRun(bs, es)
    && |cs| == |bs| && cs[0] == Boundary
    && forall k | 0 <= k < |es| :: CursorAt(bs, es, cs, k)
  }

  /** A run goes on with any event that is in turn. */
  lemma RunGoesOn(bs: seq<Bridge>, es: seq<Event>, cs: seq<Cursor>, e: Event, c: Cursor)
    requires IsCycling(bs, es, cs) && Known(bs[|es|], e) && InTurn(e, cs[|es|], |bs[|es|].ports|, c)
    ensures IsCycling(bs + [Step(bs[|es|], e)], es + [e], cs + [c])
  {
    var bs', es', cs' := bs + [Step(bs[|es|], e)], es + [e], cs + [c];
    forall k | 0 <= k < |es'|
      ensures StepAt(bs', es', k) && CursorAt(bs', es', cs', k)
    {
      if k < |es| {
        assert StepAt(bs, es, k) && CursorAt(bs, es, cs, k);
      }
    }
  }

  /** The port's information machine has had its first turn. */
  predicate Started(p: Port) { !p.info.state.PimDisabled? }

  predicate Settling(p: Port) {
    if Started(p) then p.sel.selected == !p.sel.reselect else !p.sel.selected && !p.sel.reselect
  }

  predicate Reached(c: Cursor, i: nat) {
    i < c.port || (i == c.port && (c.machine.OfPrt? || c.machine.OfPst?))
  }

  ghost predicate CyclesSafe(b: Bridge, c: Cursor) {
    forall i | 0 <= i < |b.ports| :: PortCyclesSafe(b, c, i)
  }

  ghost predicate PortCyclesSafe(b: Bridge, c: Cursor, i: nat)
    requires i < |b.ports|
  {
    Settling(b.ports[i]) && (Reached(c, i) ==> Started(b.ports[i]))
  }

  lemma PimSettles(p: Port)
    requires Settling(p)
    ensures Settling(PimCall(p)) && Started(PimCall(p))
  {
    match p.info.state
    case PimReceive => assert PimCall(p).sel == p.sel; ClassifyIsNotDisabled(ReadMessage(p.info));
    case SuperiorDesignated => assert PimCall(p) == OnSuperior(p);
    case PimUpdate => assert PimCall(p).sel == p.sel.(updtInfo := PimCall(p).sel.updtInfo);
    case PimDisabled => assert PimCall(p) == OnDisabled(p);
    case PimAged => assert PimCall(p) == OnAged(p);
    case PimCurrent => assert PimCall(p).sel == p.sel;
    case _ => assert PimCall(p).sel == p.sel && PimCall(p).info.state.PimCurrent?;
  }

  lemma ClassifyIsNotDisabled(i: Information)
    ensures !Classify(i).PimDisabled?
  {
  }

  lemma PrtSelectionShape(p: Port)
    ensures PrtCall(p).sel == p.sel && PrtCall(p).info == p.info
  {
    var q := PrtTree(Preempted(p).rt.state, Preempted(p));
    assert q.sel == p.sel && q.info == p.info;
    OwnSelectionShape(q);
  }

  lemma OwnSelectionShape(q: Port)
    ensures PrtOwn(q).sel == q.sel && PrtOwn(q).info == q.info
  {
  }

  lemma PrsSettles(b: Bridge, i: nat)
    requires i < |b.ports| && Settling(b.ports[i]) && Started(b.ports[i])
    ensures |PrsCall(b).ports| == |b.ports|
    ensures Settling(PrsCall(b).ports[i]) && Started(PrsCall(b).ports[i])
  {
    PrsOn(b, i);
    if b.prs.RoleSelection? && !b.prsExec {
      PrsSelects(b, i);
      var cleared := MapPorts(b.ports, ClearReselect);
      var best := Scan(cleared, b.id, |cleared|);
      var p := Designated(cleared[i], best, b.id, b.times);
      AssignRoleIsARole(p.info, p.sel, best.port == i, b.id);
    }
  }

  lemma EventSettles(b: Bridge, e: Event, c: Cursor, i: nat)
    requires Known(b, e) && i < |b.ports| && PortCyclesSafe(b, c, i)
    requires e.PrsTurn? ==> c.port >= |b.ports|
    ensures Settling(StepOn(b, e, i))
    ensures Started(b.ports[i]) || e == PimTurn(i) ==> Started(StepOn(b, e, i))
  {
    match e
    case PimTurn(_) => PimSettles(b.ports[i]);
    case PrtTurn(_) => PrtSelectionShape(b.ports[i]);
    case PrsTurn => PrsSettles(b, i);
    case _ =>
  }

  lemma {:induction false} CyclesStaySafe(bs: seq<Bridge>, es: seq<Event>, cs: seq<Cursor>, k: nat)
    requires IsCycling(bs, es, cs) && k < |bs|
    ensures CyclesSafe(bs[k], cs[k])
  {
    if k > 0 {
      CyclesStaySafe(bs, es, cs, k - 1);
      assert CursorAt(bs, es, cs, k - 1) && StepAt(bs, es, k - 1);
      forall i | 0 <= i < |bs[k].ports|
        ensures PortCyclesSafe(bs[k], cs[k], i)
      {
        if i < |bs[k - 1].ports| {
          assert PortCyclesSafe(bs[k - 1], cs[k - 1], i);
          StepIsLocal(bs[k - 1], es[k - 1], i);
          EventSettles(bs[k - 1], es[k - 1], cs[k - 1], i);
        }
      }
    }
  }

  /** On every run of the daemon's loop, a port whose information machine has had a turn is selected
      exactly when it is not waiting for reselection; at every moment, so also between cycles, and
      by then every port of the cycle has had its turn. */
  lemma SelectedIffNotReselecting(bs: seq<Bridge>, es: seq<Event>, cs: seq<Cursor>, k: nat, i: nat)
    requires IsCycling(bs, es, cs) && k < |bs| && i < |bs[k].ports|
    ensures Started(bs[k].ports[i]) ==> (bs[k].ports[i].sel.selected <==> !bs[k].ports[i].sel.reselect)
    ensures cs[k].port >= |bs[k].ports| ==> Started(bs[k].ports[i])
  {
    CyclesStaySafe(bs, es, cs, k);
    assert PortCyclesSafe(bs[k], cs[k], i);
  }

  /** So at the end of a cycle every port is selected exactly when it does not wait for reselection. */
  lemma SettledAfterCycle(bs: seq<Bridge>, es: seq<Event>, cs: seq<Cursor>, k: nat, i: nat)
    requires IsCycling(bs, es, cs) && k < |es| && es[k].PrsTurn? && i < |bs[k + 1].ports|
    ensures bs[k + 1].ports[i].sel.selected <==> !bs[k + 1].ports[i].sel.reselect
  {
    assert CursorAt(bs, es, cs, k) && StepAt(bs, es, k);
    CyclesStaySafe(bs, es, cs, k);
    assert PortCyclesSafe(bs[k], cs[k], i);
    PrsSettles(bs[k], i);
  }

  /** What role selection leaves pending it takes up at its next turn. */
  lemma PendingIsServed(b: Bridge)
    ensures AnyReselect(PrsCall(b).ports) ==> PrsCall(b).prs.RoleSelection? && !PrsCall(b).prsExec
    ensures b.prs.RoleSelection? && !b.prsExec ==>
              !AnyReselect(PrsCall(b).ports) && AllSelected(PrsCall(b).ports)
  {
    if b.prs.RoleSelection? && !b.prsExec {
      forall i | 0 <= i < |PrsCall(b).ports|
        ensures PrsCall(b).ports[i].sel.selected && !PrsCall(b).ports[i].sel.reselect
      {
        SelectionClears(b, i);
      }
    }
  }

  lemma {:induction false} PrsWaits(bs: seq<Bridge>, es: seq<Event>, j: nat, k: nat)
    requires IsRun(bs, es) && j <= k <= |es| && forall m | j <= m < k :: !es[m].PrsTurn?
    ensures bs[k].prs == bs[j].prs && bs[k].prsExec == bs[j].prsExec
  {
    if j < k {
      PrsWaits(bs, es, j, k - 1);
      assert StepAt(bs, es, k - 1);
    }
  }

  /** A request to reselect that is still pending at the end of one cycle is gone at the end of the
      next, with every other one: roles are computed then and every port is selected. */
  lemma ReselectIsServedNextCycle(bs: seq<Bridge>, es: seq<Event>, j: nat, k: nat)
    requires IsRun(bs, es) && j < k < |es| && es[j].PrsTurn? && es[k].PrsTurn?
    requires forall m | j < m < k :: !es[m].PrsTurn?
    requires AnyReselect(bs[j + 1].ports)
    ensures !AnyReselect(bs[k + 1].ports) && AllSelected(bs[k + 1].ports)
  {
    assert StepAt(bs, es, j) && StepAt(bs, es, k);
    PrsWaits(bs, es, j + 1, k);
    var ports := bs[k + 1].ports;
    forall i | 0 <= i < |ports|
      ensures ports[i].sel.selected && !ports[i].sel.reselect
    {
      SelectionClears(bs[k], i);
    }
  }

  predicate AllSelected(ports: seq<Port>) {
    forall i | 0 <= i < |ports| :: ports[i].sel.selected
  }

  lemma SelectionClears(b: Bridge, i: nat)
    requires i < |b.ports| && b.prs.RoleSelection? && !b.prsExec
    ensures |PrsCall(b).ports| == |b.ports|
    ensures PrsCall(b).ports[i].sel.selected && !PrsCall(b).ports[i].sel.reselect
  {
    PrsSelects(b, i);
    var cleared := MapPorts(b.ports, ClearReselect);
    var best := Scan(cleared, b.id, |cleared|);
    var p := Designated(cleared[i], best, b.id, b.times);
    AssignRoleIsARole(p.info, p.sel, best.port == i, b.id);
  }
}
