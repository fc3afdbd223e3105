/** The daemon's list of ports: the loops over it (userspace/rstp/fsm/prt.c:31-47,
    userspace/rstp/fsm/prs.c, userspace/rstp/rstpd.c:58-76) and one round of fsm_run. The daemon keeps,
    for the proofs alone, the states and events so far; every call adds its event, so that these are
    a run of `RstpBridge` in the order of fsm_run, and all that holds on runs holds of the daemon. */
module RstpDaemon {
  import opened Vector
  import opened RstpPort
  import opened RstpBridge
  import opened RstpMachine
  import opened RstpActions
  import opened RstpElection
  import opened RstpSafety
  import opened RstpTiming
  import opened RstpInfo
  import opened RstpRoles

  /** What a list of port objects stands for. */
  ghost function Views(ports: seq<RstpInterface>): (r: seq<Port>)
    reads ports
    ensures |r| == |ports| && forall i | 0 <= i < |ports| :: r[i] == ports[i].View()
  {
    seq(|ports|, i requires 0 <= i < |ports| reads ports => ports[i].View())
  }

  lemma RolesTree(b: Bridge, ports: seq<Port>, best: Best)
    requires |ports| == |b.ports| && best == Scan(b.ports, b.id, |b.ports|)
    requires forall j | 0 <= j < |ports| ::
               ports[j] == Assigned(Designated(b.ports[j], best, b.id, b.times), best.port == j, b.id)
    ensures ports == UpdtRolesTree(b).ports
  {
  }

  /** The turns of one port, in the order of the machines ... */
  function TurnsOfPort(i: nat): seq<Event> { [PtxTurn(i), PimTurn(i), PrtTurn(i), PstTurn(i)] }

  /** ... and of the first n ports, in list order. */
  function TurnsOfPorts(n: nat): seq<Event> { if n == 0 then [] else TurnsOfPorts(n - 1) + TurnsOfPort(n - 1) }

  lemma FourTurns(es: seq<Event>, i: nat)
    ensures es + [PtxTurn(i)] + [PimTurn(i)] + [PrtTurn(i)] + [PstTurn(i)] == es + TurnsOfPort(i)
  {
  }

  class Daemon {
    const id: BridgeId
    const times: Times
    var ports: seq<RstpInterface>
    var prs: Prs
    var prsExec: bool
    var rootPriority: Vec4
    var rootPortId: PortId
    // what has happened
    ghost var bs: seq<Bridge>
    ghost var es: seq<Event>
    ghost var cs: seq<Cursor>

    /** No port is on the list twice. */
    ghost predicate Valid()
      reads this
    {
      forall i, j | 0 <= i < j < |ports| :: ports[i] != ports[j]
    }

    ghost function View(): Bridge
      reads this, ports
    {
      Bridge(id, times, Views(ports), prs, prsExec, rootPriority, rootPortId)
    }

    /** All that has happened is a run in the order of fsm_run, and this is where it has come to. */
    ghost predicate OnCycle()
      reads this, ports
    {
      Valid() && IsCycling(bs, es, cs) && bs[|es|] == View()
    }

    /** The machine whose turn is next. */
    ghost function Now(): Cursor
      requires |cs| > 0
      reads this
    {
      cs[|cs| - 1]
    }

    /** No port forwards against its role, no port has sent too much, no information has got worse. */
    ghost predicate InSafeState()
      reads this, ports
    {
      AllSafe(View()) && AllTxSafe(View()) && AllInfoSafe(View())
    }

    lemma RunsAreInSafeStates()
      requires OnCycle()
      ensures InSafeState()
    {
      RunsAreSafe(bs, es, |es|);
      forall i | 0 <= i < |ports|
        ensures TxSafe(View().ports[i].tx) && InfoSafe(View().ports[i].info)
      {
        RunsAreTxSafe(bs, es, |es|, i);
        RunsAreInfoSafe(bs, es, |es|, i);
      }
    }

    /** What has just happened goes into the history. */
    ghost method Record(e: Event, was: Bridge, next: Cursor)
      requires Valid() && IsCycling(bs, es, cs) && bs[|es|] == was && Known(was, e)
      requires InTurn(e, cs[|es|], |was.ports|, next) && View() == Step(was, e)
      modifies `bs, `es, `cs
      ensures OnCycle() && InSafeState() && es == old(es) + [e] && Now() == next
      ensures View() == old(View())
    {
      RunGoesOn(bs, es, cs, e, next);
      bs, es, cs := bs + [View()], es + [e], cs + [next];
      RunsAreInSafeStates();
    }

    constructor (id: BridgeId, times: Times)
      ensures OnCycle() && es == [] && Now() == Boundary && View().id == id && View().times == times
    {
      this.id, this.times := id, times;
      ports, prs, prsExec := [], InitBridge, false;
      rootPriority, rootPortId := seq(22, _ => 0), seq(2, _ => 0);
      new;
      bs, es, cs := [View()], [], [Boundary];
    }

    /** rstpd_register_interface. */
    method Register(portId: PortId)
      requires OnCycle() && Now() == Boundary
      modifies `ports, `bs, `es, `cs
      ensures OnCycle() && InSafeState() && View() == Step(old(View()), Event.Register(portId))
      ensures es == old(es) + [Event.Register(portId)] && Now() == Boundary
      ensures |ports| == old(|ports|) + 1 && ports[..old(|ports|)] == old(ports) && fresh(ports[old(|ports|)])
    {
      ghost var was := View();
      var port := new RstpInterface(portId, id);
      ports := ports + [port];
      assert Views(ports) == old(Views(ports)) + [FreshPort(portId, id)];
      Record(Event.Register(portId), was, Boundary);
    }

    /** pti_loop. */
    method Tick()
      requires OnCycle()
      modifies ports, `bs, `es, `cs
      ensures OnCycle() && InSafeState() && View() == Step(old(View()), Event.Tick)
      ensures es == old(es) + [Event.Tick] && Now() == old(Now())
    {
      ghost var was := View();
      DecrementAll();
      Record(Event.Tick, was, Now());
    }

    method DecrementAll()
      requires Valid()
      modifies ports
      ensures Views(ports) == MapPorts(old(Views(ports)), TickPort)
    {
      for i := 0 to |ports|
        invariant forall j | 0 <= j < i :: ports[j].View() == TickPort(old(ports[j].View()))
        invariant forall j | i <= j < |ports| :: ports[j].View() == old(ports[j].View())
      {
        ports[i].DecrementTimers();
      }
    }

    // ----- Port Role Transitions ---------------------------------------------

    method SetSyncTree()
      requires Valid()
      modifies ports
      ensures forall j | 0 <= j < |ports| ::
                ports[j].View() == old(ports[j].View()).(hs := old(ports[j].View()).hs.(sync := true))
    {
      for i := 0 to |ports|
        invariant forall j | 0 <= j < i ::
                    ports[j].View() == old(ports[j].View()).(hs := old(ports[j].View()).hs.(sync := true))
        invariant forall j | i <= j < |ports| :: ports[j].View() == old(ports[j].View())
      {
        ports[i].hs := ports[i].hs.(sync := true);
      }
    }

    method SetReRootTree()
      requires Valid()
      modifies ports
      ensures forall j | 0 <= j < |ports| ::
                ports[j].View() == old(ports[j].View()).(hs := old(ports[j].View()).hs.(reRoot := true))
    {
      for i := 0 to |ports|
        invariant forall j | 0 <= j < i ::
                    ports[j].View() == old(ports[j].View()).(hs := old(ports[j].View()).hs.(reRoot := true))
        invariant forall j | i <= j < |ports| :: ports[j].View() == old(ports[j].View())
      {
        ports[i].hs := ports[i].hs.(reRoot := true);
      }
    }

    /** What a role state does to all ports before it acts on its own. */
    method TreeAction(state: Prt)
      requires Valid()
      modifies ports
      ensures forall j | 0 <= j < |ports| :: ports[j].View() == PrtTree(state, old(ports[j].View()))
    {
      if state.RootProposed? || state.AlternateProposed? {
        SetSyncTree();
      } else if state.ReRoot? {
        SetReRootTree();
      }
    }

    method PrtTurn(i: nat)
      requires OnCycle() && i < |ports| && Now() == At(i, OfPrt)
      modifies ports, `bs, `es, `cs
      ensures OnCycle() && InSafeState() && View() == Step(old(View()), Event.PrtTurn(i))
      ensures es == old(es) + [Event.PrtTurn(i)] && Now() == At(i, OfPst)
      ensures TurnDone(old(View()), View(), i)
    {
      hide TurnDone;
      ghost var was := View();
      TurnIsDone(was, i);
      RunPrt(i);
      Record(Event.PrtTurn(i), was, At(i, OfPst));
    }

    /** prt_func on port i: the global conditions, then the state. */
    method RunPrt(i: nat)
      requires Valid() && i < |ports|
      modifies ports
      ensures View() == Step(old(View()), Event.PrtTurn(i))
    {
      ports[i].CheckGlobalConditions();
      var state := ports[i].rt.state;
      TreeAction(state);
      ports[i].PrtState();
      assert Views(ports) == Step(old(View()), Event.PrtTurn(i)).ports;
    }

    // ----- The other per-port machines ---------------------------------------

    method PtxTurn(i: nat)
      requires OnCycle() && i < |ports| && Now() == At(i, OfPtx)
      modifies ports, `bs, `es, `cs
      ensures OnCycle() && InSafeState() && View() == Step(old(View()), Event.PtxTurn(i))
      ensures es == old(es) + [Event.PtxTurn(i)] && Now() == At(i, OfPim)
    {
      ghost var was := View();
      var sent := ports[i].PtxTurn();
      assert Views(ports) == Step(old(View()), Event.PtxTurn(i)).ports;
      Record(Event.PtxTurn(i), was, At(i, OfPim));
    }

    method PimTurn(i: nat)
      requires OnCycle() && i < |ports| && Now() == At(i, OfPim)
      modifies ports, `bs, `es, `cs
      ensures OnCycle() && InSafeState() && View() == Step(old(View()), Event.PimTurn(i))
      ensures es == old(es) + [Event.PimTurn(i)] && Now() == At(i, OfPrt)
    {
      ghost var was := View();
      ports[i].PimTurn();
      assert Views(ports) == Step(old(View()), Event.PimTurn(i)).ports;
      Record(Event.PimTurn(i), was, At(i, OfPrt));
    }

    method PstTurn(i: nat)
      requires OnCycle() && i < |ports| && Now() == At(i, OfPst)
      modifies ports, `bs, `es, `cs
      ensures OnCycle() && InSafeState() && View() == Step(old(View()), Event.PstTurn(i))
      ensures es == old(es) + [Event.PstTurn(i)] && Now() == At(i + 1, OfPtx)
    {
      ghost var was := View();
      ports[i].PstTurn();
      assert Views(ports) == Step(old(View()), Event.PstTurn(i)).ports;
      Record(Event.PstTurn(i), was, At(i + 1, OfPtx));
    }

    // ----- Port Role Selection -----------------------------------------------

    method UpdtRoleDisabledTree()
      requires Valid()
      modifies ports
      ensures Views(ports) == MapPorts(old(Views(ports)), DisableRole)
    {
      for i := 0 to |ports|
        invariant forall j | 0 <= j < i :: ports[j].View() == DisableRole(old(ports[j].View()))
        invariant forall j | i <= j < |ports| :: ports[j].View() == old(ports[j].View())
      {
        ports[i].sel := ports[i].sel.(selectedRole := RoleDisabled);
      }
    }

    method ClearReselectTree()
      requires Valid()
      modifies ports
      ensures Views(ports) == MapPorts(old(Views(ports)), ClearReselect)
    {
      for i := 0 to |ports|
        invariant forall j | 0 <= j < i :: ports[j].View() == ClearReselect(old(ports[j].View()))
        invariant forall j | i <= j < |ports| :: ports[j].View() == old(ports[j].View())
      {
        ports[i].sel := ports[i].sel.(reselect := false);
      }
    }

    /** The first loop of updtRolesTree: the running minimum over foreign information. */
    method FindRoot() returns (best: Best)
      requires Valid()
      ensures best == Scan(Views(ports), id, |ports|)
    {
      best := Best(OwnPriority(id), [0, 0], -1);
      for i := 0 to |ports|
        invariant best == Scan(Views(ports), id, i)
      {
        var entry := ports[i];
        if entry.info.infoIs.InfoReceived? && DesignatedBridge(entry.info.portPriority) != id {
          var rootPathPriority := RootPathPriority(entry.info.portPriority);
          if Compare(rootPathPriority, best.priority) < 0
             || (Compare(rootPathPriority, best.priority) == 0 && Compare(entry.fixed.portId, best.portId) < 0)
          {
            best := Best(rootPathPriority, entry.fixed.portId, i);
          }
        }
      }
    }

    method UpdtRolesTree()
      requires Valid()
      modifies ports, `rootPriority, `rootPortId
      ensures View() == RstpBridge.UpdtRolesTree(old(View())) && AllElected(old(View()), View())
    {
      hide AllElected;
      RolesAreElected(View());
      hide Scan, AssignRole, DesignatedPriority;
      var best := FindRoot();
      rootPriority := best.priority;
      rootPortId := best.portId;
      ghost var b := old(View());
      DesignateTree(best);
      AssignRoleTree(best);
      RolesTree(b, Views(ports), best);
    }

    /** The second loop of updtRolesTree. */
    method DesignateTree(best: Best)
      requires Valid()
      modifies ports
      ensures forall j | 0 <= j < |ports| :: ports[j].View() == Designated(old(ports[j].View()), best, id, times)
    {
      for i := 0 to |ports|
        invariant forall j | 0 <= j < i :: ports[j].View() == Designated(old(ports[j].View()), best, id, times)
        invariant forall j | i <= j < |ports| :: ports[j].View() == old(ports[j].View())
      {
        ports[i].sel := ports[i].sel.(
          designatedPriority := DesignatedPriority(best, id, ports[i].fixed.portId), designatedTimes := times);
      }
    }

    /** The third loop of updtRolesTree. */
    method AssignRoleTree(best: Best)
      requires Valid()
      modifies ports
      ensures forall j | 0 <= j < |ports| :: ports[j].View() == Assigned(old(ports[j].View()), best.port == j, id)
    {
      for i := 0 to |ports|
        invariant forall j | 0 <= j < i :: ports[j].View() == Assigned(old(ports[j].View()), best.port == j, id)
        invariant forall j | i <= j < |ports| :: ports[j].View() == old(ports[j].View())
      {
        AssignRoleOf(ports[i], best.port == i);
      }
    }

    method AssignRoleOf(entry: RstpInterface, isRoot: bool)
      modifies entry`sel
      ensures entry.sel == AssignRole(old(entry.info), old(entry.sel), isRoot, id)
    {
      match entry.info.infoIs
      case InfoDisabled => entry.sel := entry.sel.(selectedRole := RoleDisabled);
      case InfoAged =>
        entry.sel := entry.sel.(updtInfo := true);
        entry.sel := entry.sel.(selectedRole := RoleDesignated);
      case InfoMine =>
        entry.sel := entry.sel.(selectedRole := RoleDesignated);
        if entry.sel.designatedPriority != entry.info.portPriority
           || entry.sel.designatedTimes != entry.info.portTimes
        {
          entry.sel := entry.sel.(updtInfo := true);
        }
      case InfoReceived =>
        if isRoot {
          entry.sel := entry.sel.(selectedRole := RoleRoot, updtInfo := false);
        } else if Compare(entry.sel.designatedPriority, entry.info.portPriority) >= 0 {
          if DesignatedBridge(entry.info.portPriority) != id {
            entry.sel := entry.sel.(selectedRole := RoleAlternate);
          } else {
            entry.sel := entry.sel.(selectedRole := RoleBackup);
          }
          entry.sel := entry.sel.(updtInfo := false);
        } else {
          entry.sel := entry.sel.(selectedRole := RoleDesignated, updtInfo := true);
        }
    }

    method SomeReselect() returns (any: bool)
      ensures any == AnyReselect(Views(ports))
    {
      any := false;
      for i := 0 to |ports|
        invariant any <==> exists j | 0 <= j < i :: Views(ports)[j].sel.reselect
      {
        assert Views(ports)[i] == ports[i].View();
        any := any || ports[i].sel.reselect;
      }
    }

    method SetSelectedTree()
      requires Valid()
      modifies ports
      ensures Views(ports) == RstpBridge.SetSelectedTree(old(Views(ports)))
    {
      var allReselected := SomeReselect();
      if !allReselected {
        for i := 0 to |ports|
          invariant forall j | 0 <= j < i :: ports[j].View() == Select(old(ports[j].View()))
          invariant forall j | i <= j < |ports| :: ports[j].View() == old(ports[j].View())
        {
          ports[i].sel := ports[i].sel.(selected := true);
        }
      }
    }

    method PrsInitBridge()
      requires Valid() && prs.InitBridge?
      modifies ports, `prs, `prsExec
      ensures View() == PrsCall(old(View()))
    {
      UpdtRoleDisabledTree();
      prs := RoleSelection;
      prsExec := false;
    }

    method Reselect()
      requires Valid()
      modifies ports, `rootPriority, `rootPortId
      ensures View() == Reselected(old(View()))
    {
      ClearReselectTree();
      UpdtRolesTree();
      SetSelectedTree();
    }

    method PrsRoleSelection()
      requires Valid() && prs.RoleSelection?
      modifies ports, `prsExec, `rootPriority, `rootPortId
      ensures View() == PrsCall(old(View()))
    {
      hide Reselected, AnyReselect;
      if !prsExec {
        Reselect();
      }
      var reselectPorts := SomeReselect();
      prsExec := !reselectPorts;
    }

    method PrsTurn()
      requires OnCycle() && Now().port >= |ports|
      modifies ports, `prs, `prsExec, `rootPriority, `rootPortId, `bs, `es, `cs
      ensures OnCycle() && InSafeState() && View() == Step(old(View()), Event.PrsTurn)
      ensures es == old(es) + [Event.PrsTurn] && Now() == Boundary
      ensures old(prs.RoleSelection? && !prsExec) ==> AllElected(old(View()), View())
    {
      hide AllElected, PrsCall;
      ghost var was := View();
      if prs.RoleSelection? && !prsExec {
        SelectionElects(was);
      }
      match prs {
        case InitBridge => PrsInitBridge();
        case RoleSelection => PrsRoleSelection();
      }
      Record(Event.PrsTurn, was, Boundary);
    }

    // ----- The surroundings --------------------------------------------------

    /** The machines and the thread that are not modelled may set what is theirs, at any time. */
    method Surround(i: nat, env: Surroundings)
      requires OnCycle() && i < |ports|
      modifies ports, `bs, `es, `cs
      ensures OnCycle() && InSafeState() && View() == Step(old(View()), Event.Surround(i, env))
      ensures es == old(es) + [Event.Surround(i, env)] && Now() == old(Now())
    {
      ghost var was := View();
      var port := ports[i];
      port.tx := port.tx.(sendRSTP := env.sendRSTP, newInfo := env.newInfo, tcAck := env.tcAck, tcWhile := env.tcWhile);
      port.info := port.info.(rcvdMsg := env.rcvdMsg, rcvdTc := env.rcvdTc, rcvdTcAck := env.rcvdTcAck,
                              rcvdTcn := env.rcvdTcn, buf := env.buf);
      port.hs := port.hs.(mdelayWhile := env.mdelayWhile, edgeDelayWhile := env.edgeDelayWhile);
      assert Views(ports) == Step(was, Event.Surround(i, env)).ports;
      Record(Event.Surround(i, env), was, Now());
    }

    // ----- fsm_run -----------------------------------------------------------

    /** One round of the daemon: every machine of every port in list order, then role selection. At its
        end every port is selected exactly when it does not wait for reselection; and a request that is
        pending then is gone, with every other one, at the end of the next round. */
    method FsmRound()
      requires OnCycle() && Now() == Boundary
      modifies ports, `prs, `prsExec, `rootPriority, `rootPortId, `bs, `es, `cs
      ensures OnCycle() && InSafeState() && Now() == Boundary && View() == Round(old(View()))
      ensures es == old(es) + TurnsOfPorts(|ports|) + [Event.PrsTurn]
      ensures forall i | 0 <= i < |ports| :: ports[i].sel.selected <==> !ports[i].sel.reselect
      ensures AnyReselect(View().ports) ==> prs.RoleSelection? && !prsExec
      ensures old(prs.RoleSelection? && !prsExec) ==> !AnyReselect(View().ports) && AllSelected(View().ports)
    {
      hide PortTurns, PrsCall;
      PortRounds();
      ghost var before := View();
      PrsTurn();
      PendingIsServed(before);
      RoundSettles();
    }

    /** After a turn of role selection, in the order of fsm_run. */
    lemma RoundSettles()
      requires OnCycle() && |es| > 0 && es[|es| - 1].PrsTurn?
      ensures forall i | 0 <= i < |ports| :: ports[i].sel.selected <==> !ports[i].sel.reselect
    {
      forall i | 0 <= i < |ports|
        ensures ports[i].sel.selected <==> !ports[i].sel.reselect
      {
        SettledAfterCycle(bs, es, cs, |es| - 1, i);
        assert View().ports[i] == ports[i].View();
      }
    }

    method PortRounds()
      requires OnCycle() && Now() == Boundary
      modifies ports, `bs, `es, `cs
      ensures OnCycle() && Now() == At(|ports|, OfPtx) && View() == PortTurns(old(View()), |ports|)
      ensures es == old(es) + TurnsOfPorts(|ports|)
    {
      hide TurnsOf, TurnsOfPort;
      ghost var b := View();
      for i := 0 to |ports|
        invariant es == old(es) + TurnsOfPorts(i)
        invariant OnCycle() && Now() == At(i, OfPtx) && View() == PortTurns(b, i)
      {
        PortRound(i);
      }
    }

    method PortRound(i: nat)
      requires OnCycle() && i < |ports| && Now() == At(i, OfPtx)
      modifies ports, `bs, `es, `cs
      ensures OnCycle() && View() == TurnsOf(old(View()), i) && Now() == At(i + 1, OfPtx)
      ensures es == old(es) + TurnsOfPort(i)
    {
      hide PtxCall, PimCall, PrtCall, PstCall, TurnDone, IsCycling, AllSafe, AllTxSafe, AllInfoSafe, TurnsOfPort;
      FourTurns(es, i);
      PtxTurn(i);
      PimTurn(i);
      PrtTurn(i);
      PstTurn(i);
    }
  }
}
