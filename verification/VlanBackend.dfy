/** The VLAN backend as it runs (userspace/switch/linux/linux.c, userspace/switch/linux/util_linux.c,
    the data accessors of userspace/switch/switch.c): lists in shared memory on one side, bridges and
    802.1Q sub-interfaces in the kernel on the other, both updated one device at a time. Lists are
    visited in any order. */
module VlanBackend {
  import opened Bitmap
  import opened Options
  import opened VlanConfig

  ghost predicate NoDuplicates<T>(s: seq<T>) {
    forall i, j | 0 <= i < j < |s| :: s[i] != s[j]
  }

  class Backend {
    // shared memory: the sub-interfaces of every VLAN, and the data of every interface
    var vlanData: map<nat, seq<Dev>>
    var ifData: map<IfIndex, IfData>
    // kernel: the members of every bridge, and the sub-interfaces that exist
    var bridges: map<nat, set<Dev>>
    var subs: set<Dev>

    ghost function Cfg(): Config
      reads this
    {
      Config(vlanData.Keys, ifData)
    }

    /** The list of VLAN v names exactly the sub-interfaces in its bridge, once each. */
    ghost predicate ListAgrees(v: nat)
      requires v in vlanData && v in bridges
      reads this
    {
      NoDuplicates(vlanData[v]) && forall d :: d in vlanData[v] <==> d.Sub? && d in bridges[v]
    }

    ghost predicate SubExists(d: Dev)
      reads this
    {
      d.Sub? && d.vlan in vlanData && d.vlan in bridges && d in bridges[d.vlan]
    }

    /** The lists and the kernel agree with each other. */
    ghost predicate Realizes()
      reads this
    {
      && WellFormed(Cfg())
      && (forall v :: v in bridges <==> HasBridge(Cfg(), v))
      && (forall v | v in vlanData :: v in bridges && ListAgrees(v))
      && (forall d :: d in subs <==> SubExists(d))
      && forall v, d | v in bridges && d in bridges[v] && d.Sub? :: d.vlan == v && v in vlanData
    }

    /** ... and with the configuration. */
    ghost predicate Agrees()
      reads this
    {
      Realizes() && Matches(bridges, Cfg())
    }

    /** switch_init on an empty segment: VLAN 1, which ports join at first, and the other default VLANs
        (userspace/switch/switch.c:319-337). */
    constructor ()
      ensures Agrees() && Cfg() == StartConfig()
      ensures vlanData.Keys == {1, 1002, 1003, 1004, 1005} && ifData == map[]
    {
      vlanData, ifData, bridges, subs := map[], map[], map[], {};
      new;
      var _ := VlanAdd(DEFAULT_VLAN);
      assert {} + {DEFAULT_VLAN} == DefaultVlansBelow(1002);
      AddReservedVlans();
    }

    method AddReservedVlans()
      requires Agrees() && Cfg() == Config(DefaultVlansBelow(1002), map[])
      modifies this
      ensures Agrees() && Cfg() == StartConfig()
    {
      for v := 1002 to 1006
        invariant Agrees() && Cfg() == Config(DefaultVlansBelow(v), map[])
      {
        var _ := VlanAdd(v);
        assert DefaultVlansBelow(v) + {v} == DefaultVlansBelow(v + 1);
      }
    }

    // ----- The kernel --------------------------------------------------------

    /** SIOCBRADDBR */
    method BrAdd(v: nat) returns (ok: bool)
      modifies `bridges
      ensures ok <==> v !in old(bridges)
      ensures bridges == if ok then old(bridges)[v := {}] else old(bridges)
    {
      ok := v !in bridges;
      if ok { bridges := bridges[v := {}]; }
    }

    /** SIOCBRDELBR */
    method BrRemove(v: nat) returns (ok: bool)
      modifies `bridges
      ensures ok <==> v in old(bridges)
      ensures bridges == old(bridges) - {v}
    {
      ok := v in bridges;
      bridges := bridges - {v};
    }

    predicate Enslaved(d: Dev)
      reads this
    {
      exists v | v in bridges :: d in bridges[v]
    }

    /** BRCTL_ADD_IF: the bridge exists and the device is in none. */
    method BrAddIf(v: nat, d: Dev) returns (ok: bool)
      modifies `bridges
      ensures ok <==> v in old(bridges) && !old(Enslaved(d))
      ensures bridges == if ok then old(bridges)[v := old(bridges)[v] + {d}] else old(bridges)
      ensures old(Realizes()) && d.Port? ==> Realizes()
    {
      ok := v in bridges && !Enslaved(d);
      if ok { bridges := bridges[v := bridges[v] + {d}]; }
    }

    /** BRCTL_DEL_IF */
    method BrRemoveIf(v: nat, d: Dev) returns (ok: bool)
      modifies `bridges
      ensures ok <==> v in old(bridges) && d in old(bridges)[v]
      ensures bridges == if ok then old(bridges)[v := old(bridges)[v] - {d}] else old(bridges)
      ensures old(Realizes()) && d.Port? ==> Realizes()
    {
      ok := v in bridges && d in bridges[v];
      if ok { bridges := bridges[v := bridges[v] - {d}]; }
    }

    /** ADD_VLAN_CMD */
    method CreateVif(i: IfIndex, v: nat) returns (ok: bool)
      modifies `subs
      ensures ok <==> Sub(i, v) !in old(subs)
      ensures subs == old(subs) + {Sub(i, v)}
    {
      ok := Sub(i, v) !in subs;
      subs := subs + {Sub(i, v)};
    }

    /** DEL_VLAN_CMD */
    method RemoveVif(d: Dev) returns (ok: bool)
      modifies `subs
      ensures ok <==> d in old(subs)
      ensures subs == old(subs) - {d}
    {
      ok := d in subs;
      subs := subs - {d};
    }

    // ----- Lists -------------------------------------------------------------

    /** add_vif_data */
    method AddVifData(v: nat, d: Dev)
      requires v in vlanData
      modifies `vlanData
      ensures vlanData == old(vlanData)[v := [d] + old(vlanData)[v]]
    {
      vlanData := vlanData[v := [d] + vlanData[v]];
    }

    /** del_vif_data */
    method DelVifData(v: nat, d: Dev)
      requires v in vlanData && d in vlanData[v] && NoDuplicates(vlanData[v])
      modifies `vlanData
      ensures vlanData.Keys == old(vlanData).Keys
      ensures forall w | w in vlanData && w != v :: vlanData[w] == old(vlanData)[w]
      ensures NoDuplicates(vlanData[v])
      ensures forall e :: e in vlanData[v] <==> e in old(vlanData)[v] && e != d
    {
      var list := vlanData[v];
      var k := 0;
      while list[k] != d
        invariant 0 <= k < |list| && d !in list[..k]
        decreases |list| - k
      {
        k := k + 1;
      }
      WithoutElement(list, k);
      vlanData := vlanData[v := list[..k] + list[k + 1..]];
    }

    /** has_vlan_if */
    method HasVlanIf(v: nat) returns (has: bool)
      requires WellFormed(Cfg())
      ensures has <==> VlanDev(v) in ifData
    {
      var todo := ifData.Keys;
      while todo != {}
        invariant todo <= ifData.Keys
        invariant VlanDev(v) in ifData ==> VlanDev(v) in todo
        decreases todo
      {
        var i :| i in todo;
        if ifData[i].ifType.Vif? && ifData[i].vlan == v {
          return true;
        }
        todo := todo - {i};
      }
      return false;
    }

    // ----- One sub-interface -------------------------------------------------

    /** The body of the loops that create sub-interfaces. */
    method MakeVif(i: IfIndex, v: nat) returns (ok: bool)
      requires Realizes() && v in vlanData && Sub(i, v) !in bridges[v]
      modifies `vlanData, `bridges, `subs
      ensures Realizes() && ok && Cfg() == old(Cfg())
      ensures bridges == old(bridges)[v := old(bridges)[v] + {Sub(i, v)}]
    {
      ok := CreateVif(i, v);
      if !ok {
        return;
      }
      AddVifData(v, Sub(i, v));
      var _ := BrAddIf(v, Sub(i, v));
      SubLinked(Sub(i, v));
    }

    /** A new sub-interface, put on the list and into the bridge of its VLAN. */
    twostate lemma SubLinked(d: Dev)
      requires old(Realizes()) && d.Sub? && d.vlan in old(vlanData) && d !in old(bridges)[d.vlan]
      requires ifData == old(ifData) && subs == old(subs) + {d}
      requires vlanData == old(vlanData)[d.vlan := [d] + old(vlanData)[d.vlan]]
      requires bridges == old(bridges)[d.vlan := old(bridges)[d.vlan] + {d}]
      ensures Realizes() && Cfg() == old(Cfg())
    {
      assert Cfg() == old(Cfg());
      assert old(ListAgrees(d.vlan));
      assert ListAgrees(d.vlan);
      forall v | v in vlanData && v != d.vlan
        ensures v in bridges && ListAgrees(v)
      {
        assert old(ListAgrees(v));
      }
      forall e: Dev
        ensures e in subs <==> SubExists(e)
      {
        assert e in old(subs) <==> old(SubExists(e));
      }
    }

    /** The body of the loops that remove sub-interfaces. */
    method DropVif(i: IfIndex, v: nat) returns (ok: bool)
      requires Realizes() && v in vlanData
      modifies `vlanData, `bridges, `subs
      ensures Realizes() && Cfg() == old(Cfg())
      ensures ok <==> Sub(i, v) in old(bridges)[v]
      ensures bridges == old(bridges)[v := old(bridges)[v] - {Sub(i, v)}]
    {
      ok := BrRemoveIf(v, Sub(i, v));
      if !ok {
        assert bridges[v] - {Sub(i, v)} == bridges[v];
        return;
      }
      ok := RemoveVif(Sub(i, v));
      if !ok {
        return;
      }
      DelVifData(v, Sub(i, v));
    }

    // ----- All sub-interfaces of a port --------------------------------------

    /** add_vifs_to_trunk: for the VLANs of `bitmap`, or of the port's own list. */
    method AddVifsToTrunk(i: IfIndex, bitmap: Option<Bitmap>) returns (ok: bool)
      requires Realizes() && i in ifData
      requires forall v | v in Selected(vlanData.Keys, bitmap, ifData[i]) :: Sub(i, v) !in bridges[v]
      modifies `vlanData, `bridges, `subs
      ensures Realizes() && ok && Cfg() == old(Cfg())
      ensures SubsAdded(old(bridges), bridges, i, Selected(vlanData.Keys, bitmap, ifData[i]))
    {
      ok := true;
      ghost var before, cfg, vlans := bridges, Cfg(), Selected(vlanData.Keys, bitmap, ifData[i]);
      var todo := vlanData.Keys;
      while todo != {}
        invariant Realizes() && ok && Cfg() == cfg && todo <= vlanData.Keys
        invariant SubsAdded(before, bridges, i, vlans - todo)
        decreases todo
      {
        var v :| v in todo;
        ghost var mid, rest := bridges, todo;
        todo := todo - {v};
        if Selects(bitmap, ifData[i], v) {
          ok := MakeVif(i, v);
        }
        OneSubsAdded(before, mid, bridges, i, vlans, rest, v);
      }
      assert vlans - {} == vlans;
    }

    /** remove_vifs_from_trunk; a sub-interface that is not in its bridge is skipped. */
    method RemoveVifsFromTrunk(i: IfIndex, bitmap: Option<Bitmap>) returns (ok: bool)
      requires Realizes() && i in ifData
      modifies `vlanData, `bridges, `subs
      ensures Realizes() && ok && Cfg() == old(Cfg())
      ensures SubsRemoved(old(bridges), bridges, i, Selected(vlanData.Keys, bitmap, ifData[i]))
    {
      ok := true;
      ghost var before, cfg, vlans := bridges, Cfg(), Selected(vlanData.Keys, bitmap, ifData[i]);
      var todo := vlanData.Keys;
      while todo != {}
        invariant Realizes() && ok && Cfg() == cfg && todo <= vlanData.Keys
        invariant SubsRemoved(before, bridges, i, vlans - todo)
        decreases todo
      {
        var v :| v in todo;
        ghost var mid, rest := bridges, todo;
        todo := todo - {v};
        if Selects(bitmap, ifData[i], v) {
          var _ := DropVif(i, v);
        }
        OneSubsRemoved(before, mid, bridges, i, vlans, rest, v);
      }
      assert vlans - {} == vlans;
    }

    /** set_if_data of a port that is there. */
    method SetIfData(i: IfIndex, d: IfData)
      requires Realizes() && i in ifData && i.Eth? && !d.ifType.Vif?
      modifies `ifData
      ensures Realizes() && Cfg() == WithIf(old(Cfg()), i, d)
    {
      ifData := ifData[i := d];
    }

    // ----- Ports -------------------------------------------------------------

    /** if_add */
    method IfAdd(i: IfIndex, mode: Mode) returns (ok: bool)
      requires Agrees() && i.Eth? && DEFAULT_VLAN in vlanData
      modifies this
      ensures Agrees() && Cfg() == VlanConfig.IfAdd(old(Cfg()), i, mode)
      ensures ok <==> i !in old(ifData)
      ensures !ok ==> unchanged(this)
      ensures ok ==> i in ifData && ifData - {i} == old(ifData) && vlanData.Keys == old(vlanData).Keys
      ensures ok ==> IsNewPort(ifData[i], mode) && OthersKeepPlaces(old(bridges), bridges, i)
      ensures ok ==> PortIn(bridges, i, if mode.Access? then {DEFAULT_VLAN} else {})
      ensures ok ==> SubsIn(bridges, i, if mode.Access? then {} else vlanData.Keys)
    {
      if i in ifData {
        return false;
      }
      ghost var c := Cfg();
      var d := IfData(Switched, mode, DEFAULT_VLAN, Full(), 0);
      ifData := ifData[i := d];
      assert VlanConfig.IfRemove(Cfg(), i) == c;
      ghost var before := bridges;
      ok := JoinBridges(i, mode);
      AllAllowed();
      PlacesOfPort(bridges, Cfg(), i);
      OthersArePlaced(before, bridges, c, Cfg(), i);
      assert AllowedOf(Cfg(), i) == vlanData.Keys;
      assert ifData - {i} == old(ifData);
    }

    /** How if_add puts a new port into its bridges. */
    method JoinBridges(i: IfIndex, mode: Mode) returns (ok: bool)
      requires Realizes() && i in ifData && i.Eth? && ifData[i].access in vlanData
      requires ifData[i].ifType.Switched? && ifData[i].mode == mode
      requires Matches(bridges, VlanConfig.IfRemove(Cfg(), i))
      modifies `vlanData, `bridges, `subs
      ensures Agrees() && ok && Cfg() == old(Cfg())
    {
      assert WithIf(Cfg(), i, ifData[i]) == Cfg();
      match mode
      case Trunk => ok := JoinTrunk(i);
      case Access => ok := JoinAccess(i, ifData[i].access);
    }

    method JoinTrunk(i: IfIndex) returns (ok: bool)
      requires Realizes() && i in ifData && i.Eth?
      requires Matches(bridges, VlanConfig.IfRemove(Cfg(), i))
      modifies `vlanData, `bridges, `subs
      ensures Realizes() && ok && Cfg() == old(Cfg())
      ensures Matches(bridges, AsTrunk(Cfg(), i))
    {
      ghost var before := bridges;
      NoSubsYet(bridges, Cfg(), i);
      ok := AddVifsToTrunk(i, None);
      TrunkJoined(before, bridges, Cfg(), i);
    }

    method JoinAccess(i: IfIndex, v: nat) returns (ok: bool)
      requires Realizes() && i in ifData && i.Eth?
      requires Matches(bridges, VlanConfig.IfRemove(Cfg(), i))
      modifies `bridges
      ensures Realizes() && Cfg() == old(Cfg())
      ensures ok <==> v in bridges
      ensures bridges == if ok then old(bridges)[v := old(bridges)[v] + {Port(i)}] else old(bridges)
      ensures v in vlanData ==> Matches(bridges, AsAccess(Cfg(), i, v))
    {
      ghost var before := bridges;
      assert !Enslaved(Port(i)) by {
        NoPortYet(bridges, Cfg(), i);
      }
      ok := BrAddIf(v, Port(i));
      if v in vlanData {
        AccessJoined(before, bridges, Cfg(), i, v);
      }
    }

    /** if_remove */
    method IfRemove(i: IfIndex) returns (ok: bool)
      requires Agrees() && i in ifData && i.Eth?
      modifies this
      ensures Agrees() && Cfg() == VlanConfig.IfRemove(old(Cfg()), i)
      ensures ok <==> (SwitchedIn(old(Cfg()), i, Access) ==> old(ifData)[i].access in old(vlanData))
      ensures ifData == old(ifData) - {i} && vlanData.Keys == old(vlanData).Keys
      ensures PortIn(bridges, i, {}) && SubsIn(bridges, i, {}) && OthersKeepPlaces(old(bridges), bridges, i)
    {
      ghost var c, before := Cfg(), bridges;
      ok := LeaveBridges(i);
      ifData := ifData - {i};
      PlacesOfPort(bridges, Cfg(), i);
      OthersArePlaced(before, bridges, c, Cfg(), i);
    }

    /** Takes an access port out of the bridge of its VLAN. */
    method LeaveAccess(i: IfIndex) returns (ok: bool)
      requires Agrees() && SwitchedIn(Cfg(), i, Access)
      modifies `bridges
      ensures Realizes() && Cfg() == old(Cfg())
      ensures Matches(bridges, VlanConfig.IfRemove(Cfg(), i))
      ensures ok <==> ifData[i].access in vlanData
    {
      ok := BrRemoveIf(ifData[i].access, Port(i));
    }

    /** What if_remove and if_no_switchport do to take a port out of its bridges. */
    method LeaveBridges(i: IfIndex) returns (ok: bool)
      requires Agrees() && i in ifData && i.Eth?
      modifies `vlanData, `bridges, `subs
      ensures Realizes() && Cfg() == old(Cfg())
      ensures Matches(bridges, VlanConfig.IfRemove(Cfg(), i))
      ensures ok <==> (SwitchedIn(Cfg(), i, Access) ==> ifData[i].access in vlanData)
    {
      ghost var before := bridges;
      if ifData[i].ifType.Routed? {
        return true;
      }
      if ifData[i].mode.Access? {
        ok := LeaveAccess(i);
      } else {
        ok := RemoveVifsFromTrunk(i, None);
        TrunkLeft(before, bridges, Cfg(), i);
      }
    }

    // ----- Modes -------------------------------------------------------------

    /** if_set_port_vlan */
    method IfSetPortVlan(i: IfIndex, v: nat) returns (ok: bool)
      requires Agrees() && i.Eth?
      modifies this
      ensures Agrees() && Cfg() == SetPortVlan(old(Cfg()), i, v)
      ensures ok <==> SwitchedIn(old(Cfg()), i, Access)
      ensures !ok ==> unchanged(this)
      ensures ok ==> i in old(ifData) && ifData == old(ifData)[i := old(ifData)[i].(access := v)]
      ensures vlanData.Keys == old(vlanData).Keys
      ensures ok ==> PortIn(bridges, i, if v in vlanData then {v} else {}) && SubsIn(bridges, i, {})
      ensures OthersKeepPlaces(old(bridges), bridges, i)
    {
      if i !in ifData || !ifData[i].mode.Access? || !ifData[i].ifType.Switched? {
        return false;
      }
      if ifData[i].access == v {
        assert ifData[i := ifData[i]] == ifData;
        PlacesOfPort(bridges, Cfg(), i);
        return true;
      }
      ok := MoveAccess(i, v);
    }

    /** An access port leaves one VLAN for another. */
    method MoveAccess(i: IfIndex, v: nat) returns (ok: bool)
      requires Agrees() && i.Eth? && SwitchedIn(Cfg(), i, Access) && ifData[i].access != v
      modifies this
      ensures ok && Agrees() && Cfg() == SetPortVlan(old(Cfg()), i, v)
      ensures ifData == old(ifData)[i := old(ifData)[i].(access := v)] && vlanData.Keys == old(vlanData).Keys
      ensures PortIn(bridges, i, if v in vlanData then {v} else {}) && SubsIn(bridges, i, {})
      ensures OthersKeepPlaces(old(bridges), bridges, i)
    {
      ghost var c, before := Cfg(), bridges;
      var _ := LeaveAccess(i);
      SetIfData(i, ifData[i].(access := v));
      assert VlanConfig.IfRemove(Cfg(), i) == VlanConfig.IfRemove(c, i);
      if v !in vlanData {
        AccessNowhere(bridges, Cfg(), i);
        ok := true;
      } else {
        ok := JoinAccess(i, v);
        assert AsAccess(Cfg(), i, v) == Cfg();
      }
      PlacesOfPort(bridges, Cfg(), i);
      OthersArePlaced(before, bridges, c, Cfg(), i);
    }

    /** if_no_switchport */
    method IfNoSwitchport(i: IfIndex) returns (ok: bool)
      requires Agrees()
      modifies this
      ensures Agrees() && Cfg() == NoSwitchport(old(Cfg()), i)
      ensures ok <==> i in old(ifData) && (SwitchedIn(old(Cfg()), i, Access) ==> old(ifData)[i].access in old(vlanData))
      ensures ok && old(ifData)[i].ifType.Switched? ==> ifData == old(ifData)[i := old(ifData)[i].(ifType := Routed)]
      ensures !ok || !old(ifData)[i].ifType.Switched? ==> ifData == old(ifData)
      ensures vlanData.Keys == old(vlanData).Keys
      ensures i.Eth? ==> OthersKeepPlaces(old(bridges), bridges, i) && PortIn(bridges, i, {}) && SubsIn(bridges, i, {})
    {
      if i !in ifData {
        PlacesOfPort(bridges, Cfg(), i);
        return false;
      }
      if ifData[i].ifType.Vif? || ifData[i].ifType.Routed? {
        PlacesOfPort(bridges, Cfg(), i);
        return true;
      }
      ok := BecomeRouted(i);
    }

    /** A switched port leaves its bridges, and then it is routed. */
    method BecomeRouted(i: IfIndex) returns (ok: bool)
      requires Agrees() && i in ifData && ifData[i].ifType.Switched?
      modifies this
      ensures Agrees() && Cfg() == NoSwitchport(old(Cfg()), i)
      ensures ok <==> (SwitchedIn(old(Cfg()), i, Access) ==> old(ifData)[i].access in old(vlanData))
      ensures ifData == if ok then old(ifData)[i := old(ifData)[i].(ifType := Routed)] else old(ifData)
      ensures vlanData.Keys == old(vlanData).Keys
      ensures OthersKeepPlaces(old(bridges), bridges, i) && PortIn(bridges, i, {}) && SubsIn(bridges, i, {})
    {
      ghost var c, before := Cfg(), bridges;
      ok := LeaveBridges(i);
      if !ok {
        AccessNowhere(bridges, Cfg(), i);
      } else {
        SetIfData(i, ifData[i].(ifType := Routed));
        assert VlanConfig.IfRemove(Cfg(), i) == VlanConfig.IfRemove(c, i);
        RoutedNowhere(bridges, Cfg(), i);
      }
      PlacesOfPort(bridges, Cfg(), i);
      OthersArePlaced(before, bridges, c, Cfg(), i);
    }

    /** if_mode_trunk */
    method IfModeTrunk(i: IfIndex) returns (ok: bool)
      requires Agrees()
      modifies this
      ensures Agrees() && Cfg() == ModeTrunk(old(Cfg()), i)
      ensures ok <==> i in old(ifData) && !SwitchedIn(old(Cfg()), i, Trunk)
      ensures !ok || old(ifData)[i].ifType.Vif? ==> unchanged(this)
      ensures ok && !old(ifData)[i].ifType.Vif? ==>
                ifData == old(ifData)[i := old(ifData)[i].(ifType := Switched, mode := Trunk)]
      ensures vlanData.Keys == old(vlanData).Keys
      ensures i.Eth? && i in ifData ==> PortIn(bridges, i, {}) && SubsIn(bridges, i, AllowedOf(old(Cfg()), i))
      ensures i.Eth? ==> OthersKeepPlaces(old(bridges), bridges, i)
    {
      if i !in ifData {
        return false;
      }
      if ifData[i].ifType.Vif? {
        return true;
      }
      if ifData[i].mode.Trunk? && ifData[i].ifType.Switched? {
        assert ifData[i := ifData[i]] == ifData;
        PlacesOfPort(bridges, Cfg(), i);
        return false;
      }
      ok := BecomeTrunk(i);
    }

    method BecomeTrunk(i: IfIndex) returns (ok: bool)
      requires Agrees() && i in ifData && !ifData[i].ifType.Vif? && !(ifData[i].mode.Trunk? && ifData[i].ifType.Switched?)
      modifies this
      ensures Agrees() && ok && Cfg() == ModeTrunk(old(Cfg()), i)
      ensures ifData == old(ifData)[i := old(ifData)[i].(ifType := Switched, mode := Trunk)]
      ensures vlanData.Keys == old(vlanData).Keys
      ensures PortIn(bridges, i, {}) && SubsIn(bridges, i, AllowedOf(old(Cfg()), i))
      ensures OthersKeepPlaces(old(bridges), bridges, i)
    {
      ghost var c, before := Cfg(), bridges;
      LeaveAndJoinTrunk(i);
      ok := true;
      PlacesOfPort(bridges, Cfg(), i);
      OthersArePlaced(before, bridges, c, Cfg(), i);
      assert AllowedOf(Cfg(), i) == AllowedOf(c, i);
    }

    method LeaveAndJoinTrunk(i: IfIndex)
      requires Agrees() && i in ifData && !ifData[i].ifType.Vif? && !(ifData[i].mode.Trunk? && ifData[i].ifType.Switched?)
      modifies this
      ensures Agrees() && Cfg() == ModeTrunk(old(Cfg()), i)
      ensures ifData == old(ifData)[i := old(ifData)[i].(ifType := Switched, mode := Trunk)]
      ensures vlanData.Keys == old(vlanData).Keys
    {
      var _ := BrRemoveIf(ifData[i].access, Port(i));
      var _ := JoinTrunk(i);
      SetIfData(i, ifData[i].(ifType := Switched, mode := Trunk));
    }

    /** if_mode_access */
    method IfModeAccess(i: IfIndex) returns (ok: bool)
      requires Agrees()
      modifies this
      ensures Realizes() && Cfg() == ModeAccess(old(Cfg()), i)
      ensures Agrees() <==> i !in old(ifData) || AccessModeIsSafe(old(Cfg()), i)
      ensures ok <==> i in old(ifData)
                      && (old(ifData)[i].ifType.Vif?
                          || (!SwitchedIn(old(Cfg()), i, Access) && old(ifData)[i].access in old(bridges)))
      ensures vlanData.Keys == old(vlanData).Keys
      ensures i.Eth? ==> ifData == if ok then old(ifData)[i := old(ifData)[i].(ifType := Switched, mode := Access)]
                                   else old(ifData)
      ensures i.Eth? && ok ==> PortIn(bridges, i, {old(ifData)[i].access}) && SubsIn(bridges, i, {})
      ensures i.Eth? && !ok && i in ifData && !SwitchedIn(Cfg(), i, Access) ==>
                PortIn(bridges, i, {}) && SubsIn(bridges, i, {})
      ensures OthersKeepPlaces(old(bridges), bridges, i)
    {
      if i !in ifData {
        return false;
      }
      if ifData[i].ifType.Vif? {
        return true;
      }
      if ifData[i].mode.Access? && ifData[i].ifType.Switched? {
        assert ifData[i := ifData[i]] == ifData;
        return false;
      }
      ok := BecomeAccess(i);
    }

    /** A port that is not an access port gives up its sub-interfaces, and then tries to become one. */
    method BecomeAccess(i: IfIndex) returns (ok: bool)
      requires Agrees() && i in ifData && !ifData[i].ifType.Vif? && !SwitchedIn(Cfg(), i, Access)
      modifies this
      ensures Realizes() && Cfg() == ModeAccess(old(Cfg()), i)
      ensures Agrees() <==> AccessModeIsSafe(old(Cfg()), i)
      ensures ok <==> old(ifData)[i].access in old(bridges)
      ensures vlanData.Keys == old(vlanData).Keys
      ensures ifData == if ok then old(ifData)[i := old(ifData)[i].(ifType := Switched, mode := Access)]
                        else old(ifData)
      ensures PortIn(bridges, i, if ok then {old(ifData)[i].access} else {}) && SubsIn(bridges, i, {})
      ensures OthersKeepPlaces(old(bridges), bridges, i)
    {
      hide PortIn, SubsIn, OthersKeepPlaces;
      ghost var c, before := Cfg(), bridges;
      LeaveTrunk(i);
      ghost var mid := bridges;
      ok := JoinAccess(i, ifData[i].access);
      if !ok {
        StrandedTrunk(bridges, c, i);
        return;
      }
      JoinedPlace(mid, bridges, i, ifData[i].access);
      PlacesStay(before, mid, bridges, i);
      SetIfData(i, ifData[i].(ifType := Switched, mode := Access));
      assert Cfg() == AsAccess(c, i, c.ifs[i].access);
      if c.ifs[i].access !in vlanData {
        StrangerInBridge(bridges, Cfg(), c.ifs[i].access, Port(i));
      }
    }

    method LeaveTrunk(i: IfIndex)
      requires Agrees() && i in ifData && !ifData[i].ifType.Vif? && !SwitchedIn(Cfg(), i, Access)
      modifies `vlanData, `bridges, `subs
      ensures Realizes() && Cfg() == old(Cfg()) && Matches(bridges, VlanConfig.IfRemove(Cfg(), i))
      ensures PortIn(bridges, i, {}) && SubsIn(bridges, i, {}) && OthersKeepPlaces(old(bridges), bridges, i)
    {
      ghost var c, before := Cfg(), bridges;
      var _ := RemoveVifsFromTrunk(i, None);
      RemovedSubsAreItsOwn(before, bridges, i, Selected(c.vlans, None, c.ifs[i]));
      TrunkLeft(before, bridges, c, i);
      PlacesOfPort(bridges, VlanConfig.IfRemove(c, i), i);
    }

    // ----- Allowed VLANs -----------------------------------------------------

    /** if_add_trunk_vlans */
    method IfAddTrunkVlans(i: IfIndex, vlans: Bitmap) returns (ok: bool)
      requires Agrees() && i in ifData && i.Eth?
      modifies this
      ensures ok && Realizes()
      ensures Cfg() == WithAllowed(old(Cfg()), i, Or(old(ifData)[i].allowed, vlans))
      ensures ifData[i].mode.Trunk? ==>
                SubsAdded(old(bridges), bridges, i, NewVlans(vlanData.Keys, old(ifData)[i], vlans))
      ensures Agrees() <==> NewTrunkVlansAreSafe(old(Cfg()), i, vlans)
      ensures ifData == old(ifData)[i := old(ifData)[i].(allowed := ifData[i].allowed)]
      ensures vlanData.Keys == old(vlanData).Keys
      ensures forall w: nat | w < 8 * OCTETS ::
                Test(ifData[i].allowed, w) <==> Test(old(ifData)[i].allowed, w) || Test(vlans, w)
      ensures OthersKeepPlaces(old(bridges), bridges, i)
    {
      UnionIsUnion(ifData[i].allowed, vlans);
      ghost var c, before := Cfg(), bridges;
      var allowed := ifData[i].allowed;
      if ifData[i].mode.Access? {
        SetIfData(i, ifData[i].(allowed := Or(allowed, vlans)));
        AccessIgnoresAllowed(bridges, c, i, Or(allowed, vlans));
      }
      if ifData[i].mode.Trunk? {
        var aux := And(vlans, Xor(allowed, vlans));
        NewVlansSelected(vlanData.Keys, ifData[i], vlans);
        SetIfData(i, ifData[i].(allowed := Or(allowed, vlans)));
        NewSubsAreNew(bridges, c, i, vlans);
        var _ := AddVifsToTrunk(i, Some(aux));
        AddedSubsAreItsOwn(before, bridges, i, NewVlans(c.vlans, c.ifs[i], vlans));
        TrunkExtended(before, bridges, c, i, vlans, Or(allowed, vlans));
      }
      ok := true;
    }

    /** if_set_trunk_vlans */
    method IfSetTrunkVlans(i: IfIndex, vlans: Bitmap) returns (ok: bool)
      requires Agrees() && i in ifData && i.Eth?
      modifies this
      ensures ok && Realizes()
      ensures Cfg() == WithAllowed(old(Cfg()), i, vlans)
      ensures Agrees() <==> NewTrunkVlansAreSafe(old(Cfg()), i, vlans)
      ensures ifData == old(ifData)[i := old(ifData)[i].(allowed := vlans)] && vlanData.Keys == old(vlanData).Keys
      ensures ifData[i].mode.Trunk? ==> SubsIn(bridges, i, TrunkPlaces(old(Cfg()), i, vlans))
      ensures OthersKeepPlaces(old(bridges), bridges, i)
    {
      ghost var c, before := Cfg(), bridges;
      var allowed := ifData[i].allowed;
      if ifData[i].mode.Access? {
        SetIfData(i, ifData[i].(allowed := vlans));
        AccessIgnoresAllowed(bridges, c, i, vlans);
      }
      if ifData[i].mode.Trunk? {
        var aux := And(vlans, Xor(allowed, vlans));
        NewVlansSelected(vlanData.Keys, ifData[i], vlans);
        NewSubsAreNew(bridges, c, i, vlans);
        var _ := AddVifsToTrunk(i, Some(aux));
        ghost var mid := bridges;
        aux := And(allowed, Xor(allowed, vlans));
        var _ := RemoveVifsFromTrunk(i, Some(aux));
        SetIfData(i, ifData[i].(allowed := vlans));
        TrunkReplaced(before, mid, bridges, c, i, vlans);
        ReplacedPlaces(before, mid, bridges, c, i, vlans);
      }
      ok := true;
    }

    /** if_del_trunk_vlans */
    method IfDelTrunkVlans(i: IfIndex, vlans: Bitmap) returns (ok: bool)
      requires Agrees() && i in ifData && i.Eth?
      modifies this
      ensures ok && Agrees()
      ensures Cfg() == WithAllowed(old(Cfg()), i, And(old(ifData)[i].allowed, Xor(old(ifData)[i].allowed, vlans)))
      ensures ifData == old(ifData)[i := old(ifData)[i].(allowed := ifData[i].allowed)]
      ensures vlanData.Keys == old(vlanData).Keys
      ensures forall w: nat | w < 8 * OCTETS ::
                Test(ifData[i].allowed, w) <==> Test(old(ifData)[i].allowed, w) && !Test(vlans, w)
      ensures OthersKeepPlaces(old(bridges), bridges, i)
    {
      DifferenceIsDifference(ifData[i].allowed, vlans);
      ghost var c, before := Cfg(), bridges;
      var allowed := ifData[i].allowed;
      var left := And(allowed, Xor(allowed, vlans));
      if ifData[i].mode.Access? {
        SetIfData(i, ifData[i].(allowed := left));
        AccessIgnoresAllowed(bridges, c, i, left);
      }
      if ifData[i].mode.Trunk? {
        var aux := And(allowed, vlans);
        var _ := RemoveVifsFromTrunk(i, Some(aux));
        SetIfData(i, ifData[i].(allowed := left));
        RemovedSubsAreItsOwn(before, bridges, i, Selected(c.vlans, Some(aux), c.ifs[i]));
        TrunkReduced(before, bridges, c, i, vlans);
      }
      ok := true;
    }

    // ----- VLANs and their interfaces ----------------------------------------

    /** vlan_add */
    method VlanAdd(v: nat) returns (ok: bool)
      requires Agrees() && ValidVlan(v)
      modifies this
      ensures Agrees() && Cfg() == VlanConfig.VlanAdd(old(Cfg()), v)
      ensures ok <==> v !in old(vlanData)
      ensures !ok ==> unchanged(this)
      ensures ifData == old(ifData) && vlanData.Keys == old(vlanData).Keys + {v}
      ensures HasMembers(bridges, v, ifData) && OtherBridgesStay(old(bridges), bridges, v)
    {
      ghost var was, now := bridges, VlanConfig.VlanAdd(Cfg(), v);
      ok := TakeVlan(v);
      MembersOfVlan(bridges, now, v);
      BridgesStay(was, bridges, old(Cfg()), now, v);
    }

    method TakeVlan(v: nat) returns (ok: bool)
      requires Agrees() && ValidVlan(v)
      modifies this
      ensures Agrees() && Cfg() == VlanConfig.VlanAdd(old(Cfg()), v)
      ensures ok <==> v !in old(vlanData)
      ensures !ok ==> unchanged(this)
      ensures ifData == old(ifData) && vlanData.Keys == old(vlanData).Keys + {v}
    {
      ghost var c := Cfg();
      var hasIf := HasVlanIf(v);
      if !hasIf {
        ok := BrAdd(v);
        if !ok {
          assert c.vlans + {v} == c.vlans;
          return;
        }
      }
      if v in vlanData {
        assert c.vlans + {v} == c.vlans;
        return false;
      }
      vlanData := vlanData[v := []];
      assert Cfg() == VlanConfig.VlanAdd(c, v);
      NewVlanIsEmpty(bridges, c, v);
      FillVlan(v);
      ok := true;
    }

    /** The loop of vlan_add over all interfaces. */
    method FillVlan(v: nat)
      requires Realizes() && v in vlanData && MatchesBut(bridges, Cfg(), v, {})
      modifies `vlanData, `bridges, `subs
      ensures Agrees() && Cfg() == old(Cfg())
    {
      ghost var c := Cfg();
      var todo := ifData.Keys;
      while todo != {}
        invariant Realizes() && Cfg() == c && todo <= ifData.Keys
        invariant MatchesBut(bridges, c, v, ifData.Keys - todo)
        decreases todo
      {
        var i :| i in todo;
        ghost var before, done := bridges, ifData.Keys - todo;
        todo := todo - {i};
        assert ifData.Keys - todo == done + {i};
        FillVlanWith(v, i, done);
      }
      EveryoneIsIn(bridges, c, v, ifData.Keys - {});
    }

    /** The body of that loop. */
    method FillVlanWith(v: nat, i: IfIndex, ghost done: set<IfIndex>)
      requires Realizes() && v in vlanData && i in ifData && i !in done
      requires MatchesBut(bridges, Cfg(), v, done)
      modifies `vlanData, `bridges, `subs
      ensures Realizes() && Cfg() == old(Cfg())
      ensures MatchesBut(bridges, Cfg(), v, done + {i})
    {
      ghost var before, c := bridges, Cfg();
      NotInYet(bridges, c, v, done, i);
      if !ifData[i].ifType.Switched? {
        OneMoreIsIn(before, bridges, c, v, done, i, Port(i));
        return;
      }
      if ifData[i].mode.Trunk? {
        if !Allows(ifData[i], v) {
          OneMoreIsIn(before, bridges, c, v, done, i, Sub(i, v));
          return;
        }
        var _ := MakeVif(i, v);
        OneMoreIsIn(before, bridges, c, v, done, i, Sub(i, v));
        return;
      }
      if ifData[i].mode.Access? && ifData[i].access == v {
        var _ := BrAddIf(v, Port(i));
      }
      OneMoreIsIn(before, bridges, c, v, done, i, Port(i));
    }

    /** vlan_del */
    method VlanDel(v: nat) returns (ok: bool)
      requires Agrees()
      modifies this
      ensures Agrees() && Cfg() == VlanConfig.VlanDel(old(Cfg()), v)
      ensures ok <==> !IsDefaultVlan(v) && v in old(vlanData)
      ensures !ok ==> unchanged(this)
      ensures ok ==> ifData == old(ifData) && vlanData.Keys == old(vlanData).Keys - {v}
      ensures ok ==> (v in bridges <==> VlanDev(v) in ifData) && (v in bridges ==> bridges[v] == {})
      ensures ok ==> OtherBridgesStay(old(bridges), bridges, v)
    {
      ghost var c, before := Cfg(), bridges;
      if IsDefaultVlan(v) {
        return false;
      }
      if v !in vlanData {
        assert c.vlans - {v} == c.vlans;
        return false;
      }
      ClearVlan(v);
      ForgetVlan(v);
      assert Cfg() == VlanConfig.VlanDel(c, v);
      DeletedVlan(before, bridges, c, v);
      ok := true;
      BridgesStay(before, bridges, c, Cfg(), v);
      assert HasBridge(Cfg(), v) <==> VlanDev(v) in ifData;
      NoMembers(bridges, Cfg(), v);
    }

    /** The two loops of vlan_del. */
    method ClearVlan(v: nat)
      requires Agrees() && v in vlanData
      modifies `vlanData, `bridges, `subs
      ensures Realizes() && Cfg() == old(Cfg())
      ensures bridges == old(bridges)[v := {}]
    {
      ghost var before := bridges;
      DropVlanSubs(v);
      DropVlanPorts(v, before);
    }

    /** The end of vlan_del: the bridge goes unless an interface needs it, then the VLAN's data. */
    method ForgetVlan(v: nat)
      requires Realizes() && v in vlanData && bridges[v] == {} && !IsDefaultVlan(v)
      modifies `vlanData, `bridges
      ensures Realizes() && ifData == old(ifData) && vlanData.Keys == old(vlanData).Keys - {v}
      ensures forall w | w in bridges :: w in old(bridges) && bridges[w] == old(bridges)[w]
    {
      var hasIf := HasVlanIf(v);
      if !hasIf {
        var _ := BrRemove(v);
      }
      vlanData := vlanData - {v};
    }

    /** The first loop of vlan_del: over the VLAN's sub-interfaces. */
    method DropVlanSubs(v: nat)
      requires Realizes() && v in vlanData
      modifies `vlanData, `bridges, `subs
      ensures Realizes() && Cfg() == old(Cfg())
      ensures bridges.Keys == old(bridges).Keys && forall w | w in bridges && w != v :: bridges[w] == old(bridges)[w]
      ensures forall d :: d in bridges[v] <==> d in old(bridges)[v] && d.Port?
    {
      ghost var before, c := bridges, Cfg();
      var list := vlanData[v];
      for k := 0 to |list|
        invariant Realizes() && Cfg() == c && bridges.Keys == before.Keys
        invariant forall w | w in bridges && w != v :: bridges[w] == before[w]
        invariant forall d :: d in bridges[v] <==> d in before[v] && d !in list[..k]
      {
        assert list[k] in list;
        assert list[..k + 1] == list[..k] + [list[k]];
        var _ := DropVif(list[k].index, v);
      }
      assert list[..|list|] == list;
    }

    /** The second loop of vlan_del: over the access ports of the VLAN. */
    method DropVlanPorts(v: nat, ghost before: map<nat, set<Dev>>)
      requires Realizes() && v in vlanData && Matches(before, Cfg()) && v in before
      requires forall d :: d in bridges[v] <==> d in before[v] && d.Port?
      modifies `bridges
      ensures Realizes() && Cfg() == old(Cfg())
      ensures bridges == old(bridges)[v := {}]
    {
      ghost var was, c := bridges, Cfg();
      var todo := ifData.Keys;
      while todo != {}
        invariant Realizes() && Cfg() == c && todo <= ifData.Keys && v in bridges
        invariant bridges == was[v := bridges[v]]
        invariant forall d | d in bridges[v] :: d.Port? && d.index in todo && Wanted(c, v, d)
        decreases todo
      {
        var i :| i in todo;
        todo := todo - {i};
        if ifData[i].ifType.Switched? && ifData[i].mode.Access? && ifData[i].access == v {
          var _ := BrRemoveIf(v, Port(i));
        }
      }
      assert bridges[v] == {};
    }

    /** vif_add; the caller asks for an interface that is not there. */
    method VifAdd(v: nat) returns (ok: bool)
      requires Agrees() && VlanDev(v) !in ifData
      modifies this
      ensures ok && Agrees() && Cfg() == VlanConfig.VifAdd(old(Cfg()), v)
      ensures VlanDev(v) in ifData && ifData[VlanDev(v)].ifType.Vif? && ifData[VlanDev(v)].vlan == v
      ensures ifData - {VlanDev(v)} == old(ifData) && vlanData.Keys == old(vlanData).Keys
      ensures v in bridges && bridges[v] == (if v in old(bridges) then old(bridges)[v] else {})
      ensures OtherBridgesStay(old(bridges), bridges, v)
    {
      ghost var c, before := Cfg(), bridges;
      if v !in vlanData {
        ok := BrAdd(v);
        if !ok {
          return;
        }
      }
      ifData := ifData[VlanDev(v) := IfData(Vif, Access, 0, Full(), v)];
      InterfaceOfVlan(before, bridges, c, Cfg(), v);
      ok := true;
    }

    /** vif_del */
    method VifDel(v: nat) returns (ok: bool)
      requires Agrees()
      modifies this
      ensures Agrees() && Cfg() == VlanConfig.VifDel(old(Cfg()), v)
      ensures ok <==> HasBridge(old(Cfg()), v)
      ensures ifData == old(ifData) - {VlanDev(v)} && vlanData.Keys == old(vlanData).Keys
      ensures (v in bridges <==> v in vlanData) && (v in bridges ==> bridges[v] == old(bridges)[v])
      ensures OtherBridgesStay(old(bridges), bridges, v)
    {
      ghost var c, before := Cfg(), bridges;
      ifData := ifData - {VlanDev(v)};
      if v in vlanData {
        ok := true;
      } else {
        ok := BrRemove(v);
      }
      InterfaceOfVlan(before, bridges, c, Cfg(), v);
    }
  }

  /** As `Matches`, but of bridge v only the interfaces in `done` have been dealt with. */
  ghost predicate MatchesBut(bridges: map<nat, set<Dev>>, c: Config, v: nat, done: set<IfIndex>) {
    forall w, d | w in bridges :: d in bridges[w] <==> Wanted(c, w, d) && (w == v ==> d.index in done)
  }

  /** Every bridge has exactly the members that the configuration wants. */
  ghost predicate Matches(bridges: map<nat, set<Dev>>, c: Config) {
    forall v, d | v in bridges :: d in bridges[v] <==> Wanted(c, v, d)
  }

  // ----- Where the devices of a port are ------------------------------------

  /** The port itself is a member of exactly these bridges ... */
  ghost predicate PortIn(bridges: map<nat, set<Dev>>, i: IfIndex, vlans: set<nat>) {
    forall w: nat :: w in bridges && Port(i) in bridges[w] <==> w in vlans
  }

  /** ... and its sub-interfaces are members of exactly these, each of the one of its own VLAN. */
  ghost predicate SubsIn(bridges: map<nat, set<Dev>>, i: IfIndex, vlans: set<nat>) {
    forall w: nat, u: nat :: w in bridges && Sub(i, u) in bridges[w] <==> u == w && w in vlans
  }

  /** The devices of all other interfaces are where they were, and the bridges are the same ones. */
  ghost predicate OthersKeepPlaces(before: map<nat, set<Dev>>, after: map<nat, set<Dev>>, i: IfIndex) {
    && after.Keys == before.Keys
    && forall w, d: Dev | w in before && d.index != i :: d in after[w] <==> d in before[w]
  }

  /** A port as it is added: switched, in VLAN 1, and with every VLAN allowed. */
  predicate IsNewPort(d: IfData, mode: Mode) {
    d.ifType.Switched? && d.mode == mode && d.access == 1 && forall w: nat | w < 8 * OCTETS :: Test(d.allowed, w)
  }

  lemma AllAllowed()
    ensures forall w: nat | w < 8 * OCTETS :: Test(Full(), w)
  {
    forall w: nat | w < 8 * OCTETS
      ensures Test(Full(), w)
    {
      TestConstants(w);
    }
  }

  lemma UnionIsUnion(a: Bitmap, b: Bitmap)
    ensures forall w: nat | w < 8 * OCTETS :: Test(Or(a, b), w) <==> Test(a, w) || Test(b, w)
  {
    forall w: nat | w < 8 * OCTETS
      ensures Test(Or(a, b), w) <==> Test(a, w) || Test(b, w)
    {
      TestOr(a, b, w);
    }
  }

  lemma DifferenceIsDifference(a: Bitmap, b: Bitmap)
    ensures forall w: nat | w < 8 * OCTETS :: Test(And(a, Xor(a, b)), w) <==> Test(a, w) && !Test(b, w)
  {
    forall w: nat | w < 8 * OCTETS
      ensures Test(And(a, Xor(a, b)), w) <==> Test(a, w) && !Test(b, w)
    {
      TestDifference(a, b, w);
    }
  }

  /** The VLANs that a port allows and that exist. */
  function AllowedOf(c: Config, i: IfIndex): set<nat>
    requires i in c.ifs
  {
    set w | w in c.vlans && Allows(c.ifs[i], w)
  }

  ghost predicate HasBridges(bridges: map<nat, set<Dev>>, c: Config) {
    forall w :: w in bridges <==> HasBridge(c, w)
  }

  /** Where an interface is when bridges and configuration agree. */
  lemma PlacesOfPort(bridges: map<nat, set<Dev>>, c: Config, i: IfIndex)
    requires Matches(bridges, c) && HasBridges(bridges, c)
    ensures i !in c.ifs || !c.ifs[i].ifType.Switched? ==> PortIn(bridges, i, {}) && SubsIn(bridges, i, {})
    ensures SwitchedIn(c, i, Access) ==>
              PortIn(bridges, i, if c.ifs[i].access in c.vlans then {c.ifs[i].access} else {}) && SubsIn(bridges, i, {})
    ensures SwitchedIn(c, i, Trunk) ==> PortIn(bridges, i, {}) && SubsIn(bridges, i, AllowedOf(c, i))
  {
    forall w: nat, d: Dev
      ensures w in bridges && d in bridges[w] <==> Wanted(c, w, d)
    {
      assert Wanted(c, w, d) ==> w in bridges;
    }
  }

  lemma PlacesStay(before: map<nat, set<Dev>>, mid: map<nat, set<Dev>>, after: map<nat, set<Dev>>, i: IfIndex)
    requires OthersKeepPlaces(before, mid, i) && OthersKeepPlaces(mid, after, i)
    ensures OthersKeepPlaces(before, after, i)
  {
  }

  lemma JoinedPlace(before: map<nat, set<Dev>>, after: map<nat, set<Dev>>, i: IfIndex, v: nat)
    requires PortIn(before, i, {}) && SubsIn(before, i, {}) && v in before && after == before[v := before[v] + {Port(i)}]
    ensures PortIn(after, i, {v}) && SubsIn(after, i, {}) && OthersKeepPlaces(before, after, i)
  {
    forall w: nat
      ensures w in after && Port(i) in after[w] <==> w == v
    {
      assert w in before && Port(i) in before[w] <==> w in {};
    }
    forall w: nat, u: nat
      ensures !(w in after && Sub(i, u) in after[w])
    {
      assert w in before && Sub(i, u) in before[w] <==> u == w && w in {};
    }
  }

  lemma OthersArePlaced(before: map<nat, set<Dev>>, after: map<nat, set<Dev>>, c: Config, c': Config, i: IfIndex)
    requires Matches(before, c) && Matches(after, c') && HasBridges(before, c) && HasBridges(after, c')
    requires c'.vlans == c.vlans && c'.ifs - {i} == c.ifs - {i} && i.Eth?
    ensures OthersKeepPlaces(before, after, i)
  {
    forall j: IfIndex | j != i
      ensures j in c.ifs <==> j in c'.ifs
      ensures j in c.ifs ==> c'.ifs[j] == c.ifs[j]
    {
      assert j in c.ifs - {i} <==> j in c.ifs;
      assert j in c'.ifs - {i} <==> j in c'.ifs;
    }
    forall w
      ensures w in after <==> w in before
    {
      assert HasBridge(c, w) <==> HasBridge(c', w);
    }
    forall w, d: Dev | w in before && d.index != i
      ensures d in after[w] <==> d in before[w]
    {
      assert Wanted(c, w, d) <==> Wanted(c', w, d);
    }
  }

  // ----- Who is in the bridge of a VLAN -------------------------------------

  /** Exactly the access ports of the VLAN, and the sub-interfaces of the trunk ports that allow it. */
  ghost predicate HasMembers(bridges: map<nat, set<Dev>>, v: nat, ifs: map<IfIndex, IfData>) {
    && v in bridges
    && (forall i :: Port(i) in bridges[v]
                    <==> i in ifs && ifs[i].ifType.Switched? && ifs[i].mode.Access? && ifs[i].access == v)
    && forall i, u: nat :: Sub(i, u) in bridges[v]
                      <==> u == v && i in ifs && ifs[i].ifType.Switched? && ifs[i].mode.Trunk? && Allows(ifs[i], v)
  }

  ghost predicate OtherBridgesStay(before: map<nat, set<Dev>>, after: map<nat, set<Dev>>, v: nat) {
    forall w | w != v :: (w in after <==> w in before) && (w in before ==> after[w] == before[w])
  }

  lemma MembersOfVlan(bridges: map<nat, set<Dev>>, c: Config, v: nat)
    requires Matches(bridges, c) && HasBridges(bridges, c) && v in c.vlans
    ensures HasMembers(bridges, v, c.ifs)
  {
    assert HasBridge(c, v);
    forall d: Dev
      ensures d in bridges[v] <==> Wanted(c, v, d)
    {
    }
  }

  lemma NoMembers(bridges: map<nat, set<Dev>>, c: Config, v: nat)
    requires Matches(bridges, c) && v !in c.vlans
    ensures v in bridges ==> bridges[v] == {}
  {
    assert forall d: Dev | v in bridges :: d in bridges[v] <==> Wanted(c, v, d);
  }

  lemma BridgesStay(before: map<nat, set<Dev>>, after: map<nat, set<Dev>>, c: Config, c': Config, v: nat)
    requires Matches(before, c) && Matches(after, c') && HasBridges(before, c) && HasBridges(after, c')
    requires c'.ifs == c.ifs && c'.vlans - {v} == c.vlans - {v}
    ensures OtherBridgesStay(before, after, v)
  {
    forall w | w != v
      ensures (w in after <==> w in before) && (w in before ==> after[w] == before[w])
    {
      assert w in c.vlans - {v} <==> w in c.vlans;
      assert w in c'.vlans - {v} <==> w in c'.vlans;
      assert HasBridge(c, w) <==> HasBridge(c', w);
      assert forall d: Dev :: Wanted(c, w, d) <==> Wanted(c', w, d);
      if w in before {
        assert forall d: Dev :: d in after[w] <==> d in before[w];
      }
    }
  }

  // ----- Configurations that differ in one port -----------------------------

  function AsTrunk(c: Config, i: IfIndex): Config
    requires i in c.ifs
  {
    WithIf(c, i, c.ifs[i].(ifType := Switched, mode := Trunk))
  }

  function AsAccess(c: Config, i: IfIndex, v: nat): Config
    requires i in c.ifs
  {
    WithIf(c, i, c.ifs[i].(ifType := Switched, mode := Access, access := v))
  }

  lemma NoSubsYet(bridges: map<nat, set<Dev>>, c: Config, i: IfIndex)
    requires Matches(bridges, VlanConfig.IfRemove(c, i))
    ensures forall v | v in bridges :: Sub(i, v) !in bridges[v]
  {
    forall v | v in bridges
      ensures Sub(i, v) !in bridges[v]
    {
      assert Sub(i, v) in bridges[v] <==> Wanted(VlanConfig.IfRemove(c, i), v, Sub(i, v));
    }
  }

  lemma NoPortYet(bridges: map<nat, set<Dev>>, c: Config, i: IfIndex)
    requires Matches(bridges, VlanConfig.IfRemove(c, i))
    ensures forall v | v in bridges :: Port(i) !in bridges[v]
  {
    forall v | v in bridges
      ensures Port(i) !in bridges[v]
    {
      assert Port(i) in bridges[v] <==> Wanted(VlanConfig.IfRemove(c, i), v, Port(i));
    }
  }

  /** Putting in the sub-interfaces of a port that was in no bridge makes it a trunk port. */
  lemma TrunkJoined(before: map<nat, set<Dev>>, after: map<nat, set<Dev>>, c: Config, i: IfIndex)
    requires i in c.ifs && Matches(before, VlanConfig.IfRemove(c, i))
    requires SubsAdded(before, after, i, Selected(c.vlans, None, c.ifs[i]))
    ensures Matches(after, AsTrunk(c, i))
  {
    forall v, d | v in after
      ensures d in after[v] <==> Wanted(AsTrunk(c, i), v, d)
    {
      assert d in before[v] <==> Wanted(VlanConfig.IfRemove(c, i), v, d);
      WantedOfTrunk(c, i, v, d);
    }
  }

  /** A trunk port wants its sub-interfaces beside what is wanted without the port. */
  lemma WantedOfTrunk(c: Config, i: IfIndex, v: nat, d: Dev)
    requires i in c.ifs
    ensures Wanted(AsTrunk(c, i), v, d)
            <==> Wanted(VlanConfig.IfRemove(c, i), v, d) || (v in Selected(c.vlans, None, c.ifs[i]) && d == Sub(i, v))
  {
  }

  lemma AccessJoined(before: map<nat, set<Dev>>, after: map<nat, set<Dev>>, c: Config, i: IfIndex, v: nat)
    requires i in c.ifs && Matches(before, VlanConfig.IfRemove(c, i)) && v in c.vlans && v in before
    requires after == before[v := before[v] + {Port(i)}]
    ensures Matches(after, AsAccess(c, i, v))
  {
    forall w, d | w in after
      ensures d in after[w] <==> Wanted(AsAccess(c, i, v), w, d)
    {
      assert d in before[w] <==> Wanted(VlanConfig.IfRemove(c, i), w, d);
    }
  }

  /** An access port of a VLAN that does not exist is in no bridge. */
  lemma AccessNowhere(bridges: map<nat, set<Dev>>, c: Config, i: IfIndex)
    requires Matches(bridges, VlanConfig.IfRemove(c, i)) && SwitchedIn(c, i, Access)
    requires c.ifs[i].access !in c.vlans
    ensures Matches(bridges, c)
  {
    forall w, d | w in bridges
      ensures d in bridges[w] <==> Wanted(c, w, d)
    {
      assert d in bridges[w] <==> Wanted(VlanConfig.IfRemove(c, i), w, d);
    }
  }

  lemma RoutedNowhere(bridges: map<nat, set<Dev>>, c: Config, i: IfIndex)
    requires Matches(bridges, VlanConfig.IfRemove(c, i)) && i in c.ifs && c.ifs[i].ifType.Routed?
    ensures Matches(bridges, c)
  {
    forall w, d | w in bridges
      ensures d in bridges[w] <==> Wanted(c, w, d)
    {
      assert d in bridges[w] <==> Wanted(VlanConfig.IfRemove(c, i), w, d);
    }
  }

  lemma TrunkLeft(before: map<nat, set<Dev>>, after: map<nat, set<Dev>>, c: Config, i: IfIndex)
    requires Matches(before, c) && i in c.ifs && !SwitchedIn(c, i, Access)
    requires SubsRemoved(before, after, i, Selected(c.vlans, None, c.ifs[i]))
    ensures Matches(after, VlanConfig.IfRemove(c, i))
  {
    forall v, d | v in after
      ensures d in after[v] <==> Wanted(VlanConfig.IfRemove(c, i), v, d)
    {
      assert d in before[v] <==> Wanted(c, v, d);
    }
  }

  // ----- Configurations that differ in one VLAN -----------------------------

  lemma NewVlanIsEmpty(bridges: map<nat, set<Dev>>, c: Config, v: nat)
    requires forall w, d | w in bridges && w != v :: d in bridges[w] <==> Wanted(c, w, d)
    requires v in bridges ==> bridges[v] == {}
    ensures MatchesBut(bridges, VlanConfig.VlanAdd(c, v), v, {})
  {
    forall w, d | w in bridges
      ensures d in bridges[w] <==> Wanted(VlanConfig.VlanAdd(c, v), w, d) && (w == v ==> d.index in {})
    {
      if w != v {
        assert d in bridges[w] <==> Wanted(c, w, d);
      }
    }
  }

  lemma DeletedVlan(before: map<nat, set<Dev>>, after: map<nat, set<Dev>>, c: Config, v: nat)
    requires Matches(before, c) && !IsDefaultVlan(v)
    requires forall w | w in after :: w in before && after[w] == if w == v then {} else before[w]
    ensures Matches(after, VlanConfig.VlanDel(c, v))
  {
    forall w, d | w in after
      ensures d in after[w] <==> Wanted(VlanConfig.VlanDel(c, v), w, d)
    {
      assert d in before[w] <==> Wanted(c, w, d);
    }
  }

  /** The interface of a VLAN is no member of any bridge, and a bridge that is there for it alone has
      no members. */
  lemma InterfaceOfVlan(before: map<nat, set<Dev>>, after: map<nat, set<Dev>>, c: Config, c': Config, v: nat)
    requires Matches(before, c) && c'.vlans == c.vlans
    requires c'.ifs - {VlanDev(v)} == c.ifs - {VlanDev(v)}
    requires VlanDev(v) in c.ifs ==> c.ifs[VlanDev(v)].ifType.Vif?
    requires VlanDev(v) in c'.ifs ==> c'.ifs[VlanDev(v)].ifType.Vif?
    requires forall w | w in after :: if w in before then after[w] == before[w] else after[w] == {} && w !in c.vlans
    ensures Matches(after, c')
  {
    forall w, d | w in after
      ensures d in after[w] <==> Wanted(c', w, d)
    {
      OtherInterfacesStay(c, c', v, d.index);
      assert w in before ==> (d in before[w] <==> Wanted(c, w, d));
    }
  }

  lemma OtherInterfacesStay(c: Config, c': Config, v: nat, i: IfIndex)
    requires c'.ifs - {VlanDev(v)} == c.ifs - {VlanDev(v)}
    ensures i != VlanDev(v) ==> (i in c'.ifs <==> i in c.ifs) && (i in c.ifs ==> c'.ifs[i] == c.ifs[i])
  {
    if i != VlanDev(v) {
      assert i in c'.ifs <==> i in c'.ifs - {VlanDev(v)};
      assert i in c.ifs <==> i in c.ifs - {VlanDev(v)};
      if i in c.ifs {
        assert (c'.ifs - {VlanDev(v)})[i] == (c.ifs - {VlanDev(v)})[i];
      }
    }
  }

  lemma NotInYet(bridges: map<nat, set<Dev>>, c: Config, v: nat, done: set<IfIndex>, i: IfIndex)
    requires MatchesBut(bridges, c, v, done) && i !in done && v in bridges
    ensures Sub(i, v) !in bridges[v]
    ensures SwitchedIn(c, i, Access) && c.ifs[i].access == v ==>
              forall w | w in bridges :: Port(i) !in bridges[w]
  {
    assert Sub(i, v) in bridges[v] <==> Wanted(c, v, Sub(i, v)) && Sub(i, v).index in done;
    forall w | w in bridges && SwitchedIn(c, i, Access) && c.ifs[i].access == v
      ensures Port(i) !in bridges[w]
    {
      assert Port(i) in bridges[w] <==> Wanted(c, w, Port(i)) && (w == v ==> Port(i).index in done);
    }
  }

  lemma OneMoreIsIn(before: map<nat, set<Dev>>, after: map<nat, set<Dev>>, c: Config, v: nat,
                    done: set<IfIndex>, i: IfIndex, d: Dev)
    requires MatchesBut(before, c, v, done) && v in before && i !in done
    requires d.index == i && forall e: Dev | e.index == i && e != d :: !Wanted(c, v, e)
    requires after == if Wanted(c, v, d) then before[v := before[v] + {d}] else before
    ensures MatchesBut(after, c, v, done + {i})
  {
    forall w, e | w in after
      ensures e in after[w] <==> Wanted(c, w, e) && (w == v ==> e.index in done + {i})
    {
      assert e in before[w] <==> Wanted(c, w, e) && (w == v ==> e.index in done);
    }
  }

  lemma EveryoneIsIn(bridges: map<nat, set<Dev>>, c: Config, v: nat, done: set<IfIndex>)
    requires MatchesBut(bridges, c, v, done) && done == c.ifs.Keys
    ensures Matches(bridges, c)
  {
    forall w, d | w in bridges
      ensures d in bridges[w] <==> Wanted(c, w, d)
    {
      assert d in bridges[w] <==> Wanted(c, w, d) && (w == v ==> d.index in done);
    }
  }

  /** A port of which every sub-interface was removed is still as configured exactly if it had none
      to lose. */
  lemma StrandedTrunk(bridges: map<nat, set<Dev>>, c: Config, i: IfIndex)
    requires Matches(bridges, VlanConfig.IfRemove(c, i)) && i in c.ifs && !SwitchedIn(c, i, Access)
    requires !c.ifs[i].ifType.Vif? && forall v | v in c.vlans :: v in bridges
    ensures Matches(bridges, c) <==> c.ifs[i].ifType.Routed? || AllowsNone(c.vlans, c.ifs[i])
  {
    if v :| v in c.vlans && Allows(c.ifs[i], v) {
      assert Sub(i, v) in bridges[v] <==> Wanted(VlanConfig.IfRemove(c, i), v, Sub(i, v));
      assert Wanted(c, v, Sub(i, v)) <==> c.ifs[i].ifType.Switched?;
    }
    if c.ifs[i].ifType.Routed? || AllowsNone(c.vlans, c.ifs[i]) {
      forall w, d | w in bridges
        ensures d in bridges[w] <==> Wanted(c, w, d)
      {
        assert d in bridges[w] <==> Wanted(VlanConfig.IfRemove(c, i), w, d);
      }
    }
  }

  lemma StrangerInBridge(bridges: map<nat, set<Dev>>, c: Config, v: nat, d: Dev)
    requires v in bridges && d in bridges[v] && !Wanted(c, v, d)
    ensures !Matches(bridges, c)
  {
  }

  // ----- Configurations that differ in one port's allowed VLANs -------------

  /** The VLANs of `wanted` that exist and that the port does not allow yet. */
  function NewVlans(vlans: set<nat>, d: IfData, wanted: Bitmap): set<nat> {
    set v | v in vlans && v < 8 * OCTETS && Test(wanted, v) && !Allows(d, v)
  }

  lemma NewVlansSelected(vlans: set<nat>, d: IfData, wanted: Bitmap)
    ensures forall e :: Selected(vlans, Some(And(wanted, Xor(d.allowed, wanted))), e) == NewVlans(vlans, d, wanted)
  {
    forall v: nat | v < 8 * OCTETS
      ensures Test(And(wanted, Xor(d.allowed, wanted)), v) <==> Test(wanted, v) && !Test(d.allowed, v)
    {
      TestDifference(wanted, d.allowed, v);
    }
  }

  lemma NewSubsAreNew(bridges: map<nat, set<Dev>>, c: Config, i: IfIndex, wanted: Bitmap)
    requires Matches(bridges, c) && i in c.ifs
    ensures forall v | v in NewVlans(c.vlans, c.ifs[i], wanted) && v in bridges :: Sub(i, v) !in bridges[v]
  {
    forall v | v in NewVlans(c.vlans, c.ifs[i], wanted) && v in bridges
      ensures Sub(i, v) !in bridges[v]
    {
      assert Sub(i, v) in bridges[v] <==> Wanted(c, v, Sub(i, v));
    }
  }

  lemma AccessIgnoresAllowed(bridges: map<nat, set<Dev>>, c: Config, i: IfIndex, allowed: Bitmap)
    requires Matches(bridges, c) && i in c.ifs && c.ifs[i].mode.Access?
    ensures Matches(bridges, WithAllowed(c, i, allowed))
  {
    forall w, d | w in bridges
      ensures d in bridges[w] <==> Wanted(WithAllowed(c, i, allowed), w, d)
    {
      assert d in bridges[w] <==> Wanted(c, w, d);
    }
  }

  /** Adding sub-interfaces for new VLANs is right on a switched port, and on a routed one only if
      there are none to add. */
  lemma TrunkExtended(before: map<nat, set<Dev>>, after: map<nat, set<Dev>>, c: Config, i: IfIndex,
                      wanted: Bitmap, allowed: Bitmap)
    requires Matches(before, c) && i in c.ifs && c.ifs[i].mode.Trunk? && !c.ifs[i].ifType.Vif?
    requires forall v | v in c.vlans :: v in before && v < 8 * OCTETS
    requires allowed == Or(c.ifs[i].allowed, wanted)
    requires SubsAdded(before, after, i, NewVlans(c.vlans, c.ifs[i], wanted))
    ensures Matches(after, WithAllowed(c, i, allowed)) <==> NewTrunkVlansAreSafe(c, i, wanted)
  {
    var c' := WithAllowed(c, i, allowed);
    if NewTrunkVlansAreSafe(c, i, wanted) {
      forall w, d | w in after
        ensures d in after[w] <==> Wanted(c', w, d)
      {
        assert d in before[w] <==> Wanted(c, w, d);
        if w < 8 * OCTETS { TestOr(c.ifs[i].allowed, wanted, w); }
      }
    } else {
      var v :| v in c.vlans && v < 8 * OCTETS && Test(wanted, v) && !Allows(c.ifs[i], v);
      assert v in NewVlans(c.vlans, c.ifs[i], wanted);
      StrangerInBridge(after, c', v, Sub(i, v));
    }
  }

  lemma TrunkReplaced(before: map<nat, set<Dev>>, mid: map<nat, set<Dev>>, after: map<nat, set<Dev>>,
                      c: Config, i: IfIndex, wanted: Bitmap)
    requires Matches(before, c) && i in c.ifs && c.ifs[i].mode.Trunk? && !c.ifs[i].ifType.Vif?
    requires forall v | v in c.vlans :: v in before && v < 8 * OCTETS
    requires SubsAdded(before, mid, i, NewVlans(c.vlans, c.ifs[i], wanted))
    requires var aux := And(c.ifs[i].allowed, Xor(c.ifs[i].allowed, wanted));
             SubsRemoved(mid, after, i, Selected(c.vlans, Some(aux), c.ifs[i]))
    ensures Matches(after, WithAllowed(c, i, wanted)) <==> NewTrunkVlansAreSafe(c, i, wanted)
  {
    var c', allowed := WithAllowed(c, i, wanted), c.ifs[i].allowed;
    if NewTrunkVlansAreSafe(c, i, wanted) {
      forall w, d | w in after
        ensures d in after[w] <==> Wanted(c', w, d)
      {
        assert d in before[w] <==> Wanted(c, w, d);
        if w < 8 * OCTETS { TestDifference(allowed, wanted, w); }
      }
    } else {
      var v :| v in c.vlans && v < 8 * OCTETS && Test(wanted, v) && !Allows(c.ifs[i], v);
      TestDifference(allowed, wanted, v);
      assert v in NewVlans(c.vlans, c.ifs[i], wanted);
      StrangerInBridge(after, c', v, Sub(i, v));
    }
  }

  lemma AddedSubsAreItsOwn(before: map<nat, set<Dev>>, after: map<nat, set<Dev>>, i: IfIndex, vlans: set<nat>)
    requires SubsAdded(before, after, i, vlans)
    ensures OthersKeepPlaces(before, after, i)
  {
  }

  lemma RemovedSubsAreItsOwn(before: map<nat, set<Dev>>, after: map<nat, set<Dev>>, i: IfIndex, vlans: set<nat>)
    requires SubsRemoved(before, after, i, vlans)
    ensures OthersKeepPlaces(before, after, i)
  {
  }

  /** Where a trunk's sub-interfaces are when its list has been replaced: in the bridges of all VLANs on the
      new list, or, if it is routed, only of those that were not on the old one. */
  function TrunkPlaces(c: Config, i: IfIndex, wanted: Bitmap): set<nat>
    requires i in c.ifs
  {
    set v | v in c.vlans && v < 8 * OCTETS && Test(wanted, v) && (c.ifs[i].ifType.Switched? || !Allows(c.ifs[i], v))
  }

  lemma ReplacedPlaces(before: map<nat, set<Dev>>, mid: map<nat, set<Dev>>, after: map<nat, set<Dev>>,
                       c: Config, i: IfIndex, wanted: Bitmap)
    requires Matches(before, c) && i in c.ifs && c.ifs[i].mode.Trunk? && !c.ifs[i].ifType.Vif?
    requires forall v | v in c.vlans :: v in before && v < 8 * OCTETS
    requires SubsAdded(before, mid, i, NewVlans(c.vlans, c.ifs[i], wanted))
    requires var aux := And(c.ifs[i].allowed, Xor(c.ifs[i].allowed, wanted));
             SubsRemoved(mid, after, i, Selected(c.vlans, Some(aux), c.ifs[i]))
    ensures SubsIn(after, i, TrunkPlaces(c, i, wanted)) && OthersKeepPlaces(before, after, i)
  {
    var allowed := c.ifs[i].allowed;
    forall w: nat, u: nat
      ensures w in after && Sub(i, u) in after[w] <==> u == w && w in TrunkPlaces(c, i, wanted)
    {
      assert w in before ==> (Sub(i, u) in before[w] <==> Wanted(c, w, Sub(i, u)));
      if w < 8 * OCTETS { TestDifference(allowed, wanted, w); }
    }
  }

  lemma TrunkReduced(before: map<nat, set<Dev>>, after: map<nat, set<Dev>>, c: Config, i: IfIndex, dropped: Bitmap)
    requires Matches(before, c) && i in c.ifs && c.ifs[i].mode.Trunk?
    requires SubsRemoved(before, after, i, Selected(c.vlans, Some(And(c.ifs[i].allowed, dropped)), c.ifs[i]))
    ensures Matches(after, WithAllowed(c, i, And(c.ifs[i].allowed, Xor(c.ifs[i].allowed, dropped))))
  {
    var allowed := c.ifs[i].allowed;
    var c' := WithAllowed(c, i, And(allowed, Xor(allowed, dropped)));
    forall w, d | w in after
      ensures d in after[w] <==> Wanted(c', w, d)
    {
      assert d in before[w] <==> Wanted(c, w, d);
      if w < 8 * OCTETS {
        TestDifference(allowed, dropped, w);
        TestAnd(allowed, dropped, w);
      }
    }
  }

  predicate Selects(bitmap: Option<Bitmap>, d: IfData, v: nat) {
    match bitmap
    case Some(b) => v < 8 * OCTETS && Test(b, v)
    case None => Allows(d, v)
  }

  function Selected(vlans: set<nat>, bitmap: Option<Bitmap>, d: IfData): set<nat> {
    set v | v in vlans && Selects(bitmap, d, v)
  }

  ghost predicate SubsAdded(before: map<nat, set<Dev>>, after: map<nat, set<Dev>>, i: IfIndex, vlans: set<nat>) {
    && after.Keys == before.Keys
    && forall v | v in before :: after[v] == if v in vlans then before[v] + {Sub(i, v)} else before[v]
  }

  ghost predicate SubsRemoved(before: map<nat, set<Dev>>, after: map<nat, set<Dev>>, i: IfIndex, vlans: set<nat>) {
    && after.Keys == before.Keys
    && forall v | v in before :: after[v] == if v in vlans then before[v] - {Sub(i, v)} else before[v]
  }

  lemma OneSubsAdded(before: map<nat, set<Dev>>, mid: map<nat, set<Dev>>, after: map<nat, set<Dev>>,
                     i: IfIndex, vlans: set<nat>, rest: set<nat>, v: nat)
    requires SubsAdded(before, mid, i, vlans - rest) && v in rest && v in mid
    requires after == if v in vlans then mid[v := mid[v] + {Sub(i, v)}] else mid
    ensures SubsAdded(before, after, i, vlans - (rest - {v}))
  {
  }

  lemma OneSubsRemoved(before: map<nat, set<Dev>>, mid: map<nat, set<Dev>>, after: map<nat, set<Dev>>,
                       i: IfIndex, vlans: set<nat>, rest: set<nat>, v: nat)
    requires SubsRemoved(before, mid, i, vlans - rest) && v in rest && v in mid
    requires after == if v in vlans then mid[v := mid[v] - {Sub(i, v)}] else mid
    ensures SubsRemoved(before, after, i, vlans - (rest - {v}))
  {
  }

  lemma WithoutElement<T>(s: seq<T>, k: nat)
    requires NoDuplicates(s) && k < |s|
    ensures NoDuplicates(s[..k] + s[k + 1..])
    ensures forall e :: e in s[..k] + s[k + 1..] <==> e in s && e != s[k]
  {
    var t := s[..k] + s[k + 1..];
    forall e | e in s && e != s[k]
      ensures e in t
    {
      var j :| 0 <= j < |s| && s[j] == e;
      assert t[if j < k then j else j - 1] == e;
    }
  }
}
