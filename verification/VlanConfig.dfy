/** What the bridge-based VLAN backend (userspace/switch/linux) is configured to be, and which
    devices the kernel must then have in which bridge. The operations are given here by what they
    do to the configuration alone; `VlanBackend` performs them step by step on lists and bridges. */
module VlanConfig {
  import opened Bitmap

  /** Network devices with data in shared memory: ports, and the interface of a VLAN's bridge. */
  datatype IfIndex = Eth(n: nat) | VlanDev(v: nat)

  datatype IfType = Switched | Routed | Vif

  datatype Mode = Access | Trunk

  /** struct if_data. */
  datatype IfData = IfData(ifType: IfType, mode: Mode, access: nat, allowed: Bitmap, vlan: nat)

  /** Devices that can be members of a bridge: a port itself, or its sub-interface in a VLAN. */
  datatype Dev = Port(index: IfIndex) | Sub(index: IfIndex, vlan: nat)

  const DEFAULT_VLAN: nat := 1

  predicate IsDefaultVlan(v: nat) { v == 1 || 1002 <= v <= 1005 }

  datatype Config = Config(vlans: set<nat>, ifs: map<IfIndex, IfData>)

  /** The interface of a VLAN's bridge is exactly an entry of type Vif. */
  ghost predicate WellFormed(c: Config) {
    && (forall v | v in c.vlans :: ValidVlan(v))
    && forall i | i in c.ifs :: c.ifs[i].ifType.Vif? == i.VlanDev? && (i.VlanDev? ==> c.ifs[i].vlan == i.v)
  }

  predicate SwitchedIn(c: Config, i: IfIndex, mode: Mode) {
    i in c.ifs && c.ifs[i].ifType.Switched? && c.ifs[i].mode == mode
  }

  predicate Allows(d: IfData, v: nat) { v < 8 * OCTETS && Test(d.allowed, v) }

  /** Device d belongs in the bridge of VLAN v. */
  predicate Wanted(c: Config, v: nat, d: Dev) {
    && v in c.vlans
    && match d
       case Port(i) => SwitchedIn(c, i, Access) && c.ifs[i].access == v
       case Sub(i, w) => w == v && SwitchedIn(c, i, Trunk) && Allows(c.ifs[i], v)
  }

  /** VLANs that have a bridge: configured ones and those with an interface. */
  predicate HasBridge(c: Config, v: nat) { v in c.vlans || VlanDev(v) in c.ifs }

  // ----- The operations on the configuration --------------------------------

  function WithIf(c: Config, i: IfIndex, d: IfData): Config { c.(ifs := c.ifs[i := d]) }

  function IfAdd(c: Config, i: IfIndex, mode: Mode): Config {
    if i in c.ifs then c else WithIf(c, i, IfData(Switched, mode, DEFAULT_VLAN, Full(), 0))
  }

  function IfRemove(c: Config, i: IfIndex): Config { c.(ifs := c.ifs - {i}) }

  function VlanAdd(c: Config, v: nat): Config { c.(vlans := c.vlans + {v}) }

  function VlanDel(c: Config, v: nat): Config {
    if IsDefaultVlan(v) then c else c.(vlans := c.vlans - {v})
  }

  function VifAdd(c: Config, v: nat): Config {
    if VlanDev(v) in c.ifs then c else WithIf(c, VlanDev(v), IfData(Vif, Access, 0, Full(), v))
  }

  function VifDel(c: Config, v: nat): Config { c.(ifs := c.ifs - {VlanDev(v)}) }

  function SetPortVlan(c: Config, i: IfIndex, v: nat): Config {
    if SwitchedIn(c, i, Access) then WithIf(c, i, c.ifs[i].(access := v)) else c
  }

  /** A port stays switched when it is an access port of a VLAN that has no bridge. */
  function NoSwitchport(c: Config, i: IfIndex): Config {
    if SwitchedIn(c, i, Trunk) || (SwitchedIn(c, i, Access) && c.ifs[i].access in c.vlans) then
      WithIf(c, i, c.ifs[i].(ifType := Routed))
    else c
  }

  function ModeAccess(c: Config, i: IfIndex): Config {
    if i in c.ifs && !c.ifs[i].ifType.Vif? && HasBridge(c, c.ifs[i].access) then
      WithIf(c, i, c.ifs[i].(ifType := Switched, mode := Access))
    else c
  }

  function ModeTrunk(c: Config, i: IfIndex): Config {
    if i in c.ifs && !c.ifs[i].ifType.Vif? then WithIf(c, i, c.ifs[i].(ifType := Switched, mode := Trunk))
    else c
  }

  function WithAllowed(c: Config, i: IfIndex, allowed: Bitmap): Config
    requires i in c.ifs
  {
    WithIf(c, i, c.ifs[i].(allowed := allowed))
  }

  /** The configuration at start: the default VLANs, and no port. */
  function StartConfig(): Config { Config(DefaultVlansBelow(1006), map[]) }

  function DefaultVlansBelow(v: nat): set<nat> { set w: nat | w < v && IsDefaultVlan(w) }

  /** A default VLAN is there for good: no operation takes it away. */
  lemma DefaultVlansStay(c: Config, v: nat, w: nat, i: IfIndex, mode: Mode, allowed: Bitmap)
    requires v in c.vlans && IsDefaultVlan(v)
    ensures v in VlanDel(c, w).vlans && v in VlanAdd(c, w).vlans && v in VifAdd(c, w).vlans && v in VifDel(c, w).vlans
    ensures v in IfAdd(c, i, mode).vlans && v in IfRemove(c, i).vlans && v in SetPortVlan(c, i, w).vlans
    ensures v in NoSwitchport(c, i).vlans && v in ModeAccess(c, i).vlans && v in ModeTrunk(c, i).vlans
    ensures i in c.ifs ==> v in WithAllowed(c, i, allowed).vlans
  {
  }

  // ----- When they keep configuration and bridges in step -------------------

  predicate AllowsNone(vlans: set<nat>, d: IfData) {
    forall v | v in vlans :: !Allows(d, v)
  }

  predicate AllowsAll(vlans: set<nat>, wanted: Bitmap, d: IfData) {
    forall v | v in vlans && v < 8 * OCTETS && Test(wanted, v) :: Allows(d, v)
  }

  /** The change to access mode removes sub-interfaces before it can fail, and does not ask whether
      the access VLAN exists. */
  predicate AccessModeIsSafe(c: Config, i: IfIndex)
    requires i in c.ifs
  {
    || c.ifs[i].ifType.Vif? || SwitchedIn(c, i, Access)
    || c.ifs[i].access in c.vlans
    || (!HasBridge(c, c.ifs[i].access) && (c.ifs[i].ifType.Routed? || AllowsNone(c.vlans, c.ifs[i])))
  }

  /** The trunk list operations do not ask whether the port is switched. */
  predicate NewTrunkVlansAreSafe(c: Config, i: IfIndex, wanted: Bitmap)
    requires i in c.ifs
  {
    c.ifs[i].mode.Access? || c.ifs[i].ifType.Switched? || AllowsAll(c.vlans, wanted, c.ifs[i])
  }

  /** A trunk port whose access VLAN has an interface but was deleted joins a bridge it should not. */
  lemma AccessModeCanBeUnsafe()
    ensures exists c: Config, i: IfIndex :: WellFormed(c) && i in c.ifs && !AccessModeIsSafe(c, i)
  {
    var i := Eth(1);
    var port := IfData(Switched, Trunk, 2, Full(), 0);
    var c := Config({1}, map[i := port, VlanDev(2) := IfData(Vif, Access, 0, Full(), 2)]);
    assert WellFormed(c) && !AccessModeIsSafe(c, i);
  }

  /** A routed port that was a trunk gets sub-interfaces. */
  lemma NewTrunkVlansCanBeUnsafe()
    ensures exists c: Config, i: IfIndex, wanted: Bitmap ::
              WellFormed(c) && i in c.ifs && !NewTrunkVlansAreSafe(c, i, wanted)
  {
    var i := Eth(1);
    var c := Config({1}, map[i := IfData(Routed, Trunk, 1, Empty(), 0)]);
    TestConstants(1);
    assert 1 in c.vlans && !Allows(c.ifs[i], 1);
    assert WellFormed(c) && !NewTrunkVlansAreSafe(c, i, Full());
  }
}
