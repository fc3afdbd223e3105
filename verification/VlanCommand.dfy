/** The command `switchport trunk allowed vlan` on the VLAN backend
    (userspace/cli/command/config_if.c:188-240). */
module VlanCommand {
  import opened Bitmap
  import opened VlanBackend
  import opened VlanConfig
  import opened VlanParse
  import opened VlanReplay

  /** bmp[i] ^= 0xff, octet by octet. */
  method FlipBitmap(bmp: array<bv8>)
    requires bmp.Length == OCTETS
    modifies bmp
    ensures bmp[..] == Xor(old(bmp[..]), Full())
  {
    for i := 0 to OCTETS
      invariant forall j | 0 <= j < i :: bmp[j] == old(bmp[j]) ^ 0xFF
      invariant forall j | i <= j < OCTETS :: bmp[j] == old(bmp[j])
    {
      bmp[i] := bmp[i] ^ 0xFF;
    }
  }

  method FillBitmap(bmp: array<bv8>, octet: bv8)
    requires bmp.Length == OCTETS
    modifies bmp
    ensures forall j | 0 <= j < OCTETS :: bmp[j] == octet
  {
    for i := 0 to OCTETS
      invariant forall j | 0 <= j < i :: bmp[j] == octet
    {
      bmp[i] := octet;
    }
  }

  /** The bitmap that cmd_trunk_vlan hands to the backend, and the parser's verdict. */
  method ListBitmap(cmd: Command, list: string) returns (bits: Bitmap, err: nat)
    ensures cmd.SetTo? || cmd.AddTo? || cmd.Remove? ==> bits == Parse(list, Empty()).1
    ensures cmd.All? || cmd.Except? || cmd.Nothing? ==> forall b :: bits == Commanded(cmd, list, b)
    ensures err == if TakesList(cmd) then Parse(list, Empty()).0 else 0
  {
    var bmp := new bv8[OCTETS];
    err := 0;
    match cmd {
      case All => FillBitmap(bmp, 0xFF);
      case Nothing => ClearBitmap(bmp);
      case Except =>
        err := ParseVlanList(list, bmp);
        FlipBitmap(bmp);
      case _ => err := ParseVlanList(list, bmp);
    }
    bits := bmp[..];
  }

  /** cmd_trunk_vlan: a bad list is rejected after it has been applied. */
  method CmdTrunkVlan(backend: Backend, i: IfIndex, cmd: Command, list: string) returns (rejected: bool)
    requires backend.Agrees() && i in backend.ifData && i.Eth?
    modifies backend
    ensures backend.Realizes()
    ensures var allowed := old(backend.ifData)[i].allowed;
            backend.Cfg() == WithAllowed(old(backend.Cfg()), i, Commanded(cmd, list, allowed))
    ensures backend.Agrees() <==> cmd.Remove? || NewTrunkVlansAreSafe(old(backend.Cfg()), i, backend.ifData[i].allowed)
    ensures rejected <==> TakesList(cmd) && Parse(list, Empty()).0 != 0
  {
    ghost var before := backend.Cfg();
    var bits, err := ListBitmap(cmd, list);
    match cmd {
      case AddTo =>
        var _ := backend.IfAddTrunkVlans(i, bits);
        AddingIsSafeIff(before, i, bits);
      case Remove =>
        var _ := backend.IfDelTrunkVlans(i, bits);
      case _ =>
        var _ := backend.IfSetTrunkVlans(i, bits);
    }
    rejected := err != 0;
  }

  /** Adding VLANs is as safe as setting the result. */
  lemma AddingIsSafeIff(c: Config, i: IfIndex, bits: Bitmap)
    requires i in c.ifs
    ensures NewTrunkVlansAreSafe(c, i, bits) <==> NewTrunkVlansAreSafe(c, i, Or(c.ifs[i].allowed, bits))
  {
    var allowed := c.ifs[i].allowed;
    forall v: nat | v < 8 * OCTETS
      ensures Test(Or(allowed, bits), v) <==> Test(allowed, v) || Test(bits, v)
    {
      TestOr(allowed, bits, v);
    }
  }
}
