/** Numbers that several parts of the client share (Misc/DHCPConst.h). */
module DHCPConst {

  const INFINITY: nat := 0xffff_ffff
}
