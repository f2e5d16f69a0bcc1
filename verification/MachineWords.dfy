/** The widths of the machine integers. A remainder may be taken before an addition, or not. */
module MachineWords {

  const UINT32 := 0x1_0000_0000
  const UINT64 := 0x1_0000_0000_0000_0000

  lemma ModAdd32(a: int, b: int)
    ensures (a % UINT32 + b) % UINT32 == (a + b) % UINT32
  {
  }

  lemma ModAdd64(a: int, b: int)
    ensures (a % UINT64 + b) % UINT64 == (a + b) % UINT64
  {
  }
}
