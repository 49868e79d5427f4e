/** The finalizer that turns a log index into the random pick of a weighted queue. */
module Mixing {

  const UINT64_SIZE: nat := 0x1_0000_0000_0000_0000

  /** `mix64` on 64 bits, where sums and products wrap around. */
  function Mixed(x: bv64): bv64 {
    var a := x + 0x9e3779b97f4a7c15;
    var b := (a ^ (a >> 30)) * 0xbf58476d1ce4e5b9;
    var c := (b ^ (b >> 27)) * 0x94d049bb133111eb;
    c ^ (c >> 31)
  }

  function Mix64(seed: nat): (r: nat)
    ensures r < UINT64_SIZE
  {
    Mixed((seed % UINT64_SIZE) as bv64) as nat
  }

  /** The first three outputs of the splitmix64 generator, whose state grows by the added constant. */
  lemma FirstMixes()
    ensures Mixed(0) == 0xe220a8397b1dcdaf && Mixed(0x9e3779b97f4a7c15) == 0x6e789e6aa1b965f4
    ensures Mixed(0x3c6ef372fe94f82a) == 0x06c45d188009454f
  {
  }
}
