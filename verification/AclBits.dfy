/** The boundary flag's bits, apart from everything else. */
module AclBits {
  lemma Rewritten(b: bv8)
    requires (b >> 4) & 3 == 0
    ensures ((b | 0x20) >> 4) & 3 == 2
  {
  }

  lemma Continued(b: bv8)
    requires (b >> 4) & 3 == 0
    ensures ((b | 0x10) >> 4) & 3 == 1
  {
  }
}
