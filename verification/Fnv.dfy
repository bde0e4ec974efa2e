/** The 64-bit FNV-1a hash: of vectors, and of what decides their side of the split. */
module Fnv {
  import opened Bytes
  import opened Cohort

  const FNV_OFFSET_BASIS: U64 := 0xcbf2_9ce4_8422_2325
  const FNV_PRIME: U64 := 0x0000_0100_0000_01b3

  function XorByte(a: Byte, b: Byte): Byte { (a as bv8 ^ b as bv8) as int }

  /** Exclusive or with a byte: only the low byte changes. */
  function Xor(a: U64, b: Byte): U64 { a / 256 * 256 + XorByte(a % 256, b) }

  function Fnv1a64(bytes: seq<Byte>): U64 {
    if bytes == [] then FNV_OFFSET_BASIS
    else Xor(Fnv1a64(bytes[..|bytes| - 1]), bytes[|bytes| - 1]) * FNV_PRIME % U64_LIMIT
  }

  lemma FnvStep(bytes: seq<Byte>, b: Byte)
    ensures Fnv1a64(bytes + [b]) == Xor(Fnv1a64(bytes), b) * FNV_PRIME % U64_LIMIT
  {
    hide Xor;
    assert (bytes + [b])[..|bytes|] == bytes;
  }

  lemma NothingHashed()
    ensures Fnv1a64([]) == FNV_OFFSET_BASIS
  {
  }

  lemma MixedBytes()
    ensures XorByte(37, 97) == 68 && XorByte(37, 102) == 67 && XorByte(217, 111) == 182 && XorByte(66, 111) == 45
    ensures XorByte(119, 98) == 21 && XorByte(175, 97) == 206 && XorByte(10, 114) == 120
  {
    assert 37 as bv8 ^ 97 as bv8 == 68 as bv8 && 37 as bv8 ^ 102 as bv8 == 67 as bv8;
    assert 217 as bv8 ^ 111 as bv8 == 182 as bv8 && 66 as bv8 ^ 111 as bv8 == 45 as bv8;
    assert 119 as bv8 ^ 98 as bv8 == 21 as bv8 && 175 as bv8 ^ 97 as bv8 == 206 as bv8;
    assert 10 as bv8 ^ 114 as bv8 == 120 as bv8;
  }

  lemma Mixed()
    ensures Xor(FNV_OFFSET_BASIS, 97) == 0xcbf2_9ce4_8422_2344
    ensures Xor(FNV_OFFSET_BASIS, 102) == 0xcbf2_9ce4_8422_2343
    ensures Xor(0xaf63_db4c_8601_ead9, 111) == 0xaf63_db4c_8601_eab6
    ensures Xor(0x0898_5907_b541_d342, 111) == 0x0898_5907_b541_d32d
    ensures Xor(0xdcb2_7518_fed9_d577, 98) == 0xdcb2_7518_fed9_d515
    ensures Xor(0xdd12_0e79_0c25_12af, 97) == 0xdd12_0e79_0c25_12ce
    ensures Xor(0xcac1_65af_a2fe_f40a, 114) == 0xcac1_65af_a2fe_f478
  {
    hide XorByte;
    MixedBytes();
  }

  /** The published reference values of the hash. */
  lemma FnvReference()
    ensures Fnv1a64(Text("")) == 0xcbf2_9ce4_8422_2325
    ensures Fnv1a64(Text("a")) == 0xaf63_dc4c_8601_ec8c
    ensures Fnv1a64(Text("foobar")) == 0x8594_4171_f739_67e8
  {
    hide Xor, Fnv1a64;
    NothingHashed();
    Mixed();
    FnvStep([], 97);
    FnvStep([], 102);
    FnvStep([] + [102], 111);
    FnvStep([] + [102] + [111], 111);
    FnvStep([] + [102] + [111] + [111], 98);
    FnvStep([] + [102] + [111] + [111] + [98], 97);
    FnvStep([] + [102] + [111] + [111] + [98] + [97], 114);
    assert Text("") == [] && [] + [97] == Text("a");
    assert [] + [102] + [111] + [111] + [98] + [97] + [114] == Text("foobar");
  }
}
