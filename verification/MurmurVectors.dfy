/** The published MurmurHash3 values of two short texts, computed operation by operation. */
module Murmur64Vector {
  import opened Words
  import opened Blocks
  import opened Murmur64
  import opened Murmur64Keys

  // "The quick brown fox jumps over the lazy dog": two blocks and a tail of eleven bytes
  const FOX1: seq<Byte> :=
    [0x54, 0x68, 0x65, 0x20, 0x71, 0x75, 0x69, 0x63, 0x6b, 0x20, 0x62, 0x72, 0x6f, 0x77, 0x6e, 0x20]
  const FOX2: seq<Byte> :=
    [0x66, 0x6f, 0x78, 0x20, 0x6a, 0x75, 0x6d, 0x70, 0x73, 0x20, 0x6f, 0x76, 0x65, 0x72, 0x20, 0x74]
  const FOX3: seq<Byte> := [0x68, 0x65, 0x20, 0x6c, 0x61, 0x7a, 0x79, 0x20, 0x64, 0x6f, 0x67]

  lemma Block1()
    ensures BlockStep(FOX1, Pair(0x0, 0x0)) == Pair(0x65f54070009580c, 0x1185bfe0bc383732)
  {
    assert ReadLe64(FOX1[..8]) == 0x6369757120656854 && ReadLe64(FOX1[8..]) == 0x206e776f7262206b;
    assert Mul64(0x6369757120656854, 0x87c37b91114253d5) == 0x88afee474edb09e4;
    assert Rotl64(0x88afee474edb09e4, 31) == 0xa76d84f24457f723;
    assert Mul64(0xa76d84f24457f723, 0x4cf5ad432745937f) == 0xede938f35bfbb35d;
    assert Xor64(0x0, 0xede938f35bfbb35d) == 0xede938f35bfbb35d;
    assert Rotl64(0xede938f35bfbb35d, 27) == 0x9adfdd9aef6f49c7;
    assert Add64(0x9adfdd9aef6f49c7, 0x0) == 0x9adfdd9aef6f49c7;
    assert Mul64(0x9adfdd9aef6f49c7, 0x5) == 0x65f5406ad2c70e3;
    assert Add64(0x65f5406ad2c70e3, 0x52dce729) == 0x65f54070009580c;
    assert Mul64(0x206e776f7262206b, 0x4cf5ad432745937f) == 0xbad6d15c21228615;
    assert Rotl64(0xbad6d15c21228615, 33) == 0x42450c2b75ada2b8;
    assert Mul64(0x42450c2b75ada2b8, 0x87c37b91114253d5) == 0x9b19a81a60aa0b18;
    assert Xor64(0x0, 0x9b19a81a60aa0b18) == 0x9b19a81a60aa0b18;
    assert Rotl64(0x9b19a81a60aa0b18, 31) == 0x3055058c4d8cd40d;
    assert Add64(0x3055058c4d8cd40d, 0x65f54070009580c) == 0x36b459934d962c19;
    assert Mul64(0x36b459934d962c19, 0x5) == 0x1185bfe083eedc7d;
    assert Add64(0x1185bfe083eedc7d, 0x38495ab5) == 0x1185bfe0bc383732;
    hide Mul64, Add64, Xor64, Rotl64, ReadLe64;
  }

  lemma Block2()
    ensures BlockStep(FOX2, Pair(0x65f54070009580c, 0x1185bfe0bc383732)) == Pair(0xef7ef36e84b36d66, 0x20112c4dac59411d)
  {
    assert ReadLe64(FOX2[..8]) == 0x706d756a20786f66 && ReadLe64(FOX2[8..]) == 0x74207265766f2073;
    assert Mul64(0x706d756a20786f66, 0x87c37b91114253d5) == 0x4017930c8e9ec1de;
    assert Rotl64(0x4017930c8e9ec1de, 31) == 0x474f60ef200bc986;
    assert Mul64(0x474f60ef200bc986, 0x4cf5ad432745937f) == 0x82e320fa65aeeb7a;
    assert Xor64(0x65f54070009580c, 0x82e320fa65aeeb7a) == 0x84bc74fd65a7b376;
    assert Rotl64(0x84bc74fd65a7b376, 27) == 0xeb2d3d9bb425e3a7;
    assert Add64(0xeb2d3d9bb425e3a7, 0x1185bfe0bc383732) == 0xfcb2fd7c705e1ad9;
    assert Mul64(0xfcb2fd7c705e1ad9, 0x5) == 0xef7ef36e31d6863d;
    assert Add64(0xef7ef36e31d6863d, 0x52dce729) == 0xef7ef36e84b36d66;
    assert Mul64(0x74207265766f2073, 0x4cf5ad432745937f) == 0xd23f1255d4c2220d;
    assert Rotl64(0xd23f1255d4c2220d, 33) == 0xa984441ba47e24ab;
    assert Mul64(0xa984441ba47e24ab, 0x87c37b91114253d5) == 0x3480582491edf347;
    assert Xor64(0x1185bfe0bc383732, 0x3480582491edf347) == 0x2505e7c42dd5c475;
    assert Rotl64(0x2505e7c42dd5c475, 31) == 0x16eae23a9282f3e2;
    assert Add64(0x16eae23a9282f3e2, 0xef7ef36e84b36d66) == 0x669d5a917366148;
    assert Mul64(0x669d5a917366148, 0x5) == 0x20112c4d740fe668;
    assert Add64(0x20112c4d740fe668, 0x38495ab5) == 0x20112c4dac59411d;
    hide Mul64, Add64, Xor64, Rotl64, ReadLe64;
  }

  lemma Tail()
    ensures TailStep(FOX3, Pair(0xef7ef36e84b36d66, 0x20112c4dac59411d)) == Pair(0x515233ebf2a47c15, 0x106ea6d665619948)
  {
    assert ReadLe64(Padded(FOX3[..8], 8)) == 0x20797a616c206568 && ReadLe64(Padded(FOX3[8..], 8)) == 0x676f64;
    assert Mul64(0x20797a616c206568, 0x87c37b91114253d5) == 0x5256d81b84a51788;
    assert Rotl64(0x5256d81b84a51788, 31) == 0xc2528bc4292b6c0d;
    assert Mul64(0xc2528bc4292b6c0d, 0x4cf5ad432745937f) == 0xbe2cc08576171173;
    assert Xor64(0xef7ef36e84b36d66, 0xbe2cc08576171173) == 0x515233ebf2a47c15;
    assert Mul64(0x676f64, 0x4cf5ad432745937f) == 0x4c1c9940da3aae9c;
    assert Rotl64(0x4c1c9940da3aae9c, 33) == 0xb4755d3898393281;
    assert Mul64(0xb4755d3898393281, 0x87c37b91114253d5) == 0x307f8a9bc938d855;
    assert Xor64(0x20112c4dac59411d, 0x307f8a9bc938d855) == 0x106ea6d665619948;
    hide Mul64, Xor64, Rotl64, ReadLe64;
  }

  lemma End()
    ensures Finish(43, Pair(0x515233ebf2a47c15, 0x106ea6d665619948)) == Pair(0xe34bbc7bbc071b6c, 0x7a433ca9c49a9347)
  {
    assert Xor64(0x515233ebf2a47c15, 0x2b) == 0x515233ebf2a47c3e;
    assert Xor64(0x106ea6d665619948, 0x2b) == 0x106ea6d665619963;
    assert Add64(0x515233ebf2a47c3e, 0x106ea6d665619963) == 0x61c0dac2580615a1;
    assert Add64(0x106ea6d665619963, 0x61c0dac2580615a1) == 0x722f8198bd67af04;
    assert Shift33(0x61c0dac2580615a1) == 0x61c0dac268e678c0;
    assert Mul64(0x61c0dac268e678c0, 0xff51afd7ed558ccd) == 0x77965a9be257b1c0;
    assert Shift33(0x77965a9be257b1c0) == 0x77965a9bd99c9c8d;
    assert Mul64(0x77965a9bd99c9c8d, 0xc4ceb9fe1a85ec53) == 0x4c543c4d9559bdb7;
    assert Shift33(0x4c543c4d9559bdb7) == 0x4c543c4db373a391 && Shift33(0x722f8198bd67af04) == 0x722f819884706fc8;
    assert Mul64(0x722f819884706fc8, 0xff51afd7ed558ccd) == 0x5249d958d092e328;
    assert Shift33(0x5249d958d092e328) == 0x5249d958f9b60f84;
    assert Mul64(0x5249d958f9b60f84, 0xc4ceb9fe1a85ec53) == 0x96f7802e43e8b7cc;
    assert Shift33(0x96f7802e43e8b7cc) == 0x96f7802e089377db;
    assert Add64(0x4c543c4db373a391, 0x96f7802e089377db) == 0xe34bbc7bbc071b6c;
    assert Add64(0x96f7802e089377db, 0xe34bbc7bbc071b6c) == 0x7a433ca9c49a9347;
    hide Mul64, Add64, Xor64, Shift33;
  }

  /** The published hash of the text with seed 0. */
  lemma KnownAnswer()
    ensures Hash(FOX1 + FOX2 + FOX3, 0) == Pair(0xe34bbc7bbc071b6c, 0x7a433ca9c49a9347)
  {
    hide BlockStep, TailStep, Finish, Hash;
    HashSplit(FOX1 + FOX2, FOX3, 0);
    FoldConcat(FOX1, FOX2, 16, Start(0), BlockStep);
    FoldOne(FOX1, 16, Start(0), BlockStep);
    FoldOne(FOX2, 16, BlockStep(FOX1, Start(0)), BlockStep);
    Block1();
    Block2();
    Tail();
    End();
    assert LengthWord(43) == 43;
  }
}

module Murmur32Vector {
  import opened Words
  import opened Blocks
  import opened MurmurX86Words
  import opened Murmur32
  import opened Murmur32Keys

  // "Hello, world!": three blocks and a tail of one byte
  const HELLO1: seq<Byte> := [0x48, 0x65, 0x6c, 0x6c]
  const HELLO2: seq<Byte> := [0x6f, 0x2c, 0x20, 0x77]
  const HELLO3: seq<Byte> := [0x6f, 0x72, 0x6c, 0x64]
  const HELLO4: seq<Byte> := [0x21]

  lemma Block1()
    ensures BlockStep(HELLO1, 0x9747b28c) == 0xdae4c92e
  {
    assert ReadLe32(HELLO1) == 0x6c6c6548 && Mul32(0x6c6c6548, 0xcc9e2d51) == 0x3e89b3c8;
    assert Rotl32(0x3e89b3c8, 15) == 0xd9e41f44 && Mul32(0xd9e41f44, 0x1b873593) == 0x153080c;
    assert Xor32(0x9747b28c, 0x153080c) == 0x9614ba80 && Rotl32(0x9614ba80, 13) == 0x975012c2;
    assert Mul32(0x975012c2, 0x5) == 0xf4905dca && Add32(0xf4905dca, 0xe6546b64) == 0xdae4c92e;
    hide Mul32, Add32, Xor32, Rotl32, ReadLe32;
  }

  lemma Block2()
    ensures BlockStep(HELLO2, 0xdae4c92e) == 0x71c6b43c
  {
    assert ReadLe32(HELLO2) == 0x77202c6f && Mul32(0x77202c6f, 0xcc9e2d51) == 0x397f921f;
    assert Rotl32(0x397f921f, 15) == 0xc90f9cbf && Mul32(0xc90f9cbf, 0x1b873593) == 0x7d238cad;
    assert Xor32(0xdae4c92e, 0x7d238cad) == 0xa7c74583 && Rotl32(0xa7c74583, 13) == 0xe8b074f8;
    assert Mul32(0xe8b074f8, 0x5) == 0x8b7248d8 && Add32(0x8b7248d8, 0xe6546b64) == 0x71c6b43c;
    hide Mul32, Add32, Xor32, Rotl32, ReadLe32;
  }

  lemma Block3()
    ensures BlockStep(HELLO3, 0x71c6b43c) == 0x3bd692af
  {
    assert ReadLe32(HELLO3) == 0x646c726f && Mul32(0x646c726f, 0xcc9e2d51) == 0xeaefb81f;
    assert Rotl32(0xeaefb81f, 15) == 0xdc0ff577 && Mul32(0xdc0ff577, 0x1b873593) == 0xa9bc9655;
    assert Xor32(0x71c6b43c, 0xa9bc9655) == 0xd87a2269 && Rotl32(0xd87a2269, 13) == 0x444d3b0f;
    assert Mul32(0x444d3b0f, 0x5) == 0x5582274b && Add32(0x5582274b, 0xe6546b64) == 0x3bd692af;
    hide Mul32, Add32, Xor32, Rotl32, ReadLe32;
  }

  lemma End()
    ensures Finish(13, TailStep(HELLO4, 0x3bd692af)) == 0x24884cba
  {
    assert ReadLe32(Padded(HELLO4, 4)) == 0x21 && Mul32(0x21, 0xcc9e2d51) == 0x6063d771;
    assert Rotl32(0x6063d771, 15) == 0xebb8b031 && Mul32(0xebb8b031, 0x1b873593) == 0xac5e5123;
    assert Xor32(0x3bd692af, 0xac5e5123) == 0x9788c38c && Xor32(0x9788c38c, 0xd) == 0x9788c381;
    assert Shift16(0x9788c381) == 0x97885409 && Mul32(0x97885409, 0x85ebca6b) == 0xb98d39c3;
    assert Shift13(0xb98d39c3) == 0xb988f5aa && Mul32(0xb988f5aa, 0xc2b2ae35) == 0x24886832;
    assert Shift16(0x24886832) == 0x24884cba;
    hide Mul32, Xor32, Rotl32, ReadLe32, Shift16, Shift13;
  }

  /** The published hash of the text with that seed. */
  lemma KnownAnswer()
    ensures Hash(HELLO1 + HELLO2 + HELLO3 + HELLO4, 0x9747b28c) == 0x24884cba
  {
    hide BlockStep, TailStep, Finish, Hash;
    HashSplit(HELLO1 + HELLO2 + HELLO3, HELLO4, 0x9747b28c);
    FoldConcat(HELLO1 + HELLO2, HELLO3, 4, 0x9747b28c, BlockStep);
    FoldConcat(HELLO1, HELLO2, 4, 0x9747b28c, BlockStep);
    Block1();
    Block2();
    Block3();
    End();
    FoldOne(HELLO1, 4, 0x9747b28c, BlockStep);
    FoldOne(HELLO2, 4, BlockStep(HELLO1, 0x9747b28c), BlockStep);
    FoldOne(HELLO3, 4, BlockStep(HELLO2, BlockStep(HELLO1, 0x9747b28c)), BlockStep);
    assert LengthWord(13) == 13;
  }
}

module Murmur128Vector {
  import opened Words
  import opened Blocks
  import opened MurmurX86Words
  import opened Murmur128
  import opened Murmur128Keys
  import Murmur64Vector

  // "The quick brown fox jumps over the lazy dog"
  const FOX1 := Murmur64Vector.FOX1
  const FOX2 := Murmur64Vector.FOX2
  const FOX3 := Murmur64Vector.FOX3

  lemma Block1()
    ensures BlockStep(FOX1, Quad(0x0, 0x0, 0x0, 0x0)) ==
            Quad(0x747f5a24, 0xe268b3ab, 0x2f0812bd, 0xa61229a3)
  {
    assert FOX1[8..12] == [0x6b, 0x20, 0x62, 0x72];
    assert ReadLe32(FOX1[..4]) == 0x20656854 && ReadLe32(FOX1[4..8]) == 0x63697571;
    assert ReadLe32(FOX1[8..12]) == 0x7262206b && ReadLe32(FOX1[12..]) == 0x206e776f;
    assert Mul32(0x20656854, 0x239b961b) == 0x7caf38dc && Rotl32(0x7caf38dc, 15) == 0x9c6e3e57;
    assert Mul32(0x9c6e3e57, 0xab0e9789) == 0x4386ad8f && Xor32(0x0, 0x4386ad8f) == 0x4386ad8f;
    assert Rotl32(0x4386ad8f, 19) == 0x6c7a1c35 && Add32(0x6c7a1c35, 0x0) == 0x6c7a1c35;
    assert Mul32(0x6c7a1c35, 0x5) == 0x1e628d09 && Add32(0x1e628d09, 0x561ccd1b) == 0x747f5a24;
    assert Mul32(0x63697571, 0xab0e9789) == 0x4ee38079 && Rotl32(0x4ee38079, 16) == 0x80794ee3;
    assert Mul32(0x80794ee3, 0x38b34ae5) == 0xce0a2f0f && Xor32(0x0, 0xce0a2f0f) == 0xce0a2f0f;
    assert Rotl32(0xce0a2f0f, 17) == 0x5e1f9c14 && Add32(0x5e1f9c14, 0x0) == 0x5e1f9c14;
    assert Mul32(0x5e1f9c14, 0x5) == 0xd69e0c64 && Add32(0xd69e0c64, 0xbcaa747) == 0xe268b3ab;
    assert Mul32(0x7262206b, 0x38b34ae5) == 0xc1f6edb7 && Rotl32(0xc1f6edb7, 17) == 0xdb6f83ed;
    assert Mul32(0xdb6f83ed, 0xa1e38b93) == 0x95d17017 && Xor32(0x0, 0x95d17017) == 0x95d17017;
    assert Rotl32(0x95d17017, 15) == 0xb80bcae8 && Add32(0xb80bcae8, 0x0) == 0xb80bcae8;
    assert Mul32(0xb80bcae8, 0x5) == 0x983af688 && Add32(0x983af688, 0x96cd1c35) == 0x2f0812bd;
    assert Mul32(0x206e776f, 0xa1e38b93) == 0x50b4d9bd && Rotl32(0x50b4d9bd, 18) == 0x66f542d3;
    assert Mul32(0x66f542d3, 0x239b961b) == 0xdfc6ae41 && Xor32(0x0, 0xdfc6ae41) == 0xdfc6ae41;
    assert Rotl32(0xdfc6ae41, 13) == 0xd5c83bf8 && Add32(0xd5c83bf8, 0x747f5a24) == 0x4a47961c;
    assert Mul32(0x4a47961c, 0x5) == 0x7365ee8c && Add32(0x7365ee8c, 0x32ac3b17) == 0xa61229a3;
    hide Mul32, Add32, Xor32, Rotl32, ReadLe32;
  }

  lemma Block2()
    ensures BlockStep(FOX2, Quad(0x747f5a24, 0xe268b3ab, 0x2f0812bd, 0xa61229a3)) ==
            Quad(0xbd5366b2, 0x3fc68449, 0xedb3f273, 0x14f7ebdc)
  {
    assert FOX2[8..12] == [0x73, 0x20, 0x6f, 0x76];
    assert ReadLe32(FOX2[..4]) == 0x20786f66 && ReadLe32(FOX2[4..8]) == 0x706d756a;
    assert ReadLe32(FOX2[8..12]) == 0x766f2073 && ReadLe32(FOX2[12..]) == 0x74207265;
    assert Mul32(0x20786f66, 0x239b961b) == 0x62bb83c2 && Rotl32(0x62bb83c2, 15) == 0xc1e1315d;
    assert Mul32(0xc1e1315d, 0xab0e9789) == 0x67b745c5 && Xor32(0x747f5a24, 0x67b745c5) == 0x13c81fe1;
    assert Rotl32(0x13c81fe1, 19) == 0xff089e40 && Add32(0xff089e40, 0xe268b3ab) == 0xe17151eb;
    assert Mul32(0xe17151eb, 0x5) == 0x67369997 && Add32(0x67369997, 0x561ccd1b) == 0xbd5366b2;
    assert Mul32(0x706d756a, 0xab0e9789) == 0xf4a15bba && Rotl32(0xf4a15bba, 16) == 0x5bbaf4a1;
    assert Mul32(0x5bbaf4a1, 0x38b34ae5) == 0x5d865e05 && Xor32(0xe268b3ab, 0x5d865e05) == 0xbfeeedae;
    assert Rotl32(0xbfeeedae, 17) == 0xdb5d7fdd && Add32(0xdb5d7fdd, 0x2f0812bd) == 0xa65929a;
    assert Mul32(0xa65929a, 0x5) == 0x33fbdd02 && Add32(0x33fbdd02, 0xbcaa747) == 0x3fc68449;
    assert Mul32(0x766f2073, 0x38b34ae5) == 0xe93244df && Rotl32(0xe93244df, 17) == 0x89bfd264;
    assert Mul32(0x89bfd264, 0xa1e38b93) == 0xb30e1b6c && Xor32(0x2f0812bd, 0xb30e1b6c) == 0x9c0609d1;
    assert Rotl32(0x9c0609d1, 15) == 0x4e8ce03 && Add32(0x4e8ce03, 0xa61229a3) == 0xaafaf7a6;
    assert Mul32(0xaafaf7a6, 0x5) == 0x56e6d63e && Add32(0x56e6d63e, 0x96cd1c35) == 0xedb3f273;
    assert Mul32(0x74207265, 0xa1e38b93) == 0x414d86ff && Rotl32(0x414d86ff, 18) == 0x1bfd0536;
    assert Mul32(0x1bfd0536, 0x239b961b) == 0xbe6f30b2 && Xor32(0xa61229a3, 0xbe6f30b2) == 0x187d1911;
    assert Rotl32(0x187d1911, 13) == 0xa322230f && Add32(0xa322230f, 0xbd5366b2) == 0x607589c1;
    assert Mul32(0x607589c1, 0x5) == 0xe24bb0c5 && Add32(0xe24bb0c5, 0x32ac3b17) == 0x14f7ebdc;
    hide Mul32, Add32, Xor32, Rotl32, ReadLe32;
  }

  lemma Tail()
    ensures TailStep(FOX3, Quad(0xbd5366b2, 0x3fc68449, 0xedb3f273, 0x14f7ebdc)) ==
            Quad(0x1fff0624, 0xfe3bbfd2, 0x9452c762, 0x14f7ebdc)
  {
    assert ChunkWord(FOX3, 0) == 0x6c206568 && ChunkWord(FOX3, 1) == 0x20797a61 && ChunkWord(FOX3, 2) == 0x676f64;
    assert Mul32(0x6c206568, 0x239b961b) == 0xcda1f8 && Rotl32(0xcda1f8, 15) == 0xd0fc0066;
    assert Mul32(0xd0fc0066, 0xab0e9789) == 0xa2ac6096 && Xor32(0xbd5366b2, 0xa2ac6096) == 0x1fff0624;
    assert Mul32(0x20797a61, 0xab0e9789) == 0x847fb4e9 && Rotl32(0x847fb4e9, 16) == 0xb4e9847f;
    assert Mul32(0xb4e9847f, 0x38b34ae5) == 0xc1fd3b9b && Xor32(0x3fc68449, 0xc1fd3b9b) == 0xfe3bbfd2;
    assert Mul32(0x676f64, 0x38b34ae5) == 0x5a58c74 && Rotl32(0x5a58c74, 17) == 0x18e80b4b;
    assert Mul32(0x18e80b4b, 0xa1e38b93) == 0x79e13511 && Xor32(0xedb3f273, 0x79e13511) == 0x9452c762;
    hide Mul32, Xor32, Rotl32, ChunkWord;
  }

  lemma End()
    ensures Finish(43, Quad(0x1fff0624, 0xfe3bbfd2, 0x9452c762, 0x14f7ebdc)) ==
            Quad(0x2f1583c3, 0xecee2c67, 0x5d7bf66c, 0xe5e91d2c)
  {
    assert Xor32(0x1fff0624, 0x2b) == 0x1fff060f && Xor32(0xfe3bbfd2, 0x2b) == 0xfe3bbff9;
    assert Xor32(0x9452c762, 0x2b) == 0x9452c749 && Xor32(0x14f7ebdc, 0x2b) == 0x14f7ebf7;
    assert Add32(0x1fff060f, 0xfe3bbff9) == 0x1e3ac608 && Add32(0x1e3ac608, 0x9452c749) == 0xb28d8d51;
    assert Add32(0xb28d8d51, 0x14f7ebf7) == 0xc7857948 && Add32(0xfe3bbff9, 0xc7857948) == 0xc5c13941;
    assert Add32(0x9452c749, 0xc7857948) == 0x5bd84091 && Add32(0x14f7ebf7, 0xc7857948) == 0xdc7d653f;
    assert Shift16(0xc7857948) == 0xc785becd && Mul32(0xc785becd, 0x85ebca6b) == 0x94a381af;
    assert Shift13(0x94a381af) == 0x94a724b3 && Mul32(0x94a724b3, 0xc2b2ae35) == 0x8c02430f;
    assert Shift16(0x8c02430f) == 0x8c02cf0d && Shift16(0xc5c13941) == 0xc5c1fc80;
    assert Mul32(0xc5c1fc80, 0x85ebca6b) == 0x2d18980 && Shift13(0x2d18980) == 0x2d19f0c;
    assert Mul32(0x2d19f0c, 0xc2b2ae35) == 0xbdd8157c && Shift16(0xbdd8157c) == 0xbdd8a8a4;
    assert Shift16(0x5bd84091) == 0x5bd81b49 && Mul32(0x5bd81b49, 0x85ebca6b) == 0xe1de0183;
    assert Shift13(0xe1de0183) == 0xe1d90f73 && Mul32(0xe1d90f73, 0xc2b2ae35) == 0x2e665ccf;
    assert Shift16(0x2e665ccf) == 0x2e6672a9 && Shift16(0xdc7d653f) == 0xdc7db942;
    assert Mul32(0xdc7db942, 0x85ebca6b) == 0xb6508296 && Shift13(0xb6508296) == 0xb6553012;
    assert Mul32(0xb6553012, 0xc2b2ae35) == 0xb6d32fba && Shift16(0xb6d32fba) == 0xb6d39969;
    assert Add32(0x8c02cf0d, 0xbdd8a8a4) == 0x49db77b1 && Add32(0x49db77b1, 0x2e6672a9) == 0x7841ea5a;
    assert Add32(0x7841ea5a, 0xb6d39969) == 0x2f1583c3 && Add32(0xbdd8a8a4, 0x2f1583c3) == 0xecee2c67;
    assert Add32(0x2e6672a9, 0x2f1583c3) == 0x5d7bf66c && Add32(0xb6d39969, 0x2f1583c3) == 0xe5e91d2c;
    hide Mul32, Add32, Xor32, Shift16, Shift13;
  }

  /** The published hash of the text with seed 0. */
  lemma KnownAnswer()
    ensures Hash(FOX1 + FOX2 + FOX3, 0) == Quad(0x2f1583c3, 0xecee2c67, 0x5d7bf66c, 0xe5e91d2c)
  {
    hide BlockStep, TailStep, Finish, Hash;
    HashSplit(FOX1 + FOX2, FOX3, 0);
    FoldConcat(FOX1, FOX2, 16, Start(0), BlockStep);
    FoldOne(FOX1, 16, Start(0), BlockStep);
    FoldOne(FOX2, 16, BlockStep(FOX1, Start(0)), BlockStep);
    Block1();
    Block2();
    Tail();
    End();
    assert LengthWord(43) == 43;
  }
}
