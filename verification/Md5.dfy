/**
 * The MD5 digest of bin/core/md5.c: a context that is fed pieces of a message, against the
 * digest of the whole message as RFC 1321 defines it.
 */
module Md5 {
  import opened ByteStrings

  type Word = w: int | 0 <= w < 0x1_0000_0000

  datatype State = State(a: Word, b: Word, c: Word, d: Word)

  const INIT := State(0x6745_2301, 0xEFCD_AB89, 0x98BA_DCFE, 0x1032_5476)

  // -------------------------------------------------------------------------
  // Section 3.4 of RFC 1321: one block

  /** 32-bit words; the bitwise operations go through bit vectors. */
  function Add(x: Word, y: Word): Word { (x + y) % 0x1_0000_0000 }

  function Bits32(w: Word): bv32 { w as bv32 }

  function Number(b: bv32): Word { b as int }

  function Rotate(b: bv32, s: nat): bv32
    requires s <= 32
  {
    (b << s) | (b >> (32 - s))
  }

  function BitsF(x: bv32, y: bv32, z: bv32): bv32 { (x & y) | (!x & z) }

  function BitsG(x: bv32, y: bv32, z: bv32): bv32 { (x & z) | (y & !z) }

  function BitsH(x: bv32, y: bv32, z: bv32): bv32 { x ^ y ^ z }

  function BitsI(x: bv32, y: bv32, z: bv32): bv32 { y ^ (x | !z) }

  function Rot(v: Word, s: nat): Word
    requires s <= 32
  {
    Number(Rotate(Bits32(v), s))
  }

  function F(x: Word, y: Word, z: Word): Word { Number(BitsF(Bits32(x), Bits32(y), Bits32(z))) }

  function G(x: Word, y: Word, z: Word): Word { Number(BitsG(Bits32(x), Bits32(y), Bits32(z))) }

  function H(x: Word, y: Word, z: Word): Word { Number(BitsH(Bits32(x), Bits32(y), Bits32(z))) }

  function I(x: Word, y: Word, z: Word): Word { Number(BitsI(Bits32(x), Bits32(y), Bits32(z))) }

  function Mix(round: nat, x: Word, y: Word, z: Word): Word {
    if round == 0 then F(x, y, z) else if round == 1 then G(x, y, z) else if round == 2 then H(x, y, z) else I(x, y, z)
  }

  /** What a step puts in for register `a`. */
  function Turn(mix: Word, a: Word, b: Word, m: Word, s: nat, t: Word): Word
    requires s <= 32
  {
    Add(b, Rot(Add(a, Add(Add(mix, m), t)), s))
  }

  /** Which word of the block a step takes. */
  function Index(i: nat): (k: nat)
    ensures k < 16
  {
    if i < 16 then i else if i < 32 then (5 * i + 1) % 16 else if i < 48 then (3 * i + 5) % 16 else 7 * i % 16
  }

  function Shift(round: nat, j: nat): (s: nat)
    requires round < 4 && j < 4
    ensures s <= 32
  {
    if round == 0 then 7 + 5 * j
    else if round == 1 then (if j == 0 then 5 else if j == 1 then 9 else if j == 2 then 14 else 20)
    else if round == 2 then (if j == 0 then 4 else if j == 1 then 11 else if j == 2 then 16 else 23)
    else (if j == 0 then 6 else if j == 1 then 10 else if j == 2 then 15 else 21)
  }

  function SinesFirst(j: nat): Word
    requires j < 16
  {
    match j
    case 0 => 0xd76a_a478
    case 1 => 0xe8c7_b756
    case 2 => 0x2420_70db
    case 3 => 0xc1bd_ceee
    case 4 => 0xf57c_0faf
    case 5 => 0x4787_c62a
    case 6 => 0xa830_4613
    case 7 => 0xfd46_9501
    case 8 => 0x6980_98d8
    case 9 => 0x8b44_f7af
    case 10 => 0xffff_5bb1
    case 11 => 0x895c_d7be
    case 12 => 0x6b90_1122
    case 13 => 0xfd98_7193
    case 14 => 0xa679_438e
    case _ => 0x49b4_0821
  }

  function SinesSecond(j: nat): Word
    requires j < 16
  {
    match j
    case 0 => 0xf61e_2562
    case 1 => 0xc040_b340
    case 2 => 0x265e_5a51
    case 3 => 0xe9b6_c7aa
    case 4 => 0xd62f_105d
    case 5 => 0x0244_1453
    case 6 => 0xd8a1_e681
    case 7 => 0xe7d3_fbc8
    case 8 => 0x21e1_cde6
    case 9 => 0xc337_07d6
    case 10 => 0xf4d5_0d87
    case 11 => 0x455a_14ed
    case 12 => 0xa9e3_e905
    case 13 => 0xfcef_a3f8
    case 14 => 0x676f_02d9
    case _ => 0x8d2a_4c8a
  }

  function SinesThird(j: nat): Word
    requires j < 16
  {
    match j
    case 0 => 0xfffa_3942
    case 1 => 0x8771_f681
    case 2 => 0x6d9d_6122
    case 3 => 0xfde5_380c
    case 4 => 0xa4be_ea44
    case 5 => 0x4bde_cfa9
    case 6 => 0xf6bb_4b60
    case 7 => 0xbebf_bc70
    case 8 => 0x289b_7ec6
    case 9 => 0xeaa1_27fa
    case 10 => 0xd4ef_3085
    case 11 => 0x0488_1d05
    case 12 => 0xd9d4_d039
    case 13 => 0xe6db_99e5
    case 14 => 0x1fa2_7cf8
    case _ => 0xc4ac_5665
  }

  function SinesFourth(j: nat): Word
    requires j < 16
  {
    match j
    case 0 => 0xf429_2244
    case 1 => 0x432a_ff97
    case 2 => 0xab94_23a7
    case 3 => 0xfc93_a039
    case 4 => 0x655b_59c3
    case 5 => 0x8f0c_cc92
    case 6 => 0xffef_f47d
    case 7 => 0x8584_5dd1
    case 8 => 0x6fa8_7e4f
    case 9 => 0xfe2c_e6e0
    case 10 => 0xa301_4314
    case 11 => 0x4e08_11a1
    case 12 => 0xf753_7e82
    case 13 => 0xbd3a_f235
    case 14 => 0x2ad7_d2bb
    case _ => 0xeb86_d391
  }

  function Sine(round: nat, j: nat): Word
    requires j < 16
  {
    if round == 0 then SinesFirst(j) else if round == 1 then SinesSecond(j)
    else if round == 2 then SinesThird(j) else SinesFourth(j)
  }

  /** One step with its word of the block and its constant. */
  function Step(st: State, round: nat, j: nat, w: Word, t: Word): State
    requires round < 4 && j < 4
  {
    State(st.d, Turn(Mix(round, st.b, st.c, st.d), st.a, st.b, w, Shift(round, j), t), st.b, st.c)
  }

  /** The first `n` of the 64 steps. */
  function Rounds(st: State, m: seq<Word>, n: nat): State
    requires |m| == 16 && n <= 64
  {
    if n == 0 then st else var i := n - 1; Step(Rounds(st, m, i), i / 16, i % 4, m[Index(i)], Sine(i / 16, i % 16))
  }

  /** Bytes to words, low byte first. */
  function Join(a: int, b: int, c: int, d: int): int { a + b * 0x100 + c * 0x1_0000 + d * 0x100_0000 }

  function WordOf(b: seq<Byte>, j: nat): Word
    requires j + 4 <= |b|
  {
    Join(b[j], b[j + 1], b[j + 2], b[j + 3])
  }

  function Words(b: seq<Byte>): (m: seq<Word>)
    requires |b| == 64
    ensures |m| == 16
  {
    seq(16, i requires 0 <= i < 16 => WordOf(b, 4 * i))
  }

  function Compress(st: State, b: seq<Byte>): State
    requires |b| == 64
  {
    var r := Rounds(st, Words(b), 64);
    State(Add(st.a, r.a), Add(st.b, r.b), Add(st.c, r.c), Add(st.d, r.d))
  }

  // -------------------------------------------------------------------------
  // The unrolled steps

  function FF(a: Word, b: Word, c: Word, d: Word, m: Word, s: nat, t: Word): Word
    requires s <= 32
  {
    Turn(F(b, c, d), a, b, m, s, t)
  }

  function GG(a: Word, b: Word, c: Word, d: Word, m: Word, s: nat, t: Word): Word
    requires s <= 32
  {
    Turn(G(b, c, d), a, b, m, s, t)
  }

  function HH(a: Word, b: Word, c: Word, d: Word, m: Word, s: nat, t: Word): Word
    requires s <= 32
  {
    Turn(H(b, c, d), a, b, m, s, t)
  }

  function II(a: Word, b: Word, c: Word, d: Word, m: Word, s: nat, t: Word): Word
    requires s <= 32
  {
    Turn(I(b, c, d), a, b, m, s, t)
  }

  /** Four steps, which bring every register back to its place. */
  function Quad(x: State, r: nat, w0: Word, w1: Word, w2: Word, w3: Word, t0: Word, t1: Word, t2: Word, t3: Word): State
    requires r < 4
  {
    Step(Step(Step(Step(x, r, 0, w0, t0), r, 1, w1, t1), r, 2, w2, t2), r, 3, w3, t3)
  }

  lemma Next(st: State, m: seq<Word>, r: nat, j: nat)
    requires |m| == 16 && r < 4 && j < 16
    ensures var i := 16 * r + j;
            Rounds(st, m, i + 1) == Step(Rounds(st, m, i), r, j % 4, m[Index(i)], Sine(r, j))
  {
    hide Step, Index;
    assert (16 * r + j) / 16 == r && (16 * r + j) % 16 == j && (16 * r + j) % 4 == j % 4;
  }

  lemma Four(st: State, m: seq<Word>, r: nat, j: nat)
    requires |m| == 16 && r < 4 && j < 13 && j % 4 == 0
    ensures var i := 16 * r + j;
            var w0, w1, w2, w3 := m[Index(i)], m[Index(i + 1)], m[Index(i + 2)], m[Index(i + 3)];
            var t0, t1, t2, t3 := Sine(r, j), Sine(r, j + 1), Sine(r, j + 2), Sine(r, j + 3);
            Rounds(st, m, i + 4) == Quad(Rounds(st, m, i), r, w0, w1, w2, w3, t0, t1, t2, t3)
  {
    hide Rounds, Step, Index, Sine;
    Next(st, m, r, j);
    Next(st, m, r, j + 1);
    Next(st, m, r, j + 2);
    Next(st, m, r, j + 3);
  }

  lemma FirstTable()
    ensures Index(0) == 0 && Sine(0, 0) == 0xd76a_a478
    ensures Index(1) == 1 && Sine(0, 1) == 0xe8c7_b756
    ensures Index(2) == 2 && Sine(0, 2) == 0x2420_70db
    ensures Index(3) == 3 && Sine(0, 3) == 0xc1bd_ceee
    ensures Index(4) == 4 && Sine(0, 4) == 0xf57c_0faf
    ensures Index(5) == 5 && Sine(0, 5) == 0x4787_c62a
    ensures Index(6) == 6 && Sine(0, 6) == 0xa830_4613
    ensures Index(7) == 7 && Sine(0, 7) == 0xfd46_9501
    ensures Index(8) == 8 && Sine(0, 8) == 0x6980_98d8
    ensures Index(9) == 9 && Sine(0, 9) == 0x8b44_f7af
    ensures Index(10) == 10 && Sine(0, 10) == 0xffff_5bb1
    ensures Index(11) == 11 && Sine(0, 11) == 0x895c_d7be
    ensures Index(12) == 12 && Sine(0, 12) == 0x6b90_1122
    ensures Index(13) == 13 && Sine(0, 13) == 0xfd98_7193
    ensures Index(14) == 14 && Sine(0, 14) == 0xa679_438e
    ensures Index(15) == 15 && Sine(0, 15) == 0x49b4_0821
  {
  }

  method FFs(x: State, w0: Word, w1: Word, w2: Word, w3: Word, t0: Word, t1: Word, t2: Word, t3: Word)
    returns (y: State)
    ensures y == Quad(x, 0, w0, w1, w2, w3, t0, t1, t2, t3)
  {
    hide Turn, F, G, H, I;
    var State(a, b, c, d) := x;
    a := FF(a, b, c, d, w0, 7, t0);
    d := FF(d, a, b, c, w1, 12, t1);
    c := FF(c, d, a, b, w2, 17, t2);
    b := FF(b, c, d, a, w3, 22, t3);
    y := State(a, b, c, d);
  }

  method FirstRound(ghost st: State, m: seq<Word>, x: State) returns (y: State)
    requires |m| == 16 && x == Rounds(st, m, 0)
    ensures y == Rounds(st, m, 16)
  {
    hide Rounds, Quad, Index, Sine;
    FirstTable();
    y := x;
    Four(st, m, 0, 0);
    y := FFs(y, m[0], m[1], m[2], m[3], 0xd76a_a478, 0xe8c7_b756, 0x2420_70db, 0xc1bd_ceee);
    Four(st, m, 0, 4);
    y := FFs(y, m[4], m[5], m[6], m[7], 0xf57c_0faf, 0x4787_c62a, 0xa830_4613, 0xfd46_9501);
    Four(st, m, 0, 8);
    y := FFs(y, m[8], m[9], m[10], m[11], 0x6980_98d8, 0x8b44_f7af, 0xffff_5bb1, 0x895c_d7be);
    Four(st, m, 0, 12);
    y := FFs(y, m[12], m[13], m[14], m[15], 0x6b90_1122, 0xfd98_7193, 0xa679_438e, 0x49b4_0821);
  }

  lemma SecondTable()
    ensures Index(16) == 1 && Sine(1, 0) == 0xf61e_2562
    ensures Index(17) == 6 && Sine(1, 1) == 0xc040_b340
    ensures Index(18) == 11 && Sine(1, 2) == 0x265e_5a51
    ensures Index(19) == 0 && Sine(1, 3) == 0xe9b6_c7aa
    ensures Index(20) == 5 && Sine(1, 4) == 0xd62f_105d
    ensures Index(21) == 10 && Sine(1, 5) == 0x0244_1453
    ensures Index(22) == 15 && Sine(1, 6) == 0xd8a1_e681
    ensures Index(23) == 4 && Sine(1, 7) == 0xe7d3_fbc8
    ensures Index(24) == 9 && Sine(1, 8) == 0x21e1_cde6
    ensures Index(25) == 14 && Sine(1, 9) == 0xc337_07d6
    ensures Index(26) == 3 && Sine(1, 10) == 0xf4d5_0d87
    ensures Index(27) == 8 && Sine(1, 11) == 0x455a_14ed
    ensures Index(28) == 13 && Sine(1, 12) == 0xa9e3_e905
    ensures Index(29) == 2 && Sine(1, 13) == 0xfcef_a3f8
    ensures Index(30) == 7 && Sine(1, 14) == 0x676f_02d9
    ensures Index(31) == 12 && Sine(1, 15) == 0x8d2a_4c8a
  {
  }

  method GGs(x: State, w0: Word, w1: Word, w2: Word, w3: Word, t0: Word, t1: Word, t2: Word, t3: Word)
    returns (y: State)
    ensures y == Quad(x, 1, w0, w1, w2, w3, t0, t1, t2, t3)
  {
    hide Turn, F, G, H, I;
    var State(a, b, c, d) := x;
    a := GG(a, b, c, d, w0, 5, t0);
    d := GG(d, a, b, c, w1, 9, t1);
    c := GG(c, d, a, b, w2, 14, t2);
    b := GG(b, c, d, a, w3, 20, t3);
    y := State(a, b, c, d);
  }

  method SecondRound(ghost st: State, m: seq<Word>, x: State) returns (y: State)
    requires |m| == 16 && x == Rounds(st, m, 16)
    ensures y == Rounds(st, m, 32)
  {
    hide Rounds, Quad, Index, Sine;
    SecondTable();
    y := x;
    Four(st, m, 1, 0);
    y := GGs(y, m[1], m[6], m[11], m[0], 0xf61e_2562, 0xc040_b340, 0x265e_5a51, 0xe9b6_c7aa);
    Four(st, m, 1, 4);
    y := GGs(y, m[5], m[10], m[15], m[4], 0xd62f_105d, 0x0244_1453, 0xd8a1_e681, 0xe7d3_fbc8);
    Four(st, m, 1, 8);
    y := GGs(y, m[9], m[14], m[3], m[8], 0x21e1_cde6, 0xc337_07d6, 0xf4d5_0d87, 0x455a_14ed);
    Four(st, m, 1, 12);
    y := GGs(y, m[13], m[2], m[7], m[12], 0xa9e3_e905, 0xfcef_a3f8, 0x676f_02d9, 0x8d2a_4c8a);
  }

  lemma ThirdTable()
    ensures Index(32) == 5 && Sine(2, 0) == 0xfffa_3942
    ensures Index(33) == 8 && Sine(2, 1) == 0x8771_f681
    ensures Index(34) == 11 && Sine(2, 2) == 0x6d9d_6122
    ensures Index(35) == 14 && Sine(2, 3) == 0xfde5_380c
    ensures Index(36) == 1 && Sine(2, 4) == 0xa4be_ea44
    ensures Index(37) == 4 && Sine(2, 5) == 0x4bde_cfa9
    ensures Index(38) == 7 && Sine(2, 6) == 0xf6bb_4b60
    ensures Index(39) == 10 && Sine(2, 7) == 0xbebf_bc70
    ensures Index(40) == 13 && Sine(2, 8) == 0x289b_7ec6
    ensures Index(41) == 0 && Sine(2, 9) == 0xeaa1_27fa
    ensures Index(42) == 3 && Sine(2, 10) == 0xd4ef_3085
    ensures Index(43) == 6 && Sine(2, 11) == 0x0488_1d05
    ensures Index(44) == 9 && Sine(2, 12) == 0xd9d4_d039
    ensures Index(45) == 12 && Sine(2, 13) == 0xe6db_99e5
    ensures Index(46) == 15 && Sine(2, 14) == 0x1fa2_7cf8
    ensures Index(47) == 2 && Sine(2, 15) == 0xc4ac_5665
  {
  }

  method HHs(x: State, w0: Word, w1: Word, w2: Word, w3: Word, t0: Word, t1: Word, t2: Word, t3: Word)
    returns (y: State)
    ensures y == Quad(x, 2, w0, w1, w2, w3, t0, t1, t2, t3)
  {
    hide Turn, F, G, H, I;
    var State(a, b, c, d) := x;
    a := HH(a, b, c, d, w0, 4, t0);
    d := HH(d, a, b, c, w1, 11, t1);
    c := HH(c, d, a, b, w2, 16, t2);
    b := HH(b, c, d, a, w3, 23, t3);
    y := State(a, b, c, d);
  }

  method ThirdRound(ghost st: State, m: seq<Word>, x: State) returns (y: State)
    requires |m| == 16 && x == Rounds(st, m, 32)
    ensures y == Rounds(st, m, 48)
  {
    hide Rounds, Quad, Index, Sine;
    ThirdTable();
    y := x;
    Four(st, m, 2, 0);
    y := HHs(y, m[5], m[8], m[11], m[14], 0xfffa_3942, 0x8771_f681, 0x6d9d_6122, 0xfde5_380c);
    Four(st, m, 2, 4);
    y := HHs(y, m[1], m[4], m[7], m[10], 0xa4be_ea44, 0x4bde_cfa9, 0xf6bb_4b60, 0xbebf_bc70);
    Four(st, m, 2, 8);
    y := HHs(y, m[13], m[0], m[3], m[6], 0x289b_7ec6, 0xeaa1_27fa, 0xd4ef_3085, 0x0488_1d05);
    Four(st, m, 2, 12);
    y := HHs(y, m[9], m[12], m[15], m[2], 0xd9d4_d039, 0xe6db_99e5, 0x1fa2_7cf8, 0xc4ac_5665);
  }

  lemma FourthTable()
    ensures Index(48) == 0 && Sine(3, 0) == 0xf429_2244
    ensures Index(49) == 7 && Sine(3, 1) == 0x432a_ff97
    ensures Index(50) == 14 && Sine(3, 2) == 0xab94_23a7
    ensures Index(51) == 5 && Sine(3, 3) == 0xfc93_a039
    ensures Index(52) == 12 && Sine(3, 4) == 0x655b_59c3
    ensures Index(53) == 3 && Sine(3, 5) == 0x8f0c_cc92
    ensures Index(54) == 10 && Sine(3, 6) == 0xffef_f47d
    ensures Index(55) == 1 && Sine(3, 7) == 0x8584_5dd1
    ensures Index(56) == 8 && Sine(3, 8) == 0x6fa8_7e4f
    ensures Index(57) == 15 && Sine(3, 9) == 0xfe2c_e6e0
    ensures Index(58) == 6 && Sine(3, 10) == 0xa301_4314
    ensures Index(59) == 13 && Sine(3, 11) == 0x4e08_11a1
    ensures Index(60) == 4 && Sine(3, 12) == 0xf753_7e82
    ensures Index(61) == 11 && Sine(3, 13) == 0xbd3a_f235
    ensures Index(62) == 2 && Sine(3, 14) == 0x2ad7_d2bb
    ensures Index(63) == 9 && Sine(3, 15) == 0xeb86_d391
  {
  }

  method IIs(x: State, w0: Word, w1: Word, w2: Word, w3: Word, t0: Word, t1: Word, t2: Word, t3: Word)
    returns (y: State)
    ensures y == Quad(x, 3, w0, w1, w2, w3, t0, t1, t2, t3)
  {
    hide Turn, F, G, H, I;
    var State(a, b, c, d) := x;
    a := II(a, b, c, d, w0, 6, t0);
    d := II(d, a, b, c, w1, 10, t1);
    c := II(c, d, a, b, w2, 15, t2);
    b := II(b, c, d, a, w3, 21, t3);
    y := State(a, b, c, d);
  }

  method FourthRound(ghost st: State, m: seq<Word>, x: State) returns (y: State)
    requires |m| == 16 && x == Rounds(st, m, 48)
    ensures y == Rounds(st, m, 64)
  {
    hide Rounds, Quad, Index, Sine;
    FourthTable();
    y := x;
    Four(st, m, 3, 0);
    y := IIs(y, m[0], m[7], m[14], m[5], 0xf429_2244, 0x432a_ff97, 0xab94_23a7, 0xfc93_a039);
    Four(st, m, 3, 4);
    y := IIs(y, m[12], m[3], m[10], m[1], 0x655b_59c3, 0x8f0c_cc92, 0xffef_f47d, 0x8584_5dd1);
    Four(st, m, 3, 8);
    y := IIs(y, m[8], m[15], m[6], m[13], 0x6fa8_7e4f, 0xfe2c_e6e0, 0xa301_4314, 0x4e08_11a1);
    Four(st, m, 3, 12);
    y := IIs(y, m[4], m[11], m[2], m[9], 0xf753_7e82, 0xbd3a_f235, 0x2ad7_d2bb, 0xeb86_d391);
  }

  // -------------------------------------------------------------------------
  // Sections 3.1 to 3.5 of RFC 1321: whole messages

  const BLOCK := 64
  const WRAP := 0x1_0000_0000_0000_0000

  /** A number as eight bytes, low byte first. */
  function LengthField(n: nat): (b: seq<Byte>)
    ensures |b| == 8
  {
    Low(n, 8)
  }

  function Low(n: nat, k: nat): (b: seq<Byte>)
    ensures |b| == k
  {
    if k == 0 then [] else [n % 256] + Low(n / 256, k - 1)
  }

  /** As many zeros as it takes to end 8 bytes short of a block. */
  function Gap(n: nat): (z: nat)
    ensures z < BLOCK && (n + 1 + z) % BLOCK == 56
  {
    (55 - n) % BLOCK
  }

  /** The length of a message in bits, as far as 64 bits hold it. */
  function Bits(n: nat): (b: nat)
    ensures b < WRAP
  {
    8 * n % WRAP
  }

  lemma BitsAdd(n: nat, k: nat)
    ensures (Bits(n) + 8 * k) % WRAP == Bits(n + k)
  {
  }

  function Padded(msg: seq<Byte>): (p: seq<Byte>)
    ensures |p| == |msg| + 1 + Gap(|msg|) + 8
  {
    msg + [0x80] + Zeros(Gap(|msg|)) + LengthField(Bits(|msg|))
  }

  lemma PaddedWhole(msg: seq<Byte>)
    ensures |Padded(msg)| % BLOCK == 0
  {
    hide Gap, Padded;
  }

  /** Block after block. */
  function Fold(st: State, s: seq<Byte>): State
    decreases |s|
  {
    if |s| < BLOCK then st else Fold(Compress(st, s[..BLOCK]), s[BLOCK..])
  }

  function WordBytes(w: Word): (b: seq<Byte>)
    ensures |b| == 4
  {
    Low(w, 4)
  }

  function Output(st: State): (h: seq<Byte>)
    ensures |h| == 16
  {
    WordBytes(st.a) + WordBytes(st.b) + WordBytes(st.c) + WordBytes(st.d)
  }

  function Digest(msg: seq<Byte>): seq<Byte> { Output(Fold(INIT, Padded(msg))) }

  lemma {:induction false} FoldAdd(st: State, s: seq<Byte>, block: seq<Byte>)
    requires |s| % BLOCK == 0 && |block| == BLOCK
    ensures Fold(st, s + block) == Compress(Fold(st, s), block)
    decreases |s|
  {
    hide Compress;
    if s == [] {
      assert s + block == block && block[..BLOCK] == block && block[BLOCK..] == [];
    } else {
      assert (s + block)[..BLOCK] == s[..BLOCK] && (s + block)[BLOCK..] == s[BLOCK..] + block;
      FoldAdd(Compress(st, s[..BLOCK]), s[BLOCK..], block);
    }
  }

  lemma {:induction false} LowInjective(n: nat, m: nat, k: nat)
    requires Low(n, k) == Low(m, k) && n < Power(k) && m < Power(k)
    ensures n == m
  {
    if k > 0 {
      assert Low(n, k)[0] == n % 256 && Low(m, k)[0] == m % 256;
      assert Low(n, k)[1..] == Low(n / 256, k - 1) && Low(m, k)[1..] == Low(m / 256, k - 1);
      LowInjective(n / 256, m / 256, k - 1);
    }
  }

  function Power(k: nat): nat { if k == 0 then 1 else 256 * Power(k - 1) }

  lemma PowerEight()
    ensures Power(8) == WRAP
  {
    assert Power(2) == 0x1_0000;
    assert Power(4) == 0x1_0000_0000;
    assert Power(6) == 0x1_0000_0000_0000;
  }

  /** Messages of fewer than 2^61 bytes are told apart by their padded forms. */
  lemma PaddingInjective(m: seq<Byte>, n: seq<Byte>)
    requires Padded(m) == Padded(n) && 8 * |m| < WRAP && 8 * |n| < WRAP
    ensures m == n
  {
    hide Low, Gap;
    var p := Padded(m);
    assert p[|p| - 8..] == LengthField(Bits(|m|)) == LengthField(Bits(|n|));
    PowerEight();
    LowInjective(8 * |m|, 8 * |n|, 8);
    assert p[..|m|] == m && p[..|n|] == n;
  }

  lemma SplitLow(b: Byte, rest: nat)
    ensures (b + 256 * rest) % 256 == b && (b + 256 * rest) / 256 == rest
  {
  }

  lemma LowStep(b: Byte, rest: nat, k: nat)
    ensures Low(b + 256 * rest, k + 1) == [b] + Low(rest, k)
  {
    hide Low;
    SplitLow(b, rest);
    LowCons(b + 256 * rest, k);
  }

  lemma LowCons(n: nat, k: nat)
    ensures Low(n, k + 1) == [n % 256] + Low(n / 256, k)
  {
  }

  /** Reading a word and writing it out again gives its four bytes. */
  lemma WordRoundTrip(b: seq<Byte>, j: nat)
    requires j + 4 <= |b|
    ensures WordBytes(WordOf(b, j)) == b[j..j + 4]
  {
    hide Low;
    var w3: nat := b[j + 3];
    var w2: nat := b[j + 2] + 256 * w3;
    var w1: nat := b[j + 1] + 256 * w2;
    LowStep(b[j], w1, 3);
    LowStep(b[j + 1], w2, 2);
    LowStep(b[j + 2], w3, 1);
    LowStep(b[j + 3], 0, 0);
    NoLow();
  }

  lemma NoLow()
    ensures Low(0, 0) == []
  {
  }

  // -------------------------------------------------------------------------
  // The context

  /** A buffer with `n` bytes in use, a count of bits and a state that account for a message. */
  ghost predicate FedBy(d: seq<Byte>, n: nat, bits: nat, st: State, msg: seq<Byte>) {
    && |d| == BLOCK && n < BLOCK && n <= |msg| && (|msg| - n) % BLOCK == 0
    && d[..n] == msg[|msg| - n..]
    && st == Fold(INIT, msg[..|msg| - n])
    && bits == Bits(|msg| - n)
  }

  lemma FedMore(d: seq<Byte>, n: nat, bits: nat, st: State, msg: seq<Byte>, b: Byte)
    requires FedBy(d, n, bits, st, msg) && n + 1 < BLOCK
    ensures FedBy(d[n := b], n + 1, bits, st, msg + [b])
  {
    hide Fold, Bits;
    var done, more := |msg| - n, msg + [b];
    assert more[..done] == msg[..done];
    assert d[n := b][..n + 1] == d[..n] + [b] == more[done..];
  }

  lemma FedBlock(d: seq<Byte>, n: nat, bits: nat, st: State, msg: seq<Byte>, b: Byte)
    requires FedBy(d, n, bits, st, msg) && n + 1 == BLOCK
    ensures |d| == BLOCK && FedBy(d[n := b], 0, (bits + 512) % WRAP, Compress(st, d[n := b]), msg + [b])
  {
    hide Fold, Bits, Compress;
    var done, more := |msg| - n, msg + [b];
    assert d[n := b] == d[..n] + [b];
    assert more == msg[..done] + d[n := b];
    assert more[..|more|] == more;
    FoldAdd(INIT, msg[..done], d[n := b]);
    BitsAdd(done, BLOCK);
  }

  class Context {
    const data: array<Byte>
    var datalen: nat
    var bitlen: nat
    var state: State

    /** The context has been fed the message. */
    ghost predicate Fed(msg: seq<Byte>)
      reads this, data
    {
      data.Length == BLOCK && datalen < BLOCK && FedBy(data[..], datalen, bitlen, state, msg)
    }

    constructor ()
      ensures Fed([]) && fresh(data)
    {
      data := new Byte[BLOCK](_ => 0);
      datalen, bitlen, state := 0, 0, INIT;
    }

    method Transform()
      requires data.Length == BLOCK
      modifies this`state
      ensures state == Compress(old(state), data[..])
    {
      hide Rounds, Index, Add;
      var m := Words(data[..]);
      ghost var st := state;
      RoundsNone(st, m);
      var x := FirstRound(st, m, state);
      x := SecondRound(st, m, x);
      x := ThirdRound(st, m, x);
      x := FourthRound(st, m, x);
      state := State(Add(state.a, x.a), Add(state.b, x.b), Add(state.c, x.c), Add(state.d, x.d));
    }

    /** One byte. */
    method Push(b: Byte, ghost msg: seq<Byte>)
      requires Fed(msg)
      modifies this, data
      ensures Fed(msg + [b])
    {
      hide FedBy, Compress;
      ghost var d, n := data[..], datalen;
      data[datalen] := b;
      datalen := datalen + 1;
      assert data[..] == d[n := b];
      if datalen == BLOCK {
        FedBlock(d, n, bitlen, state, msg, b);
        Transform();
        bitlen := (bitlen + 512) % WRAP;
        datalen := 0;
      } else {
        FedMore(d, n, bitlen, state, msg, b);
      }
    }

    method Update(bytes: seq<Byte>, ghost msg: seq<Byte>)
      requires Fed(msg)
      modifies this, data
      ensures Fed(msg + bytes)
    {
      hide Fed;
      assert msg + bytes[..0] == msg;
      var i := 0;
      while i < |bytes|
        invariant 0 <= i <= |bytes| && Fed(msg + bytes[..i])
      {
        Push(bytes[i], msg + bytes[..i]);
        assert (msg + bytes[..i]) + [bytes[i]] == msg + bytes[..i + 1];
        i := i + 1;
      }
      assert bytes[..i] == bytes;
    }

    /** The marker byte and zeros up to `end`. */
    method Pad(end: nat)
      requires data.Length == BLOCK && datalen < end <= BLOCK
      modifies data
      ensures data[..end] == old(data[..datalen]) + [0x80] + Zeros(end - datalen - 1)
    {
      ghost var tail := data[..datalen];
      data[datalen] := 0x80;
      var i := datalen + 1;
      while i < end
        invariant datalen + 1 <= i <= end
        invariant data[..i] == tail + [0x80] + Zeros(i - datalen - 1)
      {
        data[i] := 0;
        i := i + 1;
      }
    }

    method ZeroFront()
      requires data.Length == BLOCK
      modifies data
      ensures data[..56] == Zeros(56)
    {
      var i := 0;
      while i < 56
        invariant 0 <= i <= 56 && data[..i] == Zeros(i)
      {
        data[i] := 0;
        i := i + 1;
      }
    }

    /** The length, shifted by eight more bits for each byte. */
    method StoreLength()
      requires data.Length == BLOCK && bitlen < WRAP
      modifies data
      ensures data[..56] == old(data[..56]) && data[56..] == LengthField(bitlen)
    {
      var n, i := bitlen, 56;
      while i < 64
        invariant 56 <= i <= 64 && n >= 0 && data[..56] == old(data[..56])
        invariant LengthField(bitlen) == data[56..i] + Low(n, 64 - i)
      {
        data[i] := n % 256;
        n := n / 256;
        i := i + 1;
      }
    }

    /** The last one or two blocks, and the digest. */
    method Final(ghost msg: seq<Byte>) returns (hash: seq<Byte>)
      requires Fed(msg)
      modifies this, data
      ensures hash == Digest(msg)
    {
      hide Fold, Compress, LengthField, Output, Bits, Padded, Gap;
      ghost var done, tail := msg[..|msg| - datalen], msg[|msg| - datalen..];
      assert msg == done + tail;
      ghost var len := LengthField(Bits(|msg|));
      if datalen < 56 {
        Pad(56);
        OneBlock(msg, done, tail);
      } else {
        Pad(BLOCK);
        Transform();
        ghost var first := data[..];
        assert first == data[..BLOCK];
        FoldAdd(INIT, done, first);
        ZeroFront();
        TwoBlocks(msg, done, tail);
      }
      BitsAdd(|done|, datalen);
      bitlen := (bitlen + datalen * 8) % WRAP;
      StoreLength();
      ghost var last := data[..];
      assert last == data[..56] + data[56..];
      Transform();
      FoldAdd(INIT, if datalen < 56 then done else done + (tail + [0x80] + Zeros(63 - datalen)), last);
      hash := Output(state);
    }
  }

  /** A short tail leaves room for the length in its block. */
  lemma OneBlock(msg: seq<Byte>, done: seq<Byte>, tail: seq<Byte>)
    requires msg == done + tail && |done| % BLOCK == 0 && |tail| < 56
    ensures Padded(msg) == done + (tail + [0x80] + Zeros(55 - |tail|) + LengthField(Bits(|msg|)))
  {
    assert Gap(|msg|) == 55 - |tail|;
  }

  /** A long one does not. */
  lemma TwoBlocks(msg: seq<Byte>, done: seq<Byte>, tail: seq<Byte>)
    requires msg == done + tail && |done| % BLOCK == 0 && 56 <= |tail| < BLOCK
    ensures Padded(msg)
         == done + (tail + [0x80] + Zeros(63 - |tail|)) + (Zeros(56) + LengthField(Bits(|msg|)))
  {
    assert Gap(|msg|) == 63 - |tail| + 56;
    assert Zeros(63 - |tail|) + Zeros(56) == Zeros(63 - |tail| + 56);
  }

  function Concat(pieces: seq<seq<Byte>>): seq<Byte> {
    if pieces == [] then [] else Concat(pieces[..|pieces| - 1]) + pieces[|pieces| - 1]
  }

  /** However a message is cut into pieces, its digest comes out. */
  method Hash(pieces: seq<seq<Byte>>) returns (hash: seq<Byte>)
    ensures hash == Digest(Concat(pieces))
  {
    hide Context.Fed, Digest;
    var ctx := new Context();
    var i := 0;
    while i < |pieces|
      invariant 0 <= i <= |pieces| && fresh(ctx) && fresh(ctx.data) && ctx.Fed(Concat(pieces[..i]))
    {
      ctx.Update(pieces[i], Concat(pieces[..i]));
      assert pieces[..i + 1][..i] == pieces[..i];
      i := i + 1;
    }
    assert pieces[..i] == pieces;
    hash := ctx.Final(Concat(pieces));
  }

  lemma RoundsNone(st: State, m: seq<Word>)
    requires |m| == 16
    ensures Rounds(st, m, 0) == st
  {
  }
}
