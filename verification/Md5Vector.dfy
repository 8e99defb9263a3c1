/** A digest worked out in full: the message "abc", whose digest section A.5 of RFC 1321 lists.
    It ties the words, the constants, the shifts and the order of everything to the standard. */
module Md5Vector {
  import opened ByteStrings
  import opened Md5

  /** The padded message as words. */
  function Abc(): (m: seq<Word>)
    ensures |m| == 16
  {
    [0x8063_6261, 0, 0, 0, 0, 0, 0, 0, 0, 0, 0, 0, 0, 0, 24, 0]
  }

  lemma AbcWords()
    ensures Abc()[0] == 0x8063_6261 && Abc()[1] == 0 && Abc()[2] == 0 && Abc()[3] == 0
    ensures Abc()[4] == 0 && Abc()[5] == 0 && Abc()[6] == 0 && Abc()[7] == 0
    ensures Abc()[8] == 0 && Abc()[9] == 0 && Abc()[10] == 0 && Abc()[11] == 0
    ensures Abc()[12] == 0 && Abc()[13] == 0 && Abc()[14] == 24 && Abc()[15] == 0
  {
  }

  lemma StartForms()
    ensures Bits32(0xefcd_ab89) == 0xefcd_ab89 && Bits32(0x98ba_dcfe) == 0x98ba_dcfe
    ensures Bits32(0x1032_5476) == 0x1032_5476
  {
  }

  // -------------------------------------------------------------------------
  // First round

  lemma FirstBits()
    ensures BitsF(0xefcd_ab89, 0x98ba_dcfe, 0x1032_5476) == 0x98ba_dcfe && Rotate(0x57ce_06d8, 7) == 0xe703_6c2b
    ensures BitsF(0xd6d1_17b4, 0xefcd_ab89, 0x98ba_dcfe) == 0xceeb_cbca && Rotate(0xc7e5_d796, 12) == 0x5d79_6c7e
    ensures BitsF(0x344a_8432, 0xd6d1_17b4, 0xefcd_ab89) == 0xdfc5_2fb9 && Rotate(0x9ca0_7d92, 17) == 0xfb25_3940
    ensures BitsF(0x2f6f_bd72, 0x344a_8432, 0xd6d1_17b4) == 0xf4da_86b6 && Rotate(0xa666_012d, 22) == 0x4b69_9980
    ensures BitsF(0x7ad9_56f2, 0x2f6f_bd72, 0x344a_8432) == 0x2e4b_9472 && Rotate(0xfa98_bbd5, 7) == 0x4c5d_eafd
    ensures BitsF(0xc737_41ef, 0x7ad9_56f2, 0x2f6f_bd72) == 0x6a59_fcf2 && Rotate(0xe62c_474e, 12) == 0xc474_ee62
    ensures BitsF(0x8bac_3051, 0xc737_41ef, 0x7ad9_56f2) == 0xf375_46e3 && Rotate(0xcb15_4a68, 17) == 0x94d1_962a
    ensures BitsF(0x207d_c67b, 0x8bac_3051, 0xc737_41ef) == 0xc72e_01d5 && Rotate(0x3f4d_edc8, 22) == 0x720f_d37b
    ensures BitsF(0x928d_99f6, 0x207d_c67b, 0x8bac_3051) == 0x092d_a073 && Rotate(0x39e5_7b3a, 7) == 0xf2bd_9d1c
    ensures BitsF(0x854b_3712, 0x928d_99f6, 0x207d_c67b) == 0xa03d_d17b && Rotate(0xb72e_f97b, 12) == 0xef97_bb72
    ensures BitsF(0x74e2_f284, 0x854b_3712, 0x928d_99f6) == 0x864f_3b72 && Rotate(0xa6cc_5d9e, 17) == 0xbb3d_4d98
    ensures BitsF(0x3020_401c, 0x74e2_f284, 0x854b_3712) == 0xb56b_7706 && Rotate(0xd155_e8ba, 22) == 0x2eb4_557a
    ensures BitsF(0x5ed4_9596, 0x3020_401c, 0x74e2_f284) == 0x3022_6214 && Rotate(0x20fd_aa48, 7) == 0x7ed5_2410
    ensures BitsF(0xdda9_b9a6, 0x5ed4_9596, 0x3020_401c) == 0x7c80_d19e && Rotate(0xeefc_35b5, 12) == 0xc35b_5eef
    ensures BitsF(0xa105_1895, 0xdda9_b9a6, 0x5ed4_9596) == 0xdfd1_9d86 && Rotate(0xb66b_2148, 17) == 0x4291_6cd6
    ensures BitsF(0xe396_856b, 0xa105_1895, 0xdda9_b9a6) == 0xbd2d_3885 && Rotate(0x65b5_d63c, 22) == 0x8f19_6d75
  {
  }

  lemma FirstSums0()
    ensures Add(0x6745_2301, Add(Add(0x98ba_dcfe, 0x8063_6261), 0xd76a_a478)) == 0x57ce_06d8
    ensures Add(0xefcd_ab89, 0xe703_6c2b) == 0xd6d1_17b4
    ensures Add(0x1032_5476, Add(Add(0xceeb_cbca, 0), 0xe8c7_b756)) == 0xc7e5_d796
    ensures Add(0xd6d1_17b4, 0x5d79_6c7e) == 0x344a_8432
    ensures Add(0x98ba_dcfe, Add(Add(0xdfc5_2fb9, 0), 0x2420_70db)) == 0x9ca0_7d92
    ensures Add(0x344a_8432, 0xfb25_3940) == 0x2f6f_bd72
    ensures Add(0xefcd_ab89, Add(Add(0xf4da_86b6, 0), 0xc1bd_ceee)) == 0xa666_012d
    ensures Add(0x2f6f_bd72, 0x4b69_9980) == 0x7ad9_56f2
    ensures Add(0xd6d1_17b4, Add(Add(0x2e4b_9472, 0), 0xf57c_0faf)) == 0xfa98_bbd5
    ensures Add(0x7ad9_56f2, 0x4c5d_eafd) == 0xc737_41ef
    ensures Add(0x344a_8432, Add(Add(0x6a59_fcf2, 0), 0x4787_c62a)) == 0xe62c_474e
    ensures Add(0xc737_41ef, 0xc474_ee62) == 0x8bac_3051
    ensures Add(0x2f6f_bd72, Add(Add(0xf375_46e3, 0), 0xa830_4613)) == 0xcb15_4a68
    ensures Add(0x8bac_3051, 0x94d1_962a) == 0x207d_c67b
    ensures Add(0x7ad9_56f2, Add(Add(0xc72e_01d5, 0), 0xfd46_9501)) == 0x3f4d_edc8
    ensures Add(0x207d_c67b, 0x720f_d37b) == 0x928d_99f6
  {
  }

  lemma FirstSums1()
    ensures Add(0xc737_41ef, Add(Add(0x092d_a073, 0), 0x6980_98d8)) == 0x39e5_7b3a
    ensures Add(0x928d_99f6, 0xf2bd_9d1c) == 0x854b_3712
    ensures Add(0x8bac_3051, Add(Add(0xa03d_d17b, 0), 0x8b44_f7af)) == 0xb72e_f97b
    ensures Add(0x854b_3712, 0xef97_bb72) == 0x74e2_f284
    ensures Add(0x207d_c67b, Add(Add(0x864f_3b72, 0), 0xffff_5bb1)) == 0xa6cc_5d9e
    ensures Add(0x74e2_f284, 0xbb3d_4d98) == 0x3020_401c
    ensures Add(0x928d_99f6, Add(Add(0xb56b_7706, 0), 0x895c_d7be)) == 0xd155_e8ba
    ensures Add(0x3020_401c, 0x2eb4_557a) == 0x5ed4_9596
    ensures Add(0x854b_3712, Add(Add(0x3022_6214, 0), 0x6b90_1122)) == 0x20fd_aa48
    ensures Add(0x5ed4_9596, 0x7ed5_2410) == 0xdda9_b9a6
    ensures Add(0x74e2_f284, Add(Add(0x7c80_d19e, 0), 0xfd98_7193)) == 0xeefc_35b5
    ensures Add(0xdda9_b9a6, 0xc35b_5eef) == 0xa105_1895
    ensures Add(0x3020_401c, Add(Add(0xdfd1_9d86, 24), 0xa679_438e)) == 0xb66b_2148
    ensures Add(0xa105_1895, 0x4291_6cd6) == 0xe396_856b
    ensures Add(0x5ed4_9596, Add(Add(0xbd2d_3885, 0), 0x49b4_0821)) == 0x65b5_d63c
    ensures Add(0xe396_856b, 0x8f19_6d75) == 0x72af_f2e0
  {
  }

  lemma FirstForms()
    ensures Bits32(0xd6d1_17b4) == 0xd6d1_17b4 && Number(0x98ba_dcfe) == 0x98ba_dcfe
    ensures Bits32(0x57ce_06d8) == 0x57ce_06d8 && Number(0xe703_6c2b) == 0xe703_6c2b
    ensures Bits32(0x344a_8432) == 0x344a_8432 && Number(0xceeb_cbca) == 0xceeb_cbca
    ensures Bits32(0xc7e5_d796) == 0xc7e5_d796 && Number(0x5d79_6c7e) == 0x5d79_6c7e
    ensures Bits32(0x2f6f_bd72) == 0x2f6f_bd72 && Number(0xdfc5_2fb9) == 0xdfc5_2fb9
    ensures Bits32(0x9ca0_7d92) == 0x9ca0_7d92 && Number(0xfb25_3940) == 0xfb25_3940
    ensures Bits32(0x7ad9_56f2) == 0x7ad9_56f2 && Number(0xf4da_86b6) == 0xf4da_86b6
    ensures Bits32(0xa666_012d) == 0xa666_012d && Number(0x4b69_9980) == 0x4b69_9980
    ensures Bits32(0xc737_41ef) == 0xc737_41ef && Number(0x2e4b_9472) == 0x2e4b_9472
    ensures Bits32(0xfa98_bbd5) == 0xfa98_bbd5 && Number(0x4c5d_eafd) == 0x4c5d_eafd
    ensures Bits32(0x8bac_3051) == 0x8bac_3051 && Number(0x6a59_fcf2) == 0x6a59_fcf2
    ensures Bits32(0xe62c_474e) == 0xe62c_474e && Number(0xc474_ee62) == 0xc474_ee62
    ensures Bits32(0x207d_c67b) == 0x207d_c67b && Number(0xf375_46e3) == 0xf375_46e3
    ensures Bits32(0xcb15_4a68) == 0xcb15_4a68 && Number(0x94d1_962a) == 0x94d1_962a
    ensures Bits32(0x928d_99f6) == 0x928d_99f6 && Number(0xc72e_01d5) == 0xc72e_01d5
    ensures Bits32(0x3f4d_edc8) == 0x3f4d_edc8 && Number(0x720f_d37b) == 0x720f_d37b
    ensures Bits32(0x854b_3712) == 0x854b_3712 && Number(0x092d_a073) == 0x092d_a073
    ensures Bits32(0x39e5_7b3a) == 0x39e5_7b3a && Number(0xf2bd_9d1c) == 0xf2bd_9d1c
    ensures Bits32(0x74e2_f284) == 0x74e2_f284 && Number(0xa03d_d17b) == 0xa03d_d17b
    ensures Bits32(0xb72e_f97b) == 0xb72e_f97b && Number(0xef97_bb72) == 0xef97_bb72
    ensures Bits32(0x3020_401c) == 0x3020_401c && Number(0x864f_3b72) == 0x864f_3b72
    ensures Bits32(0xa6cc_5d9e) == 0xa6cc_5d9e && Number(0xbb3d_4d98) == 0xbb3d_4d98
    ensures Bits32(0x5ed4_9596) == 0x5ed4_9596 && Number(0xb56b_7706) == 0xb56b_7706
    ensures Bits32(0xd155_e8ba) == 0xd155_e8ba && Number(0x2eb4_557a) == 0x2eb4_557a
    ensures Bits32(0xdda9_b9a6) == 0xdda9_b9a6 && Number(0x3022_6214) == 0x3022_6214
    ensures Bits32(0x20fd_aa48) == 0x20fd_aa48 && Number(0x7ed5_2410) == 0x7ed5_2410
    ensures Bits32(0xa105_1895) == 0xa105_1895 && Number(0x7c80_d19e) == 0x7c80_d19e
    ensures Bits32(0xeefc_35b5) == 0xeefc_35b5 && Number(0xc35b_5eef) == 0xc35b_5eef
    ensures Bits32(0xe396_856b) == 0xe396_856b && Number(0xdfd1_9d86) == 0xdfd1_9d86
    ensures Bits32(0xb66b_2148) == 0xb66b_2148 && Number(0x4291_6cd6) == 0x4291_6cd6
    ensures Bits32(0x72af_f2e0) == 0x72af_f2e0 && Number(0xbd2d_3885) == 0xbd2d_3885
    ensures Bits32(0x65b5_d63c) == 0x65b5_d63c && Number(0x8f19_6d75) == 0x8f19_6d75
  {
  }

  lemma FirstSteps()
    requires Rounds(INIT, Abc(), 0) == State(0x6745_2301, 0xefcd_ab89, 0x98ba_dcfe, 0x1032_5476)
    ensures Rounds(INIT, Abc(), 16) == State(0xdda9_b9a6, 0x72af_f2e0, 0xe396_856b, 0xa105_1895)
  {
    hide Rounds, Index, Sine, Abc, Add, BitsF, Rotate, Bits32, Number;
    FirstTable();
    AbcWords();
    FirstBits();
    FirstSums0();
    FirstSums1();
    FirstForms();
    StartForms();
    Next(INIT, Abc(), 0, 0);
    assert Rounds(INIT, Abc(), 1) == State(0x1032_5476, 0xd6d1_17b4, 0xefcd_ab89, 0x98ba_dcfe);
    Next(INIT, Abc(), 0, 1);
    assert Rounds(INIT, Abc(), 2) == State(0x98ba_dcfe, 0x344a_8432, 0xd6d1_17b4, 0xefcd_ab89);
    Next(INIT, Abc(), 0, 2);
    assert Rounds(INIT, Abc(), 3) == State(0xefcd_ab89, 0x2f6f_bd72, 0x344a_8432, 0xd6d1_17b4);
    Next(INIT, Abc(), 0, 3);
    assert Rounds(INIT, Abc(), 4) == State(0xd6d1_17b4, 0x7ad9_56f2, 0x2f6f_bd72, 0x344a_8432);
    Next(INIT, Abc(), 0, 4);
    assert Rounds(INIT, Abc(), 5) == State(0x344a_8432, 0xc737_41ef, 0x7ad9_56f2, 0x2f6f_bd72);
    Next(INIT, Abc(), 0, 5);
    assert Rounds(INIT, Abc(), 6) == State(0x2f6f_bd72, 0x8bac_3051, 0xc737_41ef, 0x7ad9_56f2);
    Next(INIT, Abc(), 0, 6);
    assert Rounds(INIT, Abc(), 7) == State(0x7ad9_56f2, 0x207d_c67b, 0x8bac_3051, 0xc737_41ef);
    Next(INIT, Abc(), 0, 7);
    assert Rounds(INIT, Abc(), 8) == State(0xc737_41ef, 0x928d_99f6, 0x207d_c67b, 0x8bac_3051);
    Next(INIT, Abc(), 0, 8);
    assert Rounds(INIT, Abc(), 9) == State(0x8bac_3051, 0x854b_3712, 0x928d_99f6, 0x207d_c67b);
    Next(INIT, Abc(), 0, 9);
    assert Rounds(INIT, Abc(), 10) == State(0x207d_c67b, 0x74e2_f284, 0x854b_3712, 0x928d_99f6);
    Next(INIT, Abc(), 0, 10);
    assert Rounds(INIT, Abc(), 11) == State(0x928d_99f6, 0x3020_401c, 0x74e2_f284, 0x854b_3712);
    Next(INIT, Abc(), 0, 11);
    assert Rounds(INIT, Abc(), 12) == State(0x854b_3712, 0x5ed4_9596, 0x3020_401c, 0x74e2_f284);
    Next(INIT, Abc(), 0, 12);
    assert Rounds(INIT, Abc(), 13) == State(0x74e2_f284, 0xdda9_b9a6, 0x5ed4_9596, 0x3020_401c);
    Next(INIT, Abc(), 0, 13);
    assert Rounds(INIT, Abc(), 14) == State(0x3020_401c, 0xa105_1895, 0xdda9_b9a6, 0x5ed4_9596);
    Next(INIT, Abc(), 0, 14);
    assert Rounds(INIT, Abc(), 15) == State(0x5ed4_9596, 0xe396_856b, 0xa105_1895, 0xdda9_b9a6);
    Next(INIT, Abc(), 0, 15);
    assert Rounds(INIT, Abc(), 16) == State(0xdda9_b9a6, 0x72af_f2e0, 0xe396_856b, 0xa105_1895);
  }

  // -------------------------------------------------------------------------
  // Second round

  lemma SecondBits()
    ensures BitsG(0x72af_f2e0, 0xe396_856b, 0xa105_1895) == 0x6297_95ea && Rotate(0x365f_74f2, 5) == 0xcbee_9e46
    ensures BitsG(0x3e9e_9126, 0x72af_f2e0, 0xe396_856b) == 0x32bf_f3a2 && Rotate(0x9405_bf77, 9) == 0x0b7e_ef28
    ensures BitsG(0x4a1d_804e, 0x3e9e_9126, 0x72af_f2e0) == 0x4e1d_8146 && Rotate(0x5812_6102, 14) == 0x9840_9604
    ensures BitsG(0xe25e_1652, 0x4a1d_804e, 0x3e9e_9126) == 0x621f_104a && Rotate(0x3ee9_2d35, 20) == 0xd353_ee92
    ensures BitsG(0xb5b2_04e4, 0xe25e_1652, 0x4a1d_804e) == 0xa052_1654 && Rotate(0xb51f_b7d7, 5) == 0xa3f6_faf6
    ensures BitsG(0x59a8_ffda, 0xb5b2_04e4, 0xe25e_1652) == 0x55a8_16f6 && Rotate(0xa209_ab97, 9) == 0x1357_2f44
    ensures BitsG(0x6d00_2f1e, 0x59a8_ffda, 0xb5b2_04e4) == 0x6d08_ff1e && Rotate(0x2808_fbf1, 14) == 0x3efc_4a02
    ensures BitsG(0xabfc_7920, 0x6d00_2f1e, 0x59a8_ffda) == 0x2da8_7904 && Rotate(0xcb2e_79b0, 20) == 0x9b0c_b2e7
    ensures BitsG(0x4709_2c07, 0xabfc_7920, 0x6d00_2f1e) == 0xc7fc_7c26 && Rotate(0x4387_49e6, 5) == 0x70e9_3cc8
    ensures BitsG(0xb7f2_68cf, 0x4709_2c07, 0xabfc_7920) == 0xe7f1_6c07 && Rotate(0x1828_a313, 9) == 0x5146_2630
    ensures BitsG(0x0938_8eff, 0xb7f2_68cf, 0x4709_2c07) == 0xb1fa_4ccf && Rotate(0x52cb_d376, 14) == 0xf4dd_94b2
    ensures BitsG(0xfe16_23b1, 0x0938_8eff, 0xb7f2_68cf) == 0xbe1a_a6b1 && Rotate(0x4a7d_e7a5, 20) == 0x7a54_a7de
    ensures BitsG(0x786a_cb8f, 0xfe16_23b1, 0x0938_8eff) == 0xfe2e_ab8f && Rotate(0x6004_fd63, 5) == 0x009f_ac6c
    ensures BitsG(0x790a_77fb, 0x786a_cb8f, 0xfe16_23b1) == 0x786a_ebbf && Rotate(0x7e93_1eb6, 9) == 0x263d_6cfd
    ensures BitsG(0x9f47_e4f8, 0x790a_77fb, 0x786a_cb8f) == 0x1942_f4f8 && Rotate(0x7ec8_1b82, 14) == 0x06e0_9fb2
    ensures BitsG(0xa628_84aa, 0x9f47_e4f8, 0x790a_77fb) == 0xa64d_84aa && Rotate(0xabe2_9cc3, 20) == 0xcc3a_be29
  {
  }

  lemma SecondSums0()
    ensures Add(0xdda9_b9a6, Add(Add(0x6297_95ea, 0), 0xf61e_2562)) == 0x365f_74f2
    ensures Add(0x72af_f2e0, 0xcbee_9e46) == 0x3e9e_9126
    ensures Add(0xa105_1895, Add(Add(0x32bf_f3a2, 0), 0xc040_b340)) == 0x9405_bf77
    ensures Add(0x3e9e_9126, 0x0b7e_ef28) == 0x4a1d_804e
    ensures Add(0xe396_856b, Add(Add(0x4e1d_8146, 0), 0x265e_5a51)) == 0x5812_6102
    ensures Add(0x4a1d_804e, 0x9840_9604) == 0xe25e_1652
    ensures Add(0x72af_f2e0, Add(Add(0x621f_104a, 0x8063_6261), 0xe9b6_c7aa)) == 0x3ee9_2d35
    ensures Add(0xe25e_1652, 0xd353_ee92) == 0xb5b2_04e4
    ensures Add(0x3e9e_9126, Add(Add(0xa052_1654, 0), 0xd62f_105d)) == 0xb51f_b7d7
    ensures Add(0xb5b2_04e4, 0xa3f6_faf6) == 0x59a8_ffda
    ensures Add(0x4a1d_804e, Add(Add(0x55a8_16f6, 0), 0x0244_1453)) == 0xa209_ab97
    ensures Add(0x59a8_ffda, 0x1357_2f44) == 0x6d00_2f1e
    ensures Add(0xe25e_1652, Add(Add(0x6d08_ff1e, 0), 0xd8a1_e681)) == 0x2808_fbf1
    ensures Add(0x6d00_2f1e, 0x3efc_4a02) == 0xabfc_7920
    ensures Add(0xb5b2_04e4, Add(Add(0x2da8_7904, 0), 0xe7d3_fbc8)) == 0xcb2e_79b0
    ensures Add(0xabfc_7920, 0x9b0c_b2e7) == 0x4709_2c07
  {
  }

  lemma SecondSums1()
    ensures Add(0x59a8_ffda, Add(Add(0xc7fc_7c26, 0), 0x21e1_cde6)) == 0x4387_49e6
    ensures Add(0x4709_2c07, 0x70e9_3cc8) == 0xb7f2_68cf
    ensures Add(0x6d00_2f1e, Add(Add(0xe7f1_6c07, 24), 0xc337_07d6)) == 0x1828_a313
    ensures Add(0xb7f2_68cf, 0x5146_2630) == 0x0938_8eff
    ensures Add(0xabfc_7920, Add(Add(0xb1fa_4ccf, 0), 0xf4d5_0d87)) == 0x52cb_d376
    ensures Add(0x0938_8eff, 0xf4dd_94b2) == 0xfe16_23b1
    ensures Add(0x4709_2c07, Add(Add(0xbe1a_a6b1, 0), 0x455a_14ed)) == 0x4a7d_e7a5
    ensures Add(0xfe16_23b1, 0x7a54_a7de) == 0x786a_cb8f
    ensures Add(0xb7f2_68cf, Add(Add(0xfe2e_ab8f, 0), 0xa9e3_e905)) == 0x6004_fd63
    ensures Add(0x786a_cb8f, 0x009f_ac6c) == 0x790a_77fb
    ensures Add(0x0938_8eff, Add(Add(0x786a_ebbf, 0), 0xfcef_a3f8)) == 0x7e93_1eb6
    ensures Add(0x790a_77fb, 0x263d_6cfd) == 0x9f47_e4f8
    ensures Add(0xfe16_23b1, Add(Add(0x1942_f4f8, 0), 0x676f_02d9)) == 0x7ec8_1b82
    ensures Add(0x9f47_e4f8, 0x06e0_9fb2) == 0xa628_84aa
    ensures Add(0x786a_cb8f, Add(Add(0xa64d_84aa, 0), 0x8d2a_4c8a)) == 0xabe2_9cc3
    ensures Add(0xa628_84aa, 0xcc3a_be29) == 0x7263_42d3
  {
  }

  lemma SecondForms()
    ensures Bits32(0x3e9e_9126) == 0x3e9e_9126 && Number(0x6297_95ea) == 0x6297_95ea
    ensures Bits32(0x365f_74f2) == 0x365f_74f2 && Number(0xcbee_9e46) == 0xcbee_9e46
    ensures Bits32(0x4a1d_804e) == 0x4a1d_804e && Number(0x32bf_f3a2) == 0x32bf_f3a2
    ensures Bits32(0x9405_bf77) == 0x9405_bf77 && Number(0x0b7e_ef28) == 0x0b7e_ef28
    ensures Bits32(0xe25e_1652) == 0xe25e_1652 && Number(0x4e1d_8146) == 0x4e1d_8146
    ensures Bits32(0x5812_6102) == 0x5812_6102 && Number(0x9840_9604) == 0x9840_9604
    ensures Bits32(0xb5b2_04e4) == 0xb5b2_04e4 && Number(0x621f_104a) == 0x621f_104a
    ensures Bits32(0x3ee9_2d35) == 0x3ee9_2d35 && Number(0xd353_ee92) == 0xd353_ee92
    ensures Bits32(0x59a8_ffda) == 0x59a8_ffda && Number(0xa052_1654) == 0xa052_1654
    ensures Bits32(0xb51f_b7d7) == 0xb51f_b7d7 && Number(0xa3f6_faf6) == 0xa3f6_faf6
    ensures Bits32(0x6d00_2f1e) == 0x6d00_2f1e && Number(0x55a8_16f6) == 0x55a8_16f6
    ensures Bits32(0xa209_ab97) == 0xa209_ab97 && Number(0x1357_2f44) == 0x1357_2f44
    ensures Bits32(0xabfc_7920) == 0xabfc_7920 && Number(0x6d08_ff1e) == 0x6d08_ff1e
    ensures Bits32(0x2808_fbf1) == 0x2808_fbf1 && Number(0x3efc_4a02) == 0x3efc_4a02
    ensures Bits32(0x4709_2c07) == 0x4709_2c07 && Number(0x2da8_7904) == 0x2da8_7904
    ensures Bits32(0xcb2e_79b0) == 0xcb2e_79b0 && Number(0x9b0c_b2e7) == 0x9b0c_b2e7
    ensures Bits32(0xb7f2_68cf) == 0xb7f2_68cf && Number(0xc7fc_7c26) == 0xc7fc_7c26
    ensures Bits32(0x4387_49e6) == 0x4387_49e6 && Number(0x70e9_3cc8) == 0x70e9_3cc8
    ensures Bits32(0x0938_8eff) == 0x0938_8eff && Number(0xe7f1_6c07) == 0xe7f1_6c07
    ensures Bits32(0x1828_a313) == 0x1828_a313 && Number(0x5146_2630) == 0x5146_2630
    ensures Bits32(0xfe16_23b1) == 0xfe16_23b1 && Number(0xb1fa_4ccf) == 0xb1fa_4ccf
    ensures Bits32(0x52cb_d376) == 0x52cb_d376 && Number(0xf4dd_94b2) == 0xf4dd_94b2
    ensures Bits32(0x786a_cb8f) == 0x786a_cb8f && Number(0xbe1a_a6b1) == 0xbe1a_a6b1
    ensures Bits32(0x4a7d_e7a5) == 0x4a7d_e7a5 && Number(0x7a54_a7de) == 0x7a54_a7de
    ensures Bits32(0x790a_77fb) == 0x790a_77fb && Number(0xfe2e_ab8f) == 0xfe2e_ab8f
    ensures Bits32(0x6004_fd63) == 0x6004_fd63 && Number(0x009f_ac6c) == 0x009f_ac6c
    ensures Bits32(0x9f47_e4f8) == 0x9f47_e4f8 && Number(0x786a_ebbf) == 0x786a_ebbf
    ensures Bits32(0x7e93_1eb6) == 0x7e93_1eb6 && Number(0x263d_6cfd) == 0x263d_6cfd
    ensures Bits32(0xa628_84aa) == 0xa628_84aa && Number(0x1942_f4f8) == 0x1942_f4f8
    ensures Bits32(0x7ec8_1b82) == 0x7ec8_1b82 && Number(0x06e0_9fb2) == 0x06e0_9fb2
    ensures Bits32(0x7263_42d3) == 0x7263_42d3 && Number(0xa64d_84aa) == 0xa64d_84aa
    ensures Bits32(0xabe2_9cc3) == 0xabe2_9cc3 && Number(0xcc3a_be29) == 0xcc3a_be29
  {
  }

  lemma SecondSteps()
    requires Rounds(INIT, Abc(), 16) == State(0xdda9_b9a6, 0x72af_f2e0, 0xe396_856b, 0xa105_1895)
    ensures Rounds(INIT, Abc(), 32) == State(0x790a_77fb, 0x7263_42d3, 0xa628_84aa, 0x9f47_e4f8)
  {
    hide Rounds, Index, Sine, Abc, Add, BitsG, Rotate, Bits32, Number;
    SecondTable();
    AbcWords();
    SecondBits();
    SecondSums0();
    SecondSums1();
    SecondForms();
    FirstForms();
    Next(INIT, Abc(), 1, 0);
    assert Rounds(INIT, Abc(), 17) == State(0xa105_1895, 0x3e9e_9126, 0x72af_f2e0, 0xe396_856b);
    Next(INIT, Abc(), 1, 1);
    assert Rounds(INIT, Abc(), 18) == State(0xe396_856b, 0x4a1d_804e, 0x3e9e_9126, 0x72af_f2e0);
    Next(INIT, Abc(), 1, 2);
    assert Rounds(INIT, Abc(), 19) == State(0x72af_f2e0, 0xe25e_1652, 0x4a1d_804e, 0x3e9e_9126);
    Next(INIT, Abc(), 1, 3);
    assert Rounds(INIT, Abc(), 20) == State(0x3e9e_9126, 0xb5b2_04e4, 0xe25e_1652, 0x4a1d_804e);
    Next(INIT, Abc(), 1, 4);
    assert Rounds(INIT, Abc(), 21) == State(0x4a1d_804e, 0x59a8_ffda, 0xb5b2_04e4, 0xe25e_1652);
    Next(INIT, Abc(), 1, 5);
    assert Rounds(INIT, Abc(), 22) == State(0xe25e_1652, 0x6d00_2f1e, 0x59a8_ffda, 0xb5b2_04e4);
    Next(INIT, Abc(), 1, 6);
    assert Rounds(INIT, Abc(), 23) == State(0xb5b2_04e4, 0xabfc_7920, 0x6d00_2f1e, 0x59a8_ffda);
    Next(INIT, Abc(), 1, 7);
    assert Rounds(INIT, Abc(), 24) == State(0x59a8_ffda, 0x4709_2c07, 0xabfc_7920, 0x6d00_2f1e);
    Next(INIT, Abc(), 1, 8);
    assert Rounds(INIT, Abc(), 25) == State(0x6d00_2f1e, 0xb7f2_68cf, 0x4709_2c07, 0xabfc_7920);
    Next(INIT, Abc(), 1, 9);
    assert Rounds(INIT, Abc(), 26) == State(0xabfc_7920, 0x0938_8eff, 0xb7f2_68cf, 0x4709_2c07);
    Next(INIT, Abc(), 1, 10);
    assert Rounds(INIT, Abc(), 27) == State(0x4709_2c07, 0xfe16_23b1, 0x0938_8eff, 0xb7f2_68cf);
    Next(INIT, Abc(), 1, 11);
    assert Rounds(INIT, Abc(), 28) == State(0xb7f2_68cf, 0x786a_cb8f, 0xfe16_23b1, 0x0938_8eff);
    Next(INIT, Abc(), 1, 12);
    assert Rounds(INIT, Abc(), 29) == State(0x0938_8eff, 0x790a_77fb, 0x786a_cb8f, 0xfe16_23b1);
    Next(INIT, Abc(), 1, 13);
    assert Rounds(INIT, Abc(), 30) == State(0xfe16_23b1, 0x9f47_e4f8, 0x790a_77fb, 0x786a_cb8f);
    Next(INIT, Abc(), 1, 14);
    assert Rounds(INIT, Abc(), 31) == State(0x786a_cb8f, 0xa628_84aa, 0x9f47_e4f8, 0x790a_77fb);
    Next(INIT, Abc(), 1, 15);
    assert Rounds(INIT, Abc(), 32) == State(0x790a_77fb, 0x7263_42d3, 0xa628_84aa, 0x9f47_e4f8);
  }

  // -------------------------------------------------------------------------
  // Third round

  lemma ThirdBits()
    ensures BitsH(0x7263_42d3, 0xa628_84aa, 0x9f47_e4f8) == 0x4b0c_2281 && Rotate(0xc410_d3be, 4) == 0x410d_3bec
    ensures BitsH(0xb370_7ebf, 0x7263_42d3, 0xa628_84aa) == 0x673b_b8c6 && Rotate(0x8df5_943f, 11) == 0xaca1_fc6f
    ensures BitsH(0x6012_7b2e, 0xb370_7ebf, 0x7263_42d3) == 0xa101_4742 && Rotate(0xb4c7_2d0e, 16) == 0x2d0e_b4c7
    ensures BitsH(0x8d21_2ff5, 0x6012_7b2e, 0xb370_7ebf) == 0x5e43_2a64 && Rotate(0xce8b_a55b, 23) == 0xade7_45d2
    ensures BitsH(0x3b08_75c7, 0x8d21_2ff5, 0x6012_7b2e) == 0xd63b_211c && Rotate(0x2e6a_8a1f, 4) == 0xe6a8_a1f2
    ensures BitsH(0x21b1_17b9, 0x3b08_75c7, 0x8d21_2ff5) == 0x9798_4d8b && Rotate(0x4389_9862, 11) == 0x4cc3_121c
    ensures BitsH(0x6e74_29d5, 0x21b1_17b9, 0x3b08_75c7) == 0x74cd_4bab && Rotate(0xf8a9_c700, 16) == 0xc700_f8a9
    ensures BitsH(0x3575_227e, 0x6e74_29d5, 0x21b1_17b9) == 0x7ab0_1c12 && Rotate(0x7478_4e49, 23) == 0x24ba_3c27
    ensures BitsH(0x5a2f_5ea5, 0x3575_227e, 0x6e74_29d5) == 0x012e_550e && Rotate(0x4b7a_eb8d, 4) == 0xb7ae_b8d4
    ensures BitsH(0x11de_1779, 0x5a2f_5ea5, 0x3575_227e) == 0x7e84_6ba2 && Rotate(0x57fd_1fd2, 11) == 0xe8fe_92bf
    ensures BitsH(0xfadc_aa38, 0x11de_1779, 0x5a2f_5ea5) == 0xb12d_e3e4 && Rotate(0xbb92_36e7, 16) == 0x36e7_bb92
    ensures BitsH(0x31c4_65ca, 0xfadc_aa38, 0x11de_1779) == 0xdac6_d88b && Rotate(0x397e_5435, 23) == 0x1a9c_bf2a
    ensures BitsH(0x4c61_24f4, 0x31c4_65ca, 0xfadc_aa38) == 0x8779_eb06 && Rotate(0x732c_d2b8, 4) == 0x32cd_2b87
    ensures BitsH(0x7f2e_507b, 0x4c61_24f4, 0x31c4_65ca) == 0x028b_1145 && Rotate(0xe443_5562, 11) == 0x1aab_1722
    ensures BitsH(0x99d9_679d, 0x7f2e_507b, 0x4c61_24f4) == 0xaa96_1312 && Rotate(0xfbfc_f5d4, 16) == 0xf5d4_fbfc
    ensures BitsH(0x8fae_6399, 0x99d9_679d, 0x7f2e_507b) == 0x6959_547f && Rotate(0x7a66_cfd8, 23) == 0xec3d_3367
  {
  }

  lemma ThirdSums0()
    ensures Add(0x790a_77fb, Add(Add(0x4b0c_2281, 0), 0xfffa_3942)) == 0xc410_d3be
    ensures Add(0x7263_42d3, 0x410d_3bec) == 0xb370_7ebf
    ensures Add(0x9f47_e4f8, Add(Add(0x673b_b8c6, 0), 0x8771_f681)) == 0x8df5_943f
    ensures Add(0xb370_7ebf, 0xaca1_fc6f) == 0x6012_7b2e
    ensures Add(0xa628_84aa, Add(Add(0xa101_4742, 0), 0x6d9d_6122)) == 0xb4c7_2d0e
    ensures Add(0x6012_7b2e, 0x2d0e_b4c7) == 0x8d21_2ff5
    ensures Add(0x7263_42d3, Add(Add(0x5e43_2a64, 24), 0xfde5_380c)) == 0xce8b_a55b
    ensures Add(0x8d21_2ff5, 0xade7_45d2) == 0x3b08_75c7
    ensures Add(0xb370_7ebf, Add(Add(0xd63b_211c, 0), 0xa4be_ea44)) == 0x2e6a_8a1f
    ensures Add(0x3b08_75c7, 0xe6a8_a1f2) == 0x21b1_17b9
    ensures Add(0x6012_7b2e, Add(Add(0x9798_4d8b, 0), 0x4bde_cfa9)) == 0x4389_9862
    ensures Add(0x21b1_17b9, 0x4cc3_121c) == 0x6e74_29d5
    ensures Add(0x8d21_2ff5, Add(Add(0x74cd_4bab, 0), 0xf6bb_4b60)) == 0xf8a9_c700
    ensures Add(0x6e74_29d5, 0xc700_f8a9) == 0x3575_227e
    ensures Add(0x3b08_75c7, Add(Add(0x7ab0_1c12, 0), 0xbebf_bc70)) == 0x7478_4e49
    ensures Add(0x3575_227e, 0x24ba_3c27) == 0x5a2f_5ea5
  {
  }

  lemma ThirdSums1()
    ensures Add(0x21b1_17b9, Add(Add(0x012e_550e, 0), 0x289b_7ec6)) == 0x4b7a_eb8d
    ensures Add(0x5a2f_5ea5, 0xb7ae_b8d4) == 0x11de_1779
    ensures Add(0x6e74_29d5, Add(Add(0x7e84_6ba2, 0x8063_6261), 0xeaa1_27fa)) == 0x57fd_1fd2
    ensures Add(0x11de_1779, 0xe8fe_92bf) == 0xfadc_aa38
    ensures Add(0x3575_227e, Add(Add(0xb12d_e3e4, 0), 0xd4ef_3085)) == 0xbb92_36e7
    ensures Add(0xfadc_aa38, 0x36e7_bb92) == 0x31c4_65ca
    ensures Add(0x5a2f_5ea5, Add(Add(0xdac6_d88b, 0), 0x0488_1d05)) == 0x397e_5435
    ensures Add(0x31c4_65ca, 0x1a9c_bf2a) == 0x4c61_24f4
    ensures Add(0x11de_1779, Add(Add(0x8779_eb06, 0), 0xd9d4_d039)) == 0x732c_d2b8
    ensures Add(0x4c61_24f4, 0x32cd_2b87) == 0x7f2e_507b
    ensures Add(0xfadc_aa38, Add(Add(0x028b_1145, 0), 0xe6db_99e5)) == 0xe443_5562
    ensures Add(0x7f2e_507b, 0x1aab_1722) == 0x99d9_679d
    ensures Add(0x31c4_65ca, Add(Add(0xaa96_1312, 0), 0x1fa2_7cf8)) == 0xfbfc_f5d4
    ensures Add(0x99d9_679d, 0xf5d4_fbfc) == 0x8fae_6399
    ensures Add(0x4c61_24f4, Add(Add(0x6959_547f, 0), 0xc4ac_5665)) == 0x7a66_cfd8
    ensures Add(0x8fae_6399, 0xec3d_3367) == 0x7beb_9700
  {
  }

  lemma ThirdForms()
    ensures Bits32(0xb370_7ebf) == 0xb370_7ebf && Number(0x4b0c_2281) == 0x4b0c_2281
    ensures Bits32(0xc410_d3be) == 0xc410_d3be && Number(0x410d_3bec) == 0x410d_3bec
    ensures Bits32(0x6012_7b2e) == 0x6012_7b2e && Number(0x673b_b8c6) == 0x673b_b8c6
    ensures Bits32(0x8df5_943f) == 0x8df5_943f && Number(0xaca1_fc6f) == 0xaca1_fc6f
    ensures Bits32(0x8d21_2ff5) == 0x8d21_2ff5 && Number(0xa101_4742) == 0xa101_4742
    ensures Bits32(0xb4c7_2d0e) == 0xb4c7_2d0e && Number(0x2d0e_b4c7) == 0x2d0e_b4c7
    ensures Bits32(0x3b08_75c7) == 0x3b08_75c7 && Number(0x5e43_2a64) == 0x5e43_2a64
    ensures Bits32(0xce8b_a55b) == 0xce8b_a55b && Number(0xade7_45d2) == 0xade7_45d2
    ensures Bits32(0x21b1_17b9) == 0x21b1_17b9 && Number(0xd63b_211c) == 0xd63b_211c
    ensures Bits32(0x2e6a_8a1f) == 0x2e6a_8a1f && Number(0xe6a8_a1f2) == 0xe6a8_a1f2
    ensures Bits32(0x6e74_29d5) == 0x6e74_29d5 && Number(0x9798_4d8b) == 0x9798_4d8b
    ensures Bits32(0x4389_9862) == 0x4389_9862 && Number(0x4cc3_121c) == 0x4cc3_121c
    ensures Bits32(0x3575_227e) == 0x3575_227e && Number(0x74cd_4bab) == 0x74cd_4bab
    ensures Bits32(0xf8a9_c700) == 0xf8a9_c700 && Number(0xc700_f8a9) == 0xc700_f8a9
    ensures Bits32(0x5a2f_5ea5) == 0x5a2f_5ea5 && Number(0x7ab0_1c12) == 0x7ab0_1c12
    ensures Bits32(0x7478_4e49) == 0x7478_4e49 && Number(0x24ba_3c27) == 0x24ba_3c27
    ensures Bits32(0x11de_1779) == 0x11de_1779 && Number(0x012e_550e) == 0x012e_550e
    ensures Bits32(0x4b7a_eb8d) == 0x4b7a_eb8d && Number(0xb7ae_b8d4) == 0xb7ae_b8d4
    ensures Bits32(0xfadc_aa38) == 0xfadc_aa38 && Number(0x7e84_6ba2) == 0x7e84_6ba2
    ensures Bits32(0x57fd_1fd2) == 0x57fd_1fd2 && Number(0xe8fe_92bf) == 0xe8fe_92bf
    ensures Bits32(0x31c4_65ca) == 0x31c4_65ca && Number(0xb12d_e3e4) == 0xb12d_e3e4
    ensures Bits32(0xbb92_36e7) == 0xbb92_36e7 && Number(0x36e7_bb92) == 0x36e7_bb92
    ensures Bits32(0x4c61_24f4) == 0x4c61_24f4 && Number(0xdac6_d88b) == 0xdac6_d88b
    ensures Bits32(0x397e_5435) == 0x397e_5435 && Number(0x1a9c_bf2a) == 0x1a9c_bf2a
    ensures Bits32(0x7f2e_507b) == 0x7f2e_507b && Number(0x8779_eb06) == 0x8779_eb06
    ensures Bits32(0x732c_d2b8) == 0x732c_d2b8 && Number(0x32cd_2b87) == 0x32cd_2b87
    ensures Bits32(0x99d9_679d) == 0x99d9_679d && Number(0x028b_1145) == 0x028b_1145
    ensures Bits32(0xe443_5562) == 0xe443_5562 && Number(0x1aab_1722) == 0x1aab_1722
    ensures Bits32(0x8fae_6399) == 0x8fae_6399 && Number(0xaa96_1312) == 0xaa96_1312
    ensures Bits32(0xfbfc_f5d4) == 0xfbfc_f5d4 && Number(0xf5d4_fbfc) == 0xf5d4_fbfc
    ensures Bits32(0x7beb_9700) == 0x7beb_9700 && Number(0x6959_547f) == 0x6959_547f
    ensures Bits32(0x7a66_cfd8) == 0x7a66_cfd8 && Number(0xec3d_3367) == 0xec3d_3367
  {
  }

  lemma ThirdSteps()
    requires Rounds(INIT, Abc(), 32) == State(0x790a_77fb, 0x7263_42d3, 0xa628_84aa, 0x9f47_e4f8)
    ensures Rounds(INIT, Abc(), 48) == State(0x7f2e_507b, 0x7beb_9700, 0x8fae_6399, 0x99d9_679d)
  {
    hide Rounds, Index, Sine, Abc, Add, BitsH, Rotate, Bits32, Number;
    ThirdTable();
    AbcWords();
    ThirdBits();
    ThirdSums0();
    ThirdSums1();
    ThirdForms();
    SecondForms();
    Next(INIT, Abc(), 2, 0);
    assert Rounds(INIT, Abc(), 33) == State(0x9f47_e4f8, 0xb370_7ebf, 0x7263_42d3, 0xa628_84aa);
    Next(INIT, Abc(), 2, 1);
    assert Rounds(INIT, Abc(), 34) == State(0xa628_84aa, 0x6012_7b2e, 0xb370_7ebf, 0x7263_42d3);
    Next(INIT, Abc(), 2, 2);
    assert Rounds(INIT, Abc(), 35) == State(0x7263_42d3, 0x8d21_2ff5, 0x6012_7b2e, 0xb370_7ebf);
    Next(INIT, Abc(), 2, 3);
    assert Rounds(INIT, Abc(), 36) == State(0xb370_7ebf, 0x3b08_75c7, 0x8d21_2ff5, 0x6012_7b2e);
    Next(INIT, Abc(), 2, 4);
    assert Rounds(INIT, Abc(), 37) == State(0x6012_7b2e, 0x21b1_17b9, 0x3b08_75c7, 0x8d21_2ff5);
    Next(INIT, Abc(), 2, 5);
    assert Rounds(INIT, Abc(), 38) == State(0x8d21_2ff5, 0x6e74_29d5, 0x21b1_17b9, 0x3b08_75c7);
    Next(INIT, Abc(), 2, 6);
    assert Rounds(INIT, Abc(), 39) == State(0x3b08_75c7, 0x3575_227e, 0x6e74_29d5, 0x21b1_17b9);
    Next(INIT, Abc(), 2, 7);
    assert Rounds(INIT, Abc(), 40) == State(0x21b1_17b9, 0x5a2f_5ea5, 0x3575_227e, 0x6e74_29d5);
    Next(INIT, Abc(), 2, 8);
    assert Rounds(INIT, Abc(), 41) == State(0x6e74_29d5, 0x11de_1779, 0x5a2f_5ea5, 0x3575_227e);
    Next(INIT, Abc(), 2, 9);
    assert Rounds(INIT, Abc(), 42) == State(0x3575_227e, 0xfadc_aa38, 0x11de_1779, 0x5a2f_5ea5);
    Next(INIT, Abc(), 2, 10);
    assert Rounds(INIT, Abc(), 43) == State(0x5a2f_5ea5, 0x31c4_65ca, 0xfadc_aa38, 0x11de_1779);
    Next(INIT, Abc(), 2, 11);
    assert Rounds(INIT, Abc(), 44) == State(0x11de_1779, 0x4c61_24f4, 0x31c4_65ca, 0xfadc_aa38);
    Next(INIT, Abc(), 2, 12);
    assert Rounds(INIT, Abc(), 45) == State(0xfadc_aa38, 0x7f2e_507b, 0x4c61_24f4, 0x31c4_65ca);
    Next(INIT, Abc(), 2, 13);
    assert Rounds(INIT, Abc(), 46) == State(0x31c4_65ca, 0x99d9_679d, 0x7f2e_507b, 0x4c61_24f4);
    Next(INIT, Abc(), 2, 14);
    assert Rounds(INIT, Abc(), 47) == State(0x4c61_24f4, 0x8fae_6399, 0x99d9_679d, 0x7f2e_507b);
    Next(INIT, Abc(), 2, 15);
    assert Rounds(INIT, Abc(), 48) == State(0x7f2e_507b, 0x7beb_9700, 0x8fae_6399, 0x99d9_679d);
  }

  // -------------------------------------------------------------------------
  // Fourth round

  lemma FourthBits()
    ensures BitsI(0x7beb_9700, 0x8fae_6399, 0x99d9_679d) == 0xf041_fcfb && Rotate(0xe3fc_d21b, 6) == 0xff34_86f8
    ensures BitsI(0x7b20_1df8, 0x7beb_9700, 0x8fae_6399) == 0x009a_0afe && Rotate(0xdd9e_7232, 10) == 0x79c8_cb76
    ensures BitsI(0xf4e8_e96e, 0x7b20_1df8, 0x7beb_9700) == 0x8fdc_f407 && Rotate(0xcb1f_7b5f, 15) == 0xbdaf_e58f
    ensures BitsI(0xb298_cefd, 0xf4e8_e96e, 0x7b20_1df8) == 0x4237_0791 && Rotate(0xbab6_3eca, 21) == 0xd957_56c7
    ensures BitsI(0x8bf0_25c4, 0xb298_cefd, 0xf4e8_e96e) == 0x396f_f928 && Rotate(0x19eb_70e3, 6) == 0x7adc_38c6
    ensures BitsI(0x06cc_5e8a, 0x8bf0_25c4, 0xb298_cefd) == 0xc41f_5a4e && Rotate(0x4815_104e, 10) == 0x5441_3920
    ensures BitsI(0x5b0d_97aa, 0x06cc_5e8a, 0x8bf0_25c4) == 0x79c3_8131 && Rotate(0x2c4c_44ab, 15) == 0x2255_9626
    ensures BitsI(0x7d63_2dd0, 0x5b0d_97aa, 0x06cc_5e8a) == 0xa67e_3a5f && Rotate(0xb7f2_bdf4, 21) == 0xbe96_fe57
    ensures BitsI(0x3bfa_2c27, 0x7d63_2dd0, 0x5b0d_97aa) == 0xc299_41a7 && Rotate(0x390e_1e80, 6) == 0x4387_a00e
    ensures BitsI(0x7f81_cc35, 0x3bfa_2c27, 0x7d63_2dd0) == 0xc467_f218 && Rotate(0x1da2_70a2, 10) == 0x89c2_8876
    ensures BitsI(0x0944_54ab, 0x7f81_cc35, 0x3bfa_2c27) == 0xb2c4_1bce && Rotate(0xd328_8cb2, 15) == 0x4659_6994
    ensures BitsI(0x4f9d_be3f, 0x0944_54ab, 0x7f81_cc35) == 0xc6bb_eb54 && Rotate(0x50be_291c, 21) == 0x238a_17c5
    ensures BitsI(0x7327_d604, 0x4f9d_be3f, 0x0944_54ab) == 0xb822_416b && Rotate(0x2ef7_8c22, 6) == 0xbde3_088b
    ensures BitsI(0x310a_de8f, 0x7327_d604, 0x4f9d_be3f) == 0xc24d_09cb && Rotate(0x88cc_50ab, 10) == 0x3142_ae23
    ensures BitsI(0x624d_8cb2, 0x310a_de8f, 0x7327_d604) == 0xdfd7_7374 && Rotate(0x5a4d_046e, 15) == 0x8237_2d26
    ensures BitsI(0xe484_b9d8, 0x624d_8cb2, 0x310a_de8f) == 0x8cb8_354a && Rotate(0xeb66_dedf, 21) == 0xdbfd_6cdb
  {
  }

  lemma FourthSums0()
    ensures Add(0x7f2e_507b, Add(Add(0xf041_fcfb, 0x8063_6261), 0xf429_2244)) == 0xe3fc_d21b
    ensures Add(0x7beb_9700, 0xff34_86f8) == 0x7b20_1df8
    ensures Add(0x99d9_679d, Add(Add(0x009a_0afe, 0), 0x432a_ff97)) == 0xdd9e_7232
    ensures Add(0x7b20_1df8, 0x79c8_cb76) == 0xf4e8_e96e
    ensures Add(0x8fae_6399, Add(Add(0x8fdc_f407, 24), 0xab94_23a7)) == 0xcb1f_7b5f
    ensures Add(0xf4e8_e96e, 0xbdaf_e58f) == 0xb298_cefd
    ensures Add(0x7beb_9700, Add(Add(0x4237_0791, 0), 0xfc93_a039)) == 0xbab6_3eca
    ensures Add(0xb298_cefd, 0xd957_56c7) == 0x8bf0_25c4
    ensures Add(0x7b20_1df8, Add(Add(0x396f_f928, 0), 0x655b_59c3)) == 0x19eb_70e3
    ensures Add(0x8bf0_25c4, 0x7adc_38c6) == 0x06cc_5e8a
    ensures Add(0xf4e8_e96e, Add(Add(0xc41f_5a4e, 0), 0x8f0c_cc92)) == 0x4815_104e
    ensures Add(0x06cc_5e8a, 0x5441_3920) == 0x5b0d_97aa
    ensures Add(0xb298_cefd, Add(Add(0x79c3_8131, 0), 0xffef_f47d)) == 0x2c4c_44ab
    ensures Add(0x5b0d_97aa, 0x2255_9626) == 0x7d63_2dd0
    ensures Add(0x8bf0_25c4, Add(Add(0xa67e_3a5f, 0), 0x8584_5dd1)) == 0xb7f2_bdf4
    ensures Add(0x7d63_2dd0, 0xbe96_fe57) == 0x3bfa_2c27
  {
  }

  lemma FourthSums1()
    ensures Add(0x06cc_5e8a, Add(Add(0xc299_41a7, 0), 0x6fa8_7e4f)) == 0x390e_1e80
    ensures Add(0x3bfa_2c27, 0x4387_a00e) == 0x7f81_cc35
    ensures Add(0x5b0d_97aa, Add(Add(0xc467_f218, 0), 0xfe2c_e6e0)) == 0x1da2_70a2
    ensures Add(0x7f81_cc35, 0x89c2_8876) == 0x0944_54ab
    ensures Add(0x7d63_2dd0, Add(Add(0xb2c4_1bce, 0), 0xa301_4314)) == 0xd328_8cb2
    ensures Add(0x0944_54ab, 0x4659_6994) == 0x4f9d_be3f
    ensures Add(0x3bfa_2c27, Add(Add(0xc6bb_eb54, 0), 0x4e08_11a1)) == 0x50be_291c
    ensures Add(0x4f9d_be3f, 0x238a_17c5) == 0x7327_d604
    ensures Add(0x7f81_cc35, Add(Add(0xb822_416b, 0), 0xf753_7e82)) == 0x2ef7_8c22
    ensures Add(0x7327_d604, 0xbde3_088b) == 0x310a_de8f
    ensures Add(0x0944_54ab, Add(Add(0xc24d_09cb, 0), 0xbd3a_f235)) == 0x88cc_50ab
    ensures Add(0x310a_de8f, 0x3142_ae23) == 0x624d_8cb2
    ensures Add(0x4f9d_be3f, Add(Add(0xdfd7_7374, 0), 0x2ad7_d2bb)) == 0x5a4d_046e
    ensures Add(0x624d_8cb2, 0x8237_2d26) == 0xe484_b9d8
    ensures Add(0x7327_d604, Add(Add(0x8cb8_354a, 0), 0xeb86_d391)) == 0xeb66_dedf
    ensures Add(0xe484_b9d8, 0xdbfd_6cdb) == 0xc082_26b3
  {
  }

  lemma FourthForms()
    ensures Bits32(0x7b20_1df8) == 0x7b20_1df8 && Number(0xf041_fcfb) == 0xf041_fcfb
    ensures Bits32(0xe3fc_d21b) == 0xe3fc_d21b && Number(0xff34_86f8) == 0xff34_86f8
    ensures Bits32(0xf4e8_e96e) == 0xf4e8_e96e && Number(0x009a_0afe) == 0x009a_0afe
    ensures Bits32(0xdd9e_7232) == 0xdd9e_7232 && Number(0x79c8_cb76) == 0x79c8_cb76
    ensures Bits32(0xb298_cefd) == 0xb298_cefd && Number(0x8fdc_f407) == 0x8fdc_f407
    ensures Bits32(0xcb1f_7b5f) == 0xcb1f_7b5f && Number(0xbdaf_e58f) == 0xbdaf_e58f
    ensures Bits32(0x8bf0_25c4) == 0x8bf0_25c4 && Number(0x4237_0791) == 0x4237_0791
    ensures Bits32(0xbab6_3eca) == 0xbab6_3eca && Number(0xd957_56c7) == 0xd957_56c7
    ensures Bits32(0x06cc_5e8a) == 0x06cc_5e8a && Number(0x396f_f928) == 0x396f_f928
    ensures Bits32(0x19eb_70e3) == 0x19eb_70e3 && Number(0x7adc_38c6) == 0x7adc_38c6
    ensures Bits32(0x5b0d_97aa) == 0x5b0d_97aa && Number(0xc41f_5a4e) == 0xc41f_5a4e
    ensures Bits32(0x4815_104e) == 0x4815_104e && Number(0x5441_3920) == 0x5441_3920
    ensures Bits32(0x7d63_2dd0) == 0x7d63_2dd0 && Number(0x79c3_8131) == 0x79c3_8131
    ensures Bits32(0x2c4c_44ab) == 0x2c4c_44ab && Number(0x2255_9626) == 0x2255_9626
    ensures Bits32(0x3bfa_2c27) == 0x3bfa_2c27 && Number(0xa67e_3a5f) == 0xa67e_3a5f
    ensures Bits32(0xb7f2_bdf4) == 0xb7f2_bdf4 && Number(0xbe96_fe57) == 0xbe96_fe57
    ensures Bits32(0x7f81_cc35) == 0x7f81_cc35 && Number(0xc299_41a7) == 0xc299_41a7
    ensures Bits32(0x390e_1e80) == 0x390e_1e80 && Number(0x4387_a00e) == 0x4387_a00e
    ensures Bits32(0x0944_54ab) == 0x0944_54ab && Number(0xc467_f218) == 0xc467_f218
    ensures Bits32(0x1da2_70a2) == 0x1da2_70a2 && Number(0x89c2_8876) == 0x89c2_8876
    ensures Bits32(0x4f9d_be3f) == 0x4f9d_be3f && Number(0xb2c4_1bce) == 0xb2c4_1bce
    ensures Bits32(0xd328_8cb2) == 0xd328_8cb2 && Number(0x4659_6994) == 0x4659_6994
    ensures Bits32(0x7327_d604) == 0x7327_d604 && Number(0xc6bb_eb54) == 0xc6bb_eb54
    ensures Bits32(0x50be_291c) == 0x50be_291c && Number(0x238a_17c5) == 0x238a_17c5
    ensures Bits32(0x310a_de8f) == 0x310a_de8f && Number(0xb822_416b) == 0xb822_416b
    ensures Bits32(0x2ef7_8c22) == 0x2ef7_8c22 && Number(0xbde3_088b) == 0xbde3_088b
    ensures Bits32(0x624d_8cb2) == 0x624d_8cb2 && Number(0xc24d_09cb) == 0xc24d_09cb
    ensures Bits32(0x88cc_50ab) == 0x88cc_50ab && Number(0x3142_ae23) == 0x3142_ae23
    ensures Bits32(0xe484_b9d8) == 0xe484_b9d8 && Number(0xdfd7_7374) == 0xdfd7_7374
    ensures Bits32(0x5a4d_046e) == 0x5a4d_046e && Number(0x8237_2d26) == 0x8237_2d26
    ensures Bits32(0xc082_26b3) == 0xc082_26b3 && Number(0x8cb8_354a) == 0x8cb8_354a
    ensures Bits32(0xeb66_dedf) == 0xeb66_dedf && Number(0xdbfd_6cdb) == 0xdbfd_6cdb
  {
  }

  lemma FourthSteps()
    requires Rounds(INIT, Abc(), 48) == State(0x7f2e_507b, 0x7beb_9700, 0x8fae_6399, 0x99d9_679d)
    ensures Rounds(INIT, Abc(), 64) == State(0x310a_de8f, 0xc082_26b3, 0xe484_b9d8, 0x624d_8cb2)
  {
    hide Rounds, Index, Sine, Abc, Add, BitsI, Rotate, Bits32, Number;
    FourthTable();
    AbcWords();
    FourthBits();
    FourthSums0();
    FourthSums1();
    FourthForms();
    ThirdForms();
    Next(INIT, Abc(), 3, 0);
    assert Rounds(INIT, Abc(), 49) == State(0x99d9_679d, 0x7b20_1df8, 0x7beb_9700, 0x8fae_6399);
    Next(INIT, Abc(), 3, 1);
    assert Rounds(INIT, Abc(), 50) == State(0x8fae_6399, 0xf4e8_e96e, 0x7b20_1df8, 0x7beb_9700);
    Next(INIT, Abc(), 3, 2);
    assert Rounds(INIT, Abc(), 51) == State(0x7beb_9700, 0xb298_cefd, 0xf4e8_e96e, 0x7b20_1df8);
    Next(INIT, Abc(), 3, 3);
    assert Rounds(INIT, Abc(), 52) == State(0x7b20_1df8, 0x8bf0_25c4, 0xb298_cefd, 0xf4e8_e96e);
    Next(INIT, Abc(), 3, 4);
    assert Rounds(INIT, Abc(), 53) == State(0xf4e8_e96e, 0x06cc_5e8a, 0x8bf0_25c4, 0xb298_cefd);
    Next(INIT, Abc(), 3, 5);
    assert Rounds(INIT, Abc(), 54) == State(0xb298_cefd, 0x5b0d_97aa, 0x06cc_5e8a, 0x8bf0_25c4);
    Next(INIT, Abc(), 3, 6);
    assert Rounds(INIT, Abc(), 55) == State(0x8bf0_25c4, 0x7d63_2dd0, 0x5b0d_97aa, 0x06cc_5e8a);
    Next(INIT, Abc(), 3, 7);
    assert Rounds(INIT, Abc(), 56) == State(0x06cc_5e8a, 0x3bfa_2c27, 0x7d63_2dd0, 0x5b0d_97aa);
    Next(INIT, Abc(), 3, 8);
    assert Rounds(INIT, Abc(), 57) == State(0x5b0d_97aa, 0x7f81_cc35, 0x3bfa_2c27, 0x7d63_2dd0);
    Next(INIT, Abc(), 3, 9);
    assert Rounds(INIT, Abc(), 58) == State(0x7d63_2dd0, 0x0944_54ab, 0x7f81_cc35, 0x3bfa_2c27);
    Next(INIT, Abc(), 3, 10);
    assert Rounds(INIT, Abc(), 59) == State(0x3bfa_2c27, 0x4f9d_be3f, 0x0944_54ab, 0x7f81_cc35);
    Next(INIT, Abc(), 3, 11);
    assert Rounds(INIT, Abc(), 60) == State(0x7f81_cc35, 0x7327_d604, 0x4f9d_be3f, 0x0944_54ab);
    Next(INIT, Abc(), 3, 12);
    assert Rounds(INIT, Abc(), 61) == State(0x0944_54ab, 0x310a_de8f, 0x7327_d604, 0x4f9d_be3f);
    Next(INIT, Abc(), 3, 13);
    assert Rounds(INIT, Abc(), 62) == State(0x4f9d_be3f, 0x624d_8cb2, 0x310a_de8f, 0x7327_d604);
    Next(INIT, Abc(), 3, 14);
    assert Rounds(INIT, Abc(), 63) == State(0x7327_d604, 0xe484_b9d8, 0x624d_8cb2, 0x310a_de8f);
    Next(INIT, Abc(), 3, 15);
    assert Rounds(INIT, Abc(), 64) == State(0x310a_de8f, 0xc082_26b3, 0xe484_b9d8, 0x624d_8cb2);
  }

  // -------------------------------------------------------------------------
  // The digest

  lemma {:induction false} LowOne(n: nat, k: nat)
    requires n < 256 && k > 0
    ensures Low(n, k) == [n] + Zeros(k - 1)
  {
    if k > 1 { LowOne(0, k - 1); }
  }

  lemma Padding()
    ensures Padded([97, 98, 99]) == [97, 98, 99, 0x80] + Zeros(52) + [24] + Zeros(7)
  {
    hide Zeros, Low;
    LowOne(24, 8);
    assert Gap(3) == 52;
  }

  lemma PaddedAt(p: seq<Byte>, k: nat)
    requires p == [97, 98, 99, 0x80] + Zeros(52) + [24] + Zeros(7) && k < 64
    ensures p[k] == if k == 0 then 97 else if k == 1 then 98 else if k == 2 then 99 else if k == 3 then 0x80
                    else if k == 56 then 24 else 0
  {
  }

  lemma WordAt(p: seq<Byte>, i: nat)
    requires p == [97, 98, 99, 0x80] + Zeros(52) + [24] + Zeros(7) && i < 16
    ensures WordOf(p, 4 * i) == if i == 0 then 0x8063_6261 else if i == 14 then 24 else 0
  {
    hide Zeros;
    PaddedAt(p, 4 * i);
    PaddedAt(p, 4 * i + 1);
    PaddedAt(p, 4 * i + 2);
    PaddedAt(p, 4 * i + 3);
  }

  lemma AbcAt(i: nat)
    requires i < 16
    ensures Abc()[i] == if i == 0 then 0x8063_6261 else if i == 14 then 24 else 0
  {
  }

  lemma PaddedWords()
    ensures |Padded([97, 98, 99])| == 64 && Words(Padded([97, 98, 99])) == Abc()
  {
    hide Padded, Zeros, Abc, WordOf;
    Padding();
    var p := Padded([97, 98, 99]);
    forall i | 0 <= i < 16 ensures WordOf(p, 4 * i) == Abc()[i] {
      WordAt(p, i);
      AbcAt(i);
    }
  }

  lemma AllSteps()
    ensures Rounds(INIT, Abc(), 64) == State(0x310a_de8f, 0xc082_26b3, 0xe484_b9d8, 0x624d_8cb2)
  {
    hide Rounds;
    RoundsNone(INIT, Abc());
    FirstSteps();
    SecondSteps();
    ThirdSteps();
    FourthSteps();
  }

  lemma Compressed()
    ensures Fold(INIT, Padded([97, 98, 99])) == State(0x9850_0190, 0xb04f_d23c, 0x7d3f_96d6, 0x727f_e128)
  {
    hide Rounds, Padded, Words, Abc;
    PaddedWords();
    AllSteps();
    var p := Padded([97, 98, 99]);
    assert p[..64] == p && |p[64..]| == 0;
    assert Fold(Compress(INIT, p), p[64..]) == Compress(INIT, p);
  }

  lemma Bytes4(w: Word, a: Byte, b: Byte, c: Byte, d: Byte)
    requires Join(a, b, c, d) == w
    ensures WordBytes(w) == [a, b, c, d]
  {
    WordRoundTrip([a, b, c, d], 0);
  }

  /** MD5("abc"). */
  lemma AbcDigest()
    ensures Digest([97, 98, 99]) == [
      0x90, 0x01, 0x50, 0x98, 0x3c, 0xd2, 0x4f, 0xb0,
      0xd6, 0x96, 0x3f, 0x7d, 0x28, 0xe1, 0x7f, 0x72
    ]
  {
    hide Fold, Padded, Low, WordBytes;
    Compressed();
    Bytes4(0x9850_0190, 0x90, 0x01, 0x50, 0x98);
    Bytes4(0xb04f_d23c, 0x3c, 0xd2, 0x4f, 0xb0);
    Bytes4(0x7d3f_96d6, 0xd6, 0x96, 0x3f, 0x7d);
    Bytes4(0x727f_e128, 0x28, 0xe1, 0x7f, 0x72);
  }
}
