/**
  The window bounds for LaplaceTail, range by range of decay.  Each line bounds
  what remains from one share by what remains from the share it decays to.
 */
module LaplaceWindows {
  import opened Laplace
  import opened LaplaceTail

  lemma Reach1()
    ensures ReachDown(0, 8192, 14) >= 16367
  {
    assert ReachDown(0, 8192, 1) == 1;
    assert ReachDown(0, 8192, 2) == 3;
    assert ReachDown(0, 8192, 3) == 7;
    assert ReachDown(0, 8192, 4) == 15;
    assert ReachDown(0, 8192, 5) == 31;
    assert ReachDown(0, 8192, 6) == 63;
    assert ReachDown(0, 8192, 7) == 127;
    assert ReachDown(0, 8192, 8) == 255;
    assert ReachDown(0, 8192, 9) == 511;
    assert ReachDown(0, 8192, 10) == 1023;
    assert ReachDown(0, 8192, 11) == 2047;
    assert ReachDown(0, 8192, 12) == 4095;
    assert ReachDown(0, 8192, 13) == 8191;
    assert ReachDown(0, 8192, 14) == 16383;
  }

  lemma Reach8193()
    ensures ReachDown(0, 9011, 15) >= 8183
  {
    assert ReachDown(0, 9011, 1) == 1;
    assert ReachDown(0, 9011, 2) == 3;
    assert ReachDown(0, 9011, 3) == 7;
    assert ReachDown(0, 9011, 4) == 14;
    assert ReachDown(0, 9011, 5) == 27;
    assert ReachDown(0, 9011, 6) == 50;
    assert ReachDown(0, 9011, 7) == 92;
    assert ReachDown(0, 9011, 8) == 169;
    assert ReachDown(0, 9011, 9) == 309;
    assert ReachDown(0, 9011, 10) == 563;
    assert ReachDown(0, 9011, 11) == 1025;
    assert ReachDown(0, 9011, 12) == 1865;
    assert ReachDown(0, 9011, 13) == 3392;
    assert ReachDown(0, 9011, 14) == 6169;
    assert ReachDown(0, 9011, 15) == 11218;
  }

  lemma Window9012(d: nat)
    requires 9012 <= d <= 9648
    ensures forall g :: 1 <= g <= 1 ==> Within(g, d, 0)
  {
    hide Within;
    NothingRemains(d);
    Row(1, 9012, 9648, d, 0, 0, 0);
  }

  lemma Reach9012()
    ensures ReachDown(1, 9648, 15) >= 7364
  {
    assert ReachDown(1, 9648, 1) == 3;
    assert ReachDown(1, 9648, 2) == 6;
    assert ReachDown(1, 9648, 3) == 11;
    assert ReachDown(1, 9648, 4) == 20;
    assert ReachDown(1, 9648, 5) == 35;
    assert ReachDown(1, 9648, 6) == 61;
    assert ReachDown(1, 9648, 7) == 105;
    assert ReachDown(1, 9648, 8) == 180;
    assert ReachDown(1, 9648, 9) == 307;
    assert ReachDown(1, 9648, 10) == 523;
    assert ReachDown(1, 9648, 11) == 889;
    assert ReachDown(1, 9648, 12) == 1511;
    assert ReachDown(1, 9648, 13) == 2567;
    assert ReachDown(1, 9648, 14) == 4360;
    assert ReachDown(1, 9648, 15) == 7405;
  }

  lemma Window9649(d: nat)
    requires 9649 <= d <= 10426
    ensures forall g :: 10 <= g <= 17 ==> Within(g, d, 64)
  {
    hide Within;
    NothingRemains(d);
    Row(1, 9649, 10426, d, 0, 0, -13);
    Row(2, 9649, 10426, d, 1, -13, 6);
    Row(3, 9649, 10426, d, 1, -13, -40);
    Row(4, 9649, 10426, d, 2, 6, 11);
    RowTwo(5, 9649, 10426, d, 2, 6, -40, 9831, -8);
    Row(6, 9649, 10426, d, 3, -40, -49);
    Row(7, 9649, 10426, d, 4, 11, 34);
    RowTwo(8, 9649, 10426, d, 4, 11, -8, 10240, 24);
    Row(9, 9649, 10426, d, 5, -8, 1);
    RowTwo(10, 9649, 10426, d, 5, -8, -49, 9831, -17);
    WithinMore(10, d, -17, 64);
    Row(11, 9649, 10426, d, 6, -49, 64);
    Row(12, 9649, 10426, d, 7, 34, 64);
    RowTwo(13, 9649, 10426, d, 7, 34, 24, 10083, 64);
    Row(14, 9649, 10426, d, 8, 24, 64);
    RowTwo(15, 9649, 10426, d, 8, 24, 1, 9831, 64);
    RowTwo(16, 9649, 10426, d, 9, 1, -17, 10240, 64);
    Row(17, 9649, 10426, d, 10, -17, 64);
  }

  lemma Reach9649()
    ensures ReachDown(17, 10426, 13) >= 6728
  {
    assert ReachDown(17, 10426, 1) == 28;
    assert ReachDown(17, 10426, 2) == 45;
    assert ReachDown(17, 10426, 3) == 72;
    assert ReachDown(17, 10426, 4) == 114;
    assert ReachDown(17, 10426, 5) == 180;
    assert ReachDown(17, 10426, 6) == 284;
    assert ReachDown(17, 10426, 7) == 447;
    assert ReachDown(17, 10426, 8) == 704;
    assert ReachDown(17, 10426, 9) == 1107;
    assert ReachDown(17, 10426, 10) == 1741;
    assert ReachDown(17, 10426, 11) == 2737;
    assert ReachDown(17, 10426, 12) == 4302;
    assert ReachDown(17, 10426, 13) == 6761;
  }

  lemma Window10427(d: nat)
    requires 10427 <= d <= 10922
    ensures forall g :: 5 <= g <= 7 ==> Within(g, d, -32)
  {
    hide Within;
    NothingRemains(d);
    Row(1, 10427, 10922, d, 0, 0, -24);
    Row(2, 10427, 10922, d, 1, -24, -16);
    Row(3, 10427, 10922, d, 1, -24, -72);
    Row(4, 10427, 10922, d, 2, -16, -32);
    Row(5, 10427, 10922, d, 3, -72, -32);
    Row(6, 10427, 10922, d, 3, -72, -32);
    Row(7, 10427, 10922, d, 4, -32, -32);
  }

  lemma Reach10427()
    ensures ReachDown(7, 10922, 16) >= 5951
  {
    assert ReachDown(7, 10922, 1) == 12;
    assert ReachDown(7, 10922, 2) == 19;
    assert ReachDown(7, 10922, 3) == 30;
    assert ReachDown(7, 10922, 4) == 46;
    assert ReachDown(7, 10922, 5) == 70;
    assert ReachDown(7, 10922, 6) == 106;
    assert ReachDown(7, 10922, 7) == 160;
    assert ReachDown(7, 10922, 8) == 241;
    assert ReachDown(7, 10922, 9) == 363;
    assert ReachDown(7, 10922, 10) == 546;
    assert ReachDown(7, 10922, 11) == 820;
    assert ReachDown(7, 10922, 12) == 1231;
    assert ReachDown(7, 10922, 13) == 1848;
    assert ReachDown(7, 10922, 14) == 2773;
    assert ReachDown(7, 10922, 15) == 4161;
    assert ReachDown(7, 10922, 16) == 6243;
  }

  lemma Window10923Low(d: nat)
    requires 10923 <= d <= 11059
    ensures Within(21, d, 32)
    ensures Within(22, d, -32)
    ensures Within(23, d, -32)
    ensures Within(24, d, -64)
    ensures Within(25, d, -128)
    ensures Within(26, d, -96)
    ensures Within(27, d, 96)
    ensures Within(28, d, 32)
    ensures Within(29, d, 0)
    ensures Within(30, d, 0)
    ensures Within(31, d, -64)
  {
    hide Within;
    NothingRemains(d);
    Row(1, 10923, 11059, d, 0, 0, -32);
    Row(2, 10923, 11059, d, 1, -32, -32);
    Row(3, 10923, 11059, d, 2, -32, 0);
    Row(4, 10923, 11059, d, 2, -32, -64);
    Row(5, 10923, 11059, d, 3, 0, 0);
    Row(6, 10923, 11059, d, 4, -64, -32);
    Row(7, 10923, 11059, d, 4, -64, -96);
    Row(8, 10923, 11059, d, 5, 0, 0);
    Row(9, 10923, 11059, d, 6, -32, 0);
    Row(10, 10923, 11059, d, 6, -32, -64);
    Row(11, 10923, 11059, d, 7, -96, -96);
    Row(12, 10923, 11059, d, 8, 0, 32);
    Row(13, 10923, 11059, d, 8, 0, -32);
    Row(14, 10923, 11059, d, 9, 0, 0);
    Row(15, 10923, 11059, d, 10, -64, -32);
    Row(16, 10923, 11059, d, 10, -64, -96);
    Row(17, 10923, 11059, d, 11, -96, -96);
    Row(18, 10923, 11059, d, 12, 32, 64);
    Row(19, 10923, 11059, d, 12, 32, 0);
    Row(20, 10923, 11059, d, 13, -32, -32);
    Row(21, 10923, 11059, d, 14, 0, 32);
    Row(22, 10923, 11059, d, 14, 0, -32);
    Row(23, 10923, 11059, d, 15, -32, -32);
    Row(24, 10923, 11059, d, 16, -96, -64);
    Row(25, 10923, 11059, d, 16, -96, -128);
    Row(26, 10923, 11059, d, 17, -96, -96);
    Row(27, 10923, 11059, d, 18, 64, 96);
    Row(28, 10923, 11059, d, 18, 64, 32);
    Row(29, 10923, 11059, d, 19, 0, 0);
    Row(30, 10923, 11059, d, 20, -32, 0);
    Row(31, 10923, 11059, d, 20, -32, -64);
  }

  lemma Window10923(d: nat)
    requires 10923 <= d <= 11059
    ensures forall g :: 32 <= g <= 47 ==> Within(g, d, 96)
  {
    hide Within;
    Window10923Low(d);
    Row(32, 10923, 11059, d, 21, 32, 96);
    Row(33, 10923, 11059, d, 22, -32, 96);
    Row(34, 10923, 11059, d, 22, -32, 96);
    Row(35, 10923, 11059, d, 23, -32, 96);
    Row(36, 10923, 11059, d, 24, -64, 96);
    Row(37, 10923, 11059, d, 24, -64, 96);
    Row(38, 10923, 11059, d, 25, -128, 96);
    Row(39, 10923, 11059, d, 26, -96, 96);
    Row(40, 10923, 11059, d, 26, -96, 96);
    Row(41, 10923, 11059, d, 27, 96, 96);
    Row(42, 10923, 11059, d, 28, 32, 96);
    RowTwo(43, 10923, 11059, d, 28, 32, 0, 11050, 96);
    Row(44, 10923, 11059, d, 29, 0, 96);
    Row(45, 10923, 11059, d, 30, 0, 96);
    RowTwo(46, 10923, 11059, d, 30, 0, -64, 11042, 96);
    Row(47, 10923, 11059, d, 31, -64, 96);
  }

  lemma Reach10923()
    ensures ReachDown(47, 11059, 12) >= 5455
  {
    assert ReachDown(47, 11059, 1) == 71;
    assert ReachDown(47, 11059, 2) == 106;
    assert ReachDown(47, 11059, 3) == 158;
    assert ReachDown(47, 11059, 4) == 235;
    assert ReachDown(47, 11059, 5) == 349;
    assert ReachDown(47, 11059, 6) == 518;
    assert ReachDown(47, 11059, 7) == 768;
    assert ReachDown(47, 11059, 8) == 1139;
    assert ReachDown(47, 11059, 9) == 1688;
    assert ReachDown(47, 11059, 10) == 2502;
    assert ReachDown(47, 11059, 11) == 3708;
    assert ReachDown(47, 11059, 12) == 5494;
  }

  lemma Window11060(d: nat)
    requires 11060 <= d <= 11272
    ensures forall g :: 18 <= g <= 26 ==> Within(g, d, 32)
  {
    hide Within;
    NothingRemains(d);
    Row(1, 11060, 11272, d, 0, 0, -34);
    Row(2, 11060, 11272, d, 1, -34, -36);
    Row(3, 11060, 11272, d, 2, -36, -6);
    Row(4, 11060, 11272, d, 2, -36, -72);
    Row(5, 11060, 11272, d, 3, -6, -10);
    Row(6, 11060, 11272, d, 4, -72, -44);
    Row(7, 11060, 11272, d, 4, -72, -111);
    Row(8, 11060, 11272, d, 5, -10, -17);
    Row(9, 11060, 11272, d, 6, -44, -19);
    Row(10, 11060, 11272, d, 6, -44, -85);
    Row(11, 11060, 11272, d, 7, -111, -120);
    Row(12, 11060, 11272, d, 8, -17, 6);
    Row(13, 11060, 11272, d, 8, -17, -61);
    Row(14, 11060, 11272, d, 9, -19, -31);
    Row(15, 11060, 11272, d, 10, -85, -65);
    RowTwo(16, 11060, 11272, d, 10, -85, -120, 11264, -88);
    Row(17, 11060, 11272, d, 11, -120, -134);
    Row(18, 11060, 11272, d, 12, 6, 32);
    RowTwo(19, 11060, 11272, d, 12, 6, -61, 11211, 32);
    Row(20, 11060, 11272, d, 13, -61, 32);
    Row(21, 11060, 11272, d, 14, -31, 32);
    RowTwo(22, 11060, 11272, d, 14, -31, -65, 11171, 32);
    Row(23, 11060, 11272, d, 15, -65, 32);
    Row(24, 11060, 11272, d, 16, -88, 32);
    RowTwo(25, 11060, 11272, d, 16, -88, -134, 11142, 32);
    Row(26, 11060, 11272, d, 17, -134, 32);
  }

  lemma Reach11060()
    ensures ReachDown(26, 11272, 14) >= 5318
  {
    assert ReachDown(26, 11272, 1) == 39;
    assert ReachDown(26, 11272, 2) == 58;
    assert ReachDown(26, 11272, 3) == 85;
    assert ReachDown(26, 11272, 4) == 125;
    assert ReachDown(26, 11272, 5) == 183;
    assert ReachDown(26, 11272, 6) == 267;
    assert ReachDown(26, 11272, 7) == 389;
    assert ReachDown(26, 11272, 8) == 566;
    assert ReachDown(26, 11272, 9) == 824;
    assert ReachDown(26, 11272, 10) == 1199;
    assert ReachDown(26, 11272, 11) == 1744;
    assert ReachDown(26, 11272, 12) == 2536;
    assert ReachDown(26, 11272, 13) == 3687;
    assert ReachDown(26, 11272, 14) == 5360;
  }

  lemma Window11273(d: nat)
    requires 11273 <= d <= 11456
    ensures forall g :: 15 <= g <= 22 ==> Within(g, d, 0)
  {
    hide Within;
    NothingRemains(d);
    Row(1, 11273, 11456, d, 0, 0, -38);
    Row(2, 11273, 11456, d, 1, -38, -44);
    Row(3, 11273, 11456, d, 2, -44, -18);
    Row(4, 11273, 11456, d, 2, -44, -89);
    Row(5, 11273, 11456, d, 3, -18, -31);
    Row(6, 11273, 11456, d, 4, -89, -70);
    Row(7, 11273, 11456, d, 4, -89, -140);
    Row(8, 11273, 11456, d, 5, -31, -50);
    Row(9, 11273, 11456, d, 6, -70, -57);
    Row(10, 11273, 11456, d, 6, -70, -128);
    Row(11, 11273, 11456, d, 7, -140, -166);
    Row(12, 11273, 11456, d, 8, -50, -44);
    RowTwo(13, 11273, 11456, d, 8, -50, -57, 11343, -25);
    Row(14, 11273, 11456, d, 9, -57, -89);
    Row(15, 11273, 11456, d, 10, -128, -128);
    WithinMore(15, d, -128, 0);
    Row(16, 11273, 11456, d, 11, -166, 0);
    Row(17, 11273, 11456, d, 11, -166, 0);
    Row(18, 11273, 11456, d, 12, -44, 0);
    Row(19, 11273, 11456, d, 13, -25, 0);
    Row(20, 11273, 11456, d, 13, -25, 0);
    Row(21, 11273, 11456, d, 14, -89, 0);
    Row(22, 11273, 11456, d, 15, -128, 0);
  }

  lemma Reach11273()
    ensures ReachDown(22, 11456, 15) >= 5106
  {
    assert ReachDown(22, 11456, 1) == 32;
    assert ReachDown(22, 11456, 2) == 47;
    assert ReachDown(22, 11456, 3) == 68;
    assert ReachDown(22, 11456, 4) == 98;
    assert ReachDown(22, 11456, 5) == 141;
    assert ReachDown(22, 11456, 6) == 203;
    assert ReachDown(22, 11456, 7) == 291;
    assert ReachDown(22, 11456, 8) == 417;
    assert ReachDown(22, 11456, 9) == 597;
    assert ReachDown(22, 11456, 10) == 855;
    assert ReachDown(22, 11456, 11) == 1224;
    assert ReachDown(22, 11456, 12) == 1751;
    assert ReachDown(22, 11456, 13) == 2505;
    assert ReachDown(22, 11456, 14) == 3583;
    assert ReachDown(22, 11456, 15) == 5125;
  }

  /** The tail fits for every probability of zero and every decay the callers use. */
  lemma TailAlwaysFits(fs0: nat, decay: nat)
    requires ParametersOk(fs0, decay)
    ensures TailFits(fs0, decay)
  {
    hide TailFits, ReachDown, Within;
    NothingRemains(decay);
    if decay <= 8192 {
      Reach1();
      SegmentFits(fs0, decay, 1, 8192, 0, 0, 0, 14);
    } else if decay <= 9011 {
      Reach8193();
      SegmentFits(fs0, decay, 8193, 9011, 0, 0, 0, 15);
    } else if decay <= 9648 {
      Reach9012();
      Window9012(decay);
      SegmentFits(fs0, decay, 9012, 9648, 1, 1, 0, 15);
    } else if decay <= 10426 {
      Reach9649();
      Window9649(decay);
      SegmentFits(fs0, decay, 9649, 10426, 10, 17, 64, 13);
    } else if decay <= 10922 {
      Reach10427();
      Window10427(decay);
      SegmentFits(fs0, decay, 10427, 10922, 5, 7, -32, 16);
    } else if decay <= 11059 {
      Reach10923();
      Window10923(decay);
      SegmentFits(fs0, decay, 10923, 11059, 32, 47, 96, 12);
    } else if decay <= 11272 {
      Reach11060();
      Window11060(decay);
      SegmentFits(fs0, decay, 11060, 11272, 18, 26, 32, 14);
    } else {
      Reach11273();
      Window11273(decay);
      SegmentFits(fs0, decay, 11273, 11456, 15, 22, 0, 15);
    }
  }
}
