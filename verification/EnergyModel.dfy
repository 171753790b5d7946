/**
  The probability model of coarse energy (e_prob_model of celt/quant_bands.c):
  for each frame size and kind of prediction, and for each of 21 bands, the
  probability of a zero delta and the decay rate, both in Q8.
 */
module EnergyModel {
  datatype Band = Band(zero: nat, decay: nat)

  /** The bounds ec_laplace_encode relies on, before scaling to Q15 and Q14. */
  predicate ProbOk(row: seq<Band>)
  {
    |row| == 21 && forall k :: 0 <= k < |row| ==> 0 < row[k].zero <= 255 && 0 < row[k].decay <= 179
  }

  const Row0Inter: seq<Band> :=
    [Band(72, 127), Band(65, 129), Band(66, 128), Band(65, 128), Band(64, 128), Band(62, 128), Band(64, 128),
     Band(64, 128), Band(92, 78), Band(92, 79), Band(92, 78), Band(90, 79), Band(116, 41), Band(115, 40),
     Band(114, 40), Band(132, 26), Band(132, 26), Band(145, 17), Band(161, 12), Band(176, 10), Band(177, 11)]

  const Row0Intra: seq<Band> :=
    [Band(24, 179), Band(48, 138), Band(54, 135), Band(54, 132), Band(53, 134), Band(56, 133), Band(55, 132),
     Band(55, 132), Band(61, 114), Band(70, 96), Band(74, 88), Band(75, 88), Band(87, 74), Band(89, 66),
     Band(91, 67), Band(100, 59), Band(108, 50), Band(120, 40), Band(122, 37), Band(97, 43), Band(78, 50)]

  const Row1Inter: seq<Band> :=
    [Band(83, 78), Band(84, 81), Band(88, 75), Band(86, 74), Band(87, 71), Band(90, 73), Band(93, 74),
     Band(93, 74), Band(109, 40), Band(114, 36), Band(117, 34), Band(117, 34), Band(143, 17), Band(145, 18),
     Band(146, 19), Band(162, 12), Band(165, 10), Band(178, 7), Band(189, 6), Band(190, 8), Band(177, 9)]

  const Row1Intra: seq<Band> :=
    [Band(23, 178), Band(54, 115), Band(63, 102), Band(66, 98), Band(69, 99), Band(74, 89), Band(71, 91),
     Band(73, 91), Band(78, 89), Band(86, 80), Band(92, 66), Band(93, 64), Band(102, 59), Band(103, 60),
     Band(104, 60), Band(117, 52), Band(123, 44), Band(138, 35), Band(133, 31), Band(97, 38), Band(77, 45)]

  const Row2Inter: seq<Band> :=
    [Band(61, 90), Band(93, 60), Band(105, 42), Band(107, 41), Band(110, 45), Band(116, 38), Band(113, 38),
     Band(112, 38), Band(124, 26), Band(132, 27), Band(136, 19), Band(140, 20), Band(155, 14), Band(159, 16),
     Band(158, 18), Band(170, 13), Band(177, 10), Band(187, 8), Band(192, 6), Band(175, 9), Band(159, 10)]

  const Row2Intra: seq<Band> :=
    [Band(21, 178), Band(59, 110), Band(71, 86), Band(75, 85), Band(84, 83), Band(91, 66), Band(88, 73),
     Band(87, 72), Band(92, 75), Band(98, 72), Band(105, 58), Band(107, 54), Band(115, 52), Band(114, 55),
     Band(112, 56), Band(129, 51), Band(132, 40), Band(150, 33), Band(140, 29), Band(98, 35), Band(77, 42)]

  const Row3Inter: seq<Band> :=
    [Band(42, 121), Band(96, 66), Band(108, 43), Band(111, 40), Band(117, 44), Band(123, 32), Band(120, 36),
     Band(119, 33), Band(127, 33), Band(134, 34), Band(139, 21), Band(147, 23), Band(152, 20), Band(158, 25),
     Band(154, 26), Band(166, 21), Band(173, 16), Band(184, 13), Band(184, 10), Band(150, 13), Band(139, 15)]

  const Row3Intra: seq<Band> :=
    [Band(22, 178), Band(63, 114), Band(74, 82), Band(84, 83), Band(92, 82), Band(103, 62), Band(96, 72),
     Band(96, 67), Band(101, 73), Band(107, 72), Band(113, 55), Band(118, 52), Band(125, 52), Band(118, 52),
     Band(117, 55), Band(135, 49), Band(137, 39), Band(157, 32), Band(145, 29), Band(97, 33), Band(77, 40)]

  lemma Row0InterOk()
    ensures ProbOk(Row0Inter)
  {
  }

  lemma Row0IntraOk()
    ensures ProbOk(Row0Intra)
  {
  }

  lemma Row1InterOk()
    ensures ProbOk(Row1Inter)
  {
  }

  lemma Row1IntraOk()
    ensures ProbOk(Row1Intra)
  {
  }

  lemma Row2InterOk()
    ensures ProbOk(Row2Inter)
  {
  }

  lemma Row2IntraOk()
    ensures ProbOk(Row2Intra)
  {
  }

  lemma Row3InterOk()
    ensures ProbOk(Row3Inter)
  {
  }

  lemma Row3IntraOk()
    ensures ProbOk(Row3Intra)
  {
  }

  function ProbModel(lm: nat, intra: bool): (row: seq<Band>)
    requires lm < 4
    ensures ProbOk(row)
  {
    Row0InterOk(); Row0IntraOk();
    Row1InterOk(); Row1IntraOk();
    Row2InterOk(); Row2IntraOk();
    Row3InterOk(); Row3IntraOk();
    match lm
    case 0 => if intra then Row0Intra else Row0Inter
    case 1 => if intra then Row1Intra else Row1Inter
    case 2 => if intra then Row2Intra else Row2Inter
    case _ => if intra then Row3Intra else Row3Inter
  }
}
