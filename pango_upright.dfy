// The table of characters that Pango sets upright in vertical text: the
// characters whose Unicode VerticalOrientation property is U or Tu.

module PangoUpright {

  /**
   * The number of ranges in the table of characters whose Unicode
   * VerticalOrientation property is U or Tu (version 11.0.0 of the data).
   */
  const UprightCount: nat := 98

  /**
   * Range `i` of the table, both ends included. The entries are those of
   * the table in order, reached by halving the index range.
   */
  function Upright(i: nat): (int, int)
    requires i < UprightCount
  {
    if i < 49 then
      if i < 24 then
        if i < 12 then
          if i < 6 then
            if i < 3 then
              if i < 1 then
                (0x00A7, 0x00A7)
              else
                if i < 2 then
                  (0x00A9, 0x00A9)
                else
                  (0x00AE, 0x00AE)
            else
              if i < 4 then
                (0x00B1, 0x00B1)
              else
                if i < 5 then
                  (0x00BC, 0x00BE)
                else
                  (0x00D7, 0x00D7)
          else
            if i < 9 then
              if i < 7 then
                (0x00F7, 0x00F7)
              else
                if i < 8 then
                  (0x02EA, 0x02EB)
                else
                  (0x1100, 0x11FF)
            else
              if i < 10 then
                (0x1401, 0x167F)
              else
                if i < 11 then
                  (0x18B0, 0x18FF)
                else
                  (0x2016, 0x2016)
        else
          if i < 18 then
            if i < 15 then
              if i < 13 then
                (0x2020, 0x2021)
              else
                if i < 14 then
                  (0x2030, 0x2031)
                else
                  (0x203B, 0x203C)
            else
              if i < 16 then
                (0x2042, 0x2042)
              else
                if i < 17 then
                  (0x2047, 0x2049)
                else
                  (0x2051, 0x2051)
          else
            if i < 21 then
              if i < 19 then
                (0x2065, 0x2065)
              else
                if i < 20 then
                  (0x20DD, 0x20E0)
                else
                  (0x20E2, 0x20E4)
            else
              if i < 22 then
                (0x2100, 0x2101)
              else
                if i < 23 then
                  (0x2103, 0x2109)
                else
                  (0x210F, 0x210F)
      else
        if i < 36 then
          if i < 30 then
            if i < 27 then
              if i < 25 then
                (0x2113, 0x2114)
              else
                if i < 26 then
                  (0x2116, 0x2117)
                else
                  (0x211E, 0x2123)
            else
              if i < 28 then
                (0x2125, 0x2125)
              else
                if i < 29 then
                  (0x2127, 0x2127)
                else
                  (0x2129, 0x2129)
          else
            if i < 33 then
              if i < 31 then
                (0x212E, 0x212E)
              else
                if i < 32 then
                  (0x2135, 0x213F)
                else
                  (0x2145, 0x214A)
            else
              if i < 34 then
                (0x214C, 0x214D)
              else
                if i < 35 then
                  (0x214F, 0x2189)
                else
                  (0x218C, 0x218F)
        else
          if i < 42 then
            if i < 39 then
              if i < 37 then
                (0x221E, 0x221E)
              else
                if i < 38 then
                  (0x2234, 0x2235)
                else
                  (0x2300, 0x2307)
            else
              if i < 40 then
                (0x230C, 0x231F)
              else
                if i < 41 then
                  (0x2324, 0x2328)
                else
                  (0x232B, 0x232B)
          else
            if i < 45 then
              if i < 43 then
                (0x237D, 0x239A)
              else
                if i < 44 then
                  (0x23BE, 0x23CD)
                else
                  (0x23CF, 0x23CF)
            else
              if i < 47 then
                if i < 46 then
                  (0x23D1, 0x23DB)
                else
                  (0x23E2, 0x2422)
              else
                if i < 48 then
                  (0x2424, 0x24FF)
                else
                  (0x25A0, 0x2619)
    else
      if i < 73 then
        if i < 61 then
          if i < 55 then
            if i < 52 then
              if i < 50 then
                (0x2620, 0x2767)
              else
                if i < 51 then
                  (0x2776, 0x2793)
                else
                  (0x2B12, 0x2B2F)
            else
              if i < 53 then
                (0x2B50, 0x2B59)
              else
                if i < 54 then
                  (0x2BB8, 0x2BD1)
                else
                  (0x2BD3, 0x2BEB)
          else
            if i < 58 then
              if i < 56 then
                (0x2BF0, 0x2BFF)
              else
                if i < 57 then
                  (0x2E80, 0x3007)
                else
                  (0x3012, 0x3013)
            else
              if i < 59 then
                (0x3020, 0x302F)
              else
                if i < 60 then
                  (0x3031, 0x309F)
                else
                  (0x30A1, 0x30FB)
        else
          if i < 67 then
            if i < 64 then
              if i < 62 then
                (0x30FD, 0xA4CF)
              else
                if i < 63 then
                  (0xA960, 0xA97F)
                else
                  (0xAC00, 0xD7FF)
            else
              if i < 65 then
                (0xE000, 0xFAFF)
              else
                if i < 66 then
                  (0xFE10, 0xFE1F)
                else
                  (0xFE30, 0xFE48)
          else
            if i < 70 then
              if i < 68 then
                (0xFE50, 0xFE57)
              else
                if i < 69 then
                  (0xFE5F, 0xFE62)
                else
                  (0xFE67, 0xFE6F)
            else
              if i < 71 then
                (0xFF01, 0xFF07)
              else
                if i < 72 then
                  (0xFF0A, 0xFF0C)
                else
                  (0xFF0E, 0xFF19)
      else
        if i < 85 then
          if i < 79 then
            if i < 76 then
              if i < 74 then
                (0xFF1F, 0xFF3A)
              else
                if i < 75 then
                  (0xFF3C, 0xFF3C)
                else
                  (0xFF3E, 0xFF3E)
            else
              if i < 77 then
                (0xFF40, 0xFF5A)
              else
                if i < 78 then
                  (0xFFE0, 0xFFE2)
                else
                  (0xFFE4, 0xFFE7)
          else
            if i < 82 then
              if i < 80 then
                (0xFFF0, 0xFFF8)
              else
                if i < 81 then
                  (0xFFFC, 0xFFFD)
                else
                  (0x10980, 0x1099F)
            else
              if i < 83 then
                (0x11580, 0x115FF)
              else
                if i < 84 then
                  (0x11A00, 0x11AAF)
                else
                  (0x13000, 0x1342F)
        else
          if i < 91 then
            if i < 88 then
              if i < 86 then
                (0x14400, 0x1467F)
              else
                if i < 87 then
                  (0x16FE0, 0x18AFF)
                else
                  (0x1B000, 0x1B12F)
            else
              if i < 89 then
                (0x1B170, 0x1B2FF)
              else
                if i < 90 then
                  (0x1D000, 0x1D1FF)
                else
                  (0x1D2E0, 0x1D37F)
          else
            if i < 94 then
              if i < 92 then
                (0x1D800, 0x1DAAF)
              else
                if i < 93 then
                  (0x1F000, 0x1F7FF)
                else
                  (0x1F900, 0x1FA6F)
            else
              if i < 96 then
                if i < 95 then
                  (0x20000, 0x2FFFD)
                else
                  (0x30000, 0x3FFFD)
              else
                if i < 97 then
                  (0xF0000, 0xFFFFD)
                else
                  (0x100000, 0x10FFFD)
  }

  /** Ranges 0 to 24 are well formed and each lies below the next. */
  lemma UprightOrdered0()
    ensures forall i :: 0 <= i < 25 && i + 1 < UprightCount ==> Upright(i).1 < Upright(i + 1).0
    ensures forall i :: 0 <= i < 25 ==> Upright(i).0 <= Upright(i).1
  {
    assert Upright(0).1 < Upright(1).0;
    assert Upright(1).1 < Upright(2).0;
    assert Upright(2).1 < Upright(3).0;
    assert Upright(3).1 < Upright(4).0;
    assert Upright(4).1 < Upright(5).0;
    assert Upright(5).1 < Upright(6).0;
    assert Upright(6).1 < Upright(7).0;
    assert Upright(7).1 < Upright(8).0;
    assert Upright(8).1 < Upright(9).0;
    assert Upright(9).1 < Upright(10).0;
    assert Upright(10).1 < Upright(11).0;
    assert Upright(11).1 < Upright(12).0;
    assert Upright(12).1 < Upright(13).0;
    assert Upright(13).1 < Upright(14).0;
    assert Upright(14).1 < Upright(15).0;
    assert Upright(15).1 < Upright(16).0;
    assert Upright(16).1 < Upright(17).0;
    assert Upright(17).1 < Upright(18).0;
    assert Upright(18).1 < Upright(19).0;
    assert Upright(19).1 < Upright(20).0;
    assert Upright(20).1 < Upright(21).0;
    assert Upright(21).1 < Upright(22).0;
    assert Upright(22).1 < Upright(23).0;
    assert Upright(23).1 < Upright(24).0;
    assert Upright(24).1 < Upright(25).0;
    assert Upright(0).0 <= Upright(0).1;
    assert Upright(1).0 <= Upright(1).1;
    assert Upright(2).0 <= Upright(2).1;
    assert Upright(3).0 <= Upright(3).1;
    assert Upright(4).0 <= Upright(4).1;
    assert Upright(5).0 <= Upright(5).1;
    assert Upright(6).0 <= Upright(6).1;
    assert Upright(7).0 <= Upright(7).1;
    assert Upright(8).0 <= Upright(8).1;
    assert Upright(9).0 <= Upright(9).1;
    assert Upright(10).0 <= Upright(10).1;
    assert Upright(11).0 <= Upright(11).1;
    assert Upright(12).0 <= Upright(12).1;
    assert Upright(13).0 <= Upright(13).1;
    assert Upright(14).0 <= Upright(14).1;
    assert Upright(15).0 <= Upright(15).1;
    assert Upright(16).0 <= Upright(16).1;
    assert Upright(17).0 <= Upright(17).1;
    assert Upright(18).0 <= Upright(18).1;
    assert Upright(19).0 <= Upright(19).1;
    assert Upright(20).0 <= Upright(20).1;
    assert Upright(21).0 <= Upright(21).1;
    assert Upright(22).0 <= Upright(22).1;
    assert Upright(23).0 <= Upright(23).1;
    assert Upright(24).0 <= Upright(24).1;
  }

  /** Ranges 25 to 49 are well formed and each lies below the next. */
  lemma UprightOrdered25()
    ensures forall i :: 25 <= i < 50 && i + 1 < UprightCount ==> Upright(i).1 < Upright(i + 1).0
    ensures forall i :: 25 <= i < 50 ==> Upright(i).0 <= Upright(i).1
  {
    assert Upright(25).1 < Upright(26).0;
    assert Upright(26).1 < Upright(27).0;
    assert Upright(27).1 < Upright(28).0;
    assert Upright(28).1 < Upright(29).0;
    assert Upright(29).1 < Upright(30).0;
    assert Upright(30).1 < Upright(31).0;
    assert Upright(31).1 < Upright(32).0;
    assert Upright(32).1 < Upright(33).0;
    assert Upright(33).1 < Upright(34).0;
    assert Upright(34).1 < Upright(35).0;
    assert Upright(35).1 < Upright(36).0;
    assert Upright(36).1 < Upright(37).0;
    assert Upright(37).1 < Upright(38).0;
    assert Upright(38).1 < Upright(39).0;
    assert Upright(39).1 < Upright(40).0;
    assert Upright(40).1 < Upright(41).0;
    assert Upright(41).1 < Upright(42).0;
    assert Upright(42).1 < Upright(43).0;
    assert Upright(43).1 < Upright(44).0;
    assert Upright(44).1 < Upright(45).0;
    assert Upright(45).1 < Upright(46).0;
    assert Upright(46).1 < Upright(47).0;
    assert Upright(47).1 < Upright(48).0;
    assert Upright(48).1 < Upright(49).0;
    assert Upright(49).1 < Upright(50).0;
    assert Upright(25).0 <= Upright(25).1;
    assert Upright(26).0 <= Upright(26).1;
    assert Upright(27).0 <= Upright(27).1;
    assert Upright(28).0 <= Upright(28).1;
    assert Upright(29).0 <= Upright(29).1;
    assert Upright(30).0 <= Upright(30).1;
    assert Upright(31).0 <= Upright(31).1;
    assert Upright(32).0 <= Upright(32).1;
    assert Upright(33).0 <= Upright(33).1;
    assert Upright(34).0 <= Upright(34).1;
    assert Upright(35).0 <= Upright(35).1;
    assert Upright(36).0 <= Upright(36).1;
    assert Upright(37).0 <= Upright(37).1;
    assert Upright(38).0 <= Upright(38).1;
    assert Upright(39).0 <= Upright(39).1;
    assert Upright(40).0 <= Upright(40).1;
    assert Upright(41).0 <= Upright(41).1;
    assert Upright(42).0 <= Upright(42).1;
    assert Upright(43).0 <= Upright(43).1;
    assert Upright(44).0 <= Upright(44).1;
    assert Upright(45).0 <= Upright(45).1;
    assert Upright(46).0 <= Upright(46).1;
    assert Upright(47).0 <= Upright(47).1;
    assert Upright(48).0 <= Upright(48).1;
    assert Upright(49).0 <= Upright(49).1;
  }

  /** Ranges 50 to 74 are well formed and each lies below the next. */
  lemma UprightOrdered50()
    ensures forall i :: 50 <= i < 75 && i + 1 < UprightCount ==> Upright(i).1 < Upright(i + 1).0
    ensures forall i :: 50 <= i < 75 ==> Upright(i).0 <= Upright(i).1
  {
    assert Upright(50).1 < Upright(51).0;
    assert Upright(51).1 < Upright(52).0;
    assert Upright(52).1 < Upright(53).0;
    assert Upright(53).1 < Upright(54).0;
    assert Upright(54).1 < Upright(55).0;
    assert Upright(55).1 < Upright(56).0;
    assert Upright(56).1 < Upright(57).0;
    assert Upright(57).1 < Upright(58).0;
    assert Upright(58).1 < Upright(59).0;
    assert Upright(59).1 < Upright(60).0;
    assert Upright(60).1 < Upright(61).0;
    assert Upright(61).1 < Upright(62).0;
    assert Upright(62).1 < Upright(63).0;
    assert Upright(63).1 < Upright(64).0;
    assert Upright(64).1 < Upright(65).0;
    assert Upright(65).1 < Upright(66).0;
    assert Upright(66).1 < Upright(67).0;
    assert Upright(67).1 < Upright(68).0;
    assert Upright(68).1 < Upright(69).0;
    assert Upright(69).1 < Upright(70).0;
    assert Upright(70).1 < Upright(71).0;
    assert Upright(71).1 < Upright(72).0;
    assert Upright(72).1 < Upright(73).0;
    assert Upright(73).1 < Upright(74).0;
    assert Upright(74).1 < Upright(75).0;
    assert Upright(50).0 <= Upright(50).1;
    assert Upright(51).0 <= Upright(51).1;
    assert Upright(52).0 <= Upright(52).1;
    assert Upright(53).0 <= Upright(53).1;
    assert Upright(54).0 <= Upright(54).1;
    assert Upright(55).0 <= Upright(55).1;
    assert Upright(56).0 <= Upright(56).1;
    assert Upright(57).0 <= Upright(57).1;
    assert Upright(58).0 <= Upright(58).1;
    assert Upright(59).0 <= Upright(59).1;
    assert Upright(60).0 <= Upright(60).1;
    assert Upright(61).0 <= Upright(61).1;
    assert Upright(62).0 <= Upright(62).1;
    assert Upright(63).0 <= Upright(63).1;
    assert Upright(64).0 <= Upright(64).1;
    assert Upright(65).0 <= Upright(65).1;
    assert Upright(66).0 <= Upright(66).1;
    assert Upright(67).0 <= Upright(67).1;
    assert Upright(68).0 <= Upright(68).1;
    assert Upright(69).0 <= Upright(69).1;
    assert Upright(70).0 <= Upright(70).1;
    assert Upright(71).0 <= Upright(71).1;
    assert Upright(72).0 <= Upright(72).1;
    assert Upright(73).0 <= Upright(73).1;
    assert Upright(74).0 <= Upright(74).1;
  }

  /** Ranges 75 to 97 are well formed and each lies below the next. */
  lemma UprightOrdered75()
    ensures forall i :: 75 <= i < 98 && i + 1 < UprightCount ==> Upright(i).1 < Upright(i + 1).0
    ensures forall i :: 75 <= i < 98 ==> Upright(i).0 <= Upright(i).1
  {
    assert Upright(75).1 < Upright(76).0;
    assert Upright(76).1 < Upright(77).0;
    assert Upright(77).1 < Upright(78).0;
    assert Upright(78).1 < Upright(79).0;
    assert Upright(79).1 < Upright(80).0;
    assert Upright(80).1 < Upright(81).0;
    assert Upright(81).1 < Upright(82).0;
    assert Upright(82).1 < Upright(83).0;
    assert Upright(83).1 < Upright(84).0;
    assert Upright(84).1 < Upright(85).0;
    assert Upright(85).1 < Upright(86).0;
    assert Upright(86).1 < Upright(87).0;
    assert Upright(87).1 < Upright(88).0;
    assert Upright(88).1 < Upright(89).0;
    assert Upright(89).1 < Upright(90).0;
    assert Upright(90).1 < Upright(91).0;
    assert Upright(91).1 < Upright(92).0;
    assert Upright(92).1 < Upright(93).0;
    assert Upright(93).1 < Upright(94).0;
    assert Upright(94).1 < Upright(95).0;
    assert Upright(95).1 < Upright(96).0;
    assert Upright(96).1 < Upright(97).0;
    assert Upright(75).0 <= Upright(75).1;
    assert Upright(76).0 <= Upright(76).1;
    assert Upright(77).0 <= Upright(77).1;
    assert Upright(78).0 <= Upright(78).1;
    assert Upright(79).0 <= Upright(79).1;
    assert Upright(80).0 <= Upright(80).1;
    assert Upright(81).0 <= Upright(81).1;
    assert Upright(82).0 <= Upright(82).1;
    assert Upright(83).0 <= Upright(83).1;
    assert Upright(84).0 <= Upright(84).1;
    assert Upright(85).0 <= Upright(85).1;
    assert Upright(86).0 <= Upright(86).1;
    assert Upright(87).0 <= Upright(87).1;
    assert Upright(88).0 <= Upright(88).1;
    assert Upright(89).0 <= Upright(89).1;
    assert Upright(90).0 <= Upright(90).1;
    assert Upright(91).0 <= Upright(91).1;
    assert Upright(92).0 <= Upright(92).1;
    assert Upright(93).0 <= Upright(93).1;
    assert Upright(94).0 <= Upright(94).1;
    assert Upright(95).0 <= Upright(95).1;
    assert Upright(96).0 <= Upright(96).1;
    assert Upright(97).0 <= Upright(97).1;
  }

  /** Neighbouring ranges are well formed and in increasing order. */
  lemma UprightAdjacent()
    ensures forall i :: 0 <= i < UprightCount ==> Upright(i).0 <= Upright(i).1
    ensures forall i :: 0 <= i < UprightCount - 1 ==> Upright(i).1 < Upright(i + 1).0
  {
    UprightOrdered0();
    UprightOrdered25();
    UprightOrdered50();
    UprightOrdered75();
  }

  /** Range `i` lies below every later range `j`. */
  lemma {:induction false} UprightBelow(i: nat, j: nat)
    requires i < j < UprightCount
    ensures Upright(i).1 < Upright(j).0
    decreases j - i
  {
    UprightAdjacent();
    if i + 1 < j {
      UprightBelow(i + 1, j);
    }
  }

  /** The table is sorted: every range lies below the ranges after it. */
  lemma UprightSorted()
    ensures forall i :: 0 <= i < UprightCount ==> Upright(i).0 <= Upright(i).1
    ensures forall i, j :: 0 <= i < j < UprightCount ==> Upright(i).1 < Upright(j).0
  {
    forall i, j | 0 <= i < j < UprightCount
      ensures Upright(i).1 < Upright(j).0
    {
      UprightBelow(i, j);
    }
    UprightAdjacent();
  }

  /** `ch` lies in one of the ranges of the table. */
  predicate InUpright(ch: int)
  {
    exists i :: 0 <= i < UprightCount && Upright(i).0 <= ch <= Upright(i).1
  }
}
