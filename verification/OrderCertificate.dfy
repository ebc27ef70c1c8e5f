/** Checked values of powers of 48271 modulo 2^31 - 1: the certificate from which
    its multiplicative order follows. Each line of a lemma multiplies two powers
    already known. */
module OrderCertificate {
  import opened ModularPower

  ghost predicate Known(k: nat, r: nat) {
    Power(MULTIPLIER, k) == r
  }

  lemma Multiply(a: nat, x: nat, b: nat, y: nat, z: nat)
    requires Known(a, x) && Known(b, y) && z == Times(x, y)
    ensures Known(a + b, z)
  {
    PowerSum(MULTIPLIER, a, b);
  }

  lemma Known1()
    ensures Known(1, 48271)
  {
    assert Power(MULTIPLIER, 0) == 1;
  }

  /** Exponents 2^15, 2^15 - 1 and 2^15 + 1. */
  lemma Fifteen()
    requires Known(1, 48271)
    ensures Known(32767, 2093369910)
    ensures Known(32769, 881721150)
  {
    hide Known, Power;
    assert Times(48271, 48271) == 182605794;
    assert Times(182605794, 182605794) == 1914720637;
    assert Times(1914720637, 1914720637) == 854716505;
    assert Times(854716505, 854716505) == 1098894339;
    assert Times(1098894339, 1098894339) == 890442452;
    assert Times(890442452, 890442452) == 719080959;
    assert Times(719080959, 719080959) == 1617261148;
    assert Times(1617261148, 1617261148) == 944147713;
    assert Times(944147713, 944147713) == 1928592452;
    assert Times(1928592452, 1928592452) == 1491754107;
    assert Times(1491754107, 1491754107) == 560989;
    assert Times(560989, 560989) == 1176045659;
    assert Times(1176045659, 1176045659) == 208615010;
    assert Times(208615010, 208615010) == 1706997846;
    assert Times(1706997846, 1706997846) == 1363399672;
    assert Times(182605794, 48271) == 1291394886;
    assert Times(1291394886, 1291394886) == 407355683;
    assert Times(407355683, 48271) == 1105902161;
    assert Times(1105902161, 1105902161) == 1738531149;
    assert Times(1738531149, 1738531149) == 1842513780;
    assert Times(1842513780, 1291394886) == 2010567813;
    assert Times(2010567813, 2010567813) == 352020689;
    assert Times(352020689, 352020689) == 1613822255;
    assert Times(1613822255, 1613822255) == 1819672356;
    assert Times(1819672356, 1819672356) == 1897416803;
    assert Times(1897416803, 1897416803) == 1895086771;
    assert Times(1895086771, 2010567813) == 170153285;
    assert Times(170153285, 170153285) == 2090638395;
    assert Times(2090638395, 2090638395) == 1754276841;
    assert Times(1754276841, 1754276841) == 278161085;
    assert Times(278161085, 278161085) == 367586630;
    assert Times(367586630, 367586630) == 1787479260;
    assert Times(1787479260, 2010567813) == 2093369910;
    assert Times(1363399672, 48271) == 881721150;
    hide Times;
    Multiply(1, 48271, 1, 48271, 182605794);
    Multiply(2, 182605794, 2, 182605794, 1914720637);
    Multiply(4, 1914720637, 4, 1914720637, 854716505);
    Multiply(8, 854716505, 8, 854716505, 1098894339);
    Multiply(16, 1098894339, 16, 1098894339, 890442452);
    Multiply(32, 890442452, 32, 890442452, 719080959);
    Multiply(64, 719080959, 64, 719080959, 1617261148);
    Multiply(128, 1617261148, 128, 1617261148, 944147713);
    Multiply(256, 944147713, 256, 944147713, 1928592452);
    Multiply(512, 1928592452, 512, 1928592452, 1491754107);
    Multiply(1024, 1491754107, 1024, 1491754107, 560989);
    Multiply(2048, 560989, 2048, 560989, 1176045659);
    Multiply(4096, 1176045659, 4096, 1176045659, 208615010);
    Multiply(8192, 208615010, 8192, 208615010, 1706997846);
    Multiply(16384, 1706997846, 16384, 1706997846, 1363399672);
    Multiply(2, 182605794, 1, 48271, 1291394886);
    Multiply(3, 1291394886, 3, 1291394886, 407355683);
    Multiply(6, 407355683, 1, 48271, 1105902161);
    Multiply(7, 1105902161, 7, 1105902161, 1738531149);
    Multiply(14, 1738531149, 14, 1738531149, 1842513780);
    Multiply(28, 1842513780, 3, 1291394886, 2010567813);
    Multiply(31, 2010567813, 31, 2010567813, 352020689);
    Multiply(62, 352020689, 62, 352020689, 1613822255);
    Multiply(124, 1613822255, 124, 1613822255, 1819672356);
    Multiply(248, 1819672356, 248, 1819672356, 1897416803);
    Multiply(496, 1897416803, 496, 1897416803, 1895086771);
    Multiply(992, 1895086771, 31, 2010567813, 170153285);
    Multiply(1023, 170153285, 1023, 170153285, 2090638395);
    Multiply(2046, 2090638395, 2046, 2090638395, 1754276841);
    Multiply(4092, 1754276841, 4092, 1754276841, 278161085);
    Multiply(8184, 278161085, 8184, 278161085, 367586630);
    Multiply(16368, 367586630, 16368, 367586630, 1787479260);
    Multiply(32736, 1787479260, 31, 2010567813, 2093369910);
    Multiply(32768, 1363399672, 1, 48271, 881721150);
  }

  /** Exponents ORDER / 3, ORDER / 2 and ORDER. */
  lemma Third()
    requires Known(32767, 2093369910)
    ensures Known(715827882, 634005911)
    ensures Known(1073741823, 2147483646)
    ensures Known(2147483646, 1)
  {
    hide Known, Power;
    assert Times(2093369910, 2093369910) == 715957851;
    assert Times(715957851, 715957851) == 1620859492;
    assert Times(1620859492, 2093369910) == 1252072072;
    assert Times(1252072072, 1252072072) == 760412594;
    assert Times(760412594, 760412594) == 228609311;
    assert Times(228609311, 2093369910) == 1834852637;
    assert Times(1834852637, 1834852637) == 65615916;
    assert Times(65615916, 65615916) == 1418321696;
    assert Times(1418321696, 2093369910) == 347920176;
    assert Times(347920176, 347920176) == 1186841304;
    assert Times(1186841304, 1186841304) == 240434351;
    assert Times(240434351, 2093369910) == 1169992982;
    assert Times(1169992982, 1169992982) == 794115741;
    assert Times(794115741, 794115741) == 1527987977;
    assert Times(1527987977, 2093369910) == 1007001994;
    assert Times(1007001994, 1007001994) == 24651285;
    assert Times(24651285, 24651285) == 1667141400;
    assert Times(1667141400, 2093369910) == 2025630097;
    assert Times(2025630097, 2025630097) == 1596692516;
    assert Times(1596692516, 2093369910) == 634005912;
    assert Times(634005912, 634005912) == 634005911;
    assert Times(634005911, 634005912) == 2147483646;
    assert Times(2147483646, 2147483646) == 1;
    hide Times;
    Multiply(32767, 2093369910, 32767, 2093369910, 715957851);
    Multiply(65534, 715957851, 65534, 715957851, 1620859492);
    Multiply(131068, 1620859492, 32767, 2093369910, 1252072072);
    Multiply(163835, 1252072072, 163835, 1252072072, 760412594);
    Multiply(327670, 760412594, 327670, 760412594, 228609311);
    Multiply(655340, 228609311, 32767, 2093369910, 1834852637);
    Multiply(688107, 1834852637, 688107, 1834852637, 65615916);
    Multiply(1376214, 65615916, 1376214, 65615916, 1418321696);
    Multiply(2752428, 1418321696, 32767, 2093369910, 347920176);
    Multiply(2785195, 347920176, 2785195, 347920176, 1186841304);
    Multiply(5570390, 1186841304, 5570390, 1186841304, 240434351);
    Multiply(11140780, 240434351, 32767, 2093369910, 1169992982);
    Multiply(11173547, 1169992982, 11173547, 1169992982, 794115741);
    Multiply(22347094, 794115741, 22347094, 794115741, 1527987977);
    Multiply(44694188, 1527987977, 32767, 2093369910, 1007001994);
    Multiply(44726955, 1007001994, 44726955, 1007001994, 24651285);
    Multiply(89453910, 24651285, 89453910, 24651285, 1667141400);
    Multiply(178907820, 1667141400, 32767, 2093369910, 2025630097);
    Multiply(178940587, 2025630097, 178940587, 2025630097, 1596692516);
    Multiply(357881174, 1596692516, 32767, 2093369910, 634005912);
    Multiply(357913941, 634005912, 357913941, 634005912, 634005911);
    Multiply(715827882, 634005911, 357913941, 634005912, 2147483646);
    Multiply(1073741823, 2147483646, 1073741823, 2147483646, 1);
  }

  /** Exponents ORDER / 11. */
  lemma Eleventh()
    requires Known(32767, 2093369910)
    ensures Known(195225786, 219454379)
  {
    hide Known, Power;
    assert Times(2093369910, 2093369910) == 715957851;
    assert Times(715957851, 715957851) == 1620859492;
    assert Times(1620859492, 2093369910) == 1252072072;
    assert Times(1252072072, 1252072072) == 760412594;
    assert Times(760412594, 2093369910) == 260618258;
    assert Times(260618258, 260618258) == 895254128;
    assert Times(895254128, 2093369910) == 1018384416;
    assert Times(1018384416, 1018384416) == 1117592144;
    assert Times(1117592144, 1117592144) == 729750773;
    assert Times(729750773, 2093369910) == 655586196;
    assert Times(655586196, 655586196) == 1321715;
    assert Times(1321715, 1321715) == 1026336214;
    assert Times(1026336214, 1026336214) == 104475783;
    assert Times(104475783, 104475783) == 154680782;
    assert Times(154680782, 2093369910) == 1376475563;
    assert Times(1376475563, 1376475563) == 347137054;
    assert Times(347137054, 2093369910) == 178271473;
    assert Times(178271473, 178271473) == 219454379;
    hide Times;
    Multiply(32767, 2093369910, 32767, 2093369910, 715957851);
    Multiply(65534, 715957851, 65534, 715957851, 1620859492);
    Multiply(131068, 1620859492, 32767, 2093369910, 1252072072);
    Multiply(163835, 1252072072, 163835, 1252072072, 760412594);
    Multiply(327670, 760412594, 32767, 2093369910, 260618258);
    Multiply(360437, 260618258, 360437, 260618258, 895254128);
    Multiply(720874, 895254128, 32767, 2093369910, 1018384416);
    Multiply(753641, 1018384416, 753641, 1018384416, 1117592144);
    Multiply(1507282, 1117592144, 1507282, 1117592144, 729750773);
    Multiply(3014564, 729750773, 32767, 2093369910, 655586196);
    Multiply(3047331, 655586196, 3047331, 655586196, 1321715);
    Multiply(6094662, 1321715, 6094662, 1321715, 1026336214);
    Multiply(12189324, 1026336214, 12189324, 1026336214, 104475783);
    Multiply(24378648, 104475783, 24378648, 104475783, 154680782);
    Multiply(48757296, 154680782, 32767, 2093369910, 1376475563);
    Multiply(48790063, 1376475563, 48790063, 1376475563, 347137054);
    Multiply(97580126, 347137054, 32767, 2093369910, 178271473);
    Multiply(97612893, 178271473, 97612893, 178271473, 219454379);
  }

  /** Exponents ORDER / 331. */
  lemma ThreeHundredThirtyFirst()
    requires Known(32767, 2093369910)
    ensures Known(6487866, 1627574666)
  {
    hide Known, Power;
    assert Times(2093369910, 2093369910) == 715957851;
    assert Times(715957851, 2093369910) == 1350353449;
    assert Times(1350353449, 1350353449) == 2107021021;
    assert Times(2107021021, 2107021021) == 1897695899;
    assert Times(1897695899, 1897695899) == 1458038000;
    assert Times(1458038000, 1458038000) == 1893572800;
    assert Times(1893572800, 2093369910) == 566031487;
    assert Times(566031487, 566031487) == 1257167874;
    assert Times(1257167874, 2093369910) == 1150449276;
    assert Times(1150449276, 1150449276) == 1627574666;
    hide Times;
    Multiply(32767, 2093369910, 32767, 2093369910, 715957851);
    Multiply(65534, 715957851, 32767, 2093369910, 1350353449);
    Multiply(98301, 1350353449, 98301, 1350353449, 2107021021);
    Multiply(196602, 2107021021, 196602, 2107021021, 1897695899);
    Multiply(393204, 1897695899, 393204, 1897695899, 1458038000);
    Multiply(786408, 1458038000, 786408, 1458038000, 1893572800);
    Multiply(1572816, 1893572800, 32767, 2093369910, 566031487);
    Multiply(1605583, 566031487, 1605583, 566031487, 1257167874);
    Multiply(3211166, 1257167874, 32767, 2093369910, 1150449276);
    Multiply(3243933, 1150449276, 3243933, 1150449276, 1627574666);
  }

  /** Exponents ORDER / 7. */
  lemma Seventh()
    requires Known(32769, 881721150)
    ensures Known(306783378, 1752599774)
  {
    hide Known, Power;
    assert Times(881721150, 881721150) == 1851559916;
    assert Times(1851559916, 1851559916) == 1907416029;
    assert Times(1907416029, 1907416029) == 196023642;
    assert Times(196023642, 881721150) == 1242163362;
    assert Times(1242163362, 1242163362) == 27098180;
    assert Times(27098180, 27098180) == 801057220;
    assert Times(801057220, 801057220) == 1662508602;
    assert Times(1662508602, 881721150) == 482687032;
    assert Times(482687032, 482687032) == 1493173431;
    assert Times(1493173431, 1493173431) == 2079867231;
    assert Times(2079867231, 2079867231) == 2060607585;
    assert Times(2060607585, 881721150) == 1221504590;
    assert Times(1221504590, 1221504590) == 94368150;
    assert Times(94368150, 94368150) == 1485769375;
    assert Times(1485769375, 1485769375) == 1800936757;
    assert Times(1800936757, 881721150) == 1253228241;
    assert Times(1253228241, 1253228241) == 1752599774;
    hide Times;
    Multiply(32769, 881721150, 32769, 881721150, 1851559916);
    Multiply(65538, 1851559916, 65538, 1851559916, 1907416029);
    Multiply(131076, 1907416029, 131076, 1907416029, 196023642);
    Multiply(262152, 196023642, 32769, 881721150, 1242163362);
    Multiply(294921, 1242163362, 294921, 1242163362, 27098180);
    Multiply(589842, 27098180, 589842, 27098180, 801057220);
    Multiply(1179684, 801057220, 1179684, 801057220, 1662508602);
    Multiply(2359368, 1662508602, 32769, 881721150, 482687032);
    Multiply(2392137, 482687032, 2392137, 482687032, 1493173431);
    Multiply(4784274, 1493173431, 4784274, 1493173431, 2079867231);
    Multiply(9568548, 2079867231, 9568548, 2079867231, 2060607585);
    Multiply(19137096, 2060607585, 32769, 881721150, 1221504590);
    Multiply(19169865, 1221504590, 19169865, 1221504590, 94368150);
    Multiply(38339730, 94368150, 38339730, 94368150, 1485769375);
    Multiply(76679460, 1485769375, 76679460, 1485769375, 1800936757);
    Multiply(153358920, 1800936757, 32769, 881721150, 1253228241);
    Multiply(153391689, 1253228241, 153391689, 1253228241, 1752599774);
  }

  /** Exponents ORDER / 31. */
  lemma ThirtyFirst()
    requires Known(32769, 881721150)
    ensures Known(69273666, 64)
  {
    hide Known, Power;
    assert Times(881721150, 881721150) == 1851559916;
    assert Times(1851559916, 1851559916) == 1907416029;
    assert Times(1907416029, 1907416029) == 196023642;
    assert Times(196023642, 196023642) == 1877273291;
    assert Times(1877273291, 1877273291) == 2092981655;
    assert Times(2092981655, 881721150) == 1060347458;
    assert Times(1060347458, 1060347458) == 190213534;
    assert Times(190213534, 190213534) == 1780023990;
    assert Times(1780023990, 1780023990) == 394578629;
    assert Times(394578629, 394578629) == 638959163;
    assert Times(638959163, 638959163) == 1381928509;
    assert Times(1381928509, 881721150) == 2147483639;
    assert Times(2147483639, 2147483639) == 64;
    hide Times;
    Multiply(32769, 881721150, 32769, 881721150, 1851559916);
    Multiply(65538, 1851559916, 65538, 1851559916, 1907416029);
    Multiply(131076, 1907416029, 131076, 1907416029, 196023642);
    Multiply(262152, 196023642, 262152, 196023642, 1877273291);
    Multiply(524304, 1877273291, 524304, 1877273291, 2092981655);
    Multiply(1048608, 2092981655, 32769, 881721150, 1060347458);
    Multiply(1081377, 1060347458, 1081377, 1060347458, 190213534);
    Multiply(2162754, 190213534, 2162754, 190213534, 1780023990);
    Multiply(4325508, 1780023990, 4325508, 1780023990, 394578629);
    Multiply(8651016, 394578629, 8651016, 394578629, 638959163);
    Multiply(17302032, 638959163, 17302032, 638959163, 1381928509);
    Multiply(34604064, 1381928509, 32769, 881721150, 2147483639);
    Multiply(34636833, 2147483639, 34636833, 2147483639, 64);
  }

  /** Exponents ORDER / 151. */
  lemma OneHundredFiftyFirst()
    requires Known(32769, 881721150)
    ensures Known(14221746, 556613938)
  {
    hide Known, Power;
    assert Times(881721150, 881721150) == 1851559916;
    assert Times(1851559916, 881721150) == 1343420328;
    assert Times(1343420328, 1343420328) == 1968002721;
    assert Times(1968002721, 1968002721) == 1336549978;
    assert Times(1336549978, 881721150) == 397637126;
    assert Times(397637126, 397637126) == 1529938474;
    assert Times(1529938474, 881721150) == 1167683297;
    assert Times(1167683297, 1167683297) == 684737847;
    assert Times(684737847, 684737847) == 1226452980;
    assert Times(1226452980, 1226452980) == 407594142;
    assert Times(407594142, 881721150) == 142300323;
    assert Times(142300323, 142300323) == 556613938;
    hide Times;
    Multiply(32769, 881721150, 32769, 881721150, 1851559916);
    Multiply(65538, 1851559916, 32769, 881721150, 1343420328);
    Multiply(98307, 1343420328, 98307, 1343420328, 1968002721);
    Multiply(196614, 1968002721, 196614, 1968002721, 1336549978);
    Multiply(393228, 1336549978, 32769, 881721150, 397637126);
    Multiply(425997, 397637126, 425997, 397637126, 1529938474);
    Multiply(851994, 1529938474, 32769, 881721150, 1167683297);
    Multiply(884763, 1167683297, 884763, 1167683297, 684737847);
    Multiply(1769526, 684737847, 1769526, 684737847, 1226452980);
    Multiply(3539052, 1226452980, 3539052, 1226452980, 407594142);
    Multiply(7078104, 407594142, 32769, 881721150, 142300323);
    Multiply(7110873, 142300323, 7110873, 142300323, 556613938);
  }

  /** The generator returns to one at ORDER, and at none of the exponents
      ORDER / q for the prime factors q of ORDER. */
  lemma OrderFacts()
    ensures Returns(ORDER)
    ensures !Returns(ORDER / 2) && !Returns(ORDER / 3) && !Returns(ORDER / 7) && !Returns(ORDER / 11)
    ensures !Returns(ORDER / 31) && !Returns(ORDER / 151) && !Returns(ORDER / 331)
  {
    hide Power;
    Known1();
    Fifteen();
    Third();
    Eleventh();
    ThreeHundredThirtyFirst();
    Seventh();
    ThirtyFirst();
    OneHundredFiftyFirst();
  }
}
