/**
 * The cached powers of ten: 64-bit fractions with a binary exponent, every eighth
 * power from 10^-348 to 10^340. Every entry is proved to be within half a unit in
 * the last place of the power it stands for. Written by cached_powers.py.
 */
module CachedPowers {
  import opened Powers
  import opened DiyFp
  import opened ExactPowers

  const FIRST_POWER: int := -348
  const STEP_POWERS: int := 8
  const N_POWERS: nat := 87

  /** Entry i of the table. */
  function PowerTen(i: nat): Fp
    requires i < N_POWERS
  {
    match i
    case 0 => Fp(18054884314459144840, -1220)
    case 1 => Fp(13451937075301367670, -1193)
    case 2 => Fp(10022474136428063862, -1166)
    case 3 => Fp(14934650266808366570, -1140)
    case 4 => Fp(11127181549972568877, -1113)
    case 5 => Fp(16580792590934885855, -1087)
    case 6 => Fp(12353653155963782858, -1060)
    case 7 => Fp(18408377700990114895, -1034)
    case 8 => Fp(13715310171984221708, -1007)
    case 9 => Fp(10218702384817765436, -980)
    case 10 => Fp(15227053142812498563, -954)
    case 11 => Fp(11345038669416679861, -927)
    case 12 => Fp(16905424996341287883, -901)
    case 13 => Fp(12595523146049147757, -874)
    case 14 => Fp(9384396036005875287, -847)
    case 15 => Fp(13983839803942852151, -821)
    case 16 => Fp(10418772551374772303, -794)
    case 17 => Fp(15525180923007089351, -768)
    case 18 => Fp(11567161174868858868, -741)
    case 19 => Fp(17236413322193710309, -715)
    case 20 => Fp(12842128665889583758, -688)
    case 21 => Fp(9568131466127621947, -661)
    case 22 => Fp(14257626930069360058, -635)
    case 23 => Fp(10622759856335341974, -608)
    case 24 => Fp(15829145694278690180, -582)
    case 25 => Fp(11793632577567316726, -555)
    case 26 => Fp(17573882009934360870, -529)
    case 27 => Fp(13093562431584567480, -502)
    case 28 => Fp(9755464219737475723, -475)
    case 29 => Fp(14536774485912137811, -449)
    case 30 => Fp(10830740992659433045, -422)
    case 31 => Fp(16139061738043178685, -396)
    case 32 => Fp(12024538023802026127, -369)
    case 33 => Fp(17917957937422433684, -343)
    case 34 => Fp(13349918974505688015, -316)
    case 35 => Fp(9946464728195732843, -289)
    case 36 => Fp(14821387422376473014, -263)
    case 37 => Fp(11042794154864902060, -236)
    case 38 => Fp(16455045573212060422, -210)
    case 39 => Fp(12259964326927110867, -183)
    case 40 => Fp(18268770466636286478, -157)
    case 41 => Fp(13611294676837538539, -130)
    case 42 => Fp(10141204801825835212, -103)
    case 43 => Fp(15111572745182864684, -77)
    case 44 => Fp(11258999068426240000, -50)
    case 45 => Fp(16777216000000000000, -24)
    case 46 => Fp(12500000000000000000, 3)
    case 47 => Fp(9313225746154785156, 30)
    case 48 => Fp(13877787807814456755, 56)
    case 49 => Fp(10339757656912845936, 83)
    case 50 => Fp(15407439555097886824, 109)
    case 51 => Fp(11479437019748901445, 136)
    case 52 => Fp(17105694144590052135, 162)
    case 53 => Fp(12744735289059618216, 189)
    case 54 => Fp(9495567745759798747, 216)
    case 55 => Fp(14149498560666738074, 242)
    case 56 => Fp(10542197943230523224, 269)
    case 57 => Fp(15709099088952724970, 295)
    case 58 => Fp(11704190886730495818, 322)
    case 59 => Fp(17440603504673385349, 348)
    case 60 => Fp(12994262207056124023, 375)
    case 61 => Fp(9681479787123295682, 402)
    case 62 => Fp(14426529090290212157, 428)
    case 63 => Fp(10748601772107342003, 455)
    case 64 => Fp(16016664761464807395, 481)
    case 65 => Fp(11933345169920330789, 508)
    case 66 => Fp(17782069995880619868, 534)
    case 67 => Fp(13248674568444952270, 561)
    case 68 => Fp(9871031767461413346, 588)
    case 69 => Fp(14708983551653345445, 614)
    case 70 => Fp(10959046745042015199, 641)
    case 71 => Fp(16330252207878254650, 667)
    case 72 => Fp(12166986024289022870, 694)
    case 73 => Fp(18130221999122236476, 720)
    case 74 => Fp(13508068024458167312, 747)
    case 75 => Fp(10064294952495520794, 774)
    case 76 => Fp(14996968138956309548, 800)
    case 77 => Fp(11173611982879273257, 827)
    case 78 => Fp(16649979327439178909, 853)
    case 79 => Fp(12405201291620119593, 880)
    case 80 => Fp(9242595204427927429, 907)
    case 81 => Fp(13772540099066387757, 933)
    case 82 => Fp(10261342003245940623, 960)
    case 83 => Fp(15290591125556738113, 986)
    case 84 => Fp(11392378155556871081, 1013)
    case 85 => Fp(16975966327722178521, 1039)
    case _ => Fp(12648080533535911531, 1066)
  }

  /** p is within half a unit in its last place of 10^k. */
  ghost predicate HalfUnit(p: Fp, k: int) {
    -Scale(2, p.exp) <= 2.0 * (p.frac as real * Scale(2, p.exp) - Scale(10, k)) <= Scale(2, p.exp)
  }

  /** Entry i stands for 10^(FIRST_POWER + STEP_POWERS * i). */
  ghost predicate EntryOk(i: nat)
    requires i < N_POWERS
  {
    && HalfUnit(PowerTen(i), FIRST_POWER + STEP_POWERS * i)
    && PowerTen(i).frac >= TWO_63
    && (i + 1 < N_POWERS ==> 26 <= PowerTen(i + 1).exp - PowerTen(i).exp <= 27)
  }

  lemma LargePower(p: Fp, k: nat)
    requires p.exp >= 0
    requires 2 * (p.frac * Pow2(p.exp) - Pow10(k)) <= Pow2(p.exp) && 2 * (Pow10(k) - p.frac * Pow2(p.exp)) <= Pow2(p.exp)
    ensures HalfUnit(p, k)
  {
    hide Pow;
    RealTimes(p.frac, Pow2(p.exp));
  }

  lemma MiddlePower(p: Fp, k: nat)
    requires p.exp < 0 && p.frac == Pow10(k) * Pow2(-p.exp)
    ensures HalfUnit(p, k)
  {
    PowPositive(2, -p.exp);
    var t, u := Pow2(-p.exp) as real, 1.0 / Pow2(-p.exp) as real;
    assert p.frac as real == Pow10(k) as real * t;
    assert t * u == 1.0;
    assert (Pow10(k) as real * t) * u == Pow10(k) as real * (t * u);
  }

  lemma RealGap(f: int, t: int, u: int)
    requires 2 * (f * u - t) <= u && 2 * (t - f * u) <= u
    ensures -(u as real) <= 2.0 * (f as real * u as real - t as real) <= u as real
  {
    RealTimes(f, u);
  }

  lemma SmallPower(p: Fp, k: int)
    requires p.exp < 0 && k < 0
    requires 2 * (p.frac * Pow10(-k) - Pow2(-p.exp)) <= Pow10(-k) && 2 * (Pow2(-p.exp) - p.frac * Pow10(-k)) <= Pow10(-k)
    ensures HalfUnit(p, k)
  {
    hide Pow, Pow2, Pow10, HalfUnit, Scale;
    var t, u := Pow2(-p.exp), Pow10(-k);
    Small(p, k);
    RealGap(p.frac, t, u);
    Reciprocals(p.frac as real, t as real, u as real, 1.0 / t as real, 1.0 / u as real);
    HalfUnitIs(p, k);
  }

  lemma Small(p: Fp, k: int)
    requires p.exp < 0 && k < 0
    ensures Pow2(-p.exp) > 0 && Pow10(-k) > 0
    ensures Scale(2, p.exp) == 1.0 / Pow2(-p.exp) as real && Scale(10, k) == 1.0 / Pow10(-k) as real
  {
    PowPositive(2, -p.exp);
    PowPositive(10, -k);
  }

  lemma HalfUnitIs(p: Fp, k: int)
    ensures HalfUnit(p, k) <==>
      -Scale(2, p.exp) <= 2.0 * (p.frac as real * Scale(2, p.exp) - Scale(10, k)) <= Scale(2, p.exp)
  {
  }

  lemma Reciprocals(f: real, t: real, u: real, a: real, b: real)
    requires t > 0.0 && u > 0.0 && a > 0.0 && b > 0.0 && a * t == 1.0 && b * u == 1.0
    requires -u <= 2.0 * (f * u - t) <= u
    ensures -a <= 2.0 * (f * a - b) <= a
  {
    var c, d := a * b, 2.0 * (f * u - t);
    assert u * c == a by { assert u * (a * b) == a * (b * u); }
    assert d * c == 2.0 * (f * a - b) by {
      assert (f * u) * c == f * (u * c);
      assert t * (a * b) == b * (a * t);
      assert (f * u - t) * c == (f * u) * c - t * c;
    }
    TimesMonotone(-u, d, c);
    TimesMonotone(d, u, c);
    assert (-u) * c == -(u * c);
  }

  // ----- The entries -----

  lemma Entries0To4(i: nat)
    requires 0 <= i <= 4
    ensures EntryOk(i)
  {
    hide Pow, HalfUnit, Scale;
    TwoUpTo1220();
    TenUpTo316();
    TenUpTo348();
    if i == 0 { SmallPower(PowerTen(0), FIRST_POWER + STEP_POWERS * 0); }
    if i == 1 { SmallPower(PowerTen(1), FIRST_POWER + STEP_POWERS * 1); }
    if i == 2 { SmallPower(PowerTen(2), FIRST_POWER + STEP_POWERS * 2); }
    if i == 3 { SmallPower(PowerTen(3), FIRST_POWER + STEP_POWERS * 3); }
    if i == 4 { SmallPower(PowerTen(4), FIRST_POWER + STEP_POWERS * 4); }
  }

  lemma Entries5To9(i: nat)
    requires 5 <= i <= 9
    ensures EntryOk(i)
  {
    hide Pow, HalfUnit, Scale;
    TwoUpTo1060();
    TwoUpTo1220();
    TenUpTo316();
    if i == 5 { SmallPower(PowerTen(5), FIRST_POWER + STEP_POWERS * 5); }
    if i == 6 { SmallPower(PowerTen(6), FIRST_POWER + STEP_POWERS * 6); }
    if i == 7 { SmallPower(PowerTen(7), FIRST_POWER + STEP_POWERS * 7); }
    if i == 8 { SmallPower(PowerTen(8), FIRST_POWER + STEP_POWERS * 8); }
    if i == 9 { SmallPower(PowerTen(9), FIRST_POWER + STEP_POWERS * 9); }
  }

  lemma Entries10To14(i: nat)
    requires 10 <= i <= 14
    ensures EntryOk(i)
  {
    hide Pow, HalfUnit, Scale;
    TwoUpTo847();
    TwoUpTo1060();
    TenUpTo252();
    TenUpTo316();
    if i == 10 { SmallPower(PowerTen(10), FIRST_POWER + STEP_POWERS * 10); }
    if i == 11 { SmallPower(PowerTen(11), FIRST_POWER + STEP_POWERS * 11); }
    if i == 12 { SmallPower(PowerTen(12), FIRST_POWER + STEP_POWERS * 12); }
    if i == 13 { SmallPower(PowerTen(13), FIRST_POWER + STEP_POWERS * 13); }
    if i == 14 { SmallPower(PowerTen(14), FIRST_POWER + STEP_POWERS * 14); }
  }

  lemma Entries15To19(i: nat)
    requires 15 <= i <= 19
    ensures EntryOk(i)
  {
    hide Pow, HalfUnit, Scale;
    TwoUpTo847();
    TenUpTo252();
    if i == 15 { SmallPower(PowerTen(15), FIRST_POWER + STEP_POWERS * 15); }
    if i == 16 { SmallPower(PowerTen(16), FIRST_POWER + STEP_POWERS * 16); }
    if i == 17 { SmallPower(PowerTen(17), FIRST_POWER + STEP_POWERS * 17); }
    if i == 18 { SmallPower(PowerTen(18), FIRST_POWER + STEP_POWERS * 18); }
    if i == 19 { SmallPower(PowerTen(19), FIRST_POWER + STEP_POWERS * 19); }
  }

  lemma Entries20To24(i: nat)
    requires 20 <= i <= 24
    ensures EntryOk(i)
  {
    hide Pow, HalfUnit, Scale;
    TwoUpTo635();
    TwoUpTo847();
    TenUpTo188();
    if i == 20 { SmallPower(PowerTen(20), FIRST_POWER + STEP_POWERS * 20); }
    if i == 21 { SmallPower(PowerTen(21), FIRST_POWER + STEP_POWERS * 21); }
    if i == 22 { SmallPower(PowerTen(22), FIRST_POWER + STEP_POWERS * 22); }
    if i == 23 { SmallPower(PowerTen(23), FIRST_POWER + STEP_POWERS * 23); }
    if i == 24 { SmallPower(PowerTen(24), FIRST_POWER + STEP_POWERS * 24); }
  }

  lemma Entries25To29(i: nat)
    requires 25 <= i <= 29
    ensures EntryOk(i)
  {
    hide Pow, HalfUnit, Scale;
    TwoUpTo635();
    TenUpTo124();
    TenUpTo188();
    if i == 25 { SmallPower(PowerTen(25), FIRST_POWER + STEP_POWERS * 25); }
    if i == 26 { SmallPower(PowerTen(26), FIRST_POWER + STEP_POWERS * 26); }
    if i == 27 { SmallPower(PowerTen(27), FIRST_POWER + STEP_POWERS * 27); }
    if i == 28 { SmallPower(PowerTen(28), FIRST_POWER + STEP_POWERS * 28); }
    if i == 29 { SmallPower(PowerTen(29), FIRST_POWER + STEP_POWERS * 29); }
  }

  lemma Entries30To34(i: nat)
    requires 30 <= i <= 34
    ensures EntryOk(i)
  {
    hide Pow, HalfUnit, Scale;
    TwoUpTo422();
    TenUpTo124();
    if i == 30 { SmallPower(PowerTen(30), FIRST_POWER + STEP_POWERS * 30); }
    if i == 31 { SmallPower(PowerTen(31), FIRST_POWER + STEP_POWERS * 31); }
    if i == 32 { SmallPower(PowerTen(32), FIRST_POWER + STEP_POWERS * 32); }
    if i == 33 { SmallPower(PowerTen(33), FIRST_POWER + STEP_POWERS * 33); }
    if i == 34 { SmallPower(PowerTen(34), FIRST_POWER + STEP_POWERS * 34); }
  }

  lemma Entries35To39(i: nat)
    requires 35 <= i <= 39
    ensures EntryOk(i)
  {
    hide Pow, HalfUnit, Scale;
    TwoUpTo210();
    TwoUpTo422();
    TenUpTo60();
    TenUpTo124();
    if i == 35 { SmallPower(PowerTen(35), FIRST_POWER + STEP_POWERS * 35); }
    if i == 36 { SmallPower(PowerTen(36), FIRST_POWER + STEP_POWERS * 36); }
    if i == 37 { SmallPower(PowerTen(37), FIRST_POWER + STEP_POWERS * 37); }
    if i == 38 { SmallPower(PowerTen(38), FIRST_POWER + STEP_POWERS * 38); }
    if i == 39 { SmallPower(PowerTen(39), FIRST_POWER + STEP_POWERS * 39); }
  }

  lemma Entries40To44(i: nat)
    requires 40 <= i <= 44
    ensures EntryOk(i)
  {
    hide Pow, HalfUnit, Scale;
    TwoUpTo210();
    TenUpTo60();
    if i == 40 { SmallPower(PowerTen(40), FIRST_POWER + STEP_POWERS * 40); }
    if i == 41 { SmallPower(PowerTen(41), FIRST_POWER + STEP_POWERS * 41); }
    if i == 42 { SmallPower(PowerTen(42), FIRST_POWER + STEP_POWERS * 42); }
    if i == 43 { SmallPower(PowerTen(43), FIRST_POWER + STEP_POWERS * 43); }
    if i == 44 { MiddlePower(PowerTen(44), FIRST_POWER + STEP_POWERS * 44); }
  }

  lemma Entries45To49(i: nat)
    requires 45 <= i <= 49
    ensures EntryOk(i)
  {
    hide Pow, HalfUnit, Scale;
    TwoUpTo210();
    TwoUpTo189();
    TenUpTo60();
    if i == 45 { MiddlePower(PowerTen(45), FIRST_POWER + STEP_POWERS * 45); }
    if i == 46 { LargePower(PowerTen(46), FIRST_POWER + STEP_POWERS * 46); }
    if i == 47 { LargePower(PowerTen(47), FIRST_POWER + STEP_POWERS * 47); }
    if i == 48 { LargePower(PowerTen(48), FIRST_POWER + STEP_POWERS * 48); }
    if i == 49 { LargePower(PowerTen(49), FIRST_POWER + STEP_POWERS * 49); }
  }

  lemma Entries50To54(i: nat)
    requires 50 <= i <= 54
    ensures EntryOk(i)
  {
    hide Pow, HalfUnit, Scale;
    TwoUpTo189();
    TwoUpTo402();
    TenUpTo60();
    TenUpTo124();
    if i == 50 { LargePower(PowerTen(50), FIRST_POWER + STEP_POWERS * 50); }
    if i == 51 { LargePower(PowerTen(51), FIRST_POWER + STEP_POWERS * 51); }
    if i == 52 { LargePower(PowerTen(52), FIRST_POWER + STEP_POWERS * 52); }
    if i == 53 { LargePower(PowerTen(53), FIRST_POWER + STEP_POWERS * 53); }
    if i == 54 { LargePower(PowerTen(54), FIRST_POWER + STEP_POWERS * 54); }
  }

  lemma Entries55To59(i: nat)
    requires 55 <= i <= 59
    ensures EntryOk(i)
  {
    hide Pow, HalfUnit, Scale;
    TwoUpTo402();
    TenUpTo124();
    if i == 55 { LargePower(PowerTen(55), FIRST_POWER + STEP_POWERS * 55); }
    if i == 56 { LargePower(PowerTen(56), FIRST_POWER + STEP_POWERS * 56); }
    if i == 57 { LargePower(PowerTen(57), FIRST_POWER + STEP_POWERS * 57); }
    if i == 58 { LargePower(PowerTen(58), FIRST_POWER + STEP_POWERS * 58); }
    if i == 59 { LargePower(PowerTen(59), FIRST_POWER + STEP_POWERS * 59); }
  }

  lemma Entries60To64(i: nat)
    requires 60 <= i <= 64
    ensures EntryOk(i)
  {
    hide Pow, HalfUnit, Scale;
    TwoUpTo402();
    TwoUpTo614();
    TenUpTo188();
    if i == 60 { LargePower(PowerTen(60), FIRST_POWER + STEP_POWERS * 60); }
    if i == 61 { LargePower(PowerTen(61), FIRST_POWER + STEP_POWERS * 61); }
    if i == 62 { LargePower(PowerTen(62), FIRST_POWER + STEP_POWERS * 62); }
    if i == 63 { LargePower(PowerTen(63), FIRST_POWER + STEP_POWERS * 63); }
    if i == 64 { LargePower(PowerTen(64), FIRST_POWER + STEP_POWERS * 64); }
  }

  lemma Entries65To69(i: nat)
    requires 65 <= i <= 69
    ensures EntryOk(i)
  {
    hide Pow, HalfUnit, Scale;
    TwoUpTo614();
    TenUpTo188();
    TenUpTo252();
    if i == 65 { LargePower(PowerTen(65), FIRST_POWER + STEP_POWERS * 65); }
    if i == 66 { LargePower(PowerTen(66), FIRST_POWER + STEP_POWERS * 66); }
    if i == 67 { LargePower(PowerTen(67), FIRST_POWER + STEP_POWERS * 67); }
    if i == 68 { LargePower(PowerTen(68), FIRST_POWER + STEP_POWERS * 68); }
    if i == 69 { LargePower(PowerTen(69), FIRST_POWER + STEP_POWERS * 69); }
  }

  lemma Entries70To74(i: nat)
    requires 70 <= i <= 74
    ensures EntryOk(i)
  {
    hide Pow, HalfUnit, Scale;
    TwoUpTo827();
    TenUpTo252();
    if i == 70 { LargePower(PowerTen(70), FIRST_POWER + STEP_POWERS * 70); }
    if i == 71 { LargePower(PowerTen(71), FIRST_POWER + STEP_POWERS * 71); }
    if i == 72 { LargePower(PowerTen(72), FIRST_POWER + STEP_POWERS * 72); }
    if i == 73 { LargePower(PowerTen(73), FIRST_POWER + STEP_POWERS * 73); }
    if i == 74 { LargePower(PowerTen(74), FIRST_POWER + STEP_POWERS * 74); }
  }

  lemma Entries75To79(i: nat)
    requires 75 <= i <= 79
    ensures EntryOk(i)
  {
    hide Pow, HalfUnit, Scale;
    TwoUpTo827();
    TwoUpTo1039();
    TenUpTo252();
    TenUpTo316();
    if i == 75 { LargePower(PowerTen(75), FIRST_POWER + STEP_POWERS * 75); }
    if i == 76 { LargePower(PowerTen(76), FIRST_POWER + STEP_POWERS * 76); }
    if i == 77 { LargePower(PowerTen(77), FIRST_POWER + STEP_POWERS * 77); }
    if i == 78 { LargePower(PowerTen(78), FIRST_POWER + STEP_POWERS * 78); }
    if i == 79 { LargePower(PowerTen(79), FIRST_POWER + STEP_POWERS * 79); }
  }

  lemma Entries80To84(i: nat)
    requires 80 <= i <= 84
    ensures EntryOk(i)
  {
    hide Pow, HalfUnit, Scale;
    TwoUpTo1039();
    TenUpTo316();
    TenUpTo348();
    if i == 80 { LargePower(PowerTen(80), FIRST_POWER + STEP_POWERS * 80); }
    if i == 81 { LargePower(PowerTen(81), FIRST_POWER + STEP_POWERS * 81); }
    if i == 82 { LargePower(PowerTen(82), FIRST_POWER + STEP_POWERS * 82); }
    if i == 83 { LargePower(PowerTen(83), FIRST_POWER + STEP_POWERS * 83); }
    if i == 84 { LargePower(PowerTen(84), FIRST_POWER + STEP_POWERS * 84); }
  }

  lemma Entries85To86(i: nat)
    requires 85 <= i <= 86
    ensures EntryOk(i)
  {
    hide Pow, HalfUnit, Scale;
    TwoUpTo1039();
    TwoUpTo1066();
    TenUpTo348();
    if i == 85 { LargePower(PowerTen(85), FIRST_POWER + STEP_POWERS * 85); }
    if i == 86 { LargePower(PowerTen(86), FIRST_POWER + STEP_POWERS * 86); }
  }

  /** Every entry of the table is accurate to half a unit, and neighbours are 26 or 27 binary places apart. */
  lemma TableIsAccurate(i: nat)
    requires i < N_POWERS
    ensures EntryOk(i)
  {
    hide EntryOk;
    if i <= 4 {
      Entries0To4(i);
    } else if i <= 9 {
      Entries5To9(i);
    } else if i <= 14 {
      Entries10To14(i);
    } else if i <= 19 {
      Entries15To19(i);
    } else if i <= 24 {
      Entries20To24(i);
    } else if i <= 29 {
      Entries25To29(i);
    } else if i <= 34 {
      Entries30To34(i);
    } else if i <= 39 {
      Entries35To39(i);
    } else if i <= 44 {
      Entries40To44(i);
    } else if i <= 49 {
      Entries45To49(i);
    } else if i <= 54 {
      Entries50To54(i);
    } else if i <= 59 {
      Entries55To59(i);
    } else if i <= 64 {
      Entries60To64(i);
    } else if i <= 69 {
      Entries65To69(i);
    } else if i <= 74 {
      Entries70To74(i);
    } else if i <= 79 {
      Entries75To79(i);
    } else if i <= 84 {
      Entries80To84(i);
    } else {
      Entries85To86(i);
    }
  }
}
