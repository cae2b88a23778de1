/** The capacity table of qrcode/qrspec.c:55-98 and what is read from it. */
module QrCapacity {

  /** QRecLevel */
  datatype Level = L | M | Q | H

  const VERSION_MAX := 40

  /** Codewords of a symbol. */
  function Words(version: nat): nat {
    match version
    case 1 => 26 case 2 => 44 case 3 => 70 case 4 => 100 case 5 => 134 case 6 => 172 case 7 => 196
    case 8 => 242 case 9 => 292 case 10 => 346 case 11 => 404 case 12 => 466 case 13 => 532 case 14 => 581
    case 15 => 655 case 16 => 733 case 17 => 815 case 18 => 901 case 19 => 991 case 20 => 1085 case 21 => 1156
    case 22 => 1258 case 23 => 1364 case 24 => 1474 case 25 => 1588 case 26 => 1706 case 27 => 1828
    case 28 => 1921 case 29 => 2051 case 30 => 2185 case 31 => 2323 case 32 => 2465 case 33 => 2611
    case 34 => 2761 case 35 => 2876 case 36 => 3034 case 37 => 3196 case 38 => 3362 case 39 => 3532
    case 40 => 3706
    case _ => 0
  }

  function EccLow(version: nat): nat {
    match version
    case 1 => 7 case 2 => 10 case 3 => 15 case 4 => 20 case 5 => 26 case 6 => 36 case 7 => 40 case 8 => 48
    case 9 => 60 case 10 => 72 case 11 => 80 case 12 => 96 case 13 => 104 case 14 => 120 case 15 => 132
    case 16 => 144 case 17 => 168 case 18 => 180 case 19 => 196 case 20 => 224 case 21 => 224 case 22 => 252
    case 23 => 270 case 24 => 300 case 25 => 312 case 26 => 336 case 27 => 360 case 28 => 390 case 29 => 420
    case 30 => 450 case 31 => 480 case 32 => 510 case 33 => 540 case 34 => 570 case 35 => 570 case 36 => 600
    case 37 => 630 case 38 => 660 case 39 => 720 case 40 => 750
    case _ => 0
  }

  function EccMedium(version: nat): nat {
    match version
    case 1 => 10 case 2 => 16 case 3 => 26 case 4 => 36 case 5 => 48 case 6 => 64 case 7 => 72 case 8 => 88
    case 9 => 110 case 10 => 130 case 11 => 150 case 12 => 176 case 13 => 198 case 14 => 216 case 15 => 240
    case 16 => 280 case 17 => 308 case 18 => 338 case 19 => 364 case 20 => 416 case 21 => 442 case 22 => 476
    case 23 => 504 case 24 => 560 case 25 => 588 case 26 => 644 case 27 => 700 case 28 => 728 case 29 => 784
    case 30 => 812 case 31 => 868 case 32 => 924 case 33 => 980 case 34 => 1036 case 35 => 1064
    case 36 => 1120 case 37 => 1204 case 38 => 1260 case 39 => 1316 case 40 => 1372
    case _ => 0
  }

  function EccQuartile(version: nat): nat {
    match version
    case 1 => 13 case 2 => 22 case 3 => 36 case 4 => 52 case 5 => 72 case 6 => 96 case 7 => 108 case 8 => 132
    case 9 => 160 case 10 => 192 case 11 => 224 case 12 => 260 case 13 => 288 case 14 => 320 case 15 => 360
    case 16 => 408 case 17 => 448 case 18 => 504 case 19 => 546 case 20 => 600 case 21 => 644 case 22 => 690
    case 23 => 750 case 24 => 810 case 25 => 870 case 26 => 952 case 27 => 1020 case 28 => 1050
    case 29 => 1140 case 30 => 1200 case 31 => 1290 case 32 => 1350 case 33 => 1440 case 34 => 1530
    case 35 => 1590 case 36 => 1680 case 37 => 1770 case 38 => 1860 case 39 => 1950 case 40 => 2040
    case _ => 0
  }

  function EccHigh(version: nat): nat {
    match version
    case 1 => 17 case 2 => 28 case 3 => 44 case 4 => 64 case 5 => 88 case 6 => 112 case 7 => 130 case 8 => 156
    case 9 => 192 case 10 => 224 case 11 => 264 case 12 => 308 case 13 => 352 case 14 => 384 case 15 => 432
    case 16 => 480 case 17 => 532 case 18 => 588 case 19 => 650 case 20 => 700 case 21 => 750 case 22 => 816
    case 23 => 900 case 24 => 960 case 25 => 1050 case 26 => 1110 case 27 => 1200 case 28 => 1260
    case 29 => 1350 case 30 => 1440 case 31 => 1530 case 32 => 1620 case 33 => 1710 case 34 => 1800
    case 35 => 1890 case 36 => 1980 case 37 => 2100 case 38 => 2220 case 39 => 2310 case 40 => 2430
    case _ => 0
  }

  /** QRspec_getECCLength */
  function EccLength(version: nat, level: Level): nat {
    match level
    case L => EccLow(version)
    case M => EccMedium(version)
    case Q => EccQuartile(version)
    case H => EccHigh(version)
  }

  lemma EccFits(version: nat, level: Level)
    ensures EccLength(version, level) <= Words(version)
  {
  }

  /** QRspec_getDataLength */
  function DataLength(version: nat, level: Level): nat {
    EccFits(version, level);
    Words(version) - EccLength(version, level)
  }

  /** A higher version holds at least as much. */
  lemma DataGrowsOne(version: nat, level: Level)
    requires 1 <= version < VERSION_MAX
    ensures DataLength(version, level) <= DataLength(version + 1, level)
  {
  }

  lemma {:induction false} DataGrows(u: nat, v: nat, level: Level)
    requires 1 <= u <= v <= VERSION_MAX
    ensures DataLength(u, level) <= DataLength(v, level)
    decreases v
  {
    hide DataLength;
    if u < v {
      DataGrows(u, v - 1, level);
      DataGrowsOne(v - 1, level);
    }
  }

  /** The largest symbols of each range of versions, and the smallest symbol. */
  lemma Extremes(level: Level)
    ensures DataLength(9, level) <= 232 && DataLength(26, level) <= 1370 && DataLength(40, level) <= 2956
    ensures DataLength(1, level) >= 9
  {
  }

  /** QRspec_getMinimumVersion */
  function MinimumVersion(size: nat, level: Level): (v: nat)
    ensures 1 <= v <= VERSION_MAX
    ensures v < VERSION_MAX ==> size <= DataLength(v, level)
    ensures forall u :: 1 <= u < v ==> DataLength(u, level) < size
  {
    FirstVersion(1, size, level)
  }

  function FirstVersion(from: nat, size: nat, level: Level): (v: nat)
    requires 1 <= from <= VERSION_MAX
    ensures from <= v <= VERSION_MAX
    ensures v < VERSION_MAX ==> size <= DataLength(v, level)
    ensures forall u :: from <= u < v ==> DataLength(u, level) < size
    decreases VERSION_MAX - from
  {
    if from == VERSION_MAX || size <= DataLength(from, level) then from else FirstVersion(from + 1, size, level)
  }

  /** The loop of QRspec_getMinimumVersion. */
  method GetMinimumVersion(size: nat, level: Level) returns (v: nat)
    ensures v == MinimumVersion(size, level)
  {
    hide DataLength;
    for i := 1 to VERSION_MAX + 1
      invariant i <= VERSION_MAX ==> MinimumVersion(size, level) == FirstVersion(i, size, level)
      invariant i == VERSION_MAX + 1 ==> MinimumVersion(size, level) == VERSION_MAX
    {
      if DataLength(i, level) >= size {
        return i;
      }
    }
    v := VERSION_MAX;
  }
}
