/** The wheel of trial divisors: increments packed three bits each, unpacked once, that visit 2, 3, 5, 7, 11 and
    then every number from 13 up that has no divisor among these. */
module Wheel {
  import opened Bits

  const WHEEL_START: nat := 5
  const WHEEL_SIZE: nat := 485
  const TURN: nat := 2310

  /** n is a multiple of one of the odd primes that the wheel leaves out. */
  predicate Sieved(n: nat) {
    n % 3 == 0 || n % 5 == 0 || n % 7 == 0 || n % 11 == 0
  }

  /** From the odd number a, all odd numbers strictly between a and a + g are sieved out. */
  predicate GapOk(a: nat, g: nat) {
    && a % 2 == 1 && g <= 14
    && (g > 2 ==> Sieved(a + 2)) && (g > 4 ==> Sieved(a + 4)) && (g > 6 ==> Sieved(a + 6))
    && (g > 8 ==> Sieved(a + 8)) && (g > 10 ==> Sieved(a + 10)) && (g > 12 ==> Sieved(a + 12))
  }

  lemma {:induction false} GapSieved(a: nat, g: nat, i: nat)
    requires GapOk(a, g) && 1 <= i < g
    ensures (a + i) % 2 == 0 || Sieved(a + i)
  {
    hide Sieved;
    if i % 2 == 0 {
      assert i == 2 || i == 4 || i == 6 || i == 8 || i == 10 || i == 12;
    }
  }

  // --- Packing ---

  /** An increment that fits a three-bit field. */
  predicate Packable(x: nat) {
    x % 2 == 0 && 2 <= x <= 14
  }

  ghost predicate AllPackable(l: seq<nat>) {
    forall i :: 0 <= i < |l| ==> Packable(l[i])
  }

  /** The halves of the increments, three bits each, one bit up. */
  function Packed(l: seq<nat>): nat {
    if l == [] then 0 else l[0] + 8 * Packed(l[1..])
  }

  /** v & 0xe. */
  function Field(v: nat): nat {
    2 * (v / 2 % 8)
  }

  lemma {:induction false} PackedEven(l: seq<nat>)
    requires AllPackable(l)
    ensures Packed(l) % 2 == 0
  {
    if l != [] {
      PackedEven(l[1..]);
    }
  }

  /** The lowest field is the first increment; shifting by three leaves the rest, and maybe a stray lowest bit. */
  lemma {:induction false} FieldOut(l: seq<nat>, v: nat)
    requires AllPackable(l) && Packed(l) <= v <= Packed(l) + 1
    ensures (Field(v) == if l == [] then 0 else l[0]) && (l != [] ==> Field(v) >= 2)
    ensures l != [] ==> Packed(l[1..]) <= v / 8 <= Packed(l[1..]) + 1
  {
    if l != [] {
      assert Packable(l[0]);
      PackedEven(l[1..]);
      LowField8(l[0], Packed(l[1..]), v - Packed(l));
    }
  }

  lemma {:induction false} LowField8(x: nat, rest: nat, c: nat)
    requires Packable(x) && rest % 2 == 0 && c <= 1
    ensures Field(x + 8 * rest + c) == x && rest <= (x + 8 * rest + c) / 8 <= rest + 1
  {
    var h := rest / 2;
    assert x + 8 * rest + c == x + 16 * h + c;
    assert (x + 16 * h + c) / 2 == x / 2 + 8 * h;
  }

  // --- Rows ---

  /** Starting at a, each increment of the row skips sieved numbers only. */
  predicate RowOk(a: nat, row: seq<nat>)
    decreases |row|
  {
    row == [] || (GapOk(a, row[0]) && RowOk(a + row[0], row[1..]))
  }

  function Total(row: seq<nat>): nat {
    if row == [] then 0 else row[0] + Total(row[1..])
  }

  predicate Step(a: nat, g: nat) {
    Packable(g) && GapOk(a, g)
  }

  lemma {:induction false} RowCons(a: nat, g: nat, row: seq<nat>)
    requires Step(a, g) && RowOk(a + g, row) && AllPackable(row)
    ensures RowOk(a, [g] + row) && AllPackable([g] + row) && Total([g] + row) == g + Total(row)
  {
    assert ([g] + row)[1..] == row;
  }

  /** Five increments in a row, each with the number it starts from. */
  lemma {:induction false} FiveOk(s: nat, a: nat, t: nat, b: nat, u: nat, c: nat, v: nat, d: nat, w: nat, e: nat)
    requires Step(s, a) && Step(t, b) && Step(u, c) && Step(v, d) && Step(w, e)
    requires t == s + a && u == t + b && v == u + c && w == v + d
    ensures RowOk(s, [a, b, c, d, e]) && AllPackable([a, b, c, d, e]) && Total([a, b, c, d, e]) == a + b + c + d + e
  {
    hide GapOk, Packable;
    RowCons(w, e, []);
    assert [e] + [] == [e];
    RowCons(v, d, [e]);
    assert [d] + [e] == [d, e];
    RowCons(u, c, [d, e]);
    assert [c] + [d, e] == [c, d, e];
    RowCons(t, b, [c, d, e]);
    assert [b] + [c, d, e] == [b, c, d, e];
    RowCons(s, a, [b, c, d, e]);
    assert [a] + [b, c, d, e] == [a, b, c, d, e];
  }

  lemma {:induction false} RowConcat(a: nat, p: seq<nat>, q: seq<nat>)
    requires RowOk(a, p) && RowOk(a + Total(p), q) && AllPackable(p) && AllPackable(q)
    ensures RowOk(a, p + q) && AllPackable(p + q) && Total(p + q) == Total(p) + Total(q)
    decreases |p|
  {
    if p == [] {
      assert p + q == q;
    } else {
      assert (p + q)[1..] == p[1..] + q;
      RowConcat(a + p[0], p[1..], q);
    }
  }

  /** The increments of each packed word, in groups of five. */
  const WORD_01: seq<nat> := [4, 2, 4, 6, 2] + [6, 4, 2, 4, 6] + [6, 2, 6, 4, 2] + [6, 4, 6, 8, 4]
  const WORD_02: seq<nat> := [2, 4, 2, 4, 14] + [4, 6, 2, 10, 2] + [6, 6, 4, 2, 4] + [6, 2, 10, 2, 4]
  const WORD_03: seq<nat> := [2, 12, 10, 2, 4] + [2, 4, 6, 2, 6] + [4, 6, 6, 6, 2] + [6, 4, 2, 6, 4]
  const WORD_04: seq<nat> := [6, 8, 4, 2, 4] + [6, 8, 6, 10, 2] + [4, 6, 2, 6, 6] + [4, 2, 4, 6, 2]
  const WORD_05: seq<nat> := [6, 4, 2, 6, 10] + [2, 10, 2, 4, 2] + [4, 6, 8, 4, 2] + [4, 12, 2, 6, 4]
  const WORD_06: seq<nat> := [2, 6, 4, 6, 12] + [2, 4, 2, 4, 8] + [6, 4, 6, 2, 4] + [6, 2, 6, 10, 2]
  const WORD_07: seq<nat> := [4, 6, 2, 6, 4] + [2, 4, 2, 10, 2] + [10, 2, 4, 6, 6] + [2, 6, 6, 4, 6]
  const WORD_08: seq<nat> := [6, 2, 6, 4, 2] + [6, 4, 6, 8, 4] + [2, 6, 4, 8, 6] + [4, 6, 2, 4, 6]
  const WORD_09: seq<nat> := [8, 6, 4, 2, 10] + [2, 6, 4, 2, 4] + [2, 10, 2, 10, 2] + [4, 2, 4, 8, 6]
  const WORD_10: seq<nat> := [4, 2, 4, 6, 6] + [2, 6, 4, 8, 4] + [6, 8, 4, 2, 4] + [2, 4, 8, 6, 4]
  const WORD_11: seq<nat> := [6, 6, 6, 2, 6] + [6, 4, 2, 4, 6] + [2, 6, 4, 2, 4] + [2, 10, 2, 10, 2]
  const WORD_12: seq<nat> := [6, 4, 6, 2, 6] + [4, 2, 4, 6, 6] + [8, 4, 2, 6, 10] + [8, 4, 2, 4, 2]
  const WORD_13: seq<nat> := [4, 8, 10, 6, 2] + [4, 8, 6, 6, 4] + [2, 4, 6, 2, 6] + [4, 6, 2, 10, 2]
  const WORD_14: seq<nat> := [10, 2, 4, 2, 4] + [6, 2, 6, 4, 2] + [4, 6, 6, 2, 6] + [6, 6, 4, 6, 8]
  const WORD_15: seq<nat> := [4, 2, 4, 2, 4] + [8, 6, 4, 8, 4] + [6, 2, 6, 6, 4] + [2, 4, 6, 8, 4]
  const WORD_16: seq<nat> := [2, 4, 2, 10, 2] + [10, 2, 4, 2, 4] + [6, 2, 10, 2, 4] + [6, 8, 6, 4, 2]
  const WORD_17: seq<nat> := [6, 4, 6, 8, 4] + [6, 2, 4, 8, 6] + [4, 6, 2, 4, 6] + [2, 6, 6, 4, 6]
  const WORD_18: seq<nat> := [6, 2, 6, 6, 4] + [2, 10, 2, 10, 2] + [4, 2, 4, 6, 2] + [6, 4, 2, 10, 6]
  const WORD_19: seq<nat> := [2, 6, 4, 2, 6] + [4, 6, 8, 4, 2] + [4, 2, 12, 6, 4] + [6, 2, 4, 6, 2]
  const WORD_20: seq<nat> := [12, 4, 2, 4, 8] + [6, 4, 2, 4, 2] + [10, 2, 10, 6, 2] + [4, 6, 2, 6, 4]
  const WORD_21: seq<nat> := [2, 4, 6, 6, 2] + [6, 4, 2, 10, 6] + [8, 6, 4, 2, 4] + [8, 6, 4, 6, 2]
  const WORD_22: seq<nat> := [4, 6, 2, 6, 6] + [6, 4, 6, 2, 6] + [4, 2, 4, 2, 10] + [12, 2, 4, 2, 10]
  const WORD_23: seq<nat> := [2, 6, 4, 2, 4] + [6, 6, 2, 10, 2] + [6, 4, 14, 4, 2] + [4, 2, 4, 8, 6]
  const WORD_24: seq<nat> := [4, 6, 2, 4, 6] + [2, 6, 6, 4, 2] + [4, 6, 2, 6, 4] + [2, 4, 12, 2, 12]

  const WORDS: seq<seq<nat>> := [
    WORD_01, WORD_02, WORD_03, WORD_04, WORD_05, WORD_06, WORD_07, WORD_08,
    WORD_09, WORD_10, WORD_11, WORD_12, WORD_13, WORD_14, WORD_15, WORD_16,
    WORD_17, WORD_18, WORD_19, WORD_20, WORD_21, WORD_22, WORD_23, WORD_24
  ]

  /** A word of four groups. */
  lemma {:induction false} WordOk(s: nat, p: seq<nat>, q: seq<nat>, r: seq<nat>, t: seq<nat>)
    requires RowOk(s, p) && AllPackable(p) && RowOk(s + Total(p), q) && AllPackable(q)
    requires RowOk(s + Total(p) + Total(q), r) && AllPackable(r)
    requires RowOk(s + Total(p) + Total(q) + Total(r), t) && AllPackable(t)
    ensures RowOk(s, p + q + r + t) && AllPackable(p + q + r + t)
    ensures Total(p + q + r + t) == Total(p) + Total(q) + Total(r) + Total(t)
  {
    hide RowOk, AllPackable, Total;
    RowConcat(s, p, q);
    RowConcat(s, p + q, r);
    RowConcat(s, p + q + r, t);
  }

  /** What is claimed of each word: it has 20 fields, skips sieved numbers only, and ends where the next starts. */
  ghost predicate WordClaim(word: seq<nat>, start: nat, end: nat) {
    |word| == 20 && AllPackable(word) && RowOk(start, word) && start + Total(word) == end
  }

  lemma {:induction false} Word01()
    ensures WordClaim(WORD_01, 13, 101)
  {
    hide RowOk, AllPackable, Total;
    FiveOk(13, 4,  17, 2,  19, 4,  23, 6,  29, 2);
    FiveOk(31, 6,  37, 4,  41, 2,  43, 4,  47, 6);
    FiveOk(53, 6,  59, 2,  61, 6,  67, 4,  71, 2);
    FiveOk(73, 6,  79, 4,  83, 6,  89, 8,  97, 4);
    WordOk(13, [4, 2, 4, 6, 2], [6, 4, 2, 4, 6], [6, 2, 6, 4, 2], [6, 4, 6, 8, 4]);
  }

  lemma {:induction false} Word02()
    ensures WordClaim(WORD_02, 101, 197)
  {
    hide RowOk, AllPackable, Total;
    FiveOk(101, 2,  103, 4,  107, 2,  109, 4,  113, 14);
    FiveOk(127, 4,  131, 6,  137, 2,  139, 10,  149, 2);
    FiveOk(151, 6,  157, 6,  163, 4,  167, 2,  169, 4);
    FiveOk(173, 6,  179, 2,  181, 10,  191, 2,  193, 4);
    WordOk(101, [2, 4, 2, 4, 14], [4, 6, 2, 10, 2], [6, 6, 4, 2, 4], [6, 2, 10, 2, 4]);
  }

  lemma {:induction false} Word03()
    ensures WordClaim(WORD_03, 197, 293)
  {
    hide RowOk, AllPackable, Total;
    FiveOk(197, 2,  199, 12,  211, 10,  221, 2,  223, 4);
    FiveOk(227, 2,  229, 4,  233, 6,  239, 2,  241, 6);
    FiveOk(247, 4,  251, 6,  257, 6,  263, 6,  269, 2);
    FiveOk(271, 6,  277, 4,  281, 2,  283, 6,  289, 4);
    WordOk(197, [2, 12, 10, 2, 4], [2, 4, 6, 2, 6], [4, 6, 6, 6, 2], [6, 4, 2, 6, 4]);
  }

  lemma {:induction false} Word04()
    ensures WordClaim(WORD_04, 293, 391)
  {
    hide RowOk, AllPackable, Total;
    FiveOk(293, 6,  299, 8,  307, 4,  311, 2,  313, 4);
    FiveOk(317, 6,  323, 8,  331, 6,  337, 10,  347, 2);
    FiveOk(349, 4,  353, 6,  359, 2,  361, 6,  367, 6);
    FiveOk(373, 4,  377, 2,  379, 4,  383, 6,  389, 2);
    WordOk(293, [6, 8, 4, 2, 4], [6, 8, 6, 10, 2], [4, 6, 2, 6, 6], [4, 2, 4, 6, 2]);
  }

  lemma {:induction false} Word05()
    ensures WordClaim(WORD_05, 391, 491)
  {
    hide RowOk, AllPackable, Total;
    FiveOk(391, 6,  397, 4,  401, 2,  403, 6,  409, 10);
    FiveOk(419, 2,  421, 10,  431, 2,  433, 4,  437, 2);
    FiveOk(439, 4,  443, 6,  449, 8,  457, 4,  461, 2);
    FiveOk(463, 4,  467, 12,  479, 2,  481, 6,  487, 4);
    WordOk(391, [6, 4, 2, 6, 10], [2, 10, 2, 4, 2], [4, 6, 8, 4, 2], [4, 12, 2, 6, 4]);
  }

  lemma {:induction false} Word06()
    ensures WordClaim(WORD_06, 491, 589)
  {
    hide RowOk, AllPackable, Total;
    FiveOk(491, 2,  493, 6,  499, 4,  503, 6,  509, 12);
    FiveOk(521, 2,  523, 4,  527, 2,  529, 4,  533, 8);
    FiveOk(541, 6,  547, 4,  551, 6,  557, 2,  559, 4);
    FiveOk(563, 6,  569, 2,  571, 6,  577, 10,  587, 2);
    WordOk(491, [2, 6, 4, 6, 12], [2, 4, 2, 4, 8], [6, 4, 6, 2, 4], [6, 2, 6, 10, 2]);
  }

  lemma {:induction false} Word07()
    ensures WordClaim(WORD_07, 589, 683)
  {
    hide RowOk, AllPackable, Total;
    FiveOk(589, 4,  593, 6,  599, 2,  601, 6,  607, 4);
    FiveOk(611, 2,  613, 4,  617, 2,  619, 10,  629, 2);
    FiveOk(631, 10,  641, 2,  643, 4,  647, 6,  653, 6);
    FiveOk(659, 2,  661, 6,  667, 6,  673, 4,  677, 6);
    WordOk(589, [4, 6, 2, 6, 4], [2, 4, 2, 10, 2], [10, 2, 4, 6, 6], [2, 6, 6, 4, 6]);
  }

  lemma {:induction false} Word08()
    ensures WordClaim(WORD_08, 683, 779)
  {
    hide RowOk, AllPackable, Total;
    FiveOk(683, 6,  689, 2,  691, 6,  697, 4,  701, 2);
    FiveOk(703, 6,  709, 4,  713, 6,  719, 8,  727, 4);
    FiveOk(731, 2,  733, 6,  739, 4,  743, 8,  751, 6);
    FiveOk(757, 4,  761, 6,  767, 2,  769, 4,  773, 6);
    WordOk(683, [6, 2, 6, 4, 2], [6, 4, 6, 8, 4], [2, 6, 4, 8, 6], [4, 6, 2, 4, 6]);
  }

  lemma {:induction false} Word09()
    ensures WordClaim(WORD_09, 779, 877)
  {
    hide RowOk, AllPackable, Total;
    FiveOk(779, 8,  787, 6,  793, 4,  797, 2,  799, 10);
    FiveOk(809, 2,  811, 6,  817, 4,  821, 2,  823, 4);
    FiveOk(827, 2,  829, 10,  839, 2,  841, 10,  851, 2);
    FiveOk(853, 4,  857, 2,  859, 4,  863, 8,  871, 6);
    WordOk(779, [8, 6, 4, 2, 10], [2, 6, 4, 2, 4], [2, 10, 2, 10, 2], [4, 2, 4, 8, 6]);
  }

  lemma {:induction false} Word10()
    ensures WordClaim(WORD_10, 877, 971)
  {
    hide RowOk, AllPackable, Total;
    FiveOk(877, 4,  881, 2,  883, 4,  887, 6,  893, 6);
    FiveOk(899, 2,  901, 6,  907, 4,  911, 8,  919, 4);
    FiveOk(923, 6,  929, 8,  937, 4,  941, 2,  943, 4);
    FiveOk(947, 2,  949, 4,  953, 8,  961, 6,  967, 4);
    WordOk(877, [4, 2, 4, 6, 6], [2, 6, 4, 8, 4], [6, 8, 4, 2, 4], [2, 4, 8, 6, 4]);
  }

  lemma {:induction false} Word11()
    ensures WordClaim(WORD_11, 971, 1063)
  {
    hide RowOk, AllPackable, Total;
    FiveOk(971, 6,  977, 6,  983, 6,  989, 2,  991, 6);
    FiveOk(997, 6,  1003, 4,  1007, 2,  1009, 4,  1013, 6);
    FiveOk(1019, 2,  1021, 6,  1027, 4,  1031, 2,  1033, 4);
    FiveOk(1037, 2,  1039, 10,  1049, 2,  1051, 10,  1061, 2);
    WordOk(971, [6, 6, 6, 2, 6], [6, 4, 2, 4, 6], [2, 6, 4, 2, 4], [2, 10, 2, 10, 2]);
  }

  lemma {:induction false} Word12()
    ensures WordClaim(WORD_12, 1063, 1159)
  {
    hide RowOk, AllPackable, Total;
    FiveOk(1063, 6,  1069, 4,  1073, 6,  1079, 2,  1081, 6);
    FiveOk(1087, 4,  1091, 2,  1093, 4,  1097, 6,  1103, 6);
    FiveOk(1109, 8,  1117, 4,  1121, 2,  1123, 6,  1129, 10);
    FiveOk(1139, 8,  1147, 4,  1151, 2,  1153, 4,  1157, 2);
    WordOk(1063, [6, 4, 6, 2, 6], [4, 2, 4, 6, 6], [8, 4, 2, 6, 10], [8, 4, 2, 4, 2]);
  }

  lemma {:induction false} Word13()
    ensures WordClaim(WORD_13, 1159, 1261)
  {
    hide RowOk, AllPackable, Total;
    FiveOk(1159, 4,  1163, 8,  1171, 10,  1181, 6,  1187, 2);
    FiveOk(1189, 4,  1193, 8,  1201, 6,  1207, 6,  1213, 4);
    FiveOk(1217, 2,  1219, 4,  1223, 6,  1229, 2,  1231, 6);
    FiveOk(1237, 4,  1241, 6,  1247, 2,  1249, 10,  1259, 2);
    WordOk(1159, [4, 8, 10, 6, 2], [4, 8, 6, 6, 4], [2, 4, 6, 2, 6], [4, 6, 2, 10, 2]);
  }

  lemma {:induction false} Word14()
    ensures WordClaim(WORD_14, 1261, 1357)
  {
    hide RowOk, AllPackable, Total;
    FiveOk(1261, 10,  1271, 2,  1273, 4,  1277, 2,  1279, 4);
    FiveOk(1283, 6,  1289, 2,  1291, 6,  1297, 4,  1301, 2);
    FiveOk(1303, 4,  1307, 6,  1313, 6,  1319, 2,  1321, 6);
    FiveOk(1327, 6,  1333, 6,  1339, 4,  1343, 6,  1349, 8);
    WordOk(1261, [10, 2, 4, 2, 4], [6, 2, 6, 4, 2], [4, 6, 6, 2, 6], [6, 6, 4, 6, 8]);
  }

  lemma {:induction false} Word15()
    ensures WordClaim(WORD_15, 1357, 1451)
  {
    hide RowOk, AllPackable, Total;
    FiveOk(1357, 4,  1361, 2,  1363, 4,  1367, 2,  1369, 4);
    FiveOk(1373, 8,  1381, 6,  1387, 4,  1391, 8,  1399, 4);
    FiveOk(1403, 6,  1409, 2,  1411, 6,  1417, 6,  1423, 4);
    FiveOk(1427, 2,  1429, 4,  1433, 6,  1439, 8,  1447, 4);
    WordOk(1357, [4, 2, 4, 2, 4], [8, 6, 4, 8, 4], [6, 2, 6, 6, 4], [2, 4, 6, 8, 4]);
  }

  lemma {:induction false} Word16()
    ensures WordClaim(WORD_16, 1451, 1543)
  {
    hide RowOk, AllPackable, Total;
    FiveOk(1451, 2,  1453, 4,  1457, 2,  1459, 10,  1469, 2);
    FiveOk(1471, 10,  1481, 2,  1483, 4,  1487, 2,  1489, 4);
    FiveOk(1493, 6,  1499, 2,  1501, 10,  1511, 2,  1513, 4);
    FiveOk(1517, 6,  1523, 8,  1531, 6,  1537, 4,  1541, 2);
    WordOk(1451, [2, 4, 2, 10, 2], [10, 2, 4, 2, 4], [6, 2, 10, 2, 4], [6, 8, 6, 4, 2]);
  }

  lemma {:induction false} Word17()
    ensures WordClaim(WORD_17, 1543, 1643)
  {
    hide RowOk, AllPackable, Total;
    FiveOk(1543, 6,  1549, 4,  1553, 6,  1559, 8,  1567, 4);
    FiveOk(1571, 6,  1577, 2,  1579, 4,  1583, 8,  1591, 6);
    FiveOk(1597, 4,  1601, 6,  1607, 2,  1609, 4,  1613, 6);
    FiveOk(1619, 2,  1621, 6,  1627, 6,  1633, 4,  1637, 6);
    WordOk(1543, [6, 4, 6, 8, 4], [6, 2, 4, 8, 6], [4, 6, 2, 4, 6], [2, 6, 6, 4, 6]);
  }

  lemma {:induction false} Word18()
    ensures WordClaim(WORD_18, 1643, 1739)
  {
    hide RowOk, AllPackable, Total;
    FiveOk(1643, 6,  1649, 2,  1651, 6,  1657, 6,  1663, 4);
    FiveOk(1667, 2,  1669, 10,  1679, 2,  1681, 10,  1691, 2);
    FiveOk(1693, 4,  1697, 2,  1699, 4,  1703, 6,  1709, 2);
    FiveOk(1711, 6,  1717, 4,  1721, 2,  1723, 10,  1733, 6);
    WordOk(1643, [6, 2, 6, 6, 4], [2, 10, 2, 10, 2], [4, 2, 4, 6, 2], [6, 4, 2, 10, 6]);
  }

  lemma {:induction false} Word19()
    ensures WordClaim(WORD_19, 1739, 1831)
  {
    hide RowOk, AllPackable, Total;
    FiveOk(1739, 2,  1741, 6,  1747, 4,  1751, 2,  1753, 6);
    FiveOk(1759, 4,  1763, 6,  1769, 8,  1777, 4,  1781, 2);
    FiveOk(1783, 4,  1787, 2,  1789, 12,  1801, 6,  1807, 4);
    FiveOk(1811, 6,  1817, 2,  1819, 4,  1823, 6,  1829, 2);
    WordOk(1739, [2, 6, 4, 2, 6], [4, 6, 8, 4, 2], [4, 2, 12, 6, 4], [6, 2, 4, 6, 2]);
  }

  lemma {:induction false} Word20()
    ensures WordClaim(WORD_20, 1831, 1931)
  {
    hide RowOk, AllPackable, Total;
    FiveOk(1831, 12,  1843, 4,  1847, 2,  1849, 4,  1853, 8);
    FiveOk(1861, 6,  1867, 4,  1871, 2,  1873, 4,  1877, 2);
    FiveOk(1879, 10,  1889, 2,  1891, 10,  1901, 6,  1907, 2);
    FiveOk(1909, 4,  1913, 6,  1919, 2,  1921, 6,  1927, 4);
    WordOk(1831, [12, 4, 2, 4, 8], [6, 4, 2, 4, 2], [10, 2, 10, 6, 2], [4, 6, 2, 6, 4]);
  }

  lemma {:induction false} Word21()
    ensures WordClaim(WORD_21, 1931, 2029)
  {
    hide RowOk, AllPackable, Total;
    FiveOk(1931, 2,  1933, 4,  1937, 6,  1943, 6,  1949, 2);
    FiveOk(1951, 6,  1957, 4,  1961, 2,  1963, 10,  1973, 6);
    FiveOk(1979, 8,  1987, 6,  1993, 4,  1997, 2,  1999, 4);
    FiveOk(2003, 8,  2011, 6,  2017, 4,  2021, 6,  2027, 2);
    WordOk(1931, [2, 4, 6, 6, 2], [6, 4, 2, 10, 6], [8, 6, 4, 2, 4], [8, 6, 4, 6, 2]);
  }

  lemma {:induction false} Word22()
    ensures WordClaim(WORD_22, 2029, 2129)
  {
    hide RowOk, AllPackable, Total;
    FiveOk(2029, 4,  2033, 6,  2039, 2,  2041, 6,  2047, 6);
    FiveOk(2053, 6,  2059, 4,  2063, 6,  2069, 2,  2071, 6);
    FiveOk(2077, 4,  2081, 2,  2083, 4,  2087, 2,  2089, 10);
    FiveOk(2099, 12,  2111, 2,  2113, 4,  2117, 2,  2119, 10);
    WordOk(2029, [4, 6, 2, 6, 6], [6, 4, 6, 2, 6], [4, 2, 4, 2, 10], [12, 2, 4, 2, 10]);
  }

  lemma {:induction false} Word23()
    ensures WordClaim(WORD_23, 2129, 2227)
  {
    hide RowOk, AllPackable, Total;
    FiveOk(2129, 2,  2131, 6,  2137, 4,  2141, 2,  2143, 4);
    FiveOk(2147, 6,  2153, 6,  2159, 2,  2161, 10,  2171, 2);
    FiveOk(2173, 6,  2179, 4,  2183, 14,  2197, 4,  2201, 2);
    FiveOk(2203, 4,  2207, 2,  2209, 4,  2213, 8,  2221, 6);
    WordOk(2129, [2, 6, 4, 2, 4], [6, 6, 2, 10, 2], [6, 4, 14, 4, 2], [4, 2, 4, 8, 6]);
  }

  lemma {:induction false} Word24()
    ensures WordClaim(WORD_24, 2227, 2323)
  {
    hide RowOk, AllPackable, Total;
    FiveOk(2227, 4,  2231, 6,  2237, 2,  2239, 4,  2243, 6);
    FiveOk(2249, 2,  2251, 6,  2257, 6,  2263, 4,  2267, 2);
    FiveOk(2269, 4,  2273, 6,  2279, 2,  2281, 6,  2287, 4);
    FiveOk(2291, 2,  2293, 4,  2297, 12,  2309, 2,  2311, 12);
    WordOk(2227, [4, 6, 2, 4, 6], [2, 6, 6, 4, 2], [4, 6, 2, 6, 4], [2, 4, 12, 2, 12]);
  }


  function Concat(words: seq<seq<nat>>): seq<nat> {
    if words == [] then [] else Concat(words[..|words| - 1]) + words[|words| - 1]
  }

  const STARTS: seq<nat> := [13, 101, 197, 293, 391, 491, 589, 683, 779, 877, 971, 1063, 1159, 1261, 1357, 1451, 1543,
    1643, 1739, 1831, 1931, 2029, 2129, 2227, 2323]

  lemma {:induction false} WordsLow(i: nat)
    requires i < 8
    ensures WordClaim(WORDS[i], STARTS[i], STARTS[i + 1])
  {
    hide WordClaim, WORD_01, WORD_02, WORD_03, WORD_04, WORD_05, WORD_06, WORD_07, WORD_08, WORD_09, WORD_10, WORD_11,
      WORD_12, WORD_13, WORD_14, WORD_15, WORD_16, WORD_17, WORD_18, WORD_19, WORD_20, WORD_21, WORD_22, WORD_23,
      WORD_24;
    if i == 0 { Word01(); } else if i == 1 { Word02(); } else if i == 2 { Word03(); } else if i == 3 { Word04(); }
    else if i == 4 { Word05(); } else if i == 5 { Word06(); } else if i == 6 { Word07(); } else { Word08(); }
  }

  lemma {:induction false} WordsMid(i: nat)
    requires 8 <= i < 16
    ensures WordClaim(WORDS[i], STARTS[i], STARTS[i + 1])
  {
    hide WordClaim, WORD_01, WORD_02, WORD_03, WORD_04, WORD_05, WORD_06, WORD_07, WORD_08, WORD_09, WORD_10, WORD_11,
      WORD_12, WORD_13, WORD_14, WORD_15, WORD_16, WORD_17, WORD_18, WORD_19, WORD_20, WORD_21, WORD_22, WORD_23,
      WORD_24;
    if i == 8 { Word09(); } else if i == 9 { Word10(); } else if i == 10 { Word11(); } else if i == 11 { Word12(); }
    else if i == 12 { Word13(); } else if i == 13 { Word14(); } else if i == 14 { Word15(); } else { Word16(); }
  }

  lemma {:induction false} WordsHigh(i: nat)
    requires 16 <= i < 24
    ensures WordClaim(WORDS[i], STARTS[i], STARTS[i + 1])
  {
    hide WordClaim, WORD_01, WORD_02, WORD_03, WORD_04, WORD_05, WORD_06, WORD_07, WORD_08, WORD_09, WORD_10, WORD_11,
      WORD_12, WORD_13, WORD_14, WORD_15, WORD_16, WORD_17, WORD_18, WORD_19, WORD_20, WORD_21, WORD_22, WORD_23,
      WORD_24;
    if i == 16 { Word17(); } else if i == 17 { Word18(); } else if i == 18 { Word19(); } else if i == 19 { Word20(); }
    else if i == 20 { Word21(); } else if i == 21 { Word22(); } else if i == 22 { Word23(); } else { Word24(); }
  }

  lemma {:induction false} WordAt(i: nat)
    requires i < 24
    ensures |WORDS| == 24 && |STARTS| == 25 && WordClaim(WORDS[i], STARTS[i], STARTS[i + 1])
  {
    hide WordClaim, WORD_01, WORD_02, WORD_03, WORD_04, WORD_05, WORD_06, WORD_07, WORD_08, WORD_09, WORD_10, WORD_11,
      WORD_12, WORD_13, WORD_14, WORD_15, WORD_16, WORD_17, WORD_18, WORD_19, WORD_20, WORD_21, WORD_22, WORD_23,
      WORD_24;
    if i < 8 {
      WordsLow(i);
    } else if i < 16 {
      WordsMid(i);
    } else {
      WordsHigh(i);
    }
  }

  lemma {:induction false} TableSizes()
    ensures |WORDS| == 24 && |STARTS| == 25 && STARTS[0] == 13 && STARTS[24] == 2323
  {
    hide WORD_01, WORD_02, WORD_03, WORD_04, WORD_05, WORD_06, WORD_07, WORD_08, WORD_09, WORD_10, WORD_11, WORD_12,
      WORD_13, WORD_14, WORD_15, WORD_16, WORD_17, WORD_18, WORD_19, WORD_20, WORD_21, WORD_22, WORD_23, WORD_24;
  }

  /** The first n words together. */
  lemma {:induction false} WordsOk(n: nat)
    requires n <= 24
    ensures |WORDS| == 24 && |STARTS| == 25 && |Concat(WORDS[..n])| == 20 * n && AllPackable(Concat(WORDS[..n]))
    ensures RowOk(13, Concat(WORDS[..n])) && 13 + Total(Concat(WORDS[..n])) == STARTS[n]
  {
    hide WORDS, STARTS, RowOk, AllPackable, Total, WordClaim;
    TableSizes();
    if n == 0 {
      assert WORDS[..0] == [];
      NoIncrements();
    } else {
      WordsOk(n - 1);
      WordAt(n - 1);
      WordFacts(WORDS[n - 1], STARTS[n - 1], STARTS[n]);
      assert WORDS[..n][..n - 1] == WORDS[..n - 1];
      RowConcat(13, Concat(WORDS[..n - 1]), WORDS[n - 1]);
    }
  }

  lemma {:induction false} NoIncrements()
    ensures RowOk(13, []) && AllPackable([]) && Total([]) == 0
  {
  }

  lemma {:induction false} WordFacts(word: seq<nat>, start: nat, end: nat)
    requires WordClaim(word, start, end)
    ensures |word| == 20 && AllPackable(word) && RowOk(start, word) && start + Total(word) == end
  {
  }

  // --- The table ---

  const FIRST_GAPS: seq<nat> := [1, 2, 2, 4, 2]

  /** unpack_wheel: what comes out is what was packed. */
  method UnpackWheel(packed: seq<nat>, ghost words: seq<seq<nat>>) returns (tab: seq<nat>)
    requires |packed| == |words|
    requires forall i :: 0 <= i < |words| ==> AllPackable(words[i]) && packed[i] == Packed(words[i])
    ensures tab == FIRST_GAPS + Concat(words)
  {
    hide Packed, AllPackable, Field;
    tab := [1, 2, 2, 4, 2];
    assert words[..0] == [];
    for i := 0 to |packed|
      invariant tab == FIRST_GAPS + Concat(words[..i])
    {
      ghost var before, word := tab, words[i];
      ghost var k := 0;
      var v := packed[i];
      assert word[0..] == word;
      FieldOut(word, v);
      while Field(v) != 0
        invariant 0 <= k <= |word| && tab == before + word[..k]
        invariant Packed(word[k..]) <= v <= Packed(word[k..]) + 1
        invariant AllPackable(word[k..])
        invariant (Field(v) == if k == |word| then 0 else word[k]) && (k < |word| ==> Field(v) >= 2)
        decreases |word| - k
      {
        tab := tab + [Field(v)];
        assert word[..k + 1] == word[..k] + [word[k]];
        FieldOut(word[k..], v);
        assert word[k..][1..] == word[k + 1..];
        TailPackable(word[k..]);
        v := v / 8;
        k := k + 1;
        FieldOut(word[k..], v);
        if k < |word| {
          assert word[k..][0] == word[k];
        }
      }
      assert word[..k] == word;
      assert words[..i + 1][..i] == words[..i];
      Assoc(FIRST_GAPS, Concat(words[..i]), word);
    }
    assert words[..|words|] == words;
  }

  lemma {:induction false} TailPackable(l: seq<nat>)
    requires AllPackable(l) && l != []
    ensures AllPackable(l[1..])
  {
  }

  /** The divisor tried at position w of the first turn. */
  ghost function Tried(tab: seq<nat>, w: nat): nat
    requires w <= |tab|
  {
    if w == 0 then 2 else Tried(tab, w - 1) + tab[w - 1]
  }

  /** The table as unpacked, with what trial division relies on. */
  ghost predicate WheelOk(tab: seq<nat>) {
    && |tab| == WHEEL_SIZE && tab[..5] == FIRST_GAPS
    && Tried(tab, 5) == 13 && Tried(tab, WHEEL_SIZE) == 13 + TURN
    && forall w :: WHEEL_START <= w < WHEEL_SIZE ==> 2 <= tab[w] && GapOk(Tried(tab, w), tab[w])
  }

  lemma {:induction false} RowGaps(tab: seq<nat>, w: nat, k: nat)
    requires w <= k <= |tab| && RowOk(Tried(tab, w), tab[w..]) && AllPackable(tab[w..])
    ensures Tried(tab, w) + Total(tab[w..]) == Tried(tab, |tab|)
    ensures RowOk(Tried(tab, k), tab[k..])
    ensures k < |tab| ==> GapOk(Tried(tab, k), tab[k]) && tab[k] >= 2
    decreases |tab| - w
  {
    hide GapOk;
    if w < |tab| {
      assert tab[w..][1..] == tab[w + 1..];
      assert tab[w..][0] == tab[w];
      assert Packable(tab[w..][0]);
      TailPackable(tab[w..]);
      if w < k {
        RowGaps(tab, w + 1, k);
      } else {
        RowGaps(tab, w + 1, w + 1);
      }
    }
  }

  lemma {:induction false} FirstTried(tab: seq<nat>)
    requires |tab| >= 5 && tab[..5] == FIRST_GAPS
    ensures Tried(tab, 0) == 2 && Tried(tab, 1) == 3 && Tried(tab, 2) == 5 && Tried(tab, 3) == 7 && Tried(tab, 4) == 11
    ensures Tried(tab, 5) == 13
    ensures tab[0] == 1 && tab[1] == 2 && tab[2] == 2 && tab[3] == 4 && tab[4] == 2
  {
    assert forall i :: 0 <= i < 5 ==> tab[i] == tab[..5][i];
  }

  /** The unpacked table makes a wheel. */
  lemma {:induction false} TableOk()
    ensures WheelOk(FIRST_GAPS + Concat(WORDS))
  {
    hide WORDS, STARTS, RowOk, AllPackable, Total, Concat, GapOk, Tried;
    TableSizes();
    WordsOk(24);
    assert WORDS[..24] == WORDS;
    var gaps := Concat(WORDS);
    var tab := FIRST_GAPS + gaps;
    assert tab[..5] == FIRST_GAPS && tab[5..] == gaps;
    FirstTried(tab);
    forall w | WHEEL_START <= w < WHEEL_SIZE
      ensures 2 <= tab[w] && GapOk(Tried(tab, w), tab[w])
    {
      RowGaps(tab, 5, w);
    }
    RowGaps(tab, 5, 5);
  }
}
