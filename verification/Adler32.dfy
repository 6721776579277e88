/** The Adler-32 checksum of section 2.2 of RFC 1950, computed by chunks with one reduction for each. */
module Adler32 {
  import opened Bits
  import opened Options

  const LZO_BASE := 65521
  const LZO_NMAX := 5552
  const TWO32 := 0x1_0000_0000

  /** The two sums of the checksum. */
  datatype Sums = Sums(s1: nat, s2: nat)

  /** One byte more, each addition modulo 65521. */
  function Stepped(t: Sums, b: byte): Sums {
    var s1 := (t.s1 + b) % LZO_BASE;
    Sums(s1, (t.s2 + s1) % LZO_BASE)
  }

  /** The sums over a buffer as RFC 1950 defines them. */
  function Updated(s: Sums, buf: seq<byte>): Sums {
    if buf == [] then s else Stepped(Updated(s, buf[..|buf| - 1]), buf[|buf| - 1])
  }

  function Unpacked(adler: nat): Sums
    requires adler < TWO32
  {
    Sums(adler % 0x10000, adler / 0x10000)
  }

  function Packed(s: Sums): nat {
    s.s2 * 0x10000 + s.s1
  }

  predicate Reduced(s: Sums) {
    s.s1 < LZO_BASE && s.s2 < LZO_BASE
  }

  ghost predicate Congruent(x: nat, y: nat) {
    x % LZO_BASE == y % LZO_BASE
  }

  ghost predicate Follows(s1: nat, s2: nat, t: Sums) {
    Congruent(s1, t.s1) && Congruent(s2, t.s2)
  }

  lemma {:induction false} AddMod(x: nat, y: nat)
    ensures (x + y) % LZO_BASE == (x % LZO_BASE + y % LZO_BASE) % LZO_BASE
  {
  }

  lemma {:induction false} StepFollows(s1: nat, s2: nat, t: Sums, b: byte)
    requires Follows(s1, s2, t)
    ensures Follows(s1 + b, s2 + (s1 + b), Stepped(t, b))
  {
    AddMod(s1, b);
    AddMod(t.s1, b);
    AddMod(s2, s1 + b);
    AddMod(t.s2, t.s1 + b);
    AddMod(t.s2, (t.s1 + b) % LZO_BASE);
  }

  lemma {:induction false} ByteFollows(s1: nat, s2: nat, s: Sums, buf: seq<byte>, i: nat)
    requires i < |buf| && Follows(s1, s2, Updated(s, buf[..i]))
    ensures Follows(s1 + buf[i], s2 + (s1 + buf[i]), Updated(s, buf[..i + 1]))
  {
    hide Stepped, Follows;
    assert buf[..i + 1][..i] == buf[..i];
    StepFollows(s1, s2, Updated(s, buf[..i]), buf[i]);
  }

  lemma {:induction false} ReducedFollows(s1: nat, s2: nat, t: Sums)
    requires Follows(s1, s2, t)
    ensures Follows(s1 % LZO_BASE, s2 % LZO_BASE, t)
  {
  }

  function Add32(x: nat, y: nat): nat {
    (x + y) % TWO32
  }

  /** What the sums can grow to in j bytes from sums of sixteen bits. */
  ghost predicate Grown(s1: nat, s2: nat, j: nat) {
    s1 <= 65535 + 255 * j && 2 * s2 <= 131070 + 131070 * j + 255 * (j * (j + 1))
  }

  lemma {:induction false} GrowsOn(s1: nat, s2: nat, j: nat, b: byte)
    requires Grown(s1, s2, j) && j < LZO_NMAX
    ensures Grown(s1 + b, s2 + (s1 + b), j + 1)
    ensures Add32(s1, b) == s1 + b && Add32(s2, s1 + b) == s2 + (s1 + b)
  {
    assert (j + 1) * (j + 2) == j * (j + 1) + 2 * (j + 1);
    MulMono(j + 1, j + 2, 5553);
    MulMono(5553, j + 1, 5552);
  }

  /** The bytes from i to n added to the sums: 32-bit additions that never wrap around. */
  method AddChunk(ghost adler: Sums, buf: seq<byte>, i: nat, n: nat, s1: nat, s2: nat) returns (r1: nat, r2: nat)
    requires i <= n <= |buf| && n - i <= LZO_NMAX && s1 < 0x10000 && s2 < 0x10000
    requires Follows(s1, s2, Updated(adler, buf[..i]))
    ensures Follows(r1, r2, Updated(adler, buf[..n]))
  {
    hide Updated, Follows, Grown, Add32;
    r1, r2 := s1, s2;
    NotGrown(s1, s2);
    var k := i;
    while k < n
      invariant i <= k <= n
      invariant Grown(r1, r2, k - i) && Follows(r1, r2, Updated(adler, buf[..k]))
    {
      GrowsOn(r1, r2, k - i, buf[k]);
      ByteFollows(r1, r2, adler, buf, k);
      r1 := Add32(r1, buf[k]);
      r2 := Add32(r2, r1);
      k := k + 1;
    }
  }

  lemma {:induction false} NotGrown(s1: nat, s2: nat)
    requires s1 < 0x10000 && s2 < 0x10000
    ensures Grown(s1, s2, 0)
  {
  }

  /** lzo_adler32: the checksum continued over a buffer; 1 when there is none. */
  method LzoAdler32(adler: nat, buf: Option<seq<byte>>) returns (r: nat)
    requires adler < TWO32
    ensures buf.None? ==> r == 1
    ensures buf == Some([]) ==> r == adler
    ensures buf.Some? && buf.value != [] ==> r == Packed(Updated(Unpacked(adler), buf.value)) && r < TWO32
  {
    hide Updated, Follows;
    var s1: nat, s2: nat := adler % 0x10000, adler / 0x10000;
    if buf.None? {
      return 1;
    }
    var bytes := buf.value;
    ghost var start := Unpacked(adler);
    var i := 0;
    NothingYet(start, bytes);
    while i < |bytes|
      invariant 0 <= i <= |bytes| && s1 < 0x10000 && s2 < 0x10000
      invariant Follows(s1, s2, Updated(start, bytes[..i]))
      invariant if i == 0 then s1 == start.s1 && s2 == start.s2 else s1 < LZO_BASE && s2 < LZO_BASE
    {
      var n := if |bytes| - i < LZO_NMAX then |bytes| else i + LZO_NMAX;
      s1, s2 := AddChunk(start, bytes, i, n, s1, s2);
      ReducedFollows(s1, s2, Updated(start, bytes[..n]));
      s1, s2 := s1 % LZO_BASE, s2 % LZO_BASE;
      i := n;
    }
    if bytes != [] {
      assert bytes[..i] == bytes;
      UpdatedReduced(start, bytes);
      SameSums(s1, s2, Updated(start, bytes));
    }
    r := s2 * 0x10000 + s1;
  }

  lemma {:induction false} NothingYet(s: Sums, buf: seq<byte>)
    ensures Follows(s.s1, s.s2, Updated(s, buf[..0]))
  {
  }

  lemma {:induction false} UpdatedReduced(s: Sums, buf: seq<byte>)
    requires buf != []
    ensures Reduced(Updated(s, buf))
  {
  }

  lemma {:induction false} SameSums(s1: nat, s2: nat, t: Sums)
    requires Follows(s1, s2, t) && s1 < LZO_BASE && s2 < LZO_BASE && Reduced(t)
    ensures s1 == t.s1 && s2 == t.s2
  {
  }

  // --- What the checksum promises ---

  /** Continuing a checksum over a second buffer gives that of the two together. */
  lemma {:induction false} Continued(s: Sums, x: seq<byte>, y: seq<byte>)
    ensures Updated(Updated(s, x), y) == Updated(s, x + y)
  {
    if y == [] {
      assert x + y == x;
    } else {
      var z := y[..|y| - 1];
      Continued(s, x, z);
      assert (x + y)[..|x + y| - 1] == x + z;
    }
  }

  lemma {:induction false} PackedBack(s: Sums)
    requires Reduced(s)
    ensures Packed(s) < TWO32 && Unpacked(Packed(s)) == s
  {
  }

  function Total(buf: seq<byte>): nat {
    if buf == [] then 0 else Total(buf[..|buf| - 1]) + buf[|buf| - 1]
  }

  /** Each byte counted as often as there are bytes from it on. */
  function Weighted(buf: seq<byte>): nat {
    if buf == [] then 0 else Weighted(buf[..|buf| - 1]) + Total(buf)
  }

  /** From the initial value 1 the sums are those of the definition: one plus all bytes, and the length plus all
      bytes weighted by their distance from the end. */
  lemma {:induction false} ClosedForm(buf: seq<byte>)
    ensures Updated(Sums(1, 0), buf) == Sums((1 + Total(buf)) % LZO_BASE, (|buf| + Weighted(buf)) % LZO_BASE)
  {
    hide Updated, Follows;
    FollowsClosed(buf);
    ReducedFollows(1 + Total(buf), |buf| + Weighted(buf), Updated(Sums(1, 0), buf));
    if buf == [] {
      assert Updated(Sums(1, 0), []) == Sums(1, 0) by {
        NothingAdded(Sums(1, 0));
      }
    } else {
      UpdatedReduced(Sums(1, 0), buf);
      SameSums((1 + Total(buf)) % LZO_BASE, (|buf| + Weighted(buf)) % LZO_BASE, Updated(Sums(1, 0), buf));
    }
  }

  lemma {:induction false} NothingAdded(s: Sums)
    ensures Updated(s, []) == s
  {
  }

  lemma {:induction false} FollowsClosed(buf: seq<byte>)
    ensures Follows(1 + Total(buf), |buf| + Weighted(buf), Updated(Sums(1, 0), buf))
  {
    if buf != [] {
      hide Stepped, Follows;
      var z := buf[..|buf| - 1];
      FollowsClosed(z);
      StepFollows(1 + Total(z), |z| + Weighted(z), Updated(Sums(1, 0), z), buf[|z|]);
    }
  }
}
