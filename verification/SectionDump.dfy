/** The packed policy section: one header with entries per translation unit, written by the compiler pass
    and read back by the inspector. */
module SectionDump {
  import opened Bits
  import opened LittleEndian
  import W = BitWriter

  const TWO31: int := 0x8000_0000

  // --- The compiler pass ---

  /** A captured site; the number is negative when it is not known. */
  datatype Site = Site(block: nat, function_: nat, nr: int)

  /** struct policy_entry, as stored. */
  datatype Entry = Entry(site: nat, func: nat, nr: nat)

  predicate EntryOk(e: Entry) {
    e.site < TWO64 && e.func < TWO64 && e.nr < TWO64
  }

  /** 0 stands for any number. */
  function EncodeNr(nr: int): nat {
    if nr >= 0 then nr + 1 else 0
  }

  /** A unit without sites gets a dummy entry, so that the section is not stripped. */
  function PassEntries(sites: seq<Site>): (es: seq<Entry>)
    ensures |es| >= 1
  {
    if sites == [] then [Entry(0, 0, 0)]
    else seq(|sites|, i requires 0 <= i < |sites| => Entry(sites[i].block, sites[i].function_, EncodeNr(sites[i].nr)))
  }

  const MAGIC: seq<byte> := [0x7f, 0x53, 0x45, 0x4e]
  const HEADER_SIZE: nat := 9
  const ENTRY_SIZE: nat := 24

  function EncodeEntry(e: Entry): (s: seq<byte>)
    ensures |s| == ENTRY_SIZE
  {
    W.LeBytes(e.site, 8) + W.LeBytes(e.func, 8) + W.LeBytes(e.nr, 8)
  }

  function EncodeEntries(es: seq<Entry>): (s: seq<byte>)
    ensures |s| == |es| * ENTRY_SIZE
  {
    if es == [] then [] else EncodeEntry(es[0]) + EncodeEntries(es[1..])
  }

  /** Header (magic, version, count) and entries, packed. */
  function EncodeUnit(es: seq<Entry>): (s: seq<byte>)
    ensures |s| == HEADER_SIZE + |es| * ENTRY_SIZE
  {
    MAGIC + [1] + W.LeBytes(|es|, 4) + EncodeEntries(es)
  }

  /** The linker concatenates the units' sections. */
  function Section(units: seq<seq<Entry>>): seq<byte> {
    if units == [] then [] else EncodeUnit(units[0]) + Section(units[1..])
  }

  function Concat(units: seq<seq<Entry>>): seq<Entry> {
    if units == [] then [] else units[0] + Concat(units[1..])
  }

  ghost predicate UnitOk(es: seq<Entry>) {
    1 <= |es| < TWO32 && forall i :: 0 <= i < |es| ==> EntryOk(es[i])
  }

  ghost predicate UnitsOk(units: seq<seq<Entry>>) {
    forall i :: 0 <= i < |units| ==> UnitOk(units[i])
  }

  // --- The inspector ---

  function Signed64(x: nat): int
    requires x < TWO64
  {
    if x < TWO64 / 2 then x else x - TWO64
  }

  /** Conversion to a 32-bit int. */
  function Int32(x: int): (r: int)
    ensures -TWO31 <= r < TWO31
  {
    (x + TWO31) % TWO32 - TWO31
  }

  /** -1 stands for any number. */
  function DecodeNr(raw: nat): int
    requires raw < TWO64
  {
    if Signed64(raw) > 0 then Int32(Signed64(raw) - 1) else -1
  }

  /** A number survives the section if and only if it fits an int: the inspector narrows it. */
  lemma {:induction false} NrRoundTrip(nr: int)
    requires -1 <= nr < TWO64 / 2 - 1
    ensures EncodeNr(nr) < TWO64 && (DecodeNr(EncodeNr(nr)) == nr <==> nr < TWO31)
  {
  }

  /** One printed line: the entry's fields, the offset from the text section, the decoded number, and
      whether a comma follows. */
  datatype Row = Row(site: nat, func: nat, offset: nat, nr: int, comma: bool)

  function FieldAt(data: seq<byte>, pos: nat, k: nat): (v: nat)
    requires pos + k <= |data|
  {
    FromLe(data[pos..pos + k])
  }

  function EntryAt(data: seq<byte>, pos: nat): (e: Entry)
    requires pos + ENTRY_SIZE <= |data|
    ensures EntryOk(e)
  {
    FieldBound(data[pos..pos + 8]);
    FieldBound(data[pos + 8..pos + 16]);
    FieldBound(data[pos + 16..pos + 24]);
    FieldSizes();
    Entry(FieldAt(data, pos, 8), FieldAt(data, pos + 8, 8), FieldAt(data, pos + 16, 8))
  }

  function RowOf(e: Entry, text: nat, comma: bool): Row
    requires EntryOk(e)
  {
    Row(e.site, e.func, (e.site - text) % TWO64, DecodeNr(e.nr), comma)
  }

  /** A unit is readable at this offset: header there, magic right, all declared entries there. */
  predicate UnitAt(data: seq<byte>, offset: nat) {
    && offset + HEADER_SIZE <= |data|
    && data[offset..offset + 4] == MAGIC
    && offset + HEADER_SIZE + FieldAt(data, offset + 5, 4) * ENTRY_SIZE <= |data|
  }

  function CountAt(data: seq<byte>, offset: nat): nat
    requires UnitAt(data, offset)
  {
    FieldAt(data, offset + 5, 4)
  }

  function UnitEnd(data: seq<byte>, offset: nat): (n: nat)
    requires UnitAt(data, offset)
    ensures offset < n <= |data|
  {
    offset + HEADER_SIZE + CountAt(data, offset) * ENTRY_SIZE
  }

  /** Rows of the entries of one unit from index i on; no comma after the last one if the unit ends the section. */
  function UnitRows(data: seq<byte>, offset: nat, text: nat, i: nat): (rows: seq<Row>)
    requires UnitAt(data, offset) && i <= CountAt(data, offset)
    ensures |rows| == CountAt(data, offset) - i
    decreases CountAt(data, offset) - i
  {
    var count := CountAt(data, offset);
    if i == count then []
    else
      var last := UnitEnd(data, offset) >= |data| && i + 1 == count;
      [RowOf(EntryAt(data, offset + HEADER_SIZE + i * ENTRY_SIZE), text, !last)] + UnitRows(data, offset, text, i + 1)
  }

  /** What the walk prints from an offset on. */
  function RowsFrom(data: seq<byte>, offset: nat, text: nat): seq<Row>
    decreases |data| - offset
  {
    if UnitAt(data, offset) then UnitRows(data, offset, text, 0) + RowsFrom(data, UnitEnd(data, offset), text) else []
  }

  /** dump_sentinel: prints what RowsFrom says, reads only inside the section, and ends on any bytes. */
  method Dump(data: seq<byte>, text: nat) returns (empty: bool, rows: seq<Row>, total: nat)
    ensures empty == (|data| < HEADER_SIZE)
    ensures rows == RowsFrom(data, 0, text) && total == |rows|
  {
    hide RowOf, UnitRows, RowsFrom, FieldAt, EntryAt;
    rows, total := [], 0;
    if |data| < HEADER_SIZE {
      NoUnit(data, 0, text);
      return true, rows, total;
    }
    empty := false;
    var offset := 0;
    ghost var all := RowsFrom(data, 0, text);
    while offset + HEADER_SIZE <= |data|
      invariant offset <= |data| && rows + RowsFrom(data, offset, text) == all && total == |rows|
      decreases |data| - offset
    {
      if data[offset..offset + 4] != MAGIC {
        break;
      }
      var count := FieldAt(data, offset + 5, 4);
      var expected := HEADER_SIZE + count * ENTRY_SIZE;
      if offset + expected > |data| {
        break;
      }
      ghost var before, unit := rows, UnitRows(data, offset, text, 0);
      RowsStep(data, offset, text);
      Assoc(before, unit, RowsFrom(data, UnitEnd(data, offset), text));
      assert before + unit == rows + UnitRows(data, offset, text, 0);
      for i := 0 to count
        invariant rows + UnitRows(data, offset, text, i) == before + unit && total == |rows|
      {
        UnitStep(data, offset, text, i);
        EntryInside(count, i);
        var e := EntryAt(data, offset + HEADER_SIZE + i * ENTRY_SIZE);
        var last := offset + expected >= |data| && i + 1 == count;
        ghost var r, rest := RowOf(e, text, !last), UnitRows(data, offset, text, i + 1);
        Assoc(rows, [r], rest);
        rows := rows + [RowOf(e, text, !last)];
        total := total + 1;
      }
      UnitDone(data, offset, text);
      assert rows + [] == rows;
      offset := offset + expected;
    }
    NoUnit(data, offset, text);
    assert rows + [] == rows;
  }

  lemma {:induction false} EntryInside(count: nat, i: nat)
    requires i < count
    ensures i * ENTRY_SIZE + ENTRY_SIZE <= count * ENTRY_SIZE
  {
  }

  lemma {:induction false} NoUnit(data: seq<byte>, offset: nat, text: nat)
    ensures !UnitAt(data, offset) ==> RowsFrom(data, offset, text) == []
  {
  }

  lemma {:induction false} RowsStep(data: seq<byte>, offset: nat, text: nat)
    requires UnitAt(data, offset)
    ensures RowsFrom(data, offset, text) == UnitRows(data, offset, text, 0)
      + RowsFrom(data, UnitEnd(data, offset), text)
  {
  }

  lemma {:induction false} UnitStep(data: seq<byte>, offset: nat, text: nat, i: nat)
    requires UnitAt(data, offset) && i < CountAt(data, offset)
    ensures offset + HEADER_SIZE + i * ENTRY_SIZE + ENTRY_SIZE <= |data|
    ensures UnitRows(data, offset, text, i)
         == [RowOf(EntryAt(data, offset + HEADER_SIZE + i * ENTRY_SIZE), text,
                   !(UnitEnd(data, offset) >= |data| && i + 1 == CountAt(data, offset)))]
                     + UnitRows(data, offset, text, i + 1)
  {
    hide RowOf, EntryAt;
    EntryInside(CountAt(data, offset), i);
  }

  lemma {:induction false} UnitDone(data: seq<byte>, offset: nat, text: nat)
    requires UnitAt(data, offset)
    ensures UnitRows(data, offset, text, CountAt(data, offset)) == []
  {
  }

  // --- Round trip ---

  lemma {:induction false} EntryBack(pre: seq<byte>, e: Entry, post: seq<byte>)
    requires EntryOk(e)
    ensures EntryAt(pre + EncodeEntry(e) + post, |pre|) == e
  {
    hide W.LeBytes, Pow256;
    var d, n := pre + EncodeEntry(e) + post, |pre|;
    var a, b, c := W.LeBytes(e.site, 8), W.LeBytes(e.func, 8), W.LeBytes(e.nr, 8);
    assert d[n..n + 8] == a && d[n + 8..n + 16] == b && d[n + 16..n + 24] == c;
    FieldSizes();
    FieldBack(e.site, 8);
    FieldBack(e.func, 8);
    FieldBack(e.nr, 8);
  }

  lemma {:induction false} EntriesSplit(es: seq<Entry>, i: nat)
    requires i < |es|
    ensures EncodeEntries(es) == EncodeEntries(es[..i]) + EncodeEntry(es[i]) + EncodeEntries(es[i + 1..])
  {
    if i == 0 {
      assert es[..0] == [];
    } else {
      var t := es[1..];
      EntriesSplit(t, i - 1);
      assert t[..i - 1] == es[1..i] && t[i..] == es[i + 1..] && t[i - 1] == es[i];
      assert es[..i][1..] == es[1..i] && es[..i][0] == es[0];
      var x, a, b, c := EncodeEntry(es[0]), EncodeEntries(es[1..i]), EncodeEntry(es[i]), EncodeEntries(es[i + 1..]);
      assert x + (a + b + c) == (x + a) + b + c;
    }
  }

  /** Entry i of the unit that starts after pre. */
  lemma {:induction false} UnitEntryBack(pre: seq<byte>, es: seq<Entry>, post: seq<byte>, i: nat)
    requires UnitOk(es) && i < |es|
    ensures |pre| + HEADER_SIZE + i * ENTRY_SIZE + ENTRY_SIZE <= |pre + EncodeUnit(es) + post|
    ensures EntryAt(pre + EncodeUnit(es) + post, |pre| + HEADER_SIZE + i * ENTRY_SIZE) == es[i]
  {
    hide EncodeEntry, EntryAt, W.LeBytes, MAGIC;
    EntriesSplit(es, i);
    EntryInside(|es|, i);
    var head := MAGIC + [1] + W.LeBytes(|es|, 4);
    var a, b, c := EncodeEntries(es[..i]), EncodeEntry(es[i]), EncodeEntries(es[i + 1..]);
    HeadSize(es);
    assert pre + EncodeUnit(es) + post == (pre + head + a) + b + (c + post) by {
      assert EncodeUnit(es) == head + (a + b + c);
    }
    EntryBack(pre + head + a, es[i], c + post);
  }

  lemma {:induction false} HeadSize(es: seq<Entry>)
    ensures |MAGIC + [1] + W.LeBytes(|es|, 4)| == HEADER_SIZE
  {
  }

  lemma {:induction false} UnitBack(pre: seq<byte>, es: seq<Entry>, post: seq<byte>)
    requires UnitOk(es)
    ensures var d := pre + EncodeUnit(es) + post;
      UnitAt(d, |pre|) && CountAt(d, |pre|) == |es| && UnitEnd(d, |pre|) == |pre + EncodeUnit(es)|
  {
    hide EncodeEntries, W.LeBytes, Pow256;
    var d, n := pre + EncodeUnit(es) + post, |pre|;
    assert d[n..n + 4] == MAGIC;
    assert d[n + 5..n + 9] == W.LeBytes(|es|, 4);
    FieldSizes();
    FieldBack(|es|, 4);
  }

  /** Rows of a list of entries that ends the section or not. */
  function EntryRows(es: seq<Entry>, text: nat, ends: bool): seq<Row>
    requires forall i :: 0 <= i < |es| ==> EntryOk(es[i])
  {
    seq(|es|, i requires 0 <= i < |es| => RowOf(es[i], text, !(ends && i + 1 == |es|)))
  }

  lemma {:induction false} UnitRowsBack(pre: seq<byte>, es: seq<Entry>, post: seq<byte>, text: nat, i: nat)
    requires UnitOk(es) && i <= |es|
    ensures var d := pre + EncodeUnit(es) + post;
      && UnitAt(d, |pre|) && CountAt(d, |pre|) == |es|
      && UnitRows(d, |pre|, text, i) == EntryRows(es, text, post == [])[i..]
    decreases |es| - i
  {
    hide EncodeUnit, UnitAt, CountAt, UnitEnd, RowOf, EntryAt;
    var d := pre + EncodeUnit(es) + post;
    UnitBack(pre, es, post);
    if i == |es| {
      UnitDone(d, |pre|, text);
    } else {
      UnitRowsBack(pre, es, post, text, i + 1);
      UnitEntryBack(pre, es, post, i);
      UnitStep(d, |pre|, text, i);
      assert |d| == |pre + EncodeUnit(es)| + |post|;
      var r := EntryRows(es, text, post == []);
      assert r[i..] == [r[i]] + r[i + 1..];
    }
  }

  lemma {:induction false} SectionEmpty(units: seq<seq<Entry>>)
    ensures Section(units) == [] <==> units == []
  {
  }

  lemma {:induction false} RowsBack(pre: seq<byte>, units: seq<seq<Entry>>, text: nat)
    requires UnitsOk(units) && EntriesOk(Concat(units))
    ensures RowsFrom(pre + Section(units), |pre|, text) == EntryRows(Concat(units), text, true)
    decreases |units|
  {
    hide EncodeUnit, UnitAt, UnitRows, RowOf;
    if units == [] {
      assert pre + [] == pre;
      NoUnitAtEnd(pre, text);
    } else {
      var es, rest := units[0], units[1..];
      var post := Section(rest);
      var d := pre + EncodeUnit(es) + post;
      assert pre + Section(units) == d by {
        Assoc(pre, EncodeUnit(es), post);
      }
      SectionEmpty(rest);
      UnitRowsBack(pre, es, post, text, 0);
      UnitBack(pre, es, post);
      RowsStep(d, |pre|, text);
      ConcatParts(es, Concat(rest));
      RowsBack(pre + EncodeUnit(es), rest, text);
      RowsJoin(es, Concat(rest), text, rest == []);
      ConcatEmpty(rest);
    }
  }

  ghost predicate EntriesOk(es: seq<Entry>) {
    forall i :: 0 <= i < |es| ==> EntryOk(es[i])
  }

  lemma {:induction false} ConcatParts(p: seq<Entry>, q: seq<Entry>)
    requires EntriesOk(p + q)
    ensures EntriesOk(p) && EntriesOk(q)
  {
    assert forall i :: 0 <= i < |p| ==> (p + q)[i] == p[i];
    assert forall i :: 0 <= i < |q| ==> (p + q)[|p| + i] == q[i];
  }

  lemma {:induction false} ConcatOk(units: seq<seq<Entry>>)
    requires UnitsOk(units)
    ensures EntriesOk(Concat(units))
  {
    if units != [] {
      ConcatOk(units[1..]);
    }
  }

  lemma {:induction false} ConcatEmpty(units: seq<seq<Entry>>)
    requires UnitsOk(units)
    ensures Concat(units) == [] <==> units == []
  {
    if units != [] {
      assert UnitOk(units[0]);
    }
  }

  lemma {:induction false} RowsJoin(p: seq<Entry>, q: seq<Entry>, text: nat, last: bool)
    requires EntriesOk(p) && EntriesOk(q) && EntriesOk(p + q) && (last <==> q == [])
    ensures EntryRows(p, text, last) + EntryRows(q, text, true) == EntryRows(p + q, text, true)
  {
    hide RowOf;
  }

  lemma {:induction false} NoUnitAtEnd(d: seq<byte>, text: nat)
    ensures RowsFrom(d, |d|, text) == []
  {
  }

  /** For every list of translation units, the inspector recovers all entries in order, and places a comma
      after each but the last. */
  lemma {:induction false} SectionRoundTrip(units: seq<seq<Entry>>, text: nat)
    requires UnitsOk(units)
    ensures EntriesOk(Concat(units)) && RowsFrom(Section(units), 0, text) == EntryRows(Concat(units), text, true)
  {
    ConcatOk(units);
    RowsBack([], units, text);
    assert [] + Section(units) == Section(units);
  }

  // --- From sites to rows ---

  predicate SiteOk(s: Site) {
    s.block < TWO64 && s.function_ < TWO64 && -1 <= s.nr < TWO31
  }

  ghost predicate SitesOk(sites: seq<Site>) {
    |sites| < TWO32 && forall i :: 0 <= i < |sites| ==> SiteOk(sites[i])
  }

  lemma {:induction false} PassUnitOk(sites: seq<Site>)
    requires SitesOk(sites)
    ensures UnitOk(PassEntries(sites))
  {
  }

  function PassUnits(units: seq<seq<Site>>): (us: seq<seq<Entry>>)
    ensures |us| == |units| && forall i :: 0 <= i < |us| ==> us[i] == PassEntries(units[i])
  {
    seq(|units|, i requires 0 <= i < |units| => PassEntries(units[i]))
  }

  /** The sites of a unit as the inspector shows them: a unit without sites shows one null entry. */
  function Shown(sites: seq<Site>): seq<Site> {
    if sites == [] then [Site(0, 0, -1)] else sites
  }

  function AllShown(units: seq<seq<Site>>): seq<Site> {
    if units == [] then [] else Shown(units[0]) + AllShown(units[1..])
  }

  /** The rows say exactly what the pass captured. */
  ghost predicate RowsShow(rows: seq<Row>, sites: seq<Site>, text: nat) {
    && |rows| == |sites|
    && forall i :: 0 <= i < |rows| ==>
         rows[i] == Row(sites[i].block, sites[i].function_, (sites[i].block - text) % TWO64, sites[i].nr,
             i + 1 < |rows|)
  }

  lemma {:induction false} ShownEntries(units: seq<seq<Site>>)
    requires forall i :: 0 <= i < |units| ==> SitesOk(units[i])
    ensures |Concat(PassUnits(units))| == |AllShown(units)|
    ensures forall i :: 0 <= i < |AllShown(units)| ==>
      SiteOk(AllShown(units)[i])
      && Concat(PassUnits(units))[i] == Entry(AllShown(units)[i].block, AllShown(units)[i].function_,
           EncodeNr(AllShown(units)[i].nr))
  {
    if units != [] {
      ShownEntries(units[1..]);
      assert PassUnits(units)[1..] == PassUnits(units[1..]);
      assert SitesOk(units[0]);
    }
  }

  /** Pass and inspector agree: every captured site comes back with its number, in order. */
  lemma {:induction false} PassRoundTrip(units: seq<seq<Site>>, text: nat)
    requires forall i :: 0 <= i < |units| ==> SitesOk(units[i])
    ensures RowsShow(RowsFrom(Section(PassUnits(units)), 0, text), AllShown(units), text)
  {
    hide Section, RowsFrom, DecodeNr, EncodeNr;
    var us := PassUnits(units);
    forall i | 0 <= i < |us|
      ensures UnitOk(us[i])
    {
      PassUnitOk(units[i]);
    }
    SectionRoundTrip(us, text);
    ShownEntries(units);
    forall i | 0 <= i < |AllShown(units)|
      ensures DecodeNr(EncodeNr(AllShown(units)[i].nr)) == AllShown(units)[i].nr
    {
      NrRoundTrip(AllShown(units)[i].nr);
    }
  }

  // --- Commas on arbitrary bytes ---

  /** The unit that holds the last entry ends the section. */
  predicate EndsWithEntries(data: seq<byte>, offset: nat)
    decreases |data| - offset
  {
    UnitAt(data, offset)
    && ((CountAt(data, offset) > 0 && UnitEnd(data, offset) == |data|) || EndsWithEntries(data, UnitEnd(data, offset)))
  }

  /** Every row but the last is followed by a comma, and the last is not. */
  ghost predicate JsonOk(rows: seq<Row>) {
    forall i :: 0 <= i < |rows| ==> (rows[i].comma <==> i + 1 < |rows|)
  }

  lemma {:induction false} UnitCommas(data: seq<byte>, offset: nat, text: nat, i: nat)
    requires UnitAt(data, offset) && i <= CountAt(data, offset)
    ensures var rows := UnitRows(data, offset, text, i);
      forall k :: 0 <= k < |rows| ==> rows[k].comma == !(UnitEnd(data, offset) == |data| && k + 1 == |rows|)
    decreases CountAt(data, offset) - i
  {
    hide EntryAt, FieldAt, UnitAt, UnitRows;
    if i < CountAt(data, offset) {
      UnitCommas(data, offset, text, i + 1);
      UnitStep(data, offset, text, i);
      var rows, rest := UnitRows(data, offset, text, i), UnitRows(data, offset, text, i + 1);
      assert forall k :: 1 <= k < |rows| ==> rows[k] == rest[k - 1];
    }
  }

  /** All rows but the last are followed by a comma. */
  ghost predicate CommasBetween(rows: seq<Row>) {
    forall k :: 0 <= k < |rows| - 1 ==> rows[k].comma
  }

  lemma {:induction false} OnlyTheLast(rows: seq<Row>)
    requires CommasBetween(rows) && rows != []
    ensures JsonOk(rows) <==> !rows[|rows| - 1].comma
  {
  }

  lemma {:induction false} CommasJoin(u: seq<Row>, r: seq<Row>, ends: bool)
    requires forall k :: 0 <= k < |u| ==> u[k].comma == !(ends && k + 1 == |u|)
    requires CommasBetween(r) && (ends ==> r == [])
    ensures CommasBetween(u + r)
  {
  }

  /** On any bytes the printed list is well formed if and only if it is empty or the unit that holds its
      last entry ends the section. */
  lemma {:induction false} CommasExact(data: seq<byte>, offset: nat, text: nat)
    ensures var rows := RowsFrom(data, offset, text);
      && CommasBetween(rows)
      && (rows != [] ==> (JsonOk(rows) <==> EndsWithEntries(data, offset)))
      && (rows == [] ==> !EndsWithEntries(data, offset))
    decreases |data| - offset
  {
    hide FieldAt, UnitRows, UnitAt, CommasBetween, JsonOk;
    NoUnit(data, offset, text);
    if UnitAt(data, offset) {
      var next := UnitEnd(data, offset);
      var u, r := UnitRows(data, offset, text, 0), RowsFrom(data, next, text);
      RowsStep(data, offset, text);
      UnitCommas(data, offset, text, 0);
      CommasExact(data, next, text);
      if next == |data| {
        NoUnitAtEnd(data, text);
      }
      CommasJoin(u, r, next == |data|);
      if r != [] {
        OnlyTheLast(r);
        OnlyTheLast(u + r);
      } else if u != [] {
        assert u + r == u;
        OnlyTheLast(u);
      }
    } else {
      NoRows();
    }
  }

  lemma {:induction false} NoRows()
    ensures CommasBetween([])
  {
  }

  /** Units followed by a few bytes do not end with entries. */
  lemma {:induction false} TailNotEnding(pre: seq<byte>, units: seq<seq<Entry>>, tail: seq<byte>)
    requires UnitsOk(units) && 1 <= |tail| < HEADER_SIZE
    ensures !EndsWithEntries(pre + Section(units) + tail, |pre|)
    decreases |units|
  {
    hide EncodeUnit, UnitAt, CountAt, FieldAt;
    var data := pre + Section(units) + tail;
    if units == [] {
      TooShort(data, |pre|);
    } else {
      var u := EncodeUnit(units[0]);
      assert UnitOk(units[0]) && UnitsOk(units[1..]);
      assert data == pre + u + (Section(units[1..]) + tail);
      UnitBack(pre, units[0], Section(units[1..]) + tail);
      assert data == (pre + u) + Section(units[1..]) + tail;
      TailNotEnding(pre + u, units[1..], tail);
    }
  }

  lemma {:induction false} TooShort(data: seq<byte>, offset: nat)
    requires offset + HEADER_SIZE > |data|
    ensures !UnitAt(data, offset)
  {
  }

  /** A few bytes behind the last unit leave a comma too many, whatever entries there are. */
  lemma {:induction false} TrailingBytes(units: seq<seq<Entry>>, tail: seq<byte>, text: nat)
    requires UnitsOk(units) && units != [] && 1 <= |tail| < HEADER_SIZE
    ensures !JsonOk(RowsFrom(Section(units) + tail, 0, text))
  {
    hide EncodeUnit, UnitAt, CountAt, FieldAt, RowsFrom, JsonOk, EndsWithEntries, UnitRows;
    var data := [] + Section(units) + tail;
    assert data == Section(units) + tail;
    TailNotEnding([], units, tail);
    assert UnitOk(units[0]);
    assert data == [] + EncodeUnit(units[0]) + (Section(units[1..]) + tail);
    UnitBack([], units[0], Section(units[1..]) + tail);
    RowsStep(data, 0, text);
    assert UnitRows(data, 0, text, 0) != [];
    CommasExact(data, 0, text);
  }

  /** For example one entry and a zero byte. */
  lemma {:induction false} OneByteMore(text: nat)
    ensures !JsonOk(RowsFrom(Section([[Entry(1, 1, 1)]]) + [0], 0, text))
  {
    hide RowsFrom, JsonOk, Section;
    assert UnitOk([Entry(1, 1, 1)]);
    TrailingBytes([[Entry(1, 1, 1)]], [0], text);
  }
}
