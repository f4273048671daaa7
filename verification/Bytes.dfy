/** Little-endian integers and arrays of fixed-size records, as the apinfo files
    hold them. */
module Bytes {

  type Byte = b: int | 0 <= b < 256

  function Pow256(n: nat): nat { if n == 0 then 1 else 256 * Pow256(n - 1) }

  /** The low n bytes of v, least significant first. */
  function Little(v: nat, n: nat): (r: seq<Byte>)
    ensures |r| == n
  {
    if n == 0 then [] else [v % 256] + Little(v / 256, n - 1)
  }

  function FromLittle(s: seq<Byte>): nat {
    if s == [] then 0 else s[0] + 256 * FromLittle(s[1..])
  }

  lemma {:induction false} LittleInverse(v: nat, n: nat)
    requires v < Pow256(n)
    ensures FromLittle(Little(v, n)) == v
  {
    if n > 0 {
      LittleInverse(v / 256, n - 1);
      assert Little(v, n)[1..] == Little(v / 256, n - 1);
    }
  }

  const INT_LIMIT := 0x8000_0000

  predicate IsInt(v: int) { -INT_LIMIT <= v < INT_LIMIT }

  /** A C int on a two's-complement, little-endian machine. */
  function Int(v: int): (r: seq<Byte>)
    requires IsInt(v)
    ensures |r| == 4
  {
    Little(if v < 0 then v + 2 * INT_LIMIT else v, 4)
  }

  function FromInt(s: seq<Byte>): int {
    var u := FromLittle(s);
    if u < INT_LIMIT then u else u - 2 * INT_LIMIT
  }

  lemma {:induction false} IntInverse(v: int)
    requires IsInt(v)
    ensures FromInt(Int(v)) == v
  {
    Pow256Values();
    LittleInverse(if v < 0 then v + 2 * INT_LIMIT else v, 4);
  }

  lemma {:induction false} Pow256Values()
    ensures Pow256(4) == 0x1_0000_0000
    ensures Pow256(8) == 0x1_0000_0000_0000_0000
  {
  }

  /** A non-negative int in its first four bytes reads the same from a zero-padded
      eight-byte cell. */
  lemma {:induction false} IntInCell(v: nat)
    requires v < INT_LIMIT
    ensures FromInt(Little(v, 8)[..4]) == v && FromLittle(Little(v, 8)) == v
  {
    Pow256Values();
    LittleInverse(v, 8);
    LittlePrefix(v, 4, 8);
    LittleInverse(v, 4);
  }

  lemma {:induction false} LittlePrefix(v: nat, k: nat, n: nat)
    requires k <= n
    ensures Little(v, n)[..k] == Little(v, k)
  {
    if k > 0 {
      LittlePrefix(v / 256, k - 1, n - 1);
      assert Little(v, n)[..k] == [v % 256] + Little(v / 256, n - 1)[..k - 1];
    }
  }

  // ----- records

  function Flat(records: seq<seq<Byte>>): seq<Byte> {
    if records == [] then [] else records[0] + Flat(records[1..])
  }

  ghost predicate Sized(records: seq<seq<Byte>>, size: nat) { forall i :: 0 <= i < |records| ==> |records[i]| == size }

  lemma {:induction false} FlatLength(records: seq<seq<Byte>>, size: nat)
    requires Sized(records, size)
    ensures |Flat(records)| == size * |records|
  {
    if records != [] {
      FlatLength(records[1..], size);
      assert size * |records| == size + size * |records[1..]|;
    }
  }

  lemma {:induction false} FlatSlice(records: seq<seq<Byte>>, size: nat, i: nat)
    requires Sized(records, size) && i < |records|
    ensures 0 <= size * i && size * i + size <= |Flat(records)|
    ensures Flat(records)[size * i..size * i + size] == records[i]
  {
    var rest := Flat(records[1..]);
    FlatLength(records, size);
    if i > 0 {
      FlatSlice(records[1..], size, i - 1);
      assert size * i == size + size * (i - 1);
      assert Flat(records)[size * i..size * i + size] == rest[size * (i - 1)..size * (i - 1) + size];
    } else {
      assert size * 0 == 0;
    }
  }

  lemma {:induction false} SliceOfMiddle(a: seq<Byte>, b: seq<Byte>, c: seq<Byte>, lo: nat, hi: nat)
    requires lo <= hi <= |b|
    ensures (a + b + c)[|a| + lo..|a| + hi] == b[lo..hi]
  {}

  /** The section of `file` that starts at `offset` holds these records. */
  ghost predicate HoldsAt(file: seq<Byte>, offset: nat, size: nat, records: seq<seq<Byte>>) {
    forall i {:trigger records[i]} :: 0 <= i < |records| ==>
      && 0 <= offset + size * i && offset + size * i + size <= |file|
      && file[offset + size * i..offset + size * i + size] == records[i]
  }

  lemma {:induction false} SectionHolds(before: seq<Byte>, records: seq<seq<Byte>>, size: nat, after: seq<Byte>)
    requires Sized(records, size)
    ensures HoldsAt(before + Flat(records) + after, |before|, size, records)
  {
    forall i | 0 <= i < |records|
      ensures 0 <= size * i && size * i + size <= |Flat(records)|
      ensures (before + Flat(records) + after)[|before| + size * i..|before| + size * i + size] == records[i]
    {
      FlatSlice(records, size, i);
      SliceOfMiddle(before, Flat(records), after, size * i, size * i + size);
    }
  }

  /** _get_structs: count records of the given size, starting at offset. */
  function GetStructs(file: seq<Byte>, size: nat, offset: nat, count: nat): seq<seq<Byte>>
    requires forall i :: 0 <= i < count ==> 0 <= offset + size * i && offset + size * i + size <= |file|
  {
    seq(count, i requires 0 <= i < count => file[offset + size * i..offset + size * i + size])
  }

  // ----- sections one after the other

  datatype Section = Section(size: nat, records: seq<seq<Byte>>)

  ghost predicate AllSized(ss: seq<Section>) { forall k :: 0 <= k < |ss| ==> Sized(ss[k].records, ss[k].size) }

  function Emitted(ss: seq<Section>): seq<Byte> {
    if ss == [] then [] else Emitted(ss[..|ss| - 1]) + Flat(ss[|ss| - 1].records)
  }

  /** How many bytes the sections take. */
  function Span(ss: seq<Section>): nat {
    if ss == [] then 0 else Span(ss[..|ss| - 1]) + ss[|ss| - 1].size * |ss[|ss| - 1].records|
  }

  lemma {:induction false} SpanOfMore(ss: seq<Section>, s: Section)
    ensures Span(ss + [s]) == Span(ss) + s.size * |s.records|
    ensures Emitted(ss + [s]) == Emitted(ss) + Flat(s.records)
  {
    assert (ss + [s])[..|ss|] == ss;
  }

  lemma {:induction false} FourSections(a: Section, b: Section, c: Section, d: Section)
    ensures Span([]) == 0 && Span([a]) == a.size * |a.records| && Span([a, b]) == Span([a]) + b.size * |b.records|
    ensures Span([a, b, c]) == Span([a, b]) + c.size * |c.records|
    ensures Span([a, b, c, d]) == Span([a, b, c]) + d.size * |d.records|
    ensures Emitted([a, b, c, d]) == Flat(a.records) + Flat(b.records) + Flat(c.records) + Flat(d.records)
  {
    SpanOfMore([], a);
    assert [] + [a] == [a];
    SpanOfMore([a], b);
    assert [a] + [b] == [a, b];
    SpanOfMore([a, b], c);
    assert [a, b] + [c] == [a, b, c];
    SpanOfMore([a, b, c], d);
    assert [a, b, c] + [d] == [a, b, c, d];
  }

  lemma {:induction false} ThreeMoreSections(ss: seq<Section>, e: Section, f: Section, g: Section)
    ensures Span(ss + [e]) == Span(ss) + e.size * |e.records|
    ensures Span(ss + [e, f]) == Span(ss + [e]) + f.size * |f.records|
    ensures Span(ss + [e, f, g]) == Span(ss + [e, f]) + g.size * |g.records|
    ensures Emitted(ss + [e, f, g]) == Emitted(ss) + Flat(e.records) + Flat(f.records) + Flat(g.records)
  {
    SpanOfMore(ss, e);
    SpanOfMore(ss + [e], f);
    assert ss + [e] + [f] == ss + [e, f];
    SpanOfMore(ss + [e, f], g);
    assert ss + [e, f] + [g] == ss + [e, f, g];
  }

  function Width(s: Section): nat { s.size * |s.records| }

  /** Where each of seven sections ends. */
  lemma {:induction false} SevenSections(ss: seq<Section>)
    requires |ss| == 7
    ensures Span(ss[..0]) == 0 && Span(ss[..1]) == Width(ss[0]) && Span(ss[..2]) == Span(ss[..1]) + Width(ss[1])
    ensures Span(ss[..3]) == Span(ss[..2]) + Width(ss[2]) && Span(ss[..4]) == Span(ss[..3]) + Width(ss[3])
    ensures Span(ss[..5]) == Span(ss[..4]) + Width(ss[4]) && Span(ss[..6]) == Span(ss[..5]) + Width(ss[5])
    ensures Span(ss) == Span(ss[..6]) + Width(ss[6])
    ensures Emitted(ss) == Flat(ss[0].records) + Flat(ss[1].records) + Flat(ss[2].records) + Flat(ss[3].records)
                           + Flat(ss[4].records) + Flat(ss[5].records) + Flat(ss[6].records)
  {
    var four := ss[..4];
    FourSections(ss[0], ss[1], ss[2], ss[3]);
    ThreeMoreSections(four, ss[4], ss[5], ss[6]);
    assert ss[..1] == [ss[0]] && ss[..2] == [ss[0], ss[1]] && ss[..3] == [ss[0], ss[1], ss[2]];
    assert four == [ss[0], ss[1], ss[2], ss[3]];
    assert ss[..5] == four + [ss[4]] && ss[..6] == four + [ss[4], ss[5]] && ss == four + [ss[4], ss[5], ss[6]];
  }

  lemma {:induction false} EmittedLength(ss: seq<Section>)
    requires AllSized(ss)
    ensures |Emitted(ss)| == Span(ss)
  {
    if ss != [] {
      EmittedLength(ss[..|ss| - 1]);
      FlatLength(ss[|ss| - 1].records, ss[|ss| - 1].size);
    }
  }

  lemma {:induction false} SliceOfMore(file: seq<Byte>, more: seq<Byte>, lo: nat, hi: nat)
    requires lo <= hi <= |file|
    ensures (file + more)[lo..hi] == file[lo..hi]
  {
  }

  lemma {:induction false} HoldsMore(file: seq<Byte>, offset: nat, size: nat, records: seq<seq<Byte>>, more: seq<Byte>)
    requires HoldsAt(file, offset, size, records)
    ensures HoldsAt(file + more, offset, size, records)
  {
    forall i | 0 <= i < |records|
      ensures 0 <= offset + size * i && offset + size * i + size <= |file + more|
      ensures (file + more)[offset + size * i..offset + size * i + size] == records[i]
    {
      var r := records[i];
      SliceOfMore(file, more, offset + size * i, offset + size * i + size);
    }
  }

  /** Section k starts where the sections before it end. */
  lemma {:induction false} SectionInPlace(head: seq<Byte>, ss: seq<Section>, k: nat)
    requires AllSized(ss) && k < |ss|
    ensures HoldsAt(head + Emitted(ss), |head| + Span(ss[..k]), ss[k].size, ss[k].records)
  {
    var front, last := ss[..|ss| - 1], ss[|ss| - 1];
    EmittedLength(front);
    assert head + Emitted(ss) == head + Emitted(front) + Flat(last.records);
    if k == |front| {
      assert head + Emitted(front) + Flat(last.records) + [] == head + Emitted(ss);
      SectionHolds(head + Emitted(front), last.records, last.size, []);
    } else {
      assert front[..k] == ss[..k];
      SectionInPlace(head, front, k);
      HoldsMore(head + Emitted(front), |head| + Span(ss[..k]), ss[k].size, ss[k].records, Flat(last.records));
    }
  }
}
