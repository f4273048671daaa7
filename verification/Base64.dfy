/** ccan/base64: encoding and decoding with a caller-chosen alphabet. */
module Base64 {
  import opened Wrappers

  type Byte = bv8

  const PAD: Byte := 0x3d   // '='
  const FILL: Byte := 0x41  // 'A'
  const NONE: Byte := 0xff  // not in the alphabet

  /** The two lookup tables of base64_maps_t. */
  datatype Maps = Maps(encode: seq<Byte>, decode: seq<Byte>)

  type Alphabet = a: seq<Byte> | |a| == 64 witness seq(64, _ => FILL)

  /** The value the decode table holds for a character: the last position of the
      alphabet that holds it. */
  function SixbitFrom(a: seq<Byte>, c: Byte): Byte
    requires |a| <= 64
  {
    if a == [] then NONE
    else if a[|a| - 1] == c then (|a| - 1) as Byte
    else SixbitFrom(a[..|a| - 1], c)
  }

  ghost predicate TableOf(decode: seq<Byte>, a: seq<Byte>)
    requires |a| <= 64
  {
    |decode| == 256 && forall c: Byte :: decode[c as nat] == SixbitFrom(a, c)
  }

  ghost predicate MapsOf(maps: Maps, a: Alphabet) { maps.encode == a && TableOf(maps.decode, a) }

  lemma {:induction false} TableStep(decode: seq<Byte>, a: seq<Byte>, x: Byte)
    requires |a| < 64 && TableOf(decode, a)
    ensures TableOf(decode[x as nat := |a| as Byte], a + [x])
  {
    var decode', a' := decode[x as nat := |a| as Byte], a + [x];
    assert a'[..|a|] == a;
    forall c: Byte ensures decode'[c as nat] == SixbitFrom(a', c) {
      assert c == x || c as nat != x as nat;
    }
  }

  lemma {:induction false} SixbitOfLast(a: seq<Byte>, i: nat)
    requires |a| <= 64 && i < |a| && forall j :: i < j < |a| ==> a[j] != a[i]
    ensures SixbitFrom(a, a[i]) == i as Byte
  {
    var front := a[..|a| - 1];
    if i < |front| {
      assert front[i] == a[i] && forall j :: i < j < |front| ==> front[j] == a[j];
      SixbitOfLast(front, i);
    }
  }

  lemma {:induction false} SixbitOfNone(a: seq<Byte>, c: Byte)
    requires |a| <= 64 && c !in a
    ensures SixbitFrom(a, c) == NONE
  {
    if a != [] {
      SixbitOfNone(a[..|a| - 1], c);
    }
  }

  /** The encode table is the alphabet; the decode table has a letter's last position in
      it, and no position for any other character. */
  lemma {:induction false} MapsMean(maps: Maps, a: Alphabet, i: nat, c: Byte)
    requires MapsOf(maps, a) && i < 64
    ensures |maps.encode| == 64 && maps.encode[i] == a[i]
    ensures (forall j :: i < j < 64 ==> a[j] != a[i]) ==> maps.decode[a[i] as nat] == i as Byte
    ensures c !in a ==> maps.decode[c as nat] == NONE
  {
    if forall j :: i < j < 64 ==> a[j] != a[i] { SixbitOfLast(a, i); }
    if c !in a { SixbitOfNone(a, c); }
  }

  method InitMaps(a: Alphabet) returns (maps: Maps)
    ensures MapsOf(maps, a)
  {
    var decode := seq(256, _ => NONE);
    for i := 0 to 64
      invariant TableOf(decode, a[..i])
    {
      TableStep(decode, a[..i], a[i]);
      assert a[..i] + [a[i]] == a[..i + 1];
      decode := decode[a[i] as nat := i as Byte];
    }
    assert a[..64] == a;
    maps := Maps(a, decode);
  }

  function SixbitTo(a: Alphabet, s: Byte): Byte
    requires s < 64
  {
    a[s as nat]
  }

  function EncodedLength(n: nat): nat { (n + 2) / 3 * 4 }

  function DecodedLength(n: nat): nat { (n + 3) / 4 * 3 }

  // ----- groups

  function EncodeTriplet(m: Alphabet, a: Byte, b: Byte, c: Byte): (r: seq<Byte>)
    ensures |r| == 4
  {
    [SixbitTo(m, (a & 0xfc) >> 2),
     SixbitTo(m, ((a & 0x3) << 4) | ((b & 0xf0) >> 4)),
     SixbitTo(m, ((c & 0xc0) >> 6) | ((b & 0xf) << 2)),
     SixbitTo(m, c & 0x3f)]
  }

  function EncodeTail(m: Alphabet, s: seq<Byte>): (r: seq<Byte>)
    requires 1 <= |s| <= 3
    ensures |r| == 4
  {
    var t := EncodeTriplet(m, s[0], if |s| > 1 then s[1] else 0, if |s| > 2 then s[2] else 0);
    t[..1 + |s|] + seq(3 - |s|, _ => PAD)
  }

  function DecodeQuartet(m: Alphabet, s: seq<Byte>): (r: Option<seq<Byte>>)
    requires |s| == 4
    ensures r.Some? ==> |r.value| == 3
  {
    var a, b, c, d := SixbitFrom(m, s[0]), SixbitFrom(m, s[1]), SixbitFrom(m, s[2]), SixbitFrom(m, s[3]);
    if a == NONE || b == NONE || c == NONE || d == NONE then None
    else Some([(a << 2) | (b >> 4), ((b & 0xf) << 4) | (c >> 2), ((c & 0x3) << 6) | d])
  }

  /** The input with its trailing padding symbols removed. */
  function Unpadded(s: seq<Byte>): (r: seq<Byte>)
    ensures r <= s
    ensures r != [] ==> r[|r| - 1] != PAD
    ensures forall i :: |r| <= i < |s| ==> s[i] == PAD
  {
    if s != [] && s[|s| - 1] == PAD then Unpadded(s[..|s| - 1]) else s
  }

  function DecodeTail(m: Alphabet, s: seq<Byte>): (r: Option<seq<Byte>>)
    requires |s| <= 4
    ensures r.Some? ==> |r.value| <= 3
  {
    var u := Unpadded(s);
    if u == [] then Some([])
    else if |u| == 1 then None
    else match DecodeQuartet(m, u + seq(4 - |u|, _ => FILL))
         case None => None
         case Some(bytes) => Some(bytes[..|u| - 1])
  }

  // ----- whole strings

  function Encoded(m: Alphabet, s: seq<Byte>): (r: seq<Byte>)
    ensures |r| == EncodedLength(|s|)
  {
    if |s| >= 3 then EncodeTriplet(m, s[0], s[1], s[2]) + Encoded(m, s[3..])
    else if s != [] then EncodeTail(m, s)
    else []
  }

  function Decoded(m: Alphabet, s: seq<Byte>): (r: Option<seq<Byte>>)
    ensures r.Some? ==> |r.value| <= DecodedLength(|s|)
  {
    if |s| > 4 then
      match DecodeQuartet(m, s[..4])
      case None => None
      case Some(head) =>
        match Decoded(m, s[4..])
        case None => None
        case Some(rest) => Some(head + rest)
    else DecodeTail(m, s)
  }

  // ----- the alphabet

  ghost predicate Injective(a: seq<Byte>) { forall i, j :: 0 <= i < j < |a| ==> a[i] != a[j] }

  /** What decoding needs of an alphabet: no repeats, 'A' usable as filler, and no
      confusion with the padding symbol. */
  ghost predicate Usable(m: Alphabet) { Injective(m) && FILL in m && PAD !in m }

  lemma {:induction false} FromPosition(a: seq<Byte>, i: nat)
    requires |a| <= 64 && i < |a| && Injective(a)
    ensures SixbitFrom(a, a[i]) == i as Byte
  {
    if i < |a| - 1 {
      assert a[..|a| - 1][i] == a[i];
      FromPosition(a[..|a| - 1], i);
    }
  }

  lemma {:induction false} FromMember(a: seq<Byte>, c: Byte)
    requires |a| <= 64
    ensures SixbitFrom(a, c) != NONE <==> c in a
    ensures c in a ==> SixbitFrom(a, c) < 64
  {
    if a != [] {
      assert a == a[..|a| - 1] + [a[|a| - 1]];
      FromMember(a[..|a| - 1], c);
    }
  }

  lemma {:induction false} SixbitInverse(m: Alphabet, s: Byte)
    requires Injective(m) && s < 64
    ensures SixbitFrom(m, SixbitTo(m, s)) == s
  {
    FromPosition(m, s as nat);
  }

  // ----- round trip

  /** A 24-bit input group, and its 6-bit groups from the most significant end,
      as section 4 of RFC 4648 defines them. */
  function Group(a: Byte, b: Byte, c: Byte): bv24 {
    ((a as bv24) << 16) | ((b as bv24) << 8) | (c as bv24)
  }

  function Sextet(g: bv24, k: nat): (r: Byte)
    requires k < 4
    ensures r < 64
  {
    var x: bv24 := if k == 0 then g >> 18 else if k == 1 then g >> 12 else if k == 2 then g >> 6 else g;
    (x & 0x3f) as Byte
  }

  lemma {:induction false} SextetBits(a: Byte, b: Byte, c: Byte)
    ensures Sextet(Group(a, b, c), 0) == (a & 0xfc) >> 2
    ensures Sextet(Group(a, b, c), 1) == ((a & 0x3) << 4) | ((b & 0xf0) >> 4)
    ensures Sextet(Group(a, b, c), 2) == ((c & 0xc0) >> 6) | ((b & 0xf) << 2)
    ensures Sextet(Group(a, b, c), 3) == c & 0x3f
  {}

  lemma {:induction false} TripletSextets(m: Alphabet, a: Byte, b: Byte, c: Byte, k: nat)
    requires k < 4
    ensures EncodeTriplet(m, a, b, c)[k] == SixbitTo(m, Sextet(Group(a, b, c), k))
  {
    SextetBits(a, b, c);
  }

  function ByteAt(s: seq<Byte>, i: nat): Byte { if i < |s| then s[i] else 0 }

  /** What section 4 of RFC 4648 puts at position i of an encoding: the letter for
      6-bit group i % 4 of 24-bit group i / 4, zero-extended at the end of the
      input, or the padding symbol where that 6-bit group holds no input bit. */
  function RfcCharacter(m: Alphabet, s: seq<Byte>, i: nat): Byte {
    var j := i / 4 * 3;
    if j + i % 4 <= |s|
    then SixbitTo(m, Sextet(Group(ByteAt(s, j), ByteAt(s, j + 1), ByteAt(s, j + 2)), i % 4))
    else PAD
  }

  lemma {:induction false} FirstOfMany(m: Alphabet, s: seq<Byte>, i: nat)
    requires |s| >= 3 && i < 4
    ensures Encoded(m, s)[i] == SixbitTo(m, Sextet(Group(s[0], s[1], s[2]), i))
  {
    TripletSextets(m, s[0], s[1], s[2], i);
    assert Encoded(m, s)[i] == EncodeTriplet(m, s[0], s[1], s[2])[i];
  }

  lemma {:induction false} TailGroup(m: Alphabet, s: seq<Byte>, i: nat)
    requires 1 <= |s| < 3 && i < 4
    ensures Encoded(m, s)[i] ==
            if i <= |s| then SixbitTo(m, Sextet(Group(s[0], ByteAt(s, 1), ByteAt(s, 2)), i)) else PAD
  {
    TripletSextets(m, s[0], ByteAt(s, 1), ByteAt(s, 2), i);
    assert Encoded(m, s) == EncodeTail(m, s);
  }

  lemma {:induction false} FirstGroup(m: Alphabet, s: seq<Byte>, i: nat)
    requires s != [] && i < 4
    ensures Encoded(m, s)[i] == RfcCharacter(m, s, i)
  {
    assert i / 4 * 3 == 0 && i % 4 == i;
    if |s| >= 3 {
      FirstOfMany(m, s, i);
    } else {
      TailGroup(m, s, i);
    }
  }

  lemma {:induction false} LaterGroup(m: Alphabet, s: seq<Byte>, i: nat)
    requires |s| >= 3
    ensures RfcCharacter(m, s[3..], i) == RfcCharacter(m, s, i + 4)
  {
    var j := i / 4 * 3;
    assert (i + 4) / 4 * 3 == j + 3 && (i + 4) % 4 == i % 4;
    assert ByteAt(s[3..], j) == ByteAt(s, j + 3);
    assert ByteAt(s[3..], j + 1) == ByteAt(s, j + 4);
    assert ByteAt(s[3..], j + 2) == ByteAt(s, j + 5);
  }

  lemma {:induction false} EncodedIsRfc4648(m: Alphabet, s: seq<Byte>, i: nat)
    requires i < EncodedLength(|s|)
    ensures Encoded(m, s)[i] == RfcCharacter(m, s, i)
    decreases |s|
  {
    if i < 4 {
      FirstGroup(m, s, i);
    } else {
      LaterGroup(m, s, i - 4);
      EncodedIsRfc4648(m, s[3..], i - 4);
      assert Encoded(m, s)[i] == Encoded(m, s[3..])[i - 4];
    }
  }

  lemma {:induction false} SextetsRejoin(a: Byte, b: Byte, c: Byte)
    ensures var s0, s1 := (a & 0xfc) >> 2, ((a & 0x3) << 4) | ((b & 0xf0) >> 4);
            var s2, s3 := ((c & 0xc0) >> 6) | ((b & 0xf) << 2), c & 0x3f;
            && (s0 << 2) | (s1 >> 4) == a
            && ((s1 & 0xf) << 4) | (s2 >> 2) == b
            && ((s2 & 0x3) << 6) | s3 == c
  {}

  lemma {:induction false} TripletInverse(m: Alphabet, a: Byte, b: Byte, c: Byte)
    requires Injective(m)
    ensures DecodeQuartet(m, EncodeTriplet(m, a, b, c)) == Some([a, b, c])
  {
    var s0, s1 := (a & 0xfc) >> 2, ((a & 0x3) << 4) | ((b & 0xf0) >> 4);
    var s2, s3 := ((c & 0xc0) >> 6) | ((b & 0xf) << 2), c & 0x3f;
    SixbitInverse(m, s0);
    SixbitInverse(m, s1);
    SixbitInverse(m, s2);
    SixbitInverse(m, s3);
    SextetsRejoin(a, b, c);
  }

  /** The first len bytes of a decoded quartet depend on its first len + 1 letters. */
  lemma {:induction false} QuartetPrefix(m: Alphabet, q: seq<Byte>, t: seq<Byte>, len: nat)
    requires |q| == |t| == 4 && 1 <= len <= 3 && q[..len + 1] == t[..len + 1]
    requires DecodeQuartet(m, q).Some? && DecodeQuartet(m, t).Some?
    ensures DecodeQuartet(m, q).value[..len] == DecodeQuartet(m, t).value[..len]
  {
    assert q[0] == q[..len + 1][0] == t[0] && q[1] == q[..len + 1][1] == t[1];
    if len >= 2 { assert q[2] == q[..len + 1][2] == t[2]; }
    if len >= 3 { assert q[3] == q[..len + 1][3] == t[3]; }
  }

  lemma {:induction false} QuartetDecodes(m: Alphabet, q: seq<Byte>)
    requires |q| == 4
    ensures DecodeQuartet(m, q).Some? <==> forall i :: 0 <= i < 4 ==> q[i] in m
  {
    FromMember(m, q[0]);
    FromMember(m, q[1]);
    FromMember(m, q[2]);
    FromMember(m, q[3]);
  }

  /** A quartet cut to its first letters and filled up decodes to the first bytes. */
  lemma {:induction false} CutQuartet(m: Alphabet, t: seq<Byte>, bytes: seq<Byte>, len: nat)
    requires FILL in m && |t| == 4 && 1 <= len <= 3 && DecodeQuartet(m, t) == Some(bytes)
    ensures var r := DecodeQuartet(m, t[..1 + len] + seq(3 - len, _ => FILL));
            r.Some? && r.value[..len] == bytes[..len]
  {
    var q := t[..1 + len] + seq(3 - len, _ => FILL);
    QuartetDecodes(m, t);
    QuartetDecodes(m, q);
    QuartetPrefix(m, q, t, len);
  }

  lemma {:induction false} PaddedTail(m: Alphabet, u: seq<Byte>)
    requires 2 <= |u| <= 4 && u[|u| - 1] != PAD && DecodeQuartet(m, u + seq(4 - |u|, _ => FILL)).Some?
    ensures DecodeTail(m, u + seq(4 - |u|, _ => PAD))
            == Some(DecodeQuartet(m, u + seq(4 - |u|, _ => FILL)).value[..|u| - 1])
  {
    UnpaddedOf(u, 4 - |u|);
  }

  /** Cutting a quartet of letters and padding it loses just the last bytes. */
  lemma {:induction false} CutTail(m: Alphabet, t: seq<Byte>, bytes: seq<Byte>, len: nat)
    requires FILL in m && PAD !in m && |t| == 4 && 1 <= len <= 3 && DecodeQuartet(m, t) == Some(bytes)
    ensures DecodeTail(m, t[..1 + len] + seq(3 - len, _ => PAD)) == Some(bytes[..len])
  {
    var u := t[..1 + len];
    CutQuartet(m, t, bytes, len);
    QuartetDecodes(m, t);
    assert u[len] == t[len] && 4 - |u| == 3 - len;
    PaddedTail(m, u);
  }

  lemma {:induction false} TailInverse(m: Alphabet, s: seq<Byte>)
    requires Usable(m) && 1 <= |s| <= 3
    ensures DecodeTail(m, EncodeTail(m, s)) == Some(s)
  {
    var b, c := if |s| > 1 then s[1] else 0, if |s| > 2 then s[2] else 0;
    TripletInverse(m, s[0], b, c);
    CutTail(m, EncodeTriplet(m, s[0], b, c), [s[0], b, c], |s|);
    assert [s[0], b, c][..|s|] == s;
  }

  lemma {:induction false} UnpaddedOf(u: seq<Byte>, k: nat)
    requires u != [] && u[|u| - 1] != PAD
    ensures Unpadded(u + seq(k, _ => PAD)) == u
  {
    var s := u + seq(k, _ => PAD);
    if k > 0 {
      assert s[..|s| - 1] == u + seq(k - 1, _ => PAD);
      UnpaddedOf(u, k - 1);
    } else {
      assert s == u;
    }
  }

  lemma {:induction false} QuartetThenRest(m: Alphabet, t: seq<Byte>, rest: seq<Byte>, head: seq<Byte>, tail: seq<Byte>)
    requires |t| == 4 && rest != []
    requires DecodeQuartet(m, t) == Some(head) && Decoded(m, rest) == Some(tail)
    ensures Decoded(m, t + rest) == Some(head + tail)
  {
    assert (t + rest)[..4] == t && (t + rest)[4..] == rest;
  }

  lemma {:induction false} LastTriplet(m: Alphabet, s: seq<Byte>)
    requires |s| == 3
    ensures Encoded(m, s) == EncodeTail(m, s)
  {
    assert s[3..] == [];
  }

  lemma {:induction false} RoundTrip(m: Alphabet, s: seq<Byte>)
    requires Usable(m)
    ensures Decoded(m, Encoded(m, s)) == Some(s)
    decreases |s|
  {
    if |s| > 3 {
      TripletInverse(m, s[0], s[1], s[2]);
      RoundTrip(m, s[3..]);
      QuartetThenRest(m, EncodeTriplet(m, s[0], s[1], s[2]), Encoded(m, s[3..]), [s[0], s[1], s[2]], s[3..]);
      assert s == [s[0], s[1], s[2]] + s[3..];
    } else if s != [] {
      if |s| == 3 { LastTriplet(m, s); }
      TailInverse(m, s);
    }
  }

  // ----- which alphabets decode

  lemma {:induction false} TopSextet(p: Byte)
    requires p < 64
    ensures ((p << 2) & 0xfc) >> 2 == p && (p << 2) & 0x3 == 0
  {}

  lemma {:induction false} TopLetter(m: Alphabet, p: Byte)
    requires p < 64
    ensures Encoded(m, [p << 2, 0, 0]) == [SixbitTo(m, p), m[0], m[0], m[0]]
  {
    TopSextet(p);
    assert Encoded(m, [p << 2, 0, 0]) == EncodeTriplet(m, p << 2, 0, 0);
  }

  lemma {:induction false} RepeatedSixbit(m: Alphabet, p: Byte, q: Byte)
    requires p < 64 && q < 64 && p != q && SixbitTo(m, p) == SixbitTo(m, q)
    ensures exists s :: Decoded(m, Encoded(m, s)) != Some(s)
  {
    var s, t := [p << 2, 0, 0], [q << 2, 0, 0];
    assert s[0] != t[0] by {
      TopSextet(p);
      TopSextet(q);
    }
    assert Encoded(m, s) == Encoded(m, t) by {
      TopLetter(m, p);
      TopLetter(m, q);
    }
  }

  /** A position in the alphabet as a six-bit value and back. */
  lemma {:induction false} PositionByte(i: nat)
    requires i < 64
    ensures (i as Byte) as nat == i && (i as Byte) < 64
  {
    if i < 16 {
    } else if i < 32 {
    } else if i < 48 {
    } else {
    }
  }

  lemma {:induction false} RepeatedLetter(m: Alphabet, i: nat, j: nat)
    requires i < j < 64 && m[i] == m[j]
    ensures exists s :: Decoded(m, Encoded(m, s)) != Some(s)
  {
    PositionByte(i);
    PositionByte(j);
    RepeatedSixbit(m, i as Byte, j as Byte);
  }

  /** A four-letter encoding that ends in the padding symbol decodes to fewer than
      three bytes, if at all. */
  lemma {:induction false} PaddedQuartet(m: Alphabet, e: seq<Byte>)
    requires |e| == 4 && e[3] == PAD
    ensures Decoded(m, e).Some? ==> |Decoded(m, e).value| < 3
  {
    assert Unpadded(e) == Unpadded(e[..3]);
  }

  lemma {:induction false} PaddingLetter(m: Alphabet, p: Byte)
    requires p < 64 && SixbitTo(m, p) == PAD
    ensures exists s :: Decoded(m, Encoded(m, s)) != Some(s)
  {
    var s := [0, 0, p];
    assert p & 0x3f == p;
    LastTriplet(m, s);
    PaddedQuartet(m, Encoded(m, s));
    assert Decoded(m, Encoded(m, s)) != Some(s);
  }

  lemma {:induction false} MissingFiller(m: Alphabet)
    requires FILL !in m && PAD !in m
    ensures exists s :: Decoded(m, Encoded(m, s)) != Some(s)
  {
    var s: seq<Byte> := [0];
    var u := EncodeTriplet(m, 0, 0, 0)[..2];
    assert u[1] in m;
    UnpaddedOf(u, 2);
    assert Encoded(m, s) == u + seq(2, _ => PAD);
    var q := u + seq(2, _ => FILL);
    QuartetDecodes(m, q);
    assert q[2] !in m;
    assert Decoded(m, Encoded(m, s)) == None;
  }

  lemma {:induction false} UnusableFails(m: Alphabet)
    requires !Usable(m)
    ensures exists s :: Decoded(m, Encoded(m, s)) != Some(s)
  {
    if k :| 0 <= k < 64 && m[k] == PAD {
      PositionByte(k);
      PaddingLetter(m, k as Byte);
    } else if FILL !in m {
      MissingFiller(m);
    } else {
      var i, j :| 0 <= i < j < |m| && m[i] == m[j];
      RepeatedLetter(m, i, j);
    }
  }

  /** Decoding inverts encoding on every byte string exactly for the usable
      alphabets. */
  lemma {:induction false} RoundTripIffUsable(m: Alphabet)
    ensures (forall s :: Decoded(m, Encoded(m, s)) == Some(s)) <==> Usable(m)
  {
    if Usable(m) {
      forall s ensures Decoded(m, Encoded(m, s)) == Some(s) { RoundTrip(m, s); }
    } else {
      UnusableFails(m);
    }
  }

  // ----- buffers

  ghost predicate EncodedSoFar(m: Alphabet, src: seq<Byte>, k: nat, done: seq<Byte>) {
    k <= |src| && done + Encoded(m, src[k..]) == Encoded(m, src)
  }

  lemma {:induction false} TripletRoom(m: Alphabet, src: seq<Byte>, k: nat, done: seq<Byte>)
    requires k + 3 <= |src| && EncodedSoFar(m, src, k, done)
    ensures |done| + 4 <= EncodedLength(|src|)
  {
    var rest := Encoded(m, src[k..]);
    assert |rest| == EncodedLength(|src| - k) >= 4;
    assert |done + rest| == EncodedLength(|src|);
  }

  lemma {:induction false} StartEncoding(m: Alphabet, src: seq<Byte>)
    ensures EncodedSoFar(m, src, 0, [])
  {
    assert src[0..] == src;
  }

  lemma {:induction false} TripletDone(m: Alphabet, src: seq<Byte>, k: nat, done: seq<Byte>)
    requires k + 3 <= |src| && EncodedSoFar(m, src, k, done)
    ensures EncodedSoFar(m, src, k + 3, done + EncodeTriplet(m, src[k], src[k + 1], src[k + 2]))
  {
    assert src[k..][3..] == src[k + 3..];
  }

  lemma {:induction false} TailDone(m: Alphabet, src: seq<Byte>, k: nat, done: seq<Byte>)
    requires k < |src| < k + 3 && EncodedSoFar(m, src, k, done)
    ensures |done| + 4 == EncodedLength(|src|) && done + EncodeTail(m, src[k..]) == Encoded(m, src)
  {}

  method EncodeNext(maps: Maps, ghost m: Alphabet, dest: array<Byte>, src: seq<Byte>, k: nat, n: nat)
    requires MapsOf(maps, m) && k + 3 <= |src| && n + 4 <= dest.Length && EncodedSoFar(m, src, k, dest[..n])
    modifies dest
    ensures EncodedSoFar(m, src, k + 3, dest[..n + 4])
  {
    ghost var done := dest[..n];
    TripletDone(m, src, k, done);
    EncodeTripletAt(maps, m, dest, n, src[k], src[k + 1], src[k + 2]);
    assert dest[..n + 4] == done + dest[n..n + 4];
  }

  method EncodeTriplets(maps: Maps, ghost m: Alphabet, dest: array<Byte>, src: seq<Byte>) returns (k: nat, n: nat)
    requires MapsOf(maps, m) && EncodedLength(|src|) <= dest.Length
    modifies dest
    ensures |src| - k < 3 && n <= dest.Length && EncodedSoFar(m, src, k, dest[..n])
  {
    k, n := 0, 0;
    StartEncoding(m, src);
    assert dest[..0] == [];
    while |src| - k >= 3
      invariant n <= dest.Length && EncodedSoFar(m, src, k, dest[..n])
    {
      TripletRoom(m, src, k, dest[..n]);
      EncodeNext(maps, m, dest, src, k, n);
      k, n := k + 3, n + 4;
    }
  }

  method Encode(maps: Maps, ghost m: Alphabet, dest: array<Byte>, src: seq<Byte>) returns (r: int)
    requires MapsOf(maps, m)
    modifies dest
    ensures dest.Length < EncodedLength(|src|) ==> r == -1 && dest[..] == old(dest[..])
    ensures dest.Length >= EncodedLength(|src|) ==>
              r == EncodedLength(|src|) && dest[..r] == Encoded(m, src)
              && forall i :: r <= i < dest.Length ==> dest[i] == 0
  {
    if dest.Length < EncodedLength(|src|) {
      return -1;
    }
    var k, n := EncodeTriplets(maps, m, dest, src);
    if k < |src| {
      ghost var done := dest[..n];
      TailDone(m, src, k, done);
      EncodeTailAt(maps, m, dest, n, src[k..]);
      assert dest[..n + 4] == done + dest[n..n + 4];
      n := n + 4;
    }
    ZeroFrom(dest, n);
    r := n;
  }

  lemma {:induction false} TripletByTable(maps: Maps, m: Alphabet, a: Byte, b: Byte, c: Byte)
    requires MapsOf(maps, m)
    ensures EncodeTriplet(m, a, b, c) ==
            [maps.encode[((a & 0xfc) >> 2) as nat], maps.encode[(((a & 0x3) << 4) | ((b & 0xf0) >> 4)) as nat],
             maps.encode[(((c & 0xc0) >> 6) | ((b & 0xf) << 2)) as nat], maps.encode[(c & 0x3f) as nat]]
  {
  }

  method EncodeTripletAt(maps: Maps, ghost m: Alphabet, dest: array<Byte>, at: nat, a: Byte, b: Byte, c: Byte)
    requires MapsOf(maps, m) && at + 4 <= dest.Length
    modifies dest
    ensures dest[at..at + 4] == EncodeTriplet(m, a, b, c) && dest[..at] == old(dest[..at])
  {
    TripletByTable(maps, m, a, b, c);
    StoreFour(dest, at,
              maps.encode[((a & 0xfc) >> 2) as nat], maps.encode[(((a & 0x3) << 4) | ((b & 0xf0) >> 4)) as nat],
              maps.encode[(((c & 0xc0) >> 6) | ((b & 0xf) << 2)) as nat], maps.encode[(c & 0x3f) as nat]);
  }

  method StoreFour(dest: array<Byte>, at: nat, w: Byte, x: Byte, y: Byte, z: Byte)
    requires at + 4 <= dest.Length
    modifies dest
    ensures dest[at..at + 4] == [w, x, y, z] && dest[..at] == old(dest[..at])
  {
    dest[at], dest[at + 1], dest[at + 2], dest[at + 3] := w, x, y, z;
  }

  method EncodeTailAt(maps: Maps, ghost m: Alphabet, dest: array<Byte>, at: nat, s: seq<Byte>)
    requires MapsOf(maps, m) && at + 4 <= dest.Length && 1 <= |s| <= 3
    modifies dest
    ensures dest[at..at + 4] == EncodeTail(m, s) && dest[..at] == old(dest[..at])
  {
    var long := s + seq(3 - |s|, _ => 0);
    EncodeTripletAt(maps, m, dest, at, long[0], long[1], long[2]);
    ghost var triplet, before := EncodeTriplet(m, long[0], long[1], long[2]), dest[..];
    var keep := 1 + |s|;
    forall i | at + keep <= i < at + 4 { dest[i] := PAD; }
    assert dest[..at] == before[..at];
    assert dest[at..at + keep] == before[at..at + keep] == triplet[..keep];
    assert dest[at + keep..at + 4] == seq(3 - |s|, _ => PAD);
    assert dest[at..at + 4] == dest[at..at + keep] + dest[at + keep..at + 4];
  }

  ghost predicate DecodedSoFar(m: Alphabet, src: seq<Byte>, k: nat, done: seq<Byte>) {
    && k <= |src|
    && Decoded(m, src) == match Decoded(m, src[k..]) case None => None case Some(rest) => Some(done + rest)
  }

  lemma {:induction false} QuartetDone(m: Alphabet, src: seq<Byte>, k: nat, done: seq<Byte>)
    requires k + 4 < |src| && DecodedSoFar(m, src, k, done)
    ensures var q := DecodeQuartet(m, src[k..k + 4]);
            if q.None? then Decoded(m, src) == None else DecodedSoFar(m, src, k + 4, done + q.value)
  {
    var s := src[k..];
    assert s[..4] == src[k..k + 4] && s[4..] == src[k + 4..];
    if DecodeQuartet(m, s[..4]).Some? && Decoded(m, s[4..]).Some? {
      var head, rest := DecodeQuartet(m, s[..4]).value, Decoded(m, s[4..]).value;
      assert done + (head + rest) == (done + head) + rest;
    }
  }

  lemma {:induction false} QuartetByTable(maps: Maps, m: Alphabet, s: seq<Byte>)
    requires MapsOf(maps, m) && |s| == 4
    ensures var a, b := maps.decode[s[0] as nat], maps.decode[s[1] as nat];
            var c, d := maps.decode[s[2] as nat], maps.decode[s[3] as nat];
            DecodeQuartet(m, s) ==
            if a == NONE || b == NONE || c == NONE || d == NONE then None
            else Some([(a << 2) | (b >> 4), ((b & 0xf) << 4) | (c >> 2), ((c & 0x3) << 6) | d])
  {
  }

  method DecodeQuartetAt(maps: Maps, ghost m: Alphabet, dest: array<Byte>, at: nat, s: seq<Byte>) returns (ok: bool)
    requires MapsOf(maps, m) && at + 3 <= dest.Length && |s| == 4
    modifies dest
    ensures dest[..at] == old(dest[..at])
    ensures ok <==> DecodeQuartet(m, s).Some?
    ensures ok ==> dest[at..at + 3] == DecodeQuartet(m, s).value
  {
    QuartetByTable(maps, m, s);
    var a, b := maps.decode[s[0] as nat], maps.decode[s[1] as nat];
    var c, d := maps.decode[s[2] as nat], maps.decode[s[3] as nat];
    if a == NONE || b == NONE || c == NONE || d == NONE {
      return false;
    }
    Store(dest, at, (a << 2) | (b >> 4), ((b & 0xf) << 4) | (c >> 2), ((c & 0x3) << 6) | d);
    ok := true;
  }

  method Store(dest: array<Byte>, at: nat, x: Byte, y: Byte, z: Byte)
    requires at + 3 <= dest.Length
    modifies dest
    ensures dest[at..at + 3] == [x, y, z] && dest[..at] == old(dest[..at])
  {
    dest[at], dest[at + 1], dest[at + 2] := x, y, z;
  }

  method StripPadding(s: seq<Byte>) returns (insize: nat)
    ensures insize <= |s| && Unpadded(s) == s[..insize]
    ensures (insize > 0 ==> s[insize - 1] != PAD) && forall i :: insize <= i < |s| ==> s[i] == PAD
  {
    insize := |s|;
    assert s[..insize] == s;
    while insize != 0 && s[insize - 1] == PAD
      invariant 0 <= insize <= |s| && Unpadded(s) == Unpadded(s[..insize])
    {
      assert s[..insize][..insize - 1] == s[..insize - 1];
      insize := insize - 1;
    }
  }

  method DecodeTailAt(maps: Maps, ghost m: Alphabet, dest: array<Byte>, at: nat, s: seq<Byte>) returns (more: int)
    requires MapsOf(maps, m) && at + (if s == [] then 0 else 3) <= dest.Length && |s| <= 4
    modifies dest
    ensures dest[..at] == old(dest[..at])
    ensures DecodeTail(m, s).None? ==> more == -1
    ensures DecodeTail(m, s).Some? ==>
              0 <= more && at + more <= dest.Length && dest[at..at + more] == DecodeTail(m, s).value
  {
    var insize := StripPadding(s);
    if insize == 0 { return 0; }
    if insize == 1 { return -1; }
    var long := s[..insize] + seq(4 - insize, _ => FILL);
    var ok := DecodeQuartetAt(maps, m, dest, at, long);
    if !ok { return -1; }
    assert dest[at..at + (insize - 1)] == dest[at..at + 3][..insize - 1];
    return insize - 1;
  }

  method DecodeNext(maps: Maps, ghost m: Alphabet, dest: array<Byte>, src: seq<Byte>, i: nat, n: nat) returns (ok: bool)
    requires MapsOf(maps, m) && i + 4 < |src| && n + 3 <= dest.Length && DecodedSoFar(m, src, i, dest[..n])
    modifies dest
    ensures ok ==> DecodedSoFar(m, src, i + 4, dest[..n + 3])
    ensures !ok ==> Decoded(m, src) == None
  {
    ghost var done := dest[..n];
    QuartetDone(m, src, i, done);
    ok := DecodeQuartetAt(maps, m, dest, n, src[i..i + 4]);
    assert dest[..n + 3] == dest[..n] + dest[n..n + 3];
  }

  method DecodeQuartets(maps: Maps, ghost m: Alphabet, dest: array<Byte>, src: seq<Byte>)
    returns (ok: bool, i: nat, n: nat)
    requires MapsOf(maps, m) && DecodedLength(|src|) <= dest.Length
    modifies dest
    ensures !ok ==> Decoded(m, src) == None
    ensures ok ==> i <= |src| <= i + 4 && n + (if i == |src| then 0 else 3) <= dest.Length
    ensures ok ==> DecodedSoFar(m, src, i, dest[..n])
  {
    ok, i, n := true, 0, 0;
    StartDecoding(m, src);
    Room(|src|, 0);
    ghost var g := 0;
    while |src| - i > 4
      invariant i == 4 * g <= |src| && n == 3 * g && n + (if i == |src| then 0 else 3) <= dest.Length
      invariant ok && DecodedSoFar(m, src, i, dest[..n])
    {
      ok := DecodeNext(maps, m, dest, src, i, n);
      if !ok { return; }
      n, i, g := n + 3, i + 4, g + 1;
      Room(|src|, g);
    }
  }

  lemma {:induction false} Room(len: nat, g: nat)
    requires 4 * g <= len
    ensures 3 * g + (if 4 * g == len then 0 else 3) <= DecodedLength(len)
  {}

  lemma {:induction false} StartDecoding(m: Alphabet, src: seq<Byte>)
    ensures DecodedSoFar(m, src, 0, [])
  {
    assert src[0..] == src;
    if Decoded(m, src).Some? { assert [] + Decoded(m, src).value == Decoded(m, src).value; }
  }

  lemma {:induction false} TailDecoded(m: Alphabet, src: seq<Byte>, k: nat, done: seq<Byte>)
    requires k <= |src| <= k + 4 && DecodedSoFar(m, src, k, done)
    ensures Decoded(m, src) ==
              match DecodeTail(m, src[k..]) case None => None case Some(rest) => Some(done + rest)
  {}

  method Decode(maps: Maps, ghost m: Alphabet, dest: array<Byte>, src: seq<Byte>) returns (r: int)
    requires MapsOf(maps, m)
    modifies dest
    ensures dest.Length < (|src| + 3) / 4 * 3 ==> r == -1 && dest[..] == old(dest[..])
    ensures dest.Length >= (|src| + 3) / 4 * 3 && Decoded(m, src).None? ==> r == -1
    ensures dest.Length >= (|src| + 3) / 4 * 3 && Decoded(m, src).Some? ==>
              && 0 <= r <= dest.Length && dest[..r] == Decoded(m, src).value
              && forall i :: r <= i < dest.Length ==> dest[i] == 0
  {
    if dest.Length < DecodedLength(|src|) {
      return -1;
    }
    var ok, i, n := DecodeQuartets(maps, m, dest, src);
    if !ok { return -1; }
    r := DecodeLast(maps, m, dest, src, i, n);
  }

  /** The last group, and NULs up to the end of the buffer. */
  method DecodeLast(maps: Maps, ghost m: Alphabet, dest: array<Byte>, src: seq<Byte>, i: nat, n: nat) returns (r: int)
    requires MapsOf(maps, m) && i <= |src| <= i + 4 && n + (if i == |src| then 0 else 3) <= dest.Length
    requires DecodedSoFar(m, src, i, dest[..n])
    modifies dest
    ensures Decoded(m, src).None? ==> r == -1
    ensures Decoded(m, src).Some? ==>
              && 0 <= r <= dest.Length && dest[..r] == Decoded(m, src).value
              && forall k :: r <= k < dest.Length ==> dest[k] == 0
  {
    ghost var done := dest[..n];
    TailDecoded(m, src, i, done);
    var more := DecodeTailAt(maps, m, dest, n, src[i..]);
    if more == -1 { return -1; }
    assert dest[..n + more] == done + dest[n..n + more];
    ZeroFrom(dest, n + more);
    r := n + more;
  }

  method ZeroFrom(dest: array<Byte>, n: nat)
    requires n <= dest.Length
    modifies dest
    ensures dest[..n] == old(dest[..n]) && forall i :: n <= i < dest.Length ==> dest[i] == 0
  {
    forall i | n <= i < dest.Length { dest[i] := 0; }
  }
}
