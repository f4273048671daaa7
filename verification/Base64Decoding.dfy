/** What ccan/base64 accepts and what it makes of it, for any input and alphabet. */
module Base64Decoding {
  import opened Base64

  /** Where the last group of an input starts. */
  function TailStart(n: nat): nat { if n == 0 then 0 else (n - 1) / 4 * 4 }

  /** The last group without its padding. */
  function Tail(s: seq<Byte>): seq<Byte> { Unpadded(s[TailStart(|s|)..]) }

  /** Every character up to the padding of the last group is in the alphabet; the last
      group is not of one letter; and what fills it up, if it is short, is a letter. */
  ghost predicate WellFormed(m: Alphabet, s: seq<Byte>) {
    && (forall i :: 0 <= i < TailStart(|s|) + |Tail(s)| ==> s[i] in m)
    && |Tail(s)| != 1 && (|Tail(s)| == 2 || |Tail(s)| == 3 ==> FILL in m)
  }

  /** How many bytes an input stands for. */
  function Bytes(s: seq<Byte>): nat { TailStart(|s|) / 4 * 3 + if Tail(s) == [] then 0 else |Tail(s)| - 1 }

  lemma {:induction false} TailOfRest(s: seq<Byte>)
    requires |s| > 4
    ensures TailStart(|s|) == TailStart(|s| - 4) + 4 && Tail(s) == Tail(s[4..]) && Bytes(s) == 3 + Bytes(s[4..])
  {
    assert (|s| - 1) / 4 == (|s| - 5) / 4 + 1;
    assert s[4..][TailStart(|s| - 4)..] == s[TailStart(|s|)..];
  }

  lemma {:induction false} LastGroup(m: Alphabet, s: seq<Byte>)
    requires |s| <= 4
    ensures Decoded(m, s).Some? <==> WellFormed(m, s)
    ensures Decoded(m, s).Some? ==> |Decoded(m, s).value| == Bytes(s)
  {
    var u := Tail(s);
    assert s[0..] == s && u == Unpadded(s);
    if |u| > 1 {
      var q := u + seq(4 - |u|, _ => FILL);
      QuartetDecodes(m, q);
      assert forall i :: 0 <= i < |u| ==> q[i] == s[i];
      assert forall i :: |u| <= i < 4 ==> q[i] == FILL;
    }
  }

  lemma {:induction false} MoreWellFormed(m: Alphabet, s: seq<Byte>)
    requires |s| > 4
    ensures WellFormed(m, s) <==> WellFormed(m, s[4..]) && forall i :: 0 <= i < 4 ==> s[i] in m
  {
    TailOfRest(s);
    var n := TailStart(|s|) + |Tail(s)|;
    if WellFormed(m, s[4..]) && forall i :: 0 <= i < 4 ==> s[i] in m {
      forall i | 0 <= i < n ensures s[i] in m {
        if i >= 4 { assert s[4..][i - 4] == s[i]; }
      }
    }
    if WellFormed(m, s) {
      forall i | 0 <= i < n - 4 ensures s[4..][i] in m { assert s[4..][i] == s[i + 4]; }
    }
  }

  /** Decoding accepts exactly the well-formed inputs, and gives three bytes for each
      full group and one less than its letters for the last. */
  lemma {:induction false} DecodesIff(m: Alphabet, s: seq<Byte>)
    ensures Decoded(m, s).Some? <==> WellFormed(m, s)
    ensures Decoded(m, s).Some? ==> |Decoded(m, s).value| == Bytes(s)
    decreases |s|
  {
    if |s| > 4 {
      DecodesIff(m, s[4..]);
      TailOfRest(s);
      MoreWellFormed(m, s);
      FirstQuartet(m, s);
    } else {
      LastGroup(m, s);
    }
  }

  lemma {:induction false} FirstQuartet(m: Alphabet, s: seq<Byte>)
    requires |s| > 4
    ensures Decoded(m, s).Some? <==> Decoded(m, s[4..]).Some? && forall i :: 0 <= i < 4 ==> s[i] in m
    ensures Decoded(m, s).Some? ==> |Decoded(m, s).value| == 3 + |Decoded(m, s[4..]).value|
  {
    var q := s[..4];
    QuartetDecodes(m, q);
    assert forall i :: 0 <= i < 4 ==> q[i] == s[i];
  }

  /** The 24 bits of four letters, and their bytes from the most significant end. */
  function Bits(a: Byte, b: Byte, c: Byte, d: Byte): bv24 {
    ((a as bv24) << 18) | ((b as bv24) << 12) | ((c as bv24) << 6) | (d as bv24)
  }

  function Octet(g: bv24, k: nat): Byte
    requires k < 3
  {
    var x: bv24 := if k == 0 then g >> 16 else if k == 1 then g >> 8 else g;
    (x & 0xff) as Byte
  }

  /** The value of the letter at position i; what is no letter counts as 0. */
  function ValueAt(m: Alphabet, s: seq<Byte>, i: nat): (r: Byte)
    ensures r < 64
  {
    if i < |s| && s[i] in m then
      FromMember(m, s[i]);
      SixbitFrom(m, s[i])
    else 0
  }

  /** What section 4 of RFC 4648 makes byte j: the one in the 24 bits of its four
      letters. */
  function RfcByte(m: Alphabet, s: seq<Byte>, j: nat): Byte {
    var i := j / 3 * 4;
    Octet(Bits(ValueAt(m, s, i), ValueAt(m, s, i + 1), ValueAt(m, s, i + 2), ValueAt(m, s, i + 3)), j % 3)
  }

  lemma {:induction false} OctetBits(a: Byte, b: Byte, c: Byte, d: Byte)
    requires a < 64 && b < 64 && c < 64 && d < 64
    ensures Octet(Bits(a, b, c, d), 0) == (a << 2) | (b >> 4)
    ensures Octet(Bits(a, b, c, d), 1) == ((b & 0xf) << 4) | (c >> 2)
    ensures Octet(Bits(a, b, c, d), 2) == ((c & 0x3) << 6) | d
  {
  }

  lemma {:induction false} QuartetByte(m: Alphabet, q: seq<Byte>, s: seq<Byte>, j: nat)
    requires |q| == 4 && j < 3 && DecodeQuartet(m, q).Some?
    requires forall i :: 0 <= i <= j + 1 ==> i < |s| && q[i] == s[i]
    ensures DecodeQuartet(m, q).value[j] == RfcByte(m, s, j)
  {
    QuartetDecodes(m, q);
    assert forall i :: 0 <= i <= j + 1 ==> SixbitFrom(m, q[i]) == ValueAt(m, s, i);
    QuartetOctet(m, q, ValueAt(m, s, 0), ValueAt(m, s, 1), ValueAt(m, s, 2), ValueAt(m, s, 3), j);
    assert j / 3 * 4 == 0 && j % 3 == j;
  }

  lemma {:induction false} QuartetOctet(m: Alphabet, q: seq<Byte>, a: Byte, b: Byte, c: Byte, d: Byte, j: nat)
    requires |q| == 4 && j < 3 && DecodeQuartet(m, q).Some? && a < 64 && b < 64 && c < 64 && d < 64
    requires SixbitFrom(m, q[0]) == a && SixbitFrom(m, q[1]) == b
    requires (j > 0 ==> SixbitFrom(m, q[2]) == c) && (j > 1 ==> SixbitFrom(m, q[3]) == d)
    ensures DecodeQuartet(m, q).value[j] == Octet(Bits(a, b, c, d), j)
  {
    OctetBits(a, b, c, d);
  }

  lemma {:induction false} LaterByte(m: Alphabet, s: seq<Byte>, j: nat)
    requires |s| > 4
    ensures RfcByte(m, s[4..], j) == RfcByte(m, s, j + 3)
  {
    var i := j / 3 * 4;
    assert (j + 3) / 3 * 4 == i + 4 && (j + 3) % 3 == j % 3;
    assert ValueAt(m, s[4..], i) == ValueAt(m, s, i + 4);
    assert ValueAt(m, s[4..], i + 1) == ValueAt(m, s, i + 5);
    assert ValueAt(m, s[4..], i + 2) == ValueAt(m, s, i + 6);
    assert ValueAt(m, s[4..], i + 3) == ValueAt(m, s, i + 7);
  }

  lemma {:induction false} TailByte(m: Alphabet, s: seq<Byte>, j: nat)
    requires |s| <= 4 && Decoded(m, s).Some? && j < |Decoded(m, s).value|
    ensures Decoded(m, s).value[j] == RfcByte(m, s, j)
  {
    LastGroup(m, s);
    var u := Unpadded(s);
    assert s[0..] == s;
    QuartetByte(m, u + seq(4 - |u|, _ => FILL), s, j);
  }

  /** Whatever is accepted, every byte is the one that its letters stand for. */
  lemma {:induction false} DecodedIsRfc4648(m: Alphabet, s: seq<Byte>, j: nat)
    requires Decoded(m, s).Some? && j < |Decoded(m, s).value|
    ensures Decoded(m, s).value[j] == RfcByte(m, s, j)
    decreases |s|
  {
    if |s| <= 4 {
      TailByte(m, s, j);
    } else if j < 3 {
      QuartetByte(m, s[..4], s, j);
    } else {
      LaterByte(m, s, j - 3);
      DecodedIsRfc4648(m, s[4..], j - 3);
    }
  }
}
