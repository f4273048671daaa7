/** The alphabet of RFC 4648 and the pregenerated maps for it. */
module Base64Rfc4648 {
  import opened Base64

  /** The letters in order: A-Z, a-z, 0-9, + and /. */
  function Letter(b: Byte): Byte {
    if b < 26 then 65 + b
    else if b < 52 then 97 + (b - 26)
    else if b < 62 then 48 + (b - 52)
    else if b == 62 then 43
    else 47
  }

  /** The entries of the pregenerated decode table, run by run. */
  function Entry(c: Byte): Byte {
    if c == 43 then 62
    else if c == 47 then 63
    else if 48 <= c <= 57 then 52 + (c - 48)
    else if 65 <= c <= 90 then c - 65
    else if 97 <= c <= 122 then 26 + (c - 97)
    else NONE
  }

  const RFC4648: Alphabet := seq(64, i requires 0 <= i < 64 => Letter(i as Byte))

  /** base64_maps_rfc4648. */
  const MAPS_RFC4648 := Maps(RFC4648, seq(256, c requires 0 <= c < 256 => Entry(c as Byte)))

  lemma {:induction false} EntryInverse(b: Byte)
    requires b < 64
    ensures Entry(Letter(b)) == b && Letter(b) != PAD
  {
  }

  lemma {:induction false} LetterInverse(c: Byte)
    requires Entry(c) != NONE
    ensures Entry(c) < 64 && Letter(Entry(c)) == c
  {
  }

  lemma {:induction false} ByteBack(c: Byte)
    ensures (c as nat) as Byte == c
    ensures c < 64 ==> c as nat < 64
  {
  }

  lemma {:induction false} LetterAt(i: nat)
    requires i < 64
    ensures Entry(RFC4648[i]) as nat == i && RFC4648[i] != PAD
  {
    PositionByte(i);
    EntryInverse(i as Byte);
  }

  /** The RFC's alphabet is one for which decoding inverts encoding. */
  lemma {:induction false} Rfc4648IsUsable()
    ensures Usable(RFC4648)
  {
    forall i, j | 0 <= i < j < 64 ensures RFC4648[i] != RFC4648[j] {
      LetterAt(i);
      LetterAt(j);
    }
    assert RFC4648[0] == FILL;
    forall i | 0 <= i < 64 ensures RFC4648[i] != PAD {
      LetterAt(i);
    }
  }

  lemma {:induction false} EntryOfLetter(c: Byte)
    requires Entry(c) != NONE
    ensures SixbitFrom(RFC4648, c) == Entry(c)
  {
    var e := Entry(c);
    LetterInverse(c);
    ByteBack(e);
    assert RFC4648[e as nat] == c;
    Rfc4648IsUsable();
    FromPosition(RFC4648, e as nat);
  }

  lemma {:induction false} EntryOfOther(c: Byte)
    requires Entry(c) == NONE
    ensures SixbitFrom(RFC4648, c) == NONE
  {
    forall i | 0 <= i < 64 ensures RFC4648[i] != c {
      PositionByte(i);
      EntryInverse(i as Byte);
    }
    FromMember(RFC4648, c);
  }

  /** The pregenerated maps are those that base64_init_maps would make. */
  lemma {:induction false} PregeneratedMaps()
    ensures MapsOf(MAPS_RFC4648, RFC4648)
  {
    forall c: Byte ensures MAPS_RFC4648.decode[c as nat] == SixbitFrom(RFC4648, c) {
      ByteBack(c);
      if Entry(c) == NONE { EntryOfOther(c); } else { EntryOfLetter(c); }
    }
  }
}
