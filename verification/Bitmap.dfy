/** The word-level bitmap of ccan/bitmap. A machine word is the sequence of its
    bits, most significant first, so shifts, masks and the byte swap are exact
    and nothing depends on integer rounding. Every operation is specified bit by
    bit through `TestBit`, the library's own single-bit accessor. */
module Bitmap {

  const BYTES := 8
  const BITS := 8 * BYTES

  type Word = w: seq<bool> | |w| == BITS witness seq(BITS, _ => false)

  function Ones(): Word { seq(BITS, _ => true) }
  function Zero(): Word { seq(BITS, _ => false) }
  function And(a: Word, b: Word): Word { seq(BITS, i requires 0 <= i < BITS => a[i] && b[i]) }
  function Or(a: Word, b: Word): Word { seq(BITS, i requires 0 <= i < BITS => a[i] || b[i]) }
  function Not(a: Word): Word { seq(BITS, i requires 0 <= i < BITS => !a[i]) }

  /** The logical right shift of an unsigned long. */
  function ShiftRight(a: Word, k: nat): Word {
    seq(BITS, i requires 0 <= i < BITS => k <= i && a[i - k])
  }

  /** 1UL << k. */
  function OneShiftLeft(k: nat): Word
    requires k < BITS
  {
    seq(BITS, i => i == BITS - 1 - k)
  }

  function SwapIndex(i: nat): (j: nat)
    requires i < BITS
    ensures j < BITS
  {
    (BYTES - 1 - i / 8) * 8 + i % 8
  }

  /** cpu_to_be64 on a little-endian machine: the bytes in reverse order. */
  function Bswap(a: Word): Word {
    seq(BITS, i requires 0 <= i < BITS => a[SwapIndex(i)])
  }

  function WordBit(n: nat): Word { Bswap(OneShiftLeft(BITS - n % BITS - 1)) }

  predicate TestBit(bm: array<Word>, n: nat)
    requires n / BITS < bm.Length
    reads bm
  {
    And(bm[n / BITS], WordBit(n)) != Zero()
  }

  function AlignDown(n: nat): nat { n / BITS * BITS }

  function AlignUp(n: nat): nat { AlignDown(n + BITS - 1) }

  function HeadMask(n: nat): Word { ShiftRight(Ones(), n % BITS) }

  function TailMask(m: nat): Word { Not(ShiftRight(Ones(), m % BITS)) }

  // ----- one word

  lemma {:induction false} SwapTwice(i: nat)
    requires i < BITS
    ensures SwapIndex(SwapIndex(i)) == i
  {}

  /** Testing a bit reads one position of the stored word. */
  lemma {:induction false} TestReads(w: Word, n: nat)
    ensures And(w, WordBit(n)) != Zero() <==> w[SwapIndex(n % BITS)]
  {
    var p := SwapIndex(n % BITS);
    SwapTwice(n % BITS);
    assert WordBit(n)[p];
    forall i: nat | i < BITS && i != p ensures !WordBit(n)[i] { SwapTwice(i); }
    if w[p] {
      assert And(w, WordBit(n))[p] && !Zero()[p];
    } else {
      assert And(w, WordBit(n)) == Zero();
    }
  }

  /** Reading a word through the byte swap lines its bits up with the bitmap's
      bit numbers. */
  lemma {:induction false} TestSwapped(w: Word, n: nat)
    ensures And(w, WordBit(n)) != Zero() <==> Bswap(w)[n % BITS]
  {
    TestReads(w, n);
  }

  lemma {:induction false} MaskedOr(w: Word, mask: Word, n: nat)
    ensures And(Or(w, Bswap(mask)), WordBit(n)) != Zero()
       <==> And(w, WordBit(n)) != Zero() || mask[n % BITS]
  {
    TestReads(w, n);
    TestReads(Or(w, Bswap(mask)), n);
    SwapTwice(n % BITS);
  }

  lemma {:induction false} MaskedClear(w: Word, mask: Word, n: nat)
    ensures And(And(w, Not(Bswap(mask))), WordBit(n)) != Zero()
       <==> And(w, WordBit(n)) != Zero() && !mask[n % BITS]
  {
  }

  // ----- single bits

  method SetBit(bm: array<Word>, n: nat)
    requires n / BITS < bm.Length
    modifies bm
    ensures forall i: nat :: i / BITS < bm.Length ==> (TestBit(bm, i) <==> i == n || old(TestBit(bm, i)))
  {
    bm[n / BITS] := Or(bm[n / BITS], WordBit(n));
    forall i: nat | i / BITS < bm.Length ensures TestBit(bm, i) <==> i == n || old(TestBit(bm, i)) {
      MaskedOr(old(bm[i / BITS]), OneShiftLeft(BITS - n % BITS - 1), i);
    }
  }

  method ClearBit(bm: array<Word>, n: nat)
    requires n / BITS < bm.Length
    modifies bm
    ensures forall i: nat :: i / BITS < bm.Length ==> (TestBit(bm, i) <==> i != n && old(TestBit(bm, i)))
  {
    bm[n / BITS] := And(bm[n / BITS], Not(WordBit(n)));
    forall i: nat | i / BITS < bm.Length ensures TestBit(bm, i) <==> i != n && old(TestBit(bm, i)) {
      MaskedClear(old(bm[i / BITS]), OneShiftLeft(BITS - n % BITS - 1), i);
    }
  }

  // ----- ranges

  /** The bits of word q that fall inside [n, m). */
  function RangeMask(n: nat, m: nat, q: nat): Word {
    seq(BITS, k requires 0 <= k < BITS => n <= q * BITS + k < m)
  }

  lemma {:induction false} InWord(q: nat, i: nat)
    requires q * BITS <= i < q * BITS + BITS
    ensures i / BITS == q && i % BITS == i - q * BITS
  {}

  lemma {:induction false} WholeWord(w: Word)
    ensures Or(w, Bswap(Ones())) == Ones() && Or(w, Bswap(Zero())) == w
    ensures And(w, Not(Bswap(Ones()))) == Zero() && And(w, Not(Bswap(Zero()))) == w
  {}

  lemma {:induction false} Aligned(n: nat)
    ensures n == AlignDown(n) + n % BITS
    ensures AlignUp(n) == if n % BITS == 0 then n else AlignDown(n) + BITS
  {}

  lemma {:induction false} SameWord(n: nat, m: nat)
    requires n / BITS == m / BITS
    ensures And(HeadMask(n), TailMask(m)) == RangeMask(n, m, n / BITS)
  {
  }

  lemma {:induction false} HeadWord(n: nat, m: nat)
    requires n / BITS < m / BITS
    ensures HeadMask(n) == RangeMask(n, m, n / BITS)
  {
  }

  lemma {:induction false} TailWord(n: nat, m: nat)
    requires n <= AlignDown(m)
    ensures TailMask(m) == RangeMask(n, m, m / BITS)
  {
  }

  lemma {:induction false} InnerWord(n: nat, m: nat, q: nat)
    requires n <= q * BITS && q * BITS + BITS <= m
    ensures RangeMask(n, m, q) == Ones()
  {}

  lemma {:induction false} OuterWord(n: nat, m: nat, q: nat)
    requires q * BITS + BITS <= n || m <= q * BITS
    ensures RangeMask(n, m, q) == Zero()
  {}

  /** What the code applies to word q: the whole word, a mask, or nothing. The
      masks it computes are the range masks of the words they are applied to. */
  lemma {:induction false} MasksMeetRange(n: nat, m: nat, q: nat)
    requires n <= m
    ensures var p, t, an, am := n / BITS, m / BITS, AlignUp(n), AlignDown(m);
            RangeMask(n, m, q) ==
              if am < an then (if q == p then And(HeadMask(n), TailMask(m)) else Zero())
              else if an <= q * BITS < am then Ones()
              else if an > n && q == p then HeadMask(n)
              else if m > am && q == t then TailMask(m)
              else Zero()
  {
    Aligned(n);
    Aligned(m);
    if q * BITS + BITS <= n || m <= q * BITS {
      OuterWord(n, m, q);
    } else if n / BITS == m / BITS {
      InWord(n / BITS, n);
      SameWord(n, m);
      if n <= AlignDown(m) { TailWord(n, m); }
    } else if AlignUp(n) <= q * BITS < AlignDown(m) {
      InnerWord(n, m, q);
    } else if q == n / BITS {
      HeadWord(n, m);
    } else {
      TailWord(n, m);
    }
  }

  method FillRange(bm: array<Word>, n: nat, m: nat)
    requires n <= m <= bm.Length * BITS
    modifies bm
    ensures forall i: nat :: i / BITS < bm.Length ==> (TestBit(bm, i) <==> n <= i < m || old(TestBit(bm, i)))
  {
    var an, am := AlignUp(n), AlignDown(m);
    Aligned(n);
    Aligned(m);
    var head, tail := HeadMask(n), TailMask(m);
    if am < an {
      bm[n / BITS] := Or(bm[n / BITS], Bswap(And(head, tail)));
    } else {
      if an > n {
        bm[n / BITS] := Or(bm[n / BITS], Bswap(head));
      }
      if am > an {
        forall k | 0 <= k < bm.Length && an <= k * BITS < am { bm[k] := Ones(); }
      }
      if m > am {
        bm[m / BITS] := Or(bm[m / BITS], Bswap(tail));
      }
    }
    forall q: nat | q < bm.Length ensures bm[q] == Or(old(bm[q]), Bswap(RangeMask(n, m, q))) {
      MasksMeetRange(n, m, q);
      WholeWord(old(bm[q]));
    }
    forall i: nat | i / BITS < bm.Length ensures TestBit(bm, i) <==> n <= i < m || old(TestBit(bm, i)) {
      MaskedOr(old(bm[i / BITS]), RangeMask(n, m, i / BITS), i);
    }
  }

  method ZeroRange(bm: array<Word>, n: nat, m: nat)
    requires n <= m <= bm.Length * BITS
    modifies bm
    ensures forall i: nat :: i / BITS < bm.Length ==> (TestBit(bm, i) <==> !(n <= i < m) && old(TestBit(bm, i)))
  {
    var an, am := AlignUp(n), AlignDown(m);
    Aligned(n);
    Aligned(m);
    var head, tail := HeadMask(n), TailMask(m);
    if am < an {
      bm[n / BITS] := And(bm[n / BITS], Not(Bswap(And(head, tail))));
    } else {
      if an > n {
        bm[n / BITS] := And(bm[n / BITS], Not(Bswap(head)));
      }
      if am > an {
        forall k | 0 <= k < bm.Length && an <= k * BITS < am { bm[k] := Zero(); }
      }
      if m > am {
        bm[m / BITS] := And(bm[m / BITS], Not(Bswap(tail)));
      }
    }
    forall q: nat | q < bm.Length ensures bm[q] == And(old(bm[q]), Not(Bswap(RangeMask(n, m, q)))) {
      MasksMeetRange(n, m, q);
      WholeWord(old(bm[q]));
    }
    forall i: nat | i / BITS < bm.Length ensures TestBit(bm, i) <==> !(n <= i < m) && old(TestBit(bm, i)) {
      MaskedClear(old(bm[i / BITS]), RangeMask(n, m, i / BITS), i);
    }
  }

  // ----- searching

  /** Number of leading zero bits of a non-zero word, by the portable loop. */
  method CountLeadingZeros(w: Word) returns (lz: nat)
    requires w != Zero()
    ensures lz < BITS && w[lz] && forall i :: 0 <= i < lz ==> !w[i]
  {
    lz := 0;
    var mask := OneShiftLeft(BITS - 1);
    while And(w, mask) == Zero()
      invariant lz < BITS && mask == OneShiftLeft(BITS - 1 - lz)
      invariant forall i :: 0 <= i < lz ==> !w[i]
      decreases BITS - lz
    {
      assert !And(w, mask)[lz];
      assert lz == BITS - 1 ==> w == Zero();
      lz := lz + 1;
      mask := ShiftRight(mask, 1);
    }
    assert !w[lz] ==> And(w, mask) == Zero();
  }

  /** Is r the least set bit of [n, m), or m when there is none? */
  ghost predicate IsFirstSet(bm: array<Word>, n: nat, m: nat, r: nat)
    requires m <= bm.Length * BITS
    reads bm
  {
    n <= r <= m && (r < m ==> TestBit(bm, r)) && forall i: nat :: n <= i < r ==> !TestBit(bm, i)
  }

  /** B is the set of bits that are set in bm. */
  ghost predicate Holds(bm: array<Word>, B: set<nat>)
    reads bm
  {
    forall i: nat {:trigger TestBit(bm, i)} :: i / BITS < bm.Length ==> (TestBit(bm, i) <==> i in B)
  }

  lemma {:induction false} SetBits(bm: array<Word>) returns (B: set<nat>)
    ensures Holds(bm, B)
  {
    B := set i: nat | i < bm.Length * BITS && TestBit(bm, i);
  }

  ghost predicate NoneIn(B: set<nat>, n: nat, r: nat) { forall i: nat :: n <= i < r ==> i !in B }

  ghost predicate FirstIn(B: set<nat>, n: nat, m: nat, r: nat) { n <= r < m && r in B && NoneIn(B, n, r) }

  /** The part of word q inside [n, m), as the search loads it. */
  function Masked(w: Word, n: nat, m: nat, q: nat): Word { And(Bswap(w), RangeMask(n, m, q)) }

  lemma {:induction false} MaskedWord(bm: array<Word>, B: set<nat>, n: nat, m: nat, q: nat, k: nat)
    requires q < bm.Length && k < BITS && Holds(bm, B)
    ensures Masked(bm[q], n, m, q)[k] <==> n <= q * BITS + k < m && q * BITS + k in B
  {
    InWord(q, q * BITS + k);
    TestSwapped(bm[q], q * BITS + k);
    assert TestBit(bm, q * BITS + k) <==> q * BITS + k in B;
  }

  lemma {:induction false} ClearedWord(bm: array<Word>, B: set<nat>, n: nat, m: nat, q: nat, len: nat)
    requires q < bm.Length && len <= BITS && Holds(bm, B)
    requires forall k :: 0 <= k < len ==> !Masked(bm[q], n, m, q)[k]
    requires q * BITS <= n || NoneIn(B, n, q * BITS)
    ensures NoneIn(B, n, if m < q * BITS + len then m else q * BITS + len)
  {
    forall i: nat | n <= i < m && q * BITS <= i < q * BITS + len ensures i !in B {
      MaskedWord(bm, B, n, m, q, i - q * BITS);
    }
  }

  /** One step of the search: look at the masked word q, given that nothing
      before it is set. */
  method SearchWord(bm: array<Word>, ghost B: set<nat>, n: nat, m: nat, q: nat, w: Word) returns (found: bool, r: nat)
    requires Holds(bm, B) && q < bm.Length && w == Masked(bm[q], n, m, q)
    requires q * BITS <= n || NoneIn(B, n, q * BITS)
    ensures found ==> FirstIn(B, n, m, r)
    ensures !found ==> NoneIn(B, n, if m < q * BITS + BITS then m else q * BITS + BITS)
  {
    var lz := BITS;
    found := w != Zero();
    if found {
      lz := CountLeadingZeros(w);
      MaskedWord(bm, B, n, m, q, lz);
    }
    ClearedWord(bm, B, n, m, q, lz);
    r := q * BITS + lz;
  }

  /** The loop over the words wholly inside the range. */
  method SearchWhole(bm: array<Word>, ghost B: set<nat>, n: nat, m: nat, start: nat, am: nat)
    returns (found: bool, r: nat)
    requires Holds(bm, B) && am <= m <= bm.Length * BITS && AlignDown(start) == start && AlignDown(am) == am
    requires n <= start <= am && NoneIn(B, n, start)
    ensures found ==> FirstIn(B, n, m, r)
    ensures !found ==> NoneIn(B, n, am)
  {
    var an := start;
    while an < am
      invariant AlignDown(an) == an && n <= an <= am
      invariant NoneIn(B, n, an)
    {
      var w := Bswap(bm[an / BITS]);
      InnerWord(n, m, an / BITS);
      assert Masked(bm[an / BITS], n, m, an / BITS) == w;
      found, r := SearchWord(bm, B, n, m, an / BITS, w);
      if found { return; }
      an := an + BITS;
    }
    return false, m;
  }

  method FindFirstSet(bm: array<Word>, n: nat, m: nat) returns (r: nat)
    requires n <= m <= bm.Length * BITS
    ensures IsFirstSet(bm, n, m, r)
  {
    ghost var B := SetBits(bm);
    var an, am := AlignUp(n), AlignDown(m);
    var head, tail := HeadMask(n), TailMask(m);
    var found := false;
    Aligned(n);
    if am < an {
      SameWord(n, m);
      found, r := SearchWord(bm, B, n, m, n / BITS, And(Bswap(bm[n / BITS]), And(head, tail)));
    } else {
      if an > n {
        HeadWord(n, m);
        found, r := SearchWord(bm, B, n, m, n / BITS, And(Bswap(bm[n / BITS]), head));
      }
      if !found {
        found, r := SearchWhole(bm, B, n, m, an, am);
      }
      if !found && m > am {
        TailWord(n, m);
        found, r := SearchWord(bm, B, n, m, m / BITS, And(Bswap(bm[m / BITS]), tail));
      }
    }
    if !found { r := m; }
  }
}
