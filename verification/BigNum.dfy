/** The bignum consistency macros of the bundled OpenSSL header, for the word size it configures. */
module BigNum {
  import opened Text

  const BN_BITS2 := 32
  const BASE := 0x1_0000_0000
  const INT_MAX := 0x7fff_ffff

  type Word = w: int | 0 <= w < BASE
  type Byte = b: int | 0 <= b < 256

  // ---------------------------------------------------------------- values

  /** The number written by the words, least significant first. */
  function Nat(d: seq<Word>): nat {
    if d == [] then 0 else d[0] + BASE * Nat(d[1..])
  }

  function Signed(d: seq<Word>, neg: bool): int {
    if neg then 0 - Nat(d) else Nat(d)
  }

  /** What bn_check_top asserts. */
  predicate TopConsistent(d: seq<Word>) {
    d == [] || d[|d| - 1] != 0
  }

  predicate Normal(d: seq<Word>, neg: bool) {
    TopConsistent(d) && (d == [] ==> !neg)
  }

  /** `d` without its leading zero words. */
  function Trimmed(d: seq<Word>): (t: seq<Word>)
    ensures TopConsistent(t) && t <= d
    ensures forall i :: |t| <= i < |d| ==> d[i] == 0
  {
    if d == [] || d[|d| - 1] != 0 then d else Trimmed(d[..|d| - 1])
  }

  lemma {:induction false} LeadingZero(d: seq<Word>)
    ensures Nat(d + [0]) == Nat(d)
  {
    if d != [] {
      assert (d + [0])[1..] == d[1..] + [0];
      LeadingZero(d[1..]);
    }
  }

  lemma {:induction false} TrimmedValue(d: seq<Word>)
    ensures Nat(Trimmed(d)) == Nat(d)
  {
    if d != [] && d[|d| - 1] == 0 {
      TrimmedValue(d[..|d| - 1]);
      LeadingZero(d[..|d| - 1]);
      assert d == d[..|d| - 1] + [0];
    }
  }

  lemma {:induction false} ConsistentPositive(d: seq<Word>)
    requires TopConsistent(d)
    ensures Nat(d) == 0 <==> d == []
  {
    if |d| > 1 {
      ConsistentPositive(d[1..]);
    }
  }

  /** Without leading zeros the words are determined by the number. */
  lemma {:induction false} CanonicalWords(a: seq<Word>, b: seq<Word>)
    requires TopConsistent(a) && TopConsistent(b) && Nat(a) == Nat(b)
    ensures a == b
  {
    ConsistentPositive(a);
    ConsistentPositive(b);
    if a != [] {
      assert a[0] == Nat(a) % BASE && b[0] == Nat(b) % BASE;
      CanonicalWords(a[1..], b[1..]);
      assert a == [a[0]] + a[1..] && b == [b[0]] + b[1..];
    }
  }

  /** Two normalised numbers of equal value agree in length, words and sign. */
  lemma Canonical(a: seq<Word>, aNeg: bool, b: seq<Word>, bNeg: bool)
    requires Normal(a, aNeg) && Normal(b, bNeg)
    ensures Signed(a, aNeg) == Signed(b, bNeg) <==> a == b && aNeg == bNeg
  {
    ConsistentPositive(a);
    ConsistentPositive(b);
    if Signed(a, aNeg) == Signed(b, bNeg) {
      CanonicalWords(a, b);
    }
  }

  // ---------------------------------------------------------------- the test macros

  /** The cast to BN_ULONG. */
  function ToWord(w: int): Word {
    w % BASE
  }

  predicate AbsIsWord(d: seq<Word>, w: int) {
    (|d| == 1 && d[0] == ToWord(w)) || (w == 0 && |d| == 0)
  }

  predicate IsZero(d: seq<Word>) {
    |d| == 0
  }

  predicate IsOne(d: seq<Word>, neg: bool) {
    AbsIsWord(d, 1) && !neg
  }

  predicate IsWord(d: seq<Word>, neg: bool, w: int) {
    AbsIsWord(d, w) && (w == 0 || !neg)
  }

  predicate IsOdd(d: seq<Word>) {
    |d| > 0 && d[0] % 2 == 1
  }

  lemma SmallValue(d: seq<Word>)
    requires TopConsistent(d)
    ensures |d| <= 1 <==> Nat(d) < BASE
    ensures |d| == 1 ==> Nat(d) == d[0]
  {
  }

  /** On numbers without leading zeros, whatever sign a zero carries, the macros decide the value:
      zero, one, a given word, odd. */
  lemma TestsDecideValue(d: seq<Word>, neg: bool, w: Word)
    requires TopConsistent(d)
    ensures IsZero(d) <==> Signed(d, neg) == 0
    ensures IsOne(d, neg) <==> Signed(d, neg) == 1
    ensures IsWord(d, neg, w) <==> Signed(d, neg) == w
    ensures AbsIsWord(d, w) <==> Nat(d) == w
    ensures IsOdd(d) <==> Signed(d, neg) % 2 == 1
  {
    ConsistentPositive(d);
    SmallValue(d);
    Parity(d);
    assert (0 - Nat(d)) % 2 == Nat(d) % 2;
  }

  lemma Parity(d: seq<Word>)
    ensures IsOdd(d) <==> Nat(d) % 2 == 1
  {
  }

  /** For an argument of any size the cast keeps only the low bits, and the macro answers for the
      truncated number; a non-zero multiple of the base is never matched. */
  lemma WordTestTruncates(d: seq<Word>, neg: bool, w: int)
    requires Normal(d, neg)
    ensures IsWord(d, neg, w) <==>
      var v := Signed(d, neg); 0 <= v < BASE && (w - v) % BASE == 0 && (w == 0 || v != 0)
  {
    TestsDecideValue(d, neg, ToWord(w));
    ConsistentPositive(d);
    if 0 <= Signed(d, neg) < BASE {
      CutToWord(w, Signed(d, neg));
    }
  }

  lemma CutToWord(w: int, v: Word)
    ensures ToWord(w) == v <==> (w - v) % BASE == 0
  {
    var q := w / BASE;
    assert w == q * BASE + w % BASE;
    if (w - v) % BASE == 0 {
      var p := (w - v) / BASE;
      assert w - v == p * BASE;
      assert -BASE < (p - q) * BASE < BASE;
    }
  }

  /** Normalisation is needed: a leading zero word hides a small number from the tests. */
  lemma TestsNeedNormal(v: Word)
    ensures Nat([v, 0]) == v && !IsWord([v, 0], false, v) && (v == 0 ==> !IsZero([v, 0]))
  {
    assert [v, 0][1..] == [0] && [0][1..] == [];
  }

  // ---------------------------------------------------------------- bn_expand

  /** C division, which truncates toward zero. */
  function TruncDiv(a: int, b: int): (q: int)
    requires b > 0
    ensures a >= 0 ==> q * b <= a < q * b + b
    ensures a <= 0 ==> q * b - b < a <= q * b
  {
    if a >= 0 then a / b else -((-a) / b)
  }

  /** The word count bn_expand asks for; None is its NULL result. */
  function ExpandWords(bits: int): Option<int> {
    if bits > INT_MAX - BN_BITS2 + 1 then None else Some(TruncDiv(bits + BN_BITS2 - 1, BN_BITS2))
  }

  /** bn_expand refuses exactly the sizes whose rounding would overflow an int, and otherwise asks
      for the fewest words that hold the bits. */
  lemma ExpandIsLeast(bits: int, words: int)
    requires 0 <= bits <= INT_MAX
    ensures ExpandWords(bits).Some? <==> bits + BN_BITS2 - 1 <= INT_MAX
    ensures ExpandWords(bits).Some? ==>
      (words * BN_BITS2 >= bits <==> words >= ExpandWords(bits).value) && ExpandWords(bits).value >= 0
  {
  }

  /** The capacity after bn_wexpand, given that bn_expand2 delivers what it is asked for. */
  function WexpandedCapacity(dmax: nat, words: int): nat {
    if words <= dmax then dmax else words
  }

  /** The capacity after bn_expand. */
  function ExpandedCapacity(dmax: nat, bits: int): Option<nat> {
    var words := ExpandWords(bits);
    if words.None? then None else Some(WexpandedCapacity(dmax, words.value))
  }

  /** Both expansions leave the least capacity that is no smaller than before and large enough. */
  lemma ExpandSuffices(dmax: nat, bits: int, words: int, capacity: int)
    requires bits <= INT_MAX
    ensures ExpandedCapacity(dmax, bits).Some? ==>
      (capacity >= ExpandedCapacity(dmax, bits).value <==> capacity >= dmax && capacity * BN_BITS2 >= bits)
    ensures capacity >= WexpandedCapacity(dmax, words) <==> capacity >= dmax && capacity >= words
  {
    if 0 <= bits {
      ExpandIsLeast(bits, capacity);
    }
  }

  // ---------------------------------------------------------------- the structure

  class BigNumber {
    var d: array<Word>  // dmax is its length
    var top: nat
    var neg: bool

    ghost predicate Valid()
      reads this
    {
      top <= d.Length
    }

    ghost function Used(): seq<Word>
      reads this, d
      requires Valid()
    {
      d[..top]
    }

    ghost function Value(): int
      reads this, d
      requires Valid()
    {
      Signed(Used(), neg)
    }

    constructor (words: array<Word>, top: nat, neg: bool)
      requires top <= words.Length
      ensures Valid() && d == words && this.top == top && this.neg == neg
    {
      d, this.top, this.neg := words, top, neg;
    }

    /** bn_correct_top: strip leading zero words and the sign of zero, then, in a debugging build,
        pollute the unused words. */
    method CorrectTop(debug: Option<Byte>)
      requires Valid()
      modifies this`top, this`neg, d
      ensures Valid() && d == old(d) && Normal(Used(), neg)
      ensures Used() == Trimmed(old(Used()))
      ensures Value() == old(Value())
      ensures neg == (old(neg) && old(Value()) != 0)
      ensures old(Normal(Used(), neg)) ==> top == old(top) && neg == old(neg)
      ensures debug.None? ==> d[..] == old(d[..])
    {
      ghost var before := d[..top];
      var t := top;
      while t > 0
        invariant 0 <= t <= top
        invariant Trimmed(d[..t]) == Trimmed(before)
      {
        if d[t - 1] != 0 {
          break;
        }
        assert d[..t][..t - 1] == d[..t - 1];
        t := t - 1;
      }
      assert Trimmed(d[..t]) == d[..t];
      TrimmedValue(before);
      top := t;
      ConsistentPositive(d[..top]);
      if top == 0 {
        neg := false;
      }
      if debug.Some? {
        Pollute(debug.value);
      }
    }

    /** bn_pollute: overwrite every unused word with one repeated random byte. */
    method Pollute(random: Byte)
      requires Valid()
      modifies d
      ensures d == old(d) && Used() == old(Used()) && Value() == old(Value())
      ensures forall i :: top <= i < d.Length ==> d[i] == 0x0101_0101 * random
    {
      if top < d.Length {
        for i := top to d.Length
          invariant d[..top] == old(d[..top])
          invariant forall k :: top <= k < i ==> d[k] == 0x0101_0101 * random
        {
          d[i] := 0x0101_0101 * random;
        }
      }
    }

    /** bn_check_top in a debugging build: an assertion, which ends the program when it fails, and
        then, if random pollution is enabled, bn_pollute. */
    method CheckTop(debug: Option<Byte>) returns (holds: bool)
      requires Valid()
      modifies d
      ensures holds <==> old(TopConsistent(Used()))
      ensures d == old(d) && Used() == old(Used()) && Value() == old(Value())
      ensures !holds || debug.None? ==> d[..] == old(d[..])
      ensures holds && debug.Some? ==> forall i :: top <= i < d.Length ==> d[i] == 0x0101_0101 * debug.value
    {
      holds := top == 0 || d[top - 1] != 0;
      if holds && debug.Some? {
        Pollute(debug.value);
      }
    }
  }
}
