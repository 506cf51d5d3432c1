/** Bytes and 32-bit words as numbers, the single-bit operations of the source on them, and Option. */
module Words {
  const WORDS := 0x1_0000_0000

  type Word = x: int | 0 <= x < WORDS

  type byte = x: int | 0 <= x < 0x100

  datatype Option<T> = None | Some(value: T)

  /** uint32_t addition and subtraction. */
  function Add32(a: Word, b: int): Word { (a + b) % WORDS }

  /** x & ~63 */
  function Down64(x: Word): Word { x - x % 64 }

  /** (x + 63) & ~63 in 32 bits */
  function Up64(x: Word): Word { Down64(Add32(x, 63)) }

  function Pow2(n: nat): nat {
    if n == 0 then 1 else 2 * Pow2(n - 1)
  }

  /** w & (1 << i) */
  predicate HasBit(w: nat, i: nat) {
    if i == 0 then w % 2 == 1 else HasBit(w / 2, i - 1)
  }

  /** w | (1 << i) */
  function SetBit(w: nat, i: nat): nat {
    if i == 0 then w - w % 2 + 1 else 2 * SetBit(w / 2, i - 1) + w % 2
  }

  /** w & ~(1 << i) */
  function ClearBit(w: nat, i: nat): nat {
    if i == 0 then w - w % 2 else 2 * ClearBit(w / 2, i - 1) + w % 2
  }

  lemma {:induction false} PowPositive(n: nat)
    ensures Pow2(n) >= 1
  {
    if n > 0 { PowPositive(n - 1); }
  }

  lemma {:induction false} SetBitBits(w: nat, i: nat, j: nat)
    ensures HasBit(SetBit(w, i), j) == (j == i || HasBit(w, j))
    decreases i
  {
    if i == 0 {
      if j > 0 { assert SetBit(w, 0) / 2 == w / 2; }
    } else if j > 0 {
      SetBitBits(w / 2, i - 1, j - 1);
      assert SetBit(w, i) / 2 == SetBit(w / 2, i - 1);
    }
  }

  lemma {:induction false} ClearBitBits(w: nat, i: nat, j: nat)
    ensures HasBit(ClearBit(w, i), j) == (j != i && HasBit(w, j))
    decreases i
  {
    if i == 0 {
      if j > 0 { assert ClearBit(w, 0) / 2 == w / 2; }
    } else if j > 0 {
      ClearBitBits(w / 2, i - 1, j - 1);
      assert ClearBit(w, i) / 2 == ClearBit(w / 2, i - 1);
    }
  }

  lemma HalfBelow(w: nat, p: nat, h: nat)
    requires w < 2 * p && h < p
    ensures w / 2 < p && w - w % 2 + 1 < 2 * p && 2 * h + w % 2 < 2 * p
  {
  }

  /** Setting or clearing a bit below n keeps a number below 2^n. */
  lemma {:induction false} BitOpsBounded(w: nat, i: nat, n: nat)
    requires i < n && w < Pow2(n)
    ensures SetBit(w, i) < Pow2(n) && ClearBit(w, i) < Pow2(n)
    decreases n
  {
    var p := Pow2(n - 1);
    HalfBelow(w, p, 0);
    if i > 0 {
      BitOpsBounded(w / 2, i - 1, n - 1);
      HalfBelow(w, p, SetBit(w / 2, i - 1));
      HalfBelow(w, p, ClearBit(w / 2, i - 1));
    }
  }

  lemma Pow2Of32()
    ensures Pow2(32) == WORDS
  {
    assert Pow2(8) == 0x100;
    assert Pow2(16) == 0x1_0000;
    assert Pow2(24) == 0x100_0000;
  }

  lemma WordBits(w: Word, i: nat)
    requires i < 32
    ensures SetBit(w, i) < WORDS && ClearBit(w, i) < WORDS
  {
    Pow2Of32();
    BitOpsBounded(w, i, 32);
  }

  function SetBit32(w: Word, i: nat): Word
    requires i < 32
  {
    WordBits(w, i);
    SetBit(w, i)
  }

  function ClearBit32(w: Word, i: nat): Word
    requires i < 32
  {
    WordBits(w, i);
    ClearBit(w, i)
  }

  /** A bit operation below n leaves the part from n up alone. */
  lemma {:induction false} BitOpsHigh(w: nat, i: nat, n: nat)
    requires i < n
    ensures Pow2(n) > 0
    ensures SetBit(w, i) / Pow2(n) == w / Pow2(n) && ClearBit(w, i) / Pow2(n) == w / Pow2(n)
    decreases n
  {
    PowPositive(n);
    PowPositive(n - 1);
    SetHalf(w, i);
    SameHigh(w, SetBit(w, i), n);
    SameHigh(w, ClearBit(w, i), n);
    if i > 0 {
      BitOpsHigh(w / 2, i - 1, n - 1);
    }
  }

  lemma SetHalf(w: nat, i: nat)
    ensures SetBit(w, i) / 2 == (if i == 0 then w / 2 else SetBit(w / 2, i - 1))
    ensures ClearBit(w, i) / 2 == (if i == 0 then w / 2 else ClearBit(w / 2, i - 1))
  {
  }

  lemma SameHigh(w: nat, v: nat, n: nat)
    requires n > 0 && Pow2(n) > 0 && Pow2(n - 1) > 0
    ensures w / Pow2(n) == w / 2 / Pow2(n - 1) && v / Pow2(n) == v / 2 / Pow2(n - 1)
  {
    HalfFirst(w, n);
    HalfFirst(v, n);
  }

  lemma HalfFirst(w: nat, n: nat)
    requires n > 0 && Pow2(n - 1) > 0
    ensures w / Pow2(n) == w / 2 / Pow2(n - 1)
  {
    var b := Pow2(n - 1);
    var q := w / 2 / b;
    var m := w / 2 % b;
    assert w / 2 == q * b + m;
    assert w == q * (2 * b) + (2 * m + w % 2);
    DivUnique(w, 2 * b, q, 2 * m + w % 2);
  }

  lemma DivUnique(w: nat, d: nat, q: nat, m: nat)
    requires d > 0 && m < d && w == q * d + m
    ensures w / d == q && w % d == m
  {
    var x := w / d - q;
    assert x * d == m - w % d;
    MultipleTooSmall(x, d);
  }

  lemma MultipleTooSmall(x: int, d: int)
    requires -d < x * d < d
    ensures x == 0
  {
    if x > 0 {
      TimesAtLeast(x, d);
      assert false;
    } else if x < 0 {
      TimesAtLeast(-x, d);
      assert false;
    }
  }

  lemma TimesAtLeast(x: int, d: int)
    requires x > 0 && d > 0
    ensures x * d >= d
  {
    assert (x - 1) * d >= 0;
  }

  /** w >> k */
  function Shr(w: nat, k: nat): nat {
    if k == 0 then w else Shr(w / 2, k - 1)
  }

  /** Bit i of w >> k is bit i + k of w. */
  lemma {:induction false} ShrBits(w: nat, k: nat, i: nat)
    ensures HasBit(Shr(w, k), i) == HasBit(w, i + k)
  {
    if k > 0 { ShrBits(w / 2, k - 1, i); }
  }

  /** Numbers equal below 2^n have the same bits below n. */
  lemma {:induction false} LowBits(a: nat, b: nat, n: nat, i: nat)
    requires i < n && Pow2(n) > 0 && a % Pow2(n) == b % Pow2(n)
    ensures HasBit(a, i) == HasBit(b, i)
    decreases n
  {
    HalfMod(a, n);
    HalfMod(b, n);
    if i > 0 {
      LowBits(a / 2, b / 2, n - 1, i - 1);
    }
  }

  lemma HalfMod(w: nat, n: nat)
    requires n > 0
    ensures Pow2(n - 1) > 0 && Pow2(n) > 0
    ensures w % Pow2(n) == w / 2 % Pow2(n - 1) * 2 + w % 2
  {
    PowPositive(n - 1);
    var b := Pow2(n - 1);
    var q := w / 2 / b;
    assert w / 2 == q * b + w / 2 % b;
    DivUnique(w, 2 * b, q, w / 2 % b * 2 + w % 2);
  }

  lemma {:induction false} ShrIs(w: nat, k: nat)
    ensures Pow2(k) > 0 && Shr(w, k) == w / Pow2(k)
    decreases k
  {
    PowPositive(k);
    if k > 0 {
      PowPositive(k - 1);
      ShrIs(w / 2, k - 1);
      HalfFirst(w, k);
    }
  }

  /** A field of n bits from bit k on: bit i of it is bit k + i of the word. */
  lemma FieldBits(w: nat, k: nat, n: nat, i: nat)
    requires i < n
    ensures Pow2(k) > 0 && Pow2(n) > 0 && HasBit(w / Pow2(k) % Pow2(n), i) == HasBit(w, i + k)
  {
    ShrIs(w, k);
    ShrBits(w, k, i);
    PowPositive(n);
    var x := w / Pow2(k);
    ModTwice(x, Pow2(n));
    LowBits(x % Pow2(n), x, n, i);
  }

  lemma ModTwice(x: nat, p: nat)
    requires p > 0
    ensures x % p % p == x % p
  {
    DivUnique(x % p, p, 0, x % p);
  }

  lemma {:induction false} ZeroBits(i: nat)
    ensures !HasBit(0, i)
  {
    if i > 0 { ZeroBits(i - 1); }
  }

  /** Two words with the same bits are the same. */
  lemma {:induction false} SameBits(a: nat, b: nat)
    requires forall i: nat :: HasBit(a, i) == HasBit(b, i)
    ensures a == b
    decreases a + b
  {
    if a == 0 && b == 0 {
    } else {
      assert HasBit(a, 0) == HasBit(b, 0);
      forall i: nat ensures HasBit(a / 2, i) == HasBit(b / 2, i) {
        assert HasBit(a, i + 1) == HasBit(b, i + 1);
      }
      SameBits(a / 2, b / 2);
    }
  }

  function AsWord(i: int): Word
    requires 0 <= i < WORDS
  {
    i
  }

  /** Every word there is: a search over addresses ends because there are so many and no more. */
  ghost function AllWords(): set<Word> {
    set i: int | 0 <= i < WORDS :: AsWord(i)
  }

  lemma Fewer(known: set<Word>, more: set<Word>)
    requires known < more
    ensures AllWords() - more < AllWords() - known
  {
    var w :| w in more && w !in known;
    assert AsWord(w) == w;
    assert w in AllWords() - known;
  }
}
