// Unsigned machine integers and 64-bit words as the Go code manipulates them.
//
// A word is its sequence of 64 bits, least significant first; every operation
// below is the bit-for-bit meaning of the corresponding Go operator.
module Words {
  const MAX_U64 := 0xFFFF_FFFF_FFFF_FFFF
  const MAX_U32 := 0xFFFF_FFFF

  type U64 = x: int | 0 <= x <= MAX_U64
  type U32 = x: int | 0 <= x <= MAX_U32

  // Go's uint64 arithmetic keeps the low 64 bits of the mathematical result.
  function Wrap64(x: int): U64 {
    x % 0x1_0000_0000_0000_0000
  }

  type Word = w: seq<bool> | |w| == 64 witness seq(64, _ => false)

  const ZERO: Word := seq(64, _ => false)
  const ONES: Word := seq(64, _ => true)

  function ShiftRight(w: Word, n: nat): Word {
    seq(64, i requires 0 <= i < 64 => i + n < 64 && w[i + n])
  }

  function ShiftLeft(w: Word, n: nat): Word {
    seq(64, i requires 0 <= i < 64 => i >= n && w[i - n])
  }

  function And(a: Word, b: Word): Word {
    seq(64, i requires 0 <= i < 64 => a[i] && b[i])
  }

  function AndNot(a: Word, b: Word): Word {
    seq(64, i requires 0 <= i < 64 => a[i] && !b[i])
  }

  function Or(a: Word, b: Word): Word {
    seq(64, i requires 0 <= i < 64 => a[i] || b[i])
  }

  function SingleBit(n: nat): Word {
    seq(64, i requires 0 <= i < 64 => i == n)
  }

  // bits.OnesCount64
  function Ones(bits: seq<bool>): nat {
    if bits == [] then 0
    else Ones(bits[..|bits| - 1]) + if bits[|bits| - 1] then 1 else 0
  }

  function OnesTotal(words: seq<Word>): nat {
    if words == [] then 0
    else OnesTotal(words[..|words| - 1]) + Ones(words[|words| - 1])
  }

  // Bit i of the concatenation of the words.
  predicate Bit(words: seq<Word>, i: nat)
    requires i < 64 * |words|
  {
    words[i / 64][i % 64]
  }

  // The mask `(^uint64(0) >> (64 - width)) << shift` selects exactly `width`
  // consecutive bits starting at `shift`.
  lemma RangeMask(width: nat, shift: nat, j: nat)
    requires 1 <= width && shift + width <= 64 && j < 64
    ensures ShiftLeft(ShiftRight(ONES, 64 - width), shift)[j] <==> shift <= j < shift + width
  {
  }

  lemma {:induction false} OnesSplit(w: seq<bool>, cleared: seq<bool>, kept: seq<bool>)
    requires |w| == |kept| == |cleared|
    requires forall i :: 0 <= i < |w| ==> w[i] == (cleared[i] || kept[i]) && !(cleared[i] && kept[i])
    ensures Ones(w) == Ones(cleared) + Ones(kept)
  {
    if w != [] {
      var n := |w| - 1;
      OnesSplit(w[..n], cleared[..n], kept[..n]);
    }
  }

  lemma ClearingBits(w: Word, m: Word)
    ensures Ones(AndNot(w, m)) == Ones(w) - Ones(And(w, m))
  {
    OnesSplit(w, And(w, m), AndNot(w, m));
  }

  lemma {:induction false} OnesNone(bits: seq<bool>)
    requires forall i :: 0 <= i < |bits| ==> !bits[i]
    ensures Ones(bits) == 0
  {
    if bits != [] {
      OnesNone(bits[..|bits| - 1]);
    }
  }

  lemma {:induction false} OnesPoint(bits: seq<bool>, n: nat)
    requires n < |bits| && bits[n]
    requires forall i :: 0 <= i < |bits| && i != n ==> !bits[i]
    ensures Ones(bits) == 1
  {
    if n == |bits| - 1 {
      OnesNone(bits[..n]);
    } else {
      OnesPoint(bits[..|bits| - 1], n);
    }
  }

  // Setting a clear bit adds one to the population count.
  lemma SettingBit(w: Word, n: nat)
    requires n < 64 && !w[n]
    ensures Ones(Or(w, SingleBit(n))) == Ones(w) + 1
  {
    OnesSplit(Or(w, SingleBit(n)), SingleBit(n), w);
    OnesPoint(SingleBit(n), n);
  }

  lemma {:induction false} OnesTotalUpdate(words: seq<Word>, k: nat, w: Word)
    requires k < |words|
    ensures OnesTotal(words[k := w]) == OnesTotal(words) - Ones(words[k]) + Ones(w)
  {
    var n := |words| - 1;
    if k == n {
      assert words[k := w][..n] == words[..n];
    } else {
      OnesTotalUpdate(words[..n], k, w);
      assert words[k := w][..n] == words[..n][k := w];
    }
  }

  lemma {:induction false} OnesTotalZero(words: seq<Word>)
    requires forall i :: 0 <= i < |words| ==> words[i] == ZERO
    ensures OnesTotal(words) == 0
  {
    if words != [] {
      OnesNone(words[|words| - 1]);
      OnesTotalZero(words[..|words| - 1]);
    }
  }

  // Two sets of numbers paired by mutually inverse functions have equal size.
  lemma {:induction false} EqualCards(s: set<nat>, t: set<nat>, f: nat -> nat, g: nat -> nat)
    requires forall x :: x in s ==> f(x) in t && g(f(x)) == x
    requires forall y :: y in t ==> g(y) in s && f(g(y)) == y
    ensures |s| == |t|
  {
    if s == {} {
      assert forall y :: y in t ==> g(y) in s;
      assert t == {};
    } else {
      var x :| x in s;
      EqualCards(s - {x}, t - {f(x)}, f, g);
    }
  }

  ghost function Below(words: seq<Word>, n: nat): set<nat>
    requires n <= 64 * |words|
  {
    set i: nat | i < n && Bit(words, i)
  }

  // The population count of the words is the number of set positions.
  lemma {:induction false} CardOfPrefix(words: seq<Word>, k: nat, j: nat)
    requires if k < |words| then j <= 64 else k == |words| && j == 0
    ensures |Below(words, 64 * k + j)| == OnesTotal(words[..k]) + (if j == 0 then 0 else Ones(words[k][..j]))
    decreases k, j
  {
    hide Below;
    if j > 0 {
      CardOfPrefix(words, k, j - 1);
      var i := 64 * k + j - 1;
      assert i / 64 == k && i % 64 == j - 1;
      assert words[k][..j][..j - 1] == words[k][..j - 1];
      BelowNext(words, i);
    } else if k > 0 {
      CardOfPrefix(words, k - 1, 64);
      assert words[k - 1][..64] == words[k - 1];
      assert words[..k][..k - 1] == words[..k - 1];
    } else {
      NoneBelow(words);
    }
  }

  lemma NoneBelow(words: seq<Word>)
    ensures Below(words, 0) == {}
  {
  }

  lemma BelowNext(words: seq<Word>, i: nat)
    requires i < 64 * |words|
    ensures |Below(words, i + 1)| == |Below(words, i)| + if Bit(words, i) then 1 else 0
  {
    if Bit(words, i) {
      assert Below(words, i + 1) == Below(words, i) + {i};
    } else {
      assert Below(words, i + 1) == Below(words, i);
    }
  }

  lemma OnesTotalIsCard(words: seq<Word>)
    ensures OnesTotal(words) == |Below(words, 64 * |words|)|
  {
    CardOfPrefix(words, |words|, 0);
    assert words[..|words|] == words;
  }
}
