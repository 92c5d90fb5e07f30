// 64-bit words of bits as eight octets, the most significant first.
module Octets {
  type Octet = x: int | 0 <= x < 0x100

  function Bits(x: Octet): bv8 {
    x as bv8
  }

  function Value(v: bv8): Octet {
    v as int
  }

  lemma BitsValue(v: bv8)
    ensures Bits(Value(v)) == v
  {
  }

  // Every octet is the value of some bits, found by counting up to it.
  lemma {:induction false} Reached(x: Octet) returns (v: bv8)
    ensures Value(v) == x
  {
    if x == 0 {
      v := 0;
    } else {
      var u := Reached(x - 1);
      NextValue(u);
      v := u + 1;
    }
  }

  lemma NextValue(v: bv8)
    requires v != 0xff
    ensures Value(v + 1) == Value(v) + 1
  {
  }

  lemma ValueBits(x: Octet)
    ensures Value(Bits(x)) == x
  {
    var v := Reached(x);
    BitsValue(v);
  }

  function Cut(w: bv64, shift: bv6): bv8 {
    ((w >> shift) & 0xff) as bv8
  }

  function Split(w: bv64): (b: seq<Octet>)
    ensures |b| == 8
  {
    [Value(Cut(w, 56)), Value(Cut(w, 48)), Value(Cut(w, 40)), Value(Cut(w, 32)),
     Value(Cut(w, 24)), Value(Cut(w, 16)), Value(Cut(w, 8)), Value(Cut(w, 0))]
  }

  function Glue(a: bv8, b: bv8, c: bv8, d: bv8, e: bv8, f: bv8, g: bv8, h: bv8): bv64 {
    (a as bv64 << 56) | (b as bv64 << 48) | (c as bv64 << 40) | (d as bv64 << 32)
    | (e as bv64 << 24) | (f as bv64 << 16) | (g as bv64 << 8) | (h as bv64)
  }

  function Join(b: seq<Octet>): bv64
    requires |b| == 8
  {
    Glue(Bits(b[0]), Bits(b[1]), Bits(b[2]), Bits(b[3]), Bits(b[4]), Bits(b[5]), Bits(b[6]), Bits(b[7]))
  }

  // Each octet goes back to where it was cut out.
  lemma UpperPlaced(w: bv64)
    ensures Cut(w, 56) as bv64 << 56 == w & 0xff00_0000_0000_0000
    ensures Cut(w, 48) as bv64 << 48 == w & 0x00ff_0000_0000_0000
    ensures Cut(w, 40) as bv64 << 40 == w & 0x0000_ff00_0000_0000
    ensures Cut(w, 32) as bv64 << 32 == w & 0x0000_00ff_0000_0000
  {
  }

  lemma LowerPlaced(w: bv64)
    ensures Cut(w, 24) as bv64 << 24 == w & 0xff00_0000
    ensures Cut(w, 16) as bv64 << 16 == w & 0x00ff_0000
    ensures Cut(w, 8) as bv64 << 8 == w & 0xff00 && Cut(w, 0) as bv64 == w & 0x00ff
  {
  }

  lemma GlueCut(w: bv64)
    ensures Glue(Cut(w, 56), Cut(w, 48), Cut(w, 40), Cut(w, 32), Cut(w, 24), Cut(w, 16), Cut(w, 8), Cut(w, 0)) == w
  {
    hide Cut;
    UpperPlaced(w);
    LowerPlaced(w);
  }

  lemma CutGlue(a: bv8, b: bv8, c: bv8, d: bv8, e: bv8, f: bv8, g: bv8, h: bv8)
    ensures Cut(Glue(a, b, c, d, e, f, g, h), 56) == a && Cut(Glue(a, b, c, d, e, f, g, h), 48) == b
    ensures Cut(Glue(a, b, c, d, e, f, g, h), 40) == c && Cut(Glue(a, b, c, d, e, f, g, h), 32) == d
    ensures Cut(Glue(a, b, c, d, e, f, g, h), 24) == e && Cut(Glue(a, b, c, d, e, f, g, h), 16) == f
    ensures Cut(Glue(a, b, c, d, e, f, g, h), 8) == g && Cut(Glue(a, b, c, d, e, f, g, h), 0) == h
  {
  }

  /** The octets of a word are exactly the sequences of eight octets. */
  lemma JoinSplit(w: bv64)
    ensures Join(Split(w)) == w
  {
    hide Bits, Value, Cut, Glue;
    forall shift: bv6
      ensures Bits(Value(Cut(w, shift))) == Cut(w, shift)
    {
      BitsValue(Cut(w, shift));
    }
    GlueCut(w);
  }

  lemma SplitJoin(b: seq<Octet>)
    requires |b| == 8
    ensures Split(Join(b)) == b
  {
    hide Bits, Value, Cut, Glue;
    forall i | 0 <= i < 8
      ensures Value(Bits(b[i])) == b[i]
    {
      ValueBits(b[i]);
    }
    CutGlue(Bits(b[0]), Bits(b[1]), Bits(b[2]), Bits(b[3]), Bits(b[4]), Bits(b[5]), Bits(b[6]), Bits(b[7]));
  }
}
