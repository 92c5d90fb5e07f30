// Unsigned integers as big-endian bytes.
module BigEndian {
  import opened Packing

  type Bytes = seq<Byte>

  // 256 to the power n.
  function Range(n: nat): int {
    if n == 0 then 1 else 256 * Range(n - 1)
  }

  function Put(x: nat, n: nat): (b: Bytes)
    ensures |b| == n
  {
    if n == 0 then [] else Put(x / 256, n - 1) + [x % 256]
  }

  function Get(b: Bytes): (x: nat)
    ensures x < Range(|b|)
  {
    if b == [] then 0 else 256 * Get(b[..|b| - 1]) + b[|b| - 1]
  }

  lemma {:induction false} GetPut(x: nat, n: nat)
    requires x < Range(n)
    ensures Get(Put(x, n)) == x
  {
    if n > 0 {
      GetPut(x / 256, n - 1);
      assert Put(x, n)[..n - 1] == Put(x / 256, n - 1);
    }
  }

  lemma {:induction false} PutGet(b: Bytes)
    ensures Put(Get(b), |b|) == b
  {
    if b != [] {
      var rest := b[..|b| - 1];
      PutGet(rest);
      assert Get(b) / 256 == Get(rest) && Get(b) % 256 == b[|b| - 1];
    }
  }

  lemma Ranges()
    ensures Range(1) == 0x100 && Range(2) == 0x1_0000 && Range(4) == 0x1_0000_0000
    ensures Range(8) == 0x1_0000_0000_0000_0000
  {
    assert Range(1) == 256 * Range(0);
    assert Range(2) == 256 * Range(1);
    assert Range(3) == 256 * Range(2);
    assert Range(4) == 256 * Range(3);
    assert Range(5) == 256 * Range(4);
    assert Range(6) == 256 * Range(5);
    assert Range(7) == 256 * Range(6);
  }

  // Typed reads and their writes.
  lemma Fixed16(x: nat, b: Bytes)
    ensures x < 0x1_0000 ==> Get(Put(x, 2)) == x
    ensures |b| == 2 ==> Get(b) < 0x1_0000 && Put(Get(b), 2) == b
  {
    Ranges();
    if x < 0x1_0000 {
      GetPut(x, 2);
    }
    PutGet(b);
  }

  lemma Fixed32(x: nat, b: Bytes)
    ensures x < 0x1_0000_0000 ==> Get(Put(x, 4)) == x
    ensures |b| == 4 ==> Get(b) < 0x1_0000_0000 && Put(Get(b), 4) == b
  {
    Ranges();
    if x < 0x1_0000_0000 {
      GetPut(x, 4);
    }
    PutGet(b);
  }

  lemma Fixed64(x: nat, b: Bytes)
    ensures x < 0x1_0000_0000_0000_0000 ==> Get(Put(x, 8)) == x
    ensures |b| == 8 ==> Get(b) < 0x1_0000_0000_0000_0000 && Put(Get(b), 8) == b
  {
    Ranges();
    if x < 0x1_0000_0000_0000_0000 {
      GetPut(x, 8);
    }
    PutGet(b);
  }
}
