// internal/sessionv2: the pacing of one path in synchronous mode. Times and
// durations are nanoseconds.
module Pacing {
  import opened Words

  const SECOND := 1_000_000_000
  const MIN_RATE := 1000
  const MAX_RATE := 1_000_000_000_000
  // The largest UDP payload.
  const MAX_PACKET := 65507
  const MAX_DURATION := 0x7FFF_FFFF_FFFF_FFFF

  // A permitted rate in bits per second.
  type Rate = r: int | MIN_RATE <= r <= MAX_RATE witness MIN_RATE

  // The packet with its UDP and IP headers, in bits.
  function Bits(bytes: nat, ipv6: bool): nat {
    (bytes + if ipv6 then 48 else 28) * 8
  }

  // The rounded-up division in uint64 arithmetic, and its conversion to a signed
  // 64-bit duration.
  function SerializationTime(rate: Rate, bits: nat): int {
    var quotient := Wrap64(Wrap64(Wrap64(bits * SECOND) + rate - 1) / rate);
    if quotient > MAX_DURATION then quotient - 0x1_0000_0000_0000_0000 else quotient
  }

  /** For every permitted packet and rate the division never overflows: it is the
      least whole number of nanoseconds in which the rate can carry the bits. */
  lemma SerializationIsExact(rate: Rate, bytes: nat, ipv6: bool)
    requires bytes <= MAX_PACKET
    ensures var t, bits := SerializationTime(rate, Bits(bytes, ipv6)), Bits(bytes, ipv6);
      t > 0 && (t - 1) * rate < bits * SECOND <= t * rate
  {
    hide Wrap64;
    var scaled := Bits(bytes, ipv6) * SECOND;
    assert 0 < scaled <= scaled + rate - 1 <= MAX_DURATION;
    CeilDiv(scaled, rate);
    QuotientShrinks(scaled + rate - 1, rate);
    WrapsNot(scaled);
    WrapsNot(scaled + rate - 1);
    WrapsNot((scaled + rate - 1) / rate);
  }

  lemma WrapsNot(x: int)
    requires 0 <= x <= MAX_U64
    ensures Wrap64(x) == x
  {
  }

  lemma CeilDiv(x: int, d: int)
    requires d > 0 && x > 0
    ensures var q := (x + d - 1) / d; q > 0 && (q - 1) * d < x <= q * d
  {
    var q := (x + d - 1) / d;
    DivBounds(x + d - 1, d);
    assert (q - 1) * d == q * d - d;
    if q <= 0 {
      NonPositive(q, d);
    }
  }

  lemma NonPositive(q: int, d: int)
    requires d > 0 && q <= 0
    ensures q * d <= 0
  {
  }

  lemma DivBounds(x: int, d: int)
    requires d > 0
    ensures d * (x / d) <= x < d * (x / d) + d
  {
  }

  lemma AtLeastOnce(q: int, d: int)
    requires q >= 0 && d >= 1
    ensures q <= d * q
  {
  }

  lemma QuotientShrinks(x: int, d: int)
    requires d > 0 && x >= 0
    ensures 0 <= x / d <= x
  {
    DivBounds(x, d);
    Shrinks(x, d, x / d);
  }

  lemma Shrinks(x: int, d: int, q: int)
    requires d > 0 && x >= 0 && d * q <= x < d * q + d
    ensures 0 <= q <= x
  {
    BelowZero(q, d);
    AtLeastOnce(q, d);
  }

  lemma BelowZero(q: int, d: int)
    requires d > 0
    ensures q < 0 ==> d * q + d <= 0
  {
    if q < 0 {
      NonPositive(q + 1, d);
      assert (q + 1) * d == d * q + d;
    }
  }

  // A packet that left: when, and how many bits.
  datatype Sent = Sent(at: int, bits: nat)

  // The bits of packets i .. j - 1.
  function Total(log: seq<Sent>, i: nat, j: nat): nat
    requires i <= j <= |log|
  {
    if i == j then 0 else Total(log, i, j - 1) + log[j - 1].bits
  }

  // Each packet left when the rate had carried the one before it.
  predicate Paced(log: seq<Sent>, rate: Rate) {
    forall i :: 0 < i < |log| ==> log[i - 1].bits * SECOND <= rate * (log[i].at - log[i - 1].at)
  }

  /** Over every stretch of a path's packets, from any packet to any later one, the
      bits that left before the last never exceed the rate. */
  lemma {:induction false} PacingBound(log: seq<Sent>, rate: Rate, i: nat, j: nat)
    requires Paced(log, rate) && i <= j < |log|
    ensures Total(log, i, j) * SECOND <= rate * (log[j].at - log[i].at)
  {
    if i < j {
      PacingBound(log, rate, i, j - 1);
      var a, b, c := log[i].at, log[j - 1].at, log[j].at;
      assert rate * (c - a) == rate * (c - b) + rate * (b - a);
      assert Total(log, i, j) == Total(log, i, j - 1) + log[j - 1].bits;
    }
  }

  // The first whole nanosecond at which the rate has carried the packet.
  ghost predicate FreeAt(at: int, last: Sent, rate: Rate) {
    last.at <= at && rate * (at - last.at - 1) < last.bits * SECOND <= rate * (at - last.at)
  }

  // The path is free exactly when the rate has carried its last packet.
  lemma FreeIsCarried(at: int, last: Sent, rate: Rate, now: int)
    requires FreeAt(at, last, rate)
    ensures now >= at <==> last.bits * SECOND <= rate * (now - last.at)
  {
    if now >= at {
      Later(rate, at - last.at, now - last.at);
    } else {
      Later(rate, now - last.at, at - last.at - 1);
    }
  }

  class Path {
    const rate: Rate
    var pacedAt: int

    // The packets that left on this path, over all its generations.
    ghost var log: seq<Sent>

    ghost predicate Valid()
      reads this
    {
      Paced(log, rate) && (log != [] ==> FreeAt(pacedAt, log[|log| - 1], rate))
    }

    constructor (rate: Rate, start: int)
      ensures Valid() && log == [] && pacedAt == start
    {
      this.rate := rate;
      pacedAt, log := start, [];
    }

    // emit: `room` says that this step may still send. A failed socket call uses
    // up its time like any other.
    method Emit(bytes: nat, ipv6: bool, room: bool, now: int) returns (sent: bool)
      requires Valid() && bytes <= MAX_PACKET
      modifies this
      ensures Valid() && (sent <==> room && now >= old(pacedAt))
      ensures old(log) != [] ==>
        (sent <==> room && old(log)[|old(log)| - 1].bits * SECOND <= rate * (now - old(log)[|old(log)| - 1].at))
      ensures log == old(log) + if sent then [Sent(now, 8 * (bytes + if ipv6 then 48 else 28))] else []
      ensures sent ==> forall i :: 0 <= i < |log| ==>
        Total(log, i, |log| - 1) * SECOND <= rate * (now - log[i].at)
      ensures !sent ==> pacedAt == old(pacedAt)
    {
      hide Total, SerializationTime, Paced, FreeAt;
      if log != [] {
        FreeIsCarried(pacedAt, log[|log| - 1], rate, now);
      }
      if !room || now < pacedAt {
        return false;
      }
      var bits := Bits(bytes, ipv6);
      EmitKeeps(log, rate, pacedAt, now, bytes, ipv6);
      pacedAt := now + SerializationTime(rate, bits);
      log := log + [Sent(now, bits)];
      return true;
    }
  }

  // What a path may rely on once a packet has left.
  lemma EmitKeeps(log: seq<Sent>, rate: Rate, pacedAt: int, now: int, bytes: nat, ipv6: bool)
    requires Paced(log, rate) && pacedAt <= now && bytes <= MAX_PACKET
    requires log != [] ==> FreeAt(pacedAt, log[|log| - 1], rate)
    ensures var bits := Bits(bytes, ipv6);
      var next, free := log + [Sent(now, bits)], now + SerializationTime(rate, bits);
      && Paced(next, rate) && FreeAt(free, Sent(now, bits), rate)
      && forall i :: 0 <= i < |next| ==> Total(next, i, |next| - 1) * SECOND <= rate * (now - next[i].at)
  {
    hide Total, Bits, SerializationTime, Paced;
    var bits := Bits(bytes, ipv6);
    var next, t := log + [Sent(now, bits)], SerializationTime(rate, bits);
    SerializationIsExact(rate, bytes, ipv6);
    Extends(log, rate, pacedAt, Sent(now, bits));
    Commutes(rate, t);
    Commutes(rate, t - 1);
    assert now + t - now == t && FreeAt(now + t, Sent(now, bits), rate);
    forall i | 0 <= i < |next|
      ensures Total(next, i, |next| - 1) * SECOND <= rate * (now - next[i].at)
    {
      PacingBound(next, rate, i, |next| - 1);
    }
  }

  lemma Commutes(a: int, b: int)
    ensures a * b == b * a
  {
  }

  // A packet that leaves when the path is free again keeps the pace.
  lemma Extends(log: seq<Sent>, rate: Rate, pacedAt: int, next: Sent)
    requires Paced(log, rate) && pacedAt <= next.at
    requires log != [] ==> log[|log| - 1].bits * SECOND <= rate * (pacedAt - log[|log| - 1].at)
    ensures Paced(log + [next], rate)
  {
    if log != [] {
      Later(rate, pacedAt - log[|log| - 1].at, next.at - log[|log| - 1].at);
    }
  }

  lemma Later(rate: Rate, a: int, b: int)
    requires a <= b
    ensures rate * a <= rate * b
  {
  }
}
