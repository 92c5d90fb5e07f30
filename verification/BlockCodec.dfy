// internal/fec: one Datagram as one block of equal shards, and back.
//
// Reed-Solomon arithmetic is a pair of functions with one assumption: any
// dataShards shards of an encoded block recover its data shards.
module BlockCodec {
  import opened Words
  import Packing

  const MAX_TOTAL_SHARDS := 256
  const MAX_INT := 0x7FFF_FFFF_FFFF_FFFF

  type Payload = seq<Packing.Byte>

  datatype Option<T> = None | Some(value: T)

  datatype Params = Params(dataShards: int, parityShards: int) {
    function Total(): int {
      dataShards + parityShards
    }

    // validateParams
    predicate InBounds() {
      dataShards > 0 && 0 < parityShards <= MAX_TOTAL_SHARDS && dataShards <= MAX_TOTAL_SHARDS - parityShards
    }
  }

  datatype Budget = Budget(maxUDPPayload: int, overhead: int, maxDatagramSize: int)

  datatype Limits = Limits(shardCapacity: int, derivedLimit: int, effectiveLimit: int)

  // DeriveLimits; None stands for its errors. Quotients of positive operands
  // truncate like the code's.
  function DeriveLimits(params: Params, budget: Budget): Option<Limits> {
    if !params.InBounds() || budget.overhead < 0 || budget.maxUDPPayload <= budget.overhead then None
    else if budget.maxDatagramSize <= 0 || budget.maxDatagramSize > MAX_U32 then None
    else
      var capacity := budget.maxUDPPayload - budget.overhead;
      if capacity > MAX_INT / params.dataShards || capacity > MAX_INT / params.Total() then None
      else
        var derived := params.dataShards * capacity;
        Some(Limits(capacity, derived, if derived < budget.maxDatagramSize then derived else budget.maxDatagramSize))
  }

  // shardSizeForDatagram
  function ShardSize(length: nat, dataShards: int): nat
    requires dataShards > 0
  {
    if length == 0 then 1 else length / dataShards + if length % dataShards != 0 then 1 else 0
  }

  lemma QuotientBounds(length: nat, k: int)
    requires k > 0
    ensures k * (length / k) <= length < k * (length / k) + k
  {
  }

  lemma ProductOrder(a: int, b: int, k: int)
    requires k > 0
    ensures a * k <= b * k <==> a <= b
    ensures k * a <= k * b <==> a <= b
  {
  }

  // The shards of a block hold its Datagram and little more.
  lemma ShardsCover(length: nat, k: int)
    requires k > 0
    ensures var size := ShardSize(length, k);
      1 <= size && length <= k * size && (length > 0 ==> k * size < length + k) && (length == 0 ==> size == 1)
  {
    QuotientBounds(length, k);
    assert k * (length / k + 1) == k * (length / k) + k;
    if length > 0 && length % k == 0 {
      ProductOrder(1, length / k, k);
    }
  }

  /** A block has room for its Datagram, wastes less than one byte per data shard
      beyond it, and for every Datagram within the limits neither a shard nor the
      whole block overflows. */
  lemma ShardsFit(params: Params, budget: Budget, length: nat)
    requires DeriveLimits(params, budget).Some? && length <= DeriveLimits(params, budget).value.effectiveLimit
    ensures var l, size, k := DeriveLimits(params, budget).value, ShardSize(length, params.dataShards), params.dataShards;
      && length <= k * size && (length > 0 ==> k * size < length + k)
      && 1 <= size <= l.shardCapacity && params.Total() * size <= MAX_INT && l.derivedLimit <= MAX_INT
  {
    hide DeriveLimits, ShardSize;
    DerivedFacts(params, budget);
    var k, n, l := params.dataShards, params.Total(), DeriveLimits(params, budget).value;
    ShardsCover(length, k);
    SizeFits(length, k, ShardSize(length, k), l.shardCapacity);
    ProductWithin(n, ShardSize(length, k), l.shardCapacity);
    ProductWithin(k, l.shardCapacity, l.shardCapacity);
  }

  lemma DerivedFacts(params: Params, budget: Budget)
    requires DeriveLimits(params, budget).Some?
    ensures var l := DeriveLimits(params, budget).value;
      && params.dataShards > 0 && params.Total() > 0 && 1 <= l.shardCapacity
      && l.shardCapacity <= MAX_INT / params.dataShards && l.shardCapacity <= MAX_INT / params.Total()
      && l.derivedLimit == params.dataShards * l.shardCapacity && l.effectiveLimit <= l.derivedLimit
  {
  }

  lemma SizeFits(length: nat, k: int, size: int, capacity: int)
    requires k > 0 && 1 <= capacity && length <= k * capacity
    requires (length > 0 ==> k * size < length + k) && (length == 0 ==> size == 1)
    ensures size <= capacity
  {
    if length > 0 {
      assert k * (capacity + 1) == k * capacity + k;
      ProductOrder(capacity + 1, size, k);
    }
  }

  lemma ProductWithin(n: int, size: int, capacity: int)
    requires n > 0 && size <= capacity <= MAX_INT / n
    ensures n * size <= MAX_INT
  {
    QuotientBounds(MAX_INT, n);
    ProductOrder(size, MAX_INT / n, n);
  }

  // ---------------------------------------------------------------------------
  // Layout

  function Zeros(n: nat): Payload {
    seq(n, _ => 0)
  }

  function Concat(shards: seq<Payload>): Payload {
    if shards == [] then [] else shards[0] + Concat(shards[1..])
  }

  lemma {:induction false} ConcatLast(shards: seq<Payload>)
    requires shards != []
    ensures Concat(shards) == Concat(shards[..|shards| - 1]) + shards[|shards| - 1]
  {
    if |shards| > 1 {
      ConcatLast(shards[1..]);
      assert shards[1..][..|shards| - 2] == shards[..|shards| - 1][1..];
    }
  }

  // Further shards only append bytes.
  lemma {:induction false} ConcatParts(shards: seq<Payload>, i: nat)
    requires i <= |shards|
    ensures Concat(shards[..i]) <= Concat(shards)
  {
    if i > 0 {
      ConcatParts(shards[1..], i - 1);
      assert shards[..i][1..] == shards[1..][..i - 1];
    }
  }

  // Consecutive slices of `size` bytes, n of them.
  function Slices(bytes: Payload, size: nat, n: nat): (s: seq<Payload>)
    requires n * size <= |bytes|
    ensures |s| == n && forall i :: 0 <= i < n ==> |s[i]| == size
  {
    if n == 0 then []
    else
      OneLess(size, n);
      [bytes[..size]] + Slices(bytes[size..], size, n - 1)
  }

  lemma OneLess(size: nat, n: nat)
    requires n > 0
    ensures n * size == size + (n - 1) * size && (n - 1) * size >= 0
  {
  }

  lemma {:induction false} SlicesJoin(bytes: Payload, size: nat, n: nat)
    requires n * size <= |bytes|
    ensures Concat(Slices(bytes, size, n)) == bytes[..n * size]
  {
    if n > 0 {
      OneLess(size, n);
      SlicesJoin(bytes[size..], size, n - 1);
      var rest := (n - 1) * size;
      assert Slices(bytes, size, n)[1..] == Slices(bytes[size..], size, n - 1);
      assert bytes[..size] + bytes[size..][..rest] == bytes[..size + rest];
    }
  }

  // The data shards of a Datagram: padded with zeros and cut into equal shards.
  function DataShards(datagram: Payload, k: int): seq<Payload>
    requires k > 0
  {
    var size := ShardSize(|datagram|, k);
    Padded(|datagram|, k);
    Slices(datagram + Zeros(k * size - |datagram|), size, k)
  }

  lemma Padded(length: nat, k: int)
    requires k > 0
    ensures length <= k * ShardSize(length, k)
  {
    QuotientBounds(length, k);
    assert k * (length / k + 1) == k * (length / k) + k;
  }

  lemma DataShardsJoin(datagram: Payload, k: int)
    requires k > 0
    ensures var s := DataShards(datagram, k);
      && |s| == k && (forall i :: 0 <= i < k ==> |s[i]| == ShardSize(|datagram|, k))
      && |Concat(s)| >= |datagram| && Concat(s)[..|datagram|] == datagram
  {
    Padded(|datagram|, k);
    var size := ShardSize(|datagram|, k);
    SlicesJoin(datagram + Zeros(k * size - |datagram|), size, k);
  }

  // ---------------------------------------------------------------------------
  // Reed-Solomon

  // Encode adds the parity shards to the data shards; ReconstructData fills in
  // missing data shards or fails.
  datatype Codec = Codec(parity: seq<Payload> -> seq<Payload>, reconstruct: seq<Option<Payload>> -> Option<seq<Payload>>)

  // Some of the shards of a block.
  predicate PartOf(shards: seq<Option<Payload>>, block: seq<Payload>) {
    |shards| == |block| && forall i :: 0 <= i < |shards| && shards[i].Some? ==> shards[i].value == block[i]
  }

  // How many of the first n shards there are.
  function CountTo(shards: seq<Option<Payload>>, n: nat): nat
    requires n <= |shards|
  {
    if n == 0 then 0 else CountTo(shards, n - 1) + if shards[n - 1].Some? then 1 else 0
  }

  function CountOf(shards: seq<Option<Payload>>): nat {
    CountTo(shards, |shards|)
  }

  // The assumption about the library.
  ghost predicate Recovers(codec: Codec, params: Params) {
    && (forall data :: |data| == params.dataShards ==> |codec.parity(data)| == params.parityShards)
    && (forall shards :: codec.reconstruct(shards).Some? ==> |codec.reconstruct(shards).value| == |shards|)
    && forall data, shards ::
        |data| == params.dataShards && PartOf(shards, data + codec.parity(data)) && CountOf(shards) >= params.dataShards ==>
        codec.reconstruct(shards).Some? && codec.reconstruct(shards).value[..params.dataShards] == data
  }

  function Block(codec: Codec, params: Params, datagram: Payload): seq<Payload>
    requires params.InBounds()
  {
    var data := DataShards(datagram, params.dataShards);
    data + codec.parity(data)
  }

  /** Any dataShards shards of a block give back its Datagram, at its length. */
  lemma AnyShardsRecover(codec: Codec, params: Params, datagram: Payload, shards: seq<Option<Payload>>)
    requires params.InBounds() && Recovers(codec, params)
    requires PartOf(shards, Block(codec, params, datagram)) && CountOf(shards) >= params.dataShards
    ensures codec.reconstruct(shards).Some? && |codec.reconstruct(shards).value| >= params.dataShards
    ensures var bytes := Concat(codec.reconstruct(shards).value[..params.dataShards]);
      |bytes| >= |datagram| && bytes[..|datagram|] == datagram
  {
    DataShardsJoin(datagram, params.dataShards);
  }

  // ---------------------------------------------------------------------------
  // The encoder

  datatype EncodeErr = Ok | ErrMessageTooLarge | ErrExhausted

  class Encoder {
    const params: Params
    const limits: Limits
    const codec: Codec
    var next: U64
    var exhausted: bool

    // The Packet IDs assigned so far, oldest first.
    ghost var issued: seq<U64>

    ghost predicate Valid()
      reads this
    {
      && params.InBounds() && limits.shardCapacity > 0
      && (forall i :: 0 <= i < |issued| ==> issued[i] == i)
      && |issued| == next + (if exhausted then 1 else 0) && (exhausted ==> next == MAX_U64)
    }

    // newEncoderAt, from Packet ID zero.
    static method New(params: Params, budget: Budget, codec: Codec) returns (e: Encoder?)
      ensures e == null <==> DeriveLimits(params, budget) == None
      ensures e != null ==> fresh(e) && e.Valid() && e.issued == [] && e.params == params
    {
      var limits := DeriveLimits(params, budget);
      if limits == None {
        return null;
      }
      e := new Encoder(params, limits.value, codec);
    }

    constructor (params: Params, limits: Limits, codec: Codec)
      requires params.InBounds() && limits.shardCapacity > 0
      ensures Valid() && issued == [] && this.params == params && this.limits == limits && this.codec == codec
    {
      this.params, this.limits, this.codec := params, limits, codec;
      next, exhausted, issued := 0, false, [];
    }

    // A Datagram that is refused takes no Packet ID; the last ID is used once.
    method Encode(datagram: Payload) returns (err: EncodeErr, id: U64, shards: seq<Payload>)
      requires Valid()
      modifies this
      ensures Valid()
      ensures err == ErrMessageTooLarge <==>
        (|datagram| > limits.effectiveLimit
         || (!old(exhausted) && ShardSize(|datagram|, params.dataShards) > limits.shardCapacity))
      ensures err == Ok ==> issued == old(issued) + [id] && id !in old(issued)
      ensures err == Ok ==> shards == Block(codec, params, datagram)
      ensures err != Ok ==> issued == old(issued) && next == old(next) && exhausted == old(exhausted)
      ensures err == ErrExhausted ==> |issued| == MAX_U64 + 1
    {
      if |datagram| > limits.effectiveLimit {
        return ErrMessageTooLarge, 0, [];
      }
      if exhausted {
        return ErrExhausted, 0, [];
      }
      if ShardSize(|datagram|, params.dataShards) > limits.shardCapacity {
        return ErrMessageTooLarge, 0, [];
      }
      shards := Block(codec, params, datagram);
      id := next;
      issued := issued + [id];
      if id == MAX_U64 {
        exhausted := true;
      } else {
        next := next + 1;
      }
      return Ok, id, shards;
    }
  }
}
