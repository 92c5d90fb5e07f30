// internal/fec/replay_window.go: the version 1 receive window, a ring of
// completed bits over the last 65536 Packet IDs, zero included.
//
// The reference is the set of completed IDs that are still in the window.
module ReplayWindow {
  import opened Words
  import opened RingMath
  import opened RecvWindow

  const SPAN := 65536

  predicate TooOld(started: bool, highest: nat, id: nat) {
    started && id < highest && highest - id >= SPAN
  }

  // The IDs whose bits are set.
  ghost function DoneIds(words: seq<Word>, highest: nat): set<nat>
    requires |words| == WordCount(SPAN)
  {
    set id: nat | id <= highest && highest < id + SPAN && Bit(words, id % SPAN)
  }

  // What stays in the window when its top moves.
  function Remembered(ids: set<nat>, highest: nat): set<nat> {
    set id | id in ids && highest < id + SPAN
  }

  // No bit is set for an ID before zero.
  ghost predicate Backed(words: seq<Word>, highest: nat)
    requires |words| == WordCount(SPAN)
  {
    forall p: nat :: p < SPAN && Bit(words, p) ==> IdAt(highest, SPAN, p) >= 0
  }

  /** The population count of the ring is the number of completed IDs in it. */
  lemma CountIsDone(words: seq<Word>, highest: nat)
    requires |words| == WordCount(SPAN) && Backed(words, highest)
    ensures OnesTotal(words) == |DoneIds(words, highest)|
  {
    OnesTotalIsCard(words);
    var ids, positions := DoneIds(words, highest), Below(words, 64 * |words|);
    var f := (id: nat) => id % SPAN;
    var g := (p: nat) => if p < SPAN && IdAt(highest, SPAN, p) >= 0 then IdAt(highest, SPAN, p) else 0;
    forall id | id in ids
      ensures f(id) in positions && g(f(id)) == id
    {
      PositionOfId(highest, SPAN, id);
    }
    forall p | p in positions
      ensures g(p) in ids && f(g(p)) == p
    {
      OwnerOfPosition(highest, SPAN, p);
    }
    EqualCards(ids, positions, f, g);
  }

  lemma AdvanceDone(now: seq<Word>, before: seq<Word>, highest: nat, id: nat)
    requires |now| == |before| == WordCount(SPAN) && highest < id < highest + SPAN && Backed(before, highest)
    requires ClearedFrom(now, before, (highest + 1) % SPAN, id - highest, SPAN)
    ensures Backed(now, id) && DoneIds(now, id) == Remembered(DoneIds(before, highest), id)
  {
    forall p: nat | p < SPAN
      ensures Bit(now, p) ==> IdAt(id, SPAN, p) == IdAt(highest, SPAN, p)
    {
      OwnerAfterAdvance(highest, id, SPAN, p);
    }
    forall x: nat | x <= id && id < x + SPAN
      ensures x in DoneIds(now, id) <==> x in DoneIds(before, highest)
    {
      PositionOfId(id, SPAN, x);
      OwnerAfterAdvance(highest, id, SPAN, x % SPAN);
      if x <= highest {
        PositionOfId(highest, SPAN, x);
      }
    }
  }

  lemma NothingDone(words: seq<Word>, highest: nat)
    requires |words| == WordCount(SPAN) && forall i :: 0 <= i < |words| ==> words[i] == ZERO
    ensures Backed(words, highest) && DoneIds(words, highest) == {} && OnesTotal(words) == 0
  {
    OnesTotalZero(words);
    forall x: nat | x <= highest && highest < x + SPAN
      ensures !Bit(words, x % SPAN)
    {
      PositionOfId(highest, SPAN, x);
    }
  }

  lemma CompleteOne(words: seq<Word>, highest: nat, id: nat)
    requires |words| == WordCount(SPAN) && Backed(words, highest) && id <= highest < id + SPAN
    ensures var p := id % SPAN;
      var next := words[p / 64 := Or(words[p / 64], SingleBit(p % 64))];
      && Backed(next, highest) && DoneIds(next, highest) == DoneIds(words, highest) + {id}
      && OnesTotal(next) == OnesTotal(words) + if Bit(words, p) then 0 else 1
  {
    var p := id % SPAN;
    var next := words[p / 64 := Or(words[p / 64], SingleBit(p % 64))];
    if Bit(words, p) {
      assert Or(words[p / 64], SingleBit(p % 64)) == words[p / 64];
      assert next == words;
    } else {
      SettingBit(words[p / 64], p % 64);
    }
    OnesTotalUpdate(words, p / 64, Or(words[p / 64], SingleBit(p % 64)));
    PositionOfId(highest, SPAN, id);
    forall q: nat | q < SPAN
      ensures Bit(next, q) <==> Bit(words, q) || q == p
    {
    }
    forall x: nat | x <= highest && highest < x + SPAN
      ensures x % SPAN == p ==> x == id
    {
      PositionOfId(highest, SPAN, x);
    }
  }

  class Window {
    const completed: array<Word>
    var highest: U64
    var started: bool
    var count: int

    ghost predicate Valid()
      reads this, completed
    {
      && completed.Length == WordCount(SPAN) && count == OnesTotal(completed[..])
      && Backed(completed[..], highest)
      && (!started ==> forall i :: 0 <= i < completed.Length ==> completed[i] == ZERO)
    }

    // The completed IDs that the window remembers.
    ghost function Done(): set<nat>
      reads this, completed
      requires Valid()
    {
      DoneIds(completed[..], highest)
    }

    constructor ()
      ensures Valid() && !started && Done() == {} && fresh(completed)
    {
      completed := new Word[WordCount(SPAN)](_ => ZERO);
      highest, started, count := 0, false, 0;
      new;
      NothingDone(completed[..], 0);
    }

    // tooOld
    predicate IsTooOld(id: U64)
      reads this
    {
      started && id < highest && highest - id >= SPAN
    }

    method Contains(id: U64) returns (seen: bool)
      requires Valid()
      ensures seen <==> id in Done()
    {
      if !started || id > highest || IsTooOld(id) {
        return false;
      }
      var index := id % SPAN;
      PositionOfId(highest, SPAN, id);
      var bit := And(completed[index / 64], SingleBit(index % 64));
      assert bit[index % 64] == Bit(completed[..], index);
      seen := bit != ZERO;
    }

    method Admit(id: U64)
      requires Valid()
      modifies this, completed
      ensures Valid() && started && highest == if old(started) && id <= old(highest) then old(highest) else id
      ensures Done() == if !old(started) then {} else Remembered(old(Done()), highest)
    {
      ghost var before := completed[..];
      if !started {
        NothingDone(before, id);
        started, highest := true, id;
        return;
      }
      if id <= highest {
        return;
      }
      var distance := id - highest;
      if distance >= SPAN {
        forall i | 0 <= i < completed.Length {
          completed[i] := ZERO;
        }
        count := 0;
        NothingDone(completed[..], id);
      } else {
        ClearRing(id);
        AdvanceDone(completed[..], before, highest, id);
      }
      highest := id;
    }

    method ClearRing(id: U64)
      requires completed.Length == WordCount(SPAN) && highest < id < highest + SPAN && count == OnesTotal(completed[..])
      modifies this`count, completed
      ensures ClearedFrom(completed[..], old(completed[..]), (highest + 1) % SPAN, id - highest, SPAN)
      ensures count == OnesTotal(completed[..])
    {
      var position := (highest + 1) % SPAN;
      ghost var start, before, distance := position, completed[..], id - highest;
      var remaining := id - highest;
      while remaining != 0
        invariant 0 <= remaining <= distance && position == Ahead(start, distance - remaining, SPAN)
        invariant ClearedFrom(completed[..], before, start, distance - remaining, SPAN)
        invariant count == OnesTotal(completed[..])
      {
        var width := Min(remaining, 64 - position % 64);
        var mask := ShiftLeft(ShiftRight(ONES, 64 - width), position % 64);
        var word := position / 64;
        assert width <= SPAN - position;
        ClearWord(completed[..], before, start, distance - remaining, SPAN, width);
        ClearingBits(completed[word], mask);
        OnesTotalUpdate(completed[..], word, AndNot(completed[word], mask));
        ghost var now := completed[..];
        count := count - Ones(And(completed[word], mask));
        completed[word] := AndNot(completed[word], mask);
        assert completed[..] == now[word := AndNot(now[word], mask)];
        ModSmall(position + width, SPAN);
        position := (position + width) % SPAN;
        remaining := remaining - width;
      }
    }

    // Pending blocks remain completable when they have fallen out of the window.
    method Complete(id: U64)
      requires Valid() && started && id <= highest
      modifies this`count, completed
      ensures Valid() && Done() == old(Done()) + if TooOld(started, highest, id) then {} else {id}
    {
      if IsTooOld(id) {
        return;
      }
      var index := id % SPAN;
      var mask := SingleBit(index % 64);
      ghost var before := completed[..];
      PositionOfId(highest, SPAN, id);
      CompleteOne(before, highest, id);
      if And(completed[index / 64], mask) == ZERO {
        assert !And(completed[index / 64], mask)[index % 64];
        completed[index / 64] := Or(completed[index / 64], mask);
        count := count + 1;
        assert completed[..] == before[index / 64 := Or(before[index / 64], mask)];
      } else {
        assert Bit(before, index);
        assert Or(before[index / 64], mask) == before[index / 64];
        assert before[index / 64 := before[index / 64]] == before;
      }
    }
  }
}
