// internal/recvwindow: bounded terminal-ID history of one Session direction.
//
// `History` is the reference: sets of terminal IDs inside a sliding window.
// `Window` is the code: two wrapping bitmaps cleared word by word.
module RecvWindow {
  import opened Words
  import opened RingMath

  const MAX_SPAN := 65536

  datatype Status = Unseen | Completed | Expired | Retired | InvalidID | Closed

  /** Terminal history without bitmaps. */
  datatype History = History(
    span: nat, highest: nat, completed: set<nat>, expired: set<nat>, closed: bool)
  {
    ghost predicate Valid() {
      && span >= 1
      && completed !! expired
      && forall id :: id in completed + expired ==> Floor() <= id <= highest
    }

    function Floor(): nat {
      if highest < span then 1 else highest - span + 1
    }

    function State(id: nat): Status {
      if closed then Closed
      else if id == 0 then InvalidID
      else if id < Floor() then Retired
      else if id in completed then Completed
      else if id in expired then Expired
      else Unseen
    }

    // The floor follows the highest admitted ID; IDs that fall below it are forgotten.
    function Admit(id: nat): History {
      if State(id) != Unseen || id <= highest then this
      else
        var next := this.(highest := id);
        next.(completed := Retained(completed, next.Floor()), expired := Retained(expired, next.Floor()))
    }

    predicate CanFinish(id: nat, terminal: Status) {
      && !closed && id != 0 && id <= highest
      && (terminal == Completed || terminal == Expired)
      && State(id) in {Unseen, Retired, terminal}
    }

    function Finish(id: nat, terminal: Status): History {
      if !CanFinish(id, terminal) || State(id) != Unseen then this
      else if terminal == Completed then this.(completed := completed + {id})
      else this.(expired := expired + {id})
    }

    function Close(): History {
      this.(completed := {}, expired := {}, closed := true)
    }
  }

  function NewHistory(span: nat): History {
    History(span, 0, {}, {}, false)
  }

  function Retained(ids: set<nat>, floor: nat): set<nat> {
    set x | x in ids && x >= floor
  }

  datatype Step = AdmitStep(id: nat) | FinishStep(id: nat, terminal: Status) | CloseStep

  function Apply(h: History, s: Step): History {
    match s
    case AdmitStep(id) => h.Admit(id)
    case FinishStep(id, terminal) => h.Finish(id, terminal)
    case CloseStep => h.Close()
  }

  function Run(h: History, steps: seq<Step>): History
    decreases |steps|
  {
    if steps == [] then h else Run(Apply(h, steps[0]), steps[1..])
  }

  // What a status may turn into: a terminal answer is final, except that it
  // may be forgotten behind the floor or closed; nothing terminal reopens.
  predicate MayBecome(before: Status, after: Status) {
    match before
    case Unseen => after != InvalidID
    case Completed => after in {Completed, Retired, Closed}
    case Expired => after in {Expired, Retired, Closed}
    case Retired => after in {Retired, Closed}
    case InvalidID => after in {InvalidID, Closed}
    case Closed => after == Closed
  }

  lemma StepIsFinal(h: History, s: Step, id: nat)
    requires h.Valid()
    ensures var next := Apply(h, s);
      && next.Valid() && next.span == h.span
      && MayBecome(h.State(id), next.State(id))
      && next.highest >= h.highest && next.Floor() >= h.Floor()
  {
    match s
    case AdmitStep(x) =>
      if h.State(x) == Unseen && x > h.highest {
        assert Apply(h, s).completed <= h.completed;
        assert Apply(h, s).expired <= h.expired;
      }
    case FinishStep(x, terminal) =>
      assert Apply(h, s).completed + Apply(h, s).expired <= h.completed + h.expired + {x};
    case CloseStep =>
  }

  /** Over every run of the window no terminal or retired ID becomes admissible
      again, no ID changes its terminal answer, and the floor never retreats. */
  lemma {:induction false} HistoryIsFinal(h: History, steps: seq<Step>, id: nat)
    requires h.Valid()
    ensures Run(h, steps).Valid() && Run(h, steps).span == h.span
    ensures MayBecome(h.State(id), Run(h, steps).State(id))
    ensures Run(h, steps).highest >= h.highest && Run(h, steps).Floor() >= h.Floor()
    decreases |steps|
  {
    if steps != [] {
      StepIsFinal(h, steps[0], id);
      HistoryIsFinal(Apply(h, steps[0]), steps[1..], id);
    }
  }

  // Number of 64-bit words holding `span` bits.
  function WordCount(span: nat): nat {
    (span + 63) / 64
  }

  // The largest ID at most `highest` that owns ring position p; it may be
  // nonpositive while the window has not been filled once.
  function IdAt(highest: nat, span: nat, p: nat): int
    requires p < span
  {
    highest - Steps(p, highest % span, span)
  }

  lemma OwnerOfPosition(highest: nat, span: nat, p: nat)
    requires p < span && IdAt(highest, span, p) >= 0
    ensures IdAt(highest, span, p) % span == p
  {
    var d := Steps(p, highest % span, span);
    var q := highest / span;
    if highest % span >= p {
      ModUnique(highest - d, span, q, p);
    } else {
      assert (q - 1) * span == q * span - span;
      ModUnique(highest - d, span, q - 1, p);
    }
  }

  lemma PositionOfId(highest: nat, span: nat, id: nat)
    requires span > 0 && id <= highest < id + span
    ensures id % span < span && IdAt(highest, span, id % span) == id
  {
    ModAhead(id, highest - id, span);
  }

  // Moving the top of the window from `highest` to `id` leaves the owner of a
  // position unchanged exactly when the clear loop has not passed over it.
  lemma OwnerAfterAdvance(highest: nat, id: nat, span: nat, p: nat)
    requires p < span && highest < id < highest + span
    ensures Steps((highest + 1) % span, p, span) >= id - highest
      ==> IdAt(id, span, p) == IdAt(highest, span, p)
    ensures Steps((highest + 1) % span, p, span) < id - highest
      ==> IdAt(id, span, p) > highest
  {
    ModAhead(highest, id - highest, span);
    ModAhead(highest, 1, span);
  }

  ghost function Ids(words: seq<Word>, highest: nat, span: nat): set<nat>
    requires span > 0 && |words| == WordCount(span)
  {
    set id: nat | 1 <= id <= highest && highest < id + span && Bit(words, id % span)
  }

  // Set bits lie on the ring and belong to IDs inside the window.
  ghost predicate Owned(words: seq<Word>, highest: nat, span: nat)
    requires span > 0 && |words| == WordCount(span)
  {
    forall p: nat :: p < 64 * |words| && Bit(words, p) ==> p < span && IdAt(highest, span, p) >= 1
  }

  /** The population count of a bitmap is the number of IDs it stands for. */
  lemma CountIsCard(words: seq<Word>, highest: nat, span: nat)
    requires span > 0 && |words| == WordCount(span) && Owned(words, highest, span)
    ensures OnesTotal(words) == |Ids(words, highest, span)|
  {
    OnesTotalIsCard(words);
    var ids, positions := Ids(words, highest, span), Below(words, 64 * |words|);
    var f := (id: nat) => id % span;
    var g := (p: nat) => if p < span && IdAt(highest, span, p) >= 0 then IdAt(highest, span, p) else 0;
    forall id | id in ids
      ensures f(id) in positions && g(f(id)) == id
    {
      PositionOfId(highest, span, id);
    }
    forall p | p in positions
      ensures g(p) in ids && f(g(p)) == p
    {
      OwnerOfPosition(highest, span, p);
    }
    EqualCards(ids, positions, f, g);
  }

  // The bitmap after `done` of the ring positions from `start` on were cleared.
  ghost predicate ClearedFrom(now: seq<Word>, before: seq<Word>, start: nat, done: nat, span: nat)
    requires start < span && |now| == |before| == WordCount(span)
  {
    && (forall p: nat :: p < span ==> (Bit(now, p) <==> Bit(before, p) && Steps(start, p, span) >= done))
    && (forall p: nat :: span <= p < 64 * |now| ==> (Bit(now, p) <==> Bit(before, p)))
  }

  lemma ClearWord(now: seq<Word>, before: seq<Word>, start: nat, done: nat, span: nat, width: nat)
    requires start < span && done < span && |now| == |before| == WordCount(span)
    requires ClearedFrom(now, before, start, done, span)
    requires var position := Ahead(start, done, span);
      1 <= width <= 64 - position % 64 && width <= span - position && done + width <= span
    ensures var position := Ahead(start, done, span);
      var mask := ShiftLeft(ShiftRight(ONES, 64 - width), position % 64);
      && position / 64 < |now|
      && ClearedFrom(now[position / 64 := AndNot(now[position / 64], mask)], before, start, done + width, span)
  {
    var position := Ahead(start, done, span);
    var mask := ShiftLeft(ShiftRight(ONES, 64 - width), position % 64);
    var next := now[position / 64 := AndNot(now[position / 64], mask)];
    forall p: nat | p < 64 * |now|
      ensures Bit(next, p) <==> Bit(now, p) && !(position <= p < position + width)
    {
      RangeMask(width, position % 64, p % 64);
    }
  }

  // Both bitmaps of a window whose top is `highest`.
  ghost predicate Bitmaps(c: seq<Word>, e: seq<Word>, highest: nat, span: nat) {
    && span > 0 && |c| == |e| == WordCount(span)
    && Owned(c, highest, span) && Owned(e, highest, span)
    && forall p: nat :: p < 64 * |c| ==> !(Bit(c, p) && Bit(e, p))
  }

  ghost function HistoryOf(c: seq<Word>, e: seq<Word>, highest: nat, span: nat): History
    requires span > 0 && |c| == |e| == WordCount(span)
  {
    History(span, highest, Ids(c, highest, span), Ids(e, highest, span), false)
  }

  lemma AdvanceByClearing(now: seq<Word>, before: seq<Word>, highest: nat, id: nat, span: nat)
    requires span > 0 && |now| == |before| == WordCount(span) && highest < id < highest + span
    requires Owned(before, highest, span)
    requires ClearedFrom(now, before, (highest + 1) % span, id - highest, span)
    ensures Owned(now, id, span)
    ensures Ids(now, id, span) == Retained(Ids(before, highest, span), NewHistory(span).(highest := id).Floor())
  {
    forall p: nat | p < span
      ensures Bit(now, p) ==> IdAt(id, span, p) == IdAt(highest, span, p)
    {
      OwnerAfterAdvance(highest, id, span, p);
    }
    forall x: nat | 1 <= x <= id && id < x + span
      ensures x in Ids(now, id, span) <==> x in Ids(before, highest, span)
    {
      PositionOfId(id, span, x);
      OwnerAfterAdvance(highest, id, span, x % span);
      if x <= highest {
        PositionOfId(highest, span, x);
      }
    }
  }

  lemma AdvanceBitmaps(
    c: seq<Word>, e: seq<Word>, c0: seq<Word>, e0: seq<Word>, highest: nat, id: nat, span: nat)
    requires Bitmaps(c0, e0, highest, span) && |c| == |e| == WordCount(span) && highest < id < highest + span
    requires ClearedFrom(c, c0, (highest + 1) % span, id - highest, span)
    requires ClearedFrom(e, e0, (highest + 1) % span, id - highest, span)
    ensures Bitmaps(c, e, id, span)
    ensures HistoryOf(c, e, id, span) == HistoryOf(c0, e0, highest, span).Admit(id)
  {
    AdvanceByClearing(c, c0, highest, id, span);
    AdvanceByClearing(e, e0, highest, id, span);
  }

  lemma JumpBitmaps(
    c: seq<Word>, e: seq<Word>, c0: seq<Word>, e0: seq<Word>, highest: nat, id: nat, span: nat)
    requires Bitmaps(c0, e0, highest, span) && |c| == |e| == WordCount(span) && id >= highest + span
    requires forall i :: 0 <= i < |c| ==> c[i] == e[i] == ZERO
    ensures Bitmaps(c, e, id, span)
    ensures HistoryOf(c, e, id, span) == HistoryOf(c0, e0, highest, span).Admit(id)
  {
    assert Ids(c, id, span) == {} == Ids(e, id, span) by {
      forall x: nat | 1 <= x <= id && id < x + span
        ensures !Bit(c, x % span) && !Bit(e, x % span)
      {
        PositionOfId(id, span, x);
      }
    }
    var floor := NewHistory(span).(highest := id).Floor();
    assert Retained(Ids(c0, highest, span), floor) == {};
    assert Retained(Ids(e0, highest, span), floor) == {};
  }

  lemma SetOne(words: seq<Word>, highest: nat, span: nat, id: nat)
    requires span > 0 && |words| == WordCount(span) && Owned(words, highest, span)
    requires 1 <= id <= highest < id + span
    requires !Bit(words, id % span)
    ensures var p := id % span;
      var next := words[p / 64 := Or(words[p / 64], SingleBit(p % 64))];
      && Owned(next, highest, span)
      && Ids(next, highest, span) == Ids(words, highest, span) + {id}
      && OnesTotal(next) == OnesTotal(words) + 1
      && (forall q: nat :: q < 64 * |words| ==> (Bit(next, q) <==> Bit(words, q) || q == p))
  {
    var p := id % span;
    var next := words[p / 64 := Or(words[p / 64], SingleBit(p % 64))];
    SettingBit(words[p / 64], p % 64);
    OnesTotalUpdate(words, p / 64, Or(words[p / 64], SingleBit(p % 64)));
    forall q: nat | q < 64 * |words|
      ensures Bit(next, q) <==> Bit(words, q) || q == p
    {
    }
    forall x: nat | 1 <= x <= highest && highest < x + span
      ensures x % span == p ==> x == id
    {
      PositionOfId(highest, span, x);
      PositionOfId(highest, span, id);
    }
    PositionOfId(highest, span, id);
  }

  class Window {
    const span: U64
    var highest: U64
    var completed: array<Word>
    var expired: array<Word>
    var completedCount: int
    var expiredCount: int
    var closed: bool

    ghost predicate Shape()
      reads this
    {
      && 1 <= span <= MAX_SPAN
      && completed != expired
      && completed.Length == expired.Length == (if closed then 0 else WordCount(span))
    }

    ghost predicate Valid()
      reads this, completed, expired
    {
      && Shape()
      && (closed ==> completedCount == expiredCount == 0)
      && (!closed ==>
        && Bitmaps(completed[..], expired[..], highest, span)
        && completedCount == OnesTotal(completed[..])
        && expiredCount == OnesTotal(expired[..]))
    }

    // The terminal history the bitmaps stand for.
    ghost function View(): History
      reads this, completed, expired
      requires Shape()
    {
      if closed then History(span, highest, {}, {}, true)
      else HistoryOf(completed[..], expired[..], highest, span)
    }

    lemma Abstraction()
      requires Valid()
      ensures View().Valid()
      ensures completedCount == |View().completed| && expiredCount == |View().expired|
    {
      if !closed {
        CountIsCard(completed[..], highest, span);
        CountIsCard(expired[..], highest, span);
      }
    }

    constructor (span: U64)
      requires 1 <= span <= MAX_SPAN
      ensures Valid() && View() == NewHistory(span)
      ensures fresh(completed) && fresh(expired)
    {
      this.span := span;
      highest, completedCount, expiredCount, closed := 0, 0, 0, false;
      completed := new Word[WordCount(span)](_ => ZERO);
      expired := new Word[WordCount(span)](_ => ZERO);
      new;
      OnesTotalZero(completed[..]);
      OnesTotalZero(expired[..]);
    }

    // New: a null window stands for ErrInvalidSpan.
    static method New(span: U32) returns (w: Window?)
      ensures w == null <==> span < 1 || span > MAX_SPAN
      ensures w != null ==> w.Valid() && w.View() == NewHistory(span)
      ensures w != null ==> fresh(w) && fresh(w.completed) && fresh(w.expired)
    {
      if span < 1 || span > MAX_SPAN {
        return null;
      }
      w := new Window(span);
    }

    function Floor(): U64
      reads this
      requires Shape()
      ensures Floor() == View().Floor()
    {
      if highest < span then 1 else highest - span + 1
    }

    method State(id: U64) returns (status: Status)
      requires Valid()
      ensures status == View().State(id)
    {
      if closed {
        return Closed;
      }
      if id == 0 {
        return InvalidID;
      }
      if id < Floor() {
        return Retired;
      }
      if id > highest {
        return Unseen;
      }
      var index := id % span;
      PositionOfId(highest, span, id);
      var mask := SingleBit(index % 64);
      if And(completed[index / 64], mask) != ZERO {
        assert Bit(completed[..], index);
        return Completed;
      }
      assert !And(completed[index / 64], mask)[index % 64];
      if And(expired[index / 64], mask) != ZERO {
        assert Bit(expired[..], index);
        return Expired;
      }
      assert !And(expired[index / 64], mask)[index % 64];
      return Unseen;
    }

    method Admit(id: U64) returns (status: Status)
      requires Valid()
      modifies this, completed, expired
      ensures Valid() && completed == old(completed) && expired == old(expired)
      ensures status == old(View()).State(id)
      ensures View() == old(View()).Admit(id)
    {
      status := State(id);
      if status != Unseen || id <= highest {
        return;
      }
      var distance := id - highest;
      ghost var before, beforeExpired := completed[..], expired[..];
      if distance >= span {
        ClearAll();
        JumpBitmaps(completed[..], expired[..], before, beforeExpired, highest, id, span);
      } else {
        ClearRing(id);
        AdvanceBitmaps(completed[..], expired[..], before, beforeExpired, highest, id, span);
      }
      highest := id;
    }

    method ClearAll()
      requires completed != expired
      modifies this`completedCount, this`expiredCount, completed, expired
      ensures forall i :: 0 <= i < completed.Length ==> completed[i] == ZERO
      ensures forall i :: 0 <= i < expired.Length ==> expired[i] == ZERO
      ensures completedCount == OnesTotal(completed[..]) && expiredCount == OnesTotal(expired[..])
    {
      forall i | 0 <= i < completed.Length {
        completed[i] := ZERO;
      }
      forall i | 0 <= i < expired.Length {
        expired[i] := ZERO;
      }
      completedCount, expiredCount := 0, 0;
      OnesTotalZero(completed[..]);
      OnesTotalZero(expired[..]);
    }

    // The word-masked clear loop of Admit.
    method ClearRing(id: U64)
      requires Shape() && !closed && highest < id < highest + span
      requires completedCount == OnesTotal(completed[..]) && expiredCount == OnesTotal(expired[..])
      modifies this`completedCount, this`expiredCount, completed, expired
      ensures ClearedFrom(completed[..], old(completed[..]), (highest + 1) % span, id - highest, span)
      ensures ClearedFrom(expired[..], old(expired[..]), (highest + 1) % span, id - highest, span)
      ensures completedCount == OnesTotal(completed[..]) && expiredCount == OnesTotal(expired[..])
    {
      var position := (highest + 1) % span;
      ghost var start, before, beforeExpired := position, completed[..], expired[..];
      var remaining := id - highest;
      while remaining > 0
        invariant 0 <= remaining <= id - highest
        invariant position == Ahead(start, id - highest - remaining, span)
        invariant ClearedFrom(completed[..], before, start, id - highest - remaining, span)
        invariant ClearedFrom(expired[..], beforeExpired, start, id - highest - remaining, span)
        invariant completedCount == OnesTotal(completed[..]) && expiredCount == OnesTotal(expired[..])
      {
        var width := ClearChunk(position, remaining, start, before, beforeExpired, id - highest - remaining);
        ModSmall(position + width, span);
        position := (position + width) % span;
        remaining := remaining - width;
      }
    }

    // One iteration: the ring positions from `position` on that share its word.
    method ClearChunk(
      position: nat, remaining: nat, ghost start: nat, ghost before: seq<Word>, ghost beforeExpired: seq<Word>,
      ghost done: nat)
      returns (width: nat)
      requires Shape() && !closed && start < span && done < done + remaining < span
      requires |before| == |beforeExpired| == WordCount(span) && position == Ahead(start, done, span)
      requires ClearedFrom(completed[..], before, start, done, span)
      requires ClearedFrom(expired[..], beforeExpired, start, done, span)
      requires completedCount == OnesTotal(completed[..]) && expiredCount == OnesTotal(expired[..])
      modifies this`completedCount, this`expiredCount, completed, expired
      ensures 1 <= width <= remaining && position + width <= span
      ensures ClearedFrom(completed[..], before, start, done + width, span)
      ensures ClearedFrom(expired[..], beforeExpired, start, done + width, span)
      ensures completedCount == OnesTotal(completed[..]) && expiredCount == OnesTotal(expired[..])
    {
      width := Min(remaining, Min(64 - position % 64, span - position));
      var mask := ShiftLeft(ShiftRight(ONES, 64 - width), position % 64);
      ClearWord(completed[..], before, start, done, span, width);
      ClearWord(expired[..], beforeExpired, start, done, span, width);
      ClearMasked(position / 64, mask);
    }

    method ClearMasked(word: nat, mask: Word)
      requires completed != expired && word < completed.Length == expired.Length
      requires completedCount == OnesTotal(completed[..]) && expiredCount == OnesTotal(expired[..])
      modifies this`completedCount, this`expiredCount, completed, expired
      ensures completed[..] == old(completed[..])[word := AndNot(old(completed[word]), mask)]
      ensures expired[..] == old(expired[..])[word := AndNot(old(expired[word]), mask)]
      ensures completedCount == OnesTotal(completed[..]) && expiredCount == OnesTotal(expired[..])
    {
      ClearingBits(completed[word], mask);
      ClearingBits(expired[word], mask);
      OnesTotalUpdate(completed[..], word, AndNot(completed[word], mask));
      OnesTotalUpdate(expired[..], word, AndNot(expired[word], mask));
      ghost var c, e := completed[..], expired[..];
      completedCount := completedCount - Ones(And(completed[word], mask));
      expiredCount := expiredCount - Ones(And(expired[word], mask));
      completed[word] := AndNot(completed[word], mask);
      expired[word] := AndNot(expired[word], mask);
      assert completed[..] == c[word := AndNot(c[word], mask)];
      assert expired[..] == e[word := AndNot(e[word], mask)];
    }

    method Finish(id: U64, terminal: Status) returns (ok: bool)
      requires Valid()
      modifies this, completed, expired
      ensures Valid() && completed == old(completed) && expired == old(expired)
      ensures ok == old(View()).CanFinish(id, terminal)
      ensures View() == old(View()).Finish(id, terminal)
    {
      if (terminal != Completed && terminal != Expired) || closed || id == 0 || id > highest {
        return false;
      }
      var status := State(id);
      if status == Retired || status == terminal {
        return true;
      }
      if status != Unseen {
        return false;
      }
      var index := id % span;
      var mask := SingleBit(index % 64);
      ghost var c, e := completed[..], expired[..];
      PositionOfId(highest, span, id);
      if terminal == Completed {
        SetOne(c, highest, span, id);
        completed[index / 64] := Or(completed[index / 64], mask);
        completedCount := completedCount + 1;
        assert completed[..] == c[index / 64 := Or(c[index / 64], mask)];
      } else {
        SetOne(e, highest, span, id);
        expired[index / 64] := Or(expired[index / 64], mask);
        expiredCount := expiredCount + 1;
        assert expired[..] == e[index / 64 := Or(e[index / 64], mask)];
      }
      return true;
    }

    method Close()
      requires Valid()
      modifies this
      ensures Valid() && View() == old(View()).Close()
      ensures !old(closed) ==> fresh(completed) && fresh(expired)
      ensures old(closed) ==> completed == old(completed) && expired == old(expired)
    {
      if closed {
        return;
      }
      closed := true;
      completed := new Word[0];
      expired := new Word[0];
      completedCount, expiredCount := 0, 0;
    }
  }

  function Min(a: int, b: int): int {
    if a < b then a else b
  }
}
