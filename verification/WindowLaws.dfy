// The answers of the terminal-ID window, read off the operations of a run and not off
// its state.
module WindowLaws {
  import opened RecvWindow

  // The window was closed during the run.
  predicate Ended(steps: seq<Step>) {
    CloseStep in steps
  }

  // The largest ID admitted so far.
  function Top(steps: seq<Step>): nat {
    if steps == [] then 0
    else
      var front, s := steps[..|steps| - 1], steps[|steps| - 1];
      if s.AdmitStep? && !Ended(front) && s.id > Top(front) then s.id else Top(front)
  }

  // The first terminal answer given for the ID while it was in the window.
  function FirstAnswer(span: nat, steps: seq<Step>, id: nat): Status {
    if steps == [] then Unseen
    else
      var front, s := steps[..|steps| - 1], steps[|steps| - 1];
      if FirstAnswer(span, front, id) == Unseen && s.FinishStep? && s.id == id && s.terminal in {Completed, Expired}
        && !Ended(front) && 0 < id <= Top(front) < id + span
      then s.terminal
      else FirstAnswer(span, front, id)
  }

  lemma {:induction false} RunLast(h: History, steps: seq<Step>)
    requires steps != []
    ensures Run(h, steps) == Apply(Run(h, steps[..|steps| - 1]), steps[|steps| - 1])
    decreases |steps|
  {
    if |steps| > 1 {
      RunLast(Apply(h, steps[0]), steps[1..]);
      assert steps[1..][..|steps| - 2] == steps[..|steps| - 1][1..];
    }
  }

  // What the sets of a history hold after a run.
  ghost predicate Remembers(h: History, span: nat, steps: seq<Step>) {
    && h.span == span && h.closed == Ended(steps) && (!h.closed ==> h.highest == Top(steps))
    && (!h.closed ==> forall id: nat :: id != 0 && Top(steps) < id + span ==>
          && (id in h.completed <==> FirstAnswer(span, steps, id) == Completed)
          && (id in h.expired <==> FirstAnswer(span, steps, id) == Expired))
  }

  lemma {:induction false} EveryRunRemembers(span: nat, steps: seq<Step>)
    requires span >= 1
    ensures Run(NewHistory(span), steps).Valid() && Remembers(Run(NewHistory(span), steps), span, steps)
  {
    HistoryIsFinal(NewHistory(span), steps, 0);
    if steps != [] {
      var front, s := steps[..|steps| - 1], steps[|steps| - 1];
      EveryRunRemembers(span, front);
      RunLast(NewHistory(span), steps);
      StepRemembers(Run(NewHistory(span), front), span, front, s);
      assert front + [s] == steps;
    }
  }

  lemma StepRemembers(h: History, span: nat, front: seq<Step>, s: Step)
    requires span >= 1 && h.Valid() && Remembers(h, span, front)
    ensures Remembers(Apply(h, s), span, front + [s])
  {
    var steps := front + [s];
    assert steps[..|steps| - 1] == front && steps[|steps| - 1] == s;
    assert Ended(steps) <==> Ended(front) || s == CloseStep;
    if !Ended(steps) {
      TopAfter(h, span, front, s);
      forall id: nat | id != 0 && Top(steps) < id + span
        ensures id in Apply(h, s).completed <==> FirstAnswer(span, steps, id) == Completed
        ensures id in Apply(h, s).expired <==> FirstAnswer(span, steps, id) == Expired
      {
        AnswersAfter(h, span, front, s, id);
      }
    }
  }

  lemma TopAfter(h: History, span: nat, front: seq<Step>, s: Step)
    requires span >= 1 && h.Valid() && Remembers(h, span, front) && !Ended(front) && s != CloseStep
    ensures Apply(h, s).highest == Top(front + [s]) >= Top(front)
  {
    var steps := front + [s];
    assert steps[..|steps| - 1] == front && steps[|steps| - 1] == s;
    if s.AdmitStep? && s.id > h.highest {
      assert s.id !in h.completed + h.expired;
      assert h.State(s.id) == Unseen;
    }
  }

  lemma AnswersAfter(h: History, span: nat, front: seq<Step>, s: Step, id: nat)
    requires span >= 1 && h.Valid() && Remembers(h, span, front) && !Ended(front) && s != CloseStep
    requires id != 0 && Top(front + [s]) < id + span
    ensures id in Apply(h, s).completed <==> FirstAnswer(span, front + [s], id) == Completed
    ensures id in Apply(h, s).expired <==> FirstAnswer(span, front + [s], id) == Expired
  {
    var steps := front + [s];
    assert steps[..|steps| - 1] == front && steps[|steps| - 1] == s;
    TopAfter(h, span, front, s);
    AnswersAreTerminal(span, front, id);
    assert Top(front) < id + span;
    assert h.State(id) == FirstAnswer(span, front, id) || h.closed;
  }

  lemma {:induction false} AnswersAreTerminal(span: nat, steps: seq<Step>, id: nat)
    ensures FirstAnswer(span, steps, id) in {Unseen, Completed, Expired}
    ensures FirstAnswer(span, steps, id) != Unseen ==> 0 < id <= Top(steps)
  {
    if steps != [] {
      AnswersAreTerminal(span, steps[..|steps| - 1], id);
    }
  }

  /** After every run of a window the status of an ID is what the operations say: closed
      once it was closed, retired once an ID at least a span ahead was admitted, and
      otherwise the first terminal answer the ID was given in time. */
  lemma StatusIsHistory(span: nat, steps: seq<Step>, id: nat)
    requires span >= 1
    ensures Run(NewHistory(span), steps).State(id) ==
      if Ended(steps) then Closed else if id == 0 then InvalidID
      else if id + span <= Top(steps) then Retired else FirstAnswer(span, steps, id)
  {
    EveryRunRemembers(span, steps);
    AnswersAreTerminal(span, steps, id);
  }

  /** A terminal answer is taken for an ID that was admitted or passed by, is not 0, and
      has no other answer; a closed window takes none. */
  lemma FinishIsHistory(span: nat, steps: seq<Step>, id: nat, terminal: Status)
    requires span >= 1
    ensures Run(NewHistory(span), steps).CanFinish(id, terminal) <==>
      && !Ended(steps) && terminal in {Completed, Expired} && 0 < id <= Top(steps)
      && (Top(steps) >= id + span || FirstAnswer(span, steps, id) in {Unseen, terminal})
  {
    EveryRunRemembers(span, steps);
    StatusIsHistory(span, steps, id);
  }
}
