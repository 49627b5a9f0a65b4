/** Execution semantics of controller.py: the marked tape, the symbol
    check, the halting rule and verdict, one step of the run loop, the
    fuel-bounded run, and the allStep/quickStep drivers. */
module Execution {
  import opened Types
  import opened TransitionIndex
  import opened Validation

  /** attachEndMarker: the word between the two end markers. */
  function AttachEndMarker(word: string): (tape: string)
    ensures |tape| == |word| + 2
    ensures tape[0] == LeftMarker && tape[|tape| - 1] == RightMarker
    ensures tape[1..|tape| - 1] == word
  {
    [LeftMarker] + word + [RightMarker]
  }

  /** Python's `s[i]`: a negative index counts from the end; anything else
      out of range raises IndexError (None). */
  function PyIndex(s: string, i: int): Option<char>
  {
    if 0 <= i < |s| then Some(s[i])
    else if -|s| <= i < 0 then Some(s[|s| + i])
    else None
  }

  /** validateSymbol as written: only sigma is consulted. */
  predicate ValidateSymbolAsWritten(c: char, sigma: seq<char>) {
    c in sigma
  }

  /** validateSymbol as its comment and the engine need it: a tape symbol
      is a symbol of sigma or an end marker. */
  predicate ValidateSymbol(c: char, sigma: seq<char>) {
    c in sigma || IsMarker(c)
  }

  /** As written, the very first read of every run fails unless sigma
      happens to list the left end marker. */
  lemma FirstReadFailsAsWritten(word: string, sigma: seq<char>)
    requires LeftMarker !in sigma
    ensures !ValidateSymbolAsWritten(AttachEndMarker(word)[0], sigma)
  {
  }

  /** With the end markers accepted, every cell of a marked word over sigma
      passes the check. */
  lemma MarkedTapeSymbolsValid(word: string, sigma: seq<char>)
    requires forall i :: 0 <= i < |word| ==> word[i] in sigma
    ensures forall i :: 0 <= i < |AttachEndMarker(word)| ==> ValidateSymbol(AttachEndMarker(word)[i], sigma)
  {
    var tape := AttachEndMarker(word);
    forall i | 0 <= i < |tape|
      ensures ValidateSymbol(tape[i], sigma)
    {
      if 0 < i < |tape| - 1 {
        assert tape[i] == word[i - 1];
      }
    }
  }

  /** isEnd: the run stops in the accept or reject state on an end marker. */
  predicate IsEnd(state: State, accept: State, reject: State, input: char) {
    (state == accept || state == reject) && IsMarker(input)
  }

  /** isAccepted: the verdict of a stopped run. */
  predicate IsAccepted(state: State, accept: State) {
    state == accept
  }

  /** On a marked word without inner markers the run can only stop at
      either end of the tape. */
  lemma HaltOnlyAtTapeEnds(word: string, state: State, accept: State, reject: State, h: int)
    requires forall i :: 0 <= i < |word| ==> !IsMarker(word[i])
    requires 0 <= h < |AttachEndMarker(word)|
    requires IsEnd(state, accept, reject, AttachEndMarker(word)[h])
    ensures h == 0 || h == |word| + 1
    ensures state == accept || state == reject
  {
    var tape := AttachEndMarker(word);
    assert forall i :: 0 < i < |tape| - 1 ==> tape[i] == word[i - 1];
  }

  /** The run fields of a machine: current and previous state, head,
      last direction and the accepted flag. */
  datatype Trace = Trace(curr: State, prev: Option<State>, head: int, direction: Direction, accepted: bool)

  /** The trace a machine starts (and restarts) from. */
  function Initial(start: State): Trace {
    Trace(start, Some(start), 0, Right, false)
  }

  datatype RunError =
    | HeadOffTape    // IndexError reading the tape
    | InvalidSymbol  // validateSymbol failed: the run returns False
    | NoTransition   // nextStep found nothing

  datatype StepOutcome = Continue | Halted(accepted: bool) | Failed(error: RunError)

  datatype Outcome = Accepted | Rejected | Error(error: RunError) | OutOfFuel

  function MoveHead(head: int, direction: Direction): int {
    if direction == Left then head - 1 else head + 1
  }

  /** One step: read and check the symbol under the head, record the
      previous state, look up the transition, take its state and direction,
      move the head, then test the halting rule on the symbol now under the
      head. The trace returned is the one left at the point the step stops. */
  function StepFrom(d: Definition, tape: string, t: Trace): (Trace, StepOutcome)
  {
    match PyIndex(tape, t.head)
    case None => (t, Failed(HeadOffTape))
    case Some(c) =>
      if !ValidateSymbol(c, d.sigma) then (t, Failed(InvalidSymbol))
      else
        var recorded := t.(prev := Some(t.curr));
        match Lookup(d.delta, t.curr, c)
        case None => (recorded, Failed(NoTransition))
        case Some(tr) =>
          var moved := recorded.(curr := tr.next, direction := tr.direction, head := MoveHead(t.head, tr.direction));
          match PyIndex(tape, moved.head)
          case None => (moved, Failed(HeadOffTape))
          case Some(landing) =>
            if IsEnd(moved.curr, d.accept, d.reject, landing) then
              var verdict := IsAccepted(moved.curr, d.accept);
              (moved.(accepted := verdict), Halted(verdict))
            else (moved, Continue)
  }

  /** At most `fuel` steps from `t`: the trace at the end and the outcome. */
  function RunFrom(d: Definition, tape: string, t: Trace, fuel: nat): (Trace, Outcome)
    decreases fuel
  {
    if fuel == 0 then (t, OutOfFuel)
    else
      var (next, r) := StepFrom(d, tape, t);
      match r
      case Continue => RunFrom(d, tape, next, fuel - 1)
      case Halted(verdict) => (next, if verdict then Accepted else Rejected)
      case Failed(e) => (next, Error(e))
  }

  /** The verdict of a whole word, as quickStep reports it per word. */
  function Evaluate(d: Definition, word: string, fuel: nat): Outcome {
    RunFrom(d, AttachEndMarker(word), Initial(d.start), fuel).1
  }

  /** A step that does not fail took the first listed transition for the
      state and the symbol read, recorded the previous state, and moved the
      head by exactly one cell: left for "left", right otherwise. It halts
      exactly when the halting test holds on the cell now under the head;
      otherwise it continues and the accepted flag is left as it was. */
  lemma StepTakesTransition(d: Definition, tape: string, t: Trace)
    requires !StepFrom(d, tape, t).1.Failed?
    ensures PyIndex(tape, t.head).Some?
    ensures ValidateSymbol(PyIndex(tape, t.head).value, d.sigma)
    ensures Lookup(d.delta, t.curr, PyIndex(tape, t.head).value).Some?
    ensures var tr := Lookup(d.delta, t.curr, PyIndex(tape, t.head).value).value;
      var next := StepFrom(d, tape, t).0;
      && next.curr == tr.next
      && next.prev == Some(t.curr)
      && next.direction == tr.direction
      && next.head == (if tr.direction == Left then t.head - 1 else t.head + 1)
    ensures var (next, r) := StepFrom(d, tape, t);
      && PyIndex(tape, next.head).Some?
      && (r.Halted? <==> IsEnd(next.curr, d.accept, d.reject, PyIndex(tape, next.head).value))
      && (r.Halted? ==> next.accepted == r.accepted == IsAccepted(next.curr, d.accept))
      && (r.Continue? ==> next.accepted == t.accepted)
  {
  }

  /** A symbol that fails the check stops the step before anything changes. */
  lemma InvalidSymbolChangesNothing(d: Definition, tape: string, t: Trace)
    requires PyIndex(tape, t.head).Some? && !ValidateSymbol(PyIndex(tape, t.head).value, d.sigma)
    ensures StepFrom(d, tape, t) == (t, Failed(InvalidSymbol))
  {
  }

  /** A run that stops with a verdict stopped on an end marker in the
      accept or reject state, is accepted exactly when that state is the
      accept state, and its accepted flag says so. */
  lemma {:induction false} RunVerdict(d: Definition, tape: string, t: Trace, fuel: nat)
    requires RunFrom(d, tape, t, fuel).1 == Accepted || RunFrom(d, tape, t, fuel).1 == Rejected
    ensures var (last, outcome) := RunFrom(d, tape, t, fuel);
      && PyIndex(tape, last.head).Some?
      && IsEnd(last.curr, d.accept, d.reject, PyIndex(tape, last.head).value)
      && (outcome == Accepted <==> last.curr == d.accept)
      && last.accepted == (outcome == Accepted)
    decreases fuel
  {
    if fuel > 0 {
      var (next, r) := StepFrom(d, tape, t);
      if r.Continue? {
        RunVerdict(d, tape, next, fuel - 1);
      }
    }
  }

  /** The head is on the tape and the state is one of Q. */
  predicate OnTape(d: Definition, tape: string, t: Trace) {
    0 <= t.head < |tape| && t.curr in d.Q
  }

  /** On a valid machine a step from a cell of a marked word over sigma
      never fails and leaves the head on the tape: the left marker never
      sends it left, the right marker never sends it right. */
  lemma StepStaysOnTape(d: Definition, word: string, t: Trace)
    requires Valid(d)
    requires forall i :: 0 <= i < |word| ==> word[i] in d.sigma
    requires OnTape(d, AttachEndMarker(word), t)
    ensures !StepFrom(d, AttachEndMarker(word), t).1.Failed?
    ensures OnTape(d, AttachEndMarker(word), StepFrom(d, AttachEndMarker(word), t).0)
  {
    var tape := AttachEndMarker(word);
    MarkedTapeSymbolsValid(word, d.sigma);
    var c := tape[t.head];
    assert PyIndex(tape, t.head) == Some(c);
    DeterministicLookupDefined(d.Q, d.sigma, d.delta, t.curr, c);
    LookupIsFirstMatch(d.delta, t.curr, c);
    var tr := Lookup(d.delta, t.curr, c).value;
    assert Obeys(tr, d.sigma, d.Q, d.accept, d.reject) by {
      var i :| 0 <= i < |d.delta| && d.delta[i] == tr;
    }
    assert tr.direction == Left || tr.direction == Right;
  }

  /** On a valid machine whose start state is in Q, a marked word over
      sigma never ends in an error: the run accepts, rejects or runs out of
      fuel. */
  lemma {:induction false} ValidMachineNeverFails(d: Definition, word: string, t: Trace, fuel: nat)
    requires Valid(d)
    requires forall i :: 0 <= i < |word| ==> word[i] in d.sigma
    requires OnTape(d, AttachEndMarker(word), t)
    ensures !RunFrom(d, AttachEndMarker(word), t, fuel).1.Error?
    decreases fuel
  {
    if fuel > 0 {
      StepStaysOnTape(d, word, t);
      var (next, r) := StepFrom(d, AttachEndMarker(word), t);
      if r.Continue? {
        ValidMachineNeverFails(d, word, next, fuel - 1);
      }
    }
  }

  /** The evaluation of a whole word on a valid machine. */
  lemma EvaluateNeverFails(d: Definition, word: string, fuel: nat)
    requires Valid(d) && d.start in d.Q
    requires forall i :: 0 <= i < |word| ==> word[i] in d.sigma
    ensures Evaluate(d, word, fuel) != Error(InvalidSymbol)
    ensures !Evaluate(d, word, fuel).Error?
  {
    ValidMachineNeverFails(d, word, Initial(d.start), fuel);
  }

  /** allStep: the run loop on one marked word, at most `fuel` steps. The
      source returns only whether the word was accepted. */
  method AllStep(d: Definition, tape: string, fuel: nat) returns (accepted: bool, outcome: Outcome)
    ensures outcome == RunFrom(d, tape, Initial(d.start), fuel).1
    ensures accepted <==> outcome == Accepted
  {
    var head := 0;
    var curr := d.start;
    var direction := Right;
    ghost var prev := Some(d.start);
    accepted := false;
    var left := fuel;
    while left > 0
      invariant RunFrom(d, tape, Trace(curr, prev, head, direction, accepted), left).1
             == RunFrom(d, tape, Initial(d.start), fuel).1
      invariant !accepted
    {
      var symbol := PyIndex(tape, head);
      if symbol.None? {
        return false, Error(HeadOffTape);
      }
      if !ValidateSymbol(symbol.value, d.sigma) {
        return false, Error(InvalidSymbol);
      }
      prev := Some(curr);
      var found := NextStep(d.delta, curr, symbol.value);
      if found.None? {
        return false, Error(NoTransition);
      }
      curr, direction := found.value.next, found.value.direction;
      if direction == Left {
        head := head - 1;
      } else {
        head := head + 1;
      }
      var landing := PyIndex(tape, head);
      if landing.None? {
        return false, Error(HeadOffTape);
      }
      if IsEnd(curr, d.accept, d.reject, landing.value) {
        accepted := IsAccepted(curr, d.accept);
        return accepted, if accepted then Accepted else Rejected;
      }
      left := left - 1;
    }
    return false, OutOfFuel;
  }

  /** quickStep: the verdict of each marked word, in order: true exactly
      for the accepted ones. */
  method QuickStep(d: Definition, tapes: seq<string>, fuel: nat) returns (verdicts: seq<bool>)
    ensures |verdicts| == |tapes|
    ensures forall i :: 0 <= i < |tapes| ==>
      (verdicts[i] <==> RunFrom(d, tapes[i], Initial(d.start), fuel).1 == Accepted)
  {
    verdicts := [];
    for i := 0 to |tapes|
      invariant |verdicts| == i
      invariant forall k :: 0 <= k < i ==>
        (verdicts[k] <==> RunFrom(d, tapes[k], Initial(d.start), fuel).1 == Accepted)
    {
      var accepted, _ := AllStep(d, tapes[i], fuel);
      verdicts := verdicts + [accepted];
    }
  }

  /** What one word's loop appends to the list in quickStep as written: a
      False after every step, preceded by a True on the accepting step.
      None: the call returns a bare False (or raises) instead of a list. */
  function AppendsAsWritten(d: Definition, tape: string, t: Trace, fuel: nat): Option<seq<bool>>
    decreases fuel
  {
    if fuel == 0 then Some([])
    else
      var (next, r) := StepFrom(d, tape, t);
      match r
      case Continue =>
        (match AppendsAsWritten(d, tape, next, fuel - 1)
         case None => None
         case Some(rest) => Some([false] + rest))
      case Halted(verdict) => Some((if verdict then [true] else []) + [false])
      case Failed(_) => None
  }

  /** quickStep as written: the lists appended for all words, one after
      the other. */
  function QuickStepAsWritten(d: Definition, tapes: seq<string>, fuel: nat): Option<seq<bool>>
  {
    if tapes == [] then Some([])
    else
      match AppendsAsWritten(d, tapes[0], Initial(d.start), fuel)
      case None => None
      case Some(first) =>
        match QuickStepAsWritten(d, tapes[1..], fuel)
        case None => None
        case Some(rest) => Some(first + rest)
  }
}
