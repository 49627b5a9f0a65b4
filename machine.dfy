/** The run-state object of model.py: the machine definition and the
    fields one run updates in place, their getters and setters, the two
    resets, and the step the interface performs on it. */
module MachineState {
  import opened Types
  import opened TransitionIndex
  import opened Execution

  /** Machine_2DFA. Every field the source may set to None is an Option. */
  class Machine2DFA {
    var Q: Option<seq<State>>
    var sigma: Option<seq<char>>
    var delta: Option<seq<Transition>>
    var start: Option<State>
    var accept: Option<State>
    var reject: Option<State>

    var word: Option<string>
    var currState: Option<State>
    var head: int
    var direction: Direction
    var accepted: bool
    var prevState: Option<State>

    /** A definition and a marked word are present: what stepping needs. */
    predicate Loaded()
      reads this
    {
      && Q.Some? && sigma.Some? && delta.Some?
      && start.Some? && accept.Some? && reject.Some?
      && word.Some? && currState.Some?
    }

    /** The definition the machine holds. */
    function Def(): Definition
      reads this
      requires Loaded()
    {
      Definition(Q.value, sigma.value, delta.value, start.value, accept.value, reject.value)
    }

    /** The run fields as a value. */
    function RunTrace(): Trace
      reads this
      requires currState.Some?
    {
      Trace(currState.value, prevState, head, direction, accepted)
    }

    constructor (Q: seq<State>, sigma: seq<char>, delta: seq<Transition>, start: State, accept: State, reject: State)
      ensures this.Q == Some(Q) && this.sigma == Some(sigma) && this.delta == Some(delta)
      ensures this.start == Some(start) && this.accept == Some(accept) && this.reject == Some(reject)
      ensures word == None
      ensures currState == Some(start) && prevState == Some(start)
      ensures head == 0 && direction == Right && !accepted
      ensures RunTrace() == Initial(start)
    {
      this.Q := Some(Q);
      this.sigma := Some(sigma);
      this.delta := Some(delta);
      this.start := Some(start);
      this.accept := Some(accept);
      this.reject := Some(reject);
      word := None;
      currState := Some(start);
      head := 0;
      direction := Right;
      accepted := false;
      prevState := Some(start);
    }

    function GetQ(): Option<seq<State>> reads this { Q }
    function GetSigma(): Option<seq<char>> reads this { sigma }
    function GetDelta(): Option<seq<Transition>> reads this { delta }
    function GetStart(): Option<State> reads this { start }
    function GetAccept(): Option<State> reads this { accept }
    function GetReject(): Option<State> reads this { reject }
    function GetWord(): Option<string> reads this { word }
    function GetCurrState(): Option<State> reads this { currState }
    function GetHead(): int reads this { head }
    function GetDirection(): Direction reads this { direction }
    function GetAccepted(): bool reads this { accepted }
    function GetPrevState(): Option<State> reads this { prevState }

    method SetQ(Q: Option<seq<State>>)
      modifies this`Q
      ensures this.Q == Q
    {
      this.Q := Q;
    }

    method SetSigma(sigma: Option<seq<char>>)
      modifies this`sigma
      ensures this.sigma == sigma
    {
      this.sigma := sigma;
    }

    method SetDelta(delta: Option<seq<Transition>>)
      modifies this`delta
      ensures this.delta == delta
    {
      this.delta := delta;
    }

    method SetStart(start: Option<State>)
      modifies this`start
      ensures this.start == start
    {
      this.start := start;
    }

    method SetAccept(accept: Option<State>)
      modifies this`accept
      ensures this.accept == accept
    {
      this.accept := accept;
    }

    method SetReject(reject: Option<State>)
      modifies this`reject
      ensures this.reject == reject
    {
      this.reject := reject;
    }

    method SetWord(word: Option<string>)
      modifies this`word
      ensures this.word == word
    {
      this.word := word;
    }

    method SetCurrState(currState: Option<State>)
      modifies this`currState
      ensures this.currState == currState
    {
      this.currState := currState;
    }

    /** setRightHead: one cell to the right, nothing else changes. */
    method SetRightHead()
      modifies this`head
      ensures head == old(head) + 1
    {
      head := head + 1;
    }

    /** setLeftHead: one cell to the left, nothing else changes. */
    method SetLeftHead()
      modifies this`head
      ensures head == old(head) - 1
    {
      head := head - 1;
    }

    method SetDirection(direction: Direction)
      modifies this`direction
      ensures this.direction == direction
    {
      this.direction := direction;
    }

    method SetAccepted(accepted: bool)
      modifies this`accepted
      ensures this.accepted == accepted
    {
      this.accepted := accepted;
    }

    method SetPrevState(prevState: Option<State>)
      modifies this`prevState
      ensures this.prevState == prevState
    {
      this.prevState := prevState;
    }

    /** resetMachine: forgets the definition and the run. */
    method ResetMachine()
      modifies this
      ensures Q == None && sigma == None && delta == None
      ensures start == None && accept == None && reject == None
      ensures word == None && currState == None && prevState == None
      ensures head == 0 && direction == Right && !accepted
    {
      Q := None;
      sigma := None;
      delta := None;
      start := None;
      accept := None;
      reject := None;
      word := None;
      currState := None;
      head := 0;
      direction := Right;
      accepted := false;
      prevState := None;
    }

    /** resetState: back to the start of a run; the definition is kept. */
    method ResetState()
      modifies this`word, this`currState, this`head, this`direction, this`accepted, this`prevState
      ensures word == None
      ensures currState == start && prevState == start
      ensures head == 0 && direction == Right && !accepted
      ensures start.Some? ==> RunTrace() == Initial(start.value)
    {
      word := None;
      currState := start;
      head := 0;
      direction := Right;
      accepted := false;
      prevState := currState;
    }

    /** One step as the interface performs it: check the symbol under the
        head, record the previous state, look up the transition, take its
        state and direction, move the head, then test the halting rule on
        the symbol now under the head and set the verdict. */
    method Step() returns (r: StepOutcome)
      requires Loaded()
      modifies this`currState, this`prevState, this`head, this`direction, this`accepted
      ensures Loaded()
      ensures (RunTrace(), r) == StepFrom(Def(), word.value, old(RunTrace()))
    {
      var symbol := PyIndex(word.value, head);
      if symbol.None? {
        return Failed(HeadOffTape);
      }
      if !ValidateSymbol(symbol.value, sigma.value) {
        return Failed(InvalidSymbol);
      }
      SetPrevState(currState);
      var found := NextStep(delta.value, currState.value, symbol.value);
      if found.None? {
        return Failed(NoTransition);
      }
      SetCurrState(Some(found.value.next));
      SetDirection(found.value.direction);
      if direction == Left {
        SetLeftHead();
      } else {
        SetRightHead();
      }
      var landing := PyIndex(word.value, head);
      if landing.None? {
        return Failed(HeadOffTape);
      }
      if IsEnd(currState.value, accept.value, reject.value, landing.value) {
        SetAccepted(IsAccepted(currState.value, accept.value));
        r := Halted(accepted);
      } else {
        r := Continue;
      }
    }

    /** Steps until the run halts or fails, at most `fuel` times. A run
        that halts is accepted exactly when it ends in the accept state. */
    method Run(fuel: nat) returns (outcome: Outcome)
      requires Loaded()
      modifies this`currState, this`prevState, this`head, this`direction, this`accepted
      ensures Loaded()
      ensures (RunTrace(), outcome) == RunFrom(Def(), word.value, old(RunTrace()), fuel)
      ensures outcome == Accepted || outcome == Rejected ==>
        (accepted <==> outcome == Accepted) && (outcome == Accepted <==> currState == accept)
    {
      ghost var start := old(RunTrace());
      var left := fuel;
      outcome := OutOfFuel;
      while left > 0
        invariant Loaded()
        invariant Def() == old(Def()) && word == old(word)
        invariant RunFrom(Def(), word.value, RunTrace(), left) == RunFrom(Def(), word.value, start, fuel)
      {
        var r := Step();
        match r {
          case Continue =>
            left := left - 1;
          case Halted(verdict) =>
            outcome := if verdict then Accepted else Rejected;
            break;
          case Failed(e) =>
            outcome := Error(e);
            break;
        }
      }
      if outcome == Accepted || outcome == Rejected {
        RunVerdict(Def(), word.value, start, fuel);
      }
    }
  }
}
