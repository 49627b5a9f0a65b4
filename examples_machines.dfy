/** Small machines that exercise the engine: a machine that accepts the
    words starting with 0, a machine that bounces forever, and the inputs
    that show the source defects recorded in README.md. */
module ExampleMachines {
  import opened Types
  import opened TransitionIndex
  import opened Validation
  import opened Execution

  const States: seq<State> := ["q0", "qA", "qR"]
  const Binary: seq<char> := ['0', '1']

  /** q0 skips the left marker, then goes to qA on 0 and to qR on 1; qA
      and qR keep their state on every symbol and turn back at the right
      marker. */
  const FirstSymbolDelta: seq<Transition> := [
    Transition("q0", '-', "q0", Right), Transition("q0", '0', "qA", Right),
    Transition("q0", '1', "qR", Right), Transition("q0", '+', "qR", Left),
    Transition("qA", '-', "qA", Right), Transition("qA", '0', "qA", Right),
    Transition("qA", '1', "qA", Right), Transition("qA", '+', "qA", Left),
    Transition("qR", '-', "qR", Right), Transition("qR", '0', "qR", Right),
    Transition("qR", '1', "qR", Right), Transition("qR", '+', "qR", Left)
  ]

  function FirstSymbolMachine(): Definition {
    Definition(States, Binary, FirstSymbolDelta, "q0", "qA", "qR")
  }

  /** Index of the transition out of `s` on `c` in FirstSymbolDelta and
      in BounceDelta. */
  function Slot(s: State, c: char): nat {
    (if s == "q0" then 0 else if s == "qA" then 4 else 8)
    + (if c == '-' then 0 else if c == '0' then 1 else if c == '1' then 2 else 3)
  }

  lemma FirstSymbolTransitionsValid()
    ensures TransitionsValid(Binary, FirstSymbolDelta, States, "qA", "qR")
    ensures DirectionsKnown(FirstSymbolDelta)
  {
    forall i | 0 <= i < |FirstSymbolDelta|
      ensures Broken(FirstSymbolDelta[i], Binary, States, "qA", "qR").None?
    {
      FirstSymbolRowObeys(i);
    }
  }

  lemma FirstSymbolRowObeys(i: nat)
    requires i < |FirstSymbolDelta|
    ensures Obeys(FirstSymbolDelta[i], Binary, States, "qA", "qR")
    ensures FirstSymbolDelta[i].direction in [Left, Right]
  {
    var t := FirstSymbolDelta[i];
    assert t.state == States[i / 4] && t.next in States;
  }

  lemma FirstSymbolDeterministic()
    ensures Deterministic(States, Binary, FirstSymbolDelta)
  {
    forall s, c | s in States && c in ExtendedSigma(Binary)
      ensures HasTransition(FirstSymbolDelta, s, c)
    {
      var k := Slot(s, c);
      assert FirstSymbolDelta[k].state == s && FirstSymbolDelta[k].input == c;
    }
  }

  lemma FirstSymbolMachineIsValid()
    ensures Valid(FirstSymbolMachine())
  {
    FirstSymbolTransitionsValid();
    FirstSymbolDeterministic();
  }

  /** The word "0" is read as -0+: right twice, ending in qA on the right marker. */
  lemma FirstSymbolMachineAcceptsZero()
    ensures Evaluate(FirstSymbolMachine(), "0", 2) == Accepted
  {
  }

  lemma FirstSymbolMachineRejectsOne()
    ensures Evaluate(FirstSymbolMachine(), "1", 2) == Rejected
  {
  }

  /** On "00" the machine enters the accept state in the middle of the
      tape, where no marker is under the head, so it keeps stepping and
      stops only on the right marker, one step later. */
  lemma FirstSymbolMachineAcceptsAtRightMarker()
    ensures Evaluate(FirstSymbolMachine(), "00", 2) == OutOfFuel
    ensures Evaluate(FirstSymbolMachine(), "00", 3) == Accepted
  {
    var d := FirstSymbolMachine();
    assert AttachEndMarker("00") == "-00+";
    LookupAt(d.delta, "q0", '-', 0);
    var t1 := Trace("q0", Some("q0"), 1, Right, false);
    assert StepFrom(d, "-00+", Initial("q0")) == (t1, Continue);
    LookupAt(d.delta, "q0", '0', 1);
    var t2 := Trace("qA", Some("q0"), 2, Right, false);
    assert StepFrom(d, "-00+", t1) == (t2, Continue);
    LookupAt(d.delta, "qA", '0', 5);
    var t3 := Trace("qA", Some("qA"), 3, Right, true);
    assert StepFrom(d, "-00+", t2) == (t3, Halted(true));
  }

  /** A transition from the accept state to the reject state is the first
      violation found, under the accept-state rule. */
  lemma AcceptToRejectIsRefused()
    ensures var d := FirstSymbolMachine();
      var ts := d.delta[5 := Transition("qA", '0', "qR", Right)];
      && !TransitionsValid(d.sigma, ts, d.Q, d.accept, d.reject)
      && Broken(ts[5], d.sigma, d.Q, d.accept, d.reject) == Some(AcceptHasOutgoing)
      && forall j :: 0 <= j < 5 ==> Broken(ts[j], d.sigma, d.Q, d.accept, d.reject).None?
  {
    var d := FirstSymbolMachine();
    var ts := d.delta[5 := Transition("qA", '0', "qR", Right)];
    assert Broken(ts[5], d.sigma, d.Q, d.accept, d.reject) == Some(AcceptHasOutgoing);
  }

  /** Without its transition on 1, q0 makes the machine non-deterministic. */
  lemma MissingTransitionIsRefused()
    ensures var d := FirstSymbolMachine();
      var ts := d.delta[..2] + d.delta[3..];
      && !HasTransition(ts, "q0", '1')
      && !Deterministic(d.Q, d.sigma, ts)
  {
    var d := FirstSymbolMachine();
    var ts := d.delta[..2] + d.delta[3..];
    assert "q0" in d.Q && '1' in ExtendedSigma(d.sigma);
    forall k | 0 <= k < |ts|
      ensures !(ts[k].state == "q0" && ts[k].input == '1')
    {
      if k < 2 {
        assert ts[k] == FirstSymbolDelta[k];
      } else {
        assert ts[k] == FirstSymbolDelta[k + 1];
        if k + 1 >= 4 {
          assert "qA"[1] != "q0"[1] && "qR"[1] != "q0"[1];
          assert ts[k].state == "qA" || ts[k].state == "qR";
        }
      }
    }
  }

  /** q0 bounces between the left marker and the first cell for ever. */
  const BounceDelta: seq<Transition> := [
    Transition("q0", '-', "q0", Right), Transition("q0", '0', "q0", Left),
    Transition("q0", '1', "q0", Left), Transition("q0", '+', "q0", Left)
  ] + FirstSymbolDelta[4..]

  function BounceMachine(): Definition {
    Definition(States, Binary, BounceDelta, "q0", "qA", "qR")
  }

  /** The run on "0" never halts: whatever the fuel, it runs out. */
  lemma {:induction false} BounceRunsOutOfFuel(prev: Option<State>, direction: Direction, fuel: nat)
    ensures RunFrom(BounceMachine(), "-0+", Trace("q0", prev, 0, direction, false), fuel).1 == OutOfFuel
    decreases fuel
  {
    var d := BounceMachine();
    if fuel >= 2 {
      var t := Trace("q0", prev, 0, direction, false);
      var t1 := Trace("q0", Some("q0"), 1, Right, false);
      assert StepFrom(d, "-0+", t) == (t1, Continue);
      var t2 := Trace("q0", Some("q0"), 0, Left, false);
      assert StepFrom(d, "-0+", t1) == (t2, Continue);
      BounceRunsOutOfFuel(Some("q0"), Left, fuel - 2);
    } else if fuel == 1 {
      assert StepFrom(d, "-0+", Trace("q0", prev, 0, direction, false)).1 == Continue;
    }
  }

  lemma BounceNeverHalts(fuel: nat)
    ensures Evaluate(BounceMachine(), "0", fuel) == OutOfFuel
  {
    assert AttachEndMarker("0") == "-0+";
    BounceRunsOutOfFuel(Some("q0"), Right, fuel);
  }

  /** The deterministic machine above is refused by the check as written. */
  lemma DeterministicMachineRefusedAsWritten()
    ensures Deterministic(FirstSymbolMachine().Q, FirstSymbolMachine().sigma, FirstSymbolMachine().delta)
    ensures !ValidateDeterministicAsWritten(FirstSymbolMachine().Q, FirstSymbolMachine().sigma, FirstSymbolMachine().delta)
  {
    FirstSymbolMachineIsValid();
    var d := FirstSymbolMachine();
    AsWrittenRejectsEveryMachine(d.Q, d.sigma, d.delta);
  }

  /** quickStep as written reports three values for one accepted word:
      False after the first step, then True and False after the second. */
  lemma QuickStepAsWrittenListsPerStep()
    ensures QuickStepAsWritten(FirstSymbolMachine(), ["-0+"], 2) == Some([false, true, false])
  {
    var d := FirstSymbolMachine();
    var t1 := Trace("q0", Some("q0"), 1, Right, false);
    LookupAt(d.delta, "q0", '-', 0);
    assert StepFrom(d, "-0+", Initial("q0")) == (t1, Continue);
    LookupAt(d.delta, "q0", '0', 1);
    var t2 := Trace("qA", Some("q0"), 2, Right, true);
    assert StepFrom(d, "-0+", t1) == (t2, Halted(true));
    assert [true] + [false] == [true, false];
    assert AppendsAsWritten(d, "-0+", t1, 1) == Some([true, false]);
    assert [false] + [true, false] == [false, true, false];
    assert AppendsAsWritten(d, "-0+", Initial("q0"), 2) == Some([false, true, false]);
    assert ["-0+"][1..] == [];
    assert [false, true, false] + [] == [false, true, false];
  }

  /** The machine above with q0 leaving the right marker in the direction
      "stay": every rule of validateTransition holds. */
  function StayMachine(): Definition {
    var d := FirstSymbolMachine();
    d.(delta := d.delta[3 := Transition("q0", '+', "qR", "stay")])
  }

  /** The seven rules accept the "stay" transition. */
  lemma StayMachinePassesRules()
    ensures var d := StayMachine();
      TransitionsValid(d.sigma, d.delta, d.Q, d.accept, d.reject)
  {
    var d := StayMachine();
    forall i | 0 <= i < |d.delta|
      ensures Broken(d.delta[i], d.sigma, d.Q, d.accept, d.reject).None?
    {
      if i != 3 {
        FirstSymbolRowObeys(i);
      } else {
        assert d.delta[i].state in d.Q && d.delta[i].next in d.Q;
      }
    }
  }

  /** Yet the empty word walks the head off the right end of the tape. */
  lemma StayDirectionLeavesTape()
    ensures Evaluate(StayMachine(), "", 3) == Error(HeadOffTape)
  {
    var d := StayMachine();
    assert AttachEndMarker("") == "-+";
    LookupAt(d.delta, "q0", '-', 0);
    var t1 := Trace("q0", Some("q0"), 1, Right, false);
    assert StepFrom(d, "-+", Initial("q0")) == (t1, Continue);
    LookupAt(d.delta, "q0", '+', 3);
    assert StepFrom(d, "-+", t1).1 == Failed(HeadOffTape);
  }
}
