/** Definition checks of controller.py: the seven rules every transition
    must obey (validateTransition) and the totality check
    (validateDeterministic), plus the gate main applies before a run. */
module Validation {
  import opened Types
  import opened TransitionIndex

  /** The rules of validateTransition, in the order it tests them. */
  datatype Rule =
    | SymbolNotInAlphabet
    | StateNotInQ
    | NextStateNotInQ
    | AcceptHasOutgoing
    | RejectHasOutgoing
    | LeftFromLeftMarker
    | RightFromRightMarker

  /** The first offending transition (its index in the list) and its rule. */
  datatype Violation = Violation(index: nat, rule: Rule)

  /** All seven rules, stated together for one transition. */
  predicate Obeys(t: Transition, sigma: seq<char>, Q: seq<State>, accept: State, reject: State) {
    && t.input in ExtendedSigma(sigma)
    && t.state in Q
    && t.next in Q
    && (t.state == accept ==> t.next == accept)
    && (t.state == reject ==> t.next == reject)
    && (t.input == LeftMarker ==> t.direction != Left)
    && (t.input == RightMarker ==> t.direction != Right)
  }

  /** The first rule `t` breaks, in the order the source checks them. */
  function Broken(t: Transition, sigma: seq<char>, Q: seq<State>, accept: State, reject: State): (r: Option<Rule>)
    ensures r.None? <==> Obeys(t, sigma, Q, accept, reject)
  {
    if t.input !in ExtendedSigma(sigma) then Some(SymbolNotInAlphabet)
    else if t.state !in Q then Some(StateNotInQ)
    else if t.next !in Q then Some(NextStateNotInQ)
    else if t.state == accept && t.next != accept then Some(AcceptHasOutgoing)
    else if t.state == reject && t.next != reject then Some(RejectHasOutgoing)
    else if t.input == LeftMarker && t.direction == Left then Some(LeftFromLeftMarker)
    else if t.input == RightMarker && t.direction == Right then Some(RightFromRightMarker)
    else None
  }

  predicate TransitionsValid(sigma: seq<char>, ts: seq<Transition>, Q: seq<State>, accept: State, reject: State) {
    forall i :: 0 <= i < |ts| ==> Broken(ts[i], sigma, Q, accept, reject).None?
  }

  /** validateTransition: scans the transitions and stops at the first one
      breaking a rule; `culprit` is what the source prints about it. */
  method ValidateTransition(sigma: seq<char>, ts: seq<Transition>, Q: seq<State>, accept: State, reject: State)
    returns (ok: bool, culprit: Option<Violation>)
    ensures ok <==> TransitionsValid(sigma, ts, Q, accept, reject)
    ensures ok <==> culprit.None?
    ensures culprit.Some? ==>
      && culprit.value.index < |ts|
      && Broken(ts[culprit.value.index], sigma, Q, accept, reject) == Some(culprit.value.rule)
      && forall j :: 0 <= j < culprit.value.index ==> Broken(ts[j], sigma, Q, accept, reject).None?
  {
    var i := 0;
    while i < |ts|
      invariant 0 <= i <= |ts|
      invariant forall j :: 0 <= j < i ==> Broken(ts[j], sigma, Q, accept, reject).None?
    {
      var broken := Broken(ts[i], sigma, Q, accept, reject);
      if broken.Some? {
        return false, Some(Violation(i, broken.value));
      }
      i := i + 1;
    }
    return true, None;
  }

  /** What a successful validateTransition guarantees, and conversely. */
  lemma TransitionsValidMeans(sigma: seq<char>, ts: seq<Transition>, Q: seq<State>, accept: State, reject: State)
    ensures TransitionsValid(sigma, ts, Q, accept, reject) <==>
      forall t :: t in ts ==> Obeys(t, sigma, Q, accept, reject)
    ensures TransitionsValid(sigma, ts, Q, accept, reject) ==>
      && (forall t :: t in ts ==> (t.input in sigma || IsMarker(t.input)) && t.state in Q && t.next in Q)
      && (forall t :: t in ts && t.state == accept ==> t.next == accept)
      && (forall t :: t in ts && t.state == reject ==> t.next == reject)
      && (forall t :: t in ts && t.input == LeftMarker ==> t.direction != Left)
      && (forall t :: t in ts && t.input == RightMarker ==> t.direction != Right)
  {
  }

  /** Every state of Q has a transition for every symbol of sigma and both
      end markers. */
  predicate Deterministic(Q: seq<State>, sigma: seq<char>, ts: seq<Transition>) {
    forall s, c :: s in Q && c in ExtendedSigma(sigma) ==> HasTransition(ts, s, c)
  }

  predicate HasInput(ts: seq<Transition>, c: char) {
    exists t :: t in ts && t.input == c
  }

  lemma HasInputOfFrom(ts: seq<Transition>, s: State, c: char)
    ensures HasInput(From(ts, s), c) <==> HasTransition(ts, s, c)
  {
    FromKeepsExactly(ts, s);
    if HasTransition(ts, s, c) {
      var k :| 0 <= k < |ts| && ts[k].state == s && ts[k].input == c;
      assert ts[k] in From(ts, s);
    }
  }

  /** (Q[i], ExtendedSigma(sigma)[j]) has no transition, and it is the first
      such pair: states in the order of Q, then symbols in the order of the
      extended alphabet. */
  predicate FirstMissing(Q: seq<State>, sigma: seq<char>, ts: seq<Transition>, i: int, j: int) {
    var extended := ExtendedSigma(sigma);
    && 0 <= i < |Q| && 0 <= j < |extended|
    && !HasTransition(ts, Q[i], extended[j])
    && (forall k, c :: 0 <= k < i && c in extended ==> HasTransition(ts, Q[k], c))
    && (forall m :: 0 <= m < j ==> HasTransition(ts, Q[i], extended[m]))
  }

  /** validateDeterministic: for each state, filters its transitions and
      checks each symbol of the extended alphabet against them; `missing`
      is the first (state, symbol) pair without a transition, which the
      source reports. */
  method ValidateDeterministic(Q: seq<State>, sigma: seq<char>, ts: seq<Transition>)
    returns (ok: bool, missing: Option<(State, char)>)
    ensures ok <==> Deterministic(Q, sigma, ts)
    ensures ok <==> missing.None?
    ensures missing.Some? ==>
      missing.value.0 in Q && missing.value.1 in ExtendedSigma(sigma) &&
      !HasTransition(ts, missing.value.0, missing.value.1)
    ensures missing.Some? ==>
      exists i, j :: FirstMissing(Q, sigma, ts, i, j) && missing.value == (Q[i], ExtendedSigma(sigma)[j])
  {
    var extended := ExtendedSigma(sigma);
    var i := 0;
    while i < |Q|
      invariant 0 <= i <= |Q|
      invariant forall k, c :: 0 <= k < i && c in extended ==> HasTransition(ts, Q[k], c)
    {
      var transitions := FilterTransitionList(ts, Q[i]);
      var j := 0;
      while j < |extended|
        invariant 0 <= j <= |extended|
        invariant forall m :: 0 <= m < j ==> HasTransition(ts, Q[i], extended[m])
      {
        HasInputOfFrom(ts, Q[i], extended[j]);
        if !HasInput(transitions, extended[j]) {
          assert FirstMissing(Q, sigma, ts, i, j);
          return false, Some((Q[i], extended[j]));
        }
        j := j + 1;
      }
      i := i + 1;
    }
    return true, None;
  }

  /** A state of a deterministic machine always finds a transition for a
      symbol of the extended alphabet. */
  lemma DeterministicLookupDefined(Q: seq<State>, sigma: seq<char>, ts: seq<Transition>, s: State, c: char)
    requires Deterministic(Q, sigma, ts)
    requires s in Q && (c in sigma || IsMarker(c))
    ensures Lookup(ts, s, c).Some?
    ensures Lookup(ts, s, c).value in ts
  {
    assert c in ExtendedSigma(sigma);
    LookupIsFirstMatch(ts, s, c);
  }

  /** Every direction is one of the two words the engine knows. */
  predicate DirectionsKnown(ts: seq<Transition>) {
    forall t :: t in ts ==> t.direction == Left || t.direction == Right
  }

  /** The definition passes the corrected gate: the seven rules, known
      directions, determinism. */
  predicate Valid(d: Definition) {
    && TransitionsValid(d.sigma, d.delta, d.Q, d.accept, d.reject)
    && DirectionsKnown(d.delta)
    && Deterministic(d.Q, d.sigma, d.delta)
  }

  /** The gate of main (controller.py:336), with the direction check the
      header of controller.py asks for. */
  method ValidateMachine(d: Definition) returns (ok: bool)
    ensures ok <==> Valid(d)
  {
    var transitionsOk, _ := ValidateTransition(d.sigma, d.delta, d.Q, d.accept, d.reject);
    if !transitionsOk {
      return false;
    }
    var i := 0;
    while i < |d.delta|
      invariant 0 <= i <= |d.delta|
      invariant forall k :: 0 <= k < i ==> d.delta[k].direction == Left || d.delta[k].direction == Right
    {
      if d.delta[i].direction != Left && d.delta[i].direction != Right {
        return false;
      }
      i := i + 1;
    }
    var deterministic, _ := ValidateDeterministic(d.Q, d.sigma, d.delta);
    ok := deterministic;
  }

  /** validateDeterministic as written: the symbol is looked for among the
      whole transitions, which are the lists split() yields, not among their
      input symbols. In Python a str never equals a list, so the membership
      test `i not in transitions` of controller.py:261 never finds it. */
  predicate ValidateDeterministicAsWritten(Q: seq<State>, sigma: seq<char>, ts: seq<Transition>) {
    forall s, c :: s in Q && c in ExtendedSigma(sigma) ==>
      exists t :: t in From(ts, s) && false  // `c == t`: a str against a list
  }

  /** As written, the check fails for every non-empty Q, deterministic or not. */
  lemma AsWrittenRejectsEveryMachine(Q: seq<State>, sigma: seq<char>, ts: seq<Transition>)
    ensures ValidateDeterministicAsWritten(Q, sigma, ts) <==> |Q| == 0
  {
    if |Q| > 0 {
      assert Q[0] in Q && LeftMarker in ExtendedSigma(sigma);
    }
  }
}
