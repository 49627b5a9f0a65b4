/** Transition lookup: filtering the transition list by state and finding
    the first transition that reads a symbol (controller.py). */
module TransitionIndex {
  import opened Types

  /** The transitions of `ts` whose current state is `s`, in their order. */
  function From(ts: seq<Transition>, s: State): seq<Transition>
  {
    if ts == [] then []
    else if ts[0].state == s then [ts[0]] + From(ts[1..], s)
    else From(ts[1..], s)
  }

  /** The first transition of `ts` reading `c`, whatever its state. */
  function FirstWithInput(ts: seq<Transition>, c: char): Option<Transition>
  {
    if ts == [] then None
    else if ts[0].input == c then Some(ts[0])
    else FirstWithInput(ts[1..], c)
  }

  /** Some transition of `ts` goes out of `s` reading `c`. */
  predicate HasTransition(ts: seq<Transition>, s: State, c: char) {
    exists k :: 0 <= k < |ts| && ts[k].state == s && ts[k].input == c
  }

  /** `ts[i]` goes out of `s` reading `c` and no earlier transition does. */
  predicate IsFirstMatch(ts: seq<Transition>, s: State, c: char, i: int) {
    && 0 <= i < |ts|
    && ts[i].state == s && ts[i].input == c
    && forall j :: 0 <= j < i ==> !(ts[j].state == s && ts[j].input == c)
  }

  /** The transition the engine takes from `s` on `c`: the first one listed. */
  function Lookup(ts: seq<Transition>, s: State, c: char): Option<Transition>
  {
    if ts == [] then None
    else if ts[0].state == s && ts[0].input == c then Some(ts[0])
    else Lookup(ts[1..], s, c)
  }

  /** Filtering keeps exactly the transitions out of `s`, each as often as
      it occurs in `ts`. */
  lemma {:induction false} FromKeepsExactly(ts: seq<Transition>, s: State)
    ensures forall t :: t in From(ts, s) <==> t in ts && t.state == s
    ensures forall t :: multiset(From(ts, s))[t] == if t.state == s then multiset(ts)[t] else 0
    ensures |From(ts, s)| <= |ts|
  {
    if ts != [] {
      FromKeepsExactly(ts[1..], s);
      assert ts == [ts[0]] + ts[1..];
    }
  }

  /** Lookup yields a transition exactly when one exists, and then it is
      the first matching one. */
  lemma {:induction false} LookupIsFirstMatch(ts: seq<Transition>, s: State, c: char)
    ensures Lookup(ts, s, c).None? <==> !HasTransition(ts, s, c)
    ensures Lookup(ts, s, c).Some? ==>
      exists i :: IsFirstMatch(ts, s, c, i) && Lookup(ts, s, c).value == ts[i]
  {
    if ts != [] {
      LookupIsFirstMatch(ts[1..], s, c);
      if ts[0].state == s && ts[0].input == c {
        assert IsFirstMatch(ts, s, c, 0);
      } else {
        if HasTransition(ts, s, c) {
          var k :| 0 <= k < |ts| && ts[k].state == s && ts[k].input == c;
          assert ts[1..][k - 1] == ts[k];
        }
        if HasTransition(ts[1..], s, c) {
          var k :| 0 <= k < |ts[1..]| && ts[1..][k].state == s && ts[1..][k].input == c;
          assert ts[k + 1] == ts[1..][k];
        }
        if Lookup(ts, s, c).Some? {
          var i :| IsFirstMatch(ts[1..], s, c, i) && Lookup(ts[1..], s, c).value == ts[1..][i];
          assert IsFirstMatch(ts, s, c, i + 1);
        }
      }
    }
  }

  /** The first matching index determines what Lookup returns. */
  lemma LookupAt(ts: seq<Transition>, s: State, c: char, i: int)
    requires IsFirstMatch(ts, s, c, i)
    ensures Lookup(ts, s, c) == Some(ts[i])
  {
    LookupIsFirstMatch(ts, s, c);
    var k :| IsFirstMatch(ts, s, c, k) && Lookup(ts, s, c).value == ts[k];
    assert !(k < i) && !(i < k);
  }

  /** The first transition reading `c` is the first with input `c`, if any. */
  lemma {:induction false} FirstWithInputIsFirst(ts: seq<Transition>, c: char)
    ensures FirstWithInput(ts, c).None? <==> forall k :: 0 <= k < |ts| ==> ts[k].input != c
    ensures FirstWithInput(ts, c).Some? ==>
      exists i :: 0 <= i < |ts| && FirstWithInput(ts, c).value == ts[i] && ts[i].input == c &&
        forall j :: 0 <= j < i ==> ts[j].input != c
  {
    if ts != [] {
      FirstWithInputIsFirst(ts[1..], c);
      if ts[0].input != c {
        if FirstWithInput(ts, c).Some? {
          var i :| 0 <= i < |ts[1..]| && FirstWithInput(ts[1..], c).value == ts[1..][i] && ts[1..][i].input == c &&
            forall j :: 0 <= j < i ==> ts[1..][j].input != c;
          assert forall j :: 1 <= j < i + 1 ==> ts[j] == ts[1..][j - 1];
        } else {
          assert forall k :: 1 <= k < |ts| ==> ts[k] == ts[1..][k - 1];
        }
      }
    }
  }

  /** Looking for the symbol among the transitions out of `s` (what nextStep
      does) finds the same transition as scanning the whole list. */
  lemma {:induction false} FirstOfFromIsLookup(ts: seq<Transition>, s: State, c: char)
    ensures FirstWithInput(From(ts, s), c) == Lookup(ts, s, c)
  {
    if ts != [] {
      FirstOfFromIsLookup(ts[1..], s, c);
    }
  }

  /** filterTransistionList: collects the transitions out of `state` by
      appending in a loop. */
  method FilterTransitionList(ts: seq<Transition>, state: State) returns (r: seq<Transition>)
    ensures r == From(ts, state)
  {
    r := [];
    var i := 0;
    while i < |ts|
      invariant 0 <= i <= |ts|
      invariant r + From(ts[i..], state) == From(ts, state)
    {
      assert ts[i..] == [ts[i]] + ts[i + 1..];
      if ts[i].state == state {
        r := r + [ts[i]];
      }
      i := i + 1;
    }
    assert ts[i..] == [];
  }

  /** whichTransition_Exact: the first transition of the list reading `input`;
      None stands for the sentinel 0 the source returns when none does. */
  method WhichTransitionExact(ts: seq<Transition>, input: char) returns (r: Option<Transition>)
    ensures r == FirstWithInput(ts, input)
  {
    var i := 0;
    while i < |ts|
      invariant 0 <= i <= |ts|
      invariant FirstWithInput(ts[i..], input) == FirstWithInput(ts, input)
    {
      assert ts[i..][1..] == ts[i + 1..];
      if ts[i].input == input {
        return Some(ts[i]);
      }
      i := i + 1;
    }
    return None;
  }

  /** nextStep: filters the transitions out of `state`, then returns the
      first that reads `input`; None when there is none. */
  method NextStep(ts: seq<Transition>, state: State, input: char) returns (r: Option<Transition>)
    ensures r == Lookup(ts, state, input)
    ensures r.Some? ==> r.value in ts && r.value.state == state && r.value.input == input
  {
    var filtered := FilterTransitionList(ts, state);
    r := WhichTransitionExact(filtered, input);
    FirstOfFromIsLookup(ts, state, input);
    LookupIsFirstMatch(ts, state, input);
  }
}
