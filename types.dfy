/** Shared vocabulary of the 2-way DFA engine: states, tape symbols,
    directions, transitions and a machine definition. */
module Types {

  datatype Option<+T> = None | Some(value: T)

  /** A state is an opaque name, as read from the definition file. */
  type State = string

  /** A direction is the raw word of the definition file: "left" moves the
      head left, every other word moves it right. */
  type Direction = string

  const Left: Direction := "left"
  const Right: Direction := "right"

  const LeftMarker: char := '-'
  const RightMarker: char := '+'

  predicate IsMarker(c: char) {
    c == LeftMarker || c == RightMarker
  }

  /** One 4-tuple (state, symbol, next state, direction) of the definition. */
  datatype Transition = Transition(state: State, input: char, next: State, direction: Direction)

  /** The machine definition {Q, sigma, delta, start, accept, reject}. */
  datatype Definition = Definition(
    Q: seq<State>,
    sigma: seq<char>,
    delta: seq<Transition>,
    start: State,
    accept: State,
    reject: State)

  /** The alphabet the checks iterate over: the two end markers, then sigma. */
  function ExtendedSigma(sigma: seq<char>): (e: seq<char>)
    ensures |e| == |sigma| + 2
    ensures forall c :: c in e <==> IsMarker(c) || c in sigma
  {
    [LeftMarker, RightMarker] + sigma
  }
}
