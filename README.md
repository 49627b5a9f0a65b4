# 2-way DFA engine, modelled in Dafny

This project models the engine of a 2-way deterministic finite automaton
simulator. A machine is defined by the states Q, the alphabet sigma, the
transitions delta, and the start, accept and reject states. Each transition
is a 4-tuple (state, symbol, next state, direction). A word is run on the
tape `-w+`, whose two end markers bracket it. The head starts on the left
marker and moves one cell left on "left" and one cell right on any other
direction. A run stops when it is in the accept or reject state and the
head is on an end marker. The word is accepted when that state is the
accept state.

Modules:

- `Types` (types.dfy): states, symbols, directions, transitions, the definition and the extended alphabet.
- `TransitionIndex` (lookup.dfy): `filterTransistionList`, `whichTransition_Exact` and `nextStep`. Each is a loop proved against a recursive reference function (`From`, `FirstWithInput`, `Lookup`), with lemmas saying what those functions mean.
- `Validation` (validation.dfy): `validateTransition` and `validateDeterministic`. Each is a loop with early return, proved equivalent to a predicate (`TransitionsValid`, `Deterministic`). It also holds the gate that main applies before a run.
- `Execution` (execution.dfy): `attachEndMarker`, `validateSymbol`, `isEnd`, `isAccepted`, and one step of the run loop (`StepFrom`). It adds a fuel-bounded run (`RunFrom`) and the `allStep`/`quickStep` loops, proved against `RunFrom`.
- `MachineState` (machine.dfy): the `Machine_2DFA` class. Its fields are updated in place by its setters, by `setRightHead`/`setLeftHead` and by the two resets. It also has `Step`, which assembles one step as the interface does (view.py:288-309), and a fuel-bounded `Run`.
- `ExampleMachines` (examples_machines.dfy): concrete machines. One accepts the words that start with 0. One bounces forever. Others show the source defects listed under Findings.

Two facts about the code fix the semantics:

- The halting test reads the cell under the head after the move (view.py:302).
- Duplicate-key transitions and duplicate state names are not rejected, and the first listed transition wins (`nextStep`, controller.py:130-136).

The getters of `Machine_2DFA` (model.py:21-44) are one-line functions that return their field, so they have no contract of their own.

## Model

| member | source | states |
|---|---|---|
| Types.ExtendedSigma | controller.py:209-210 | the alphabet the checks iterate over holds exactly the two end markers and the symbols of sigma |
| TransitionIndex.FilterTransitionList | controller.py:148-154 | the loop returns the order-preserving filter `From` of the transitions whose current state is the given one |
| TransitionIndex.FromKeepsExactly | controller.py:148-154 | a transition is in the filtered list iff it is in the input and leaves the given state, with the same multiplicity; the list is no longer than the input |
| TransitionIndex.WhichTransitionExact | controller.py:164-169 | returns the first transition reading the symbol; None stands for the sentinel 0 |
| TransitionIndex.FirstWithInputIsFirst | controller.py:164-169 | the result is None iff no transition reads the symbol; otherwise it is the transition at the least index that reads it |
| TransitionIndex.NextStep | controller.py:130-136 | filtering by state and then taking the first transition on the symbol gives `Lookup`; a result leaves the state and reads the symbol |
| TransitionIndex.LookupIsFirstMatch | controller.py:130-136 | Lookup is None iff no transition leaves the state on the symbol; otherwise it is the first such transition in the list |
| TransitionIndex.FirstOfFromIsLookup | controller.py:131-136 | searching the filtered list by symbol finds the same transition as scanning the whole list for the (state, symbol) pair |
| TransitionIndex.LookupAt | controller.py:133-136 | when index i is the first match for (state, symbol), the lookup returns the transition at i |
| Validation.Broken | controller.py:211-240 | a transition breaks no rule iff it satisfies all seven rules: symbol in sigma or a marker, both states in Q, accept and reject absorbing, no left move on '-', no right move on '+' |
| Validation.ValidateTransition | controller.py:208-241 | returns True iff every transition obeys the seven rules; on False it names the first offending transition and the first rule it breaks, and all earlier transitions obey the rules |
| Validation.TransitionsValidMeans | controller.py:189-207 | a successful validation means every transition reads a symbol of sigma or a marker, has both states in Q, keeps the accept and reject states, never moves left on '-' and never moves right on '+', and conversely |
| Validation.HasInputOfFrom | controller.py:259-261 | a symbol occurs among the transitions filtered by state iff some transition leaves that state on it |
| Validation.ValidateDeterministic | controller.py:255-265 | returns True iff every state of Q has a transition for every symbol of sigma and both markers; on False it reports the first (state, symbol) pair without a transition, in the order of Q and then of the extended alphabet |
| Validation.DeterministicLookupDefined | controller.py:245-265 | in a deterministic machine, the lookup for a state of Q and a symbol of the extended alphabet always finds a listed transition |
| Validation.ValidateMachine | controller.py:336 | the gate accepts iff the seven rules hold, every direction is "left" or "right", and the machine is deterministic |
| Validation.AsWrittenRejectsEveryMachine | controller.py:258-264 | the determinism check as written succeeds iff Q is empty |
| Execution.AttachEndMarker | controller.py:311-312 | the tape is two cells longer than the word, with '-' first, '+' last and the word in between |
| Execution.FirstReadFailsAsWritten | controller.py:180-185 | with the symbol check as written, the left marker under the head at the start fails unless sigma lists '-' |
| Execution.MarkedTapeSymbolsValid | controller.py:180-185 | every cell of a marked word over sigma passes the corrected symbol check |
| Execution.HaltOnlyAtTapeEnds | controller.py:281-285 | on a marked word without inner markers, the halting test can hold only at the first or the last cell, and only in the accept or reject state |
| Execution.StepTakesTransition | controller.py:69-78 | a step that does not fail read a valid symbol, took the first listed transition for (state, symbol), recorded the previous state, and moved the head by -1 for "left" and by +1 otherwise; it halts iff the halting test holds on the cell now under the head, with the verdict of `isAccepted`, and otherwise continues with the accepted flag unchanged |
| Execution.InvalidSymbolChangesNothing | controller.py:69-72 | a symbol that fails the check ends the step with InvalidSymbol and leaves the run state unchanged |
| Execution.RunVerdict | controller.py:281-301 | a run that ends with a verdict ended on an end marker in the accept or reject state; it is accepted iff the final state is accept, and its accepted flag agrees |
| Execution.StepStaysOnTape | controller.py:233-240 | on a valid machine, a step from a cell of a marked word over sigma never fails, keeps the head on the tape and the state in Q |
| Execution.ValidMachineNeverFails | controller.py:62-82 | on a valid machine, a run from any on-tape configuration of a marked word over sigma ends accepted, rejected or out of fuel, never in an error |
| Execution.EvaluateNeverFails | controller.py:62-82 | a valid machine whose start state is in Q never reports an error, in particular never an invalid symbol, for a word over sigma |
| Execution.AllStep | controller.py:62-82 | the loop's outcome is the fuel-bounded run from the start configuration; the returned flag is true iff the word was accepted |
| Execution.QuickStep | controller.py:97-118 | one verdict per word, in order, true exactly for the words whose run is accepted |
| MachineState.Machine2DFA.constructor | model.py:3-16 | stores the definition; word is None, current and previous state are start, head 0, direction "right", not accepted |
| MachineState.Machine2DFA.SetQ | model.py:49-50 | writes Q and no other field |
| MachineState.Machine2DFA.SetSigma | model.py:51-52 | writes sigma and no other field |
| MachineState.Machine2DFA.SetDelta | model.py:53-54 | writes delta and no other field |
| MachineState.Machine2DFA.SetStart | model.py:55-56 | writes start and no other field |
| MachineState.Machine2DFA.SetAccept | model.py:57-58 | writes accept and no other field |
| MachineState.Machine2DFA.SetReject | model.py:59-60 | writes reject and no other field |
| MachineState.Machine2DFA.SetWord | model.py:61-62 | writes word and no other field |
| MachineState.Machine2DFA.SetCurrState | model.py:63-64 | writes the current state and no other field |
| MachineState.Machine2DFA.SetRightHead | model.py:65-66 | the head grows by exactly one and no other field changes |
| MachineState.Machine2DFA.SetLeftHead | model.py:67-68 | the head shrinks by exactly one and no other field changes |
| MachineState.Machine2DFA.SetDirection | model.py:69-70 | writes the direction and no other field |
| MachineState.Machine2DFA.SetAccepted | model.py:71-72 | writes the accepted flag and no other field |
| MachineState.Machine2DFA.SetPrevState | model.py:73-74 | writes the previous state and no other field |
| MachineState.Machine2DFA.ResetMachine | model.py:75-87 | every definition field, the word, the current and the previous state become None; head 0, direction "right", not accepted |
| MachineState.Machine2DFA.ResetState | model.py:89-95 | word None, current and previous state back to start, head 0, direction "right", not accepted; the definition is untouched, so the run restarts from the initial configuration |
| MachineState.Machine2DFA.Step | view.py:288-309 | the fields after the step, and its outcome, are those of one step of the run semantics from the fields before it; the definition and the word do not change |
| MachineState.Machine2DFA.Run | controller.py:67-80 | the fields and outcome after at most `fuel` steps are those of the fuel-bounded run; a halted run is accepted iff it ends in the accept state, and the accepted field says so |
| ExampleMachines.FirstSymbolMachineIsValid | controller.py:336 | the example machine passes the seven rules, the direction check and the determinism check |
| ExampleMachines.FirstSymbolMachineAcceptsZero | controller.py:62-82 | the word "0" is accepted after two right moves |
| ExampleMachines.FirstSymbolMachineRejectsOne | controller.py:62-82 | the word "1" is rejected |
| ExampleMachines.FirstSymbolMachineAcceptsAtRightMarker | controller.py:77-78 | on "00" the accept state is entered mid-tape, so the run does not stop there: two steps run out of fuel, three steps accept on the right marker |
| ExampleMachines.AcceptToRejectIsRefused | controller.py:225-228 | a transition from accept to reject fails the rules, under the accept-state rule, and it is the first failure in the list |
| ExampleMachines.MissingTransitionIsRefused | controller.py:258-264 | removing q0's transition on 1 makes the machine non-deterministic |
| ExampleMachines.BounceNeverHalts | controller.py:67 | a machine that bounces between the left marker and the first cell runs out of fuel for every fuel |
| ExampleMachines.DeterministicMachineRefusedAsWritten | controller.py:261 | the example machine is deterministic, yet the check as written refuses it |
| ExampleMachines.QuickStepAsWrittenListsPerStep | controller.py:112-117 | with the appends of quickStep as written, but the corrected symbol check and `isEnd` given the symbol under the head, one accepted word yields [False, True, False] |
| ExampleMachines.StayMachinePassesRules | controller.py:211-241 | a machine with direction "stay" on the right marker passes all seven rules |
| ExampleMachines.StayDirectionLeavesTape | controller.py:73-76 | with the corrected symbol check, that machine moves the head off the right end of the tape on the empty word |

## Left out

- File parsing (`readMachine`, controller.py:34-48), console I/O (`displayAction`, `main`, every `print`), and the `input("Step: ")` pause in `allStep`. These are I/O. The diagnostics they print are returned as values instead: `culprit` and `missing`.
- The PyQt interface (view.py) and main.py. They are I/O. view.py:288-309 only fixes the order of `Step`.
- `initializeMachine` and `determineGridSize` are not part of this model; their definitions are not available.
- `extended_sigma.append(sigma)` on a tuple (controller.py:209-210, controller.py:256-257) raises AttributeError. The model builds the intended list `['-', '+'] + sigma` instead of reproducing the crash.
- `isEnd` is called with three arguments at controller.py:77 and controller.py:112, which raises TypeError. The model passes the symbol under the head after the move, as view.py:302 does.
- `displayAction` concatenates a string with an int (controller.py:329), which raises TypeError on every step. It is I/O and left out.
- Validation.ValidateTransition: returns False with the offending transition, where the source raises. Each diagnostic at controller.py:215, 219, 223, 227, 231, 235 and 239 concatenates a string with the transition, a list from `split()` (controller.py:43-46), which raises TypeError. As written the function returns True or raises.
- `nextStep` returns None when nothing matches, and unpacking that raises TypeError. The model reports this as the `NoTransition` error instead of raising.
- An `IndexError` from `word[head]` is reported as `HeadOffTape`. Negative indices count from the end of the tape, as in Python.
- Symbols are single characters. The model cannot express a multi-character token from a definition file. Such a token never equals a tape character, so a transition on it can never fire.
- MachineState.Machine2DFA.Step: on an invalid symbol it stops and changes nothing, as `allStep` does by returning False. The handler's message at view.py:296 calls `self.getHead()` on the interface widget, which has no such method, so it raises AttributeError before the head moves.
- MachineState.Machine2DFA.Step: takes the next state and direction of the transition found. view.py:291 unpacks three values from `nextStep`, which returns two (controller.py:136), so the handler raises ValueError on every step whose symbol is valid.
- Execution.AllStep: stops with `OutOfFuel` after `fuel` steps. The source's loop has no bound and may not terminate (the todo at controller.py:16).
- Execution.QuickStep: takes the same step bound per word, with the same reason as AllStep.
- MachineState.Machine2DFA.Run: the same step bound, with the same reason as AllStep.
- The source never checks that start, accept and reject are in Q (the todo at controller.py:10). The no-error theorems therefore assume that start is in Q.
- Transitions with the same (state, symbol) pair and repeated state names are not rejected, because the source does not reject them.
- `Step` and `Run` require the definition, the word and the current state to be set. The interface does not guarantee a word: `setInput` enables Start even when the dialog is cancelled (view.py:253-255), and stepping without a word raises at view.py:288.

## Findings

| source | as written | input that shows it | evidently intended | confidence | as-written member | corrected member |
|---|---|---|---|---|---|---|
| controller.py:181 | the tape symbol is checked against sigma only | any word over sigma={0,1}: the first read is '-' at head 0 and fails | the end markers are valid tape symbols too | high, not executed | Execution.FirstReadFailsAsWritten | Execution.MarkedTapeSymbolsValid |
| controller.py:261 | the symbol is compared with whole transition tuples, so it is never found | the deterministic FirstSymbolMachine is refused | compare with each transition's input symbol | high, not executed | ExampleMachines.DeterministicMachineRefusedAsWritten | Validation.ValidateDeterministic |
| controller.py:107-117 | False is appended after every step, and a bare False is returned on an invalid symbol | FirstSymbolMachine on "-0+" gives [False, True, False], once the symbol check accepts the markers (row 1) and `isEnd` is given the symbol under the head; as written the first read returns a bare False | one boolean per word | high, not executed | ExampleMachines.QuickStepAsWrittenListsPerStep | Execution.QuickStep |
| controller.py:233-240 | only "left" on '-' and "right" on '+' are refused, but every direction other than "left" moves right | a '+' transition with direction "stay" passes the seven rules, and the empty word moves the head past '+', once the symbol check accepts the markers (row 1) and `extended_sigma` is built as a list; as written the run fails earlier | directions are limited to "left" and "right" (controller.py:11) | medium, not executed | ExampleMachines.StayDirectionLeavesTape | Validation.ValidateMachine |
