/** Properties of whole runs of the client. */
module Runs {
  import opened Wrappers
  import opened Profiles
  import opened Transitions

  // Every call of a run meets an obligation in the state in which it is made.
  predicate Every(rule: ModelRule, s: State, ops: seq<Op>, ok: (State, Op) -> bool)
    decreases |ops|
  {
    ops != [] ==> ok(s, ops[0]) && Every(rule, After(rule, s, ops[0]), ops[1..], ok)
  }

  // A property holds in every state of a run.
  ghost predicate Throughout(rule: ModelRule, s: State, ops: seq<Op>, holds: State -> bool)
    decreases |ops|
  {
    holds(s) && (ops != [] ==> Throughout(rule, After(rule, s, ops[0]), ops[1..], holds))
  }

  lemma {:induction false} RunNext(rule: ModelRule, s: State, op: Op, rest: seq<Op>, next: State)
    requires After(rule, s, op) == next
    ensures Run(rule, s, [op] + rest) == Run(rule, next, rest)
  {
    assert ([op] + rest)[1..] == rest;
  }

  lemma {:induction false} ThroughoutEnd(rule: ModelRule, s: State, ops: seq<Op>, holds: State -> bool)
    requires Throughout(rule, s, ops, holds)
    ensures holds(s) && holds(Run(rule, s, ops))
    decreases |ops|
  {
    if ops != [] {
      ThroughoutEnd(rule, After(rule, s, ops[0]), ops[1..], holds);
    }
  }

  // ----- Refused calls leave no trace -----

  function AcceptedOps(rule: ModelRule, s: State, ops: seq<Op>): seq<Op>
    decreases |ops|
  {
    if ops == [] then []
    else if Accepts(rule, s, ops[0]) then [ops[0]] + AcceptedOps(rule, After(rule, s, ops[0]), ops[1..])
    else AcceptedOps(rule, s, ops[1..])
  }

  // Deleting every refused call from a run changes neither the final state nor
  // the acceptance of the remaining calls.
  lemma {:induction false} RefusedCallsErase(rule: ModelRule, s: State, ops: seq<Op>)
    ensures Run(rule, s, AcceptedOps(rule, s, ops)) == Run(rule, s, ops)
    ensures Every(rule, s, AcceptedOps(rule, s, ops), (t: State, op: Op) => Accepts(rule, t, op))
    decreases |ops|
  {
    if ops != [] {
      RefusedCallsErase(rule, After(rule, s, ops[0]), ops[1..]);
      if Accepts(rule, s, ops[0]) {
        var rest := AcceptedOps(rule, After(rule, s, ops[0]), ops[1..]);
        assert AcceptedOps(rule, s, ops) == [ops[0]] + rest;
        assert ([ops[0]] + rest)[1..] == rest;
      }
    }
  }
}
