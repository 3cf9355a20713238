/**
 The closed arithmetic trees of saved calculators. The check walks a tree with one counter that it threads through
 both branches of every node; this module shows that it bounds the height and the size of the whole tree.
 */
module Calculations {
  datatype Calculation =
    | Input(key: string)
    | Constant(value: real)
    | Operation(op: Operator, left: Calculation, right: Calculation)

  datatype Operator = Add | Subtract | Multiply | Divide

  const MAX_DEPTH: nat := 8
  const MAX_NODES: nat := 64
  const MAX_SAFE: real := 9007199254740991.0

  function Size(c: Calculation): nat {
    match c
    case Operation(_, l, r) => 1 + Size(l) + Size(r)
    case _ => 1
  }

  function Height(c: Calculation): nat {
    match c
    case Operation(_, l, r) => 1 + (if Height(l) < Height(r) then Height(r) else Height(l))
    case _ => 0
  }

  predicate LeavesOk(c: Calculation, keys: set<string>) {
    match c
    case Input(key) => key in keys
    case Constant(value) => -MAX_SAFE <= value <= MAX_SAFE
    case Operation(_, l, r) => LeavesOk(l, keys) && LeavesOk(r, keys)
  }

  /** One visit: refuses at once past a limit, otherwise counts the nodes it has seen. */
  method Validate(c: Calculation, keys: set<string>, depth: nat, seen: nat) returns (ok: bool, nodes: nat)
    ensures ok <==> LeavesOk(c, keys) && depth + Height(c) <= 8 && seen + Size(c) <= 64
    ensures ok ==> nodes == seen + Size(c)
    decreases c
  {
    nodes := seen + 1;
    if depth > MAX_DEPTH || nodes > MAX_NODES { return false, nodes; }
    match c {
      case Input(key) => ok := key in keys;
      case Constant(value) => ok := -MAX_SAFE <= value <= MAX_SAFE;
      case Operation(_, left, right) =>
        ok, nodes := Validate(left, keys, depth + 1, nodes);
        if ok { ok, nodes := Validate(right, keys, depth + 1, nodes); }
    }
  }
}
