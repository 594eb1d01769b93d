/**
 The conflict resolvers of the add/multiply register and of the access control list.

 The register is the one object of the repository that asks for swaps: it moves an addition in front
 of a concurrent multiplication.
 */
module Resolvers {
  import opened HashGraphs
  import opened TopologicalSort
  import opened PairLinearizer
  import opened Linearization

  function OpType(v: Vertex): string {
    if v.operation.Some? then v.operation.value.opType else ""
  }

  function AddMul(left: Vertex, right: Vertex): Action {
    if left.hash == right.hash then Nop
    else if OpType(left) == "mul" && OpType(right) == "add" then Swap
    else Nop
  }

  /** `first` reads the first argument of an operation: the peer it is about. */
  function ObjectACL(grantWins: bool, first: string -> string, left: Vertex, right: Vertex): Action {
    if left.operation.None? || right.operation.None? then Nop
    else if OpType(left) == "setKey" || OpType(right) == "setKey" then Nop
    else if OpType(left) == OpType(right) then Nop
    else if first(left.operation.value.value) != first(right.operation.value.value) then Nop
    else if (OpType(left) == "grant") == grantWins then DropRight
    else DropLeft
  }

  /** The policy of a register with an access control list. */
  function Register(grantWins: bool, first: string -> string, swaps: nat): Policy {
    Policy(Some((l: Vertex, r: Vertex) => ObjectACL(grantWins, first, l, r)), Some(AddMul), swaps)
  }

  /** Operations addressed to the ACL are the ones it has. */
  ghost predicate OrdinaryACL(s: Graph) {
    forall h :: h in s && IsACL(s[h]) ==> OpType(s[h]) in {"grant", "revoke", "setKey"}
  }

  /** On every such graph the swaps of the register are calm. */
  lemma RegisterSettles(grantWins: bool, first: string -> string, swaps: nat, s: Graph)
    requires OrdinaryACL(s) && swaps >= 1
    ensures Settled(Register(grantWins, first, swaps), s)
  {
    var pol := Register(grantWins, first, swaps);
    forall l, r | l in s && r in s && Resolve(pol, s[l], s[r]) == Swap
      ensures Idle(Resolve(pol, s[r], s[l])) && NoSwap(pol, s, r)
    {
      assert OpType(s[r]) == "add" && !IsACL(s[r]);
    }
  }
}
