/** The operation enum, the name table `kOps`, `parse_op` and `needs_b`. */
module Operations {
  import opened Wrappers

  /** `enum class operation`; `NoOp` is `operation::none`, the value before any `-o`. */
  datatype Operation = NoOp | Add | Sub | Mul | Div | Pow | Fact

  /** An entry of the name table. */
  datatype OpSpec = OpSpec(name: string, op: Operation)

  /** `kOps`: the six names the command line accepts, in table order. */
  const Ops: seq<OpSpec> := [
    OpSpec("add", Add),
    OpSpec("sub", Sub),
    OpSpec("mul", Mul),
    OpSpec("div", Div),
    OpSpec("pow", Pow),
    OpSpec("fact", Fact)
  ]

  /** The name under which an operation is listed; `NoOp` has none. */
  function Name(op: Operation): Option<string> {
    match op
    case NoOp => None
    case Add => Some("add")
    case Sub => Some("sub")
    case Mul => Some("mul")
    case Div => Some("div")
    case Pow => Some("pow")
    case Fact => Some("fact")
  }

  /** The table lists every real operation under its name, and nothing else. */
  lemma OpsListsNames()
    ensures forall i :: 0 <= i < |Ops| ==> Name(Ops[i].op) == Some(Ops[i].name)
    ensures forall op :: Name(op).Some? ==> exists i :: 0 <= i < |Ops| && Ops[i].op == op
  {
    forall op | Name(op).Some? ensures exists i :: 0 <= i < |Ops| && Ops[i].op == op {
      match op
      case Add => assert Ops[0].op == op;
      case Sub => assert Ops[1].op == op;
      case Mul => assert Ops[2].op == op;
      case Div => assert Ops[3].op == op;
      case Pow => assert Ops[4].op == op;
      case Fact => assert Ops[5].op == op;
    }
  }

  /** Linear search of the table from index i: the first entry whose name equals s. */
  function LookupFrom(s: string, i: nat): (r: Option<Operation>)
    requires i <= |Ops|
    ensures r.Some? <==> exists k :: i <= k < |Ops| && Ops[k].name == s
    ensures r.Some? ==> r.value != NoOp && Name(r.value) == Some(s)
    decreases |Ops| - i
  {
    if i == |Ops| then None
    else if Ops[i].name == s then Some(Ops[i].op)
    else LookupFrom(s, i + 1)
  }

  /** The operation the table lists under the name s, compared exactly and case-sensitively. */
  function Lookup(s: string): (r: Option<Operation>)
    ensures r.Some? <==> exists k :: 0 <= k < |Ops| && Ops[k].name == s
    ensures r.Some? ==> r.value != NoOp && Name(r.value) == Some(s)
  {
    LookupFrom(s, 0)
  }

  /** Lookup inverts Name: every name in the table gives back its operation. */
  lemma LookupName(op: Operation)
    requires op != NoOp
    ensures Lookup(Name(op).value) == Some(op)
  {
    OpsListsNames();
    var r := Lookup(Name(op).value);
    assert r.Some?;
    assert Name(r.value) == Name(op);
  }

  /** Name inverts Lookup, and a string succeeds exactly when it is one of the six names. */
  lemma LookupIffName(s: string)
    ensures Lookup(s).Some? <==> exists op :: op != NoOp && Name(op) == Some(s)
    ensures Lookup(s).Some? ==> Name(Lookup(s).value) == Some(s)
  {
    if op :| op != NoOp && Name(op) == Some(s) {
      LookupName(op);
    }
  }

  /**
   * `parse_op`: scans the table for s; on a match writes the entry's operation through `out`
   * and returns true; on a null s or no match returns false and leaves `*out` as it was.
   */
  method ParseOp(s: Option<string>, out: Operation) returns (found: bool, written: Operation)
    ensures found <==> s.Some? && Lookup(s.value).Some?
    ensures found ==> written != NoOp && Name(written) == s
    ensures found ==> Some(written) == Lookup(s.value)
    ensures forall op :: op != NoOp && Name(op) == s ==> found && written == op
    ensures !found ==> written == out
  {
    forall op | op != NoOp && Name(op) == s
      ensures s.Some? && Lookup(s.value) == Some(op)
    {
      LookupName(op);
    }
    written := out;
    if s.None? {
      return false, written;
    }
    for i := 0 to |Ops|
      invariant Lookup(s.value) == LookupFrom(s.value, i)
    {
      if s.value == Ops[i].name {
        return true, Ops[i].op;
      }
    }
    return false, written;
  }

  /** `needs_b`: whether the operation takes a second operand: every listed one except `fact`. */
  function NeedsB(op: Operation): (r: bool)
    ensures r <==> Name(op).Some? && Name(op) != Some("fact")
  {
    op == Add || op == Sub || op == Mul || op == Div || op == Pow
  }
}
