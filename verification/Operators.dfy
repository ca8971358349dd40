/** The six comparison operators of the query languages, on numbers and on strings. */
module Operators {
  import opened Strings

  datatype CompareOp = Eq | Ne | Gt | Ge | Lt | Le

  function NumericOp(op: CompareOp, a: real, b: real): bool {
    match op
    case Eq => a == b
    case Ne => a != b
    case Gt => a > b
    case Ge => a >= b
    case Lt => a < b
    case Le => a <= b
  }

  function StringOp(op: CompareOp, a: string, b: string): bool {
    match op
    case Eq => a == b
    case Ne => a != b
    case Gt => Less(b, a)
    case Ge => !Less(a, b)
    case Lt => Less(a, b)
    case Le => !Less(b, a)
  }

  /** On two strings exactly one of lt, eq and gt holds, and the other three are what their names say. */
  lemma StringTrichotomy(a: string, b: string)
    ensures StringOp(Eq, a, b) <==> a == b
    ensures StringOp(Lt, a, b) ==> !StringOp(Eq, a, b) && !StringOp(Gt, a, b)
    ensures StringOp(Gt, a, b) ==> !StringOp(Eq, a, b)
    ensures StringOp(Lt, a, b) || StringOp(Eq, a, b) || StringOp(Gt, a, b)
    ensures StringOp(Le, a, b) <==> StringOp(Lt, a, b) || StringOp(Eq, a, b)
    ensures StringOp(Ge, a, b) <==> StringOp(Gt, a, b) || StringOp(Eq, a, b)
    ensures StringOp(Ne, a, b) <==> StringOp(Lt, a, b) || StringOp(Gt, a, b)
    ensures StringOp(Lt, a, b) <==> StringOp(Gt, b, a)
  {
    hide Less;
    LessIsOrder(a, b, a);
  }

  lemma NumberTrichotomy(a: real, b: real)
    ensures NumericOp(Eq, a, b) <==> a == b
    ensures NumericOp(Lt, a, b) ==> !NumericOp(Eq, a, b) && !NumericOp(Gt, a, b)
    ensures NumericOp(Gt, a, b) ==> !NumericOp(Eq, a, b)
    ensures NumericOp(Lt, a, b) || NumericOp(Eq, a, b) || NumericOp(Gt, a, b)
    ensures NumericOp(Le, a, b) <==> NumericOp(Lt, a, b) || NumericOp(Eq, a, b)
    ensures NumericOp(Ge, a, b) <==> NumericOp(Gt, a, b) || NumericOp(Eq, a, b)
    ensures NumericOp(Ne, a, b) <==> NumericOp(Lt, a, b) || NumericOp(Gt, a, b)
    ensures NumericOp(Lt, a, b) <==> NumericOp(Gt, b, a)
  {
  }
}
