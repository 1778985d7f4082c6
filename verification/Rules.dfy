/** The mutation rules that edit an expression (internal/discover/rules.go, internal/discover/walk.go). */
module Rules {
  import opened GoValues
  import opened GoProgram
  import opened Purity
  import opened Wrappers

  /** One rule for each operator that can be swapped; `Settle` makes a condition, of a branch or of a loop, a constant. */
  datatype Rule =
    | SwapOperator(op: BinOp) | Negate | RemoveNegation | Settle(b: bool) | NilErrorBranch | FlipLiteral
    | ReturnConstant(v: Value, declared: Type)
    | ReturnEmpty(declared: Type)
  {
    /** The rules that can only turn a condition from true to false. */
    predicate Decreasing() {
      (SwapOperator? && (op.Leq? || op.Geq? || op.LOr?)) || NilErrorBranch? || (Settle? && !b)
    }
  }

  /** The swap tables, with the type conditions under which each one applies. */
  function SwappedOp(op: BinOp, left: Type, right: Type): Option<BinOp> {
    match op
    case Eql => Some(Neq) case Neq => Some(Eql)
    case Lss => Some(Leq) case Leq => Some(Lss)
    case Gtr => Some(Geq) case Geq => Some(Gtr)
    case LAnd => Some(LOr) case LOr => Some(LAnd)
    case Add => if Arithmetic(left, right) then Some(Sub) else None
    case Sub => if Arithmetic(left, right) then Some(Add) else None
    case Mul => if Arithmetic(left, right) then Some(Quo) else None
    case Quo => if Arithmetic(left, right) then Some(Mul) else None
    case Rem => if left.TInt? && right.TInt? then Some(Mul) else None
    case And => if left.TInt? && right.TInt? then Some(Or) else None
    case Or => if left.TInt? && right.TInt? then Some(And) else None
    case Xor => if left.TInt? && right.TInt? then Some(And) else None
    case AndNot => if left.TInt? && right.TInt? then Some(And) else None
    case Shl => if left.TInt? then Some(Shr) else None
    case Shr => if left.TInt? then Some(Shl) else None
  }

  /** Swapping twice gives the operator back, except where three operators share one replacement. */
  lemma SwapsPair(op: BinOp, left: Type, right: Type)
    requires !op.Rem? && !op.Xor? && !op.AndNot? && SwappedOp(op, left, right).Some?
    ensures var to := SwappedOp(op, left, right).value; to != op && SwappedOp(to, left, right) == Some(op)
    ensures op.YieldsBool() <==> SwappedOp(op, left, right).value.YieldsBool()
  {
  }

  predicate Arithmetic(left: Type, right: Type) { (left.TInt? && right.TInt?) || (left.TFloat? && right.TFloat?) }

  /** What a rule writes in place of the expression it matched. */
  function Replacement(rule: Rule, anchor: Expr): Option<Expr> {
    match rule
    case SwapOperator(from) =>
      if !anchor.Binary? || anchor.op != from then None
      else
        var op := SwappedOp(anchor.op, TypeOf(anchor.x), TypeOf(anchor.y));
        if op.None? then None else Some(anchor.(op := op.value))
    case Negate => if TypeOf(anchor).TBool? then Some(Unary(Not, Paren(anchor), TBool, 0)) else None
    case RemoveNegation =>
      if anchor.Unary? && anchor.uop.Not? && TypeOf(anchor.x).TBool? then Some(anchor.x) else None
    case Settle(b) => if TypeOf(anchor).TBool? then Some(Lit(Bool(b), TBool)) else None
    case NilErrorBranch =>
      if anchor.Binary? && anchor.op.Neq? && (IsNilLiteral(anchor.x) || IsNilLiteral(anchor.y))
      then Some(Lit(Bool(false), TBool)) else None
    case FlipLiteral => if anchor.Lit? && anchor.v.Bool? then Some(anchor.(v := Bool(!anchor.v.b))) else None
    case ReturnConstant(v, declared) =>
      if v in [Int(0), Str(""), Bool(true), Bool(false), Nil] && Conforms(v, declared) then Some(Lit(v, declared)) else None
    case ReturnEmpty(declared) =>
      if declared.TSlice? || declared.TMap? then Some(Composite([], [], declared, 0)) else None
  }
}
