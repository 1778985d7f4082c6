/** The expression grammars of discovery: `Inert` (internal/discover/branch.go), `EffectFree` and `PanicFree`
    (internal/discover/effects.go), and what each one promises about evaluation. */
module Purity {
  import opened GoValues
  import opened GoProgram
  import opened Wrappers

  // ----- the grammars

  predicate ComparableWithoutPanic(t: Type) {
    match t
    case TBool | TString | TFloat | TComplex | TInt(_, _) | TPointer(_) | TChan => true
    case TStruct(fs) => forall i :: 0 <= i < |fs| ==> ComparableWithoutPanic(fs[i])
    case TArray(_, e) => ComparableWithoutPanic(e)
    case _ => false
  }

  /** The narrower test the probes use. */
  predicate ComparesWithoutPanic(t: Type) { t.Basic() || t.TPointer? || t.TChan? }

  predicate IsNilLiteral(e: Expr) { e.Lit? && e.v.Nil? && Conforms(Nil, e.ty) }

  predicate MayBeArray(t: Type) { t.TArray? || t.TTypeParam? }

  predicate InertConversion(to: Type) { !MayBeArray(to) && (to.TPointer? ==> !MayBeArray(to.elem)) }

  predicate Measuring(b: Builtin) { b.Len? || b.Cap? || b.Min? || b.Max? || b.Real? || b.Imag? || b.ComplexOf? }

  predicate Inert(e: Expr) {
    match e
    case Ident(_, _) | Lit(_, _) | PkgName(_, _, _) => true
    case Paren(x) => Inert(x)
    case Site(_, x) => Inert(x)
    case Field(x, _, sel, _) => sel.Direct? && Inert(x)
    case Unary(op, x, _, _) => (op.Not? || op.Neg? || op.Plus? || op.Complement?) && Inert(x)
    case Binary(op, x, y, _, constant) =>
      && (op.Dividing() || op.Shifting() ==> constant.Some?)
      && (op.Eql? || op.Neq? ==> SafelyComparable(x, y))
      && Inert(x) && Inert(y)
    case Convert(to, x) => InertConversion(to) && Inert(x)
    case CallBuiltin(b, args, _, _) => Measuring(b) && forall a :: a in args ==> Inert(a)
    case _ => false
  }

  predicate SafelyComparable(x: Expr, y: Expr) {
    || IsNilLiteral(x) || IsNilLiteral(y)
    || (ComparableWithoutPanic(TypeOf(x)) && ComparableWithoutPanic(TypeOf(y)))
  }

  predicate EffectFree(e: Expr) {
    match e
    case Ident(_, _) | Lit(_, _) | FuncLit(_) | PkgName(_, _, _) => true
    case Paren(x) => EffectFree(x)
    case Site(_, x) => EffectFree(x)
    case Field(x, _, _, _) => EffectFree(x)
    case Star(x, _) => EffectFree(x)
    case Index(x, i, _) => EffectFree(x) && EffectFree(i)
    case SliceOf(x, bounds, _) => EffectFree(x) && forall b :: b in bounds ==> EffectFree(b)
    case TypeAssert(x, _) => EffectFree(x)
    case Unary(op, x, _, _) => !op.Receive? && EffectFree(x)
    case Binary(_, x, y, _, _) => EffectFree(x) && EffectFree(y)
    case Composite(keys, values, _, _) => (forall k :: k in keys ==> EffectFree(k)) && forall v :: v in values ==> EffectFree(v)
    case Convert(_, x) => EffectFree(x)
    case CallBuiltin(b, args, _, _) => (Measuring(b) || b.New? || b.Make?) && forall a :: a in args ==> EffectFree(a)
    case Call(_, _, _) => false
  }

  predicate ZeroConstant(v: Value) {
    v == Int(0) || v == Flt(Number(0.0)) || v == Cpx(Number(0.0), Number(0.0))
  }

  predicate PanicFree(e: Expr) {
    match e
    case Ident(_, _) | Lit(_, _) | FuncLit(_) | PkgName(_, _, _) => true
    case Paren(x) => PanicFree(x)
    case Site(_, x) => PanicFree(x)
    case Field(x, _, sel, _) => sel.Direct? && !TypeOf(x).TInterface? && PanicFree(x)
    case Unary(op, x, _, _) => !op.Receive? && PanicFree(x)
    case Binary(op, x, y, _, constant) =>
      && PanicFree(x) && PanicFree(y)
      && (op.Dividing() ==> constant.Some? && !ZeroConstant(constant.value))
      && (op.Shifting() ==> constant.Some?)
      && (op.Eql? || op.Neq? ==> ComparesWithoutPanic(TypeOf(x)) && ComparesWithoutPanic(TypeOf(y)))
    case Composite(keys, values, ty, _) =>
      && (ty.TMap? ==> ComparesWithoutPanic(ty.key))
      && (forall k :: k in keys ==> PanicFree(k)) && forall v :: v in values ==> PanicFree(v)
    case Convert(to, x) => PanicFree(x) && (TypeOf(x).TSlice? ==> !to.TArray? && !to.TPointer?)
    case CallBuiltin(b, args, _, _) => (Measuring(b) || b.New?) && forall a :: a in args ==> PanicFree(a)
    case _ => false
  }

  // ----- the two facts the compiler adds

  /** The compiler refuses a constant integer divisor that is zero. */
  predicate DivisorsCompile(e: Expr) {
    match e
    case Paren(x) => DivisorsCompile(x)
    case Site(_, x) => DivisorsCompile(x)
    case Field(x, _, _, _) => DivisorsCompile(x)
    case Unary(_, x, _, _) => DivisorsCompile(x)
    case Convert(_, x) => DivisorsCompile(x)
    case Binary(op, x, y, _, constant) =>
      DivisorsCompile(x) && DivisorsCompile(y) && (op.Dividing() && constant.Some? ==> constant.value != Int(0))
    case CallBuiltin(_, args, _, _) => forall a :: a in args ==> DivisorsCompile(a)
    case _ => true
  }

  /** No conversion compares a length at run time. `panicFree` already refuses a slice converted to an array, but
      not the cases in which a type parameter stands for the slice or for the array. */
  predicate ConversionsResolved(e: Expr) {
    match e
    case Paren(x) => ConversionsResolved(x)
    case Site(_, x) => ConversionsResolved(x)
    case Field(x, _, _, _) => ConversionsResolved(x)
    case Unary(_, x, _, _) => ConversionsResolved(x)
    case Convert(to, x) => ConversionsResolved(x) && ConversionResolved(TypeOf(x), to)
    case Binary(_, x, y, _, _) => ConversionsResolved(x) && ConversionsResolved(y)
    case Composite(keys, values, _, _) =>
      (forall k :: k in keys ==> ConversionsResolved(k)) && forall v :: v in values ==> ConversionsResolved(v)
    case CallBuiltin(_, args, _, _) => forall a :: a in args ==> ConversionsResolved(a)
    case _ => true
  }

  predicate ConversionResolved(from: Type, to: Type) {
    !((from.TSlice? || from.TTypeParam?) && MayDemandLength(to))
  }

  /** A conversion to this type can look at the length of a slice. */
  predicate MayDemandLength(to: Type) {
    to.TTypeParam? || (to.TArray? && to.size > 0) || (to.TPointer? && to.elem.TArray? && to.elem.size > 0)
  }

  /** The grammar that stays closed under an edit: `PanicFree` and resolved, except that a floating division needs
      no divisor other than zero. */
  predicate Safe(e: Expr) {
    match e
    case Ident(_, _) | Lit(_, _) | FuncLit(_) | PkgName(_, _, _) => true
    case Paren(x) => Safe(x)
    case Site(_, x) => Safe(x)
    case Field(x, _, sel, _) => sel.Direct? && Safe(x)
    case Unary(op, x, _, _) => !op.Receive? && Safe(x)
    case Binary(op, x, y, _, constant) => Safe(x) && Safe(y) && SafeOperator(op, TypeOf(x), TypeOf(y), constant)
    case Composite(keys, values, ty, _) =>
      && (ty.TMap? && keys != [] ==> ComparesWithoutPanic(ty.key))
      && (forall k :: k in keys ==> Safe(k)) && forall v :: v in values ==> Safe(v)
    case Convert(to, x) => Safe(x) && ConversionResolved(TypeOf(x), to)
    case CallBuiltin(b, args, _, _) => (Measuring(b) || b.New?) && forall a :: a in args ==> Safe(a)
    case _ => false
  }

  predicate SafeOperator(op: BinOp, tx: Type, ty: Type, constant: Option<Value>) {
    && (op.Dividing() ==> (constant.Some? && constant.value != Int(0)) || (constant.None? && ty.Floating()))
    && (op.Shifting() ==> constant.Some?)
    && (op.Eql? || op.Neq? ==> ComparesWithoutPanic(tx) && ComparesWithoutPanic(ty))
  }

  lemma {:induction false} PanicFreeIsSafe(e: Expr)
    requires PanicFree(e) && ConversionsResolved(e)
    ensures Safe(e)
  {
    match e
    case Paren(x) => PanicFreeIsSafe(x);
    case Site(_, x) => PanicFreeIsSafe(x);
    case Field(x, _, _, _) => PanicFreeIsSafe(x);
    case Unary(_, x, _, _) => PanicFreeIsSafe(x);
    case Convert(_, x) => PanicFreeIsSafe(x);
    case Binary(_, x, y, _, _) => PanicFreeIsSafe(x); PanicFreeIsSafe(y);
    case Composite(keys, values, _, _) =>
      forall k | k in keys ensures Safe(k) { PanicFreeIsSafe(k); }
      forall v | v in values ensures Safe(v) { PanicFreeIsSafe(v); }
    case CallBuiltin(_, args, _, _) =>
      forall a | a in args ensures Safe(a) { PanicFreeIsSafe(a); }
    case _ =>
  }

  /** `panicFree` is the stronger of the two grammars. */
  lemma {:induction false} PanicFreeIsEffectFree(e: Expr)
    requires PanicFree(e)
    ensures EffectFree(e)
  {
    match e
    case Paren(x) => PanicFreeIsEffectFree(x);
    case Site(_, x) => PanicFreeIsEffectFree(x);
    case Field(x, _, _, _) => PanicFreeIsEffectFree(x);
    case Unary(_, x, _, _) => PanicFreeIsEffectFree(x);
    case Convert(_, x) => PanicFreeIsEffectFree(x);
    case Binary(_, x, y, _, _) => PanicFreeIsEffectFree(x); PanicFreeIsEffectFree(y);
    case Composite(keys, values, _, _) =>
      forall k | k in keys ensures EffectFree(k) { PanicFreeIsEffectFree(k); }
      forall v | v in values ensures EffectFree(v) { PanicFreeIsEffectFree(v); }
    case CallBuiltin(_, args, _, _) =>
      forall a | a in args ensures EffectFree(a) { PanicFreeIsEffectFree(a); }
    case _ =>
  }

  // ----- evaluation keeps to static types

  predicate Compound(e: Expr) { e.Index? || e.SliceOf? || e.Binary? || e.Composite? || e.CallBuiltin? || e.Call? }

  lemma {:induction false} EvalConforms(c: Context, e: Expr, s: State, fuel: nat, inside: bool)
    ensures var r := Eval(c, e, s, fuel, inside); r.out.Done? ==> Conforms(r.out.v, TypeOf(e))
    decreases e
  {
    if Compound(e) {
      CompoundConforms(c, e, s, fuel, inside);
    } else {
      match e
      case Paren(x) => EvalConforms(c, x, s, fuel, inside);
      case Site(_, x) => EvalConforms(c, x, s, fuel, inside);
      case _ =>
    }
  }

  lemma CompoundConforms(c: Context, e: Expr, s: State, fuel: nat, inside: bool)
    requires Compound(e)
    ensures var r := Eval(c, e, s, fuel, inside); r.out.Done? ==> Conforms(r.out.v, TypeOf(e))
  {
  }

  // ----- effectFree: nothing changes, whatever the outcome

  /** The context's edit does not smuggle an effect into a site. */
  predicate EditEffectFree(c: Context) { c.live && !c.edit.gate ==> EffectFree(c.edit.to) }

  /** Evaluating an effect-free expression leaves the state as it was, and ends. */
  lemma {:induction false} EffectFreeKeepsState(c: Context, e: Expr, s: State, fuel: nat, inside: bool)
    requires EffectFree(e) && (inside || EditEffectFree(c))
    ensures var r := Eval(c, e, s, fuel, inside); r.st == s && !r.out.Starved? && (inside ==> r.ev == {})
    decreases if inside then 0 else 1, e, 1
  {
    hide Eval, EvalAll;
    if e.Paren? || e.Field? || e.Star? || e.TypeAssert? || e.Unary? || e.Convert? { OperandKeepsState(c, e, s, fuel, inside); }
    else if e.Site? { SiteKeepsState(c, e, s, fuel, inside); }
    else if e.CallBuiltin? { BuiltinKeepsState(c, e, s, fuel, inside); }
    else if e.Index? || e.SliceOf? || e.Binary? || e.Composite? { CompoundKeepsState(c, e, s, fuel, inside); }
    else { LeafKeepsState(c, e, s, fuel, inside); }
  }

  lemma LeafKeepsState(c: Context, e: Expr, s: State, fuel: nat, inside: bool)
    requires e.Ident? || e.Lit? || e.FuncLit? || e.PkgName?
    ensures var r := Eval(c, e, s, fuel, inside); r.st == s && !r.out.Starved? && (inside ==> r.ev == {})
  {
  }

  lemma {:induction false} OperandKeepsState(c: Context, e: Expr, s: State, fuel: nat, inside: bool)
    requires e.Paren? || e.Field? || e.Star? || e.TypeAssert? || e.Unary? || e.Convert?
    requires EffectFree(e) && (inside || EditEffectFree(c))
    ensures var r := Eval(c, e, s, fuel, inside); r.st == s && !r.out.Starved? && (inside ==> r.ev == {})
    decreases if inside then 0 else 1, e, 0
  {
    hide EvalAll;
    EffectFreeKeepsState(c, e.x, s, fuel, inside);
  }

  lemma {:induction false} SiteKeepsState(c: Context, e: Expr, s: State, fuel: nat, inside: bool)
    requires e.Site? && EffectFree(e) && (inside || EditEffectFree(c))
    ensures var r := Eval(c, e, s, fuel, inside); r.st == s && !r.out.Starved? && (inside ==> r.ev == {})
    decreases if inside then 0 else 1, e, 0
  {
    hide EvalAll;
    EffectFreeKeepsState(c, e.x, s, fuel, inside);
    if !inside && c.live && !c.edit.gate { EffectFreeKeepsState(c, c.edit.to, s, fuel, true); }
  }

  lemma {:induction false} BuiltinKeepsState(c: Context, e: Expr, s: State, fuel: nat, inside: bool)
    requires e.CallBuiltin? && EffectFree(e) && (inside || EditEffectFree(c))
    ensures var r := Eval(c, e, s, fuel, inside); r.st == s && !r.out.Starved? && (inside ==> r.ev == {})
    decreases if inside then 0 else 1, e, 0
  {
    hide EvalAll;
    OperandsKeepState(c, e.args, s, fuel, inside);
  }

  lemma {:induction false} CompoundKeepsState(c: Context, e: Expr, s: State, fuel: nat, inside: bool)
    requires e.Index? || e.SliceOf? || e.Binary? || e.Composite?
    requires EffectFree(e) && (inside || EditEffectFree(c))
    ensures var r := Eval(c, e, s, fuel, inside); r.st == s && !r.out.Starved? && (inside ==> r.ev == {})
    decreases if inside then 0 else 1, e, 0
  {
    if e.Composite? {
      OperandsKeepState(c, e.keys, s, fuel, inside);
      OperandsKeepState(c, e.values, s, fuel, inside);
    } else {
      EffectFreeKeepsState(c, e.x, s, fuel, inside);
      if e.SliceOf? { OperandsKeepState(c, e.bounds, s, fuel, inside); }
      if e.Index? { EffectFreeKeepsState(c, e.i, s, fuel, inside); }
      if e.Binary? { EffectFreeKeepsState(c, e.y, s, fuel, inside); }
    }
  }

  lemma {:induction false} OperandsKeepState(c: Context, es: seq<Expr>, s: State, fuel: nat, inside: bool)
    requires (forall e :: e in es ==> EffectFree(e)) && (inside || EditEffectFree(c))
    ensures var r := EvalAll(c, es, s, fuel, inside); r.st == s && !r.out.Starved? && (inside ==> r.ev == {})
    decreases if inside then 0 else 1, es
  {
    if es != [] {
      EffectFreeKeepsState(c, es[0], s, fuel, inside);
      OperandsKeepState(c, es[1..], s, fuel, inside);
    }
  }

  // ----- panicFree: a value, and nothing else

  predicate EditSafe(c: Context) { c.live && !c.edit.gate ==> Safe(c.edit.to) }

  lemma {:induction false} SafeIsEffectFree(e: Expr)
    requires Safe(e)
    ensures EffectFree(e)
  {
    match e
    case Paren(x) => SafeIsEffectFree(x);
    case Site(_, x) => SafeIsEffectFree(x);
    case Field(x, _, _, _) => SafeIsEffectFree(x);
    case Unary(_, x, _, _) => SafeIsEffectFree(x);
    case Convert(_, x) => SafeIsEffectFree(x);
    case Binary(_, x, y, _, _) => SafeIsEffectFree(x); SafeIsEffectFree(y);
    case Composite(keys, values, _, _) =>
      forall k | k in keys ensures EffectFree(k) { SafeIsEffectFree(k); }
      forall v | v in values ensures EffectFree(v) { SafeIsEffectFree(v); }
    case CallBuiltin(_, args, _, _) =>
      forall a | a in args ensures EffectFree(a) { SafeIsEffectFree(a); }
    case _ =>
  }

  /** Values of a basic, pointer or channel type compare without a panic. */
  lemma PlainValuesCompare(x: Value, y: Value, t: Type)
    requires Conforms(x, t) && ComparesWithoutPanic(t)
    ensures Compare(x, y) != Panics
  {
  }

  /** Evaluating a safe expression yields a value and changes nothing. */
  lemma {:induction false} SafeYieldsValue(c: Context, e: Expr, s: State, fuel: nat, inside: bool)
    requires Safe(e) && (inside || EditSafe(c))
    ensures var r := Eval(c, e, s, fuel, inside); r.out.Done? && r.st == s && (inside ==> r.ev == {})
    decreases if inside then 0 else 1, e, 1
  {
    SafeIsEffectFree(e);
    if !inside && c.live && !c.edit.gate { SafeIsEffectFree(c.edit.to); }
    EffectFreeKeepsState(c, e, s, fuel, inside);
    hide Eval, EvalAll, SafeOperator;
    if e.Binary? { SafeBinary(c, e, s, fuel, inside); }
    else if e.Composite? { SafeComposite(c, e, s, fuel, inside); }
    else if e.Convert? { SafeConvert(c, e, s, fuel, inside); }
    else { SafeSimple(c, e, s, fuel, inside); }
  }

  lemma {:induction false} SafeSimple(c: Context, e: Expr, s: State, fuel: nat, inside: bool)
    requires !e.Binary? && !e.Composite? && !e.Convert? && Safe(e) && (inside || EditSafe(c))
    ensures Eval(c, e, s, fuel, inside).out.Done?
    decreases if inside then 0 else 1, e, 0
  {
    hide EvalAll;
    if e.Paren? || e.Field? || e.Unary? || e.Site? { SafeYieldsValue(c, e.x, s, fuel, inside); }
    if e.Site? && !inside && c.live && !c.edit.gate { SafeYieldsValue(c, c.edit.to, s, fuel, true); }
    if e.CallBuiltin? { SafeOperands(c, e.args, s, fuel, inside); }
  }

  lemma {:induction false} SafeConvert(c: Context, e: Expr, s: State, fuel: nat, inside: bool)
    requires e.Convert? && Safe(e) && (inside || EditSafe(c))
    ensures Eval(c, e, s, fuel, inside).out.Done?
    decreases if inside then 0 else 1, e, 0
  {
    hide EvalAll;
    SafeYieldsValue(c, e.x, s, fuel, inside);
    EvalConforms(c, e.x, s, fuel, inside);
  }

  lemma {:induction false} SafeComposite(c: Context, e: Expr, s: State, fuel: nat, inside: bool)
    requires e.Composite? && Safe(e) && (inside || EditSafe(c))
    ensures Eval(c, e, s, fuel, inside).out.Done?
    decreases if inside then 0 else 1, e, 0
  {
    hide EvalAll, Conforms, Fit;
    SafeOperands(c, e.keys, s, fuel, inside);
    SafeOperands(c, e.values, s, fuel, inside);
    if e.ty.TMap? && e.keys != [] {
      forall k: Value ensures Compare(Fit(k, e.ty.key), Fit(k, e.ty.key)) != Panics {
        PlainValuesCompare(Fit(k, e.ty.key), Fit(k, e.ty.key), e.ty.key);
      }
    }
  }

  lemma {:induction false} SafeBinary(c: Context, e: Expr, s: State, fuel: nat, inside: bool)
    requires e.Binary? && Safe(e) && (inside || EditSafe(c))
    ensures Eval(c, e, s, fuel, inside).out.Done?
    decreases if inside then 0 else 1, e, 0
  {
    hide Eval, EvalAll, Conforms, Compare;
    SafeYieldsValue(c, e.x, s, fuel, inside);
    SafeYieldsValue(c, e.y, s, fuel, inside);
    EvalConforms(c, e.x, s, fuel, inside);
    EvalConforms(c, e.y, s, fuel, inside);
    var a, b := Eval(c, e.x, s, fuel, inside), Eval(c, e.y, s, fuel, inside);
    if e.op.Eql? || e.op.Neq? { PlainValuesCompare(a.out.v, b.out.v, TypeOf(e.x)); }
    SafeOperation(c, e, s, fuel, inside);
  }

  lemma SafeOperation(c: Context, e: Expr, s: State, fuel: nat, inside: bool)
    requires e.Binary? && SafeOperator(e.op, TypeOf(e.x), TypeOf(e.y), e.constant)
    requires var a := Eval(c, e.x, s, fuel, inside); a.out.Done? && a.st == s
    requires var b := Eval(c, e.y, s, fuel, inside); b.out.Done? && Conforms(b.out.v, TypeOf(e.y))
    requires e.op.Eql? || e.op.Neq? ==>
               Compare(Eval(c, e.x, s, fuel, inside).out.v, Eval(c, e.y, s, fuel, inside).out.v) != Panics
    ensures Eval(c, e, s, fuel, inside).out.Done?
  {
    hide EvalAll, Compare;
  }

  lemma {:induction false} SafeOperands(c: Context, es: seq<Expr>, s: State, fuel: nat, inside: bool)
    requires (forall e :: e in es ==> Safe(e)) && (inside || EditSafe(c))
    ensures var r := EvalAll(c, es, s, fuel, inside); r.out.Done? && r.st == s && (inside ==> r.ev == {})
    decreases if inside then 0 else 1, es
  {
    if es != [] {
      SafeYieldsValue(c, es[0], s, fuel, inside);
      SafeOperands(c, es[1..], s, fuel, inside);
    }
  }
}
