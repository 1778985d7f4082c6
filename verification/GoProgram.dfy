/** Syntax and big-step semantics of the Go fragment: expressions with short-circuit, panics and calls,
    statements with loops, switches and early exits, programs of mutually recursive functions. Evaluation takes
    fuel, spent by calls and loop iterations, so two runs are the same when they agree for every fuel.

    A run has two modes. The original program runs when `live` is false; when it is true the context's edit is
    in place, at a gate (a condition of `if`, `for` or `case`) or at a site (an expression). The events
    of an original run are what a coverage profile and an infection log record about it. */
module GoProgram {
  import opened GoValues
  import opened Wrappers

  datatype BinOp =
    | Add | Sub | Mul | Quo | Rem | And | Or | Xor | AndNot | Shl | Shr
    | LAnd | LOr | Eql | Neq | Lss | Leq | Gtr | Geq
  {
    predicate Comparison() { Eql? || Neq? || Lss? || Leq? || Gtr? || Geq? }
    predicate Connective() { LAnd? || LOr? }
    predicate YieldsBool() { Comparison() || Connective() }
    predicate Dividing() { Quo? || Rem? }
    predicate Shifting() { Shl? || Shr? }
  }

  datatype UnOp = Not | Neg | Plus | Complement | AddressOf | Receive

  datatype Selection = Direct | Indirect | Method

  datatype Builtin = Len | Cap | Min | Max | Real | Imag | ComplexOf | New | Make | PanicCall | Effectful(name: string)

  /** Type facts ride on the nodes: static types, selections, and the constant value of a right operand. */
  datatype Expr =
    | Ident(name: string, ty: Type)
    | Lit(v: Value, ty: Type)
    | FuncLit(fn: string)
    | Paren(x: Expr)
    | PkgName(pkg: string, name: string, ty: Type)
    | Field(x: Expr, index: nat, sel: Selection, ty: Type)
    | Star(x: Expr, ty: Type)
    | Index(x: Expr, i: Expr, ty: Type)
    | SliceOf(x: Expr, bounds: seq<Expr>, ty: Type)
    | TypeAssert(x: Expr, to: Type)
    | Unary(uop: UnOp, x: Expr, ty: Type, site: nat)
    | Binary(op: BinOp, x: Expr, y: Expr, ty: Type, constant: Option<Value>)
    | Composite(keys: seq<Expr>, values: seq<Expr>, ty: Type, site: nat)
    | Convert(to: Type, x: Expr)
    | CallBuiltin(b: Builtin, args: seq<Expr>, ty: Type, site: nat)
    | Call(fn: string, args: seq<Expr>, ty: Type)
    | Site(id: nat, x: Expr)

  datatype AssignTok = Set | Define | AddAssign | SubAssign | OtherAssign(op: BinOp)

  datatype Stmt =
    | ExprStmt(e: Expr)
    | Assign(name: string, tok: AssignTok, e: Expr, ty: Type)
    | IncDec(name: string, inc: bool, ty: Type)
    | Store(target: Expr, e: Expr)
    | Block(body: seq<Stmt>)
    | If(id: nat, cond: Expr, thn: seq<Stmt>, els: seq<Stmt>)
    | For(id: nat, test: Option<Expr>, post: Option<Stmt>, body: seq<Stmt>)
    | Switch(tag: Option<Expr>, clauses: seq<Clause>, dflt: seq<Stmt>)
    | Return(results: seq<Expr>)
    | Break
    | Continue

  datatype Clause = Clause(id: nat, labels: seq<Expr>, body: seq<Stmt>)

  datatype Function = Function(params: seq<string>, body: seq<Stmt>)

  type Heap = map<Loc, Value>

  /** `tick` counts executed statements, so cells made by different statement instances have different names. */
  datatype State = State(vars: map<string, Value>, heap: Heap, tick: nat)

  /** What the fragment does not compute itself. Every field is a total function of its arguments, so the
      proofs hold for any arithmetic on floats, any slice representation and any external function. */
  datatype World = World(
    arith: (BinOp, Value, Value) -> Value,
    unary: (UnOp, Value) -> Value,
    convert: (Type, Value, Heap) -> Value,
    measure: (Builtin, seq<Value>, Heap) -> Value,
    makeable: seq<Value> -> bool,
    element: (Value, Value, Heap) -> Option<Value>,
    slice: (Value, seq<Value>) -> Option<Value>,
    receive: (Value, Heap) -> (Value, Heap),
    store: (Expr, seq<Value>, Value, Heap) -> Option<Heap>,
    external: (string, seq<Value>, Heap) -> (Option<Value>, Heap),
    arrayBehind: Option<nat>)  // the array length when a type parameter is instantiated with an array type

  /** One mutant: the expression `from` becomes `to`, at the gate or the site called `id`. */
  datatype Edit = Edit(gate: bool, id: nat, from: Expr, to: Expr)

  datatype Context = Context(prog: map<string, Function>, world: World, edit: Edit, live: bool)

  /** `Entered`: a gated body ran. `Differs`: a probe saw its two readings disagree. */
  datatype Event = Entered(id: nat) | Differs(id: nat)

  datatype Out<+T> = Done(v: T) | Panic | Starved

  datatype Res<+T> = Res(out: Out<T>, st: State, ev: set<Event>)

  datatype Flow = Normal | Broke | Continued | Returned(vs: seq<Value>) | Died | OutOfFuel

  datatype Ran = Ran(flow: Flow, st: State, ev: set<Event>)

  predicate IsTrue(v: Value) { v == Bool(true) }

  function TypeOf(e: Expr): Type {
    match e
    case FuncLit(_) => TFunc
    case Paren(x) => TypeOf(x)
    case TypeAssert(_, to) => to
    case Convert(to, _) => to
    case Site(_, x) => TypeOf(x)
    case Binary(op, _, _, ty, _) => if op.YieldsBool() then TBool else ty
    case _ => e.ty
  }

  function Load(loc: Loc, heap: Heap, ty: Type): (v: Value)
    ensures Conforms(v, ty)
  {
    if loc in heap then Fit(heap[loc], ty) else if loc.Cell? then Fit(loc.init, ty) else Zero(ty)
  }

  function FieldOf(v: Value, index: nat, ty: Type): (r: Value)
    ensures Conforms(r, ty)
  {
    if v.Struct? && index < |v.fields| then Fit(v.fields[index], ty) else Zero(ty)
  }

  function ApplyComparison(op: BinOp, a: Value, b: Value): (r: Out<Value>)
    requires op.Comparison()
    ensures r.Done? ==> r.v.Bool?
  {
    if op.Eql? || op.Neq? then
      if Compare(a, b) == Panics then Panic else Done(Bool((Compare(a, b) == Equal) == op.Eql?))
    else if op.Lss? then Done(Bool(Less(a, b)))
    else if op.Leq? then Done(Bool(LessOrEqual(a, b)))
    else if op.Gtr? then Done(Bool(Less(b, a)))
    else Done(Bool(LessOrEqual(b, a)))
  }

  /** An arithmetic operator on two values. Division by an integer zero and a negative shift count panic; a
      constant shift count is never negative, because the compiler refuses one. */
  function ApplyArithmetic(w: World, op: BinOp, a: Value, b: Value, ty: Type, constant: bool): (r: Out<Value>)
    ensures r.Done? ==> Conforms(r.v, ty)
  {
    if op.Dividing() && b == Int(0) then Panic
    else if op.Shifting() && !constant && b.Int? && b.i < 0 then Panic
    else if a.Int? && b.Int? && op.Add? then Done(Fit(Int(a.i + b.i), ty))
    else if a.Int? && b.Int? && op.Sub? then Done(Fit(Int(a.i - b.i), ty))
    else Done(Fit(w.arith(op, a, b), ty))
  }

  /** The array length a conversion to `to` demands of a slice, if it demands one. */
  function Demanded(w: World, to: Type): Option<nat> {
    match to
    case TArray(n, _) => Some(n)
    case TPointer(TArray(n, _)) => Some(n)
    case TTypeParam => w.arrayBehind
    case _ => None
  }

  /** What lies behind a reference can change while the reference stays: converting a slice reads its elements. */
  function Elements(v: Value, heap: Heap): Heap { if v.Slice? then heap else map[] }

  /** The length of a map or of a channel is kept behind the reference; that of a slice is part of its value. */
  function Contents(vs: seq<Value>, heap: Heap): Heap {
    if exists v :: v in vs && (v.MapRef? || v.Ref?) then heap else map[]
  }

  function ConvertValue(w: World, to: Type, from: Type, v: Value, heap: Heap): (r: Out<Value>)
    ensures r.Done? ==> Conforms(r.v, to)
  {
    var n := if v.Slice? then v.len else 0;
    if (v.Slice? || (v.Nil? && from.TSlice?)) && Demanded(w, to).Some? && n < Demanded(w, to).value then Panic
    else Done(Fit(w.convert(to, v, Elements(v, heap)), to))
  }

  function Through<T>(r: Res<T>, ev: set<Event>): Res<T> { r.(ev := ev + r.ev) }

  /** A failed sub-evaluation ends the enclosing one. */
  function Fail<T, U>(r: Res<T>): Res<U>
    requires !r.out.Done?
  {
    Res(if r.out.Panic? then Panic else Starved, r.st, r.ev)
  }

  // ----- how each construct finishes, once its operands have values

  function Give(r: Res<Value>, ok: bool, v: Value, ty: Type): (f: Res<Value>)
    ensures f.out.Done? ==> Conforms(f.out.v, ty)
    ensures f.st == r.st && f.ev == r.ev && !f.out.Starved? && (f.out.Done? <==> ok)
  {
    r.(out := if ok then Done(Fit(v, ty)) else Panic)
  }

  function Pick(v: Option<Value>): Value { if v.Some? then v.value else Nil }

  /** A field of a struct value never panics; a field or method through a nil pointer or interface does. */
  function SelectField(r: Res<Value>, i: nat, sel: Selection, ty: Type): Res<Value>
    requires r.out.Done?
  {
    var v := r.out.v;
    if sel.Direct? then Give(r, true, FieldOf(v, i, ty), ty)
    else if sel.Method? then Give(r, !v.Nil?, Func("method"), ty)
    else Give(r, !v.Nil?, FieldOf(if v.Ref? then Load(v.loc, r.st.heap, TTypeParam) else Nil, i, ty), ty)
  }

  function Dereference(r: Res<Value>, ty: Type): Res<Value>
    requires r.out.Done?
  {
    Give(r, r.out.v.Ref?, if r.out.v.Ref? then Load(r.out.v.loc, r.st.heap, ty) else Nil, ty)
  }

  function Asserted(r: Res<Value>, to: Type): Res<Value>
    requires r.out.Done?
  {
    Give(r, r.out.v.Iface? && r.out.v.dyn == to, if r.out.v.Iface? then r.out.v.v else Nil, to)
  }

  /** A unary operator; a receive takes a value off a channel, which is an effect. */
  function ApplyUnary(w: World, uop: UnOp, r: Res<Value>, ty: Type, site: nat): (f: Res<Value>)
    requires r.out.Done?
    ensures f.out.Done? && Conforms(f.out.v, ty) && f.ev == r.ev && (!uop.Receive? ==> f.st == r.st)
  {
    var v := r.out.v;
    if uop.Receive? then
      Give(r.(st := r.st.(heap := w.receive(v, r.st.heap).1)), true, w.receive(v, r.st.heap).0, ty)
    else if uop.Not? then Give(r, true, Bool(!IsTrue(v)), ty)
    else if uop.AddressOf? then Give(r, true, Ref(Cell(r.st.tick, site, v)), ty)
    else Give(r, true, w.unary(uop, v), ty)
  }

  /** A composite literal; an unhashable map key panics. */
  function Build(r: Res<seq<Value>>, keys: seq<Value>, ty: Type, site: nat): (f: Res<Value>)
    requires r.out.Done?
    ensures f.out.Done? ==> Conforms(f.out.v, ty)
    ensures f.st == r.st && f.ev == r.ev && !f.out.Starved?
  {
    var values := r.out.v;
    Give(Res(Panic, r.st, r.ev), !(ty.TMap? && exists k :: k in keys && Compare(Fit(k, ty.key), Fit(k, ty.key)) == Panics),
         if ty.TStruct? then Struct(values)
         else if ty.TArray? then Array(values)
         else if ty.TSlice? then Slice(Cell(r.st.tick, site, Struct(values)), |values|)
         else if ty.TMap? then MapRef(Cell(r.st.tick, site, Struct(keys + values)))
         else Nil, ty)
  }

  function RunBuiltin(w: World, b: Builtin, r: Res<seq<Value>>, ty: Type, site: nat): (f: Res<Value>)
    requires r.out.Done?
    ensures f.out.Done? ==> Conforms(f.out.v, ty)
    ensures f.ev == r.ev && !f.out.Starved? && (!b.Effectful? ==> f.st == r.st)
    ensures !b.Effectful? && !b.Make? && !b.PanicCall? ==> f.out.Done?
  {
    var at := Res(Panic, r.st, r.ev);
    if b.New? then Give(at, true, Ref(Cell(r.st.tick, site, if ty.TPointer? then Zero(ty.elem) else Nil)), ty)
    else if b.Make? then Give(at, w.makeable(r.out.v), Slice(Cell(r.st.tick, site, Nil), |r.out.v|), ty)
    else if b.PanicCall? then at
    else if b.Effectful? then
      var (v, heap) := w.external(b.name, r.out.v, r.st.heap);
      Give(at.(st := r.st.(heap := heap)), v.Some?, Pick(v), ty)
    else Give(at, true, w.measure(b, r.out.v, Contents(r.out.v, r.st.heap)), ty)
  }

  /** A call of a function outside the program. */
  function CallOut(w: World, fn: string, r: Res<seq<Value>>, ty: Type): (f: Res<Value>)
    requires r.out.Done?
    ensures f.out.Done? ==> Conforms(f.out.v, ty)
  {
    var (v, heap) := w.external(fn, r.out.v, r.st.heap);
    Give(Res(Panic, r.st.(heap := heap), r.ev), v.Some?, Pick(v), ty)
  }

  /** The caller goes on with its own variables and the callee's heap. */
  function FinishCall(ran: Ran, r: Res<seq<Value>>, ty: Type): (f: Res<Value>)
    ensures f.out.Done? ==> Conforms(f.out.v, ty)
  {
    Res(if ran.flow.Died? then Panic
        else if ran.flow.OutOfFuel? then Starved
        else if ran.flow.Returned? && ran.flow.vs != [] then Done(Fit(ran.flow.vs[0], ty))
        else Done(Zero(ty)),
        State(r.st.vars, ran.st.heap, ran.st.tick), r.ev + ran.ev)
  }

  /** What the left operand alone decides: a short circuit, or an operator whose right operand is constant. */
  function LeftDecides(op: BinOp, a: Value, constant: Option<Value>): bool {
    || (op.LAnd? && !IsTrue(a)) || (op.LOr? && IsTrue(a))
    || (constant.Some? && (op.Dividing() || op.Shifting()))
  }

  function FromLeft(w: World, op: BinOp, a: Res<Value>, ty: Type, constant: Option<Value>): (f: Res<Value>)
    requires a.out.Done? && LeftDecides(op, a.out.v, constant)
    ensures f.out.Done? ==> Conforms(f.out.v, if op.YieldsBool() then TBool else ty)
    ensures f.st == a.st && f.ev == a.ev && !f.out.Starved?
  {
    if op.Connective() then a.(out := Done(Bool(op.LOr?)))
    else a.(out := ApplyArithmetic(w, op, a.out.v, constant.value, ty, true))
  }

  function FromBoth(w: World, op: BinOp, a: Value, b: Res<Value>, ty: Type): (f: Res<Value>)
    requires b.out.Done?
    ensures f.out.Done? ==> Conforms(f.out.v, if op.YieldsBool() then TBool else ty)
    ensures f.st == b.st && f.ev == b.ev && !f.out.Starved?
  {
    if op.Connective() then b.(out := Done(Bool(IsTrue(b.out.v))))
    else if op.Comparison() then b.(out := ApplyComparison(op, a, b.out.v))
    else b.(out := ApplyArithmetic(w, op, a, b.out.v, ty, false))
  }

  /** Evaluates `e`. Inside an edit's replacement (`inside`) sites are transparent: the replacement is rendered
      from pristine source. */
  ghost function Eval(c: Context, e: Expr, s: State, fuel: nat, inside: bool): Res<Value>
    decreases fuel, if inside then 0 else 1, e
  {
    match e
    case Ident(x, ty) =>
      Res(Done(if x in s.vars then Fit(s.vars[x], ty) else Load(Global(x), s.heap, ty)), s, {})
    case Lit(v, ty) => Res(Done(Fit(v, ty)), s, {})
    case FuncLit(f) => Res(Done(Func(f)), s, {})
    case PkgName(p, n, ty) => Res(Done(Load(Global(p + "." + n), s.heap, ty)), s, {})
    case Paren(x) => Eval(c, x, s, fuel, inside)
    case Field(x, i, sel, ty) =>
      var r := Eval(c, x, s, fuel, inside);
      if !r.out.Done? then r else SelectField(r, i, sel, ty)
    case Star(x, ty) =>
      var r := Eval(c, x, s, fuel, inside);
      if !r.out.Done? then r else Dereference(r, ty)
    case TypeAssert(x, to) =>
      var r := Eval(c, x, s, fuel, inside);
      if !r.out.Done? then r else Asserted(r, to)
    case Unary(uop, x, ty, site) =>
      var r := Eval(c, x, s, fuel, inside);
      if !r.out.Done? then r else ApplyUnary(c.world, uop, r, ty, site)
    case Convert(to, x) =>
      var r := Eval(c, x, s, fuel, inside);
      if !r.out.Done? then r else r.(out := ConvertValue(c.world, to, TypeOf(x), r.out.v, r.st.heap))
    case Index(x, i, ty) =>
      var a := Eval(c, x, s, fuel, inside);
      if !a.out.Done? then a
      else
        var b := Eval(c, i, a.st, fuel, inside);
        if !b.out.Done? then Through(b, a.ev)
        else
          var v := c.world.element(a.out.v, b.out.v, b.st.heap);
          Through(Give(b, v.Some?, Pick(v), ty), a.ev)
    case SliceOf(x, bounds, ty) =>
      var a := Eval(c, x, s, fuel, inside);
      if !a.out.Done? then a
      else
        var r := EvalAll(c, bounds, a.st, fuel, inside);
        if !r.out.Done? then Through(Fail(r), a.ev)
        else
          var v := c.world.slice(a.out.v, r.out.v);
          Through(Give(Res(Panic, r.st, r.ev), v.Some?, Pick(v), ty), a.ev)
    case Binary(op, x, y, ty, constant) =>
      var a := Eval(c, x, s, fuel, inside);
      if !a.out.Done? then a
      else if LeftDecides(op, a.out.v, constant) then FromLeft(c.world, op, a, ty, constant)
      else
        var b := Eval(c, y, a.st, fuel, inside);
        if !b.out.Done? then Through(b, a.ev) else Through(FromBoth(c.world, op, a.out.v, b, ty), a.ev)
    case Composite(keys, values, ty, site) =>
      var k := EvalAll(c, keys, s, fuel, inside);
      if !k.out.Done? then Fail(k)
      else
        var r := EvalAll(c, values, k.st, fuel, inside);
        if !r.out.Done? then Through(Fail(r), k.ev) else Through(Build(r, k.out.v, ty, site), k.ev)
    case CallBuiltin(b, args, ty, site) =>
      var r := EvalAll(c, args, s, fuel, inside);
      if !r.out.Done? then Fail(r) else RunBuiltin(c.world, b, r, ty, site)
    case Call(f, args, ty) =>
      var r := EvalAll(c, args, s, fuel, inside);
      if !r.out.Done? then Fail(r)
      else if f !in c.prog || |c.prog[f].params| != |args| then CallOut(c.world, f, r, ty)
      else if fuel == 0 then Res(Starved, r.st, r.ev)
      else
        FinishCall(RunBlock(c, c.prog[f].body, Entry(c.prog[f].params, r.out.v, r.st), fuel - 1), r, ty)
    case Site(id, x) =>
      if inside || c.edit.gate || id != c.edit.id || x != c.edit.from then Eval(c, x, s, fuel, inside)
      else if c.live then Retype(Eval(c, c.edit.to, s, fuel, true), TypeOf(x))
      else
        var r := Eval(c, x, s, fuel, inside);
        if SameReading(r, Eval(c, c.edit.to, s, fuel, true)) then r else Through(r, {Differs(id)})
  }

  /** A replacement has the type of what it replaces. */
  function Retype(r: Res<Value>, ty: Type): (f: Res<Value>)
    ensures f.out.Done? ==> Conforms(f.out.v, ty)
  {
    if r.out.Done? then r.(out := Done(Fit(r.out.v, ty))) else r
  }

  /** What a probe compares: the two readings with the language's own `==`. */
  predicate SameReading(original: Res<Value>, mutated: Res<Value>) {
    original.out.Done? && mutated.out.Done? ==> Compare(original.out.v, mutated.out.v) == Equal
  }

  /** The state in which a callee starts. */
  function Entry(params: seq<string>, vs: seq<Value>, st: State): State
    requires |params| == |vs|
  {
    State(map i | 0 <= i < |params| && params[i] !in params[..i] :: params[i] := vs[i], st.heap, st.tick + 1)
  }

  /** Evaluates operands from left to right. */
  ghost function EvalAll(c: Context, es: seq<Expr>, s: State, fuel: nat, inside: bool): (r: Res<seq<Value>>)
    ensures r.out.Done? ==> |r.out.v| == |es|
    decreases fuel, if inside then 0 else 1, es
  {
    if es == [] then Res(Done([]), s, {})
    else
      var a := Eval(c, es[0], s, fuel, inside);
      if !a.out.Done? then Fail(a)
      else
        var r := EvalAll(c, es[1..], a.st, fuel, inside);
        if !r.out.Done? then Through(r, a.ev) else Res(Done([a.out.v] + r.out.v), r.st, a.ev + r.ev)
  }

  /** The condition a gate evaluates. */
  function GateCondition(c: Context, id: nat, cond: Expr): Expr {
    if c.live && c.edit.gate && id == c.edit.id && cond == c.edit.from then c.edit.to else cond
  }

  function Stop<T>(r: Res<T>): Ran
    requires !r.out.Done?
  {
    Ran(if r.out.Panic? then Died else OutOfFuel, r.st, r.ev)
  }

  function Also(r: Ran, ev: set<Event>): Ran { r.(ev := ev + r.ev) }

  function AssignOp(tok: AssignTok): Option<BinOp> {
    match tok
    case AddAssign => Some(Add)
    case SubAssign => Some(Sub)
    case OtherAssign(op) => Some(op)
    case _ => None
  }

  /** The plain assignment an assignment operation stands for. */
  function Assigned(name: string, tok: AssignTok, e: Expr, ty: Type): Expr {
    if AssignOp(tok).None? then e else Binary(AssignOp(tok).value, Ident(name, ty), e, ty, None)
  }

  // ----- assignments

  function Declare(s: State, x: string, v: Value): State { s.(vars := s.vars[x := v]) }

  /** A name that is not a variable of the function is a package variable. */
  function Bind(s: State, x: string, v: Value): State {
    if x in s.vars then Declare(s, x, v) else s.(heap := s.heap[Global(x) := v])
  }

  function Held(s: State, x: string): Value {
    if x in s.vars then s.vars[x] else Load(Global(x), s.heap, TTypeParam)
  }

  /** The variable that an assignment changes a part of, when no pointer, slice or map lies on the way to the part. */
  function Root(target: Expr): Option<string> {
    match target
    case Ident(x, _) => Some(x)
    case Paren(x) => Root(x)
    case Field(x, _, sel, _) => if sel.Direct? then Root(x) else None
    case Index(x, _, _) => if TypeOf(x).TArray? then Root(x) else None
    case _ => None
  }

  /** What an assignment evaluates of its target before it assigns. */
  function Operands(target: Expr): seq<Expr> {
    match target
    case Ident(_, _) => []
    case Paren(x) => Operands(x)
    case Field(x, _, sel, _) => if sel.Direct? then Operands(x) else [x]
    case Index(x, i, _) => if TypeOf(x).TArray? then Operands(x) + [i] else [x, i]
    case Star(x, _) => [x]
    case _ => [target]
  }

  function ElementOf(v: Value, k: Value, ty: Type): Option<Value> {
    if v.Array? && k.Int? && 0 <= k.i < |v.elems| then Some(Fit(v.elems[k.i], ty)) else None
  }

  /** The part of a variable's value that the target names; `at` holds the indices on the way to it. */
  function Part(target: Expr, whole: Value, at: seq<Value>): Option<Value>
    requires Root(target).Some? && |at| == |Operands(target)|
  {
    match target
    case Ident(_, ty) => Some(Fit(whole, ty))
    case Paren(x) => Part(x, whole, at)
    case Field(x, k, _, ty) =>
      var v := Part(x, whole, at);
      if v.None? then None else Some(FieldOf(v.value, k, ty))
    case Index(x, _, ty) =>
      var v := Part(x, whole, at[..|at| - 1]);
      if v.None? then None else ElementOf(v.value, at[|at| - 1], ty)
  }

  /** The variable's value with that part replaced, unless an index is out of range. */
  function Replaced(target: Expr, whole: Value, at: seq<Value>, v: Value): Option<Value>
    requires Root(target).Some? && |at| == |Operands(target)|
  {
    match target
    case Ident(_, ty) => Some(Fit(v, ty))
    case Paren(x) => Replaced(x, whole, at, v)
    case Field(x, k, _, ty) =>
      var was := Part(x, whole, at);
      if was.None? || !was.value.Struct? || k >= |was.value.fields| then None
      else Replaced(x, whole, at, Struct(was.value.fields[k := Fit(v, ty)]))
    case Index(x, _, ty) =>
      var was, k := Part(x, whole, at[..|at| - 1]), at[|at| - 1];
      if was.None? || ElementOf(was.value, k, ty).None? then None
      else Replaced(x, whole, at[..|at| - 1], Array(was.value.elems[k.i := Fit(v, ty)]))
  }

  /** Assigns the last of the values in `r` to the target, whose operands are the others. */
  function Stored(w: World, target: Expr, r: Res<seq<Value>>): (ran: Ran)
    requires r.out.Done? && |r.out.v| == |Operands(target)| + 1
    ensures ran.ev == r.ev && (ran.flow.Normal? || ran.flow.Died?)
  {
    var n := |Operands(target)|;
    var at, v := r.out.v[..n], r.out.v[n];
    if Root(target).Some? then
      var whole := Replaced(target, Held(r.st, Root(target).value), at, v);
      if whole.None? then Ran(Died, r.st, r.ev) else Ran(Normal, Bind(r.st, Root(target).value, whole.value), r.ev)
    else
      var heap := w.store(target, at, v, r.st.heap);
      if heap.None? then Ran(Died, r.st, r.ev) else Ran(Normal, r.st.(heap := heap.value), r.ev)
  }

  /** Runs one statement. */
  ghost function Run(c: Context, stmt: Stmt, st0: State, fuel: nat): Ran
    decreases fuel, 2, stmt, if stmt.Switch? then |stmt.clauses| + 1 else 1
  {
    var s := st0.(tick := st0.tick + 1);
    match stmt
    case ExprStmt(e) =>
      var r := Eval(c, e, s, fuel, false);
      if !r.out.Done? then Stop(r) else Ran(Normal, r.st, r.ev)
    case Assign(x, tok, e, ty) =>
      var r := Eval(c, Assigned(x, tok, e, ty), s, fuel, false);
      if !r.out.Done? then Stop(r)
      else Ran(Normal, if tok.Define? then Declare(r.st, x, Fit(r.out.v, ty)) else Bind(r.st, x, Fit(r.out.v, ty)), r.ev)
    case IncDec(x, inc, ty) =>
      var r := Eval(c, Ident(x, ty), s, fuel, false);
      var v := if r.out.v.Int? then Int(if inc then r.out.v.i + 1 else r.out.v.i - 1) else r.out.v;
      Ran(Normal, Bind(r.st, x, Fit(v, ty)), r.ev)
    case Store(target, e) =>
      var r := EvalAll(c, Operands(target) + [e], s, fuel, false);
      if !r.out.Done? then Stop(r) else Stored(c.world, target, r)
    case Block(body) => RunBlock(c, body, s, fuel)
    case If(id, cond, thn, els) =>
      var r := Eval(c, GateCondition(c, id, cond), s, fuel, false);
      if !r.out.Done? then Stop(r)
      else if IsTrue(r.out.v) then Also(RunBlock(c, thn, r.st, fuel), r.ev + {Entered(id)})
      else Also(RunBlock(c, els, r.st, fuel), r.ev)
    case For(id, test, post, body) =>
      if fuel == 0 then Ran(OutOfFuel, s, {})
      else
        var it := Iterate(c, stmt, s, fuel);
        if it.flow.Normal? then Also(Run(c, stmt, it.st, fuel - 1), it.ev)
        else if it.flow.Broke? then it.(flow := Normal)
        else it
    case Switch(tag, clauses, dflt) =>
      var r := if tag.None? then Res(Done(Bool(true)), s, {}) else Eval(c, tag.value, s, fuel, false);
      if !r.out.Done? then Stop(r) else EndSwitch(Also(RunClauses(c, stmt, 0, r.out.v, r.st, fuel), r.ev))
    case Return(results) =>
      var r := EvalAll(c, results, s, fuel, false);
      if !r.out.Done? then Stop(r) else Ran(Returned(r.out.v), r.st, r.ev)
    case Break => Ran(Broke, s, {})
    case Continue => Ran(Continued, s, {})
  }

  /** One turn of a loop: the exit test, the body, the post statement. The flow is `Normal` when the loop is back
      at its head, `Broke` when it is over, and anything else leaves it. */
  ghost function Iterate(c: Context, loop: Stmt, s: State, fuel: nat): Ran
    requires loop.For?
    decreases fuel, 2, loop, 0
  {
    var r := if loop.test.None? then Res(Done(Bool(true)), s, {})
             else Eval(c, GateCondition(c, loop.id, loop.test.value), s, fuel, false);
    if !r.out.Done? then Stop(r)
    else if !IsTrue(r.out.v) then Ran(Broke, r.st, r.ev)
    else
      var body := Also(RunBlock(c, loop.body, r.st, fuel), r.ev + {Entered(loop.id)});
      if !body.flow.Normal? && !body.flow.Continued? then body
      else if loop.post.None? then body.(flow := Normal)
      else Also(Run(c, loop.post.value, body.st, fuel), body.ev)
  }

  /** `break` leaves the innermost switch. */
  function EndSwitch(r: Ran): Ran { if r.flow.Broke? then r.(flow := Normal) else r }

  ghost function RunBlock(c: Context, body: seq<Stmt>, s: State, fuel: nat): Ran
    decreases fuel, 2, body
  {
    if body == [] then Ran(Normal, s, {})
    else
      var r := Run(c, body[0], s, fuel);
      if r.flow.Normal? then Also(RunBlock(c, body[1..], r.st, fuel), r.ev) else r
  }

  /** The first clause with a matching label runs; without a tag a label matches when it is true. */
  ghost function RunClauses(c: Context, sw: Stmt, k: nat, tag: Value, s: State, fuel: nat): Ran
    requires sw.Switch? && k <= |sw.clauses|
    decreases fuel, 2, sw, |sw.clauses| - k
  {
    if k == |sw.clauses| then RunBlock(c, sw.dflt, s, fuel)
    else
      var clause := sw.clauses[k];
      var r := Matches(c, clause.id, clause.labels, tag, s, fuel);
      if !r.out.Done? then Stop(r)
      else if IsTrue(r.out.v) then Also(RunBlock(c, clause.body, r.st, fuel), r.ev + {Entered(clause.id)})
      else Also(RunClauses(c, sw, k + 1, tag, r.st, fuel), r.ev)
  }

  ghost function Matches(c: Context, id: nat, labels: seq<Expr>, tag: Value, s: State, fuel: nat): Res<Value>
    decreases fuel, 2, labels
  {
    if labels == [] then Res(Done(Bool(false)), s, {})
    else
      var r := Eval(c, GateCondition(c, id, labels[0]), s, fuel, false);
      if !r.out.Done? then r
      else if Compare(tag, r.out.v) == Panics then r.(out := Panic)
      else if Compare(tag, r.out.v) == Equal then r.(out := Done(Bool(true)))
      else Through(Matches(c, id, labels[1..], tag, r.st, fuel), r.ev)
  }
}
