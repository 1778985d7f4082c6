/** The infection probes of discovery (internal/discover/guard.go): an expression is read twice, as it stands and as a
    mutant would have it. */
module Probe {
  import opened GoValues
  import opened GoProgram
  import opened Purity
  import opened Rules
  import opened EditRuns
  import opened Wrappers

  // ----- positions in a syntax tree

  function Children(e: Expr): seq<Expr> {
    match e
    case Ident(_, _) | Lit(_, _) | FuncLit(_) | PkgName(_, _, _) => []
    case Index(x, i, _) => [x, i]
    case SliceOf(x, bounds, _) => [x] + bounds
    case Binary(_, x, y, _, _) => [x, y]
    case Composite(keys, values, _, _) => keys + values
    case CallBuiltin(_, args, _, _) => args
    case Call(_, args, _) => args
    case Paren(x) => [x]
    case Site(_, x) => [x]
    case Field(x, _, _, _) => [x]
    case Star(x, _) => [x]
    case TypeAssert(x, _) => [x]
    case Unary(_, x, _, _) => [x]
    case Convert(_, x) => [x]
  }

  /** `e` with another child. A right operand brings its constant value along. */
  function WithChild(e: Expr, k: nat, c: Expr, now: Option<Value>): Expr
    requires k < |Children(e)|
  {
    match e
    case Ident(_, _) | Lit(_, _) | FuncLit(_) | PkgName(_, _, _) => e
    case Paren(_) => Paren(c)
    case Site(id, _) => Site(id, c)
    case Field(_, index, sel, ty) => Field(c, index, sel, ty)
    case Star(_, ty) => Star(c, ty)
    case TypeAssert(_, to) => TypeAssert(c, to)
    case Unary(uop, _, ty, site) => Unary(uop, c, ty, site)
    case Convert(to, _) => Convert(to, c)
    case Index(x, i, ty) => if k == 0 then Index(c, i, ty) else Index(x, c, ty)
    case SliceOf(x, bounds, ty) => if k == 0 then SliceOf(c, bounds, ty) else SliceOf(x, bounds[k - 1 := c], ty)
    case Binary(op, x, y, ty, constant) =>
      if k == 0 then Binary(op, c, y, ty, constant) else Binary(op, x, c, ty, now)
    case Composite(keys, values, ty, site) =>
      if k < |keys| then Composite(keys[k := c], values, ty, site)
      else Composite(keys, values[k - |keys| := c], ty, site)
    case CallBuiltin(b, args, ty, site) => CallBuiltin(b, args[k := c], ty, site)
    case Call(fn, args, ty) => Call(fn, args[k := c], ty)
  }

  /** One step up: the parent, which of its children we came from, and that child's constant value in the
      mutant if it is a right operand. */
  datatype Frame = Frame(parent: Expr, k: nat, now: Option<Value>)
  {
    predicate Valid() { k < |Children(parent)| }

    /** The mutant compiles: an edited constant is still one, and a constant integer divisor is not zero. */
    predicate Compiles() {
      parent.Binary? && k == 1 ==>
        && (parent.constant.Some? ==> now.Some?)
        && (parent.op.Dividing() && now.Some? ==> now.value != Int(0))
    }
  }

  /** How the outermost expression is used: its value dropped, assigned to, or read. */
  datatype Slot = Discarded | Target | Used

  /** Where an expression stands: the expressions above it, and the statement they belong to. */
  datatype Place = Place(frames: seq<Frame>, slot: Slot, operands: seq<Expr>)

  function NodeAt(anchor: Expr, frames: seq<Frame>, level: nat): Expr
    requires level <= |frames|
  {
    if level == 0 then anchor else frames[level - 1].parent
  }

  predicate Chain(anchor: Expr, frames: seq<Frame>) {
    forall i :: 0 <= i < |frames| ==> frames[i].Valid() && Children(frames[i].parent)[frames[i].k] == NodeAt(anchor, frames, i)
  }

  /** The outermost expression, with the anchor replaced. */
  function Mutated(to: Expr, frames: seq<Frame>): Expr
    requires forall i :: 0 <= i < |frames| ==> frames[i].Valid()
  {
    if frames == [] then to
    else
      var last := frames[|frames| - 1];
      assert last.Valid();
      WithChild(last.parent, last.k, Mutated(to, frames[..|frames| - 1]), last.now)
  }

  // ----- what an edit may bring in

  /** The replacement brings in a division that may panic. */
  predicate IntroducesPanic(rule: Rule, anchor: Expr) {
    && rule.SwapOperator? && Replacement(rule, anchor).Some? && Replacement(rule, anchor).value.op.Dividing()
    && !TypeOf(anchor).Floating()
    && (anchor.constant.None? || ZeroConstant(anchor.constant.value))
  }

  /** What the type checker knows of an anchor: arithmetic has its operands' type, `!` yields a bool, and a returned
      operand needs no conversion to the declared result type. */
  predicate WellTyped(rule: Rule, anchor: Expr) {
    && (anchor.Binary? && anchor.op.Mul? ==> anchor.ty == TypeOf(anchor.x) == TypeOf(anchor.y))
    && (anchor.Binary? && anchor.constant.Some? ==> Conforms(anchor.constant.value, TypeOf(anchor.y)))
    && (anchor.Unary? && anchor.uop.Not? ==> anchor.ty == TBool)
    && (rule.ReturnConstant? || rule.ReturnEmpty? ==> rule.declared == TypeOf(anchor))
  }

  // ----- where a probe is attached

  /** What the model takes from the type checker: which types are predeclared bools, and which can be spelled. */
  datatype Facts = Facts(predeclared: Expr -> bool, nameable: Type -> bool)

  predicate InertContext(place: Place) { forall e :: e in place.operands ==> EffectFree(e) }

  predicate Wrappable(place: Place, level: nat)
    requires level <= |place.frames|
  {
    if level == |place.frames| then place.slot.Used?
    else
      var f := place.frames[level];
      && !(f.parent.Unary? && f.parent.uop.AddressOf?)
      && (f.parent.Composite? && f.k < |f.parent.keys| ==> f.parent.ty.TMap?)
  }

  predicate ValueSite(anchor: Expr, place: Place, facts: Facts, level: nat)
    requires level <= |place.frames|
  {
    var e := NodeAt(anchor, place.frames, level);
    && Wrappable(place, level)
    && ComparesWithoutPanic(TypeOf(e)) && !TypeOf(e).Floating()
    && InertContext(place) && PanicFree(e)
    && facts.nameable(TypeOf(e))
  }

  predicate BoolSite(anchor: Expr, place: Place, facts: Facts, level: nat)
    requires level <= |place.frames|
  {
    var e := NodeAt(anchor, place.frames, level);
    facts.predeclared(e) && TypeOf(e).TBool? && Wrappable(place, level)
  }

  /** Where a value probe may stand: the value is read, by nothing that takes its address or names a field, it has a basic type that
      is not floating or is a pointer or a channel, the type can be spelled, reading it twice cannot panic, and nothing in its
      statement has an effect. The level does not matter. */
  lemma ValueSiteExact(anchor: Expr, place: Place, facts: Facts, level: nat)
    requires level <= |place.frames|
    ensures var e := NodeAt(anchor, place.frames, level);
            ValueSite(anchor, place, facts, level)
            <==> && (if level == |place.frames| then place.slot == Used
                     else var f := place.frames[level];
                          !(f.parent.Unary? && f.parent.uop == AddressOf)
                          && !(f.parent.Composite? && !f.parent.ty.TMap? && f.k < |f.parent.keys|))
                 && (var t := TypeOf(e); t.TBool? || t.TString? || t.TInt? || t.TUntypedNil? || t.TPointer? || t.TChan?)
                 && facts.nameable(TypeOf(e)) && PanicFree(e) && forall x :: x in place.operands ==> EffectFree(x)
    ensures var e := NodeAt(anchor, place.frames, level);
            BoolSite(anchor, place, facts, level)
            <==> && (if level == |place.frames| then place.slot == Used
                     else var f := place.frames[level];
                          !(f.parent.Unary? && f.parent.uop == AddressOf)
                          && !(f.parent.Composite? && !f.parent.ty.TMap? && f.k < |f.parent.keys|))
                 && TypeOf(e).TBool? && facts.predeclared(e)
  {
    hide PanicFree, EffectFree;
  }

  predicate NearestBool(anchor: Expr, place: Place, facts: Facts, level: nat) {
    level <= |place.frames| && BoolSite(anchor, place, facts, level)
    && forall j: nat :: j < level ==> !BoolSite(anchor, place, facts, j)
  }

  /** The nearest predeclared bool can be read twice. */
  predicate BoolProbed(anchor: Expr, place: Place, facts: Facts, level: nat) {
    NearestBool(anchor, place, facts, level) && InertContext(place) && PanicFree(NodeAt(anchor, place.frames, level))
  }

  predicate NearestValue(anchor: Expr, place: Place, facts: Facts, level: nat) {
    level <= |place.frames| && ValueSite(anchor, place, facts, level)
    && forall j: nat :: j < level ==> !ValueSite(anchor, place, facts, j)
  }

  /** The nearest expression that can carry a value probe. */
  method ValueProbe(anchor: Expr, place: Place, facts: Facts) returns (r: Option<nat>)
    ensures r.Some? ==> NearestValue(anchor, place, facts, r.value)
    ensures forall j: nat :: j <= |place.frames| && (r.Some? ==> j < r.value) ==> !ValueSite(anchor, place, facts, j)
  {
    var level := 0;
    while level <= |place.frames|
      invariant level <= |place.frames| + 1
      invariant forall j: nat :: j < level ==> !ValueSite(anchor, place, facts, j)
    {
      if ValueSite(anchor, place, facts, level) { return Some(level); }
      level := level + 1;
    }
    r := None;
  }

  /** The nearest predeclared bool, and whether it can carry a bool probe. */
  method BoolProbe(anchor: Expr, place: Place, facts: Facts) returns (r: Option<nat>)
    ensures r.Some? ==> BoolProbed(anchor, place, facts, r.value)
    ensures r.None? ==> forall j: nat :: !BoolProbed(anchor, place, facts, j)
  {
    var level := 0;
    while level <= |place.frames|
      invariant level <= |place.frames| + 1
      invariant forall j: nat :: j < level ==> !BoolSite(anchor, place, facts, j)
    {
      if BoolSite(anchor, place, facts, level) {
        if !InertContext(place) || !PanicFree(NodeAt(anchor, place.frames, level)) { return None; }
        return Some(level);
      }
      level := level + 1;
    }
    r := None;
  }

  /** What every attached probe satisfies, whichever search found its expression. */
  predicate Probed(rule: Rule, anchor: Expr, place: Place, level: nat) {
    && level <= |place.frames|
    && !IntroducesPanic(rule, anchor)
    && var e := NodeAt(anchor, place.frames, level);
       InertContext(place) && PanicFree(e) && ComparesWithoutPanic(TypeOf(e)) && !TypeOf(e).Floating()
  }

  /** The probe of an edit of an expression: the bool probe if there is one, or else the value probe, and neither when the
      replacement would bring in a panic. */
  method EmitProbe(rule: Rule, anchor: Expr, place: Place, facts: Facts) returns (r: Option<nat>)
    ensures r.Some? ==> Probed(rule, anchor, place, r.value)
    ensures IntroducesPanic(rule, anchor) ==> r.None?
    ensures !IntroducesPanic(rule, anchor) ==> forall j: nat :: BoolProbed(anchor, place, facts, j) ==> r == Some(j)
    ensures !IntroducesPanic(rule, anchor) && (forall j: nat :: !BoolProbed(anchor, place, facts, j)) ==>
              forall j: nat :: NearestValue(anchor, place, facts, j) <==> r == Some(j)
    ensures r.None? && !IntroducesPanic(rule, anchor) ==>
              forall j: nat :: j <= |place.frames| ==> !ValueSite(anchor, place, facts, j)
  {
    r := BoolProbe(anchor, place, facts);
    if r.None? { r := ValueProbe(anchor, place, facts); }
    if IntroducesPanic(rule, anchor) { r := None; }
  }

  // ----- the grammar is closed under edits

  lemma SafeChild(e: Expr, k: nat)
    requires Safe(e) && k < |Children(e)|
    ensures Safe(Children(e)[k])
  {
    var x := Children(e)[k];
    if e.Composite? {
      if k < |e.keys| { assert x in e.keys; } else { assert x == e.values[k - |e.keys|]; }
    } else if e.CallBuiltin? {
      assert x in e.args;
    }
  }

  lemma SafeWithChild(e: Expr, f: Frame, x: Expr)
    requires e == f.parent && Safe(e) && f.Valid() && f.Compiles()
    requires Safe(x) && TypeOf(x) == TypeOf(Children(e)[f.k])
    ensures Safe(WithChild(e, f.k, x, f.now)) && TypeOf(WithChild(e, f.k, x, f.now)) == TypeOf(e)
  {
    if e.Composite? || e.CallBuiltin? { SafeWithElement(e, f.k, x, f.now); }
    else if e.Binary? { SafeWithOperand(e, f, x); }
  }

  lemma SafeWithOperand(e: Expr, f: Frame, x: Expr)
    requires e == f.parent && Safe(e) && e.Binary? && f.Valid() && f.Compiles()
    requires Safe(x) && TypeOf(x) == TypeOf(Children(e)[f.k])
    ensures Safe(WithChild(e, f.k, x, f.now))
  {
    assert SafeOperator(e.op, TypeOf(e.x), TypeOf(e.y), e.constant);
    if f.k == 1 { assert SafeOperator(e.op, TypeOf(e.x), TypeOf(x), f.now); }
  }

  lemma SafeWithElement(e: Expr, k: nat, x: Expr, now: Option<Value>)
    requires (e.Composite? || e.CallBuiltin?) && Safe(e) && Safe(x) && k < |Children(e)|
    ensures Safe(WithChild(e, k, x, now))
  {
    if e.CallBuiltin? {
      forall a | a in e.args[k := x] ensures Safe(a) { assert a == x || a in e.args; }
    } else if k < |e.keys| {
      forall a | a in e.keys[k := x] ensures Safe(a) { assert a == x || a in e.keys; }
    } else {
      forall a | a in e.values[k - |e.keys| := x] ensures Safe(a) { assert a == x || a in e.values; }
    }
  }

  /** A replacement is as safe as what it replaces, unless it introduces a panic. */
  lemma ReplacementIsSafe(rule: Rule, anchor: Expr)
    requires Replacement(rule, anchor).Some? && WellTyped(rule, anchor) && Safe(anchor)
    requires !IntroducesPanic(rule, anchor)
    ensures Safe(Replacement(rule, anchor).value) && TypeOf(Replacement(rule, anchor).value) == TypeOf(anchor)
  {
    if rule.SwapOperator? {
      var to := Replacement(rule, anchor).value;
      assert SafeOperator(anchor.op, TypeOf(anchor.x), TypeOf(anchor.y), anchor.constant);
      assert SafeOperator(to.op, TypeOf(anchor.x), TypeOf(anchor.y), anchor.constant);
    }
  }

  lemma {:induction false} MutatedIsSafe(anchor: Expr, to: Expr, frames: seq<Frame>)
    requires Chain(anchor, frames) && Safe(NodeAt(anchor, frames, |frames|))
    requires forall f :: f in frames ==> f.Compiles()
    requires Safe(anchor) ==> Safe(to) && TypeOf(to) == TypeOf(anchor)
    ensures (forall i :: 0 <= i < |frames| ==> frames[i].Valid()) && Safe(Mutated(to, frames))
    ensures TypeOf(Mutated(to, frames)) == TypeOf(NodeAt(anchor, frames, |frames|))
  {
    hide Safe, TypeOf, Children, WithChild, Frame.Compiles;
    if frames != [] {
      var below, last := frames[..|frames| - 1], frames[|frames| - 1];
      ChainBelow(anchor, frames);
      SafeChild(last.parent, last.k);
      MutatedIsSafe(anchor, to, below);
      SafeWithChild(last.parent, last, Mutated(to, below));
    }
  }

  lemma ChainBelow(anchor: Expr, frames: seq<Frame>)
    requires Chain(anchor, frames) && frames != []
    ensures frames[|frames| - 1].Valid()
    ensures var last := frames[|frames| - 1];
            Children(last.parent)[last.k] == NodeAt(anchor, frames[..|frames| - 1], |frames| - 1)
    ensures Chain(anchor, frames[..|frames| - 1]) && forall i :: 0 <= i < |frames| ==> frames[i].Valid()
  {
    hide Children;
  }

  // ----- equal readings are the same value

  lemma EqualReadingsAreSame(v: Value, q: Value, t: Type)
    requires Conforms(v, t) && ComparesWithoutPanic(t) && !t.Floating() && Compare(v, q) == Equal
    ensures v == q
  {
  }

  /** Floats are kept out because of negative zero, and nothing else has to be: among the types a probe may
      compare, `==` means sameness exactly on the non-floating ones. */
  lemma SamenessExact(t: Type)
    requires ComparesWithoutPanic(t)
    ensures (forall v, q :: Conforms(v, t) && Conforms(q, t) && Compare(v, q) == Equal ==> v == q) <==> !t.Floating()
  {
    hide Conforms, Compare;
    if t.Floating() {
      FloatsDiffer(t);
    } else {
      forall v, q | Conforms(v, t) && Conforms(q, t) && Compare(v, q) == Equal ensures v == q { EqualReadingsAreSame(v, q, t); }
    }
  }

  lemma FloatsDiffer(t: Type)
    requires t.Floating()
    ensures exists v, q :: Conforms(v, t) && Conforms(q, t) && Compare(v, q) == Equal && v != q
  {
    var z, n := Number(0.0), NegativeZero;
    var v := if t.TFloat? then Flt(z) else Cpx(z, z);
    var q := if t.TFloat? then Flt(n) else Cpx(n, z);
    assert Conforms(v, t) && Conforms(q, t) && Compare(v, q) == Equal && v != q;
  }

  // ----- main result

  /** What a mutant does to the expression `level` levels above its anchor. */
  function ProbeEdit(id: nat, rule: Rule, anchor: Expr, place: Place, level: nat): Edit
    requires level <= |place.frames| && Chain(anchor, place.frames) && Replacement(rule, anchor).Some?
  {
    Edit(false, id, NodeAt(anchor, place.frames, level),
         Mutated(Replacement(rule, anchor).value, place.frames[..level]))
  }

  /** Take any run of any program in which the probe never reports a difference: the mutant's run has the same outcome
      and the same final state. */
  lemma ProbeSound(c: Context, rule: Rule, anchor: Expr, place: Place, level: nat, body: seq<Stmt>, s: State, fuel: nat)
    requires Probed(rule, anchor, place, level)
    requires Chain(anchor, place.frames) && Replacement(rule, anchor).Some? && WellTyped(rule, anchor)
    requires ConversionsResolved(NodeAt(anchor, place.frames, level))
    requires forall f :: f in place.frames[..level] ==> f.Compiles()
    requires !c.live && !c.edit.gate && c.edit == ProbeEdit(c.edit.id, rule, anchor, place, level)
    requires Differs(c.edit.id) !in RunBlock(c, body, s, fuel).ev
    ensures SameRun(RunBlock(c, body, s, fuel), RunBlock(Live(c), body, s, fuel))
  {
    hide Safe, PanicFree, ConversionsResolved, RunBlock, Eval, Replacement, WellTyped, Chain;
    ProbeEditIsSafe(c.edit.id, rule, anchor, place, level);
    forall t: State, n: nat ensures SiteAt(c, t, n) { SafeSite(c, t, n); }
    SiteIsTagged(c);
    RunBlockAgrees(c, body, s, fuel);
  }

  lemma ChainPrefix(anchor: Expr, frames: seq<Frame>, level: nat)
    requires Chain(anchor, frames) && level <= |frames|
    ensures Chain(anchor, frames[..level])
  {
    hide Children;
    forall i | 0 <= i < level ensures NodeAt(anchor, frames[..level], i) == NodeAt(anchor, frames, i) {}
  }

  lemma ProbeEditIsSafe(id: nat, rule: Rule, anchor: Expr, place: Place, level: nat)
    requires Probed(rule, anchor, place, level)
    requires Chain(anchor, place.frames) && Replacement(rule, anchor).Some? && WellTyped(rule, anchor)
    requires ConversionsResolved(NodeAt(anchor, place.frames, level))
    requires forall f :: f in place.frames[..level] ==> f.Compiles()
    ensures var edit := ProbeEdit(id, rule, anchor, place, level);
            Safe(edit.from) && Safe(edit.to) && TypeOf(edit.to) == TypeOf(edit.from)
  {
    hide Safe, PanicFree, ConversionsResolved, Mutated, Replacement, TypeOf, Children, Frame.Compiles, WellTyped,
         IntroducesPanic, InertContext, ComparesWithoutPanic;
    var frames := place.frames[..level];
    var w := NodeAt(anchor, place.frames, level);
    assert NodeAt(anchor, frames, |frames|) == w;
    assert Chain(anchor, frames) by { ChainPrefix(anchor, place.frames, level); }
    PanicFreeIsSafe(w);
    if Safe(anchor) { ReplacementIsSafe(rule, anchor); }
    MutatedIsSafe(anchor, Replacement(rule, anchor).value, frames);
  }

  lemma SafeSite(c: Context, s: State, fuel: nat)
    requires !c.live && !c.edit.gate && Safe(c.edit.from) && Safe(c.edit.to)
    requires ComparesWithoutPanic(TypeOf(c.edit.from)) && !TypeOf(c.edit.from).Floating()
    requires TypeOf(c.edit.to) == TypeOf(c.edit.from)
    ensures SiteAt(c, s, fuel)
  {
    hide Safe, Eval, Compare, TypeOf;
    SafeYieldsValue(c, c.edit.from, s, fuel, false);
    SafeYieldsValue(c, c.edit.to, s, fuel, true);
    EvalConforms(c, c.edit.from, s, fuel, false);
    EvalConforms(c, c.edit.to, s, fuel, true);
    var r, q := Eval(c, c.edit.from, s, fuel, false), Eval(c, c.edit.to, s, fuel, true);
    if SameReading(r, q) { EqualReadingsAreSame(r.out.v, q.out.v, TypeOf(c.edit.from)); }
  }

  // ----- probes on returned operands

  predicate MentionsTypeParam(t: Type) {
    match t
    case TTypeParam => true
    case TPointer(e) => MentionsTypeParam(e)
    case TSlice(e) => MentionsTypeParam(e)
    case TArray(_, e) => MentionsTypeParam(e)
    case TMap(k) => MentionsTypeParam(k)
    case TStruct(fs) => exists i :: 0 <= i < |fs| && MentionsTypeParam(fs[i])
    case _ => false
  }

  /** The types a type is built from, itself included. */
  ghost predicate PartOf(p: Type, t: Type) {
    p == t
    || match t
       case TPointer(e) => PartOf(p, e)
       case TSlice(e) => PartOf(p, e)
       case TArray(_, e) => PartOf(p, e)
       case TMap(k) => PartOf(p, k)
       case TStruct(fs) => exists i :: 0 <= i < |fs| && PartOf(p, fs[i])
       case _ => false
  }

  lemma {:induction false} MentionsExact(t: Type)
    ensures MentionsTypeParam(t) <==> PartOf(TTypeParam, t)
    decreases t
  {
    match t
    case TPointer(e) => MentionsExact(e);
    case TSlice(e) => MentionsExact(e);
    case TArray(_, e) => MentionsExact(e);
    case TMap(k) => MentionsExact(k);
    case TStruct(fs) => forall i | 0 <= i < |fs| ensures MentionsTypeParam(fs[i]) <==> PartOf(TTypeParam, fs[i]) { MentionsExact(fs[i]); }
    case _ =>
  }

  /** The operand as the result it becomes. */
  function Returned(x: Expr, declared: Type): Expr {
    if TypeOf(x) == declared then x else Convert(declared, x)
  }

  /** The probe that a return statement attaches to operand `i`. */
  predicate ReturnProbed(results: seq<Expr>, declared: seq<Type>, facts: Facts, i: nat) {
    && i < |results| == |declared|
    && (forall e :: e in results ==> EffectFree(e))
    && (forall t :: t in declared ==> !MentionsTypeParam(t) && facts.nameable(t))
    && !declared[i].Floating() && PanicFree(results[i])
  }

  method ProbeResults(results: seq<Expr>, declared: seq<Type>, facts: Facts) returns (probed: seq<bool>)
    ensures |probed| == |results|
    ensures forall i :: 0 <= i < |results| ==> probed[i] == ReturnProbed(results, declared, facts, i)
    ensures forall i :: 0 <= i < |results| ==>
              (probed[i] <==> && |results| == |declared| && (forall e :: e in results ==> EffectFree(e))
                              && (forall t :: t in declared ==> !MentionsTypeParam(t) && facts.nameable(t))
                              && PanicFree(results[i]) && !declared[i].TFloat? && !declared[i].TComplex?)
  {
    probed := [];
    var site := |results| == |declared|;
    for i := 0 to |results|
      invariant site == (|results| == |declared| && forall j :: 0 <= j < i ==> EffectFree(results[j]))
    {
      if !EffectFree(results[i]) { site := false; }
    }
    for i := 0 to |declared|
      invariant site == (|results| == |declared| && (forall e :: e in results ==> EffectFree(e))
                         && forall j :: 0 <= j < i ==> !MentionsTypeParam(declared[j]) && facts.nameable(declared[j]))
    {
      if MentionsTypeParam(declared[i]) || !facts.nameable(declared[i]) { site := false; }
    }
    for i := 0 to |results|
      invariant |probed| == i
      invariant forall j :: 0 <= j < i ==> probed[j] == (site && !declared[j].Floating() && PanicFree(results[j]))
    {
      probed := probed + [site && !declared[i].Floating() && PanicFree(results[i])];
    }
  }

  /** The same promise for a returned operand that a mutant replaces by a constant. Here even an interface can be
      probed, because the constant it is compared with is `nil`. */
  lemma ReturnProbeSound(c: Context, results: seq<Expr>, declared: seq<Type>, facts: Facts, i: nat, v: Value,
                         body: seq<Stmt>, s: State, fuel: nat)
    requires ReturnProbed(results, declared, facts, i)
    requires Replacement(ReturnConstant(v, declared[i]), results[i]).Some?
    requires TypeOf(results[i]) == declared[i] || declared[i].TInterface?
    requires ConversionsResolved(results[i])
    requires !c.live && c.edit == Edit(false, c.edit.id, Returned(results[i], declared[i]), Lit(v, declared[i]))
    requires Differs(c.edit.id) !in RunBlock(c, body, s, fuel).ev
    ensures SameRun(RunBlock(c, body, s, fuel), RunBlock(Live(c), body, s, fuel))
  {
    hide EffectFree, RunBlock, PanicFree, ConversionsResolved, Safe, Eval, Compare, MentionsTypeParam;
    var from := c.edit.from;
    ReturnedIsSafe(results[i], declared[i]);
    LiteralIsSafe(v, declared[i]);
    forall t: State, n: nat ensures SiteAt(c, t, n) { ConstantSite(c, v, t, n); }
    SiteIsTagged(c);
    RunBlockAgrees(c, body, s, fuel);
  }

  lemma ReturnedIsSafe(x: Expr, declared: Type)
    requires PanicFree(x) && ConversionsResolved(x) && (TypeOf(x) == declared || declared.TInterface?)
    ensures Safe(Returned(x, declared)) && TypeOf(Returned(x, declared)) == declared
  {
    PanicFreeIsSafe(x);
  }

  lemma ConstantSite(c: Context, v: Value, s: State, fuel: nat)
    requires !c.live && !c.edit.gate && Safe(c.edit.from) && c.edit.to == Lit(v, TypeOf(c.edit.from))
    requires v in [Int(0), Str(""), Bool(true), Bool(false), Nil] && Conforms(v, TypeOf(c.edit.from))
    ensures SiteAt(c, s, fuel)
  {
    hide Safe, Compare, TypeOf, Conforms, Eval;
    SafeYieldsValue(c, c.edit.from, s, fuel, false);
    EvalConforms(c, c.edit.from, s, fuel, false);
    ConstantReads(c, v, TypeOf(c.edit.from), s, fuel);
    ConstantsCompare(Eval(c, c.edit.from, s, fuel, false).out.v, v);
  }

  lemma ConstantReads(c: Context, v: Value, t: Type, s: State, fuel: nat)
    requires Conforms(v, t)
    ensures Eval(c, Lit(v, t), s, fuel, true) == Res(Done(v), s, {})
  {
  }

  lemma LiteralIsSafe(v: Value, t: Type)
    ensures Safe(Lit(v, t))
  {
  }

  lemma ConstantsCompare(r: Value, v: Value)
    requires v in [Int(0), Str(""), Bool(true), Bool(false), Nil]
    ensures Compare(r, v) == Equal ==> r == v
  {
  }

  // ----- why a probe needs an inert context

  /** Effect-free operands are each read in the state in which the statement began, so the order in which a probe makes
      them read, which the language leaves open, is immaterial. */
  lemma {:induction false} EffectFreeOrder(c: Context, es: seq<Expr>, s: State, fuel: nat)
    requires (forall e :: e in es ==> EffectFree(e)) && EditEffectFree(c)
    ensures var r := EvalAll(c, es, s, fuel, false);
            && r.st == s
            && (r.out.Done? <==> forall i :: 0 <= i < |es| ==> Eval(c, es[i], s, fuel, false).out.Done?)
            && (r.out.Done? ==> forall i :: 0 <= i < |es| ==> r.out.v[i] == Eval(c, es[i], s, fuel, false).out.v)
    decreases es
  {
    hide Eval, EffectFree;
    if es != [] {
      EffectFreeKeepsState(c, es[0], s, fuel, false);
      EffectFreeOrder(c, es[1..], s, fuel);
      var a, r := Eval(c, es[0], s, fuel, false), EvalAll(c, es[1..], s, fuel, false);
      assert forall i :: 0 < i < |es| ==> es[1..][i - 1] == es[i];
      if forall i :: 0 <= i < |es| ==> Eval(c, es[i], s, fuel, false).out.Done? {
        assert forall i :: 0 <= i < |es[1..]| ==> es[1..][i] == es[i + 1];
      }
    }
  }

  // ----- where the code's conditions are exact, and where they are not

  /** Turning a product of integers into a quotient keeps it free of panics exactly when the code says so. */
  lemma IntroducesPanicExact(c: Context, bits: nat, signed: bool, constant: Option<Value>)
    requires bits > 1 && (constant.Some? ==> Conforms(constant.value, TInt(bits, signed)))
    ensures var t := TInt(bits, signed);
            var y := if constant.None? then Ident("y", t) else Lit(constant.value, t);
            var product := Binary(Mul, Ident("x", t), y, t, constant);
            (forall s: State, fuel: nat :: Eval(c, product.(op := Quo), s, fuel, true).out.Done?)
            <==> !IntroducesPanic(SwapOperator(Mul), product)
  {
    hide Eval, Replacement, Conforms, Fit;
    var t := TInt(bits, signed);
    var y := if constant.None? then Ident("y", t) else Lit(constant.value, t);
    var product := Binary(Mul, Ident("x", t), y, t, constant);
    var zero := State(map["x" := Int(0), "y" := Int(0)], map[], 0);
    forall s: State, fuel: nat
      ensures Eval(c, product.(op := Quo), s, fuel, true) == QuotientOf(c.world, t, constant, s)
    {
      QuotientReads(c, t, constant, s, fuel);
    }
    ProductSwaps(t, constant);
    ZeroFits(bits, signed);
    if constant.None? || constant.value == Int(0) {
      assert QuotientOf(c.world, t, constant, zero).out == Panic;
      assert !Eval(c, product.(op := Quo), zero, 0, true).out.Done?;
    } else {
      forall s: State, fuel: nat ensures Eval(c, product.(op := Quo), s, fuel, true).out.Done? {
        assert QuotientOf(c.world, t, constant, s).out.Done?;
      }
    }
  }

  lemma ProductSwaps(t: Type, constant: Option<Value>)
    requires t.TInt? && (constant.Some? ==> Conforms(constant.value, t))
    ensures var y := if constant.None? then Ident("y", t) else Lit(constant.value, t);
            IntroducesPanic(SwapOperator(Mul), Binary(Mul, Ident("x", t), y, t, constant))
            == (constant.None? || constant.value == Int(0))
  {
  }

  lemma ZeroFits(bits: nat, signed: bool)
    requires bits > 1
    ensures Fit(Int(0), TInt(bits, signed)) == Int(0)
  {
  }

  function QuotientOf(w: World, t: Type, constant: Option<Value>, s: State): Res<Value> {
    var Read := (x: string) => if x in s.vars then Fit(s.vars[x], t) else Load(Global(x), s.heap, t);
    if constant.Some? then Res(ApplyArithmetic(w, Quo, Read("x"), constant.value, t, true), s, {})
    else Res(ApplyArithmetic(w, Quo, Read("x"), Read("y"), t, false), s, {})
  }

  lemma QuotientReads(c: Context, t: Type, constant: Option<Value>, s: State, fuel: nat)
    ensures var y := if constant.None? then Ident("y", t) else Lit(constant.value, t);
            Eval(c, Binary(Quo, Ident("x", t), y, t, constant), s, fuel, true) == QuotientOf(c.world, t, constant, s)
  {
  }

  /** `panicFree` accepts some conversions that panic: a conversion it accepts never panics, whatever type a parameter
      is instantiated with, exactly when no slice length can be demanded of it. */
  lemma ConversionExact(c: Context, from: Type, to: Type)
    requires PanicFree(Convert(to, Ident("x", from)))
    ensures (forall n: Option<nat>, s: State, fuel: nat ::
               Eval(c.(world := c.world.(arrayBehind := n)), Convert(to, Ident("x", from)), s, fuel, true).out.Done?)
            <==> ConversionResolved(from, to)
  {
    var e := Convert(to, Ident("x", from));
    if ConversionResolved(from, to) {
      forall n: Option<nat>, s: State, fuel: nat
        ensures Eval(c.(world := c.world.(arrayBehind := n)), e, s, fuel, true).out.Done?
      {
        SafeYieldsValue(c.(world := c.world.(arrayBehind := n)), e, s, fuel, true);
      }
    } else {
      var s := State(map["x" := Slice(Global(""), 0)], map[], 0);
      ConversionPanics(c.(world := c.world.(arrayBehind := Some(1))), from, to, s);
    }
  }

  lemma ConversionPanics(c: Context, from: Type, to: Type, s: State)
    requires PanicFree(Convert(to, Ident("x", from))) && !ConversionResolved(from, to)
    requires c.world.arrayBehind == Some(1) && s.vars == map["x" := Slice(Global(""), 0)]
    ensures Eval(c, Convert(to, Ident("x", from)), s, 0, true).out.Panic?
  {
    hide PanicFree;
    ShortSlice(c, from, s);
    AcceptedTargets(from, to);
    assert Demanded(c.world, to).Some? && Demanded(c.world, to).value > 0;
  }

  lemma ShortSlice(c: Context, from: Type, s: State)
    requires (from.TSlice? || from.TTypeParam?) && s.vars == map["x" := Slice(Global(""), 0)]
    ensures Eval(c, Ident("x", from), s, 0, true) == Res(Done(Slice(Global(""), 0)), s, {})
  {
  }

  lemma AcceptedTargets(from: Type, to: Type)
    requires PanicFree(Convert(to, Ident("x", from)))
    ensures from.TSlice? ==> !to.TArray? && !to.TPointer?
  {
  }

  /** The value probe of a returned pointer or channel compares it with `nil` before it is converted to the declared
      result type. That is enough exactly when there is no conversion: a nil pointer in an interface is not nil. */
  lemma TypedNilExact(c: Context, t: Type, declared: Type, facts: Facts)
    requires (t.TPointer? || t.TChan?) && (declared == t || declared.TInterface?) && facts.nameable(t)
    requires c.world.convert(TInterface, Nil, map[]) == Iface(t, Nil)
    ensures ValueSite(Ident("p", t), Place([], Used, [Ident("p", t)]), facts, 0)
    ensures (forall s: State, fuel: nat ::
               SameReading(Eval(c, Ident("p", t), s, fuel, true), Eval(c, Lit(Nil, t), s, fuel, true)) ==>
                 Eval(c, Returned(Ident("p", t), declared), s, fuel, true).out == Done(Nil))
            <==> declared == t
  {
    hide Eval, Conforms;
    var p := Ident("p", t);
    forall s: State, fuel: nat ensures Eval(c, Lit(Nil, t), s, fuel, true) == Res(Done(Nil), s, {}) {
      NilReads(c, t, s, fuel);
    }
    if declared == t {
      forall s: State, fuel: nat
        ensures SameReading(Eval(c, p, s, fuel, true), Eval(c, Lit(Nil, t), s, fuel, true)) ==>
                  Eval(c, p, s, fuel, true).out == Done(Nil)
      {
        SafeYieldsValue(c, p, s, fuel, true);
        ConstantsCompare(Eval(c, p, s, fuel, true).out.v, Nil);
      }
    } else {
      NilPointerReads(c, t, State(map["p" := Nil], map[], 0));
    }
  }

  lemma NilReads(c: Context, t: Type, s: State, fuel: nat)
    requires t.TPointer? || t.TChan?
    ensures Eval(c, Lit(Nil, t), s, fuel, true) == Res(Done(Nil), s, {})
  {
  }

  lemma NilPointerReads(c: Context, t: Type, s: State)
    requires (t.TPointer? || t.TChan?) && s.vars == map["p" := Nil]
    requires c.world.convert(TInterface, Nil, map[]) == Iface(t, Nil)
    ensures Eval(c, Ident("p", t), s, 0, true) == Res(Done(Nil), s, {})
    ensures Eval(c, Returned(Ident("p", t), TInterface), s, 0, true).out == Done(Iface(t, Nil))
  {
  }
}
