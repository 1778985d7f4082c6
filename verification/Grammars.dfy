/** What the expression grammars leave out, they leave out for cause. Over plain variables an operator, a selection, a builtin, a
    composite literal or a conversion is admitted exactly when no state, and no meaning of what the language leaves to the run,
    makes it panic; and whatever its depth, an expression counts as free of effects exactly when nothing in it can have one.
    `Purity`, `Branch` and `Probe` show the other side, what the grammars promise of the expressions they admit. */
module Grammars {
  import opened GoValues
  import opened GoProgram
  import opened Purity
  import opened Branch
  import opened Probe
  import opened Wrappers

  /** No state makes it panic. */
  ghost predicate NeverPanics(c: Context, e: Expr) { forall s: State, fuel: nat :: Eval(c, e, s, fuel, false).out.Done? }

  lemma VariableReads(c: Context, x: string, t: Type, s: State, fuel: nat)
    ensures Eval(c, Ident(x, t), s, fuel, false).out.Done?
    ensures Eval(c, Ident(x, t), s, fuel, false).st == s
    ensures x in s.vars && Conforms(s.vars[x], t) ==> Eval(c, Ident(x, t), s, fuel, false) == Res(Done(s.vars[x]), s, {})
  {
  }

  // ----- selections

  lemma FieldReads(c: Context, e: Expr, s: State, fuel: nat, r: Res<Value>)
    requires e.Field? && r == Eval(c, e.x, s, fuel, false) && r.out.Done?
    ensures Eval(c, e, s, fuel, false) == SelectField(r, e.index, e.sel, e.ty)
  {
    hide SelectField;
  }

  /** A selection is inert, and free of panics, exactly when it goes through no pointer and no interface. */
  lemma SelectionExact(c: Context, t: Type, index: nat, sel: Selection, ty: Type)
    requires if sel.Direct? then !t.TInterface? else t.TPointer? || t.TInterface?
    ensures var e := Field(Ident("x", t), index, sel, ty);
            (Inert(e) <==> NeverPanics(c, e)) && (PanicFree(e) <==> NeverPanics(c, e))
  {
    hide Eval;
    var e := Field(Ident("x", t), index, sel, ty);
    if sel.Direct? {
      forall s: State, fuel: nat ensures Eval(c, e, s, fuel, false).out.Done? {
        VariableReads(c, "x", t, s, fuel);
        FieldReads(c, e, s, fuel, Eval(c, e.x, s, fuel, false));
      }
    } else {
      var s := State(map["x" := Nil], map[], 0);
      VariableReads(c, "x", t, s, 0);
      FieldReads(c, e, s, 0, Eval(c, e.x, s, 0, false));
    }
  }

  // ----- operators

  lemma OperatorReads(c: Context, e: Expr, s: State, fuel: nat)
    requires e.Binary? && e.x.Ident? && e.y.Ident? && e.constant.None? && !e.op.Connective()
    ensures var a, b := Eval(c, e.x, s, fuel, false).out, Eval(c, e.y, s, fuel, false).out;
            a.Done? && b.Done?
            && Eval(c, e, s, fuel, false).out
               == if e.op.Comparison() then ApplyComparison(e.op, a.v, b.v) else ApplyArithmetic(c.world, e.op, a.v, b.v, e.ty, false)
  {
    hide ApplyComparison, ApplyArithmetic;
    VariableReads(c, e.x.name, e.x.ty, s, fuel);
    VariableReads(c, e.y.name, e.y.ty, s, fuel);
  }

  /** An operator on two signed integers is inert, and free of panics, exactly when it neither divides nor shifts. */
  lemma IntegerOperatorExact(c: Context, op: BinOp, bits: nat)
    requires bits > 0 && !op.Connective()
    ensures var t := TInt(bits, true);
            var e := Binary(op, Ident("x", t), Ident("y", t), if op.Comparison() then TBool else t, None);
            && (Inert(e) <==> NeverPanics(c, e)) && (PanicFree(e) <==> NeverPanics(c, e))
            && (NeverPanics(c, e) <==> !op.Dividing() && !op.Shifting())
  {
    hide Eval;
    var t := TInt(bits, true);
    var e := Binary(op, Ident("x", t), Ident("y", t), if op.Comparison() then TBool else t, None);
    IntegerOperatorAdmitted(op, t, e.ty);
    if op.Dividing() || op.Shifting() {
      var y := if op.Dividing() then 0 else -1;
      Representable(bits, y);
      var s := State(map["x" := Int(y), "y" := Int(y)], map[], 0);
      VariableReads(c, "x", t, s, 0);
      VariableReads(c, "y", t, s, 0);
      OperatorReads(c, e, s, 0);
      assert !Eval(c, e, s, 0, false).out.Done?;
    } else {
      forall s: State, fuel: nat ensures Eval(c, e, s, fuel, false).out.Done? {
        OperatorReads(c, e, s, fuel);
        IntegersNeverPanic(c, e, s, fuel, bits);
      }
    }
  }

  lemma IntegerOperatorAdmitted(op: BinOp, t: Type, ty: Type)
    requires t.TInt? && !op.Connective()
    ensures var e := Binary(op, Ident("x", t), Ident("y", t), ty, None);
            (Inert(e) <==> !op.Dividing() && !op.Shifting()) && (PanicFree(e) <==> !op.Dividing() && !op.Shifting())
  {
  }

  lemma Representable(bits: nat, y: int)
    requires bits > 0 && (y == 0 || y == -1)
    ensures Conforms(Int(y), TInt(bits, true))
  {
    assert Pow2(bits) == 2 * Pow2(bits - 1);
  }

  lemma IntegersNeverPanic(c: Context, e: Expr, s: State, fuel: nat, bits: nat)
    requires e.Binary? && e.constant.None? && !e.op.Connective() && !e.op.Dividing() && !e.op.Shifting()
    requires var t := TInt(bits, true); e.x == Ident("x", t) && e.y == Ident("y", t)
    ensures var a, b := Eval(c, e.x, s, fuel, false).out, Eval(c, e.y, s, fuel, false).out;
            a.Done? && b.Done?
            && (if e.op.Comparison() then ApplyComparison(e.op, a.v, b.v)
                else ApplyArithmetic(c.world, e.op, a.v, b.v, e.ty, false)).Done?
  {
    hide Eval;
    VariableReads(c, "x", e.x.ty, s, fuel);
    VariableReads(c, "y", e.y.ty, s, fuel);
    EvalConforms(c, e.x, s, fuel, false);
  }

  /** Comparing two variables of a type that Go compares is inert exactly when no two values of the type panic. */
  lemma EqualityExact(c: Context, op: BinOp, t: Type)
    requires (op.Eql? || op.Neq?) && ComparableType(t) && Inhabited(t)
    ensures var e := Binary(op, Ident("x", t), Ident("y", t), TBool, None); Inert(e) <==> NeverPanics(c, e)
  {
    hide Eval, ComparableWithoutPanic, Compare;
    var e := Binary(op, Ident("x", t), Ident("y", t), TBool, None);
    ComparableExact(t);
    assert Inert(e) <==> ComparableWithoutPanic(t);
    if ComparableWithoutPanic(t) {
      forall s: State, fuel: nat ensures Eval(c, e, s, fuel, false).out.Done? {
        OperatorReads(c, e, s, fuel);
        EvalConforms(c, e.x, s, fuel, false);
        EvalConforms(c, e.y, s, fuel, false);
        var a, b := Eval(c, e.x, s, fuel, false).out.v, Eval(c, e.y, s, fuel, false).out.v;
        assert Conforms(a, t) && Conforms(b, t);
        assert Compare(a, b) != Panics;
      }
    } else {
      var x, y :| Conforms(x, t) && Conforms(y, t) && Compare(x, y) == Panics;
      var s := State(map["x" := x, "y" := y], map[], 0);
      VariableReads(c, "x", t, s, 0);
      VariableReads(c, "y", t, s, 0);
      OperatorReads(c, e, s, 0);
      assert !Eval(c, e, s, 0, false).out.Done?;
    }
  }

  ghost predicate KeepsStateAnywhere(c: Context, e: Expr) {
    forall w: World, s: State, fuel: nat :: Eval(c.(world := w), e, s, fuel, false).st == s
  }

  /** A unary operator on a variable is free of effects and of panics exactly when it is no receive; inert besides, when it takes no
      address. */
  lemma UnaryExact(c: Context, op: UnOp, t: Type, ty: Type, site: nat)
    ensures var e := Unary(op, Ident("x", t), ty, site);
            && (EffectFree(e) <==> KeepsStateAnywhere(c, e)) && (PanicFree(e) <==> KeepsStateAnywhere(c, e))
            && (Inert(e) <==> KeepsStateAnywhere(c, e) && !op.AddressOf?)
  {
    hide Eval;
    var e := Unary(op, Ident("x", t), ty, site);
    if op.Receive? {
      var w := c.world.(receive := (v: Value, heap: Heap) => (Nil, heap[Global("x") := Nil]));
      var s := State(map[], map[], 0);
      UnaryReads(c.(world := w), e, s, 0);
      assert Global("x") in Eval(c.(world := w), e, s, 0, false).st.heap;
    } else {
      forall w: World, s: State, fuel: nat ensures Eval(c.(world := w), e, s, fuel, false).st == s {
        UnaryReads(c.(world := w), e, s, fuel);
      }
    }
  }

  lemma UnaryReads(c: Context, e: Expr, s: State, fuel: nat)
    requires e.Unary? && e.x.Ident?
    ensures var r := Eval(c, e.x, s, fuel, false);
            r.out.Done? && r.st == s && Eval(c, e, s, fuel, false) == ApplyUnary(c.world, e.uop, r, e.ty, e.site)
  {
    hide ApplyUnary;
    VariableReads(c, e.x.name, e.x.ty, s, fuel);
  }

  // ----- builtins

  ghost predicate NeverPanicsAnywhere(c: Context, e: Expr) { forall w: World :: NeverPanics(c.(world := w), e) }

  /** A builtin of a variable is free of panics exactly when it panics in no state and for no meaning of the operations that the
      language leaves to the run. Inert are those of them that allocate nothing. */
  lemma BuiltinExact(c: Context, b: Builtin, t: Type, ty: Type)
    ensures var e := CallBuiltin(b, [Ident("x", t)], ty, 0);
            && (PanicFree(e) <==> NeverPanicsAnywhere(c, e))
            && (Inert(e) <==> NeverPanicsAnywhere(c, e) && !b.New?)
  {
    hide Eval;
    var e := CallBuiltin(b, [Ident("x", t)], ty, 0);
    assert e.args == [Ident("x", t)];
    if b.Make? || b.PanicCall? || b.Effectful? {
      var w := c.world.(makeable := _ => false, external := (name: string, vs: seq<Value>, heap: Heap) => (None, heap));
      BuiltinReads(c.(world := w), e, State(map[], map[], 0), 0);
      assert !NeverPanics(c.(world := w), e);
    } else {
      forall w: World ensures NeverPanics(c.(world := w), e) {
        forall s: State, fuel: nat ensures Eval(c.(world := w), e, s, fuel, false).out.Done? {
          BuiltinReads(c.(world := w), e, s, fuel);
        }
      }
    }
  }

  lemma BuiltinReads(c: Context, e: Expr, s: State, fuel: nat)
    requires e.CallBuiltin? && |e.args| == 1 && e.args[0].Ident?
    ensures var r := Eval(c, e.args[0], s, fuel, false);
            r.out.Done?
            && Eval(c, e, s, fuel, false) == RunBuiltin(c.world, e.b, Res(Done([r.out.v]), s, {}), e.ty, e.site)
  {
    hide RunBuiltin;
    VariableReads(c, e.args[0].name, e.args[0].ty, s, fuel);
    var r := Eval(c, e.args[0], s, fuel, false);
    assert e.args[1..] == [] && [r.out.v] + [] == [r.out.v];
    assert EvalAll(c, e.args[1..], s, fuel, false) == Res(Done([]), s, {});
    assert EvalAll(c, e.args, s, fuel, false) == Res(Done([r.out.v]), s, {});
  }

  // ----- composites and conversions

  lemma CompositeReads(c: Context, e: Expr, s: State, fuel: nat)
    requires e.Composite? && |e.keys| == 1 && |e.values| == 1 && e.keys[0].Ident? && e.values[0].Ident?
    ensures var k, v := Eval(c, e.keys[0], s, fuel, false), Eval(c, e.values[0], s, fuel, false);
            k.out.Done? && v.out.Done?
            && Eval(c, e, s, fuel, false).out == Build(Res(Done([v.out.v]), s, {}), [k.out.v], e.ty, e.site).out
  {
    hide Build;
    VariableReads(c, e.keys[0].name, e.keys[0].ty, s, fuel);
    VariableReads(c, e.values[0].name, e.values[0].ty, s, fuel);
    AloneReads(c, e.keys, s, fuel);
    AloneReads(c, e.values, s, fuel);
  }

  lemma AloneReads(c: Context, es: seq<Expr>, s: State, fuel: nat)
    requires |es| == 1 && es[0].Ident?
    ensures var r := Eval(c, es[0], s, fuel, false);
            r.out.Done? && EvalAll(c, es, s, fuel, false) == Res(Done([r.out.v]), s, {})
  {
    VariableReads(c, es[0].name, es[0].ty, s, fuel);
    var r := Eval(c, es[0], s, fuel, false);
    assert es[1..] == [] && [r.out.v] + [] == [r.out.v];
    assert EvalAll(c, es[1..], s, fuel, false) == Res(Done([]), s, {});
  }

  /** A composite literal of variables is free of panics exactly when no key of a map can be an interface. */
  lemma CompositeExact(c: Context, ty: Type, v: Type)
    requires ty.TMap? ==> ComparesWithoutPanic(ty.key) || ty.key.TInterface?
    ensures var e := Composite([Ident("k", if ty.TMap? then ty.key else v)], [Ident("v", v)], ty, 0);
            (PanicFree(e) <==> NeverPanics(c, e)) && (NeverPanics(c, e) <==> !(ty.TMap? && ty.key.TInterface?))
  {
    hide Eval, Build, Compare, Conforms, ComparesWithoutPanic;
    var key := if ty.TMap? then ty.key else v;
    var e := Composite([Ident("k", key)], [Ident("v", v)], ty, 0);
    CompositeAdmitted(e, ty);
    if ty.TMap? && ty.key.TInterface? {
      var s := State(map["k" := Iface(TFunc, Nil)], map[], 0);
      InterfaceKey();
      VariableReads(c, "k", key, s, 0);
      CompositeReads(c, e, s, 0);
      KeyPanics(Eval(c, e.values[0], s, 0, false).out.v, s, ty);
      assert !Eval(c, e, s, 0, false).out.Done?;
    } else {
      forall s: State, fuel: nat ensures Eval(c, e, s, fuel, false).out.Done? {
        CompositeReads(c, e, s, fuel);
        KeyIsSafe(Eval(c, e.keys[0], s, fuel, false).out.v, Eval(c, e.values[0], s, fuel, false).out.v, s, ty);
      }
    }
  }

  lemma CompositeAdmitted(e: Expr, ty: Type)
    requires e.Composite? && |e.keys| == 1 && |e.values| == 1 && e.keys[0].Ident? && e.values[0].Ident? && e.ty == ty
    requires ty.TMap? ==> ComparesWithoutPanic(ty.key) || ty.key.TInterface?
    ensures PanicFree(e) <==> !(ty.TMap? && ty.key.TInterface?)
  {
  }

  lemma InterfaceKey()
    ensures Conforms(Iface(TFunc, Nil), TInterface) && Compare(Iface(TFunc, Nil), Iface(TFunc, Nil)) == Panics
  {
  }

  lemma KeyPanics(v: Value, s: State, ty: Type)
    requires ty.TMap? && ty.key.TInterface?
    ensures !Build(Res(Done([v]), s, {}), [Iface(TFunc, Nil)], ty, 0).out.Done?
  {
    hide Compare;
    InterfaceKey();
    var k := Iface(TFunc, Nil);
    assert Fit(k, ty.key) == k && k in [k];
  }

  lemma KeyIsSafe(k: Value, v: Value, s: State, ty: Type)
    requires ty.TMap? ==> ComparesWithoutPanic(ty.key)
    ensures Build(Res(Done([v]), s, {}), [k], ty, 0).out.Done?
  {
    if ty.TMap? && !ty.key.TUntypedNil? { PlainTypesCompare(Fit(k, ty.key), Fit(k, ty.key), ty.key); }
  }

  /** A conversion of a slice is inert exactly when it demands no length, whatever type a parameter stands for. */
  lemma SliceConversionExact(c: Context, elem: Type, to: Type)
    requires (to.TArray? ==> to.size > 0) && (to.TPointer? && to.elem.TArray? ==> to.elem.size > 0)
    requires !(to.TPointer? && to.elem.TTypeParam?)
    ensures var e := Convert(to, Ident("x", TSlice(elem)));
            && (Inert(e) <==> forall n: Option<nat> :: NeverPanics(c.(world := c.world.(arrayBehind := n)), e))
            && (PanicFree(e) <==> !to.TArray? && !to.TPointer?)
  {
    hide Eval, ConvertValue;
    var e := Convert(to, Ident("x", TSlice(elem)));
    ConversionAdmitted(e, to);
    LengthDemanded(c.world, to);
    if Demanded(c.world.(arrayBehind := Some(1)), to).Some? {
      var d := c.(world := c.world.(arrayBehind := Some(1)));
      var s := State(map["x" := Slice(Global(""), 0)], map[], 0);
      VariableReads(d, "x", TSlice(elem), s, 0);
      ConversionReads(d, e, s, 0);
      ShortSliceConverts(d.world, to, TSlice(elem), s.heap);
      assert !NeverPanics(d, e);
    } else {
      forall n: Option<nat> ensures NeverPanics(c.(world := c.world.(arrayBehind := n)), e) {
        var d := c.(world := c.world.(arrayBehind := n));
        forall s: State, fuel: nat ensures Eval(d, e, s, fuel, false).out.Done? {
          VariableReads(d, "x", TSlice(elem), s, fuel);
          ConversionReads(d, e, s, fuel);
          NothingDemanded(d.world, to, TSlice(elem), Eval(d, e.x, s, fuel, false).out.v, s.heap);
        }
      }
    }
  }

  lemma LengthDemanded(w: World, to: Type)
    requires (to.TArray? ==> to.size > 0) && (to.TPointer? && to.elem.TArray? ==> to.elem.size > 0)
    ensures var n := Demanded(w.(arrayBehind := Some(1)), to);
            (n.Some? <==> to.TArray? || to.TTypeParam? || (to.TPointer? && to.elem.TArray?)) && (n.Some? ==> n.value > 0)
    ensures Demanded(w.(arrayBehind := Some(1)), to).None? ==> forall n: Option<nat> :: Demanded(w.(arrayBehind := n), to).None?
  {
  }

  lemma ConversionAdmitted(e: Expr, to: Type)
    requires e.Convert? && e.to == to && e.x.Ident? && e.x.ty.TSlice? && !(to.TPointer? && to.elem.TTypeParam?)
    ensures Inert(e) <==> !(to.TArray? || to.TTypeParam? || (to.TPointer? && to.elem.TArray?))
    ensures PanicFree(e) <==> !to.TArray? && !to.TPointer?
  {
  }

  lemma ConversionReads(c: Context, e: Expr, s: State, fuel: nat)
    requires e.Convert? && e.x.Ident?
    ensures var r := Eval(c, e.x, s, fuel, false);
            r.out.Done? && Eval(c, e, s, fuel, false).out == ConvertValue(c.world, e.to, e.x.ty, r.out.v, s.heap)
  {
    hide ConvertValue;
    VariableReads(c, e.x.name, e.x.ty, s, fuel);
  }

  lemma ShortSliceConverts(w: World, to: Type, from: Type, heap: Heap)
    requires Demanded(w, to).Some? && Demanded(w, to).value > 0
    ensures !ConvertValue(w, to, from, Slice(Global(""), 0), heap).Done?
  {
  }

  lemma NothingDemanded(w: World, to: Type, from: Type, v: Value, heap: Heap)
    requires Demanded(w, to).None?
    ensures ConvertValue(w, to, from, v, heap).Done?
  {
  }

  // ----- effects

  ghost predicate Within(x: Expr, e: Expr)
    decreases e
  {
    x == e || exists k :: Child(e, k) && Within(x, Children(e)[k])
  }

  predicate Child(e: Expr, k: int) { 0 <= k < |Children(e)| }

  /** Calls a function, takes off a channel, or runs a builtin for its effect. */
  predicate Touching(x: Expr) {
    x.Call? || (x.Unary? && x.uop.Receive?) || (x.CallBuiltin? && (x.b.Effectful? || x.b.PanicCall?))
  }

  /** An expression is free of effects exactly when nothing in it calls, receives, or runs a builtin for its effect. */
  lemma {:induction false} EffectFreeExact(e: Expr)
    ensures EffectFree(e) <==> forall x :: Within(x, e) ==> !Touching(x)
    decreases e
  {
    assert Within(e, e);
    forall k | Child(e, k) ensures EffectFree(Children(e)[k]) <==> forall x :: Within(x, Children(e)[k]) ==> !Touching(x) {
      EffectFreeExact(Children(e)[k]);
    }
    EffectFreeByChildren(e);
    if !EffectFree(e) && !Touching(e) {
      var k :| Child(e, k) && !EffectFree(Children(e)[k]);
      var x :| Within(x, Children(e)[k]) && Touching(x);
      assert Within(x, e);
    }
  }

  lemma EffectFreeByChildren(e: Expr)
    ensures EffectFree(e) <==> !Touching(e) && forall k :: Child(e, k) ==> EffectFree(Children(e)[k])
  {
    assert (forall k :: Child(e, k) ==> EffectFree(Children(e)[k])) <==> forall x :: x in Children(e) ==> EffectFree(x) by {
      forall x | x in Children(e) ensures exists k :: Child(e, k) && Children(e)[k] == x {
        var k :| 0 <= k < |Children(e)| && Children(e)[k] == x;
        assert Child(e, k);
      }
    }
    ChildrenOf(e);
  }

  /** The same over the children as a list. */
  lemma ChildrenOf(e: Expr)
    ensures EffectFree(e) <==> !Touching(e) && forall x :: x in Children(e) ==> EffectFree(x)
  {
    match e
    case Composite(keys, values, _, _) => FreeOfBoth(keys, values);
    case SliceOf(x, bounds, _) =>
      FreeOfBoth([x], bounds);
      FreeOfPair(x, x);
    case Binary(_, x, y, _, _) => FreeOfPair(x, y);
    case Index(x, i, _) => FreeOfPair(x, i);
    case CallBuiltin(_, args, _, _) => assert Children(e) == args;
    case Ident(_, _) | Lit(_, _) | FuncLit(_) | PkgName(_, _, _) | Call(_, _, _) =>
    case _ => assert Children(e)[0] in Children(e);
  }

  lemma FreeOfBoth(a: seq<Expr>, b: seq<Expr>)
    ensures (forall x :: x in a + b ==> EffectFree(x)) <==> (forall x :: x in a ==> EffectFree(x)) && forall x :: x in b ==> EffectFree(x)
  {
    hide EffectFree;
    forall x | x in a || x in b ensures x in a + b {}
  }

  lemma FreeOfPair(x: Expr, y: Expr)
    ensures (forall z :: z in [x, y] ==> EffectFree(z)) <==> EffectFree(x) && EffectFree(y)
    ensures (forall z :: z in [x] ==> EffectFree(z)) <==> EffectFree(x)
  {
    hide EffectFree;
    assert x in [x, y] && y in [x, y] && x in [x];
  }
}
