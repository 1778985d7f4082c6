/** Static types and run-time values of the Go fragment that the discovery proofs speak about.
    Types are underlying types; a type parameter is kept apart because the classifiers keep it apart. */
module GoValues {

  datatype Type =
    | TBool | TString | TFloat | TComplex | TUntypedNil
    | TInt(bits: nat, signed: bool)
    | TPointer(elem: Type)
    | TChan
    | TStruct(fields: seq<Type>)
    | TArray(size: nat, elem: Type)
    | TSlice(elem: Type)
    | TMap(key: Type)
    | TFunc
    | TInterface
    | TTypeParam
  {
    predicate Basic() { TBool? || TString? || TFloat? || TComplex? || TUntypedNil? || TInt? }
    predicate Floating() { TFloat? || TComplex? }
  }

  /** Negative zero and NaN are the two floats for which `==` and sameness part company. */
  datatype Float = NegativeZero | NotANumber | Number(r: real)

  /** A memory cell. A cell made by an expression is named by the statement instance that ran (`tick`),
      the syntactic site, and the value it was created with. */
  datatype Loc = Global(name: string) | Cell(tick: nat, site: nat, init: Value)

  datatype Value =
    | Bool(b: bool) | Str(s: string) | Int(i: int) | Flt(f: Float) | Cpx(re: Float, im: Float)
    | Nil
    | Ref(loc: Loc)
    | Struct(fields: seq<Value>)
    | Array(elems: seq<Value>)
    | Slice(loc: Loc, len: nat)
    | MapRef(loc: Loc)
    | Func(name: string)
    | Iface(dyn: Type, v: Value)

  /** `v` inhabits `t`. */
  predicate Conforms(v: Value, t: Type)
    decreases v
  {
    match t
    case TBool => v.Bool?
    case TString => v.Str?
    case TFloat => v.Flt?
    case TComplex => v.Cpx?
    case TUntypedNil => v.Nil?
    case TInt(bits, signed) => v.Int? && Low(bits, signed) <= v.i < Low(bits, signed) + Pow2(bits)
    case TPointer(_) => v.Nil? || v.Ref?
    case TChan => v.Nil? || v.Ref?
    case TStruct(fs) => v.Struct? && |v.fields| == |fs| && forall i :: 0 <= i < |fs| ==> Conforms(v.fields[i], fs[i])
    case TArray(n, e) => v.Array? && |v.elems| == n && forall i :: 0 <= i < n ==> Conforms(v.elems[i], e)
    case TSlice(_) => v.Nil? || v.Slice?
    case TMap(_) => v.Nil? || v.MapRef?
    case TFunc => v.Nil? || v.Func?
    case TInterface => v.Nil? || (v.Iface? && !v.dyn.TInterface? && !v.dyn.TTypeParam? && Conforms(v.v, v.dyn))
    case TTypeParam => true
  }

  function Pow2(n: nat): (p: nat)
    ensures p >= 1
  {
    if n == 0 then 1 else 2 * Pow2(n - 1)
  }

  function Low(bits: nat, signed: bool): int {
    if signed && bits > 0 then 0 - Pow2(bits - 1) else 0
  }

  /** Two's-complement wrap-around of an integer type. */
  function Wrap(x: int, bits: nat, signed: bool): (r: int)
    ensures Low(bits, signed) <= r < Low(bits, signed) + Pow2(bits)
    ensures Low(bits, signed) <= x < Low(bits, signed) + Pow2(bits) ==> r == x
    ensures (r - x) % Pow2(bits) == 0
  {
    var m := Pow2(bits);
    var d := x - Low(bits, signed);
    WrapDivides(d, m);
    Low(bits, signed) + d % m
  }

  lemma WrapDivides(d: int, m: int)
    requires m > 0
    ensures (d % m - d) % m == 0
    ensures 0 <= d < m ==> d % m == d
  {
    assert d == m * (d / m) + d % m;
    MultipleMod(-(d / m), m);
    assert d % m - d == -(d / m) * m;
    if 0 <= d < m { SmallMod(d, m); }
  }

  lemma MultipleMod(k: int, m: int)
    requires m > 0
    ensures (k * m) % m == 0
  {
    QuotientUnique(k * m, m, k, 0);
  }

  lemma SmallMod(d: int, m: int)
    requires 0 <= d < m
    ensures d % m == d
  {
    QuotientUnique(d, m, 0, d);
  }

  /** Euclidean division has one quotient and one remainder. */
  lemma QuotientUnique(x: int, m: int, q: int, r: int)
    requires m > 0 && x == q * m + r && 0 <= r < m
    ensures x / m == q && x % m == r
  {
    var k := q - x / m;
    assert k * m == x % m - r by {
      assert x == m * (x / m) + x % m;
      assert k * m == q * m - (x / m) * m;
    }
    if k != 0 { MagnitudeAtLeast(k, m); }
  }

  lemma MagnitudeAtLeast(k: int, m: int)
    requires k != 0 && m > 0
    ensures k > 0 ==> k * m >= m
    ensures k < 0 ==> k * m <= -m
    decreases if k > 0 then k else -k
  {
    if k > 1 {
      MagnitudeAtLeast(k - 1, m);
      assert k * m == (k - 1) * m + m;
    } else if k < -1 {
      MagnitudeAtLeast(k + 1, m);
      assert k * m == (k + 1) * m - m;
    }
  }

  function Zero(t: Type): (v: Value)
    ensures Conforms(v, t)
  {
    match t
    case TBool => Bool(false)
    case TString => Str("")
    case TFloat => Flt(Number(0.0))
    case TComplex => Cpx(Number(0.0), Number(0.0))
    case TInt(bits, signed) => Int(Wrap(0, bits, signed))
    case TStruct(fs) => Struct(seq(|fs|, i requires 0 <= i < |fs| => Zero(fs[i])))
    case TArray(n, e) => Array(seq(n, i => Zero(e)))
    case _ => Nil
  }

  /** The type checker guarantees that an expression's value inhabits its static type; integer results
      wrap. `Fit` is where the model records that guarantee. */
  function Fit(v: Value, t: Type): (r: Value)
    ensures Conforms(r, t)
    ensures Conforms(v, t) ==> r == v
  {
    if t.TInt? && v.Int? then Int(Wrap(v.i, t.bits, t.signed))
    else if Conforms(v, t) then v
    else Zero(t)
  }

  // ----- equality (The Go Programming Language Specification, "Comparison operators")

  predicate FloatEq(x: Float, y: Float) {
    match (x, y)
    case (NotANumber, _) => false
    case (_, NotANumber) => false
    case (NegativeZero, Number(r)) => r == 0.0
    case (Number(r), NegativeZero) => r == 0.0
    case (_, _) => x == y
  }

  /** Whether values of a dynamic type may be compared at all. */
  predicate ComparableType(t: Type) {
    match t
    case TStruct(fs) => forall i :: 0 <= i < |fs| ==> ComparableType(fs[i])
    case TArray(_, e) => ComparableType(e)
    case _ => !t.TSlice? && !t.TMap? && !t.TFunc?
  }

  datatype Comparison = Equal | Unequal | Panics

  /** `x == y`; comparing two interfaces that hold one incomparable dynamic type panics. */
  function Compare(x: Value, y: Value): Comparison
    decreases x
  {
    match (x, y)
    case (Flt(f), Flt(g)) => if FloatEq(f, g) then Equal else Unequal
    case (Cpx(a, b), Cpx(c, d)) => if FloatEq(a, c) && FloatEq(b, d) then Equal else Unequal
    case (Struct(fs), Struct(gs)) => CompareAll(fs, gs)
    case (Array(fs), Array(gs)) => CompareAll(fs, gs)
    case (Iface(t, v), Iface(u, w)) =>
      if t != u then Unequal else if !ComparableType(t) then Panics else Compare(v, w)
    case (_, _) => if x == y then Equal else Unequal
  }

  function CompareAll(xs: seq<Value>, ys: seq<Value>): Comparison
    decreases xs
  {
    if xs == [] || ys == [] then (if |xs| == |ys| then Equal else Unequal)
    else
      var head := Compare(xs[0], ys[0]);
      if head != Equal then head else CompareAll(xs[1..], ys[1..])
  }

  // ----- ordering

  predicate StringLess(x: string, y: string) {
    if y == "" then false
    else if x == "" then true
    else if x[0] != y[0] then x[0] < y[0]
    else StringLess(x[1..], y[1..])
  }

  predicate FloatLess(x: Float, y: Float) {
    var Real := (f: Float) => if f.Number? then f.r else 0.0;
    !x.NotANumber? && !y.NotANumber? && Real(x) < Real(y)
  }

  predicate Less(x: Value, y: Value) {
    match (x, y)
    case (Int(i), Int(j)) => i < j
    case (Str(s), Str(t)) => StringLess(s, t)
    case (Flt(f), Flt(g)) => FloatLess(f, g)
    case (_, _) => false
  }

  predicate LessOrEqual(x: Value, y: Value) {
    Less(x, y) || Compare(x, y) == Equal
  }
}
