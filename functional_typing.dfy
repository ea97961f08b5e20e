/** Type labels of pyccel's functional sub-language
  * (pyccel/functional/parser.py): the default variable attributes, the
  * attributes read off a type term, the BLAS-style prefix that picks the
  * default type, the rewriting of calls by `sanitize`, the keys under which
  * the semantic parser stores types, and its bounded typing loop. The
  * grammar, SymPy's expression classes and the typing of each kind of
  * expression are not modelled: they are inputs. */
module FunctionalTyping {
  import opened Wrappers

  // --------------------------------------------------------- type attributes

  /** The pyccel datatypes a type term can carry. */
  datatype DType = Int | Real | Complex | Bool

  /** The `d_var` dictionary of variable attributes. */
  datatype DVar = DVar(dtype: Option<DType>, rank: nat, allocatable: bool, isStackArray: bool,
                       isPointer: bool, isTarget: bool, shape: Option<seq<int>>, order: string,
                       precision: Option<int>)

  /** `_attributs_default()`. */
  function Default(): DVar
  {
    DVar(None, 0, false, false, false, false, None, "C", None)
  }

  /** A type term: a typed variable, a list of a type, or a tuple of types. */
  datatype TypeTerm =
    | TypeVariable(dtype: DType, rank: nat, isStackArray: bool, order: string, precision: int)
    | TypeList(parent: TypeTerm)
    | TypeTuple(types: seq<TypeTerm>)

  /** How many lists wrap the innermost term. */
  function ListDepth(t: TypeTerm): nat
  {
    if t.TypeList? then 1 + ListDepth(t.parent) else 0
  }

  /** The innermost term under the lists. */
  function Innermost(t: TypeTerm): TypeTerm
  {
    if t.TypeList? then Innermost(t.parent) else t
  }

  /** The first component `_attributs_from_type` returns: the type variable
    * itself, or, under a list, the whole pair the inner call returned (whose
    * dictionary is the same object as the outer one's, so only its first
    * component is kept here). */
  datatype Returned = Term(term: TypeTerm) | Pair(first: Returned)

  /** A term wrapped in `n` pairs. */
  function Nested(b: TypeTerm, n: nat): Returned
  {
    if n == 0 then Term(b) else Pair(Nested(b, n - 1))
  }

  /** `_attributs_from_type(t, d_var)`: the attributes updated from the
    * innermost variable, each enclosing list adding one to the rank, and as
    * first component the variable wrapped once per list in the pair the
    * recursive call returned; a tuple is not implemented. A term that is
    * none of the three classes returns None in the source; the three
    * constructors here leave no such term. */
  function AttributesFromType(t: TypeTerm, d: DVar): (r: Result<(Returned, DVar)>)
    ensures r.Success? <==> Innermost(t).TypeVariable?
    ensures r.Failure? ==> r.kind == NotImplementedError
    ensures r.Success? ==>
      var base := Innermost(t);
      r.value.0 == Nested(base, ListDepth(t)) &&
      r.value.1 == d.(dtype := Some(base.dtype), rank := base.rank + ListDepth(t), isStackArray := base.isStackArray,
                      order := base.order, precision := Some(base.precision))
  {
    match t
    case TypeList(parent) =>
      (match AttributesFromType(parent, d)
       case Failure(k, m) => Failure(k, m)
       case Success(p) => Success((Pair(p.0), p.1.(rank := p.1.rank + 1))))
    case TypeTuple(_) => Failure(NotImplementedError, "")
    case TypeVariable(dt, rk, st, o, pr) =>
      Success((Term(t), d.(dtype := Some(dt), rank := rk, isStackArray := st, order := o, precision := Some(pr))))
  }

  /** The attributes a term gives never depend on the starting dictionary
    * except for the flags the term does not carry; wrapping a term in a
    * list raises the rank by one and keeps the rest. */
  lemma AttributesOfList(t: TypeTerm, d: DVar)
    requires Innermost(t).TypeVariable?
    ensures AttributesFromType(TypeList(t), d).value.1 ==
      AttributesFromType(t, d).value.1.(rank := AttributesFromType(t, d).value.1.rank + 1)
    ensures AttributesFromType(t, d).value.1.allocatable == d.allocatable &&
      AttributesFromType(t, d).value.1.shape == d.shape
    ensures AttributesFromType(t, Default()).value.1.rank == Innermost(t).rank + ListDepth(t)
  {
  }

  // ----------------------------------------------------------- prefix table

  /** A datatype with its precision. */
  datatype Precise = Precise(dtype: DType, precision: int)

  /** The default type the prefix selects, following the BLAS naming:
    * i, s, d, c, z; `d` when no prefix is given. */
  function DefaultType(prefix: string): Result<Precise>
  {
    if prefix == "i" then Success(Precise(Int, 4))
    else if prefix == "s" then Success(Precise(Real, 4))
    else if prefix == "d" then Success(Precise(Real, 8))
    else if prefix == "c" then Success(Precise(Complex, 8))
    else if prefix == "z" then Success(Precise(Complex, 16))
    else Failure(ValueError, "Wrong prefix. Available: i, s, d, c, z")
  }

  /** Exactly the five prefixes are accepted; different prefixes select
    * different types; the double-precision real is the default; every
    * complex precision is twice a real one. */
  lemma DefaultTypeTable(p: string, q: string)
    ensures DefaultType(p).Success? <==> p in {"i", "s", "d", "c", "z"}
    ensures DefaultType(p).Success? && DefaultType(q).Success? && DefaultType(p) == DefaultType(q) ==> p == q
    ensures DefaultType("d") == Success(Precise(Real, 8))
    ensures DefaultType(p).Success? && DefaultType(p).value.dtype == Complex ==>
      DefaultType(p).value.precision == 2 * DefaultType(if p == "c" then "s" else "d").value.precision
    ensures DefaultType(p).Success? ==> DefaultType(p).value.dtype != Bool
  {
  }

  // --------------------------------------------------------------- sanitize

  /** The names of the functional operators, mapped to their node classes. */
  const KnownFunctions: set<string> := {"map", "pmap", "tmap", "ptmap", "zip", "pzip", "product", "pproduct", "reduce"}

  /** The operators whose first argument is a function. */
  const Functors: set<string> := {"map", "pmap", "tmap", "ptmap", "reduce"}

  const ElementalMath: set<string> :=
    {"acos", "asin", "atan", "cos", "cosh", "exp", "log", "log10", "sin", "sinh", "sqrt", "tan", "tanh"}

  const MathFunctions: set<string> := ElementalMath + {"dot", "matmul"}

  /** An expression of the sub-language after `to_sympy`, and the nodes
    * `sanitize` makes of it. */
  datatype Term =
    | Lambda(variables: seq<string>, body: Term)
    | Applied(name: string, args: seq<Term>)
    | Number(text: string)
    | Sym(symbol: string)
    | FunctionName(fname: string)
    | Known(operator: string, operands: seq<Term>)
    | OtherTerm(cls: string)

  /** `sanitize(expr)`. */
  function Sanitize(e: Term): Result<Term>
    decreases e, 1
  {
    match e
    case Lambda(vs, b) =>
      (match Sanitize(b)
       case Failure(k, m) => Failure(k, m)
       case Success(b') => Success(Lambda(vs, b')))
    case Applied(name, args) =>
      (match SanitizeAll(args, e)
       case Failure(k, m) => Failure(k, m)
       case Success(args') =>
         if name in Functors && args' == [] then Failure(IndexError, "list index out of range")
         else
           var args'' := if name in Functors && args'[0].Sym? then [FunctionName(args'[0].symbol)] + args'[1..] else args';
           Success(if name in KnownFunctions then Known(name, args'') else Applied(name, args'')))
    case Number(_) => Success(e)
    case Sym(_) => Success(e)
    case _ => Failure(TypeError, "Not implemented for " + ClassOf(e))
  }

  /** `[sanitize(i) for i in args]`, for the arguments of `parent`. */
  function SanitizeAll(args: seq<Term>, ghost parent: Term): (r: Result<seq<Term>>)
    requires forall k :: 0 <= k < |args| ==> args[k] < parent
    ensures r.Success? ==> |r.value| == |args| && forall k :: 0 <= k < |args| ==> Sanitize(args[k]) == Success(r.value[k])
    ensures r.Failure? ==> exists k :: 0 <= k < |args| && Sanitize(args[k]).Failure?
    decreases parent, 0, |args|
  {
    if args == [] then Success([])
    else
      var n := |args| - 1;
      match SanitizeAll(args[..n], parent)
      case Failure(k, m) => Failure(k, m)
      case Success(front) =>
        match Sanitize(args[n])
        case Failure(k, m) => Failure(k, m)
        case Success(a) => Success(front + [a])
  }

  function ClassOf(e: Term): string
  {
    match e
    case FunctionName(_) => "UndefinedFunction"
    case Known(op, _) => op
    case OtherTerm(c) => c
    case _ => "Basic"
  }

  /** What `sanitize` leaves: no call to an operator that is not its node,
    * no operator whose first argument is still a bare symbol. */
  predicate Sanitized(e: Term)
  {
    match e
    case Lambda(_, b) => Sanitized(b)
    case Applied(name, args) => name !in KnownFunctions && forall k :: 0 <= k < |args| ==> Sanitized(args[k])
    case Known(op, args) =>
      op in KnownFunctions && (op in Functors ==> args != [] && !args[0].Sym?) &&
      forall k :: 0 <= k < |args| ==> Sanitized(args[k])
    case FunctionName(_) => true
    case Number(_) => true
    case Sym(_) => true
    case OtherTerm(_) => false
  }

  /** A sanitized expression has every operator call turned into its node,
    * with the function argument of a functor named as a function, and it
    * keeps the lambda's variables and every call's number of arguments. */
  lemma {:induction false} SanitizeMeaning(e: Term)
    ensures Sanitize(e).Success? ==> Sanitized(Sanitize(e).value)
    ensures Sanitize(e).Success? && e.Applied? ==>
      (Sanitize(e).value.Known? <==> e.name in KnownFunctions) &&
      |if e.name in KnownFunctions then Sanitize(e).value.operands else Sanitize(e).value.args| == |e.args|
    ensures Sanitize(e).Success? && e.Lambda? ==> Sanitize(e).value.Lambda? && Sanitize(e).value.variables == e.variables
  {
    match e
    case Lambda(vs, b) =>
      SanitizeMeaning(b);
    case Applied(name, args) =>
      var r := SanitizeAll(args, e);
      if r.Success? {
        forall k | 0 <= k < |args|
          ensures Sanitized(r.value[k])
        {
          SanitizeMeaning(args[k]);
        }
        SanitizeCall(e, r.value);
      }
    case _ =>
  }

  /** A call whose arguments sanitize to `sargs`, each sanitized itself. */
  lemma SanitizeCall(e: Term, sargs: seq<Term>)
    requires e.Applied? && SanitizeAll(e.args, e) == Success(sargs)
    requires forall k :: 0 <= k < |sargs| ==> Sanitized(sargs[k])
    ensures Sanitize(e).Success? ==> Sanitized(Sanitize(e).value)
    ensures Sanitize(e).Success? ==>
      (Sanitize(e).value.Known? <==> e.name in KnownFunctions) &&
      |if e.name in KnownFunctions then Sanitize(e).value.operands else Sanitize(e).value.args| == |e.args|
  {
    var name := e.name;
    if !(name in Functors && sargs == []) {
      var a := if name in Functors && sargs[0].Sym? then [FunctionName(sargs[0].symbol)] + sargs[1..] else sargs;
      assert Sanitize(e) == Success(if name in KnownFunctions then Known(name, a) else Applied(name, a));
      assert |a| == |sargs| && (name in Functors ==> !a[0].Sym?);
      forall k | 0 <= k < |a|
        ensures Sanitized(a[k])
      {
        if k > 0 || !(name in Functors && sargs[0].Sym?) {
          assert a[k] == sargs[k];
        }
      }
    }
  }

  /** A functor's symbol argument becomes a function name and its other
    * arguments stay as they are. */
  lemma SanitizeMapExample()
    ensures Sanitize(Applied("map", [Sym("f"), Sym("xs")])) == Success(Known("map", [FunctionName("f"), Sym("xs")]))
  {
    var e := Applied("map", [Sym("f"), Sym("xs")]);
    SanitizeSymbolArgs(e);
    assert "map" in Functors && "map" in KnownFunctions;
    assert [FunctionName("f")] + [Sym("f"), Sym("xs")][1..] == [FunctionName("f"), Sym("xs")];
  }

  /** Symbol arguments sanitize to themselves. */
  lemma SanitizeSymbolArgs(e: Term)
    requires e == Applied("map", [Sym("f"), Sym("xs")])
    ensures SanitizeAll(e.args, e) == Success([Sym("f"), Sym("xs")])
  {
    var r := SanitizeAll(e.args, e);
    assert Sanitize(Sym("f")) == Success(Sym("f")) && Sanitize(Sym("xs")) == Success(Sym("xs"));
    assert r.Success?;
    assert r.value == [Sym("f"), Sym("xs")];
  }

  /** A call to an unknown function keeps its name, and a functor without
    * arguments fails. */
  lemma SanitizeUnknownExample()
    ensures Sanitize(Applied("g", [Sym("x")])) == Success(Applied("g", [Sym("x")]))
    ensures Sanitize(Applied("reduce", [])).Failure?
  {
    var g := Applied("g", [Sym("x")]);
    assert Sanitize(Sym("x")) == Success(Sym("x"));
    assert SanitizeAll(g.args, g).Success?;
    assert SanitizeAll(g.args, g).value == [Sym("x")];
    assert "g" !in Functors && "g" !in KnownFunctions;
    assert "reduce" in Functors;
  }

  // ---------------------------------------------------------- keys and labels

  /** What a type can be stored for: a function definition, a SymPy
    * undefined function, a symbol, or another object (which may have a
    * `name` attribute). */
  datatype Target =
    | FunctionDefT(name: string)
    | UndefinedFunctionT(name: string)
    | SymbolT(name: string)
    | OtherT(cls: string, attrName: Option<string>)

  /** `_get_key(expr)`. */
  function Key(t: Target): Result<string>
  {
    match t
    case FunctionDefT(n) => Success(n + "_args")
    case UndefinedFunctionT(n) => Success(n)
    case SymbolT(n) => Success(n)
    case OtherT(c, _) => Failure(NotImplementedError, "for " + c)
  }

  /** `str(target)` for a SymPy function class, else `str(target.name)`. */
  function NameOf(t: Target): Result<string>
  {
    match t
    case OtherT(c, n) => if n.Some? then Success(n.value) else Failure(AttributeError, "'" + c + "' object has no attribute 'name'")
    case _ => Success(t.name)
  }

  /** `_get_label(target, domain, codomain)` in a parser whose typed
    * functions are named `typed`. */
  function Label(typed: set<string>, t: Target, domain: bool, codomain: bool): Result<string>
  {
    if codomain then
      if domain then Failure(AssertionError, "")
      else NameOf(t)
    else if domain then
      match NameOf(t)
      case Failure(k, m) => Failure(k, m)
      case Success(name) => if name in typed || name in MathFunctions then Success(name + "_args") else Key(t)
    else Key(t)
  }

  /** The codomain of a function is stored under its name and its domain
    * under the name and `_args`, so the two never share a label; a
    * function definition's key is its domain label; asking for both at once
    * is refused. */
  lemma LabelScheme(typed: set<string>, t: Target, name: string)
    ensures t.FunctionDefT? || t.UndefinedFunctionT? ==>
      Label(typed, t, false, true) == Success(t.name) &&
      (t.name in typed || t.name in MathFunctions ==> Label(typed, t, true, false) == Success(t.name + "_args"))
    ensures t.FunctionDefT? ==> Label(typed, t, true, false) != Label(typed, t, false, true)
    ensures Label(typed, FunctionDefT(name), false, false) == Label(typed, FunctionDefT(name), true, false)
    ensures Label(typed, t, true, true) == Failure(AssertionError, "")
    ensures Key(t).Failure? <==> t.OtherT?
  {
    if t.FunctionDefT? {
      assert |t.name + "_args"| != |t.name|;
    }
  }

  /** The domain label of a function that is neither typed nor a math
    * function is its bare name, the same as its codomain label. */
  lemma UntypedDomainLabel(typed: set<string>, name: string)
    requires name !in typed && name !in MathFunctions
    ensures Label(typed, UndefinedFunctionT(name), true, false) == Label(typed, UndefinedFunctionT(name), false, true)
  {
  }

  // ---------------------------------------------------------- semantic parser

  /** A type value: what is stored, identified by its variable's name, with
    * the datatype and precision when the model knows them (the default
    * type's). */
  datatype TypeValue = TypeValue(name: string, precise: Option<Precise>)

  /** An expression being typed: still an expression, or a type variable. */
  datatype Typing = Pending(expr: string) | BasicTypeVariable(tvar: TypeValue)

  /** What one `_to_type` call reads and writes: the expression being typed
    * (replaced by the call's result), the types by label and the
    * expressions by type name. */
  datatype TypingState = TypingState(main: Typing, types: map<string, TypeValue>, exprs: map<string, Target>)

  /** `_to_type` applied `n` times. */
  function Iterate(s: TypingState, step: TypingState -> TypingState, n: nat): TypingState
  {
    if n == 0 then s else step(Iterate(s, step, n - 1))
  }

  /** What `to_type` leaves in the parser: `_to_type` applied until `main`
    * is a type variable, at most twice, with the tables as the last call
    * left them. */
  function ToTypeResult(s: TypingState, step: TypingState -> TypingState): (r: TypingState)
    ensures exists n :: (0 <= n <= 2 && r == Iterate(s, step, n) &&
      (forall k :: 0 <= k < n ==> !Iterate(s, step, k).main.BasicTypeVariable?) &&
      (n < 2 ==> r.main.BasicTypeVariable?))
  {
    if s.main.BasicTypeVariable? then
      assert s == Iterate(s, step, 0);
      s
    else if step(s).main.BasicTypeVariable? then
      assert step(s) == Iterate(s, step, 1);
      step(s)
    else
      assert Iterate(s, step, 1) == step(s);
      assert step(step(s)) == Iterate(s, step, 2);
      step(step(s))
  }

  /** A type variable is left as it is with the tables untouched, one step
    * that reaches a type variable is the last, and the tables change only
    * through the steps: steps that write nothing leave them as they were,
    * and steps that only add or overwrite entries lose no label. */
  lemma ToTypeStops(s: TypingState, step: TypingState -> TypingState)
    ensures s.main.BasicTypeVariable? ==> ToTypeResult(s, step) == s
    ensures !s.main.BasicTypeVariable? && step(s).main.BasicTypeVariable? ==> ToTypeResult(s, step) == step(s)
    ensures (forall t :: step(t) == t) ==> ToTypeResult(s, step) == s
    ensures (forall t: TypingState :: step(t).types == t.types && step(t).exprs == t.exprs) ==>
      ToTypeResult(s, step).types == s.types && ToTypeResult(s, step).exprs == s.exprs
    ensures (forall t: TypingState :: t.types.Keys <= step(t).types.Keys && t.exprs.Keys <= step(t).exprs.Keys) ==>
      s.types.Keys <= ToTypeResult(s, step).types.Keys && s.exprs.Keys <= ToTypeResult(s, step).exprs.Keys
  {
    if forall t :: step(t) == t {
      assert step(s) == s;
    }
  }

  /** The labels the typed functions' registration writes never collide:
    * no name is another's name or another's domain label. */
  predicate LabelsDistinct(fs: seq<(string, TypeValue, TypeValue)>)
  {
    forall i, j :: 0 <= i < |fs| && 0 <= j < |fs| && i != j ==> fs[i].0 != fs[j].0 && fs[i].0 != fs[j].0 + "_args"
  }

  /** The types the typed functions' registration writes, in order, each
    * function's domain under its name and `_args` and then its codomain
    * under its name, a later write replacing an earlier one. */
  function TypedTypes(fs: seq<(string, TypeValue, TypeValue)>): map<string, TypeValue>
  {
    if fs == [] then map[]
    else
      var f := fs[|fs| - 1];
      TypedTypes(fs[..|fs| - 1])[f.0 + "_args" := f.1][f.0 := f.2]
  }

  /** The expressions the same registration writes: the function under the
    * name of its domain type and then of its codomain type. */
  function TypedExprs(fs: seq<(string, TypeValue, TypeValue)>): map<string, Target>
  {
    if fs == [] then map[]
    else
      var f := fs[|fs| - 1];
      TypedExprs(fs[..|fs| - 1])[f.1.name := FunctionDefT(f.0)][f.2.name := FunctionDefT(f.0)]
  }

  /** Two names followed by the same suffix are the same name. */
  lemma ArgsSuffixInjective(a: string, b: string)
    requires a + "_args" == b + "_args"
    ensures a == b
  {
    assert a == (a + "_args")[..|a|];
    assert b == (b + "_args")[..|b|];
  }

  /** When no labels collide, every typed function's domain and codomain
    * are found under its labels, and the registration writes exactly those
    * labels. */
  lemma {:induction false} TypedTypesLookup(fs: seq<(string, TypeValue, TypeValue)>, k: int)
    requires LabelsDistinct(fs)
    requires 0 <= k < |fs|
    ensures fs[k].0 + "_args" in TypedTypes(fs) && TypedTypes(fs)[fs[k].0 + "_args"] == fs[k].1
    ensures fs[k].0 in TypedTypes(fs) && TypedTypes(fs)[fs[k].0] == fs[k].2
    decreases |fs|
  {
    var n := |fs| - 1;
    var f := fs[n];
    var front := fs[..n];
    assert |fs[k].0 + "_args"| != |fs[k].0|;
    if k < n {
      assert LabelsDistinct(front) by {
        forall i, j | 0 <= i < |front| && 0 <= j < |front| && i != j
          ensures front[i].0 != front[j].0 && front[i].0 != front[j].0 + "_args"
        {
          assert front[i] == fs[i] && front[j] == fs[j];
        }
      }
      TypedTypesLookup(front, k);
      assert front[k] == fs[k];
      if fs[k].0 + "_args" == f.0 + "_args" {
        ArgsSuffixInjective(fs[k].0, f.0);
      }
      assert fs[k].0 != f.0 && fs[k].0 != f.0 + "_args" && f.0 != fs[k].0 + "_args";
    }
  }

  /** Every key the typed functions' registration writes is one of their
    * labels. */
  lemma {:induction false} TypedTypesKeys(fs: seq<(string, TypeValue, TypeValue)>, key: string)
    requires key in TypedTypes(fs)
    ensures exists k :: 0 <= k < |fs| && (key == fs[k].0 || key == fs[k].0 + "_args")
    decreases |fs|
  {
    var n := |fs| - 1;
    if key != fs[n].0 && key != fs[n].0 + "_args" {
      TypedTypesKeys(fs[..n], key);
      var k :| 0 <= k < n && (key == fs[..n][k].0 || key == fs[..n][k].0 + "_args");
      assert fs[..n][k] == fs[k];
    }
  }

  /** The types the check of the called functions writes: the default type
    * as domain and codomain of each elemental math function. */
  function ElementalTypes(functions: seq<string>, d: TypeValue): map<string, TypeValue>
  {
    if functions == [] then map[]
    else
      var f := functions[|functions| - 1];
      var m := ElementalTypes(functions[..|functions| - 1], d);
      if f in ElementalMath then m[f + "_args" := d][f := d] else m
  }

  /** The expressions the same check writes: under the default type's
    * name, the last elemental math function called. */
  function ElementalExprs(functions: seq<string>, d: TypeValue): map<string, Target>
  {
    if functions == [] then map[]
    else
      var f := functions[|functions| - 1];
      var m := ElementalExprs(functions[..|functions| - 1], d);
      if f in ElementalMath then m[d.name := UndefinedFunctionT(f)] else m
  }

  /** The check of the called functions gives each elemental math function
    * the default type under both its labels, writes nothing else, and
    * records under the default type's name only elemental math functions
    * that were called. */
  lemma {:induction false} ElementalTypesLookup(functions: seq<string>, d: TypeValue)
    ensures forall k :: 0 <= k < |functions| && functions[k] in ElementalMath ==>
      functions[k] + "_args" in ElementalTypes(functions, d) && functions[k] in ElementalTypes(functions, d)
    ensures forall key :: key in ElementalTypes(functions, d) ==> ElementalTypes(functions, d)[key] == d
    ensures ElementalExprs(functions, d).Keys <= {d.name}
    ensures d.name in ElementalExprs(functions, d) ==>
      exists k :: 0 <= k < |functions| && functions[k] in ElementalMath &&
        ElementalExprs(functions, d)[d.name] == UndefinedFunctionT(functions[k])
    decreases |functions|
  {
    if functions != [] {
      var n := |functions| - 1;
      var front := functions[..n];
      ElementalTypesLookup(front, d);
      forall k | 0 <= k < |functions| && functions[k] in ElementalMath
        ensures functions[k] + "_args" in ElementalTypes(functions, d) && functions[k] in ElementalTypes(functions, d)
      {
        if k < n {
          assert front[k] == functions[k];
        }
      }
      if d.name in ElementalExprs(functions, d) && functions[n] !in ElementalMath {
        var k :| 0 <= k < |front| && front[k] in ElementalMath && ElementalExprs(front, d)[d.name] == UndefinedFunctionT(front[k]);
        assert front[k] == functions[k];
      }
    }
  }

  /** Writing an entry over a union writes it over the union's right side. */
  lemma UnionUpdate<K, V>(a: map<K, V>, b: map<K, V>, k: K, v: V)
    ensures (a + b)[k := v] == a + b[k := v]
  {
  }

  /** Registering one more typed function writes its two entries over those
    * of the functions before it. */
  lemma TypedSnoc(old0: map<string, TypeValue>, olde: map<string, Target>, fs: seq<(string, TypeValue, TypeValue)>, i: int)
    requires 0 <= i < |fs|
    ensures (old0 + TypedTypes(fs[..i]))[fs[i].0 + "_args" := fs[i].1][fs[i].0 := fs[i].2] == old0 + TypedTypes(fs[..i + 1])
    ensures (olde + TypedExprs(fs[..i]))[fs[i].1.name := FunctionDefT(fs[i].0)][fs[i].2.name := FunctionDefT(fs[i].0)] ==
      olde + TypedExprs(fs[..i + 1])
  {
    assert fs[..i + 1][..i] == fs[..i];
    UnionUpdate(old0, TypedTypes(fs[..i]), fs[i].0 + "_args", fs[i].1);
    UnionUpdate(old0, TypedTypes(fs[..i])[fs[i].0 + "_args" := fs[i].1], fs[i].0, fs[i].2);
    UnionUpdate(olde, TypedExprs(fs[..i]), fs[i].1.name, FunctionDefT(fs[i].0));
    UnionUpdate(olde, TypedExprs(fs[..i])[fs[i].1.name := FunctionDefT(fs[i].0)], fs[i].2.name, FunctionDefT(fs[i].0));
  }

  /** Checking one more called function writes the default type's entries
    * for it when it is an elemental math function, and nothing otherwise. */
  lemma ElementalSnoc(old0: map<string, TypeValue>, olde: map<string, Target>, functions: seq<string>, d: TypeValue, i: int)
    requires 0 <= i < |functions|
    ensures functions[i] in ElementalMath ==>
      (old0 + ElementalTypes(functions[..i], d))[functions[i] + "_args" := d][functions[i] := d] ==
        old0 + ElementalTypes(functions[..i + 1], d) &&
      (olde + ElementalExprs(functions[..i], d))[d.name := UndefinedFunctionT(functions[i])][d.name := UndefinedFunctionT(functions[i])] ==
        olde + ElementalExprs(functions[..i + 1], d)
    ensures functions[i] !in ElementalMath ==>
      ElementalTypes(functions[..i + 1], d) == ElementalTypes(functions[..i], d) &&
      ElementalExprs(functions[..i + 1], d) == ElementalExprs(functions[..i], d)
  {
    assert functions[..i + 1][..i] == functions[..i];
    var f := functions[i];
    UnionUpdate(old0, ElementalTypes(functions[..i], d), f + "_args", d);
    UnionUpdate(old0, ElementalTypes(functions[..i], d)[f + "_args" := d], f, d);
    UnionUpdate(olde, ElementalExprs(functions[..i], d), d.name, UndefinedFunctionT(f));
  }

  /** The semantic parser's state: the types by label, the expressions by
    * type name, the expression being typed, and the default type once the
    * prefix has selected it. */
  class SemanticParser {
    var dTypes: map<string, TypeValue>
    var dExpr: map<string, Target>
    var main: Typing
    var defaultType: Option<TypeValue>
    const typedFunctions: set<string>
    const tag: string

    /** The start of `__init__`: a parser for an expression, with its typed
      * functions' names and the random tag its dummy variables carry, and
      * nothing recorded yet. */
    constructor(main0: Typing, typed: set<string>, tag0: string)
      ensures dTypes == map[] && dExpr == map[] && main == main0 && defaultType == None
      ensures typedFunctions == typed && tag == tag0
    {
      dTypes := map[];
      dExpr := map[];
      main := main0;
      defaultType := None;
      typedFunctions := typed;
      tag := tag0;
    }

    /** The rest of `__init__`: the typed functions' types (each given as
      * its domain and codomain computed from its arguments and results),
      * then the default type the prefix selects, named after the tag, then
      * the check of the functions the expression calls. */
    method Init(fs: seq<(string, TypeValue, TypeValue)>, prefix: string, functions: seq<string>) returns (r: Result<()>)
      modifies this
      ensures DefaultType(prefix).Failure? ==>
        r == Failure(ValueError, "Wrong prefix. Available: i, s, d, c, z") && defaultType == old(defaultType) &&
        dTypes == old(dTypes) + TypedTypes(fs) && dExpr == old(dExpr) + TypedExprs(fs)
      ensures DefaultType(prefix).Success? ==>
        defaultType == Some(TypeValue("dummy_" + tag, Some(DefaultType(prefix).value))) &&
        (r.Success? <==> forall k :: 0 <= k < |functions| ==> Callable(functions[k]))
      ensures r.Success? ==>
        dTypes == old(dTypes) + TypedTypes(fs) + ElementalTypes(functions, defaultType.value) &&
        dExpr == old(dExpr) + TypedExprs(fs) + ElementalExprs(functions, defaultType.value)
      ensures main == old(main)
    {
      RegisterTyped(fs);
      var p := DefaultType(prefix);
      if p.Failure? {
        return Failure(p.kind, p.msg);
      }
      defaultType := Some(TypeValue("dummy_" + tag, Some(p.value)));
      r := RegisterFunctions(functions);
    }

    /** `_get_type(target, domain, codomain)`. */
    function GetType(t: Target, domain: bool, codomain: bool): Result<Option<TypeValue>>
      reads this
    {
      match Label(typedFunctions, t, domain, codomain)
      case Failure(k, m) => Failure(k, m)
      case Success(key) => Success(if key in dTypes then Some(dTypes[key]) else None)
    }

    /** `_set_type(target, value, domain, codomain)`: the type under the
      * target's label, and the target under the type's name. */
    method SetType(t: Target, value: TypeValue, domain: bool, codomain: bool) returns (r: Result<string>)
      modifies this
      ensures r == Label(typedFunctions, t, domain, codomain)
      ensures r.Success? ==> dTypes == old(dTypes)[r.value := value] && dExpr == old(dExpr)[value.name := t]
      ensures r.Failure? ==> dTypes == old(dTypes) && dExpr == old(dExpr)
      ensures main == old(main) && defaultType == old(defaultType)
      ensures r.Success? ==> GetType(t, domain, codomain) == Success(Some(value))
    {
      r := Label(typedFunctions, t, domain, codomain);
      if r.Success? {
        dTypes := dTypes[r.value := value];
        dExpr := dExpr[value.name := t];
      }
    }

    /** The registration of the typed functions: each one's domain and
      * codomain types, given as computed from its arguments and results,
      * written over what the tables held. */
    method RegisterTyped(fs: seq<(string, TypeValue, TypeValue)>)
      modifies this
      ensures dTypes == old(dTypes) + TypedTypes(fs) && dExpr == old(dExpr) + TypedExprs(fs)
      ensures LabelsDistinct(fs) ==> forall k :: 0 <= k < |fs| ==>
        GetType(FunctionDefT(fs[k].0), true, false) == Success(Some(fs[k].1)) &&
        GetType(FunctionDefT(fs[k].0), false, true) == Success(Some(fs[k].2))
      ensures main == old(main) && defaultType == old(defaultType)
    {
      for i := 0 to |fs|
        invariant dTypes == old(dTypes) + TypedTypes(fs[..i]) && dExpr == old(dExpr) + TypedExprs(fs[..i])
        invariant main == old(main) && defaultType == old(defaultType)
      {
        var f := FunctionDefT(fs[i].0);
        var d := SetType(f, fs[i].1, true, false);
        assert d == Success(fs[i].0 + "_args");
        var c := SetType(f, fs[i].2, false, true);
        TypedSnoc(old(dTypes), old(dExpr), fs, i);
      }
      assert fs[..|fs|] == fs;
      if LabelsDistinct(fs) {
        forall k | 0 <= k < |fs|
          ensures GetType(FunctionDefT(fs[k].0), true, false) == Success(Some(fs[k].1))
          ensures GetType(FunctionDefT(fs[k].0), false, true) == Success(Some(fs[k].2))
        {
          TypedTypesLookup(fs, k);
        }
      }
    }

    /** The check of the functions the expression calls: an elemental math
      * function gets the default type for its domain and its codomain, an
      * operator or a typed function is accepted as it is, and anything
      * else stops the construction with the entries written so far. */
    method RegisterFunctions(functions: seq<string>) returns (r: Result<()>)
      requires defaultType.Some?
      modifies this
      ensures main == old(main) && defaultType == old(defaultType)
      ensures r.Success? <==> forall k :: 0 <= k < |functions| ==> Callable(functions[k])
      ensures r.Success? ==>
        dTypes == old(dTypes) + ElementalTypes(functions, defaultType.value) &&
        dExpr == old(dExpr) + ElementalExprs(functions, defaultType.value)
      ensures r.Failure? ==> (r.kind == NotImplementedError &&
        exists k :: 0 <= k < |functions| && !Callable(functions[k]) && r.msg == functions[k] + " not available" &&
          (forall j :: 0 <= j < k ==> Callable(functions[j])) &&
          dTypes == old(dTypes) + ElementalTypes(functions[..k], defaultType.value) &&
          dExpr == old(dExpr) + ElementalExprs(functions[..k], defaultType.value))
      ensures r.Success? ==> forall k :: 0 <= k < |functions| && functions[k] in ElementalMath ==>
        GetType(UndefinedFunctionT(functions[k]), true, false) == Success(Some(defaultType.value)) &&
        GetType(UndefinedFunctionT(functions[k]), false, true) == Success(Some(defaultType.value))
    {
      var d := defaultType.value;
      for i := 0 to |functions|
        invariant forall k :: 0 <= k < i ==> Callable(functions[k])
        invariant dTypes == old(dTypes) + ElementalTypes(functions[..i], d)
        invariant dExpr == old(dExpr) + ElementalExprs(functions[..i], d)
        invariant main == old(main) && defaultType == old(defaultType)
      {
        var name := functions[i];
        ElementalSnoc(old(dTypes), old(dExpr), functions, d, i);
        if name in ElementalMath {
          SetDefaultTypes(name);
        } else if name !in KnownFunctions && name !in typedFunctions {
          assert !Callable(functions[i]);
          return Failure(NotImplementedError, name + " not available");
        }
      }
      assert functions[..|functions|] == functions;
      ElementalTypesLookup(functions, d);
      r := Success(());
    }

    /** The default type as an elemental math function's domain and
      * codomain. */
    method SetDefaultTypes(name: string)
      requires name in ElementalMath && defaultType.Some?
      modifies this
      ensures main == old(main) && defaultType == old(defaultType)
      ensures dTypes == old(dTypes)[name + "_args" := defaultType.value][name := defaultType.value]
      ensures dExpr == old(dExpr)[defaultType.value.name := UndefinedFunctionT(name)][defaultType.value.name := UndefinedFunctionT(name)]
    {
      var f := UndefinedFunctionT(name);
      var dom := SetType(f, defaultType.value, true, false);
      assert dom == Success(name + "_args");
      var cod := SetType(f, defaultType.value, false, true);
    }

    predicate Callable(name: string)
      reads this
    {
      name in ElementalMath || name in KnownFunctions || name in typedFunctions
    }

    /** The parser's part that `_to_type` reads and writes. */
    function State(): TypingState
      reads this
    {
      TypingState(main, dTypes, dExpr)
    }

    /** `to_type`: `_to_type` (given as `step`, which may record types and
      * expressions) applied to `main` while it is not a type variable, at
      * most twice, each result becoming the new `main`. */
    method ToType(step: TypingState -> TypingState) returns (t: Typing)
      modifies this
      ensures State() == ToTypeResult(old(State()), step)
      ensures t == main && defaultType == old(defaultType)
    {
      var count := 0;
      while count < 2 && !main.BasicTypeVariable?
        invariant 0 <= count <= 2
        invariant State() == Iterate(old(State()), step, count)
        invariant forall k :: 0 <= k < count ==> !Iterate(old(State()), step, k).main.BasicTypeVariable?
        invariant defaultType == old(defaultType)
      {
        var s := step(State());
        main, dTypes, dExpr := s.main, s.types, s.exprs;
        count := count + 1;
      }
      t := main;
      ToTypeUnique(old(State()), step, count);
    }
  }

  /** The stopping point of the loop is determined: the count where the
    * loop stops is the one `ToTypeResult` describes. */
  lemma ToTypeUnique(s: TypingState, step: TypingState -> TypingState, count: nat)
    requires count <= 2
    requires forall k :: 0 <= k < count ==> !Iterate(s, step, k).main.BasicTypeVariable?
    requires count < 2 ==> Iterate(s, step, count).main.BasicTypeVariable?
    ensures Iterate(s, step, count) == ToTypeResult(s, step)
  {
    assert Iterate(s, step, 1) == step(s);
    assert Iterate(s, step, 2) == step(step(s));
  }
}
