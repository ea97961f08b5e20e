/** The helpers of pyccel/ast/utilities.py around the expansion pass:
  * splitting call arguments, the `types` decorator of a function, and the
  * lookup of built-in imports and functions. */
module AstUtilities {
  import opened Wrappers

  // ------------------------------------------- split_positional_keyword_arguments

  /** A call argument: a plain variable, or a `ValuedVariable` carrying its
    * default value. */
  datatype Arg = Arg(name: string, value: Option<string>)
  {
    predicate Valued() { value.Some? }
  }

  /** Index of the first valued argument, or `|args|` when there is none. */
  function FirstValued(args: seq<Arg>): (i: nat)
    ensures i <= |args|
    ensures forall k :: 0 <= k < i ==> !args[k].Valued()
    ensures i < |args| ==> args[i].Valued()
  {
    if args == [] then 0
    else if args[0].Valued() then 0
    else 1 + FirstValued(args[1..])
  }

  /** The keyword dictionary built from the trailing arguments: a later entry
    * with the same name replaces an earlier one. */
  function KwargsOf(vals: seq<Arg>): (m: map<string, Option<string>>)
    ensures m.Keys == set k | 0 <= k < |vals| :: vals[k].name
  {
    if vals == [] then map[]
    else KwargsOf(vals[..|vals| - 1])[vals[|vals| - 1].name := vals[|vals| - 1].value]
  }

  /** `split_positional_keyword_arguments(*args)`: everything before the first
    * valued argument stays positional; it and all later arguments go to the
    * keyword dictionary. */
  function SplitPositionalKeyword(args: seq<Arg>): (r: (seq<Arg>, map<string, Option<string>>))
    ensures r.0 == args[..FirstValued(args)]
    ensures forall k :: 0 <= k < |r.0| ==> !r.0[k].Valued()
    ensures r.1.Keys == set k | FirstValued(args) <= k < |args| :: args[k].name
  {
    var i := FirstValued(args);
    var kw := KwargsOf(args[i..]);
    assert (set k | 0 <= k < |args[i..]| :: args[i..][k].name) == (set k | i <= k < |args| :: args[k].name) by {
      forall k | i <= k < |args|
        ensures args[k].name in (set j | 0 <= j < |args[i..]| :: args[i..][j].name)
      {
        assert args[i..][k - i] == args[k];
      }
    }
    (args[..i], kw)
  }

  /** The value recorded for a name is that of its last occurrence. */
  lemma {:induction false} KwargsLastWins(vals: seq<Arg>, k: nat)
    requires k < |vals|
    requires forall j :: k < j < |vals| ==> vals[j].name != vals[k].name
    ensures KwargsOf(vals)[vals[k].name] == vals[k].value
    decreases |vals|
  {
    if k < |vals| - 1 {
      KwargsLastWins(vals[..|vals| - 1], k);
    }
  }

  /** Nothing is lost: the positional part followed by the keyword part is
    * the argument list, and the positional part is the longest prefix
    * without a default. */
  lemma SplitIsPartition(args: seq<Arg>)
    ensures var i := FirstValued(args);
      SplitPositionalKeyword(args).0 + args[i..] == args &&
      (i < |args| ==> args[i].Valued() && args[i].name in SplitPositionalKeyword(args).1)
  {
    var i := FirstValued(args);
    var r := SplitPositionalKeyword(args);
    assert args[..i] + args[i..] == args;
    if i < |args| {
      var names := set k | i <= k < |args| :: args[k].name;
      assert args[i].name in names;
      assert r.1.Keys == names;
    }
  }

  // ------------------------------------------------------ build_types_decorator

  /** A function argument as seen by the decorator builder. */
  datatype TypedArg = TypedVar(dtypeName: string, rank: nat) | NotVariable(text: string)

  /** `','.join(':' for each axis)`. */
  function Colons(rank: nat): (r: string)
    ensures rank > 0 ==> |r| == 2 * rank - 1
    ensures forall k :: 0 <= k < |r| ==> r[k] == (if k % 2 == 0 then ':' else ',')
  {
    if rank == 0 then "" else if rank == 1 then ":" else ":," + Colons(rank - 1)
  }

  /** One entry of the decorator: the lower-cased type, `[:,...,:]` for an
    * array, and `(order=...)` for an array of rank above 1 when an order is
    * requested. */
  function TypeEntry(a: TypedArg, order: string): string
    requires a.TypedVar?
  {
    var dtype := Lower(a.dtypeName);
    if a.rank == 0 then dtype
    else
      var shaped := dtype + "[" + Colons(a.rank) + "]";
      if order != "" && a.rank > 1 then shaped + "(order=" + order + ")" else shaped
  }

  /** `build_types_decorator(args, order)`; an argument that is not a variable
    * raises TypeError. */
  function BuildTypesDecorator(args: seq<TypedArg>, order: string): (r: Result<seq<string>>)
    ensures r.Success? <==> forall k :: 0 <= k < |args| ==> args[k].TypedVar?
    ensures r.Success? ==> (|r.value| == |args| &&
      forall k :: 0 <= k < |args| ==> r.value[k] == TypeEntry(args[k], order))
  {
    if args == [] then Success([])
    else if !args[0].TypedVar? then Failure(TypeError, "unepected type for " + args[0].text)
    else
      match BuildTypesDecorator(args[1..], order)
      case Failure(k, m) => Failure(k, m)
      case Success(rest) => Success([TypeEntry(args[0], order)] + rest)
  }

  /** The number of colons in `s`. */
  function ColonCount(s: string): nat
  {
    if s == [] then 0 else (if s[0] == ':' then 1 else 0) + ColonCount(s[1..])
  }

  lemma ColonCountAppend(a: string, b: string)
    ensures ColonCount(a + b) == ColonCount(a) + ColonCount(b)
  {
    if a != [] {
      assert (a + b)[0] == a[0];
      assert (a + b)[1..] == a[1..] + b;
      ColonCountAppend(a[1..], b);
    } else {
      assert a + b == b;
    }
  }

  lemma {:induction false} ColonsCount(rank: nat)
    ensures ColonCount(Colons(rank)) == rank
    decreases rank
  {
    if rank > 1 {
      ColonsCount(rank - 1);
      ColonCountAppend(":,", Colons(rank - 1));
    }
  }

  /** An entry holds exactly one `:` per axis (provided the type name and
    * the order hold none), and carries the order exactly when it was asked
    * for and the rank is above 1. */
  lemma TypeEntryAxes(a: TypedArg, order: string)
    requires a.TypedVar? && ColonCount(a.dtypeName) == 0 && ColonCount(order) == 0
    ensures ColonCount(TypeEntry(a, order)) == a.rank
    ensures a.rank > 1 && order != "" ==> (TypeEntry(a, order) ==
      Lower(a.dtypeName) + "[" + Colons(a.rank) + "]" + "(order=" + order + ")")
  {
    var dtype := Lower(a.dtypeName);
    LowerColonFree(a.dtypeName);
    if a.rank > 0 {
      var shaped := dtype + "[" + Colons(a.rank) + "]";
      ShapedColons(dtype, a.rank);
      if order != "" && a.rank > 1 {
        assert TypeEntry(a, order) == shaped + "(order=" + order + ")";
        ColonFree("(order=");
        ColonFree(")");
        ColonCountAppend(shaped, "(order=");
        ColonCountAppend(shaped + "(order=", order);
        ColonCountAppend(shaped + "(order=" + order, ")");
      }
    }
  }

  /** `dtype[:,...,:]` has one colon per axis when `dtype` has none. */
  lemma ShapedColons(dtype: string, rank: nat)
    requires rank > 0 && ColonCount(dtype) == 0
    ensures ColonCount(dtype + "[" + Colons(rank) + "]") == rank
  {
    ColonsCount(rank);
    ColonFree("[");
    ColonFree("]");
    ColonCountAppend(dtype, "[");
    ColonCountAppend(dtype + "[", Colons(rank));
    ColonCountAppend(dtype + "[" + Colons(rank), "]");
  }

  lemma {:induction false} ColonFree(s: string)
    requires forall k :: 0 <= k < |s| ==> s[k] != ':'
    ensures ColonCount(s) == 0
  {
    if s != [] {
      ColonFree(s[1..]);
    }
  }

  lemma LowerColonFree(s: string)
    requires ColonCount(s) == 0
    ensures ColonCount(Lower(s)) == 0
  {
    if s != [] {
      assert Lower(s)[1..] == Lower(s[1..]);
      LowerColonFree(s[1..]);
    }
  }

  // ----------------------------------------------- collect_relevant_imports

  /** An import target: a name, or `name as target`. */
  datatype Target = Name(name: string) | AsName(name: string, target: string)
  {
    function ImportName(): string { name }
    function CodeName(): string { if AsName? then target else name }
  }

  /** With no targets the whole dictionary is returned; otherwise the list of
    * `(code_name, object)` pairs for the targets the dictionary knows. */
  datatype Imported<T> = Everything(dict: map<string, T>) | Selected(pairs: seq<(string, T)>)

  function SelectTargets<T>(dict: map<string, T>, targets: seq<Target>): (r: seq<(string, T)>)
    ensures |r| <= |targets|
    ensures forall p :: p in r ==> exists k :: (0 <= k < |targets| && targets[k].ImportName() in dict &&
      p == (targets[k].CodeName(), dict[targets[k].ImportName()]))
    ensures forall k :: 0 <= k < |targets| && targets[k].ImportName() in dict ==>
      (targets[k].CodeName(), dict[targets[k].ImportName()]) in r
  {
    if targets == [] then []
    else
      var t := targets[0];
      var rest := SelectTargets(dict, targets[1..]);
      assert forall k :: 1 <= k < |targets| ==> targets[k] == targets[1..][k - 1];
      if t.ImportName() in dict then [(t.CodeName(), dict[t.ImportName()])] + rest else rest
  }

  /** `collect_relevant_imports(func_dictionary, targets)`. */
  function CollectRelevantImports<T>(dict: map<string, T>, targets: seq<Target>): Imported<T>
  {
    if |targets| == 0 then Everything(dict) else Selected(SelectTargets(dict, targets))
  }

  /** `builtin_import(expr)`: imports from `pyccel.decorators` are checked
    * against the decorator names (one error report per unknown target) and
    * yield nothing; imports from a registered module are collected; any
    * other source yields nothing. */
  function BuiltinImport<T>(source: Target, targets: seq<Target>,
                            registry: map<string, map<string, T>>, decorators: set<string>)
    : (r: (Imported<T>, seq<Report>))
    ensures source.ImportName() != "pyccel.decorators" ==> r.1 == []
    ensures source.ImportName() == "pyccel.decorators" ==>
      r.0 == Selected([]) && r.1 == DecoratorErrors(targets, decorators)
    ensures source.ImportName() != "pyccel.decorators" && source.ImportName() in registry ==>
      r.0 == CollectRelevantImports(registry[source.ImportName()], targets)
    ensures source.ImportName() != "pyccel.decorators" && source.ImportName() !in registry ==>
      r.0 == Selected([])
  {
    var src := source.ImportName();
    if src == "pyccel.decorators" then (Selected([]), DecoratorErrors(targets, decorators))
    else if src in registry then (CollectRelevantImports(registry[src], targets), [])
    else (Selected([]), [])
  }

  /** One error report per target that is not a decorator, in order. */
  function DecoratorErrors(targets: seq<Target>, decorators: set<string>): (r: seq<Report>)
    ensures |r| <= |targets|
    ensures forall k :: 0 <= k < |r| ==> r[k].severity == Error
    ensures r == [] <==> forall k :: 0 <= k < |targets| ==> targets[k].ImportName() in decorators
  {
    if targets == [] then []
    else
      var rest := DecoratorErrors(targets[1..], decorators);
      assert forall k :: 1 <= k < |targets| ==> targets[k] == targets[1..][k - 1];
      if targets[0].ImportName() in decorators then rest
      else [Report(targets[0].ImportName() + " does not exist in pyccel.decorators", Error)] + rest
  }

  // ---------------------------------------------------------- builtin_function

  /** What `builtin_function` is given: a function call (through the name of
    * its definition and its arguments), a bare name, or anything else. */
  datatype FuncRef = CallOf(funcName: string, callArgs: seq<string>) | NameOnly(name: string) | Unsupported

  /** The node `builtin_function` builds. */
  datatype BuiltinCall =
    | Builtin(name: string, args: seq<string>)
    | Map(func: string, iterables: seq<string>)
    | Lambdify(args: seq<string>)
    | NoBuiltin

  /** `builtin_function(expr, args)`: a registered built-in is applied to the
    * arguments; `map` applies the call's first argument to the remaining
    * ones; `lambdify` is deferred to the symbolic layer; any other name
    * gives no built-in. */
  function BuiltinFunction(expr: FuncRef, args: seq<string>, builtins: set<string>): (r: Result<BuiltinCall>)
    ensures expr.Unsupported? <==> r.Failure? && r.kind == TypeError
    ensures r.Success? && r.value.Builtin? ==> r.value.name in builtins && r.value.args == args
    ensures r.Success? && r.value.Map? ==> "map" !in builtins && expr.CallOf? && r.value.iterables == (if args == [] then [] else args[1..])
  {
    if expr.Unsupported? then Failure(TypeError, "expr must be of type str or FunctionCall")
    else
      var name := match expr
        case CallOf(f, _) => f
        case NameOnly(n) => n;
      if name in builtins then Success(Builtin(name, args))
      else if name == "map" then
        if expr.NameOnly? then Failure(AttributeError, "'str' object has no attribute 'args'")
        else if |expr.callArgs| == 0 then Failure(IndexError, "tuple index out of range")
        else Success(Map(expr.callArgs[0], if args == [] then [] else args[1..]))
      else if name == "lambdify" then Success(Lambdify(args))
      else Success(NoBuiltin)
  }

  /** The name `builtin_function` dispatches on. */
  function CalleeName(expr: FuncRef): string
    requires !expr.Unsupported?
  {
    if expr.CallOf? then expr.funcName else expr.name
  }

  /** The whole dispatch of `builtin_function`: the registry is consulted
    * first, then `map` (which needs a call with a first argument), then
    * `lambdify`; every other name yields no built-in. */
  lemma BuiltinFunctionCases(expr: FuncRef, args: seq<string>, builtins: set<string>)
    requires !expr.Unsupported?
    ensures var name := CalleeName(expr);
      var r := BuiltinFunction(expr, args, builtins);
      (name in builtins ==> r == Success(Builtin(name, args))) &&
      (name !in builtins && name == "map" && expr.NameOnly? ==> r.Failure? && r.kind == AttributeError) &&
      (name !in builtins && name == "map" && expr.CallOf? && expr.callArgs == [] ==>
        r.Failure? && r.kind == IndexError) &&
      (name !in builtins && name == "map" && expr.CallOf? && expr.callArgs != [] ==>
        r == Success(Map(expr.callArgs[0], if args == [] then [] else args[1..]))) &&
      (name !in builtins && name == "lambdify" ==> r == Success(Lambdify(args))) &&
      (name !in builtins && name != "map" && name != "lambdify" ==> r == Success(NoBuiltin))
  {
  }
}
