/** The argument-parsing nodes of the C-API wrapper (pyccel/ast/cwrapper.py):
  * the registry of format units, the format string of `PyArg_ParseTuple`
  * and of `Py_BuildValue`, and the keyword-name list. Format units follow
  * the Python/C API section "Parsing arguments and building values". */
module CWrapperNodes {
  import opened Wrappers

  /** The pyccel datatypes that reach the wrapper. */
  datatype DType =
    | NativeInteger
    | NativeReal
    | NativeComplex
    | NativeBool
    | NativeString
    | PyccelPyObject
    | NativeOther(name: string)

  /** `pytype_parse_registry[(dtype, precision)]`, or None for a pair the
    * registry does not hold. */
  function ParseUnit(dtype: DType, precision: int): Option<char>
  {
    if dtype == NativeInteger then
      (if precision == 4 then Some('i') else if precision == 8 then Some('l')
       else if precision == 2 then Some('h') else if precision == 1 then Some('b') else None)
    else if dtype == NativeReal then
      (if precision == 8 then Some('d') else if precision == 4 then Some('f') else None)
    else if dtype == NativeComplex then
      (if precision == 4 || precision == 8 then Some('O') else None)
    else if dtype == NativeBool then (if precision == 4 then Some('p') else None)
    else if dtype == NativeString then (if precision == 0 then Some('s') else None)
    else if dtype == PyccelPyObject then (if precision == 0 then Some('O') else None)
    else None
  }

  /** The width in bytes of the C object a numeric format unit converts to
    * (`b` unsigned char, `h` short, `i` int, `l` long on an LP64 platform,
    * `f` float, `d` double); 0 for the non-numeric units. */
  function UnitWidth(u: char): nat
  {
    match u
    case 'b' => 1
    case 'h' => 2
    case 'i' => 4
    case 'l' => 8
    case 'f' => 4
    case 'd' => 8
    case _ => 0
  }

  /** Integers and reals are read with the unit whose C object has the
    * precision's width; complex numbers and Python objects go through `O`,
    * booleans through `p`, strings through `s`; no unit is the optional
    * marker `|`. */
  lemma RegistryMatchesFormatUnits(dtype: DType, precision: int)
    ensures var u := ParseUnit(dtype, precision);
      (u.Some? ==> u.value != '|') &&
      ((dtype == NativeInteger || dtype == NativeReal) && u.Some? ==> UnitWidth(u.value) == precision) &&
      (dtype == NativeInteger ==> (u.Some? <==> precision in {1, 2, 4, 8})) &&
      (dtype == NativeReal ==> (u.Some? <==> precision in {4, 8})) &&
      ((dtype == NativeComplex || dtype == PyccelPyObject) && u.Some? ==> u.value == 'O') &&
      (dtype == NativeBool && u.Some? ==> u.value == 'p') &&
      (dtype == NativeString && u.Some? ==> u.value == 's') &&
      (dtype.NativeOther? ==> u.None?)
  {
  }

  /** A value passed to a node: whether it is a Variable, a ValuedVariable
    * (an argument with a default) or keyword-only, and its type. */
  datatype CValue = CValue(name: string, isVariable: bool, isValued: bool, isKwonly: bool,
                           dtype: DType, precision: int)
  {
    predicate IsValuedVariable() { isVariable && isValued }
  }

  /** `PyArgKeywords(name, arg_names)`: the C array of keyword names. */
  datatype PyArgKeywords = PyArgKeywords(name: string, argNames: seq<string>)

  /** What is passed as `arg_names`. */
  datatype ArgNames = Keywords(keywords: PyArgKeywords) | NotKeywords

  /** A sequence handed to a node, with whether it is a Python list. */
  datatype ValueList = ValueList(isList: bool, items: seq<CValue>)

  datatype ParseTupleNode = ParseTupleNode(
    pyarg: CValue, pykwarg: CValue, args: seq<CValue>, argNames: PyArgKeywords, flags: string)

  datatype BuildValueNode = BuildValueNode(args: seq<CValue>, flags: string)

  // -------------------------------------------------------------- flags

  /** The registry units of `args`, in order; KeyError at the first pair
    * the registry lacks. */
  function Units(args: seq<CValue>): Result<string>
  {
    if args == [] then Success("")
    else
      match Units(args[..|args| - 1])
      case Failure(k, m) => Failure(k, m)
      case Success(u) =>
        var a := args[|args| - 1];
        match ParseUnit(a.dtype, a.precision)
        case None => Failure(KeyError, "(dtype, precision) not in pytype_parse_registry")
        case Some(c) => Success(u + [c])
  }

  predicate Registered(a: CValue)
  {
    ParseUnit(a.dtype, a.precision).Some?
  }

  /** One unit per value, each the registry's, and failure exactly when
    * some pair is unregistered. */
  lemma {:induction false} UnitsPointwise(args: seq<CValue>)
    ensures Units(args).Success? <==> forall j :: 0 <= j < |args| ==> Registered(args[j])
    ensures Units(args).Success? ==> (|Units(args).value| == |args| &&
      forall j :: 0 <= j < |args| ==> Units(args).value[j] == ParseUnit(args[j].dtype, args[j].precision).value)
    decreases |args|
  {
    if args != [] {
      var front := args[..|args| - 1];
      UnitsPointwise(front);
      assert forall j :: 0 <= j < |front| ==> front[j] == args[j];
    }
  }

  /** The index of the first argument with a default, or `|args|`. */
  function FirstValued(args: seq<CValue>): (k: nat)
    ensures k <= |args|
    ensures forall j :: 0 <= j < k ==> !args[j].IsValuedVariable()
    ensures k < |args| ==> args[k].IsValuedVariable()
  {
    if args == [] then 0
    else if args[0].IsValuedVariable() then 0
    else 1 + FirstValued(args[1..])
  }

  /** The format string of `PyArg_ParseTuple`: the units of the arguments
    * without defaults, `|`, then the units of the rest. */
  function TupleFlags(args: seq<CValue>): Result<string>
  {
    var k := FirstValued(args);
    match Units(args[..k])
    case Failure(e, m) => Failure(e, m)
    case Success(head) =>
      match Units(args[k..])
      case Failure(e, m) => Failure(e, m)
      case Success(tail) => Success(head + (if k < |args| then "|" else "") + tail)
  }

  /** The format string splits at the first argument with a default. */
  lemma TupleFlagsSplit(args: seq<CValue>)
    requires TupleFlags(args).Success?
    ensures var k := FirstValued(args);
      Units(args[..k]).Success? && Units(args[k..]).Success? &&
      TupleFlags(args).value ==
        Units(args[..k]).value + (if k < |args| then "|" else "") + Units(args[k..]).value
  {
  }

  /** Every argument is registered when the format string exists. */
  lemma TupleFlagsRegistered(args: seq<CValue>)
    requires TupleFlags(args).Success?
    ensures forall j :: 0 <= j < |args| ==> Registered(args[j])
  {
    var k := FirstValued(args);
    TupleFlagsSplit(args);
    UnitsPointwise(args[..k]);
    UnitsPointwise(args[k..]);
    forall j | 0 <= j < |args|
      ensures Registered(args[j])
    {
      if j < k { assert args[..k][j] == args[j]; } else { assert args[k..][j - k] == args[j]; }
    }
  }

  /** One unit per argument, in declared order, around the `|` that
    * precedes the first argument with a default. */
  lemma TupleFlagsUnits(args: seq<CValue>)
    requires TupleFlags(args).Success?
    ensures var f := TupleFlags(args).value;
      var k := FirstValued(args);
      var bar := if k < |args| then 1 else 0;
      |f| == |args| + bar &&
      (forall j :: 0 <= j < |args| ==> Registered(args[j])) &&
      (forall j :: 0 <= j < k ==> f[j] == ParseUnit(args[j].dtype, args[j].precision).value) &&
      (forall j :: k <= j < |args| ==> f[j + bar] == ParseUnit(args[j].dtype, args[j].precision).value) &&
      (k < |args| ==> f[k] == '|')
  {
    TupleFlagsRegistered(args);
    TupleFlagsHead(args);
    TupleFlagsTail(args);
  }

  /** The format string in three parts: the units before the first argument
    * with a default, the separator, and the units from there on. */
  lemma TupleFlagsParts(args: seq<CValue>)
    requires TupleFlags(args).Success?
    ensures var k := FirstValued(args);
      var sep: string := if k < |args| then "|" else "";
      Units(args[..k]).Success? && Units(args[k..]).Success? &&
      |Units(args[..k]).value| == k && |Units(args[k..]).value| == |args| - k &&
      TupleFlags(args).value == Units(args[..k]).value + sep + Units(args[k..]).value
  {
    var k := FirstValued(args);
    TupleFlagsSplit(args);
    UnitsLength(args[..k]);
    UnitsLength(args[k..]);
  }

  lemma TupleFlagsHead(args: seq<CValue>)
    requires TupleFlags(args).Success?
    ensures var f := TupleFlags(args).value;
      var k := FirstValued(args);
      |f| == |args| + (if k < |args| then 1 else 0) &&
      (k < |args| ==> f[k] == '|') &&
      (forall j :: 0 <= j < |args| ==> Registered(args[j])) &&
      forall j :: 0 <= j < k ==> f[j] == ParseUnit(args[j].dtype, args[j].precision).value
  {
    var f := TupleFlags(args).value;
    var k := FirstValued(args);
    var head := args[..k];
    var sep: string := if k < |args| then "|" else "";
    TupleFlagsRegistered(args);
    TupleFlagsParts(args);
    JoinAt(Units(head).value, sep, Units(args[k..]).value, f);
    forall j | 0 <= j < k
      ensures f[j] == ParseUnit(args[j].dtype, args[j].precision).value
    {
      assert head[j] == args[j];
      UnitAt(head, j);
    }
  }

  lemma TupleFlagsTail(args: seq<CValue>)
    requires TupleFlags(args).Success?
    ensures var f := TupleFlags(args).value;
      var k := FirstValued(args);
      var bar := if k < |args| then 1 else 0;
      |f| == |args| + bar &&
      (forall j :: 0 <= j < |args| ==> Registered(args[j])) &&
      forall j :: k <= j < |args| ==> f[j + bar] == ParseUnit(args[j].dtype, args[j].precision).value
  {
    var f := TupleFlags(args).value;
    var k := FirstValued(args);
    var tail := args[k..];
    var bar := if k < |args| then 1 else 0;
    var sep: string := if k < |args| then "|" else "";
    TupleFlagsRegistered(args);
    TupleFlagsParts(args);
    JoinAt(Units(args[..k]).value, sep, Units(tail).value, f);
    forall j | k <= j < |args|
      ensures f[j + bar] == ParseUnit(args[j].dtype, args[j].precision).value
    {
      assert tail[j - k] == args[j];
      UnitAt(tail, j - k);
      assert f[k + bar + (j - k)] == Units(tail).value[j - k];
    }
  }

  /** Where the parts of `h + sep + t` sit. */
  lemma JoinAt(h: string, sep: string, t: string, f: string)
    requires f == h + sep + t
    ensures |f| == |h| + |sep| + |t|
    ensures forall j :: 0 <= j < |h| ==> f[j] == h[j]
    ensures forall j :: 0 <= j < |t| ==> f[|h| + |sep| + j] == t[j]
    ensures |sep| > 0 ==> f[|h|] == sep[0]
  {
  }

  lemma UnitsLength(s: seq<CValue>)
    requires Units(s).Success?
    ensures |Units(s).value| == |s|
  {
    UnitsPointwise(s);
  }

  lemma UnitAt(s: seq<CValue>, j: nat)
    requires Units(s).Success? && j < |s|
    ensures j < |Units(s).value| && Registered(s[j]) && Units(s).value[j] == ParseUnit(s[j].dtype, s[j].precision).value
  {
    UnitsPointwise(s);
  }

  /** Exactly one `|`, at the first argument with a default, iff there is
    * one. */
  lemma TupleFlagsBar(args: seq<CValue>)
    requires TupleFlags(args).Success?
    ensures var f := TupleFlags(args).value;
      var k := FirstValued(args);
      (('|' in f) <==> exists j :: 0 <= j < |args| && args[j].IsValuedVariable()) &&
      (forall j :: 0 <= j < |f| && f[j] == '|' ==> j == k)
  {
    TupleFlagsHead(args);
    BarOnlyAtSplit(args);
    var f := TupleFlags(args).value;
    if FirstValued(args) < |args| {
      assert f[FirstValued(args)] == '|';
    }
  }

  /** No unit is `|`, so the separator is the only one. */
  lemma BarOnlyAtSplit(args: seq<CValue>)
    requires TupleFlags(args).Success?
    ensures var f := TupleFlags(args).value;
      forall j :: 0 <= j < |f| && j != FirstValued(args) ==> f[j] != '|'
  {
    TupleFlagsUnits(args);
    var f := TupleFlags(args).value;
    var k := FirstValued(args);
    var bar := if k < |args| then 1 else 0;
    forall j | 0 <= j < |f| && j != k
      ensures f[j] != '|'
    {
      var a := if j < k then j else j - bar;
      RegistryMatchesFormatUnits(args[a].dtype, args[a].precision);
    }
  }

  lemma UnitsExtend(s: seq<CValue>, n: nat, u: string)
    requires n < |s| && Units(s[..n]) == Success(u) && Registered(s[n])
    ensures Units(s[..n + 1]) == Success(u + [ParseUnit(s[n].dtype, s[n].precision).value])
  {
    assert s[..n + 1][..n] == s[..n];
  }

  /** An unregistered value after registered ones makes the whole unit
    * string fail with the registry's KeyError. */
  lemma UnitsFailAt(s: seq<CValue>, n: nat, u: string)
    requires n < |s| && Units(s[..n]) == Success(u) && !Registered(s[n])
    ensures Units(s) == Failure(KeyError, "(dtype, precision) not in pytype_parse_registry")
  {
    assert s[..n + 1][..n] == s[..n];
    UnitsFailOnPrefix(s, n + 1);
  }

  /** An unregistered argument before the first one with a default. */
  lemma HeadFails(args: seq<CValue>, i: nat, flags: string)
    requires i < FirstValued(args) && Units(args[..FirstValued(args)][..i]) == Success(flags)
    requires !Registered(args[i])
    ensures Units(args[..FirstValued(args)]) == Failure(KeyError, "(dtype, precision) not in pytype_parse_registry")
  {
    var k := FirstValued(args);
    assert args[..k][i] == args[i];
    UnitsFailAt(args[..k], i, flags);
  }

  /** One more registered argument before the first one with a default. */
  lemma HeadStep(args: seq<CValue>, i: nat, flags: string)
    requires i < FirstValued(args) && Units(args[..FirstValued(args)][..i]) == Success(flags)
    requires Registered(args[i])
    ensures Units(args[..FirstValued(args)][..i + 1]) ==
      Success(flags + [ParseUnit(args[i].dtype, args[i].precision).value])
  {
    var k := FirstValued(args);
    assert args[..k][i] == args[i];
    UnitsExtend(args[..k], i, flags);
  }

  /** `PyArg_ParseTupleNode`'s two loops over the shared index `i`. */
  method ParseTupleFlags(args: seq<CValue>) returns (r: Result<string>)
    ensures r == TupleFlags(args)
  {
    var head, i := ParseHeadFlags(args);
    if head.Failure? {
      return Failure(head.kind, head.msg);
    }
    var flags := head.value;
    if i < |args| {
      flags := flags + "|";
    }
    r := ParseRestFlags(args, i, flags);
    TupleFlagsAfterHead(args, head.value);
    if Units(args[i..]).Success? {
      var sep: string := if i < |args| then "|" else "";
      assert flags == head.value + sep;
      assert r == Success(head.value + sep + Units(args[i..]).value);
    }
  }

  /** Once the arguments before the first one with a default have units, the
    * format string is those units, the separator and the rest's units, or
    * the rest's failure. */
  lemma TupleFlagsAfterHead(args: seq<CValue>, head: string)
    requires Units(args[..FirstValued(args)]) == Success(head)
    ensures var k := FirstValued(args);
      var sep: string := if k < |args| then "|" else "";
      var rest := Units(args[k..]);
      TupleFlags(args) == if rest.Failure? then rest else Success(head + sep + rest.value)
  {
  }

  /** The second loop: from index `start` on, one unit per argument appended
    * to `flags`, or the KeyError of the first unregistered one. */
  method ParseRestFlags(args: seq<CValue>, start: nat, flags0: string) returns (r: Result<string>)
    requires start <= |args|
    ensures Units(args[start..]).Failure? ==> r == Units(args[start..])
    ensures Units(args[start..]).Success? ==> r == Success(flags0 + Units(args[start..]).value)
  {
    var rest := args[start..];
    var flags, tail := flags0, "";
    var i := start;
    while i < |args|
      invariant start <= i <= |args|
      invariant Units(rest[..i - start]) == Success(tail)
      invariant flags == flags0 + tail
    {
      assert rest[i - start] == args[i];
      var u := ParseUnit(args[i].dtype, args[i].precision);
      if u.None? {
        UnitsFailAt(rest, i - start, tail);
        return Failure(KeyError, "(dtype, precision) not in pytype_parse_registry");
      }
      UnitsExtend(rest, i - start, tail);
      flags := flags + [u.value];
      tail := tail + [u.value];
      i := i + 1;
    }
    assert rest[..i - start] == rest;
    r := Success(flags);
  }

  /** The first loop: the units of the arguments before the first one with a
    * default, and the index where it stops. */
  method ParseHeadFlags(args: seq<CValue>) returns (r: Result<string>, i: nat)
    ensures r == Units(args[..FirstValued(args)])
    ensures r.Success? ==> i == FirstValued(args)
  {
    var k := FirstValued(args);
    var flags := "";
    i := 0;
    while i < |args| && !args[i].IsValuedVariable()
      invariant i <= k
      invariant Units(args[..k][..i]) == Success(flags)
    {
      var u := ParseUnit(args[i].dtype, args[i].precision);
      if u.None? {
        HeadFails(args, i, flags);
        return Failure(KeyError, "(dtype, precision) not in pytype_parse_registry"), i;
      }
      HeadStep(args, i, flags);
      flags := flags + [u.value];
      i := i + 1;
    }
    assert args[..k][..k] == args[..k];
    r := Success(flags);
  }

  lemma {:induction false} UnitsFailOnPrefix(args: seq<CValue>, i: nat)
    requires i <= |args| && Units(args[..i]).Failure?
    ensures Units(args) == Units(args[..i])
    decreases |args| - i
  {
    if i < |args| {
      assert args[..i + 1][..i] == args[..i];
      UnitsFailOnPrefix(args, i + 1);
    } else {
      assert args[..i] == args;
    }
  }

  /** `PyBuildValueNode`'s loop: the units of the results, concatenated. */
  method BuildValueFlags(results: seq<CValue>) returns (r: Result<string>)
    ensures r == Units(results)
  {
    var flags := "";
    var i := 0;
    while i < |results|
      invariant i <= |results|
      invariant Units(results[..i]) == Success(flags)
    {
      assert results[..i + 1][..i] == results[..i];
      var u := ParseUnit(results[i].dtype, results[i].precision);
      if u.None? {
        UnitsFailOnPrefix(results, i + 1);
        return Failure(KeyError, "(dtype, precision) not in pytype_parse_registry");
      }
      flags := flags + [u.value];
      i := i + 1;
    }
    assert results[..i] == results;
    r := Success(flags);
  }

  /** Without defaults, a function's arguments are parsed with the same
    * format string that builds them back. */
  lemma ParseAndBuildAgree(args: seq<CValue>)
    requires forall j :: 0 <= j < |args| ==> !args[j].IsValuedVariable()
    ensures TupleFlags(args) == Units(args)
  {
    var k := FirstValued(args);
    assert k == |args|;
    assert args[..k] == args && args[k..] == [];
    match Units(args)
    case Failure(_, _) =>
    case Success(h) =>
      assert h + "" + "" == h;
  }

  // ------------------------------------------------------------ the nodes

  /** The TypeError the constructor raises for its inputs, if any; lists
    * must be lists of Variables. */
  function ParseTupleError(pyarg: CValue, pykwarg: CValue, cArgs: ValueList, parseArgs: ValueList,
                           argNames: ArgNames): Option<string>
  {
    if !pyarg.isVariable then Some("Python func args should be a Variable")
    else if !pykwarg.isVariable then Some("Python func kwargs should be a Variable")
    else if !ListOfVariables(cArgs) then Some("C func args should be a list of Variables")
    else if !ListOfVariables(parseArgs) then Some("Parse args should be a list of Variables")
    else if argNames.NotKeywords? then Some("Parse args should be a list of Variables")
    else if |parseArgs.items| != |cArgs.items| then Some("There should be the same number of c_func_args and parse_args")
    else None
  }

  /** A Python list whose items are all Variables. */
  predicate ListOfVariables(l: ValueList)
  {
    l.isList && forall j :: 0 <= j < |l.items| ==> l.items[j].isVariable
  }

  /** The list test as written: `not isinstance(l, list) and any(not
    * isinstance(c, Variable) for c in l)`, which rejects only a non-list
    * holding a non-Variable. */
  predicate ListOfVariablesAsWritten(l: ValueList)
  {
    !(!l.isList && exists j :: 0 <= j < |l.items| && !l.items[j].isVariable)
  }

  /** A list holding something other than a Variable passes the test as
    * written, while the intended test rejects it. */
  lemma AsWrittenAcceptsNonVariable()
    ensures var l := ValueList(true, [CValue("1", false, false, false, NativeInteger, 8)]);
      ListOfVariablesAsWritten(l) && !ListOfVariables(l)
  {
    var l := ValueList(true, [CValue("1", false, false, false, NativeInteger, 8)]);
    assert !l.items[0].isVariable;
  }

  /** The intended test rejects every input the test as written rejects,
    * and also every list holding a non-Variable. */
  lemma ListTestStrengthens(l: ValueList)
    ensures ListOfVariables(l) ==> ListOfVariablesAsWritten(l)
    ensures l.isList ==> (ListOfVariables(l) <==> forall j :: 0 <= j < |l.items| ==> l.items[j].isVariable)
    ensures !l.isList ==> !ListOfVariables(l)
  {
  }

  const KwonlyWarning: string :=
    "Kwarg only arguments without default values will not raise an error if they are not passed"

  /** `PyArg_ParseTupleNode(...)`: validate the inputs, build the format
    * string, and warn (without failing) about keyword-only arguments. */
  method NewParseTupleNode(pyarg: CValue, pykwarg: CValue, cArgs: ValueList, parseArgs: ValueList,
                           argNames: ArgNames) returns (r: Result<ParseTupleNode>, log: seq<Report>)
    ensures ParseTupleError(pyarg, pykwarg, cArgs, parseArgs, argNames).Some? ==>
      r == Failure(TypeError, ParseTupleError(pyarg, pykwarg, cArgs, parseArgs, argNames).value) && log == []
    ensures ParseTupleError(pyarg, pykwarg, cArgs, parseArgs, argNames).None? ==>
      (r.Success? <==> TupleFlags(cArgs.items).Success?)
    ensures r.Success? ==>
      r.value == ParseTupleNode(pyarg, pykwarg, parseArgs.items, argNames.keywords, TupleFlags(cArgs.items).value)
    ensures log != [] <==>
      r.Success? && exists j :: 0 <= j < |cArgs.items| && cArgs.items[j].isVariable && cArgs.items[j].isKwonly
    ensures log != [] ==> log == [Report(KwonlyWarning, Warning)]
    ensures !HasFatal(log)
  {
    log := [];
    var err := ParseTupleError(pyarg, pykwarg, cArgs, parseArgs, argNames);
    if err.Some? {
      return Failure(TypeError, err.value), log;
    }
    var flags := ParseTupleFlags(cArgs.items);
    if flags.Failure? {
      return Failure(flags.kind, flags.msg), log;
    }
    r := Success(ParseTupleNode(pyarg, pykwarg, parseArgs.items, argNames.keywords, flags.value));
    if exists j :: 0 <= j < |cArgs.items| && cArgs.items[j].isVariable && cArgs.items[j].isKwonly {
      log := [Report(KwonlyWarning, Warning)];
    }
  }

  /** `PyBuildValueNode(result_args)`. */
  method NewBuildValueNode(results: seq<CValue>) returns (r: Result<BuildValueNode>)
    ensures r.Success? <==> forall j :: 0 <= j < |results| ==> Registered(results[j])
    ensures r.Success? ==> (Units(results).Success? && r.value.args == results &&
      r.value.flags == Units(results).value && |r.value.flags| == |results| &&
      forall j :: 0 <= j < |results| ==> r.value.flags[j] == ParseUnit(results[j].dtype, results[j].precision).value)
  {
    UnitsPointwise(results);
    var flags := BuildValueFlags(results);
    if flags.Failure? {
      return Failure(flags.kind, flags.msg);
    }
    r := Success(BuildValueNode(results, flags.value));
  }
}
