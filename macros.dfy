/** Header macros (pyccel/ast/macros.py): `shape`, `dtype` and `count` of an
  * argument, built by name. */
module Macros {
  import opened Wrappers
  import opened Internals

  /** What a macro is applied to: a symbol, a variable, or anything else
    * (named by its class). */
  datatype MacroArg = SymbolArg(name: string) | VariableArg(name: string) | OtherArg(cls: string)
  {
    function Text(): string
    {
      match this
      case SymbolArg(n) => n
      case VariableArg(n) => n
      case OtherArg(c) => c
    }
  }

  /** The macro kinds; `index` is the axis a shape macro asks for. */
  datatype Macro =
    | MacroShape(argument: MacroArg, index: Option<string>)
    | MacroType(argument: MacroArg)
    | MacroCount(argument: MacroArg)
  {
    /** The `_name` of the class. */
    function Name(): string
    {
      match this
      case MacroShape(_, _) => "shape"
      case MacroType(_) => "dtype"
      case MacroCount(_) => "count"
    }

    /** The datatype the node carries. */
    function DType(): NodeType
    {
      if MacroType? then GenericType else IntegerType
    }

    /** The precision set by the node itself (only `MacroType` sets one). */
    function Precision(): Option<int>
    {
      if MacroType? then Some(0) else None
    }

    /** Every macro is a scalar. */
    function Shape(): seq<int> { [] }
  }

  /** `_name` of the base class `Macro`. */
  const UndefinedName: string := "__UNDEFINED__"

  /** `Macro.__init__`'s check of the argument. */
  function CheckArgument(argument: MacroArg): Result<MacroArg>
  {
    if argument.OtherArg? then
      Failure(TypeError, "Argument must be a Pyccelsymbol or a Variable not <class '" + argument.cls + "'>")
    else Success(argument)
  }

  /** `construct_macro(name, argument, parameter)`: a non-string name is a
    * TypeError; `shape`, `dtype` and `count` build their macro (whose
    * constructor checks the argument); any other name gives None. */
  function ConstructMacro(name: PyValue, argument: MacroArg, parameter: Option<string>): Result<Option<Macro>>
  {
    if name.NonStr? then Failure(TypeError, "name must be of type str")
    else if name.s == "shape" then
      (match CheckArgument(argument)
       case Failure(k, m) => Failure(k, m)
       case Success(a) => Success(Some(MacroShape(a, parameter))))
    else if name.s == "dtype" then
      (match CheckArgument(argument)
       case Failure(k, m) => Failure(k, m)
       case Success(a) => Success(Some(MacroType(a))))
    else if name.s == "count" then
      (match CheckArgument(argument)
       case Failure(k, m) => Failure(k, m)
       case Success(a) => Success(Some(MacroCount(a))))
    else Success(None)
  }

  predicate KnownName(s: string)
  {
    s == "shape" || s == "dtype" || s == "count"
  }

  /** A macro is built iff the name is a known string and the argument a
    * symbol or variable; an unknown name gives None without the argument
    * being looked at; the macro built carries that name and the argument,
    * and a shape macro the parameter as its index. */
  lemma ConstructMacroDispatch(name: PyValue, argument: MacroArg, parameter: Option<string>)
    ensures var r := ConstructMacro(name, argument, parameter);
      (r.Failure? <==> name.NonStr? || (KnownName(name.s) && argument.OtherArg?)) &&
      (r.Success? ==> (r.value.Some? <==> KnownName(name.s))) &&
      (r.Success? && r.value.Some? ==>
         r.value.value.Name() == name.s && r.value.value.argument == argument &&
         (r.value.value.MacroShape? ==> r.value.value.index == parameter)) &&
      (name.Str? && !KnownName(name.s) ==> r == Success(None))
  {
  }

  /** A macro is rebuilt from its own name, argument and index. */
  lemma ConstructMacroRoundTrip(m: Macro)
    requires !m.argument.OtherArg?
    ensures ConstructMacro(Str(m.Name()), m.argument,
                           if m.MacroShape? then m.index else None) == Success(Some(m))
  {
  }

  /** The attributes every macro node sets: integer scalars, except the
    * type macro, a generic scalar of precision 0. */
  lemma MacroAttributes(m: Macro)
    ensures m.Shape() == []
    ensures (m.MacroShape? || m.MacroCount?) ==> m.DType() == IntegerType && m.Precision().None?
    ensures m.MacroType? ==> m.DType() == GenericType && m.Precision() == Some(0)
    ensures m.Name() != UndefinedName
  {
  }

  /** `str(macro)`: the index of a shape macro is shown only when set. */
  function MacroStr(m: Macro): string
  {
    match m
    case MacroShape(a, None) => "MacroShape(" + a.Text() + ")"
    case MacroShape(a, Some(i)) => "MacroShape(" + a.Text() + ", " + i + ")"
    case MacroType(a) => "MacroType(" + a.Text() + ")"
    case MacroCount(a) => "MacroCount(" + a.Text() + ")"
  }

  /** A shape macro's text ends in `, index)` exactly when an index is set,
    * for an argument written without a comma. */
  lemma MacroShapeStrIndex(a: MacroArg, index: Option<string>)
    requires ',' !in a.Text()
    ensures var t := MacroStr(MacroShape(a, index));
      (',' in t <==> index.Some?) &&
      (index.Some? ==> t[|t| - |index.value| - 3..] == ", " + index.value + ")")
  {
    var t := MacroStr(MacroShape(a, index));
    if index.None? {
      assert t == "MacroShape(" + a.Text() + ")";
      forall k | 0 <= k < |t|
        ensures t[k] != ','
      {
        if 11 <= k < 11 + |a.Text()| {
          assert t[k] == a.Text()[k - 11];
        }
      }
    } else {
      assert t[11 + |a.Text()|] == ',';
    }
  }
}
