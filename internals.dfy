/** Basic AST classes shared across the compiler (pyccel/ast/internals.py):
  * slices and their validation, symbols with their equality and hash, the
  * `symbols` splitter, the array-size node and the internal-function base. */
module Internals {
  import opened Wrappers

  /** The pass the compiler is in; only the syntactic stage skips checks. */
  datatype Stage = Syntactic | Semantic | Codegen

  /** The datatypes a node may carry. */
  datatype NodeType = IntegerType | RealType | ComplexType | BoolType | StringType | GenericType

  /** An operand of a slice: its printed text and its `dtype` attribute, if
    * it has one. */
  datatype Term = Term(text: string, dtype: Option<NodeType>)
  {
    predicate IsInteger() { dtype == Some(IntegerType) }
  }

  datatype Slice = Slice(start: Option<Term>, stop: Option<Term>, step: Option<Term>)

  /** `Slice(start, stop, step)`: in the syntactic stage anything is kept;
    * later each bound that is present must be an integer. */
  function NewSlice(start: Option<Term>, stop: Option<Term>, step: Option<Term>, stage: Stage): Result<Slice>
  {
    if stage == Syntactic then Success(Slice(start, stop, step))
    else if start.Some? && !start.value.IsInteger() then Failure(TypeError, "Slice start must be Integer or None")
    else if stop.Some? && !stop.value.IsInteger() then Failure(TypeError, "Slice stop must be Integer or None")
    else if step.Some? && !step.value.IsInteger() then Failure(TypeError, "Slice step must be Integer or None")
    else Success(Slice(start, stop, step))
  }

  predicate IntegerOrNone(b: Option<Term>)
  {
    b.None? || b.value.IsInteger()
  }

  /** A slice is built as given iff the stage is syntactic or every bound
    * is an integer or absent; otherwise the TypeError names the first bad
    * bound. */
  lemma NewSliceValidates(start: Option<Term>, stop: Option<Term>, step: Option<Term>, stage: Stage)
    ensures var r := NewSlice(start, stop, step, stage);
      (r.Success? <==> stage == Syntactic || (IntegerOrNone(start) && IntegerOrNone(stop) && IntegerOrNone(step))) &&
      (r.Success? ==> r.value == Slice(start, stop, step)) &&
      (r.Failure? ==> (r.kind == TypeError &&
        (!IntegerOrNone(start) ==> r.msg == "Slice start must be Integer or None") &&
        (IntegerOrNone(start) && !IntegerOrNone(stop) ==> r.msg == "Slice stop must be Integer or None") &&
        (IntegerOrNone(start) && IntegerOrNone(stop) ==> r.msg == "Slice step must be Integer or None")))
  {
  }

  function BoundText(b: Option<Term>): string
  {
    match b
    case None => ""
    case Some(t) => t.text
  }

  /** `str(slice)`: `start : stop`, empty text for an absent bound; the step
    * is never shown. */
  function SliceStr(s: Slice): string
  {
    BoundText(s.start) + " : " + BoundText(s.stop)
  }

  /** The text shows the start before the first colon and the stop after
    * it, so both can be read back when the start has no colon, and two
    * slices differing only in their step print alike. */
  lemma SliceStrReadsBack(s: Slice, step: Option<Term>)
    requires ':' !in BoundText(s.start)
    ensures var t := SliceStr(s); var n := |BoundText(s.start)|;
      |t| == n + 3 + |BoundText(s.stop)| &&
      t[n + 1] == ':' && (forall k :: 0 <= k <= n ==> t[k] != ':' || k == n + 1) &&
      t[..n] == BoundText(s.start) && t[n + 3..] == BoundText(s.stop)
    ensures SliceStr(s.(step := step)) == SliceStr(s)
  {
  }

  // ---------------------------------------------------------------- symbols

  /** A Python object passed as a name. */
  datatype PyValue = Str(s: string) | NonStr(typeName: string)

  /** A symbol: the name of its Python class (Symbol or a subclass) and its
    * name. */
  datatype Symbol = Symbol(cls: string, name: string)

  /** `Symbol(name)` (or a subclass `cls`): the name must be a string. */
  function NewSymbol(cls: string, name: PyValue): Result<Symbol>
  {
    match name
    case Str(s) => Success(Symbol(cls, s))
    case NonStr(t) => Failure(TypeError, "Symbol name should be a string, not <class '" + t + "'>")
  }

  /** `Symbol.__eq__`. */
  predicate SymbolEq(a: Symbol, b: Symbol)
  {
    a.cls == b.cls && a.name == b.name
  }

  /** The string `Symbol.__hash__` hashes. */
  function HashKey(a: Symbol): string
  {
    a.cls + a.name
  }

  /** Equality is an equivalence that separates symbols of different
    * classes, and equal symbols hash alike. */
  lemma SymbolEqualityLaws(a: Symbol, b: Symbol, c: Symbol)
    ensures SymbolEq(a, a)
    ensures SymbolEq(a, b) ==> SymbolEq(b, a)
    ensures SymbolEq(a, b) && SymbolEq(b, c) ==> SymbolEq(a, c)
    ensures a.cls != b.cls ==> !SymbolEq(a, b)
    ensures SymbolEq(a, b) ==> HashKey(a) == HashKey(b)
    ensures SymbolEq(a, b) <==> a == b
  {
  }

  /** A string name always makes a symbol, and a non-string never does. */
  lemma NewSymbolChecksName(cls: string, name: PyValue)
    ensures NewSymbol(cls, name).Success? <==> name.Str?
    ensures name.Str? ==> NewSymbol(cls, name).value.name == name.s && NewSymbol(cls, name).value.cls == cls
  {
  }

  /** Python's `s.split(sep)`. */
  function Split(s: string, sep: char): (r: seq<string>)
    ensures |r| >= 1
  {
    if s == [] then [""]
    else
      var rest := Split(s[1..], sep);
      if s[0] == sep then [""] + rest else [[s[0]] + rest[0]] + rest[1..]
  }

  function Count(s: string, c: char): nat
  {
    if s == [] then 0 else (if s[0] == c then 1 else 0) + Count(s[1..], c)
  }

  lemma JoinFront(c: char, parts: seq<string>, sep: string)
    requires |parts| >= 1
    ensures Join([[c] + parts[0]] + parts[1..], sep) == [c] + Join(parts, sep)
  {
    var p := [[c] + parts[0]] + parts[1..];
    assert p[1..] == parts[1..];
  }

  /** Splitting gives one piece more than there are separators, no piece
    * holds the separator, and joining the pieces gives the text back. */
  lemma {:induction false} SplitJoin(s: string, sep: char)
    ensures |Split(s, sep)| == Count(s, sep) + 1
    ensures forall k :: 0 <= k < |Split(s, sep)| ==> sep !in Split(s, sep)[k]
    ensures Join(Split(s, sep), [sep]) == s
    decreases |s|
  {
    if s != [] {
      var rest := Split(s[1..], sep);
      SplitJoin(s[1..], sep);
      if s[0] == sep {
        assert Join([""] + rest, [sep]) == "" + [sep] + Join(rest, [sep]);
        assert s == [s[0]] + s[1..];
      } else {
        JoinFront(s[0], rest, [sep]);
        assert s == [s[0]] + s[1..];
        var r := Split(s, sep);
        forall k | 0 <= k < |r|
          ensures sep !in r[k]
        {
          if k > 0 { assert r[k] == rest[k]; }
        }
      }
    }
  }

  /** The characters `str.strip()` removes (ASCII whitespace). */
  predicate IsSpace(c: char)
  {
    c == ' ' || c == '\t' || c == '\n' || c == '\r' || c == '\U{B}' || c == '\U{C}'
  }

  function StripLeft(s: string): (r: string)
    ensures |r| <= |s| && r == s[|s| - |r|..]
    ensures r != [] ==> !IsSpace(r[0])
    ensures forall k :: 0 <= k < |s| - |r| ==> IsSpace(s[k])
  {
    if s != [] && IsSpace(s[0]) then StripLeft(s[1..]) else s
  }

  function StripRight(s: string): (r: string)
    ensures |r| <= |s| && r == s[..|r|]
    ensures r != [] ==> !IsSpace(r[|r| - 1])
    ensures forall k :: |r| <= k < |s| ==> IsSpace(s[k])
  {
    if s != [] && IsSpace(s[|s| - 1]) then StripRight(s[..|s| - 1]) else s
  }

  /** `str.strip()`. */
  function Strip(s: string): string
  {
    StripRight(StripLeft(s))
  }

  /** `r` is a slice `s[i..j]` with only whitespace before `i` and from `j`
    * on, and no whitespace at either of its own ends. */
  predicate MiddleCut(s: string, r: string)
  {
    exists i, j :: 0 <= i <= j <= |s| && r == s[i..j] &&
      (forall k :: 0 <= k < i ==> IsSpace(s[k])) && (forall k :: j <= k < |s| ==> IsSpace(s[k])) &&
      (r != [] ==> !IsSpace(r[0]) && !IsSpace(r[|r| - 1]))
  }

  /** Stripping keeps a middle slice of the text with only whitespace cut
    * off on either side, and leaves no whitespace at either end. */
  lemma {:induction false} StripCutsWhitespace(s: string)
    ensures MiddleCut(s, Strip(s))
  {
    var l := StripLeft(s);
    CutBothEnds(s, l, StripRight(l));
  }

  /** A right cut of a left cut, each removing only whitespace, is a middle
    * slice with whitespace on either side of it. */
  lemma CutBothEnds(s: string, l: string, r: string)
    requires |l| <= |s| && l == s[|s| - |l|..] && (forall k :: 0 <= k < |s| - |l| ==> IsSpace(s[k]))
    requires l != [] ==> !IsSpace(l[0])
    requires |r| <= |l| && r == l[..|r|] && (forall k :: |r| <= k < |l| ==> IsSpace(l[k]))
    requires r != [] ==> !IsSpace(r[|r| - 1])
    ensures MiddleCut(s, r)
  {
    var i := |s| - |l|;
    var j := i + |r|;
    assert r == s[i..j];
    forall k | j <= k < |s|
      ensures IsSpace(s[k])
    {
      assert s[k] == l[k - i];
    }
    if r != [] {
      assert r[0] == l[0];
    }
  }

  /** `symbols(names)`: one symbol per comma-separated piece, stripped, in
    * order. */
  function Symbols(names: string): (r: seq<Symbol>)
    ensures |r| == |Split(names, ',')|
    ensures forall k :: 0 <= k < |r| ==> r[k] == Symbol("Symbol", Strip(Split(names, ',')[k]))
  {
    var pieces := Split(names, ',');
    seq(|pieces|, k requires 0 <= k < |pieces| => Symbol("Symbol", Strip(pieces[k])))
  }

  function Names(syms: seq<Symbol>): (r: seq<string>)
    ensures |r| == |syms| && forall k :: 0 <= k < |syms| ==> r[k] == syms[k].name
  {
    if syms == [] then [] else [syms[0].name] + Names(syms[1..])
  }

  function NoSpace(s: string): bool
  {
    forall k :: 0 <= k < |s| ==> !IsSpace(s[k])
  }

  /** There is one symbol per comma plus one, and for a list written
    * without spaces the names joined by commas give the list back. */
  lemma SymbolsSplitNames(names: string)
    ensures |Symbols(names)| == Count(names, ',') + 1
    ensures NoSpace(names) ==> Join(Names(Symbols(names)), ",") == names
  {
    SplitJoin(names, ',');
    if NoSpace(names) {
      var pieces := Split(names, ',');
      forall k | 0 <= k < |pieces|
        ensures Strip(pieces[k]) == pieces[k]
      {
        PieceHasNoSpace(names, ',', k);
        NoSpaceStrip(pieces[k]);
      }
      assert Names(Symbols(names)) == pieces;
    }
  }

  lemma NoSpaceStrip(s: string)
    requires NoSpace(s)
    ensures Strip(s) == s
  {
  }

  /** A piece of a text without whitespace has none either. */
  lemma {:induction false} PieceHasNoSpace(s: string, sep: char, k: nat)
    requires NoSpace(s) && k < |Split(s, sep)|
    ensures NoSpace(Split(s, sep)[k])
    decreases |s|
  {
    if s != [] {
      var rest := Split(s[1..], sep);
      assert NoSpace(s[1..]) by {
        forall i | 0 <= i < |s[1..]| ensures !IsSpace(s[1..][i]) { assert s[1..][i] == s[i + 1]; }
      }
      if s[0] == sep {
        if k > 0 { PieceHasNoSpace(s[1..], sep, k - 1); }
      } else if k == 0 {
        PieceHasNoSpace(s[1..], sep, 0);
        var p := [s[0]] + rest[0];
        forall i | 0 <= i < |p| ensures !IsSpace(p[i]) {
          if i > 0 { assert p[i] == rest[0][i - 1]; }
        }
      } else {
        PieceHasNoSpace(s[1..], sep, k);
      }
    }
  }

  // -------------------------------------------------- array size, internals

  /** An argument handed to `PyccelArraySize`: a Python list or tuple, an
    * AST node, or something else (named by its class). */
  datatype SizeArg = ListArg(text: string) | NodeArg(text: string) | OtherArg(cls: string)
  {
    predicate IsNode() { NodeArg? }
    function TypeText(): string
    {
      match this
      case ListArg(_) => "<class 'list'>"
      case NodeArg(_) => "<class 'PyccelAstNode'>"
      case OtherArg(c) => "<class '" + c + "'>"
    }
  }

  /** `PyccelArraySize(arg, index)`: the size of `arg` along `index`, an
    * integer scalar. */
  datatype ArraySize = ArraySize(arg: SizeArg, index: SizeArg, dtype: NodeType, rank: nat,
                                 shape: seq<int>, precision: int)

  /** The constructor as written: both checks name the type of `arg`, so a
    * bad `index` is reported with the class of the (good) `arg`. */
  function NewArraySizeAsWritten(arg: SizeArg, index: SizeArg, intPrecision: int): Result<ArraySize>
  {
    if arg.OtherArg? then Failure(TypeError, "Unknown type of  " + arg.TypeText() + ".")
    else if !index.IsNode() then Failure(TypeError, "Unknown type of  " + arg.TypeText() + ".")
    else Success(ArraySize(arg, index, IntegerType, 0, [], intPrecision))
  }

  /** The constructor with the second message naming `index`. */
  function NewArraySize(arg: SizeArg, index: SizeArg, intPrecision: int): Result<ArraySize>
  {
    if arg.OtherArg? then Failure(TypeError, "Unknown type of  " + arg.TypeText() + ".")
    else if !index.IsNode() then Failure(TypeError, "Unknown type of  " + index.TypeText() + ".")
    else Success(ArraySize(arg, index, IntegerType, 0, [], intPrecision))
  }

  /** A valid node as `arg` and a plain integer as `index`: the message as
    * written names the node's class, where the intended one names `int`. */
  lemma ArraySizeMessageNamesArg()
    ensures var arg, index := NodeArg("x"), OtherArg("int");
      NewArraySizeAsWritten(arg, index, 8).Failure? &&
      NewArraySizeAsWritten(arg, index, 8).msg == "Unknown type of  " + arg.TypeText() + "." &&
      NewArraySize(arg, index, 8).msg == "Unknown type of  " + index.TypeText() + "." &&
      NewArraySizeAsWritten(arg, index, 8) != NewArraySize(arg, index, 8)
  {
    var t1, t2 := NodeArg("x").TypeText(), OtherArg("int").TypeText();
    assert |t1| == 23 && |t2| == 13;
    var m1 := NewArraySizeAsWritten(NodeArg("x"), OtherArg("int"), 8).msg;
    var m2 := NewArraySize(NodeArg("x"), OtherArg("int"), 8).msg;
    assert |m1| == 18 + |t1| && |m2| == 18 + |t2|;
  }

  /** The array-size node is an integer scalar when built, and every
    * rejection names the class of the offending argument. */
  lemma ArraySizeChecks(arg: SizeArg, index: SizeArg, intPrecision: int)
    ensures var r := NewArraySize(arg, index, intPrecision);
      (r.Success? <==> !arg.OtherArg? && index.IsNode()) &&
      (r.Success? ==> r.value.dtype == IntegerType && r.value.rank == 0 && r.value.shape == [] &&
                      r.value.precision == intPrecision && r.value.arg == arg && r.value.index == index) &&
      (arg.OtherArg? ==> r.msg == "Unknown type of  " + arg.TypeText() + ".") &&
      (!arg.OtherArg? && !index.IsNode() ==> r.msg == "Unknown type of  " + index.TypeText() + ".")
    ensures NewArraySizeAsWritten(arg, index, intPrecision).Success? <==> NewArraySize(arg, index, intPrecision).Success?
  {
  }

  /** `PyccelInternalFunction(*args)`: a call translated to a pyccel node,
    * holding its arguments as given. */
  datatype InternalFunction<T> = InternalFunction(args: seq<T>)
}
