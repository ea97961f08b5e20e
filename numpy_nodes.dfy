/** The NumPy call nodes of pyccel (pyccel/ast/numpyext.py): what each
  * constructor accepts, the dtype, precision, rank, shape and order it
  * computes, and the structure of the Fortran text some of them print.
  * Operands are described by their Python/SymPy class and by the text the
  * Fortran printer gives for them. */
module NumpyNodes {
  import opened Wrappers
  import ArrayOperands

  // ------------------------------------------------------------ operands

  /** The classes the constructors test arguments against. */
  datatype Kind =
    | PyList | PyTuple | SymTuple | ListNode   // list, tuple, Tuple, List
    | VariableNode | IndexedElementNode | IndexedBaseNode
    | ArrayCall                                // a numpy.array node
    | OtherCall                                // any other call node (an Application)
    | MulExpr | AddExpr | PowExpr
    | IntegerLit | RationalLit | FloatLit | NilNode
    | OtherKind(cls: string)
  {
    predicate IsListLike() { PyList? || PyTuple? || SymTuple? || ListNode? }
    /** SymPy's Integer is a subclass of Rational. */
    predicate IsRational() { RationalLit? || IntegerLit? }
    /** Every call node of this module is an Application. */
    predicate IsApplication() { ArrayCall? || OtherCall? }

    function ClassName(): string
    {
      match this
      case PyList => "list"
      case PyTuple => "tuple"
      case SymTuple => "Tuple"
      case ListNode => "List"
      case VariableNode => "Variable"
      case IndexedElementNode => "IndexedElement"
      case IndexedBaseNode => "IndexedBase"
      case ArrayCall => "Array"
      case OtherCall => "Application"
      case MulExpr => "Mul"
      case AddExpr => "Add"
      case PowExpr => "Pow"
      case IntegerLit => "Integer"
      case RationalLit => "Rational"
      case FloatLit => "Float"
      case NilNode => "Nil"
      case OtherKind(c) => c
    }
  }

  /** An argument node: its class, printed text (for an Array node, the
    * text of its list argument), dtype, precision, rank and order. */
  datatype Operand = Operand(kind: Kind, text: string, dtype: string, precision: int, rank: int, order: Option<char>)

  /** A dimension: a literal size or a symbolic one. */
  datatype Dim = Lit(n: int) | Sym(name: string)
  {
    function Text(): string
    {
      match this
      case Lit(n) => IntToString(n)
      case Sym(s) => s
    }

    /** The printed text of `d - 1`. */
    function PredText(): string
    {
      match this
      case Lit(n) => IntToString(n - 1)
      case Sym(s) => s + " - 1"
    }
  }

  datatype ShapeVal = NoShape | Dims(dims: seq<Dim>) | LenOf(text: string)

  /** The attributes every node exposes. */
  datatype Attrs = Attrs(dtype: string, precision: Option<int>, rank: int, order: Option<char>, shape: ShapeVal)

  /** `default_precision` for the three scalar kinds. */
  datatype Precisions = Precisions(intP: int, realP: int, complexP: int)

  function TypeMessage(k: Kind): string
  {
    "Uknown type of  <class '" + k.ClassName() + "'>."
  }

  /** `str.replace(c, '')`. */
  function RemoveChar(s: string, c: char): (r: string)
    ensures forall i :: 0 <= i < |r| ==> r[i] != c
  {
    if s == [] then s else (if s[0] == c then [] else [s[0]]) + RemoveChar(s[1..], c)
  }

  // ------------------------------------------------------------ Array

  /** A `numpy.array` node; `dtype` is the name of the array datatype
    * (`'ndarray' + base`), absent when none was given. */
  datatype ArrayNode = ArrayNode(dtype: Option<string>, precision: int, order: char, shape: seq<int>)
  {
    function Rank(): nat { |shape| }
  }

  /** `Array.__new__`: `dims` is `numpy.shape(arg)`; `registry` is
    * `dtype_and_precision_registry` and `defaults` is `default_precision`
    * keyed by array datatype name. */
  function NewArray(argKind: Kind, dims: seq<int>, dtype: Option<string>, order: string,
                    registry: map<string, (string, int)>, defaults: map<string, int>): Result<ArrayNode>
  {
    if !argKind.IsListLike() then Failure(TypeError, TypeMessage(argKind))
    else
      var key := if dtype.Some? then RemoveChar(dtype.value, '\'') else "";
      if dtype.Some? && key !in registry then Failure(KeyError, key)
      else
        var name := if dtype.Some? then Some("ndarray" + registry[key].0) else None;
        var prec := if dtype.Some? then registry[key].1 else 0;
        if name.Some? && prec == 0 && name.value !in defaults then Failure(KeyError, name.value)
        else
          var prec' := if name.Some? && prec == 0 then defaults[name.value] else prec;
          var o := StripChar(order, '\'');
          if o !in {"K", "A", "C", "F"} then Failure(ValueError, "Cannot recognize '" + o + "' order")
          else Success(ArrayNode(name, prec', if o == "F" then 'F' else 'C', dims))
  }

  /** Array construction: a non-sequence argument is a TypeError; an order
    * other than K, A, C or F (quotes stripped) a ValueError; K and A become
    * C; the rank is the number of dimensions of the literal; without a
    * dtype the precision is 0. */
  lemma NewArrayRules(argKind: Kind, dims: seq<int>, dtype: Option<string>, order: string,
                      registry: map<string, (string, int)>, defaults: map<string, int>)
    ensures var r := NewArray(argKind, dims, dtype, order, registry, defaults);
      (!argKind.IsListLike() ==> r.Failure? && r.kind == TypeError) &&
      (argKind.IsListLike() && dtype.None? ==>
         (r.Failure? <==> StripChar(order, '\'') !in {"K", "A", "C", "F"}) &&
         (r.Failure? ==> r.kind == ValueError) &&
         (r.Success? ==> r.value.dtype.None? && r.value.precision == 0)) &&
      (r.Success? ==>
         r.value.Rank() == |dims| && r.value.shape == dims &&
         (r.value.order == 'F' <==> StripChar(order, '\'') == "F") &&
         (StripChar(order, '\'') in {"K", "A"} ==> r.value.order == 'C'))
  {
  }

  // ------------------------------------------------------------ sum / prod

  datatype Reduction = SumCall | ProdCall
  {
    function FortranName(): string
    {
      if SumCall? then "sum" else "product"
    }
  }

  predicate ReductionAccepts(k: Kind)
  {
    k.IsListLike() || k.VariableNode? || k.MulExpr? || k.AddExpr? || k.PowExpr? || k.IsRational()
  }

  /** `NumpySum.__new__` / `Product.__new__` with their `dtype` and `rank`. */
  function NewReduction(red: Reduction, arg: Operand): Result<Attrs>
  {
    if !ReductionAccepts(arg.kind) then Failure(TypeError, TypeMessage(arg.kind))
    else Success(Attrs(arg.dtype, None, 0, None, NoShape))
  }

  /** `fprint` of a reduction. */
  function ReductionFprint(red: Reduction, argText: string, lhs: Option<string>): string
  {
    var call := red.FortranName() + "(" + argText + ")";
    if lhs.Some? then lhs.value + " = " + call else call
  }

  /** A reduction is a scalar of its operand's dtype, and its assignment
    * form is its expression form behind `lhs = `. */
  lemma ReductionRules(red: Reduction, arg: Operand, lhs: string)
    ensures NewReduction(red, arg).Success? <==> ReductionAccepts(arg.kind)
    ensures NewReduction(red, arg).Success? ==>
      NewReduction(red, arg).value.rank == 0 && NewReduction(red, arg).value.dtype == arg.dtype
    ensures ReductionFprint(red, arg.text, Some(lhs)) == lhs + " = " + ReductionFprint(red, arg.text, None)
  {
  }

  // ------------------------------------------------------------ matmul

  /** `Matmul.__new__`: the message for a rejected second operand names
    * the first operand's class, as written. */
  function NewMatmul(a: Operand, b: Operand): Result<Attrs>
  {
    if !ReductionAccepts(a.kind) then Failure(TypeError, TypeMessage(a.kind))
    else if !ReductionAccepts(b.kind) then Failure(TypeError, TypeMessage(a.kind))
    else Success(Attrs(a.dtype, None, 1, None, NoShape))
  }

  /** `Matmul.fprint`: two set orders that differ are rejected; a
    * column-major first operand prints `matmul(a,b)`, anything else
    * `matmul(b,a)`. */
  function MatmulFprint(a: Operand, b: Operand, lhs: Option<string>): Result<string>
  {
    if a.order.Some? && b.order.Some? && a.order != b.order then
      Failure(NotImplementedError, "Mixed order matmul not supported.")
    else
      var call := if a.order == Some('F') then "matmul(" + a.text + "," + b.text + ")"
                  else "matmul(" + b.text + "," + a.text + ")";
      Success(if lhs.Some? then lhs.value + " = " + call else call)
  }

  /** A row-major product is printed as the column-major product of the
    * swapped operands (the transpose of a product is the product of the
    * transposes in reverse order); only differing set orders fail; the node
    * is always rank 1. */
  lemma MatmulTranspose(a: Operand, b: Operand, lhs: Option<string>)
    ensures MatmulFprint(a, b, lhs).Failure? <==> (a.order.Some? && b.order.Some? && a.order != b.order)
    ensures a.order == Some('C') && b.order == Some('C') ==>
      MatmulFprint(a, b, lhs) == MatmulFprint(b.(order := Some('F')), a.(order := Some('F')), lhs)
    ensures NewMatmul(a, b).Success? ==> NewMatmul(a, b).value.rank == 1
  {
  }

  // ------------------------------------------------------------ shape

  /** An index expression: an integer literal or a named variable. */
  datatype IndexTerm = IntIndex(n: int) | NamedIndex(name: string)
  {
    /** Python truthiness: the literal 0 is false. */
    predicate Truthy() { !(IntIndex? && n == 0) }
    function Text(): string { if IntIndex? then IntToString(n) else name }
  }

  predicate ShapeAccepts(k: Kind)
  {
    k.IsListLike() || k.ArrayCall? || k.VariableNode? || k.IndexedElementNode? || k.IndexedBaseNode?
  }

  /** `Shape.__new__` with its attributes. */
  function NewShape(arg: Operand, dp: Precisions): Result<Attrs>
  {
    if !ShapeAccepts(arg.kind) then Failure(TypeError, TypeMessage(arg.kind))
    else Success(Attrs("ndarrayint", Some(dp.intP), 1, Some('C'), Dims([Lit(arg.rank)])))
  }

  function SizeCall(t: string, k: nat): string
  {
    "size(" + t + "," + NatToString(k) + ")"
  }

  /** `size(t,1)`, ..., `size(t,n)`. */
  function SizeCalls(t: string, n: nat): (r: seq<string>)
    ensures |r| == n && forall k :: 0 <= k < n ==> r[k] == SizeCall(t, k + 1)
  {
    if n == 0 then [] else SizeCalls(t, n - 1) + [SizeCall(t, n)]
  }

  function RevStrings(s: seq<string>): (r: seq<string>)
    ensures |r| == |s| && forall k :: 0 <= k < |s| ==> r[k] == s[|s| - 1 - k]
  {
    if s == [] then [] else [s[|s| - 1]] + RevStrings(s[..|s| - 1])
  }

  /** The sizes `Shape.fprint` lists: reversed for a C-ordered argument. */
  function ShapeSizes(arg: Operand): seq<string>
  {
    var n := if arg.rank < 0 then 0 else arg.rank;
    var sizes := SizeCalls(arg.text, n);
    if arg.order == Some('C') then RevStrings(sizes) else sizes
  }

  /** `Shape.fprint`. */
  function ShapeFprint(arg: Operand, index: Option<IndexTerm>, lhs: Option<string>): string
  {
    var init := Join(ShapeSizes(arg), ", ");
    var value := if index.None? then "[" + init + "]" else "size(" + init + ", " + index.value.Text() + ")";
    if lhs.Some? then
      "allocate(" + lhs.value + "(0:" + IntToString(arg.rank - 1) + "))" + "\n" +
      lhs.value + " = " + value
    else value
  }

  /** The printed sizes of a C-ordered array are its Fortran sizes last
    * axis first: position k holds `size(a, rank - k)`, where a Fortran
    * ordered one holds `size(a, k + 1)`; there is one per axis. */
  lemma ShapeSizesOrder(arg: Operand)
    requires arg.rank >= 0
    ensures |ShapeSizes(arg)| == arg.rank
    ensures arg.order == Some('C') ==> forall k :: 0 <= k < arg.rank ==> ShapeSizes(arg)[k] == SizeCall(arg.text, arg.rank - k)
    ensures arg.order != Some('C') ==> forall k :: 0 <= k < arg.rank ==> ShapeSizes(arg)[k] == SizeCall(arg.text, k + 1)
  {
  }

  /** `str(Shape)`: the index is shown only when it is truthy. */
  function ShapeStr(argText: string, index: Option<IndexTerm>): string
  {
    if index.Some? && index.value.Truthy() then "Shape(" + argText + "," + index.value.Text() + ")"
    else "Shape(" + argText + ")"
  }

  /** A shape node is a one-axis integer array with one entry per axis of
    * its argument; its text shows an index iff it is set and not the
    * literal 0 (which prints like no index at all). */
  lemma ShapeRules(arg: Operand, dp: Precisions, argText: string, index: Option<IndexTerm>)
    requires ',' !in argText
    ensures NewShape(arg, dp).Success? <==> ShapeAccepts(arg.kind)
    ensures NewShape(arg, dp).Success? ==>
      NewShape(arg, dp).value.rank == |NewShape(arg, dp).value.shape.dims| == 1 &&
      NewShape(arg, dp).value.shape.dims[0] == Lit(arg.rank)
    ensures (',' in ShapeStr(argText, index)) <==> (index.Some? && index.value.Truthy())
    ensures ShapeStr(argText, Some(IntIndex(0))) == ShapeStr(argText, None)
  {
    var t := ShapeStr(argText, index);
    if index.Some? && index.value.Truthy() {
      assert t[6 + |argText|] == ',';
    } else {
      assert t == "Shape(" + argText + ")";
      forall k | 0 <= k < |t|
        ensures t[k] != ','
      {
        if 6 <= k < 6 + |argText| {
          assert t[k] == argText[k - 6];
        }
      }
    }
  }

  // ------------------------------------------------------------ Int / Real / Complex

  /** `Int`, `Real` and its subclass `Imag`. */
  datatype Cast = IntCast | RealCast | ImagCast

  /** The classes `Int` accepts; `Complex` accepts the same for both parts. */
  predicate IntAccepts(k: Kind)
  {
    k.VariableNode? || k.IndexedElementNode? || k.FloatLit? || k.IntegerLit? ||
    k.MulExpr? || k.AddExpr? || k.PowExpr? || k.IsRational()
  }

  predicate RealAccepts(k: Kind)
  {
    k.VariableNode? || k.IndexedElementNode? || k.IntegerLit? || k.NilNode? || k.FloatLit? ||
    k.MulExpr? || k.AddExpr? || k.PowExpr? || k.IsRational() || k.IsApplication()
  }

  function CastAccepts(c: Cast, k: Kind): bool
  {
    if c.IntCast? then IntAccepts(k) else RealAccepts(k)
  }

  /** The constructor and the attributes of a scalar cast. */
  function NewCast(c: Cast, arg: Operand, dp: Precisions): Result<Attrs>
  {
    if !CastAccepts(c, arg.kind) then Failure(TypeError, TypeMessage(arg.kind))
    else if c.IntCast? then Success(Attrs("int", Some(dp.intP), 0, None, NoShape))
    else Success(Attrs("real", Some(dp.realP), 0, None, NoShape))
  }

  /** `Complex(arg0, arg1=Float(0))`: both parts are checked, the real
    * part first. */
  function NewComplex(re: Operand, im: Option<Operand>, dp: Precisions): Result<Attrs>
  {
    if !IntAccepts(re.kind) then Failure(TypeError, TypeMessage(re.kind))
    else if im.Some? && !IntAccepts(im.value.kind) then Failure(TypeError, TypeMessage(im.value.kind))
    else Success(Attrs("complex", Some(dp.complexP), 0, None, NoShape))
  }

  function CastFprint(c: Cast, argText: string, dp: Precisions): string
  {
    match c
    case IntCast => "Int(" + argText + ", " + IntToString(dp.intP) + ")"
    case RealCast => "Real(" + argText + ", " + IntToString(dp.realP) + ")"
    case ImagCast => "aimag(" + argText + ")"
  }

  /** `Complex.fprint`; an omitted imaginary part prints as `0.0`. */
  function ComplexFprint(reText: string, imText: Option<string>, dp: Precisions): string
  {
    "cmplx(" + reText + ", " + (if imText.Some? then imText.value else "0.0") + ", " + IntToString(dp.complexP) + ")"
  }

  /** The allow-lists: `Real` accepts everything `Int` does plus `Nil` and
    * call nodes; an integer literal passes as a Rational everywhere; every
    * cast is a scalar without shape carrying the default precision of its
    * kind. */
  lemma CastRules(c: Cast, arg: Operand, re: Operand, im: Option<Operand>, dp: Precisions)
    ensures IntAccepts(arg.kind) ==> RealAccepts(arg.kind)
    ensures RealAccepts(arg.kind) && !IntAccepts(arg.kind) <==> arg.kind.NilNode? || arg.kind.IsApplication()
    ensures NewCast(c, arg, dp).Success? <==> CastAccepts(c, arg.kind)
    ensures NewCast(c, arg, dp).Success? ==>
      var a := NewCast(c, arg, dp).value;
      a.rank == 0 && a.shape == NoShape &&
      a.precision == Some(if c.IntCast? then dp.intP else dp.realP)
    ensures NewComplex(re, im, dp).Success? <==>
      IntAccepts(re.kind) && (im.None? || IntAccepts(im.value.kind))
    ensures NewComplex(re, im, dp).Success? ==> NewComplex(re, im, dp).value.precision == Some(dp.complexP)
  {
  }

  // ------------------------------------------------------------ linspace

  predicate LinspaceAccepts(k: Kind)
  {
    k.VariableNode? || k.IndexedElementNode? || k.FloatLit? || k.IntegerLit? || k.IsRational()
  }

  /** A `Linspace` node: start, stop and number of points. */
  datatype LinspaceNode = LinspaceNode(start: Operand, stop: Operand, size: Operand)

  /** `Linspace.__new__`: every argument is checked before their number. */
  function NewLinspace(args: seq<Operand>): Result<LinspaceNode>
  {
    if exists k :: 0 <= k < |args| && !LinspaceAccepts(args[k].kind) then Failure(TypeError, "Expecting valid args")
    else if |args| != 3 then Failure(ValueError, "Range has at most 3 arguments")
    else Success(LinspaceNode(args[0], args[1], args[2]))
  }

  function LinspaceAttrs(n: LinspaceNode, dp: Precisions): Attrs
  {
    Attrs("real", Some(dp.realP), 1, Some('F'), Dims([Sym(n.size.text)]))
  }

  /** The index variable `Linspace` creates. */
  const LinspaceIndex: string := "linspace_index"

  /** An implied-do array constructor `[(start + i*step, i = 0, upper)]`. */
  datatype ImpliedDo = ImpliedDo(start: string, step: string, upper: string)
  {
    function Text(): string
    {
      "[(" + start + " + " + LinspaceIndex + "*" + step + "," + LinspaceIndex + " = 0," + upper + ")]"
    }
  }

  /** `Linspace.fprint` as written: the loop runs up to `stop-1` and the
    * allocation names no array. */
  function LinspaceFprintAsWritten(n: LinspaceNode, stepText: string, lhs: Option<string>): (r: (Option<string>, ImpliedDo))
  {
    var loop := ImpliedDo(n.start.text, stepText, n.stop.text + "-1");
    (if lhs.Some? then Some("allocate(0:" + n.size.text + ")") else None, loop)
  }

  /** `Linspace.fprint` with the loop bound and the allocation it evidently
    * intends: `size` points, into `lhs(0:size-1)`. */
  function LinspaceFprint(n: LinspaceNode, stepText: string, lhs: Option<string>): (r: (Option<string>, ImpliedDo))
  {
    var loop := ImpliedDo(n.start.text, stepText, n.size.text + "-1");
    (if lhs.Some? then Some("allocate(" + lhs.value + "(0:" + n.size.text + "-1))") else None, loop)
  }

  /** The text of a printed linspace: allocation, then `lhs = values`. */
  function LinspaceText(p: (Option<string>, ImpliedDo), lhs: Option<string>): string
  {
    if p.0.Some? && lhs.Some? then p.0.value + "\n" + lhs.value + " = " + p.1.Text() else p.1.Text()
  }

  /** The number of values an implied-do loop from 0 to `u` produces. */
  function TripCount(u: int): nat
  {
    if u < 0 then 0 else u + 1
  }

  /** `numpy.linspace(0, 1, 5)` is a node of shape `(5,)`, but the printed
    * loop runs `linspace_index = 0,1-1`: one value where five are
    * declared. */
  lemma LinspaceAsWrittenCount()
    ensures var n := LinspaceNode(Operand(IntegerLit, "0", "int", 4, 0, None),
                                  Operand(IntegerLit, "1", "int", 4, 0, None),
                                  Operand(IntegerLit, "5", "int", 4, 0, None));
      var p := LinspaceFprintAsWritten(n, "0.25", Some("x"));
      LinspaceAttrs(n, Precisions(4, 8, 8)).shape == Dims([Sym("5")]) &&
      p.1.upper == "1-1" && TripCount(1 - 1) == 1 != 5 &&
      p.0 == Some("allocate(0:5)")
  {
    assert "1" + "-1" == "1-1";
    assert "allocate(0:" + "5" + ")" == "allocate(0:5)";
  }

  /** With the corrected bound, for literal sizes the printed loop yields
    * exactly the declared number of points, the allocation spans the same
    * `size` entries, and the node is a one-axis F-ordered real array. */
  lemma LinspaceCount(n: LinspaceNode, size: nat, stepText: string, lhs: string, dp: Precisions)
    requires n.size.text == NatToString(size)
    ensures LinspaceFprint(n, stepText, Some(lhs)).1.upper == NatToString(size) + "-1"
    ensures TripCount(size - 1) == size
    ensures LinspaceFprint(n, stepText, Some(lhs)).0 == Some("allocate(" + lhs + "(0:" + NatToString(size) + "-1))")
    ensures var a := LinspaceAttrs(n, dp);
      a.rank == |a.shape.dims| == 1 && a.order == Some('F') && a.dtype == "real"
  {
  }

  /** Linspace construction fails with a TypeError for any argument of
    * another class, and with a ValueError for a count other than 3. */
  lemma NewLinspaceRules(args: seq<Operand>)
    ensures NewLinspace(args).Success? <==>
      |args| == 3 && forall k :: 0 <= k < |args| ==> LinspaceAccepts(args[k].kind)
    ensures NewLinspace(args).Success? ==>
      [NewLinspace(args).value.start, NewLinspace(args).value.stop, NewLinspace(args).value.size] == args
    ensures (forall k :: 0 <= k < |args| ==> LinspaceAccepts(args[k].kind)) && |args| != 3 ==>
      NewLinspace(args) == Failure(ValueError, "Range has at most 3 arguments")
  {
  }

  // ------------------------------------------------------------ diag

  /** `Diag.__new__`: the array must be a variable, an indexed element or
    * a tuple, and `k` an integer. */
  function NewDiag(arr: Operand, kIsInteger: bool, dp: Precisions): Result<Attrs>
  {
    if !(arr.kind.VariableNode? || arr.kind.IndexedElementNode? || arr.kind.SymTuple?) then
      Failure(TypeError, "Expecting valid args")
    else if !kIsInteger then Failure(ValueError, "k must be an integer")
    else Success(Attrs("real", Some(dp.realP), if arr.rank == 2 then 1 else 2, Some('C'), LenOf(arr.text)))
  }

  /** The rank of the array `Diag.fprint` allocates: a matrix's diagonal is
    * a vector, a vector becomes a matrix, and for any other rank the code
    * to print is never assigned. */
  function DiagAllocRank(arrayRank: int): Result<nat>
  {
    if arrayRank == 2 then Success(1)
    else if arrayRank == 1 then Success(2)
    else Failure(UnboundLocalError, "local variable 'alloc' referenced before assignment")
  }

  /** For vectors and matrices the allocated rank is the node's rank, and
    * taking the diagonal twice returns to the starting rank; other ranks
    * get rank 2 but cannot be printed. */
  lemma DiagRank(arr: Operand, dp: Precisions)
    requires arr.kind.VariableNode?
    ensures var r := NewDiag(arr, true, dp).value.rank;
      (arr.rank in {1, 2} ==> DiagAllocRank(arr.rank) == Success(r) && NewDiag(arr.(rank := r), true, dp).value.rank == arr.rank) &&
      (arr.rank !in {1, 2} ==> r == 2 && DiagAllocRank(arr.rank).Failure?)
  {
  }

  // ------------------------------------------------------------ cross

  predicate CrossAccepts(k: Kind)
  {
    k.VariableNode? || k.IndexedElementNode? || k.SymTuple?
  }

  /** `Cross.__new__` with its attributes, taken from the first operand. */
  function NewCross(a: Operand, b: Operand): Result<Attrs>
  {
    if !CrossAccepts(a.kind) || !CrossAccepts(b.kind) then Failure(TypeError, "Expecting valid args")
    else Success(Attrs(a.dtype, Some(a.precision), a.rank, Some('C'), Dims([])))
  }

  /** The components `Cross.fprint` writes, on values. */
  function CrossComponents(a: (int, int, int), b: (int, int, int)): (int, int, int)
  {
    (a.1 * b.2 - a.2 * b.1, a.2 * b.0 - a.0 * b.2, a.0 * b.1 - a.1 * b.0)
  }

  function Dot(a: (int, int, int), b: (int, int, int)): int
  {
    a.0 * b.0 + a.1 * b.1 + a.2 * b.2
  }

  /** The printed formula is the cross product: it changes sign when the
    * operands are swapped and is orthogonal to both operands. */
  lemma CrossProductLaws(a: (int, int, int), b: (int, int, int))
    ensures var c := CrossComponents(a, b);
      var d := CrossComponents(b, a);
      d == (-c.0, -c.1, -c.2) && Dot(a, c) == 0 && Dot(b, c) == 0
  {
    var c := CrossComponents(a, b);
    assert Dot(a, c) == a.0 * (a.1 * b.2 - a.2 * b.1) + a.1 * (a.2 * b.0 - a.0 * b.2) + a.2 * (a.0 * b.1 - a.1 * b.0);
    assert Dot(b, c) == b.0 * (a.1 * b.2 - a.2 * b.1) + b.1 * (a.2 * b.0 - a.0 * b.2) + b.2 * (a.0 * b.1 - a.1 * b.0);
  }

  /** The index of component `k` of a rank-2 operand: row `k` for C
    * order, column `k` otherwise. */
  function CrossIndex(order: Option<char>, k: nat): seq<string>
  {
    if order == Some('C') then [NatToString(k), ":"] else [":", NatToString(k)]
  }

  /** `Cross.fprint`'s result: a rank-2 product is reshaped row-major
    * (the node's order is always C), a rank-1 product is the components
    * themselves; ranks above 2 are not implemented and rank 0 leaves the
    * code unassigned. */
  function CrossFprint(firstText: string, rank: int, components: string, lhs: Option<string>): Result<string>
  {
    if rank > 2 then Failure(NotImplementedError, "TODO")
    else if rank != 1 && rank != 2 then Failure(UnboundLocalError, "local variable 'code' referenced before assignment")
    else
      var code := if rank == 2 then "reshape(" + components + ", shape(" + firstText + "), order=[2, 1])" else components;
      Success(if lhs.Some? then lhs.value + " = " + code else code)
  }

  /** Cross nodes take dtype, precision and rank from their first operand
    * and have the empty shape; their text is printed only for ranks 1 and
    * 2, and the two orders index a component as reversed pairs. */
  lemma CrossRules(a: Operand, b: Operand, firstText: string, components: string, k: nat)
    ensures NewCross(a, b).Success? <==> CrossAccepts(a.kind) && CrossAccepts(b.kind)
    ensures NewCross(a, b).Success? ==>
      NewCross(a, b).value.rank == a.rank && NewCross(a, b).value.dtype == a.dtype &&
      NewCross(a, b).value.shape == Dims([])
    ensures CrossFprint(firstText, a.rank, components, None).Success? <==> a.rank in {1, 2}
    ensures CrossIndex(Some('C'), k) == [CrossIndex(Some('F'), k)[1], CrossIndex(Some('F'), k)[0]]
  {
  }

  // ------------------------------------------------------------ where

  /** The index variable of `Where`. */
  const WhereIndex: string := "ind1"

  function WhereAttrs(): Attrs
  {
    Attrs("int", None, 2, Some('F'), Dims([]))
  }

  /** `Where.fprint`: allocate a one-column result with one row per true
    * mask entry, then pack the indices of the true entries into it. */
  function WhereFprint(maskText: string, lhs: string): seq<string>
  {
    ["allocate(" + lhs + "(0:count(" + maskText + ")-1,0:0))",
     lhs + "(:,0) = pack([(" + WhereIndex + "," + WhereIndex + "=0,size(" + maskText + ")-1)]," + maskText + ")"]
  }

  /** The allocation comes first and sizes the result by `count(mask)`,
    * the column `(:,0)` of which the second statement fills; the node is
    * declared rank 2 with an empty shape. */
  lemma WhereRules(maskText: string, lhs: string)
    ensures |WhereFprint(maskText, lhs)| == 2
    ensures WhereFprint(maskText, lhs)[0][..9 + |lhs|] == "allocate(" + lhs
    ensures WhereFprint(maskText, lhs)[1][..|lhs| + 5] == lhs + "(:,0)"
    ensures WhereAttrs().rank == 2 && WhereAttrs().shape == Dims([])
  {
  }

  /** Fortran's `count(mask)`: the number of true entries. */
  function MaskCount(mask: seq<bool>): nat
  {
    if mask == [] then 0 else MaskCount(mask[..|mask| - 1]) + (if mask[|mask| - 1] then 1 else 0)
  }

  /** The implied-do array `[(ind, ind=0, n-1)]`. */
  function IndexArray(n: nat): (r: seq<int>)
    ensures |r| == n && forall i :: 0 <= i < n ==> r[i] == i
  {
    seq(n, i => i)
  }

  /** Fortran's `pack(values, mask)`: the values at true mask entries, in
    * array order. */
  function Pack(values: seq<int>, mask: seq<bool>): seq<int>
    requires |values| == |mask|
  {
    if mask == [] then []
    else
      var n := |mask| - 1;
      Pack(values[..n], mask[..n]) + (if mask[n] then [values[n]] else [])
  }

  /** The column the second printed statement stores: the indices packed by
    * the mask. */
  function WhereColumn(mask: seq<bool>): seq<int>
  {
    Pack(IndexArray(|mask|), mask)
  }

  /** The stored column has exactly `count(mask)` entries, the extent the
    * allocation gives the first axis, and holds exactly the positions of
    * the true entries, each once, in increasing order. */
  lemma {:induction false} WhereColumnPositions(mask: seq<bool>)
    ensures |WhereColumn(mask)| == MaskCount(mask)
    ensures forall k :: 0 <= k < |WhereColumn(mask)| ==>
      0 <= WhereColumn(mask)[k] < |mask| && mask[WhereColumn(mask)[k]]
    ensures forall k, l :: 0 <= k < l < |WhereColumn(mask)| ==> WhereColumn(mask)[k] < WhereColumn(mask)[l]
    ensures forall i :: 0 <= i < |mask| && mask[i] ==> i in WhereColumn(mask)
    decreases |mask|
  {
    if mask != [] {
      var n := |mask| - 1;
      var front := mask[..n];
      assert IndexArray(n + 1)[..n] == IndexArray(n);
      assert WhereColumn(mask) == WhereColumn(front) + (if mask[n] then [n] else []);
      WhereColumnPositions(front);
      forall i | 0 <= i < |mask| && mask[i]
        ensures i in WhereColumn(mask)
      {
        if i < n {
          assert front[i] == mask[i];
        }
      }
    }
  }

  // ------------------------------------------------------------ full / empty / zeros / ones

  /** What SymPy knows of a fill value. */
  datatype FillValue = FillValue(text: string, isInteger: bool, isReal: bool, isComplex: bool, isBoolean: bool)

  /** The `shape` argument: a tuple, or anything else (wrapped into one). */
  datatype ShapeArg = TupleShape(dims: seq<Dim>) | OneShape(d: Dim)
  {
    function AsTuple(): seq<Dim> { if TupleShape? then dims else [d] }
  }

  /** The base kinds of the array datatypes. */
  datatype BaseKind = IntKind | RealKind | ComplexKind | BoolKind | OtherBase

  function BaseKindOf(base: string): BaseKind
  {
    if base == "int" then IntKind
    else if base == "real" then RealKind
    else if base == "complex" then ComplexKind
    else if base == "bool" then BoolKind
    else OtherBase
  }

  /** Which fill a node has: Full's own value, none (Empty), or the value
    * Zeros or Ones computes from the dtype. */
  datatype Fill = Given(v: FillValue) | NoFill | ZerosFill | OnesFill

  /** A Full-family node; `base` is the registry's dtype name (the node's
    * datatype is `'ndarray' + base`). */
  datatype FullNode = FullNode(shape: seq<Dim>, base: string, order: char, precision: int, fill: Fill)
  {
    function Rank(): nat { |shape| }
  }

  /** `Full._process_dtype`: quotes removed, lowered, looked up. */
  function ProcessDtype(dtype: string, registry: map<string, (string, int)>): Result<(string, int)>
  {
    var key := Lower(RemoveChar(dtype, '\''));
    if key !in registry then Failure(KeyError, key) else Success(registry[key])
  }

  /** The dtype `Full` infers from its fill value, testing integer, real,
    * complex and boolean in that order. */
  function InferDtype(v: FillValue): Result<string>
  {
    if v.isInteger then Success("int")
    else if v.isReal then Success("float")
    else if v.isComplex then Success("complex")
    else if v.isBoolean then Success("bool")
    else Failure(TypeError, "Could not determine dtype from fill_value " + v.text)
  }

  /** The order check shared by Full and Empty; its message keeps a
    * literal `%s`, since `str.format` does not fill it. */
  function CheckOrder(order: string): Result<char>
  {
    if order !in {"C", "F"} then Failure(ValueError, "unrecognized order = %s") else Success(order[0])
  }

  /** `Full.__new__`. */
  function NewFull(shape: ShapeArg, fill: FillValue, dtype: Option<string>, order: string,
                   registry: map<string, (string, int)>): Result<FullNode>
  {
    var d :- if dtype.Some? then Success(dtype.value) else InferDtype(fill);
    var bp :- ProcessDtype(d, registry);
    var o :- CheckOrder(order);
    Success(FullNode(shape.AsTuple(), bp.0, o, bp.1, Given(fill)))
  }

  /** `Empty.__new__` (also the constructor of Zeros and Ones, whose fill
    * is `fill`). */
  function NewEmpty(shape: ShapeArg, dtype: string, order: string, registry: map<string, (string, int)>, fill: Fill): Result<FullNode>
    requires fill.NoFill? || fill.ZerosFill? || fill.OnesFill?
  {
    var bp :- ProcessDtype(dtype, registry);
    var o :- CheckOrder(order);
    Success(FullNode(shape.AsTuple(), bp.0, o, bp.1, fill))
  }

  /** A constant fill value, as the Fortran printer writes it. */
  datatype Const = IntConst(i: int) | FloatConst(f: int) | BoolConst(b: bool) | ExprConst(text: string)
  {
    function Text(): string
    {
      match this
      case IntConst(i) => IntToString(i)
      case FloatConst(f) => IntToString(f) + ".0"
      case BoolConst(b) => if b then ".True." else ".False."
      case ExprConst(t) => t
    }
  }

  /** The fill of Zeros (`one` false) or Ones (`one` true) for a base
    * kind: complex arrays get the real constant. */
  function UnitFill(k: BaseKind, one: bool): Result<Const>
  {
    var n := if one then 1 else 0;
    match k
    case IntKind => Success(IntConst(n))
    case RealKind => Success(FloatConst(n))
    case ComplexKind => Success(FloatConst(n))
    case BoolKind => Success(BoolConst(one))
    case OtherBase => Failure(TypeError, "Unknown type")
  }

  /** The `fill_value` property. */
  function FillConst(n: FullNode): Result<Option<Const>>
  {
    match n.fill
    case Given(v) => Success(Some(ExprConst(v.text)))
    case NoFill => Success(None)
    case ZerosFill => (var c :- UnitFill(BaseKindOf(n.base), false); Success(Some(c)))
    case OnesFill => (var c :- UnitFill(BaseKindOf(n.base), true); Success(Some(c)))
  }

  /** The dimensions in allocation order: Fortran is column-major, so a C
    * array is allocated with its dimensions reversed. */
  function AllocDims(n: FullNode): seq<Dim>
  {
    if n.order == 'F' then n.shape else ArrayOperands.Reverse(n.shape)
  }

  function Bounds(dims: seq<Dim>): (r: seq<string>)
    ensures |r| == |dims| && forall k :: 0 <= k < |dims| ==> r[k] == "0:" + dims[k].PredText()
  {
    if dims == [] then [] else Bounds(dims[..|dims| - 1]) + ["0:" + dims[|dims| - 1].PredText()]
  }

  /** `Full.fprint` as its list of statements (joined by newlines): the
    * allocation unless the array lives on the stack, then the
    * initialisation when there is a fill value. */
  function FullFprint(n: FullNode, lhs: string, stackArray: bool): Result<seq<string>>
  {
    var alloc := if stackArray then [] else ["allocate(" + lhs + "(" + Join(Bounds(AllocDims(n)), ", ") + "))"];
    var fill :- FillConst(n);
    Success(alloc + (if fill.Some? then [lhs + " = " + fill.value.Text()] else []))
  }

  /** Full nodes: a non-tuple shape is a single axis, so the rank is the
    * number of given sizes; only C and F orders pass. */
  lemma NewFullShape(shape: ShapeArg, fill: FillValue, dtype: Option<string>, order: string,
                     registry: map<string, (string, int)>)
    ensures var r := NewFull(shape, fill, dtype, order, registry);
      (r.Success? ==> order in {"C", "F"} && r.value.Rank() == (if shape.TupleShape? then |shape.dims| else 1) &&
                      r.value.order in {'C', 'F'} && r.value.order == order[0] && r.value.fill == Given(fill)) &&
      (order !in {"C", "F"} ==> r.Failure?)
  {
    CheckOrderMeaning(order);
    var r := NewFull(shape, fill, dtype, order, registry);
    if r.Success? {
      var d := if dtype.Some? then dtype.value else InferDtype(fill).value;
      var bp := ProcessDtype(d, registry).value;
      assert r.value == FullNode(shape.AsTuple(), bp.0, order[0], bp.1, Given(fill));
    }
  }

  /** Only the orders "C" and "F" pass, as their own letter. */
  lemma CheckOrderMeaning(order: string)
    ensures CheckOrder(order).Success? <==> order in {"C", "F"}
    ensures CheckOrder(order).Success? ==> CheckOrder(order).value == order[0] && order[0] in {'C', 'F'}
  {
  }

  /** Without a dtype the fill value's kind decides, integer before real
    * before complex before boolean, and a fill value of none of these
    * kinds is a TypeError. */
  lemma InferDtypeOrder(fill: FillValue)
    ensures fill.isInteger ==> InferDtype(fill) == Success("int")
    ensures !fill.isInteger && fill.isReal ==> InferDtype(fill) == Success("float")
    ensures !fill.isInteger && !fill.isReal && fill.isComplex ==> InferDtype(fill) == Success("complex")
    ensures !fill.isInteger && !fill.isReal && !fill.isComplex && fill.isBoolean ==> InferDtype(fill) == Success("bool")
    ensures InferDtype(fill).Failure? <==> !(fill.isInteger || fill.isReal || fill.isComplex || fill.isBoolean)
  {
  }

  /** An inferred dtype is looked up in the registry under its own name:
    * an integer fill value makes an array of the registry's `int` entry. */
  lemma NewFullInfers(shape: ShapeArg, fill: FillValue, order: string, registry: map<string, (string, int)>)
    requires order in {"C", "F"}
    ensures InferDtype(fill).Failure? ==> NewFull(shape, fill, None, order, registry) == InferDtype(fill).PropagateFailure()
    ensures fill.isInteger && "int" in registry ==>
      NewFull(shape, fill, None, order, registry).Success? &&
      NewFull(shape, fill, None, order, registry).value.base == registry["int"].0 &&
      NewFull(shape, fill, None, order, registry).value.precision == registry["int"].1
  {
    if fill.isInteger && "int" in registry {
      assert RemoveChar("int", '\'') == "int";
      assert Lower("int") == "int";
    }
  }

  /** Zeros and Ones fill every supported kind with its additive and
    * multiplicative identity respectively, and fail on the same kinds;
    * an Empty array has no fill, so it prints no initialisation. */
  lemma UnitFillRules(k: BaseKind, n: FullNode, lhs: string)
    ensures UnitFill(k, false).Success? <==> k != OtherBase
    ensures UnitFill(k, false).Success? <==> UnitFill(k, true).Success?
    ensures k == IntKind ==> UnitFill(k, false) == Success(IntConst(0)) && UnitFill(k, true) == Success(IntConst(1))
    ensures k in {RealKind, ComplexKind} ==> UnitFill(k, false) == Success(FloatConst(0)) && UnitFill(k, true) == Success(FloatConst(1))
    ensures k == BoolKind ==> UnitFill(k, false) == Success(BoolConst(false)) && UnitFill(k, true) == Success(BoolConst(true))
    ensures n.fill.NoFill? ==> FullFprint(n, lhs, true) == Success([]) && |FullFprint(n, lhs, false).value| == 1
  {
    if n.fill.NoFill? {
      assert FillConst(n) == Success(None);
      var alloc := "allocate(" + lhs + "(" + Join(Bounds(AllocDims(n)), ", ") + "))";
      assert FullFprint(n, lhs, false) == Success([alloc] + []);
      assert FullFprint(n, lhs, true) == Success([] + []);
      var e: seq<string> := [];
      assert [] + [] == e;
      assert FullFprint(n, lhs, true) == Success(e);
      assert |FullFprint(n, lhs, false).value| == 1;
    }
  }

  /** The allocation of a C-ordered array lists the dimensions of the same
    * F-ordered array backwards, and prints as many statements as there
    * are parts (allocation, initialisation). */
  lemma FullFprintLayout(n: FullNode, lhs: string, stackArray: bool)
    requires n.order == 'C'
    ensures AllocDims(n) == ArrayOperands.Reverse(AllocDims(n.(order := 'F')))
    ensures FullFprint(n, lhs, stackArray).Success? ==>
      |FullFprint(n, lhs, stackArray).value| ==
        (if stackArray then 0 else 1) + (if FillConst(n).value.Some? then 1 else 0)
    ensures |Bounds(AllocDims(n))| == n.Rank()
  {
  }

  // ------------------------------------------------------------ zeros_like

  datatype LikeKind = LikeVariable | LikeIndexedVariable | LikeIndexedElement | LikeOther(cls: string)

  /** The argument of `zeros_like`: its class, its dtype and (for an
    * indexed element) the dtype of its base; `None` is a non-native
    * datatype. */
  datatype LikeArg = LikeArg(kind: LikeKind, dtype: Option<BaseKind>, baseDtype: Option<BaseKind>)

  predicate Native(d: Option<BaseKind>)
  {
    d.Some? && d.value != OtherBase
  }

  function NativeZero(d: Option<BaseKind>): Result<Const>
  {
    if Native(d) then UnitFill(d.value, false) else Failure(TypeError, "Expecting a Native type")
  }

  /** `ZerosLike.init_value`. */
  function ZerosLikeInit(rhs: LikeArg): Result<Const>
  {
    if Native(rhs.dtype) then NativeZero(rhs.dtype)
    else if rhs.kind.LikeVariable? || rhs.kind.LikeIndexedVariable? then NativeZero(rhs.dtype)
    else if rhs.kind.LikeIndexedElement? then NativeZero(rhs.baseDtype)
    else Failure(TypeError, "Unknown type")
  }

  /** The left-hand side given to `EmptyLike.__new__`; a string is made a
    * Symbol first. */
  datatype LhsKind = LhsString | LhsSymbol | LhsMatrix | LhsIndexed | LhsVariable | LhsOther(cls: string)

  /** `EmptyLike.__new__` (inherited by ZerosLike). */
  function NewZerosLike(rhs: LikeArg, lhs: Option<LhsKind>): Result<LikeArg>
  {
    if lhs.Some? && lhs.value.LhsOther? then Failure(TypeError, "Cannot assign to lhs of type " + lhs.value.cls + ".")
    else Success(rhs)
  }

  /** `zeros_like` of an array of a native kind starts with the value
    * `zeros` fills that kind with; a variable of another datatype is a
    * TypeError; an indexed element takes its base's kind. */
  lemma ZerosLikeAgreesWithZeros(rhs: LikeArg, n: FullNode)
    requires n.fill.ZerosFill?
    ensures Native(rhs.dtype) && BaseKindOf(n.base) == rhs.dtype.value ==>
      ZerosLikeInit(rhs).Success? && FillConst(n) == Success(Some(ZerosLikeInit(rhs).value))
    ensures !Native(rhs.dtype) && (rhs.kind.LikeVariable? || rhs.kind.LikeIndexedVariable?) ==>
      ZerosLikeInit(rhs).Failure? && ZerosLikeInit(rhs).kind == TypeError
    ensures !Native(rhs.dtype) && rhs.kind.LikeIndexedElement? ==> ZerosLikeInit(rhs) == NativeZero(rhs.baseDtype)
  {
  }

  // ------------------------------------------------------------ norm

  /** The `dim` of a norm: an integer literal or a variable. */
  datatype DimArg = DimLit(n: int) | DimVar(name: string)
  {
    predicate Truthy() { !(DimLit? && n == 0) }
    function Text(): string { if DimLit? then IntToString(n) else name }
  }

  /** `Norm.rank`: one less than the argument's along a dimension, else a
    * scalar. */
  function NormRank(argRank: int, dim: Option<DimArg>): int
  {
    if dim.Some? then argRank - 1 else 0
  }

  /** `Norm.shape(sh)`: `del sh[dim]` (negative positions count from the
    * end, others past the end are an IndexError, a variable position a
    * TypeError), or `()` without a dim. */
  function NormShape(dim: Option<DimArg>, sh: seq<Dim>): Result<seq<Dim>>
  {
    match dim
    case None => Success([])
    case Some(DimVar(_)) => Failure(TypeError, "list indices must be integers or slices, not Variable")
    case Some(DimLit(k)) =>
      if !(-|sh| <= k < |sh|) then Failure(IndexError, "list assignment index out of range")
      else
        var p := if k < 0 then k + |sh| else k;
        Success(sh[..p] + sh[p + 1..])
  }

  /** Removing an axis keeps the others in order, so for an argument whose
    * shape has as many entries as its rank, the norm's shape has as many
    * entries as the norm's rank. */
  lemma NormShapeRank(argRank: int, dim: Option<DimArg>, sh: seq<Dim>)
    requires |sh| == argRank
    ensures NormShape(dim, sh).Success? ==> |NormShape(dim, sh).value| == NormRank(argRank, dim)
    ensures NormShape(dim, sh).Success? && dim.Some? ==>
      var p := if dim.value.n < 0 then dim.value.n + |sh| else dim.value.n;
      forall k :: 0 <= k < |sh| - 1 ==> NormShape(dim, sh).value[k] == (if k < p then sh[k] else sh[k + 1])
  {
  }

  /** `Norm.fprint` as written: the dim is printed only when it is truthy. */
  function NormFprintAsWritten(argText: string, dim: Option<DimArg>): string
  {
    if dim.Some? && dim.value.Truthy() then "Norm2(" + argText + "," + dim.value.Text() + ")"
    else "Norm2(" + argText + ")"
  }

  /** `Norm.fprint` testing `dim is not None`, like `rank` and `shape`. */
  function NormFprint(argText: string, dim: Option<DimArg>): string
  {
    if dim.Some? then "Norm2(" + argText + "," + dim.value.Text() + ")"
    else "Norm2(" + argText + ")"
  }

  /** `Norm(x, dim=0)` of a matrix has rank 1 and shape without axis 0,
    * but prints `Norm2(x)`, the scalar norm of the whole matrix. */
  lemma NormDimZeroAsWritten()
    ensures NormRank(2, Some(DimLit(0))) == 1
    ensures NormShape(Some(DimLit(0)), [Sym("n"), Sym("m")]) == Success([Sym("m")])
    ensures NormFprintAsWritten("x", Some(DimLit(0))) == NormFprintAsWritten("x", None) == "Norm2(x)"
    ensures NormRank(2, None) == 0
  {
    var sh := [Sym("n"), Sym("m")];
    assert sh[..0] + sh[1..] == [Sym("m")];
    assert "Norm2(" + "x" + ")" == "Norm2(x)";
  }

  /** With the corrected test the text passes a dimension exactly when the
    * norm is taken along one, that is exactly when its rank is the
    * argument's minus one rather than 0. */
  lemma NormFprintAgreesWithRank(argText: string, dim: Option<DimArg>, argRank: int)
    requires ',' !in argText && argRank != 1
    ensures (',' in NormFprint(argText, dim)) <==> dim.Some?
    ensures (',' in NormFprint(argText, dim)) <==> NormRank(argRank, dim) == argRank - 1
  {
    var t := NormFprint(argText, dim);
    if dim.Some? {
      assert t[6 + |argText|] == ',';
    } else {
      assert t == "Norm2(" + argText + ")";
      forall k | 0 <= k < |t|
        ensures t[k] != ','
      {
        if 6 <= k < 6 + |argText| {
          assert t[k] == argText[k - 6];
        }
      }
    }
  }
}
