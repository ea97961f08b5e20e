/** Message sizes and datatypes of pyccel's MPI statements
  * (pyccel/parallel/mpi.py): how many elements a buffer holds and which MPI
  * datatype names its elements, per section 3.2.2 ("Message Data") of
  * MPI-3.1. */
module Mpi {
  import opened Wrappers
  import ArrayOperands

  /** The `shape` attribute of a buffer: unset, a list or tuple of sizes,
    * or a single size. */
  datatype Shape = NoShape | Dims(dims: seq<int>) | Size(n: int)

  /** The pyccel datatypes of a buffer's elements. */
  datatype DataType = NativeInteger | NativeFloat | NativeDouble | NativeComplex | NativeBool

  /** A buffer expression. */
  datatype Expr =
    | Variable(shape: Shape, dtype: DataType)
    | IndexedVariable(shape: Shape, dtype: DataType)
    | IndexedElement(base: Expr)
    | OtherExpr(cls: string)

  /** The product of the sizes. */
  function Product(dims: seq<int>): int
  {
    if dims == [] then 1 else Product(dims[..|dims| - 1]) * dims[|dims| - 1]
  }

  /** The element count a shape stands for: 1 when unset, the product of a
    * list, a single size as is. */
  function ShapeSize(shape: Shape): int
  {
    match shape
    case NoShape => 1
    case Dims(ds) => Product(ds)
    case Size(n) => n
  }

  /** What `get_shape(expr)` returns: the base's count for an indexed
    * element, a TypeError for anything that is not a buffer. */
  function Count(e: Expr): Result<int>
  {
    match e
    case Variable(s, _) => Success(ShapeSize(s))
    case IndexedVariable(s, _) => Success(ShapeSize(s))
    case IndexedElement(b) => Count(b)
    case OtherExpr(_) => Failure(TypeError, "shape is only defined for Variable, IndexedVariable, IndexedElement")
  }

  /** The loop `n = 1; for i in shape: n *= i` shared by `get_shape`,
    * `sendcount` and `recvcount`. */
  method ShapeCount(shape: Shape) returns (n: int)
    ensures n == ShapeSize(shape)
  {
    match shape {
      case NoShape => return 1;
      case Size(k) => return k;
      case Dims(ds) =>
        n := 1;
        var i := 0;
        while i < |ds|
          invariant i <= |ds|
          invariant n == Product(ds[..i])
        {
          assert ds[..i + 1][..i] == ds[..i];
          n := n * ds[i];
          i := i + 1;
        }
        assert ds[..i] == ds;
    }
  }

  /** `get_shape(expr)`. */
  method GetShape(e: Expr) returns (r: Result<int>)
    ensures r == Count(e)
    decreases e
  {
    match e {
      case Variable(s, _) =>
        var n := ShapeCount(s);
        return Success(n);
      case IndexedVariable(s, _) =>
        var n := ShapeCount(s);
        return Success(n);
      case IndexedElement(b) =>
        r := GetShape(b);
      case OtherExpr(_) =>
        return Failure(TypeError, "shape is only defined for Variable, IndexedVariable, IndexedElement");
    }
  }

  lemma {:induction false} ProductAppend(a: seq<int>, b: seq<int>)
    ensures Product(a + b) == Product(a) * Product(b)
    decreases |b|
  {
    if b == [] {
      assert a + b == a;
    } else {
      var b' := b[..|b| - 1];
      assert (a + b)[..|a + b| - 1] == a + b';
      ProductAppend(a, b');
      calc {
        Product(a + b);
        Product(a + b') * b[|b| - 1];
        Product(a) * Product(b') * b[|b| - 1];
        Product(a) * (Product(b') * b[|b| - 1]);
      }
    }
  }

  /** The element count does not depend on the order the sizes are listed
    * in, so a Fortran-ordered shape and its C-ordered reverse give the same
    * count; a list holding a zero size gives an empty message. */
  lemma {:induction false} ProductReverse(s: seq<int>)
    ensures Product(ArrayOperands.Reverse(s)) == Product(s)
    ensures (exists k :: 0 <= k < |s| && s[k] == 0) ==> Product(s) == 0
    decreases |s|
  {
    if s != [] {
      var rest := s[1..];
      var rr := ArrayOperands.Reverse(rest);
      ProductReverse(rest);
      assert ArrayOperands.Reverse(s) == rr + [s[0]];
      ProductSnoc(rr, s[0]);
      ProductCons(s);
    }
    ProductZero(s);
  }

  /** The product of a list is its first size times the product of the rest. */
  lemma ProductCons(s: seq<int>)
    requires s != []
    ensures Product(s) == s[0] * Product(s[1..])
  {
    assert s == [s[0]] + s[1..];
    ProductAppend([s[0]], s[1..]);
    assert Product([s[0]]) == Product([]) * s[0];
  }

  /** The product of a list with one more size is multiplied by it. */
  lemma ProductSnoc(x: seq<int>, a: int)
    ensures Product(x + [a]) == Product(x) * a
  {
    assert (x + [a])[..|x|] == x;
  }

  /** A list holding a zero size has product zero. */
  lemma {:induction false} ProductZero(s: seq<int>)
    ensures (exists k :: 0 <= k < |s| && s[k] == 0) ==> Product(s) == 0
    decreases |s|
  {
    if s != [] {
      var front := s[..|s| - 1];
      ProductZero(front);
      if exists k :: 0 <= k < |s| && s[k] == 0 {
        var k :| 0 <= k < |s| && s[k] == 0;
        if k < |s| - 1 {
          assert front[k] == 0;
        }
      }
    }
  }

  /** An indexed element counts as its whole base: the count never looks
    * at the indices. */
  lemma IndexedElementCountsBase(e: Expr)
    ensures Count(IndexedElement(e)) == Count(e)
    ensures Count(IndexedElement(IndexedElement(e))) == Count(e)
  {
  }

  /** `mpi_datatype(dtype)`. */
  function MpiDatatype(dtype: DataType): Result<string>
  {
    match dtype
    case NativeInteger => Success("MPI_INT")
    case NativeFloat => Success("MPI_REAL")
    case NativeDouble => Success("MPI_DOUBLE")
    case _ => Failure(TypeError, "Uncovered datatype : ")
  }

  /** The predefined datatype names of the C binding (section 3.2.2 of
    * MPI-3.1, table 3.2) that concern these types. */
  predicate CName(s: string)
  {
    s in {"MPI_INT", "MPI_FLOAT", "MPI_DOUBLE", "MPI_C_BOOL", "MPI_C_DOUBLE_COMPLEX"}
  }

  /** The Fortran binding's names (table 3.1). */
  predicate FortranName(s: string)
  {
    s in {"MPI_INTEGER", "MPI_REAL", "MPI_DOUBLE_PRECISION", "MPI_COMPLEX", "MPI_LOGICAL"}
  }

  /** Integers and doubles get their C names, single-precision reals their
    * Fortran name; complex and boolean buffers are rejected; different
    * element types never share a name. */
  lemma MpiDatatypeNames(a: DataType, b: DataType)
    ensures MpiDatatype(a).Success? <==> a in {NativeInteger, NativeFloat, NativeDouble}
    ensures a == NativeInteger || a == NativeDouble ==> CName(MpiDatatype(a).value) && !FortranName(MpiDatatype(a).value)
    ensures a == NativeFloat ==> FortranName(MpiDatatype(a).value) && !CName(MpiDatatype(a).value)
    ensures MpiDatatype(a).Success? && MpiDatatype(b).Success? && MpiDatatype(a).value == MpiDatatype(b).value ==> a == b
  {
  }

  /** The point-to-point statements and their buffers. */
  datatype MpiCall =
    | Recv(data: Expr)
    | Send(data: Expr)
    | IRecv(data: Expr)
    | ISend(data: Expr)
    | Waitall(requests: Expr)

  /** The `count` property: the buffer's element count; `MPI_waitall`
    * refers to a `data` attribute it does not have. */
  method CallCount(c: MpiCall) returns (r: Result<int>)
    ensures c.Waitall? ==> r.Failure? && r.kind == AttributeError
    ensures !c.Waitall? ==> r == Count(c.data)
  {
    if c.Waitall? {
      return Failure(AttributeError, "'MPI_waitall' object has no attribute 'data'");
    }
    r := GetShape(c.data);
  }

  /** The `datatype` property: the MPI name of the buffer's elements. */
  function CallDatatype(c: MpiCall): Result<string>
    requires !c.Waitall?
  {
    match c.data
    case Variable(_, t) => MpiDatatype(t)
    case IndexedVariable(_, t) => MpiDatatype(t)
    case _ => Failure(AttributeError, "object has no attribute 'dtype'")
  }

  /** `MPI_comm_sendrecv`: `sendcount`/`recvcount` read the buffers'
    * shapes directly (no TypeError and no look-through of indexed
    * elements); `senddatatype`/`recvdatatype` map their element types. */
  datatype SendRecv = SendRecv(sendShape: Shape, sendType: DataType, recvShape: Shape, recvType: DataType)

  method SendCount(m: SendRecv) returns (n: int)
    ensures n == ShapeSize(m.sendShape)
  {
    n := ShapeCount(m.sendShape);
  }

  method RecvCount(m: SendRecv) returns (n: int)
    ensures n == ShapeSize(m.recvShape)
  {
    n := ShapeCount(m.recvShape);
  }

  /** A send-receive between two buffers of the same shape and element
    * type sends as many elements, of the same MPI datatype, as it
    * receives; and its counts agree with `get_shape` of variables with
    * those shapes. */
  lemma SendRecvSymmetric(m: SendRecv)
    requires m.sendShape == m.recvShape && m.sendType == m.recvType
    ensures ShapeSize(m.sendShape) == ShapeSize(m.recvShape)
    ensures MpiDatatype(m.sendType) == MpiDatatype(m.recvType)
    ensures Count(Variable(m.sendShape, m.sendType)) == Success(ShapeSize(m.recvShape))
  {
  }
}
