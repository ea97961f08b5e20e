/** The run-time side of the C-API wrapper (pyccel/stdlib/cwrapper/cwrapper.c):
  * the checks a NumPy array must pass before it is handed to compiled code,
  * the copy of its shape and strides into pyccel's `t_ndarray`, and the
  * boolean conversions. NumPy's accessors (`PyArray_TYPE`, `PyArray_NDIM`,
  * `PyArray_CHKFLAGS`, ...) are read off an array object whose fields are
  * given. */
module CWrapperRuntime {
  import opened Wrappers

  // ------------------------------------------------------------ Python objects

  /** The contiguity flags `PyArray_CHKFLAGS` tests. */
  datatype OrderFlag = CContiguous | FContiguous

  /** A NumPy array as the accessors see it: element type number, rank,
    * data pointer, item size, element count, byte count, shape and byte
    * strides (owned by NumPy), and the contiguity flags that hold. */
  class PyArrayObject {
    const typeNum: int
    const nd: int
    const data: int
    const itemSize: int
    const size: int
    const nbytes: int
    const shape: array<int>
    const strides: array<int>
    const contiguity: set<OrderFlag>

    /** What NumPy guarantees of a live array. */
    predicate Valid()
    {
      0 <= nd && shape.Length == nd && strides.Length == nd && itemSize > 0 && shape != strides
    }

    constructor(typeNum: int, nd: int, data: int, itemSize: int, size: int, nbytes: int,
                shape: array<int>, strides: array<int>, contiguity: set<OrderFlag>)
      ensures this.typeNum == typeNum && this.nd == nd && this.data == data
      ensures this.itemSize == itemSize && this.size == size && this.nbytes == nbytes
      ensures this.shape == shape && this.strides == strides && this.contiguity == contiguity
    {
      this.typeNum := typeNum;
      this.nd := nd;
      this.data := data;
      this.itemSize := itemSize;
      this.size := size;
      this.nbytes := nbytes;
      this.shape := shape;
      this.strides := strides;
      this.contiguity := contiguity;
    }
  }

  /** A `PyObject *` handed to a converter. */
  datatype PyObject =
    | PyTrue
    | PyFalse
    | PyNone
    | ArrayObject(arr: PyArrayObject)
    | OtherObject(typeName: string)

  /** Whether a check passed, or the Python exception it set. */
  datatype Status = Ok | Raised(kind: ErrorKind, msg: string)

  /** The element type a converter asks for, or `NO_TYPE_CHECK`. */
  datatype DtypeRequest = NoTypeCheck | Dtype(num: int)

  /** The ordering a converter asks for, or `NO_ORDER_CHECK`. */
  datatype OrderRequest = NoOrderCheck | Order(flag: OrderFlag)

  /** `dataTypes`: NumPy's type names by type number. */
  const DataTypes: seq<string> := ["Bool", "Int8", "UInt8", "Int16", "UIn16", "Int32", "UInt32",
                                   "Int64", "UInt64", "Int128", "UInt128", "Float32", "Float64",
                                   "Float128", "Complex64", "Complex128", "Complex256"]

  function DataTypeName(num: int): string
  {
    if 0 <= num < |DataTypes| then DataTypes[num] else "?"
  }


  // ------------------------------------------------------------- the checks

  /** `check_pyarray_dtype`. */
  function CheckDtype(a: PyArrayObject, dtype: DtypeRequest): Status
  {
    match dtype
    case NoTypeCheck => Ok
    case Dtype(num) =>
      if a.typeNum != num then
        Raised(TypeError, "argument dtype must be " + DataTypeName(num) + ", not " + DataTypeName(a.typeNum))
      else Ok
  }

  /** `_check_pyarray_rank`. */
  function CheckRank(a: PyArrayObject, rank: int): Status
  {
    if a.nd != rank then
      Raised(TypeError, "argument rank must be " + IntToString(rank) + ", not " + IntToString(a.nd))
    else Ok
  }

  /** `_check_pyarray_order`. */
  function CheckOrder(a: PyArrayObject, order: OrderRequest): Status
  {
    match order
    case NoOrderCheck => Ok
    case Order(flag) =>
      if flag !in a.contiguity then
        Raised(NotImplementedError, "argument does not have the expected ordering ("
                                    + (if flag == CContiguous then "C" else "F") + ")")
      else Ok
  }

  /** `_check_array`: type, then rank, then (for rank above 1) order; the
    * first failure is the one reported. */
  function CheckArray(a: PyArrayObject, dtype: DtypeRequest, rank: int, order: OrderRequest): Status
  {
    if CheckDtype(a, dtype).Raised? then CheckDtype(a, dtype)
    else if CheckRank(a, rank).Raised? then CheckRank(a, rank)
    else if rank > 1 && CheckOrder(a, order).Raised? then CheckOrder(a, order)
    else Ok
  }

  /** An array is accepted iff its type matches (or is not checked), its
    * rank matches, and for rank above 1 it has the requested contiguity (or
    * none is requested). */
  lemma CheckArrayAccepts(a: PyArrayObject, dtype: DtypeRequest, rank: int, order: OrderRequest)
    ensures CheckArray(a, dtype, rank, order) == Ok <==>
      (dtype.NoTypeCheck? || a.typeNum == dtype.num) &&
      a.nd == rank &&
      (rank > 1 ==> order.NoOrderCheck? || order.flag in a.contiguity)
  {
  }

  /** The reported failure is the first that applies: a type mismatch hides
    * a rank mismatch, a rank mismatch hides an ordering problem, and an
    * ordering problem is never reported for a vector or a scalar. */
  lemma CheckArrayFirstFailure(a: PyArrayObject, dtype: DtypeRequest, rank: int, order: OrderRequest)
    ensures dtype.Dtype? && a.typeNum != dtype.num ==>
      CheckArray(a, dtype, rank, order).kind == TypeError &&
      CheckArray(a, dtype, rank, order).msg ==
        "argument dtype must be " + DataTypeName(dtype.num) + ", not " + DataTypeName(a.typeNum)
    ensures CheckDtype(a, dtype) == Ok && a.nd != rank ==>
      CheckArray(a, dtype, rank, order) == CheckRank(a, rank)
    ensures rank <= 1 ==> CheckArray(a, dtype, rank, order).Ok? || CheckArray(a, dtype, rank, order).kind == TypeError
  {
  }

  // ---------------------------------------------------- shapes and strides

  /** C's `/` on integers, which truncates toward zero. */
  function CDiv(a: int, b: int): int
    requires b > 0
  {
    if a >= 0 then a / b else -((-a) / b)
  }

  /** A byte stride that is a whole number of elements gives back that
    * number, whatever its sign (a reversed view has negative strides); C's
    * division is odd, where Dafny's Euclidean division is not. */
  lemma CDivStride(k: int, size: int)
    requires size > 0
    ensures CDiv(k * size, size) == k
    ensures CDiv(-(k * size), size) == -k
  {
    if k >= 0 {
      DivOfMultiple(k, size);
      if k > 0 {
        MulMono(k, size);
      }
    } else {
      MulMono(-k, size);
      assert -(k * size) == (-k) * size;
      DivOfMultiple(-k, size);
    }
  }

  lemma MulMono(a: int, d: int)
    requires a >= 1 && d > 0
    ensures a * d >= d
  {
  }

  lemma DivOfMultiple(k: int, d: int)
    requires d > 0
    ensures (k * d) / d == k
  {
    var x := k * d;
    var q, r := x / d, x % d;
    assert x == q * d + r && 0 <= r < d;
    assert (k - q) * d == r;
    if k - q >= 1 {
      MulMono(k - q, d);
    } else if q - k >= 1 {
      MulMono(q - k, d);
    }
  }

  /** `_numpy_to_ndarray_strides`: a fresh buffer of `nd` element strides,
    * each the byte stride divided by the element size. */
  method NumpyToNdarrayStrides(npStrides: array<int>, typeSize: int, nd: int) returns (out: array<int>)
    requires 0 <= nd <= npStrides.Length && typeSize > 0
    ensures fresh(out) && out.Length == nd
    ensures forall i :: 0 <= i < nd ==> out[i] == CDiv(npStrides[i], typeSize)
  {
    out := new int[nd];
    var i := 0;
    while i < nd
      invariant 0 <= i <= nd
      invariant forall j :: 0 <= j < i ==> out[j] == CDiv(npStrides[j], typeSize)
    {
      out[i] := CDiv(npStrides[i], typeSize);
      i := i + 1;
    }
  }

  /** `_numpy_to_ndarray_shape`: a fresh element-by-element copy. */
  method NumpyToNdarrayShape(npShape: array<int>, nd: int) returns (out: array<int>)
    requires 0 <= nd <= npShape.Length
    ensures fresh(out) && out[..] == npShape[..nd]
  {
    out := new int[nd];
    var i := 0;
    while i < nd
      invariant 0 <= i <= nd
      invariant out[..i] == npShape[..i]
    {
      out[i] := npShape[i];
      i := i + 1;
      assert out[..i] == out[..i - 1] + [out[i - 1]];
    }
  }

  /** pyccel's `t_ndarray`, as `pyarray_to_ndarray` fills it. */
  class NdArray {
    var rawData: int
    var nd: int
    var shape: array<int>
    var strides: array<int>
    var typeNum: int
    var typeSize: int
    var length: int
    var bufferSize: int
    var isView: bool

    constructor(empty: array<int>)
      ensures shape == empty && strides == empty && !isView
      ensures rawData == 0 && nd == 0 && typeNum == 0 && typeSize == 0 && length == 0 && bufferSize == 0
    {
      rawData, nd, typeNum, typeSize, length, bufferSize := 0, 0, 0, 0, 0, 0;
      shape, strides := empty, empty;
      isView := false;
    }
  }

  /** `_check_pyarray_type` followed by `_check_array`. */
  function AcceptArray(o: PyObject, dtype: DtypeRequest, rank: int, order: OrderRequest): Status
  {
    match o
    case ArrayObject(a) => CheckArray(a, dtype, rank, order)
    case PyNone => Raised(TypeError, "argument must be numpy.ndarray, not None")
    case PyTrue => Raised(TypeError, "argument must be numpy.ndarray, not bool")
    case PyFalse => Raised(TypeError, "argument must be numpy.ndarray, not bool")
    case OtherObject(name) => Raised(TypeError, "argument must be numpy.ndarray, not " + name)
  }

  /** `pyarray_to_ndarray(o, array, dtype, rank, flag)`. On a failed check
    * nothing is written. When an ordering is requested (Fortran-ordered
    * code) only the data pointer and NumPy's own shape buffer are taken;
    * otherwise every field is filled, with fresh shape and stride buffers,
    * and the array marked as a view. */
  method PyarrayToNdarray(o: PyObject, target: NdArray, dtype: DtypeRequest, rank: int, order: OrderRequest)
    returns (ok: bool, status: Status)
    requires o.ArrayObject? ==> o.arr.Valid()
    modifies target
    ensures status == AcceptArray(o, dtype, rank, order)
    ensures ok <==> status == Ok
    ensures !ok ==> unchanged(target)
    ensures ok && order.Order? ==>
      target.rawData == o.arr.data && target.shape == o.arr.shape &&
      target.nd == old(target.nd) && target.strides == old(target.strides) &&
      target.typeNum == old(target.typeNum) && target.typeSize == old(target.typeSize) &&
      target.length == old(target.length) && target.bufferSize == old(target.bufferSize) &&
      target.isView == old(target.isView)
    ensures ok && order.NoOrderCheck? ==>
      var a := o.arr;
      target.nd == a.nd && target.rawData == a.data && target.typeSize == a.itemSize &&
      target.typeNum == a.typeNum && target.length == a.size && target.bufferSize == a.nbytes &&
      fresh(target.shape) && fresh(target.strides) &&
      target.shape[..] == a.shape[..] && target.strides.Length == a.nd &&
      (forall i :: 0 <= i < a.nd ==> target.strides[i] == CDiv(a.strides[i], a.itemSize)) &&
      target.isView
  {
    status := AcceptArray(o, dtype, rank, order);
    if status != Ok {
      return false, status;
    }
    var a := o.arr;
    if order.Order? {
      target.rawData := a.data;
      target.shape := a.shape;
      return true, status;
    }
    target.nd := a.nd;
    target.rawData := a.data;
    target.typeSize := a.itemSize;
    target.typeNum := a.typeNum;
    target.length := a.size;
    target.bufferSize := a.nbytes;
    assert a.shape[..a.nd] == a.shape[..];
    target.shape := NumpyToNdarrayShape(a.shape, a.nd);
    target.strides := NumpyToNdarrayStrides(a.strides, a.itemSize, a.nd);
    target.isView := true;
    ok := true;
  }

  // -------------------------------------------------------------- booleans

  /** `PyBool_to_Bool`: only `Py_True` is true. */
  function PyBoolToBool(o: PyObject): bool
  {
    o == PyTrue
  }

  /** `Bool_to_PyBool`. */
  function BoolToPyBool(b: bool): PyObject
  {
    if b then PyTrue else PyFalse
  }

  /** A C boolean survives the trip through Python, and a Python boolean
    * survives the trip through C; any other object reads as false. */
  lemma BoolRoundTrip(b: bool, o: PyObject)
    ensures PyBoolToBool(BoolToPyBool(b)) == b
    ensures (o == PyTrue || o == PyFalse) ==> BoolToPyBool(PyBoolToBool(o)) == o
    ensures o != PyTrue ==> !PyBoolToBool(o)
  {
  }
}
