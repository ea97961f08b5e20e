/** Operands of elementwise array statements, and the two helpers of the
  * array-to-loop expansion pass that look at them one at a time:
  * `compatible_operation` and `insert_index` (pyccel/ast/utilities.py). */
module ArrayOperands {
  import opened Wrappers

  /** One axis size: a literal integer, a size only known symbolically (an
    * array-size node), or the length of a bounded slice of an axis, kept as
    * that axis and the slice's bounds, so two such lengths are equal exactly
    * when the axes and the bounds are. */
  datatype Dim =
    | Lit(n: int)
    | Symbolic(expr: string)
    | SliceLength(axis: Dim, start: Option<IndexExpr>, stop: Option<IndexExpr>, step: Option<IndexExpr>)

  datatype Order = C | F

  /** Integer-valued index expressions built by the pass. */
  datatype IndexExpr =
    | IndexVar(name: string)
    | IntLit(n: int)
    | Mul(left: IndexExpr, right: IndexExpr)
    | Add(left: IndexExpr, right: IndexExpr)

  /** One entry of an indexing: a slice `start:stop:step` or a single index. */
  datatype IndexItem =
    | Slice(start: Option<IndexExpr>, stop: Option<IndexExpr>, step: Option<IndexExpr>)
    | At(index: IndexExpr)

  /** A declared variable; its rank is the length of its shape. */
  datatype Variable = Variable(name: string, shape: seq<Dim>, order: Option<Order>)
  {
    function Rank(): nat { |shape| }
  }

  /** The operands the pass rewrites: a whole variable or an indexed element. */
  datatype Operand = Var(v: Variable) | Indexed(base: Variable, indices: seq<IndexItem>)
  {
    function Base(): Variable
    {
      if Var? then v else base
    }
  }

  const FullSlice: IndexItem := Slice(None, None, None)

  function FullSlices(n: nat): (r: seq<IndexItem>)
    ensures |r| == n && forall k :: 0 <= k < n ==> r[k] == FullSlice
  {
    seq(n, _ => FullSlice)
  }

  /** The axes an indexing keeps: a full slice keeps the base size, a bounded
    * slice gives the length of that slice of the axis, an index drops the
    * axis, and axes past the last index are kept. */
  function AxisDims(shape: seq<Dim>, items: seq<IndexItem>): (r: seq<Dim>)
    ensures |r| <= |shape|
    decreases |shape|
  {
    if shape == [] then []
    else
      var head :=
        if items == [] || items[0] == FullSlice then [shape[0]]
        else if items[0].At? then []
        else [SliceLength(shape[0], items[0].start, items[0].stop, items[0].step)];
      head + AxisDims(shape[1..], if items == [] then [] else items[1..])
  }

  /** Two bounded slices of one axis give the same length exactly when they
    * are the same slice, so statements over slices of different extents are
    * never taken to share a loop. */
  lemma BoundedSliceLengths(d: Dim, s: IndexItem, s': IndexItem)
    requires s.Slice? && s != FullSlice && s'.Slice? && s' != FullSlice
    ensures AxisDims([d], [s]) == [SliceLength(d, s.start, s.stop, s.step)]
    ensures AxisDims([d], [s]) == AxisDims([d], [s']) <==> s == s'
  {
    assert AxisDims([d], [s]) == [SliceLength(d, s.start, s.stop, s.step)] + AxisDims([], []);
    assert AxisDims([d], [s']) == [SliceLength(d, s'.start, s'.stop, s'.step)] + AxisDims([], []);
    if AxisDims([d], [s]) == AxisDims([d], [s']) {
      assert AxisDims([d], [s])[0] == AxisDims([d], [s'])[0];
    }
  }

  function ShapeOf(e: Operand): seq<Dim>
  {
    match e
    case Var(v) => v.shape
    case Indexed(b, items) => AxisDims(b.shape, items)
  }

  /** Memory order is unset on an element of rank below 2. */
  function OrderOf(e: Operand): Option<Order>
  {
    match e
    case Var(v) => v.order
    case Indexed(b, _) => if |ShapeOf(e)| < 2 then None else b.order
  }

  function Reverse<T>(s: seq<T>): (r: seq<T>)
    ensures |r| == |s|
    ensures forall k :: 0 <= k < |s| ==> r[k] == s[|s| - 1 - k]
  {
    if s == [] then [] else Reverse(s[1..]) + [s[0]]
  }

  /** The shape signature compared by the vector test: F-order shapes are
    * reversed and every non-literal size becomes -1. */
  function Signature(e: Operand): (r: seq<int>)
    ensures |r| == |ShapeOf(e)|
  {
    var s := if OrderOf(e) == Some(F) then Reverse(ShapeOf(e)) else ShapeOf(e);
    seq(|s|, k requires 0 <= k < |s| => if s[k].Lit? then s[k].n else -1)
  }

  function Signatures(args: seq<Operand>): set<seq<int>>
  {
    set a | a in args && ShapeOf(a) != [] :: Signature(a)
  }

  function Orders(args: seq<Operand>): set<Order>
  {
    set a | a in args && OrderOf(a).Some? :: OrderOf(a).value
  }

  /** `compatible_operation`: can the statement with these operands run as it is?
    * One operand always can; with vector support all non-scalar operands must
    * share one signature and there must be exactly one declared order; without
    * it every operand must be scalar. */
  function CompatibleOperation(args: seq<Operand>, hasVectors: bool): bool
  {
    if |args| == 1 then true
    else if hasVectors then |Signatures(args)| == 1 && |Orders(args)| == 1
    else forall k :: 0 <= k < |args| ==> ShapeOf(args[k]) == []
  }

  /** Without vector support, compatibility means every operand is scalar,
    * whatever the number of operands. */
  lemma ScalarCompatibility(args: seq<Operand>)
    ensures (forall k :: 0 <= k < |args| ==> ShapeOf(args[k]) == []) ==> CompatibleOperation(args, false)
    ensures |args| != 1 ==>
      (CompatibleOperation(args, false) <==> forall k :: 0 <= k < |args| ==> ShapeOf(args[k]) == [])
  {
  }

  /** With vector support, several operands that are all scalar are not
    * compatible: they give no shape signature at all. */
  lemma {:induction false} AllScalarNotVectorCompatible(args: seq<Operand>)
    requires |args| >= 2
    requires forall k :: 0 <= k < |args| ==> ShapeOf(args[k]) == []
    ensures !CompatibleOperation(args, true)
  {
    forall a | a in args ensures ShapeOf(a) == [] {
      var k :| 0 <= k < |args| && args[k] == a;
    }
    assert Signatures(args) == {};
  }

  /** With vector support, operands of one shape and one order are
    * compatible, and two different literal signatures are not. */
  lemma {:induction false} VectorCompatibility(args: seq<Operand>, sig: seq<int>, o: Order)
    requires |args| >= 2
    requires exists k :: 0 <= k < |args| && ShapeOf(args[k]) != []
    requires forall k :: 0 <= k < |args| ==> ShapeOf(args[k]) == [] || Signature(args[k]) == sig
    requires exists k :: 0 <= k < |args| && OrderOf(args[k]).Some?
    requires forall k :: 0 <= k < |args| ==> OrderOf(args[k]) == None || OrderOf(args[k]) == Some(o)
    ensures CompatibleOperation(args, true)
  {
    SingleSignature(args, sig);
    SingleOrder(args, o);
  }

  /** Non-scalar operands that all have the signature `sig` give exactly it. */
  lemma SingleSignature(args: seq<Operand>, sig: seq<int>)
    requires exists k :: 0 <= k < |args| && ShapeOf(args[k]) != []
    requires forall k :: 0 <= k < |args| ==> ShapeOf(args[k]) == [] || Signature(args[k]) == sig
    ensures Signatures(args) == {sig}
  {
    var k0 :| 0 <= k0 < |args| && ShapeOf(args[k0]) != [];
    assert Signature(args[k0]) in Signatures(args);
    forall s | s in Signatures(args) ensures s == sig {
      var a :| a in args && ShapeOf(a) != [] && Signature(a) == s;
      var k :| 0 <= k < |args| && args[k] == a;
    }
  }

  /** Operands whose declared orders are all `o` give exactly it. */
  lemma SingleOrder(args: seq<Operand>, o: Order)
    requires exists k :: 0 <= k < |args| && OrderOf(args[k]).Some?
    requires forall k :: 0 <= k < |args| ==> OrderOf(args[k]) == None || OrderOf(args[k]) == Some(o)
    ensures Orders(args) == {o}
  {
    var k1 :| 0 <= k1 < |args| && OrderOf(args[k1]).Some?;
    assert OrderOf(args[k1]).value in Orders(args);
    forall x | x in Orders(args) ensures x == o {
      var a :| a in args && OrderOf(a).Some? && OrderOf(a).value == x;
      var k :| 0 <= k < |args| && args[k] == a;
    }
  }

  lemma {:induction false} MismatchNotVectorCompatible(args: seq<Operand>, i: nat, j: nat)
    requires |args| >= 2 && i < |args| && j < |args|
    requires ShapeOf(args[i]) != [] && ShapeOf(args[j]) != []
    requires Signature(args[i]) != Signature(args[j])
    ensures !CompatibleOperation(args, true)
  {
    assert Signature(args[i]) in Signatures(args);
    assert Signature(args[j]) in Signatures(args);
    assert {Signature(args[i]), Signature(args[j])} <= Signatures(args);
    assert |{Signature(args[i]), Signature(args[j])}| == 2;
    SubsetCard({Signature(args[i]), Signature(args[j])}, Signatures(args));
  }

  lemma SubsetCard<T>(a: set<T>, b: set<T>)
    requires a <= b
    ensures |a| <= |b|
  {
    assert b == a + (b - a);
  }

  /** The item the pass puts at an axis: literal 0 for an axis of size 1,
    * otherwise the loop index. */
  function AxisIndex(d: Dim, index: IndexExpr): IndexExpr
  {
    if d == Lit(1) then IntLit(0) else index
  }

  /** `insert_index(expr, pos, index_var)` for the negative positions the pass
    * uses. A whole variable gets one index at axis `rank+pos` and full slices
    * elsewhere; an indexed element has the slice at `pos` replaced by
    * `index*step + start`. Python's out-of-range list index and the
    * assertion on size-1 axes are failures. */
  function InsertIndex(e: Operand, pos: int, index: IndexExpr): (r: Result<Operand>)
    requires pos < 0
    ensures r.Success? ==> r.value.Base() == e.Base()
    ensures e.Var? ==> r.Success?
    ensures e.Var? && (e.v.Rank() == 0 || -pos > e.v.Rank()) ==> r == Success(e)
    ensures e.Var? && 0 < -pos <= e.v.Rank() ==>
      var n := e.v.Rank();
      r.value.Indexed? && |r.value.indices| == n &&
      r.value.indices[n + pos] == At(AxisIndex(e.v.shape[n + pos], index)) &&
      forall k :: 0 <= k < n && k != n + pos ==> r.value.indices[k] == FullSlice
    ensures e.Indexed? && r.Success? && r != Success(e) ==>
      -pos <= |e.indices| && e.indices[|e.indices| + pos].Slice? &&
      r.value.Indexed? && |r.value.indices| == |e.indices| &&
      forall k :: 0 <= k < |e.indices| && k != |e.indices| + pos ==> r.value.indices[k] == e.indices[k]
    ensures (e.Indexed? && (-pos > e.base.Rank() ||
             (-pos <= |e.indices| && e.indices[|e.indices| + pos].At?))) ==> r == Success(e)
  {
    match e
    case Var(v) =>
      var n := v.Rank();
      if n == 0 || -pos > n then Success(e)
      else
        var idx := AxisIndex(v.shape[n + pos], index);
        Success(Indexed(v, FullSlices(n + pos) + [At(idx)] + FullSlices(-1 - pos)))
    case Indexed(b, items) =>
      if -pos > b.Rank() then Success(e)
      else if -pos > |items| then Failure(IndexError, "list index out of range")
      else
        var k := |items| + pos;
        var item := items[k];
        if !item.Slice? then Success(e)
        else if b.shape[b.Rank() + pos] == Lit(1) then
          if item.start.Some? then Failure(AssertionError, "")
          else Success(Indexed(b, items[k := At(IntLit(0))]))
        else
          var scaled := if item.step.Some? then Mul(index, item.step.value) else index;
          var shifted := if item.start.Some? then Add(scaled, item.start.value) else scaled;
          Success(Indexed(b, items[k := At(shifted)]))
  }

  /** On an indexed element, the new entry at `pos` is `index*step + start`,
    * each term only when present, or 0 on an axis of size 1. */
  lemma IndexedInsertion(e: Operand, pos: int, index: IndexExpr)
    requires pos < 0 && e.Indexed?
    requires -pos <= e.base.Rank() && -pos <= |e.indices|
    requires e.indices[|e.indices| + pos].Slice?
    ensures var item := e.indices[|e.indices| + pos];
      var r := InsertIndex(e, pos, index);
      if e.base.shape[e.base.Rank() + pos] == Lit(1) then
        r == (if item.start.Some? then Failure(AssertionError, "")
              else Success(Indexed(e.base, e.indices[|e.indices| + pos := At(IntLit(0))])))
      else
        var scaled := if item.step.Some? then Mul(index, item.step.value) else index;
        r == Success(Indexed(e.base, e.indices[|e.indices| + pos :=
                       At(if item.start.Some? then Add(scaled, item.start.value) else scaled)]))
  {
  }

  /** An indexed element with fewer entries than `-pos` fails like Python's
    * list indexing would. */
  lemma IndexedTooShort(e: Operand, pos: int, index: IndexExpr)
    requires pos < 0 && e.Indexed? && |e.indices| < -pos <= e.base.Rank()
    ensures InsertIndex(e, pos, index).Failure? && InsertIndex(e, pos, index).kind == IndexError
  {
  }

  /** Inserting an index into a slice entry removes exactly that axis. */
  lemma {:induction false} InsertIndexDropsAxis(e: Operand, pos: int, index: IndexExpr)
    requires pos < 0 && e.Var? && 0 < -pos <= e.v.Rank()
    ensures InsertIndex(e, pos, index).Success?
    ensures |ShapeOf(InsertIndex(e, pos, index).value)| == e.v.Rank() - 1
  {
    var n := e.v.Rank();
    var items := InsertIndex(e, pos, index).value.indices;
    var idx := AxisIndex(e.v.shape[n + pos], index);
    assert items == FullSlices(n + pos) + [At(idx)] + FullSlices(-1 - pos);
    CountAtAppend(FullSlices(n + pos) + [At(idx)], FullSlices(-1 - pos));
    CountAtAppend(FullSlices(n + pos), [At(idx)]);
    CountAtFullSlices(n + pos);
    CountAtFullSlices(-1 - pos);
    assert CountAt([At(idx)]) == 1;
    AxisDimsCount(e.v.shape, items);
  }

  /** On a variable, positions `-R .. -R+t-1` applied in order. */
  function InsertPositions(e: Operand, total: nat, t: nat, names: seq<string>): (r: Result<Operand>)
    requires t <= total && total <= |names|
  {
    if t == 0 then Success(e)
    else
      match InsertPositions(e, total, t - 1, names)
      case Failure(k, m) => Failure(k, m)
      case Success(e1) => InsertIndex(e1, (t - 1) - total, IndexVar(names[t - 1]))
  }

  /** Indexing a variable of rank at most `total` at every position from the
    * leading axis inward leaves a scalar: the loop over axes always reaches a
    * state that needs no vector support. Axis `total-rank+k` of the variable
    * gets index `names[total-rank+k]` (or 0 on a size-1 axis). */
  lemma {:induction false} InsertAllPositionsScalar(v: Variable, total: nat, names: seq<string>)
    requires v.Rank() <= total <= |names|
    ensures InsertPositions(Var(v), total, total, names).Success?
    ensures ShapeOf(InsertPositions(Var(v), total, total, names).value) == []
  {
    var n := v.Rank();
    var off := total - n;
    PositionsPrefix(v, total, total, names);
    var r := InsertPositions(Var(v), total, total, names).value;
    if n > 0 {
      assert r.Indexed? && |r.indices| == n;
      assert forall k :: 0 <= k < n ==> r.indices[k].At?;
      AxisDimsAllAt(v.shape, r.indices);
    }
  }

  /** What indexing the first `t` of `total` positions makes of a variable:
    * nothing until its own axes are reached, then the axes already reached
    * carry indices and the others are still full slices. */
  ghost predicate Reached(v: Variable, total: nat, t: nat, names: seq<string>, e: Operand)
    requires v.Rank() <= total <= |names| && t <= total
  {
    var n := v.Rank();
    e.Base() == v &&
    (t <= total - n || n == 0 ==> e == Var(v)) &&
    (t > total - n && n > 0 ==>
      e.Indexed? && |e.indices| == n &&
      (forall k :: 0 <= k < n && k < t - (total - n) ==>
         e.indices[k] == At(AxisIndex(v.shape[k], IndexVar(names[total - n + k])))) &&
      (forall k :: t - (total - n) <= k < n ==> e.indices[k] == FullSlice))
  }

  /** After the first `t` positions the variable is as `Reached` says. */
  lemma {:induction false} PositionsPrefix(v: Variable, total: nat, t: nat, names: seq<string>)
    requires v.Rank() <= total <= |names| && t <= total
    ensures InsertPositions(Var(v), total, t, names).Success?
    ensures Reached(v, total, t, names, InsertPositions(Var(v), total, t, names).value)
  {
    if t > 0 {
      PositionsPrefix(v, total, t - 1, names);
      PositionsStep(v, total, t, names, InsertPositions(Var(v), total, t - 1, names).value);
    }
  }

  /** One more position keeps the variable as `Reached` says. */
  lemma PositionsStep(v: Variable, total: nat, t: nat, names: seq<string>, prev: Operand)
    requires v.Rank() <= total <= |names| && 0 < t <= total
    requires Reached(v, total, t - 1, names, prev)
    ensures InsertIndex(prev, (t - 1) - total, IndexVar(names[t - 1])).Success?
    ensures Reached(v, total, t, names, InsertIndex(prev, (t - 1) - total, IndexVar(names[t - 1])).value)
  {
    var n := v.Rank();
    if n == 0 || t <= total - n {
    } else if t - 1 == total - n {
      PositionsFirstAxis(v, total, t, names);
    } else {
      PositionsLaterAxis(v, total, t, names, prev);
    }
  }

  lemma PositionsFirstAxis(v: Variable, total: nat, t: nat, names: seq<string>)
    requires v.Rank() <= total <= |names| && 0 < t <= total
    requires v.Rank() > 0 && t - 1 == total - v.Rank()
    ensures InsertIndex(Var(v), (t - 1) - total, IndexVar(names[t - 1])).Success?
    ensures Reached(v, total, t, names, InsertIndex(Var(v), (t - 1) - total, IndexVar(names[t - 1])).value)
  {
    var n := v.Rank();
    var pos := (t - 1) - total;
    assert n + pos == 0;
  }

  lemma PositionsLaterAxis(v: Variable, total: nat, t: nat, names: seq<string>, prev: Operand)
    requires v.Rank() <= total <= |names| && 0 < t <= total
    requires v.Rank() > 0 && t - 1 > total - v.Rank()
    requires Reached(v, total, t - 1, names, prev)
    ensures InsertIndex(prev, (t - 1) - total, IndexVar(names[t - 1])).Success?
    ensures Reached(v, total, t, names, InsertIndex(prev, (t - 1) - total, IndexVar(names[t - 1])).value)
  {
    var n := v.Rank();
    var pos := (t - 1) - total;
    var k := n + pos;
    assert prev.Indexed? && |prev.indices| == n;
    assert k == t - 1 - (total - n);
    assert prev.indices[k] == FullSlice;
    assert v.shape[v.Rank() + pos] == v.shape[k];
  }

  lemma {:induction false} AxisDimsAllAt(shape: seq<Dim>, items: seq<IndexItem>)
    requires |items| == |shape|
    requires forall k :: 0 <= k < |items| ==> items[k].At?
    ensures AxisDims(shape, items) == []
    decreases |shape|
  {
    if shape != [] {
      AxisDimsAllAt(shape[1..], items[1..]);
    }
  }

  /** Number of single-index entries of an indexing. */
  function CountAt(items: seq<IndexItem>): nat
  {
    if items == [] then 0 else (if items[0].At? then 1 else 0) + CountAt(items[1..])
  }

  lemma {:induction false} CountAtAppend(a: seq<IndexItem>, b: seq<IndexItem>)
    ensures CountAt(a + b) == CountAt(a) + CountAt(b)
    decreases |a|
  {
    if a != [] {
      assert (a + b)[0] == a[0];
      assert (a + b)[1..] == a[1..] + b;
      CountAtAppend(a[1..], b);
    } else {
      assert a + b == b;
    }
  }

  lemma {:induction false} CountAtFullSlices(n: nat)
    ensures CountAt(FullSlices(n)) == 0
  {
    if n > 0 {
      assert FullSlices(n)[1..] == FullSlices(n - 1);
      CountAtFullSlices(n - 1);
    }
  }

  /** With one entry per axis and no bounded slices, the kept axes are the
    * non-index entries. */
  lemma {:induction false} AxisDimsCount(shape: seq<Dim>, items: seq<IndexItem>)
    requires |items| == |shape|
    requires forall k :: 0 <= k < |items| ==> items[k].At? || items[k] == FullSlice
    ensures |AxisDims(shape, items)| == |shape| - CountAt(items)
    decreases |shape|
  {
    if shape != [] {
      AxisDimsCount(shape[1..], items[1..]);
    }
  }
}
