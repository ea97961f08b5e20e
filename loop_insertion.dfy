/** `insert_fors` and `expand_to_loops` (pyccel/ast/utilities.py): turn the
  * tree built by `collect_loops` into nested `for` loops over
  * `range(0, size)`, one per level whose trip count is not the literal 1. */
module LoopInsertion {
  import opened Wrappers
  import opened ArrayOperands
  import opened LoopCollection

  /** Generated code: a statement, or `For(index, PythonRange(0, stop), body)`. */
  datatype Code = Plain(stmt: Stmt) | For(index: string, stop: Dim, body: seq<Code>)

  /** `insert_fors(blocks, indices, level)` for one level of the tree. */
  function InsertFors(n: Node, indices: seq<string>, level: nat): seq<Code>
    requires n.Level? && CoveredNode(n, level, |indices|)
    decreases n
  {
    var body := InsertForsList(n.body, indices, level + 1);
    if n.size == Lit(1) then body else [For(indices[level], n.size, body)]
  }

  /** The concatenated code of a list of entries: levels become loops, lines
    * stay as they are. */
  function InsertForsList(nodes: seq<Node>, indices: seq<string>, level: nat): seq<Code>
    requires CoveredList(nodes, level, |indices|)
    decreases nodes
  {
    if nodes == [] then []
    else
      var last := Last(nodes);
      assert CoveredNode(last, level, |indices|);
      InsertForsList(nodes[..|nodes| - 1], indices, level) +
        (if last.Level? then InsertFors(last, indices, level) else [Plain(last.stmt)])
  }

  /** The statements of generated code, in order. */
  function Statements(code: seq<Code>): seq<Stmt>
    decreases code
  {
    if code == [] then []
    else
      var last := code[|code| - 1];
      Statements(code[..|code| - 1]) + (if last.Plain? then [last.stmt] else Statements(last.body))
  }

  /** The statements recorded in the tree, in order. */
  function StmtsOf(ps: seq<Placed>): (r: seq<Stmt>)
    ensures |r| == |ps| && forall i :: 0 <= i < |ps| ==> r[i] == ps[i].stmt
  {
    if ps == [] then [] else StmtsOf(ps[..|ps| - 1]) + [ps[|ps| - 1].stmt]
  }

  lemma StmtsOfAppend(a: seq<Placed>, b: seq<Placed>)
    ensures StmtsOf(a + b) == StmtsOf(a) + StmtsOf(b)
  {
  }

  lemma StatementsAppend(a: seq<Code>, b: seq<Code>)
    ensures Statements(a + b) == Statements(a) + Statements(b)
  {
    if b != [] {
      assert (a + b)[..|a + b| - 1] == a + b[..|b| - 1];
      StatementsAppend(a, b[..|b| - 1]);
    } else {
      assert a + b == a;
    }
  }

  /** Loop insertion adds loops only: the statements come out in the order
    * the tree holds them. */
  lemma {:induction false} InsertForsStatements(n: Node, indices: seq<string>, level: nat)
    requires n.Level? && CoveredNode(n, level, |indices|)
    ensures Statements(InsertFors(n, indices, level)) == StmtsOf(FlattenNode(n, level))
    decreases n
  {
    InsertForsListStatements(n.body, indices, level + 1);
    var body := InsertForsList(n.body, indices, level + 1);
    if n.size != Lit(1) {
      assert [For(indices[level], n.size, body)][..0] == [];
      assert Statements([For(indices[level], n.size, body)]) == Statements([]) + Statements(body);
    }
  }

  lemma {:induction false} InsertForsListStatements(nodes: seq<Node>, indices: seq<string>, level: nat)
    requires CoveredList(nodes, level, |indices|)
    ensures Statements(InsertForsList(nodes, indices, level)) == StmtsOf(Flatten(nodes, level))
    decreases nodes
  {
    if nodes != [] {
      var last := Last(nodes);
      var front := nodes[..|nodes| - 1];
      InsertForsListStatements(front, indices, level);
      var tail := if last.Level? then InsertFors(last, indices, level) else [Plain(last.stmt)];
      StatementsAppend(InsertForsList(front, indices, level), tail);
      StmtsOfAppend(Flatten(front, level), FlattenNode(last, level));
      if last.Level? {
        InsertForsStatements(last, indices, level);
      } else {
        assert [Plain(last.stmt)][..0] == [];
      }
    }
  }

  /** Every loop has an index from the pool and a trip count other than the
    * literal 1. */
  predicate LoopsWellFormed(code: seq<Code>, indices: seq<string>)
    decreases code
  {
    forall k :: 0 <= k < |code| ==> code[k].For? ==>
      code[k].index in indices && code[k].stop != Lit(1) && LoopsWellFormed(code[k].body, indices)
  }

  lemma {:induction false} InsertForsWellFormed(n: Node, indices: seq<string>, level: nat)
    requires n.Level? && CoveredNode(n, level, |indices|)
    ensures LoopsWellFormed(InsertFors(n, indices, level), indices)
    decreases n
  {
    InsertForsListWellFormed(n.body, indices, level + 1);
  }

  lemma {:induction false} InsertForsListWellFormed(nodes: seq<Node>, indices: seq<string>, level: nat)
    requires CoveredList(nodes, level, |indices|)
    ensures LoopsWellFormed(InsertForsList(nodes, indices, level), indices)
    decreases nodes
  {
    if nodes != [] {
      var last := Last(nodes);
      InsertForsListWellFormed(nodes[..|nodes| - 1], indices, level);
      if last.Level? {
        InsertForsWellFormed(last, indices, level);
      }
    }
  }

  /** A level of trip count 1 produces no loop: its body is emitted in place. */
  lemma UnitLevelHasNoLoop(body: seq<Node>, written: set<Operand>, indices: seq<string>, level: nat)
    requires CoveredNode(Level(body, Lit(1), written), level, |indices|)
    ensures InsertFors(Level(body, Lit(1), written), indices, level) == InsertForsList(body, indices, level + 1)
  {
  }

  /** What `expand_to_loops` computes: the tree `collect_loops` builds from
    * an empty index pool, turned into loops by `insert_fors` from level 0,
    * together with the pool of indices. */
  function Expanded(block: seq<Stmt>, hv: bool): (r: Result<(seq<Code>, seq<string>)>)
    ensures r.Success? <==> Run(block, [], hv).Success?
    ensures r.Failure? ==> r == Failure(Run(block, [], hv).kind, Run(block, [], hv).msg)
  {
    match Run(block, [], hv)
    case Failure(k, m) => Failure(k, m)
    case Success(st) =>
      RunCovered(block, [], hv);
      Success((InsertForsList(st.result, st.indices, 0), st.indices))
  }

  /** `expand_to_loops(block, language_has_vectors)`: the code with explicit
    * loops and the index variables it introduced. */
  method ExpandToLoops(block: seq<Stmt>, hv: bool) returns (r: Result<seq<Code>>, indices: seq<string>)
    ensures r.Success? <==> Run(block, [], hv).Success?
    ensures r.Failure? ==> r == Failure(Run(block, [], hv).kind, Run(block, [], hv).msg)
    ensures r.Success? ==> Expanded(block, hv) == Success((r.value, indices))
    ensures r.Success? ==> |Statements(r.value)| == |block|
    ensures r.Success? ==> forall i :: 0 <= i < |block| ==> Skeleton(Statements(r.value)[i]) == Skeleton(block[i])
    ensures r.Success? ==> forall i :: 0 <= i < |block| && !Expandable(block[i]) ==> Statements(r.value)[i] == block[i]
    ensures r.Success? ==> LoopsWellFormed(r.value, indices)
    ensures r.Success? ==> forall k :: 0 <= k < |indices| ==> indices[k] == IndexName(k)
  {
    var res;
    res, indices := CollectLoops(block, [], hv);
    if res.Failure? {
      return Failure(res.kind, res.msg), indices;
    }
    RunCovered(block, [], hv);
    RunPool(block, [], hv);
    RunKeepsStatements(block, [], hv);
    var body := InsertForsList(res.value, indices, 0);
    InsertForsListStatements(res.value, indices, 0);
    InsertForsListWellFormed(res.value, indices, 0);
    var placed := Flatten(res.value, 0);
    forall i | 0 <= i < |block|
      ensures Skeleton(Statements(body)[i]) == Skeleton(block[i])
      ensures !Expandable(block[i]) ==> Statements(body)[i] == block[i]
    {
      assert Faithful(block[i], placed[i]);
    }
    r := Success(body);
  }
}

module LoopExpansionExample {
  import opened Wrappers
  import opened ArrayOperands
  import opened LoopCollection
  import opened LoopInsertion

  function Vec(name: string): Variable
  {
    Variable(name, [Lit(4)], None)
  }

  function At0(name: string): Operand
  {
    Indexed(Vec(name), [At(IndexVar("i_0"))])
  }

  function Sum(x: Operand, y: Operand): Expr
  {
    Operator("+", [Leaf(x), Leaf(y)])
  }

  lemma SumOperands(x: Operand, y: Operand)
    ensures Operands(Sum(x, y)) == [x, y]
    ensures ElementalDefVars(Sum(x, y)) == []
    ensures UsedList(Sum(x, y)) == []
  {
    var args := [Leaf(x), Leaf(y)];
    assert args[1..] == [Leaf(y)] && args[1..][1..] == [];
    assert OperandsList(args) == [x] + OperandsList([Leaf(y)]);
    assert ElementalDefVarsList(args) == [] + ElementalDefVarsList([Leaf(y)]);
    assert UsedListOf(args) == [] + UsedListOf([Leaf(y)]);
  }

  lemma SumSubstitute(x: Operand, y: Operand, olds: seq<Operand>, news: seq<Operand>)
    requires |olds| == |news|
    ensures SubstExpr(Sum(x, y), olds, news) == Sum(Lookup(x, olds, news), Lookup(y, olds, news))
  {
    var args := [Leaf(x), Leaf(y)];
    assert args[1..] == [Leaf(y)] && args[1..][1..] == [];
    assert SubstList([], olds, news) == [];
    assert SubstList([Leaf(y)], olds, news) == [Leaf(Lookup(y, olds, news))] + [];
    assert SubstList(args, olds, news) == [Leaf(Lookup(x, olds, news))] + [Leaf(Lookup(y, olds, news))];
  }

  lemma InsertAllCons(x: Operand, rest: seq<Operand>, v: Operand, vs: seq<Operand>)
    requires InsertIndex(x, -1, IndexVar("i_0")) == Success(v)
    requires InsertAll(rest, -1, IndexVar("i_0")) == Success(vs)
    ensures InsertAll([x] + rest, -1, IndexVar("i_0")) == Success([v] + vs)
  {
    assert ([x] + rest)[1..] == rest;
  }

  lemma IndexVec(name: string)
    ensures InsertIndex(Var(Vec(name)), -1, IndexVar("i_0")) == Success(At0(name))
  {
    var r := InsertIndex(Var(Vec(name)), -1, IndexVar("i_0"));
    assert r.value.indices == [At(IndexVar("i_0"))];
  }

  lemma ExampleIndexing()
    ensures var vars := [Var(Vec("c")), Var(Vec("a")), Var(Vec("b"))];
      IndexOutcome(vars, 1, [], false) == Success(Indexing([At0("c"), At0("a"), At0("b")], 1))
  {
    var vars := [Var(Vec("c")), Var(Vec("a")), Var(Vec("b"))];
    var idx := IndexVar("i_0");
    assert NatToString(0) == "0";
    assert NameAt([], 0) == "i_0";
    IndexVec("a");
    IndexVec("b");
    IndexVec("c");
    InsertAllCons(Var(Vec("b")), [], At0("b"), []);
    assert [Var(Vec("b"))] + [] == [Var(Vec("b"))] && [At0("b")] + [] == [At0("b")];
    InsertAllCons(Var(Vec("a")), [Var(Vec("b"))], At0("a"), [At0("b")]);
    assert [Var(Vec("a"))] + [Var(Vec("b"))] == [Var(Vec("a")), Var(Vec("b"))];
    assert [At0("a")] + [At0("b")] == [At0("a"), At0("b")];
    InsertAllCons(Var(Vec("c")), [Var(Vec("a")), Var(Vec("b"))], At0("c"), [At0("a"), At0("b")]);
    assert [Var(Vec("c"))] + [Var(Vec("a")), Var(Vec("b"))] == vars;
    assert [At0("c")] + [At0("a"), At0("b")] == [At0("c"), At0("a"), At0("b")];
    assert "i_" + "0" == "i_0";
  }

  lemma ExampleVariables()
    ensures Variables(Assign(Var(Vec("c")), Sum(Var(Vec("a")), Var(Vec("b")))))
      == [Var(Vec("c")), Var(Vec("a")), Var(Vec("b"))]
  {
    var a, b, c := Var(Vec("a")), Var(Vec("b")), Var(Vec("c"));
    SumOperands(a, b);
    var all := [c] + [a, b] + [];
    assert all == [c, a, b];
    assert a != c && b != c && b != a;
    assert [c][..0] == [] && [c, a][..1] == [c] && all[..2] == [c, a];
    assert Dedup([]) == [];
    assert Dedup([c]) == [c];
    assert Dedup([c, a]) == [c, a];
    assert Dedup(all) == [c, a, b];
  }

  function ExampleLine(): Stmt
  {
    Assign(Var(Vec("c")), Sum(Var(Vec("a")), Var(Vec("b"))))
  }

  function ExampleIndexed(): Stmt
  {
    Assign(At0("c"), Sum(At0("a"), At0("b")))
  }

  lemma ExampleStep()
    ensures Step(State([], 0, []), ExampleLine(), false)
      == Success(State([Level([Line(ExampleIndexed())], Lit(4), {Var(Vec("c"))})], 1, ["i_0"]))
  {
    var line := ExampleLine();
    var news := [At0("c"), At0("a"), At0("b")];
    ExampleLineFacts();
    ExampleIndexing();
    StepExpands(State([], 0, []), line, false, Indexing(news, 1), 0);
    ExampleSubstitute();
    ExamplePlace();
    ExamplePool();
  }

  lemma ExampleLineFacts()
    ensures var a, b, c := Var(Vec("a")), Var(Vec("b")), Var(Vec("c"));
      Expandable(ExampleLine()) && Variables(ExampleLine()) == [c, a, b] &&
      ShapeOf(ExampleLine().lhs) == [Lit(4)] && !CompatibleOperation([c, a, b], false) &&
      ReuseSpec([], 0, [Lit(4)], UsedVars(ExampleLine()), 0) == 0 && LhsVars(ExampleLine()) == {c}
  {
    var a, b, c := Var(Vec("a")), Var(Vec("b")), Var(Vec("c"));
    ExampleVariables();
    assert ShapeOf([c, a, b][0]) != [];
  }

  lemma ExampleSubstitute()
    ensures var a, b, c := Var(Vec("a")), Var(Vec("b")), Var(Vec("c"));
      Substitute(ExampleLine(), [c, a, b], [At0("c"), At0("a"), At0("b")]) == ExampleIndexed()
  {
    var a, b, c := Var(Vec("a")), Var(Vec("b")), Var(Vec("c"));
    var olds, news := [c, a, b], [At0("c"), At0("a"), At0("b")];
    SumSubstitute(a, b, olds, news);
    assert a != c && b != c && b != a;
    assert olds[1..] == [a, b] && news[1..] == [At0("a"), At0("b")];
    assert olds[1..][1..] == [b] && news[1..][1..] == [At0("b")];
    assert Lookup(c, olds, news) == At0("c");
    assert Lookup(a, olds, news) == Lookup(a, olds[1..], news[1..]) == At0("a");
    assert Lookup(b, olds[1..], news[1..]) == Lookup(b, olds[1..][1..], news[1..][1..]) == At0("b");
  }

  lemma ExamplePlace()
    ensures Place([], 0, 0, 1, [Lit(4)], {Var(Vec("c"))}, ExampleIndexed())
      == [Level([Line(ExampleIndexed())], Lit(4), {Var(Vec("c"))})]
  {
  }

  lemma ExamplePool()
    ensures PoolUpTo([], 1) == ["i_0"]
  {
    assert "i_" + "0" == "i_0" && NatToString(0) == "0";
    assert PoolUpTo([], 1) == PoolUpTo([], 0) + [IndexName(0)];
  }

  function ExampleTree(): seq<Node>
  {
    [Level([Line(ExampleIndexed())], Lit(4), {Var(Vec("c"))})]
  }

  lemma ExampleRun()
    ensures Run([ExampleLine()], [], false) == Success(State(ExampleTree(), 1, ["i_0"]))
  {
    var line := ExampleLine();
    ExampleStep();
    assert [line][..0] == [];
    assert Run([], [], false) == Success(State([], 0, []));
  }

  lemma ExampleFors()
    requires CoveredList(ExampleTree(), 0, 1)
    ensures InsertForsList(ExampleTree(), ["i_0"], 0) == [For("i_0", Lit(4), [Plain(ExampleIndexed())])]
  {
    var inner := [Line(ExampleIndexed())];
    assert ExampleTree()[..0] == [] && inner[..0] == [];
    assert InsertForsList(inner, ["i_0"], 1) == [] + [Plain(ExampleIndexed())];
    assert [] + [Plain(ExampleIndexed())] == [Plain(ExampleIndexed())];
    var level := ExampleTree()[0];
    assert level.body == inner && level.size == Lit(4);
    assert InsertFors(level, ["i_0"], 0) == [For("i_0", Lit(4), [Plain(ExampleIndexed())])];
    assert InsertForsList(ExampleTree(), ["i_0"], 0) == [] + InsertFors(level, ["i_0"], 0);
  }

  /** The example of `expand_to_loops`'s documentation: `c = a + b` on arrays
    * of four elements, without vector support, becomes one loop over `i_0`
    * around `c[i_0] = a[i_0] + b[i_0]`. */
  lemma VectorAddExample()
    ensures Expanded([ExampleLine()], false) == Success(([For("i_0", Lit(4), [Plain(ExampleIndexed())])], ["i_0"]))
  {
    ExampleRun();
    RunCovered([ExampleLine()], [], false);
    ExampleFors();
  }
}
