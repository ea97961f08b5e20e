/** `collect_loops` (pyccel/ast/utilities.py): walks a block of statements
  * and sorts each one into a tree of loop levels. A statement that needs
  * loops gets one index per axis from the leading axis inward until its
  * operands become compatible, and shares the enclosing levels of the
  * previous statement while trip counts match and nothing it reads inside a
  * function was written there. */
module LoopCollection {
  import opened Wrappers
  import opened ArrayOperands

  /** Right-hand sides, as far as the pass looks into them. A call carries the
    * variables of the called function's definition (`defVars`), which the
    * pass inspects besides the call's arguments. */
  datatype Expr =
    | Leaf(op: Operand)
    | Const(text: string)
    | Operator(name: string, args: seq<Expr>)
    | Call(func: string, elemental: bool, defVars: seq<Operand>, args: seq<Expr>)
    | Internal(name: string, args: seq<Expr>)
    | Creator(kind: string, args: seq<Expr>)

  datatype Stmt = Assign(lhs: Operand, rhs: Expr) | Other(text: string)

  /** The result tree: a statement, or a loop level with its body, trip count
    * and the variables written inside it. */
  datatype Node = Line(stmt: Stmt) | Level(body: seq<Node>, size: Dim, written: set<Operand>)

  // ---------------------------------------------------------------- operands

  /** Every operand occurring in an expression, in order. */
  function Operands(e: Expr): seq<Operand>
    decreases e
  {
    match e
    case Leaf(op) => [op]
    case Const(_) => []
    case Operator(_, args) => OperandsList(args)
    case Call(_, _, _, args) => OperandsList(args)
    case Internal(_, args) => OperandsList(args)
    case Creator(_, args) => OperandsList(args)
  }

  function OperandsList(es: seq<Expr>): seq<Operand>
    decreases es
  {
    if es == [] then [] else Operands(es[0]) + OperandsList(es[1..])
  }

  /** Variables of the definitions of elemental functions called in `e`. */
  function ElementalDefVars(e: Expr): seq<Operand>
    decreases e
  {
    match e
    case Leaf(_) => []
    case Const(_) => []
    case Operator(_, args) => ElementalDefVarsList(args)
    case Call(_, elemental, defVars, args) =>
      (if elemental then defVars else []) + ElementalDefVarsList(args)
    case Internal(_, args) => ElementalDefVarsList(args)
    case Creator(_, args) => ElementalDefVarsList(args)
  }

  function ElementalDefVarsList(es: seq<Expr>): seq<Operand>
    decreases es
  {
    if es == [] then [] else ElementalDefVars(es[0]) + ElementalDefVarsList(es[1..])
  }

  /** Variables read through non-elemental functions and internal functions:
    * the definition variables of the former, the argument operands of the
    * latter. */
  function UsedList(e: Expr): seq<Operand>
    decreases e
  {
    match e
    case Leaf(_) => []
    case Const(_) => []
    case Operator(_, args) => UsedListOf(args)
    case Call(_, elemental, defVars, args) =>
      (if elemental then [] else defVars) + UsedListOf(args)
    case Internal(_, args) => OperandsList(args) + UsedListOf(args)
    case Creator(_, args) => UsedListOf(args)
  }

  function UsedListOf(es: seq<Expr>): seq<Operand>
    decreases es
  {
    if es == [] then [] else UsedList(es[0]) + UsedListOf(es[1..])
  }

  predicate HasCreator(e: Expr)
    decreases e
  {
    match e
    case Leaf(_) => false
    case Const(_) => false
    case Operator(_, args) => exists k :: 0 <= k < |args| && HasCreator(args[k])
    case Call(_, _, _, args) => exists k :: 0 <= k < |args| && HasCreator(args[k])
    case Internal(_, args) => exists k :: 0 <= k < |args| && HasCreator(args[k])
    case Creator(_, _) => true
  }

  /** The first occurrence of each element, in order (`list(set(...))`). */
  function Dedup(s: seq<Operand>): (r: seq<Operand>)
    ensures forall x :: x in r <==> x in s
    ensures forall i, j :: 0 <= i < j < |r| ==> r[i] != r[j]
  {
    if s == [] then []
    else
      var rest := Dedup(s[..|s| - 1]);
      if s[|s| - 1] in rest then rest else rest + [s[|s| - 1]]
  }

  /** The operands of a statement that the pass may index. */
  function Variables(line: Stmt): seq<Operand>
    requires line.Assign?
  {
    Dedup([line.lhs] + Operands(line.rhs) + ElementalDefVars(line.rhs))
  }

  function UsedVars(line: Stmt): set<Operand>
    requires line.Assign?
  {
    set u | u in UsedList(line.rhs)
  }

  /** The variable a statement writes. */
  function LhsVars(line: Stmt): set<Operand>
    requires line.Assign?
  {
    {Var(line.lhs.Base())}
  }

  // ------------------------------------------------------------ substitution

  function Lookup(op: Operand, olds: seq<Operand>, news: seq<Operand>): Operand
    requires |olds| == |news|
  {
    if olds == [] then op
    else if olds[0] == op then news[0]
    else Lookup(op, olds[1..], news[1..])
  }

  function SubstExpr(e: Expr, olds: seq<Operand>, news: seq<Operand>): Expr
    requires |olds| == |news|
    decreases e
  {
    match e
    case Leaf(op) => Leaf(Lookup(op, olds, news))
    case Const(_) => e
    case Operator(n, args) => Operator(n, SubstList(args, olds, news))
    case Call(f, el, dv, args) => Call(f, el, dv, SubstList(args, olds, news))
    case Internal(n, args) => Internal(n, SubstList(args, olds, news))
    case Creator(n, args) => Creator(n, SubstList(args, olds, news))
  }

  function SubstList(es: seq<Expr>, olds: seq<Operand>, news: seq<Operand>): (r: seq<Expr>)
    requires |olds| == |news|
    ensures |r| == |es|
    decreases es
  {
    if es == [] then [] else [SubstExpr(es[0], olds, news)] + SubstList(es[1..], olds, news)
  }

  /** `line.substitute(variables, new_vars)`. */
  function Substitute(line: Stmt, olds: seq<Operand>, news: seq<Operand>): Stmt
    requires |olds| == |news|
  {
    match line
    case Assign(lhs, rhs) => Assign(Lookup(lhs, olds, news), SubstExpr(rhs, olds, news))
    case Other(_) => line
  }

  /** A statement with every operand replaced by its underlying variable:
    * what indexing does not change. */
  function SkeletonExpr(e: Expr): Expr
    decreases e
  {
    match e
    case Leaf(op) => Leaf(Var(op.Base()))
    case Const(_) => e
    case Operator(n, args) => Operator(n, SkeletonList(args))
    case Call(f, el, dv, args) => Call(f, el, dv, SkeletonList(args))
    case Internal(n, args) => Internal(n, SkeletonList(args))
    case Creator(n, args) => Creator(n, SkeletonList(args))
  }

  function SkeletonList(es: seq<Expr>): (r: seq<Expr>)
    ensures |r| == |es|
    decreases es
  {
    if es == [] then [] else [SkeletonExpr(es[0])] + SkeletonList(es[1..])
  }

  function Skeleton(line: Stmt): Stmt
  {
    match line
    case Assign(lhs, rhs) => Assign(Var(lhs.Base()), SkeletonExpr(rhs))
    case Other(_) => line
  }

  predicate SameBases(olds: seq<Operand>, news: seq<Operand>)
  {
    |olds| == |news| && forall k :: 0 <= k < |olds| ==> news[k].Base() == olds[k].Base()
  }

  lemma {:induction false} LookupBase(op: Operand, olds: seq<Operand>, news: seq<Operand>)
    requires SameBases(olds, news)
    ensures Lookup(op, olds, news).Base() == op.Base()
    decreases |olds|
  {
    if olds != [] && olds[0] != op {
      LookupBase(op, olds[1..], news[1..]);
    }
  }

  lemma {:induction false} SubstExprSkeleton(e: Expr, olds: seq<Operand>, news: seq<Operand>)
    requires SameBases(olds, news)
    ensures SkeletonExpr(SubstExpr(e, olds, news)) == SkeletonExpr(e)
    decreases e
  {
    match e
    case Leaf(op) => LookupBase(op, olds, news);
    case Const(_) =>
    case Operator(n, args) => SubstListSkeleton(args, olds, news);
    case Call(f, el, dv, args) => SubstListSkeleton(args, olds, news);
    case Internal(n, args) => SubstListSkeleton(args, olds, news);
    case Creator(n, args) => SubstListSkeleton(args, olds, news);
  }

  lemma {:induction false} SubstListSkeleton(es: seq<Expr>, olds: seq<Operand>, news: seq<Operand>)
    requires SameBases(olds, news)
    ensures SkeletonList(SubstList(es, olds, news)) == SkeletonList(es)
    decreases es
  {
    if es != [] {
      SubstExprSkeleton(es[0], olds, news);
      SubstListSkeleton(es[1..], olds, news);
    }
  }

  /** Substituting indexed versions of the same variables leaves the
    * statement's skeleton unchanged. */
  lemma {:induction false} SubstituteKeepsSkeleton(line: Stmt, olds: seq<Operand>, news: seq<Operand>)
    requires SameBases(olds, news)
    ensures Skeleton(Substitute(line, olds, news)) == Skeleton(line)
  {
    if line.Assign? {
      LookupBase(line.lhs, olds, news);
      SubstExprSkeleton(line.rhs, olds, news);
    }
  }

  // --------------------------------------------------------- index insertion

  function IndexName(k: nat): string
  {
    "i_" + NatToString(k)
  }

  /** The index variable used at loop depth `k`: an existing pool entry, or
    * the `i_k` the pass appends. */
  function NameAt(pool: seq<string>, k: nat): string
  {
    if k < |pool| then pool[k] else IndexName(k)
  }

  /** The pool after indexing to depth `level`: it only grows, by `i_k` at
    * each missing position `k`. */
  function PoolUpTo(pool: seq<string>, level: nat): (r: seq<string>)
    ensures |r| == if level > |pool| then level else |pool|
    ensures forall k :: 0 <= k < |r| ==> r[k] == NameAt(pool, k)
    decreases level
  {
    if level <= |pool| then pool else PoolUpTo(pool, level - 1) + [IndexName(level - 1)]
  }

  /** `[insert_index(v, pos, index_var) for v in vars]`. */
  function InsertAll(vars: seq<Operand>, pos: int, index: IndexExpr): (r: Result<seq<Operand>>)
    requires pos < 0
    ensures r.Success? ==> SameBases(vars, r.value)
  {
    if vars == [] then Success([])
    else
      match InsertIndex(vars[0], pos, index)
      case Failure(k, m) => Failure(k, m)
      case Success(v) =>
        match InsertAll(vars[1..], pos, index)
        case Failure(k, m) => Failure(k, m)
        case Success(vs) => Success([v] + vs)
  }

  /** The operands after the first `t` axes have been indexed. */
  function StepVars(vars: seq<Operand>, rank: nat, pool: seq<string>, t: nat): (r: Result<seq<Operand>>)
    requires t <= rank
    ensures r.Success? ==> SameBases(vars, r.value)
  {
    if t == 0 then Success(vars)
    else
      match StepVars(vars, rank, pool, t - 1)
      case Failure(k, m) => Failure(k, m)
      case Success(vs) => InsertAll(vs, (t - 1) - rank, IndexVar(NameAt(pool, t - 1)))
  }

  /** The operands after indexing, and the loop depth reached. */
  datatype Indexing = Indexing(vars: seq<Operand>, level: nat)

  /** The axis loop from depth `kk`, with the operands `nv` reached there:
    * index axis `kk` of every operand, then stop if they have become
    * compatible or every axis of the target is indexed, and go on otherwise. */
  function IndexFrom(nv: seq<Operand>, rank: nat, pool: seq<string>, hv: bool, kk: nat)
    : Result<Indexing>
    requires kk < rank
    decreases rank - kk
  {
    match InsertAll(nv, kk - rank, IndexVar(NameAt(pool, kk)))
    case Failure(k, m) => Failure(k, m)
    case Success(next) =>
      if CompatibleOperation(next, hv) || kk + 1 == rank then Success(Indexing(next, kk + 1))
      else IndexFrom(next, rank, pool, hv, kk + 1)
  }

  function IndexOutcome(vars: seq<Operand>, rank: nat, pool: seq<string>, hv: bool)
    : Result<Indexing>
  {
    if rank == 0 then Success(Indexing(vars, 0)) else IndexFrom(vars, rank, pool, hv, 0)
  }

  /** The search from depth `kk` ends deeper, no deeper than the target's
    * rank, at a compatible state unless it indexed every axis, and keeps
    * every operand's underlying variable. */
  lemma {:induction false} IndexFromStops(nv: seq<Operand>, rank: nat, pool: seq<string>, hv: bool,
                                          kk: nat, r: Indexing)
    requires kk < rank
    requires IndexFrom(nv, rank, pool, hv, kk) == Success(r)
    ensures kk < r.level <= rank
    ensures SameBases(nv, r.vars)
    ensures CompatibleOperation(r.vars, hv) || r.level == rank
    decreases rank - kk
  {
    var next := InsertAll(nv, kk - rank, IndexVar(NameAt(pool, kk))).value;
    if !(CompatibleOperation(next, hv) || kk + 1 == rank) {
      IndexFromStops(next, rank, pool, hv, kk + 1, r);
    }
  }

  /** Against the reference `StepVars`: the search from the operands of depth
    * `kk` ends with the operands of its final depth, and every depth it
    * passed on the way was reached without error and left the operands
    * incompatible. */
  lemma {:induction false} IndexFromFirstCompatible(vars: seq<Operand>, nv: seq<Operand>, rank: nat,
                                                    pool: seq<string>, hv: bool, kk: nat, r: Indexing)
    requires kk < rank && StepVars(vars, rank, pool, kk) == Success(nv)
    requires IndexFrom(nv, rank, pool, hv, kk) == Success(r)
    ensures kk < r.level <= rank
    ensures StepVars(vars, rank, pool, r.level) == Success(r.vars)
    ensures forall s :: kk < s < r.level ==> IncompatibleAt(vars, rank, pool, hv, s)
    decreases rank - kk
  {
    IndexFromStops(nv, rank, pool, hv, kk, r);
    var next := InsertAll(nv, kk - rank, IndexVar(NameAt(pool, kk))).value;
    StepVarsNext(vars, rank, pool, kk, nv);
    if !(CompatibleOperation(next, hv) || kk + 1 == rank) {
      IndexFromFirstCompatible(vars, next, rank, pool, hv, kk + 1, r);
      assert IncompatibleAt(vars, rank, pool, hv, kk + 1);
      forall s | kk < s < r.level
        ensures IncompatibleAt(vars, rank, pool, hv, s)
      {
        if s != kk + 1 {
          assert kk + 1 < s < r.level;
        }
      }
    }
  }

  /** The whole search, against the reference `StepVars`: it ends at the
    * first depth whose operands are compatible, or at the target's rank,
    * with the operands of that depth. */
  lemma IndexOutcomeFirstCompatible(vars: seq<Operand>, rank: nat, pool: seq<string>, hv: bool)
    requires rank > 0 && IndexOutcome(vars, rank, pool, hv).Success?
    ensures var r := IndexOutcome(vars, rank, pool, hv).value;
      1 <= r.level <= rank && StepVars(vars, rank, pool, r.level) == Success(r.vars) &&
      (CompatibleOperation(r.vars, hv) || r.level == rank) &&
      forall s :: 1 <= s < r.level ==> IncompatibleAt(vars, rank, pool, hv, s)
  {
    var r := IndexOutcome(vars, rank, pool, hv).value;
    IndexFromStops(vars, rank, pool, hv, 0, r);
    IndexFromFirstCompatible(vars, vars, rank, pool, hv, 0, r);
  }

  /** Indexing the first `s` axes succeeds and leaves the operands
    * incompatible. */
  predicate IncompatibleAt(vars: seq<Operand>, rank: nat, pool: seq<string>, hv: bool, s: nat)
  {
    s <= rank && StepVars(vars, rank, pool, s).Success? && !CompatibleOperation(StepVars(vars, rank, pool, s).value, hv)
  }

  /** The loop over axes of `collect_loops`: appends `i_kk` to the pool when
    * depth `kk` has no index yet, inserts that index into every operand at
    * position `kk - rank`, and stops at the first compatible state. */
  method IndexUntilCompatible(vars: seq<Operand>, rank: nat, indices: seq<string>, hv: bool)
    returns (r: Result<Indexing>, pool: seq<string>)
    ensures r == IndexOutcome(vars, rank, indices, hv)
    ensures r.Success? ==> pool == PoolUpTo(indices, r.value.level)
  {
    pool := indices;
    var newVars := vars;
    var newLevel := 0;
    var kk := 0;
    var done := false;
    while kk < rank && !done
      invariant newLevel == kk && AxisLoop(vars, rank, indices, hv, kk, newVars, pool, done)
      decreases rank - kk
    {
      PoolStep(indices, kk);
      newLevel := newLevel + 1;
      if kk >= |pool| {
        pool := pool + [IndexName(kk)];
      }
      var indexVar := pool[kk];
      var inserted := InsertAll(newVars, kk - rank, IndexVar(indexVar));
      SearchStep(vars, rank, indices, hv, kk, newVars, inserted);
      if inserted.Failure? {
        r := Failure(inserted.kind, inserted.msg);
        return;
      }
      newVars := inserted.value;
      if CompatibleOperation(newVars, hv) {
        done := true;
      }
      kk := kk + 1;
    }
    r := Success(Indexing(newVars, newLevel));
  }

  /** The invariant of the axis loop: the pool holds an index for every
    * depth so far, and the search has either ended with the operands `nv`
    * at depth `kk` or goes on from there. */
  ghost predicate AxisLoop(vars: seq<Operand>, rank: nat, indices: seq<string>, hv: bool, kk: nat,
                           nv: seq<Operand>, pool: seq<string>, done: bool)
  {
    kk <= rank && pool == PoolUpTo(indices, kk) &&
    if done then IndexOutcome(vars, rank, indices, hv) == Success(Indexing(nv, kk))
    else Searching(vars, rank, indices, hv, kk, nv)
  }

  /** The loop's state while it goes on: the search from the first `kk`
    * axes, with operands `nv`, gives the outcome of the whole search. */
  ghost predicate Searching(vars: seq<Operand>, rank: nat, pool: seq<string>, hv: bool, kk: nat, nv: seq<Operand>)
  {
    kk <= rank && (kk == 0 ==> nv == vars) &&
    (kk < rank ==> IndexOutcome(vars, rank, pool, hv) == IndexFrom(nv, rank, pool, hv, kk)) &&
    (kk == rank ==> IndexOutcome(vars, rank, pool, hv) == Success(Indexing(nv, rank)))
  }

  /** One pass of the axis loop: the insertion either fails, and so does the
    * search, or gives the operands at the next depth, where the search stops
    * when they are compatible and goes on otherwise. */
  lemma SearchStep(vars: seq<Operand>, rank: nat, pool: seq<string>, hv: bool, kk: nat, nv: seq<Operand>,
                   inserted: Result<seq<Operand>>)
    requires kk < rank && Searching(vars, rank, pool, hv, kk, nv)
    requires inserted == InsertAll(nv, kk - rank, IndexVar(NameAt(pool, kk)))
    ensures inserted.Failure? ==> IndexOutcome(vars, rank, pool, hv) == Failure(inserted.kind, inserted.msg)
    ensures inserted.Success? && CompatibleOperation(inserted.value, hv) ==>
      IndexOutcome(vars, rank, pool, hv) == Success(Indexing(inserted.value, kk + 1))
    ensures inserted.Success? && !CompatibleOperation(inserted.value, hv) ==>
      Searching(vars, rank, pool, hv, kk + 1, inserted.value)
  {
  }

  /** One more depth adds `i_kk` to the pool when it has no index there. */
  lemma PoolStep(pool: seq<string>, kk: nat)
    ensures var p := PoolUpTo(pool, kk);
      PoolUpTo(pool, kk + 1) == (if kk >= |p| then p + [IndexName(kk)] else p) &&
      PoolUpTo(pool, kk + 1)[kk] == NameAt(pool, kk)
  {
  }

  /** One more axis inserts the index at that depth into every operand. */
  lemma StepVarsNext(vars: seq<Operand>, rank: nat, pool: seq<string>, t: nat, nv: seq<Operand>)
    requires t < rank && StepVars(vars, rank, pool, t) == Success(nv)
    ensures StepVars(vars, rank, pool, t + 1) == InsertAll(nv, t - rank, IndexVar(NameAt(pool, t)))
  {
  }

  // -------------------------------------------------------------- loop reuse

  function Last(nodes: seq<Node>): Node
    requires nodes != []
  {
    nodes[|nodes| - 1]
  }

  /** How many loop levels are open along the last entries of the tree. */
  function RightDepth(nodes: seq<Node>): nat
  {
    if nodes != [] && Last(nodes).Level? then 1 + RightDepth(Last(nodes).body) else 0
  }

  /** The body reached after entering the last level `t` times (`save_spot`). */
  function Descend(nodes: seq<Node>, t: nat): (r: seq<Node>)
    requires t <= RightDepth(nodes)
    ensures RightDepth(r) == RightDepth(nodes) - t
  {
    if t == 0 then nodes else Last(Descend(nodes, t - 1)).body
  }

  /** The open level at depth `t` (`save_spot[-1]` after `t` steps). */
  function Spine(nodes: seq<Node>, t: nat): (n: Node)
    requires t < RightDepth(nodes)
    ensures n.Level?
  {
    Last(Descend(nodes, t))
  }

  /** An open level can hold the statement when its trip count is the
    * statement's and none of the variables it reads through functions was
    * written in it. */
  predicate Matches(n: Node, size: Dim, used: set<Operand>)
    requires n.Level?
  {
    n.size == size && forall u :: u in used ==> u !in n.written
  }

  /** The depth down to which the open levels are re-entered. */
  method ReuseDepth(result: seq<Node>, bound: nat, shape: seq<Dim>, used: set<Operand>) returns (j: nat)
    requires bound <= RightDepth(result) && bound <= |shape|
    ensures j <= bound
    ensures forall t :: 0 <= t < j ==> Matches(Spine(result, t), shape[t], used)
    ensures j < bound ==> !Matches(Spine(result, j), shape[j], used)
  {
    var spot := result;
    j := 0;
    while j < bound
      invariant j <= bound && spot == Descend(result, j)
      invariant forall t :: 0 <= t < j ==> Matches(Spine(result, t), shape[t], used)
    {
      var last := spot[|spot| - 1];
      if last.size == shape[j] && forall u :: u in used ==> u !in last.written {
        spot := last.body;
        j := j + 1;
      } else {
        break;
      }
    }
  }

  function ReuseSpec(result: seq<Node>, bound: nat, shape: seq<Dim>, used: set<Operand>, t: nat): (j: nat)
    requires t <= bound <= RightDepth(result) && bound <= |shape|
    ensures t <= j <= bound
    ensures forall s :: t <= s < j ==> Matches(Spine(result, s), shape[s], used)
    ensures j < bound ==> !Matches(Spine(result, j), shape[j], used)
    decreases bound - t
  {
    if t == bound || !Matches(Spine(result, t), shape[t], used) then t
    else ReuseSpec(result, bound, shape, used, t + 1)
  }

  /** The first level that does not match determines the reuse depth. */
  lemma ReuseUnique(result: seq<Node>, bound: nat, shape: seq<Dim>, used: set<Operand>, j1: nat, j2: nat)
    requires bound <= RightDepth(result) && bound <= |shape|
    requires j1 <= bound && j2 <= bound
    requires forall t :: 0 <= t < j1 ==> Matches(Spine(result, t), shape[t], used)
    requires j1 < bound ==> !Matches(Spine(result, j1), shape[j1], used)
    requires forall t :: 0 <= t < j2 ==> Matches(Spine(result, t), shape[t], used)
    requires j2 < bound ==> !Matches(Spine(result, j2), shape[j2], used)
    ensures j1 == j2
  {
  }

  // ---------------------------------------------------------------- placement

  /** Fresh levels from depth `k` down to `newLevel`, the statement innermost. */
  function Chain(k: nat, newLevel: nat, shape: seq<Dim>, lhsVars: set<Operand>, line: Stmt): Node
    requires k <= newLevel <= |shape|
    decreases newLevel - k
  {
    if k == newLevel then Line(line)
    else Level([Chain(k + 1, newLevel, shape, lhsVars, line)], shape[k], lhsVars)
  }

  /** Enter the open levels from depth `d` to `j`, adding the written
    * variables to each, then open the missing levels and store the line. */
  function Place(nodes: seq<Node>, d: nat, j: nat, newLevel: nat, shape: seq<Dim>,
                 lhsVars: set<Operand>, line: Stmt): seq<Node>
    requires d <= j <= newLevel <= |shape| && j - d <= RightDepth(nodes)
    decreases j - d
  {
    if d == j then nodes + [Chain(j, newLevel, shape, lhsVars, line)]
    else
      var last := Last(nodes);
      nodes[..|nodes| - 1] +
        [Level(Place(last.body, d + 1, j, newLevel, shape, lhsVars, line), last.size, last.written + lhsVars)]
  }

  // ------------------------------------------------------------ the whole pass

  datatype State = State(result: seq<Node>, level: nat, indices: seq<string>)

  predicate Expandable(line: Stmt)
  {
    line.Assign? && !HasCreator(line.rhs)
  }

  /** One iteration of the statement loop of `collect_loops`. */
  function Step(st: State, line: Stmt, hv: bool): Result<State>
    requires RightDepth(st.result) == st.level
  {
    if !Expandable(line) then Success(State(st.result + [Line(line)], 0, st.indices))
    else
      var vars := Variables(line);
      if CompatibleOperation(vars, hv) then Success(State(st.result + [Line(line)], 0, st.indices))
      else
        var shape := ShapeOf(line.lhs);
        match IndexOutcome(vars, |shape|, st.indices, hv)
        case Failure(k, m) => Failure(k, m)
        case Success(outcome) =>
          IndexOutcomeBounds(vars, |shape|, st.indices, hv);
          var bound := if outcome.level < st.level then outcome.level else st.level;
          var j := ReuseSpec(st.result, bound, shape, UsedVars(line), 0);
          var placed := Place(st.result, 0, j, outcome.level, shape, LhsVars(line),
                              Substitute(line, vars, outcome.vars));
          Success(State(placed, outcome.level, PoolUpTo(st.indices, outcome.level)))
  }

  /** Indexing goes no deeper than the target's rank and keeps the operands'
    * underlying variables. */
  lemma IndexOutcomeBounds(vars: seq<Operand>, rank: nat, pool: seq<string>, hv: bool)
    requires IndexOutcome(vars, rank, pool, hv).Success?
    ensures IndexOutcome(vars, rank, pool, hv).value.level <= rank
    ensures SameBases(vars, IndexOutcome(vars, rank, pool, hv).value.vars)
    ensures rank > 0 && !CompatibleOperation(IndexOutcome(vars, rank, pool, hv).value.vars, hv)
      ==> IndexOutcome(vars, rank, pool, hv).value.level == rank
  {
    if rank > 0 {
      IndexFromStops(vars, rank, pool, hv, 0, IndexOutcome(vars, rank, pool, hv).value);
    }
  }

  lemma StepKeepsLine(st: State, line: Stmt, hv: bool)
    requires RightDepth(st.result) == st.level
    requires !Expandable(line) || CompatibleOperation(Variables(line), hv)
    ensures Step(st, line, hv) == Success(State(st.result + [Line(line)], 0, st.indices))
  {
  }

  lemma StepIndexFails(st: State, line: Stmt, hv: bool)
    requires RightDepth(st.result) == st.level
    requires Expandable(line) && !CompatibleOperation(Variables(line), hv)
    requires IndexOutcome(Variables(line), |ShapeOf(line.lhs)|, st.indices, hv).Failure?
    ensures Step(st, line, hv).Failure?
  {
  }

  lemma StepExpands(st: State, line: Stmt, hv: bool, outcome: Indexing, j: nat)
    requires RightDepth(st.result) == st.level
    requires Expandable(line) && !CompatibleOperation(Variables(line), hv)
    requires IndexOutcome(Variables(line), |ShapeOf(line.lhs)|, st.indices, hv) == Success(outcome)
    requires outcome.level <= |ShapeOf(line.lhs)| && |outcome.vars| == |Variables(line)|
    requires j == ReuseSpec(st.result, if outcome.level < st.level then outcome.level else st.level,
                            ShapeOf(line.lhs), UsedVars(line), 0)
    ensures Step(st, line, hv) == Success(State(
      Place(st.result, 0, j, outcome.level, ShapeOf(line.lhs), LhsVars(line),
            Substitute(line, Variables(line), outcome.vars)),
      outcome.level, PoolUpTo(st.indices, outcome.level)))
  {
  }

  /** `Run` on one more statement is `Step` after `Run`. */
  lemma RunExtend(block: seq<Stmt>, indices: seq<string>, hv: bool, k: nat, st: State)
    requires k < |block| && Run(block[..k], indices, hv) == Success(st)
    ensures RightDepth(st.result) == st.level
    ensures Run(block[..k + 1], indices, hv) == Step(st, block[k], hv)
  {
    assert block[..k + 1][..k] == block[..k];
  }

  /** `collect_loops` over a prefix of the block, as a left fold of `Step`. */
  function Run(block: seq<Stmt>, indices: seq<string>, hv: bool): (r: Result<State>)
    ensures r.Success? ==> RightDepth(r.value.result) == r.value.level
  {
    if block == [] then Success(State([], 0, indices))
    else
      match Run(block[..|block| - 1], indices, hv)
      case Failure(k, m) => Failure(k, m)
      case Success(st) =>
        var next := Step(st, block[|block| - 1], hv);
        if next.Success? then
          StepRightDepth(st, block[|block| - 1], hv);
          next
        else next
  }

  lemma StepRightDepth(st: State, line: Stmt, hv: bool)
    requires RightDepth(st.result) == st.level
    requires Step(st, line, hv).Success?
    ensures RightDepth(Step(st, line, hv).value.result) == Step(st, line, hv).value.level
  {
    if Expandable(line) && !CompatibleOperation(Variables(line), hv) {
      var shape := ShapeOf(line.lhs);
      var outcome := IndexOutcome(Variables(line), |shape|, st.indices, hv).value;
      IndexOutcomeBounds(Variables(line), |shape|, st.indices, hv);
      var bound := if outcome.level < st.level then outcome.level else st.level;
      var j := ReuseSpec(st.result, bound, shape, UsedVars(line), 0);
      PlaceRightDepth(st.result, 0, j, outcome.level, shape, LhsVars(line),
                      Substitute(line, Variables(line), outcome.vars));
    } else {
      AppendLineRightDepth(st.result, line);
    }
  }

  lemma AppendLineRightDepth(nodes: seq<Node>, line: Stmt)
    ensures RightDepth(nodes + [Line(line)]) == 0
  {
  }

  lemma {:induction false} ChainRightDepth(k: nat, newLevel: nat, shape: seq<Dim>, lhsVars: set<Operand>, line: Stmt)
    requires k <= newLevel <= |shape|
    ensures RightDepth([Chain(k, newLevel, shape, lhsVars, line)]) == newLevel - k
    decreases newLevel - k
  {
    if k < newLevel {
      ChainRightDepth(k + 1, newLevel, shape, lhsVars, line);
    }
  }

  lemma {:induction false} PlaceRightDepth(nodes: seq<Node>, d: nat, j: nat, newLevel: nat, shape: seq<Dim>,
                                           lhsVars: set<Operand>, line: Stmt)
    requires d <= j <= newLevel <= |shape| && j - d <= RightDepth(nodes)
    ensures RightDepth(Place(nodes, d, j, newLevel, shape, lhsVars, line)) == newLevel - d
    decreases j - d
  {
    ChainRightDepth(j, newLevel, shape, lhsVars, line);
    if d != j {
      PlaceRightDepth(Last(nodes).body, d + 1, j, newLevel, shape, lhsVars, line);
    }
  }

  /** `collect_loops(block, indices, language_has_vectors)`: the result tree
    * and the grown index pool. */
  method CollectLoops(block: seq<Stmt>, indices0: seq<string>, hv: bool)
    returns (r: Result<seq<Node>>, indices: seq<string>)
    ensures Run(block, indices0, hv).Success? <==> r.Success?
    ensures r.Success? ==> r.value == Run(block, indices0, hv).value.result
    ensures r.Success? ==> indices == Run(block, indices0, hv).value.indices
    ensures r.Failure? ==> r == Failure(Run(block, indices0, hv).kind, Run(block, indices0, hv).msg)
  {
    var st := State([], 0, indices0);
    var k := 0;
    while k < |block|
      invariant k <= |block| && Run(block[..k], indices0, hv) == Success(st)
    {
      RunExtend(block, indices0, hv, k, st);
      var next := CollectStatement(st, block[k], hv);
      if next.Failure? {
        RunFailsOnPrefix(block, indices0, hv, k + 1);
        return Failure(next.kind, next.msg), st.indices;
      }
      st := next.value;
      k := k + 1;
    }
    assert block[..k] == block;
    return Success(st.result), st.indices;
  }

  /** The body of the statement loop: keep the line at the top level, or
    * index it and place it in the loop tree. */
  method CollectStatement(st: State, line: Stmt, hv: bool) returns (r: Result<State>)
    requires RightDepth(st.result) == st.level
    ensures r == Step(st, line, hv)
  {
    if line.Assign? && !HasCreator(line.rhs) {
      var variables := Variables(line);
      var used := UsedVars(line);
      if CompatibleOperation(variables, hv) {
        StepKeepsLine(st, line, hv);
        return Success(State(st.result + [Line(line)], 0, st.indices));
      }
      var shape := ShapeOf(line.lhs);
      var rank := |shape|;
      var outcome, pool := IndexUntilCompatible(variables, rank, st.indices, hv);
      if outcome.Failure? {
        StepIndexFails(st, line, hv);
        return Failure(outcome.kind, outcome.msg);
      }
      IndexOutcomeBounds(variables, rank, st.indices, hv);
      var newVars, newLevel := outcome.value.vars, outcome.value.level;
      var newLine := Substitute(line, variables, newVars);
      var bound := if newLevel < st.level then newLevel else st.level;
      var j := ReuseDepth(st.result, bound, shape, used);
      ReuseUnique(st.result, bound, shape, used, j, ReuseSpec(st.result, bound, shape, used, 0));
      StepExpands(st, line, hv, outcome.value, j);
      r := Success(State(Place(st.result, 0, j, newLevel, shape, LhsVars(line), newLine), newLevel, pool));
    } else {
      StepKeepsLine(st, line, hv);
      r := Success(State(st.result + [Line(line)], 0, st.indices));
    }
  }

  /** A failure on a prefix is a failure of the whole block. */
  lemma {:induction false} RunFailsOnPrefix(block: seq<Stmt>, indices: seq<string>, hv: bool, k: nat)
    requires k <= |block| && Run(block[..k], indices, hv).Failure?
    ensures Run(block, indices, hv) == Run(block[..k], indices, hv)
    decreases |block| - k
  {
    if k < |block| {
      assert block[..k + 1][..k] == block[..k];
      RunFailsOnPrefix(block, indices, hv, k + 1);
    } else {
      assert block[..k] == block;
    }
  }

  // --------------------------------------------------------------- properties

  /** A statement of the tree and the number of loops around it. */
  datatype Placed = Placed(stmt: Stmt, depth: nat)

  /** The statements of a tree in order, with their depths. */
  function Flatten(nodes: seq<Node>, d: nat): seq<Placed>
    decreases nodes
  {
    if nodes == [] then [] else Flatten(nodes[..|nodes| - 1], d) + FlattenNode(Last(nodes), d)
  }

  function FlattenNode(n: Node, d: nat): seq<Placed>
    decreases n
  {
    match n
    case Line(stmt) => [Placed(stmt, d)]
    case Level(body, _, _) => Flatten(body, d + 1)
  }

  /** How many loops a statement may need: the rank of the target of an
    * expandable assignment, none otherwise. */
  function TargetRank(line: Stmt): nat
  {
    if Expandable(line) then |ShapeOf(line.lhs)| else 0
  }

  lemma {:induction false} FlattenChain(k: nat, newLevel: nat, shape: seq<Dim>, lhsVars: set<Operand>, line: Stmt)
    requires k <= newLevel <= |shape|
    ensures FlattenNode(Chain(k, newLevel, shape, lhsVars, line), k) == [Placed(line, newLevel)]
    decreases newLevel - k
  {
    if k < newLevel {
      var inner := Chain(k + 1, newLevel, shape, lhsVars, line);
      FlattenChain(k + 1, newLevel, shape, lhsVars, line);
      assert [inner][..0] == [];
      assert Flatten([inner], k + 1) == Flatten([], k + 1) + FlattenNode(inner, k + 1);
    }
  }

  lemma FlattenAppend(nodes: seq<Node>, n: Node, d: nat)
    ensures Flatten(nodes + [n], d) == Flatten(nodes, d) + FlattenNode(n, d)
  {
    assert (nodes + [n])[..|nodes|] == nodes;
  }

  /** Placing a statement appends it, at its new depth, to the statements of
    * the tree. */
  lemma {:induction false} FlattenPlace(nodes: seq<Node>, d: nat, j: nat, newLevel: nat, shape: seq<Dim>,
                                        lhsVars: set<Operand>, line: Stmt)
    requires d <= j <= newLevel <= |shape| && j - d <= RightDepth(nodes)
    ensures Flatten(Place(nodes, d, j, newLevel, shape, lhsVars, line), d)
      == Flatten(nodes, d) + [Placed(line, newLevel)]
    decreases j - d
  {
    if d == j {
      FlattenAppend(nodes, Chain(j, newLevel, shape, lhsVars, line), d);
      FlattenChain(j, newLevel, shape, lhsVars, line);
    } else {
      var last := Last(nodes);
      var front := nodes[..|nodes| - 1];
      var inner := Place(last.body, d + 1, j, newLevel, shape, lhsVars, line);
      FlattenPlace(last.body, d + 1, j, newLevel, shape, lhsVars, line);
      FlattenDeeper(nodes, front, last, inner, d, Placed(line, newLevel));
      assert Place(nodes, d, j, newLevel, shape, lhsVars, line)
        == front + [Level(inner, last.size, last.written + lhsVars)];
    }
  }

  /** Replacing the body of the last loop by one with a statement more
    * appends that statement to the tree's statements. */
  lemma FlattenDeeper(nodes: seq<Node>, front: seq<Node>, last: Node, inner: seq<Node>, d: nat, p: Placed)
    requires nodes != [] && front == nodes[..|nodes| - 1] && last == Last(nodes) && last.Level?
    requires Flatten(inner, d + 1) == Flatten(last.body, d + 1) + [p]
    ensures forall size, written :: Flatten(front + [Level(inner, size, written)], d) == Flatten(nodes, d) + [p]
  {
    assert front + [last] == nodes;
    FlattenAppend(front, last, d);
    forall size, written
      ensures Flatten(front + [Level(inner, size, written)], d) == Flatten(nodes, d) + [p]
    {
      FlattenAppend(front, Level(inner, size, written), d);
    }
  }

  /** How the pass may change one statement: indexing keeps its skeleton,
    * it sits under at most its target's rank of loops, and a statement that
    * is not expanded is kept as it is. */
  predicate Faithful(line: Stmt, p: Placed)
  {
    Skeleton(p.stmt) == Skeleton(line) && p.depth <= TargetRank(line) &&
    (!Expandable(line) ==> p.stmt == line)
  }

  predicate AllFaithful(block: seq<Stmt>, f: seq<Placed>)
  {
    |f| == |block| && forall i :: 0 <= i < |block| ==> Faithful(block[i], f[i])
  }

  /** One step appends exactly the processed statement to the tree. */
  lemma StepFlatten(st: State, line: Stmt, hv: bool)
    requires RightDepth(st.result) == st.level
    requires Step(st, line, hv).Success?
    ensures exists p: Placed ::
      Flatten(Step(st, line, hv).value.result, 0) == Flatten(st.result, 0) + [p] && Faithful(line, p)
  {
    if Expandable(line) && !CompatibleOperation(Variables(line), hv) {
      var shape := ShapeOf(line.lhs);
      var outcome := IndexOutcome(Variables(line), |shape|, st.indices, hv).value;
      IndexOutcomeBounds(Variables(line), |shape|, st.indices, hv);
      var bound := if outcome.level < st.level then outcome.level else st.level;
      var j := ReuseSpec(st.result, bound, shape, UsedVars(line), 0);
      var newLine := Substitute(line, Variables(line), outcome.vars);
      FlattenPlace(st.result, 0, j, outcome.level, shape, LhsVars(line), newLine);
      SubstituteKeepsSkeleton(line, Variables(line), outcome.vars);
      assert Faithful(line, Placed(newLine, outcome.level));
    } else {
      FlattenAppend(st.result, Line(line), 0);
      assert Faithful(line, Placed(line, 0));
    }
  }

  /** `collect_loops` keeps every statement of the block, in order and with
    * the same variables, and puts each under at most as many loops as its
    * target has axes; statements that are not expanded are kept unchanged. */
  lemma {:induction false} RunKeepsStatements(block: seq<Stmt>, indices: seq<string>, hv: bool)
    requires Run(block, indices, hv).Success?
    ensures AllFaithful(block, Flatten(Run(block, indices, hv).value.result, 0))
    decreases |block|
  {
    if block != [] {
      var front := block[..|block| - 1];
      var line := block[|block| - 1];
      RunKeepsStatements(front, indices, hv);
      RunStepKeeps(block, indices, hv);
    }
  }

  /** The last step of a run keeps the statements faithful. */
  lemma RunStepKeeps(block: seq<Stmt>, indices: seq<string>, hv: bool)
    requires block != [] && Run(block, indices, hv).Success?
    requires Run(block[..|block| - 1], indices, hv).Success?
    requires AllFaithful(block[..|block| - 1], Flatten(Run(block[..|block| - 1], indices, hv).value.result, 0))
    ensures AllFaithful(block, Flatten(Run(block, indices, hv).value.result, 0))
  {
    RunLast(block, indices, hv);
    StepKeepsStatements(block, Run(block[..|block| - 1], indices, hv).value, hv, Run(block, indices, hv).value);
  }

  /** A run of a non-empty block is the step on its last statement after
    * the run of the others. */
  lemma RunLast(block: seq<Stmt>, indices: seq<string>, hv: bool)
    requires block != [] && Run(block[..|block| - 1], indices, hv).Success?
    ensures Run(block, indices, hv) == Step(Run(block[..|block| - 1], indices, hv).value, block[|block| - 1], hv)
  {
  }

  /** A step that succeeds keeps the earlier statements faithful and adds a
    * faithful one. */
  lemma StepKeepsStatements(block: seq<Stmt>, st: State, hv: bool, next: State)
    requires block != []
    requires RightDepth(st.result) == st.level
    requires AllFaithful(block[..|block| - 1], Flatten(st.result, 0))
    requires Step(st, block[|block| - 1], hv) == Success(next)
    ensures AllFaithful(block, Flatten(next.result, 0))
  {
    var line := block[|block| - 1];
    StepFlatten(st, line, hv);
    var before := Flatten(st.result, 0);
    var p: Placed :| Flatten(next.result, 0) == before + [p] && Faithful(line, p);
    AllFaithfulAppend(block, before, p);
  }

  lemma AllFaithfulAppend(block: seq<Stmt>, before: seq<Placed>, p: Placed)
    requires block != []
    requires AllFaithful(block[..|block| - 1], before) && Faithful(block[|block| - 1], p)
    ensures AllFaithful(block, before + [p])
  {
    var f := before + [p];
    forall i | 0 <= i < |block|
      ensures Faithful(block[i], f[i])
    {
      if i < |block| - 1 {
        assert f[i] == before[i] && block[i] == block[..|block| - 1][i];
      }
    }
  }

  /** The index pool only grows, and what it gains at depth `k` is `i_k`. */
  predicate PoolExtends(pool: seq<string>, indices: seq<string>)
  {
    |pool| >= |indices| && forall k :: 0 <= k < |pool| ==> pool[k] == NameAt(indices, k)
  }

  lemma {:induction false} RunPool(block: seq<Stmt>, indices: seq<string>, hv: bool)
    requires Run(block, indices, hv).Success?
    ensures PoolExtends(Run(block, indices, hv).value.indices, indices)
    decreases |block|
  {
    if block != [] {
      var front := block[..|block| - 1];
      RunPool(front, indices, hv);
      var st := Run(front, indices, hv).value;
      var next := Step(st, block[|block| - 1], hv).value;
      if next.indices != st.indices {
        forall k | 0 <= k < |next.indices|
          ensures next.indices[k] == NameAt(indices, k)
        {
          if k >= |st.indices| {
            assert next.indices[k] == IndexName(k);
          }
        }
      }
    }
  }

  /** Every loop level at depth `d` or below has an index in a pool of
    * `count` names. */
  predicate CoveredNode(n: Node, d: nat, count: nat)
    decreases n
  {
    match n
    case Line(_) => true
    case Level(body, _, _) => d < count && CoveredList(body, d + 1, count)
  }

  predicate CoveredList(nodes: seq<Node>, d: nat, count: nat)
    decreases nodes
  {
    forall i :: 0 <= i < |nodes| ==> CoveredNode(nodes[i], d, count)
  }

  lemma {:induction false} CoveredNodeGrow(n: Node, d: nat, count: nat, more: nat)
    requires CoveredNode(n, d, count) && count <= more
    ensures CoveredNode(n, d, more)
    decreases n
  {
    if n.Level? {
      CoveredListGrow(n.body, d + 1, count, more);
    }
  }

  lemma {:induction false} CoveredListGrow(nodes: seq<Node>, d: nat, count: nat, more: nat)
    requires CoveredList(nodes, d, count) && count <= more
    ensures CoveredList(nodes, d, more)
    decreases nodes
  {
    forall i | 0 <= i < |nodes|
      ensures CoveredNode(nodes[i], d, more)
    {
      CoveredNodeGrow(nodes[i], d, count, more);
    }
  }

  lemma {:induction false} CoveredChain(k: nat, newLevel: nat, shape: seq<Dim>, lhsVars: set<Operand>, line: Stmt, count: nat)
    requires k <= newLevel <= |shape| && newLevel <= count
    ensures CoveredNode(Chain(k, newLevel, shape, lhsVars, line), k, count)
    decreases newLevel - k
  {
    if k < newLevel {
      CoveredChain(k + 1, newLevel, shape, lhsVars, line, count);
    }
  }

  lemma {:induction false} CoveredPlace(nodes: seq<Node>, d: nat, j: nat, newLevel: nat, shape: seq<Dim>,
                                        lhsVars: set<Operand>, line: Stmt, count: nat)
    requires d <= j <= newLevel <= |shape| && j - d <= RightDepth(nodes)
    requires CoveredList(nodes, d, count) && newLevel <= count
    ensures CoveredList(Place(nodes, d, j, newLevel, shape, lhsVars, line), d, count)
    decreases j - d
  {
    CoveredChain(j, newLevel, shape, lhsVars, line, count);
    if d != j {
      var last := Last(nodes);
      assert CoveredNode(last, d, count);
      CoveredPlace(last.body, d + 1, j, newLevel, shape, lhsVars, line, count);
    }
  }

  /** Every loop level of the result has its index in the returned pool,
    * which is what `insert_fors` reads. */
  lemma {:induction false} RunCovered(block: seq<Stmt>, indices: seq<string>, hv: bool)
    requires Run(block, indices, hv).Success?
    ensures CoveredList(Run(block, indices, hv).value.result, 0, |Run(block, indices, hv).value.indices|)
    decreases |block|
  {
    if block != [] {
      var front := block[..|block| - 1];
      var line := block[|block| - 1];
      RunCovered(front, indices, hv);
      var st := Run(front, indices, hv).value;
      var next := Step(st, line, hv).value;
      if Expandable(line) && !CompatibleOperation(Variables(line), hv) {
        var shape := ShapeOf(line.lhs);
        var outcome := IndexOutcome(Variables(line), |shape|, st.indices, hv).value;
        IndexOutcomeBounds(Variables(line), |shape|, st.indices, hv);
        var bound := if outcome.level < st.level then outcome.level else st.level;
        var j := ReuseSpec(st.result, bound, shape, UsedVars(line), 0);
        CoveredListGrow(st.result, 0, |st.indices|, |next.indices|);
        CoveredPlace(st.result, 0, j, outcome.level, shape, LhsVars(line),
                     Substitute(line, Variables(line), outcome.vars), |next.indices|);
      } else {
        CoveredListGrow(st.result, 0, |st.indices|, |next.indices|);
        assert CoveredNode(Line(line), 0, |next.indices|);
      }
    }
  }

  lemma {:induction false} DescendSucc(nodes: seq<Node>, t: nat)
    requires t + 1 <= RightDepth(nodes)
    ensures Descend(nodes, t + 1) == Descend(Last(nodes).body, t)
    decreases t
  {
    if t > 0 {
      DescendSucc(nodes, t - 1);
    }
  }

  lemma {:induction false} ChainSpine(k: nat, newLevel: nat, shape: seq<Dim>, lhsVars: set<Operand>, line: Stmt, nodes: seq<Node>, t: nat)
    requires k <= newLevel <= |shape| && t < newLevel - k
    ensures RightDepth(nodes + [Chain(k, newLevel, shape, lhsVars, line)]) == newLevel - k
    ensures Spine(nodes + [Chain(k, newLevel, shape, lhsVars, line)], t).size == shape[k + t]
    ensures Spine(nodes + [Chain(k, newLevel, shape, lhsVars, line)], t).written == lhsVars
    decreases t
  {
    var all := nodes + [Chain(k, newLevel, shape, lhsVars, line)];
    ChainRightDepth(k, newLevel, shape, lhsVars, line);
    ChainRightDepth(k + 1, newLevel, shape, lhsVars, line);
    if t > 0 {
      DescendSucc(all, t - 1);
      var inner := Chain(k + 1, newLevel, shape, lhsVars, line);
      assert [] + [inner] == [inner];
      ChainSpine(k + 1, newLevel, shape, lhsVars, line, [], t - 1);
    }
  }

  /** What placement does to the open levels: the `j` re-entered levels keep
    * their trip counts and gain the written variable, the levels below are
    * new, one per remaining axis, with the target's extents. */
  lemma {:induction false} PlaceSpine(nodes: seq<Node>, d: nat, j: nat, newLevel: nat, shape: seq<Dim>,
                                      lhsVars: set<Operand>, line: Stmt, t: nat)
    requires d <= j <= newLevel <= |shape| && j - d <= RightDepth(nodes)
    requires t < newLevel - d
    ensures RightDepth(Place(nodes, d, j, newLevel, shape, lhsVars, line)) == newLevel - d
    ensures t < j - d ==>
      Spine(Place(nodes, d, j, newLevel, shape, lhsVars, line), t).size == Spine(nodes, t).size &&
      Spine(Place(nodes, d, j, newLevel, shape, lhsVars, line), t).written == Spine(nodes, t).written + lhsVars
    ensures j - d <= t ==>
      Spine(Place(nodes, d, j, newLevel, shape, lhsVars, line), t).size == shape[d + t] &&
      Spine(Place(nodes, d, j, newLevel, shape, lhsVars, line), t).written == lhsVars
    decreases j - d
  {
    PlaceRightDepth(nodes, d, j, newLevel, shape, lhsVars, line);
    var placed := Place(nodes, d, j, newLevel, shape, lhsVars, line);
    if d == j {
      ChainSpine(j, newLevel, shape, lhsVars, line, nodes, t);
    } else {
      var last := Last(nodes);
      var inner := Place(last.body, d + 1, j, newLevel, shape, lhsVars, line);
      assert Last(placed) == Level(inner, last.size, last.written + lhsVars);
      if t > 0 {
        PlaceRightDepth(last.body, d + 1, j, newLevel, shape, lhsVars, line);
        PlaceSpine(last.body, d + 1, j, newLevel, shape, lhsVars, line, t - 1);
        SpineSucc(placed, t);
        if t < j - d {
          SpineSucc(nodes, t);
        }
      }
    }
  }

  /** The open level at depth `t > 0` is the one at depth `t-1` inside the
    * last level. */
  lemma SpineSucc(nodes: seq<Node>, t: nat)
    requires 0 < t < RightDepth(nodes)
    ensures Spine(nodes, t) == Spine(Last(nodes).body, t - 1)
  {
    DescendSucc(nodes, t - 1);
  }
}
