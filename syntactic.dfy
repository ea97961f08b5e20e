/** The syntactic stage (pyccel/parser/syntactic.py): how Python syntax
  * becomes pyccel nodes. Modelled here are the regrouping of binary
  * operators by priority, the boolean, comparison and augmented-assignment
  * visitors with their restrictions, slices, function arguments, the text
  * of the header a `@types` decorator stands for, and the split of a file
  * into a module and a program. Visiting sub-expressions is not modelled:
  * the visitors are given their operands already visited. */
module Syntactic {
  import opened Wrappers
  import AstUtilities

  // ------------------------------------------------------------ change_priority

  /** The binary operators `_visit_BinOp` accepts. */
  datatype BinKind = Add | Sub | Mult | Div | FloorDiv | Mod | Pow

  /** An expression after the syntactic stage: an operand, or a binary
    * operator node with its priority `p` (a larger `p` binds tighter). */
  datatype Expr = Leaf(text: string) | BinOp(kind: BinKind, p: int, l: Expr, r: Expr)

  /** `change_priority(expr)`: when the right operand is itself an operator
    * of no higher priority, `a op (b op' c)` becomes `(a op b) op' c`,
    * and the new left operand is regrouped in turn. */
  function ChangePriority(e: Expr): Expr
    requires e.BinOp?
    decreases e.r
  {
    var second := e.r;
    if second.BinOp? && second.p <= e.p then
      BinOp(second.kind, second.p, ChangePriority(BinOp(e.kind, e.p, e.l, second.l)), second.r)
    else e
  }

  /** What an expression reads as, left to right. */
  datatype Token = Operand(text: string) | Operator(kind: BinKind)

  function Tokens(e: Expr): seq<Token>
  {
    match e
    case Leaf(t) => [Operand(t)]
    case BinOp(k, _, l, r) => Tokens(l) + [Operator(k)] + Tokens(r)
  }

  /** No right operand is an operator of lower or equal priority than the
    * node above it: the grouping `change_priority` produces. */
  predicate LeftToRight(e: Expr)
  {
    match e
    case Leaf(_) => true
    case BinOp(_, p, l, r) => LeftToRight(l) && LeftToRight(r) && (r.BinOp? ==> r.p > p)
  }

  /** Regrouping keeps the operands and operators in their written order
    * and only changes the grouping; and from operands already grouped left
    * to right it produces an expression grouped left to right. */
  lemma {:induction false} ChangePriorityRegroups(e: Expr)
    requires e.BinOp?
    ensures Tokens(ChangePriority(e)) == Tokens(e)
    ensures LeftToRight(e.l) && LeftToRight(e.r) ==> LeftToRight(ChangePriority(e))
    decreases e.r
  {
    var second := e.r;
    if second.BinOp? && second.p <= e.p {
      var inner := BinOp(e.kind, e.p, e.l, second.l);
      ChangePriorityRegroups(inner);
      calc {
        Tokens(ChangePriority(e));
        Tokens(ChangePriority(inner)) + [Operator(second.kind)] + Tokens(second.r);
        Tokens(e.l) + [Operator(e.kind)] + Tokens(second.l) + [Operator(second.kind)] + Tokens(second.r);
        Tokens(e);
      }
    }
  }

  /** `_visit_BinOp` as written: the node for the operator with the
    * priority its class declares, regrouped. */
  function VisitBinOpAsWritten(k: BinKind, first: Expr, second: Expr, priority: BinKind -> int): (r: Expr)
    ensures Tokens(r) == Tokens(first) + [Operator(k)] + Tokens(second)
  {
    ChangePriorityRegroups(BinOp(k, priority(k), first, second));
    ChangePriority(BinOp(k, priority(k), first, second))
  }

  /** `_visit_BinOp` as intended: Python's parser has already grouped the
    * operands by priority and associativity, so the node is built as
    * parsed. */
  function VisitBinOp(k: BinKind, first: Expr, second: Expr, priority: BinKind -> int): (r: Expr)
    ensures Tokens(r) == Tokens(first) + [Operator(k)] + Tokens(second)
  {
    BinOp(k, priority(k), first, second)
  }

  /** The value of an expression, from its operands' values and what each
    * operator computes. */
  function Eval(e: Expr, env: string -> int, apply: (BinKind, int, int) -> int): int
  {
    match e
    case Leaf(t) => env(t)
    case BinOp(k, _, l, r) => apply(k, Eval(l, env, apply), Eval(r, env, apply))
  }

  /** `x` to the power `n`. */
  function Power(x: int, n: nat): int
  {
    if n == 0 then 1 else x * Power(x, n - 1)
  }

  /** The intended visitor's node computes the operator on the values of the
    * two operands Python's parser gave it, whatever they are. */
  lemma VisitBinOpMeaning(k: BinKind, first: Expr, second: Expr, priority: BinKind -> int,
                          env: string -> int, apply: (BinKind, int, int) -> int)
    ensures Eval(VisitBinOp(k, first, second, priority), env, apply) ==
      apply(k, Eval(first, env, apply), Eval(second, env, apply))
    ensures Tokens(VisitBinOp(k, first, second, priority)) == Tokens(first) + [Operator(k)] + Tokens(second)
  {
  }

  /** The visitor as written changes values: Python parses `1-(1-1)` with
    * the subtraction on the right, worth 1, and the regrouping makes it
    * `(1-1)-1`, worth -1; likewise `2**(3**2)`, worth 512, becomes
    * `(2**3)**2`, worth 64. */
  lemma VisitBinOpAsWrittenChangesValue(priority: BinKind -> int, env: string -> int, apply: (BinKind, int, int) -> int)
    requires env("1") == 1 && env("2") == 2 && env("3") == 3
    requires forall x, y :: apply(Sub, x, y) == x - y
    requires forall x: int, n: nat :: apply(Pow, x, n) == Power(x, n)
    ensures var one := Leaf("1"); var inner := VisitBinOp(Sub, one, one, priority);
      Eval(VisitBinOp(Sub, one, inner, priority), env, apply) == 1 &&
      Eval(VisitBinOpAsWritten(Sub, one, inner, priority), env, apply) == -1
    ensures var inner := VisitBinOp(Pow, Leaf("3"), Leaf("2"), priority);
      Eval(VisitBinOp(Pow, Leaf("2"), inner, priority), env, apply) == 512 &&
      Eval(VisitBinOpAsWritten(Pow, Leaf("2"), inner, priority), env, apply) == 64
  {
    var one := Leaf("1");
    var m := priority(Sub);
    var diff := BinOp(Sub, m, one, one);
    assert ChangePriority(diff) == diff;
    assert ChangePriority(BinOp(Sub, m, one, diff)) == BinOp(Sub, m, diff, one);
    assert Eval(diff, env, apply) == 0;
    var p := priority(Pow);
    ChangePriorityPowChain("2", "3", "2", p);
    assert Power(3, 2) == 9 && Power(2, 3) == 8 && Power(8, 2) == 64;
    assert Power(2, 6) == 64;
    assert Power(2, 9) == 512;
    assert apply(Pow, 3, 2) == 9 && apply(Pow, 2, 9) == 512;
    assert apply(Pow, 2, 3) == 8 && apply(Pow, 8, 2) == 64;
    var x, y := Leaf("2"), Leaf("3");
    var inner := BinOp(Pow, p, y, x);
    assert Eval(inner, env, apply) == 9;
    assert Eval(BinOp(Pow, p, x, inner), env, apply) == 512;
    assert VisitBinOpAsWritten(Pow, x, inner, priority) == BinOp(Pow, p, BinOp(Pow, p, x, y), x);
    assert Eval(BinOp(Pow, p, x, y), env, apply) == 8;
  }

  /** The three examples of `change_priority`'s documentation, for any
    * priorities that rank `*` and `/` together above `-`. */
  lemma ChangePriorityExamples(priority: BinKind -> int)
    requires priority(Mult) == priority(Div) && priority(Sub) < priority(Mult)
    ensures var one := Leaf("1"); var m := priority(Sub); var t := priority(Mult);
      ChangePriority(BinOp(Sub, m, one, BinOp(Sub, m, one, one))) == BinOp(Sub, m, BinOp(Sub, m, one, one), one) &&
      ChangePriority(BinOp(Sub, m, one, BinOp(Mult, t, one, one))) == BinOp(Sub, m, one, BinOp(Mult, t, one, one)) &&
      ChangePriority(BinOp(Div, t, one, BinOp(Mult, t, one, one))) == BinOp(Mult, t, BinOp(Div, t, one, one), one)
  {
  }

  /** `a ** (b ** c)`, which Python groups to the right, is regrouped to the
    * left like every other chain of equal priority. */
  lemma ChangePriorityPowChain(a: string, b: string, c: string, p: int)
    ensures var x, y, z := Leaf(a), Leaf(b), Leaf(c);
      ChangePriority(BinOp(Pow, p, x, BinOp(Pow, p, y, z))) == BinOp(Pow, p, BinOp(Pow, p, x, y), z)
  {
  }

  // ------------------------------------------------------------ _visit_BoolOp

  datatype BoolKind = And | Or

  /** A boolean expression after the syntactic stage. */
  datatype BoolExpr = Atom(value: bool) | AndOf(args: seq<BoolExpr>) | OrOf(args: seq<BoolExpr>)

  /** The truth of a node: `PyccelAnd` of all its arguments, `PyccelOr` of
    * any of them. */
  predicate Truth(e: BoolExpr)
  {
    match e
    case Atom(b) => b
    case AndOf(args) => forall k :: 0 <= k < |args| ==> Truth(args[k])
    case OrOf(args) => exists k :: 0 <= k < |args| && Truth(args[k])
  }

  /** The truth of Python's `BoolOp(op, values)`: `v0 and v1 and ...` is
    * true when all are, `v0 or v1 or ...` when any is. */
  predicate PythonTruth(op: BoolKind, values: seq<BoolExpr>)
  {
    if op == And then forall k :: 0 <= k < |values| ==> Truth(values[k])
    else exists k :: 0 <= k < |values| && Truth(values[k])
  }

  /** `_visit_BoolOp` as written: only `values[0]` and `values[1]` are
    * read, and a second operand of the other kind is regrouped. Python
    * gives a `BoolOp` at least two values. */
  function VisitBoolOpAsWritten(op: BoolKind, values: seq<BoolExpr>): BoolExpr
    requires |values| >= 2
  {
    var first := values[0];
    var second := values[1];
    if op == And then
      (if second.OrOf? && |second.args| >= 1 then OrOf([AndOf([first, second.args[0]])] + second.args[1..])
       else AndOf([first, second]))
    else
      (if second.AndOf? && |second.args| >= 1 then AndOf([OrOf([first, second.args[0]])] + second.args[1..])
       else OrOf([first, second]))
  }

  /** `a and b and c` with `c` false is read as `a and b`: true where
    * Python's value is false. */
  lemma VisitBoolOpAsWrittenDropsOperands()
    ensures var values := [Atom(true), Atom(true), Atom(false)];
      Truth(VisitBoolOpAsWritten(And, values)) && !PythonTruth(And, values)
  {
    var values := [Atom(true), Atom(true), Atom(false)];
    assert !Truth(values[2]);
    assert Truth(AndOf([values[0], values[1]])) by {
      var args := [values[0], values[1]];
      assert forall k :: 0 <= k < |args| ==> Truth(args[k]);
    }
  }

  /** A second operand that is an `or` is regrouped: `a and (b or c)` is
    * read as `(a and b) or c` when the parentheses are not kept. */
  lemma VisitBoolOpAsWrittenRegroups(a: BoolExpr, b: BoolExpr, c: BoolExpr)
    ensures VisitBoolOpAsWritten(And, [a, OrOf([b, c])]) == OrOf([AndOf([a, b]), c])
    ensures VisitBoolOpAsWritten(Or, [a, AndOf([b, c])]) == AndOf([OrOf([a, b]), c])
  {
    assert [OrOf([b, c])][0] == OrOf([b, c]);
  }

  /** `_visit_BoolOp` reading every value: one n-ary node over the values,
    * which already carry the grouping of the source. */
  function VisitBoolOp(op: BoolKind, values: seq<BoolExpr>): (r: BoolExpr)
    requires |values| >= 2
    ensures Truth(r) == PythonTruth(op, values)
  {
    if op == And then AndOf(values) else OrOf(values)
  }

  /** The corrected visitor keeps every operand, in order, and agrees with
    * the version as written whenever there are exactly two values and the
    * second is not of the other kind. */
  lemma VisitBoolOpKeepsOperands(op: BoolKind, values: seq<BoolExpr>)
    requires |values| >= 2
    ensures VisitBoolOp(op, values).args == values
    ensures |values| == 2 && !values[1].OrOf? && !values[1].AndOf? ==>
      VisitBoolOp(op, values) == VisitBoolOpAsWritten(op, values)
  {
    if |values| == 2 {
      assert values == [values[0], values[1]];
    }
  }

  // ------------------------------------------------------------ _visit_Compare

  /** Python's comparison operators. */
  datatype CmpOp = Eq | NotEq | Lt | Gt | LtE | GtE | Is | IsNot | In | NotIn

  /** The comparison nodes the syntactic stage builds. */
  datatype Relation = PyccelEq | PyccelNe | PyccelLt | PyccelGt | PyccelLe | PyccelGe | IsRel | IsNotRel

  datatype Comparison<E> = Comparison(rel: Relation, left: E, right: E)

  /** `_visit_Compare`: a chain of comparisons and the membership tests are
    * fatal restrictions. Python gives as many comparators as operators. */
  function VisitCompare<E>(left: E, ops: seq<CmpOp>, comparators: seq<E>): Result<Comparison<E>>
    requires |ops| >= 1 && |comparators| == |ops|
  {
    if |ops| > 1 then Failure(FatalReport, "PYCCEL_RESTRICTION_MULTIPLE_COMPARISONS")
    else
      var second := comparators[0];
      match ops[0]
      case Eq => Success(Comparison(PyccelEq, left, second))
      case NotEq => Success(Comparison(PyccelNe, left, second))
      case Lt => Success(Comparison(PyccelLt, left, second))
      case Gt => Success(Comparison(PyccelGt, left, second))
      case LtE => Success(Comparison(PyccelLe, left, second))
      case GtE => Success(Comparison(PyccelGe, left, second))
      case Is => Success(Comparison(IsRel, left, second))
      case IsNot => Success(Comparison(IsNotRel, left, second))
      case _ => Failure(FatalReport, "PYCCEL_RESTRICTION_UNSUPPORTED_SYNTAX")
  }

  /** Python's value of `x op y` on integers, for the operators that
    * compare values. */
  predicate PythonCompare(op: CmpOp, x: int, y: int)
    requires op in {Eq, NotEq, Lt, Gt, LtE, GtE}
  {
    match op
    case Eq => x == y
    case NotEq => x != y
    case Lt => x < y
    case Gt => x > y
    case LtE => x <= y
    case GtE => x >= y
  }

  /** What a relation node means on integers. */
  predicate Holds(rel: Relation, x: int, y: int)
    requires rel !in {IsRel, IsNotRel}
  {
    match rel
    case PyccelEq => x == y
    case PyccelNe => x != y
    case PyccelLt => x < y
    case PyccelGt => x > y
    case PyccelLe => x <= y
    case PyccelGe => x >= y
  }

  /** A comparison is accepted iff it is a single operator other than `in`
    * and `not in`; it keeps both operands in place, and a value comparison
    * holds exactly when Python's does. */
  lemma VisitCompareMeaning(x: int, op: CmpOp, y: int)
    ensures var r := VisitCompare(x, [op], [y]);
      (r.Success? <==> op !in {In, NotIn}) &&
      (r.Success? ==>
         (r.value.left == x && r.value.right == y &&
          (op in {Eq, NotEq, Lt, Gt, LtE, GtE} <==> r.value.rel !in {IsRel, IsNotRel}) &&
          (op in {Eq, NotEq, Lt, Gt, LtE, GtE} ==> (Holds(r.value.rel, x, y) <==> PythonCompare(op, x, y)))))
  {
  }

  /** A chained comparison `a < b < c` is refused whatever its operators. */
  lemma VisitCompareRefusesChains<E>(left: E, ops: seq<CmpOp>, comparators: seq<E>)
    requires |ops| >= 2 && |comparators| == |ops|
    ensures VisitCompare(left, ops, comparators) == Failure(FatalReport, "PYCCEL_RESTRICTION_MULTIPLE_COMPARISONS")
  {
  }

  // ---------------------------------------------------------- _visit_AugAssign

  /** Python's augmented-assignment operators. */
  datatype AugOp = AddOp | SubOp | MultOp | DivOp | ModOp | PowOp | FloorDivOp | MatMultOp
                 | LShiftOp | RShiftOp | BitOrOp | BitXorOp | BitAndOp

  /** The operator as written in Python source, before the `=`. */
  function PythonSymbol(op: AugOp): string
  {
    match op
    case AddOp => "+"
    case SubOp => "-"
    case MultOp => "*"
    case DivOp => "/"
    case ModOp => "%"
    case PowOp => "**"
    case FloorDivOp => "//"
    case MatMultOp => "@"
    case LShiftOp => "<<"
    case RShiftOp => ">>"
    case BitOrOp => "|"
    case BitXorOp => "^"
    case BitAndOp => "&"
  }

  datatype AugAssign<E> = AugAssign(lhs: E, op: string, rhs: E)

  /** `_visit_AugAssign`: the five arithmetic operators pyccel supports, any
    * other a fatal restriction. */
  function VisitAugAssign<E>(lhs: E, op: AugOp, rhs: E): Result<AugAssign<E>>
  {
    match op
    case AddOp => Success(AugAssign(lhs, "+", rhs))
    case SubOp => Success(AugAssign(lhs, "-", rhs))
    case MultOp => Success(AugAssign(lhs, "*", rhs))
    case DivOp => Success(AugAssign(lhs, "/", rhs))
    case ModOp => Success(AugAssign(lhs, "%", rhs))
    case _ => Failure(FatalReport, "PYCCEL_RESTRICTION_TODO")
  }

  /** An augmented assignment is accepted iff its operator is one of
    * `+ - * / %`, and the node then carries the operator Python wrote
    * between the same two sides. */
  lemma VisitAugAssignKeepsOperator<E>(lhs: E, op: AugOp, rhs: E)
    ensures var r := VisitAugAssign(lhs, op, rhs);
      (r.Success? <==> op in {AddOp, SubOp, MultOp, DivOp, ModOp}) &&
      (r.Success? ==> r.value == AugAssign(lhs, PythonSymbol(op), rhs)) &&
      (r.Failure? ==> r.kind == FatalReport)
  {
  }

  // -------------------------------------------------------------- _visit_Slice

  datatype SliceNode<E> = SliceNode(lower: Option<E>, upper: Option<E>)

  /** `_visit_Slice`: an absent bound (visited as `Nil`) becomes None; a
    * step raises NotImplementedError. */
  function VisitSlice<E>(lower: Option<E>, upper: Option<E>, step: Option<E>): Result<SliceNode<E>>
  {
    if step.Some? then Failure(NotImplementedError, "Steps in slices are not implemented")
    else if upper.Some? && lower.Some? then Success(SliceNode(lower, upper))
    else if lower.Some? then Success(SliceNode(lower, None))
    else if upper.Some? then Success(SliceNode(None, upper))
    else Success(SliceNode(None, None))
  }

  /** A slice is accepted iff it has no step, and then keeps both bounds,
    * present or not, in their places. */
  lemma VisitSliceKeepsBounds<E>(lower: Option<E>, upper: Option<E>, step: Option<E>)
    ensures VisitSlice(lower, upper, step).Success? <==> step.None?
    ensures step.None? ==> VisitSlice(lower, upper, step).value == SliceNode(lower, upper)
  {
  }

  // ---------------------------------------------------------- _visit_arguments

  /** A parameter of a function: plain, or with its default value. */
  datatype Argument<D> = Plain(name: string) | Valued(name: string, default: D)
  {
    function Name(): string
    {
      match this
      case Plain(n) => n
      case Valued(n, _) => n
    }
  }

  /** `zip(names, defaults)` into valued arguments. */
  function ZipValued<D>(names: seq<string>, defaults: seq<D>): (r: seq<Argument<D>>)
    ensures |r| == if |names| < |defaults| then |names| else |defaults|
    ensures forall k :: 0 <= k < |r| ==> r[k] == Valued(names[k], defaults[k])
  {
    if names == [] || defaults == [] then []
    else [Valued(names[0], defaults[0])] + ZipValued(names[1..], defaults[1..])
  }

  function PlainAll<D>(names: seq<string>): (r: seq<Argument<D>>)
    ensures |r| == |names|
    ensures forall k :: 0 <= k < |r| ==> r[k] == Plain(names[k])
  {
    if names == [] then [] else [Plain(names[0])] + PlainAll(names[1..])
  }

  /** `_visit_arguments`: `*args` or `**kwargs` is fatal; positional
    * parameters take the defaults from the right; keyword-only parameters
    * are read only when there is no positional one. Python gives no more
    * defaults than positional parameters. */
  function VisitArguments<D>(args: seq<string>, defaults: seq<D>, hasVararg: bool, hasKwarg: bool,
                             kwonly: seq<string>, kwDefaults: seq<D>): Result<seq<Argument<D>>>
    requires |defaults| <= |args|
  {
    if hasVararg || hasKwarg then Failure(FatalReport, "VARARGS")
    else if args != [] then
      var nExpl := |args| - |defaults|;
      Success(PlainAll(args[..nExpl]) + ZipValued(args[nExpl..], defaults))
    else Success(ZipValued(kwonly, kwDefaults))
  }

  /** The parameters come out in order with their names; exactly the last
    * `len(defaults)` positional ones carry a default, the i-th of those the
    * i-th default; keyword-only parameters appear only in a function
    * without positional ones. */
  lemma VisitArgumentsLayout<D>(args: seq<string>, defaults: seq<D>, hasVararg: bool, hasKwarg: bool,
                                kwonly: seq<string>, kwDefaults: seq<D>)
    requires |defaults| <= |args|
    requires |kwDefaults| == |kwonly|
    ensures var r := VisitArguments(args, defaults, hasVararg, hasKwarg, kwonly, kwDefaults);
      (r.Failure? <==> hasVararg || hasKwarg) &&
      (r.Success? && args != [] ==>
        |r.value| == |args| &&
        (forall k :: 0 <= k < |args| ==> r.value[k].Name() == args[k]) &&
        (forall k :: 0 <= k < |args| ==>
           (r.value[k].Valued? <==> k >= |args| - |defaults|) &&
           (r.value[k].Valued? ==> r.value[k].default == defaults[k - (|args| - |defaults|)]))) &&
      (r.Success? && args == [] ==>
        r.value == ZipValued(kwonly, kwDefaults) && |r.value| == |kwonly| &&
        forall k :: 0 <= k < |kwonly| ==> r.value[k] == Valued(kwonly[k], kwDefaults[k]))
  {
    if !hasVararg && !hasKwarg && args != [] {
      PositionalLayout(args, defaults);
    }
  }

  /** The positional parameters: plain ones, then the ones with defaults. */
  lemma PositionalLayout<D>(args: seq<string>, defaults: seq<D>)
    requires |defaults| <= |args|
    ensures var nExpl := |args| - |defaults|;
      var r: seq<Argument<D>> := PlainAll(args[..nExpl]) + ZipValued(args[nExpl..], defaults);
      |r| == |args| &&
      forall k :: 0 <= k < |args| ==> r[k] == if k < nExpl then Plain(args[k]) else Valued(args[k], defaults[k - nExpl])
  {
    forall k | 0 <= k < |args| {
      PositionalAt(args, defaults, k);
    }
  }

  lemma PositionalAt<D>(args: seq<string>, defaults: seq<D>, k: nat)
    requires |defaults| <= |args| && k < |args|
    ensures var nExpl := |args| - |defaults|;
      var r: seq<Argument<D>> := PlainAll(args[..nExpl]) + ZipValued(args[nExpl..], defaults);
      |r| == |args| && r[k] == if k < nExpl then Plain(args[k]) else Valued(args[k], defaults[k - nExpl])
  {
    var nExpl := |args| - |defaults|;
    var front: seq<Argument<D>> := PlainAll(args[..nExpl]);
    var back := ZipValued(args[nExpl..], defaults);
    if k < nExpl {
      assert (front + back)[k] == front[k] == Plain(args[..nExpl][k]);
    } else {
      assert (front + back)[k] == back[k - nExpl] == Valued(args[nExpl..][k - nExpl], defaults[k - nExpl]);
    }
  }

  // ---------------------------------------------- the @types decorator header

  /** An element of a `@types(...)` decorator or of its `results` tuple:
    * a symbol, a string literal (its text with the quotes), or anything
    * else, named by its class. */
  datatype TypeItem = SymbolItem(name: string) | StringItem(text: string) | OtherItem(cls: string)

  /** An argument of the decorator: positional, or `name=value`, where a
    * value that is not a tuple counts as a tuple of one. */
  datatype DecoratorArg = Positional(item: TypeItem) | Keyword(name: string, value: seq<TypeItem>)

  /** What the loop collects: argument types, result types and the error
    * messages it reports (severity `error`, which does not stop the pass). */
  datatype Collected = Collected(types: seq<string>, results: seq<string>, errors: seq<string>)

  const NoneCollected := Collected([], [], [])

  function Then(a: Collected, b: Collected): Collected
  {
    Collected(a.types + b.types, a.results + b.results, a.errors + b.errors)
  }

  lemma ThenAssociative(a: Collected, b: Collected, c: Collected)
    ensures Then(a, Then(b, c)) == Then(Then(a, b), c)
  {
    assert a.types + (b.types + c.types) == (a.types + b.types) + c.types;
    assert a.results + (b.results + c.results) == (a.results + b.results) + c.results;
    assert a.errors + (b.errors + c.errors) == (a.errors + b.errors) + c.errors;
  }

  /** A string argument with `'` and then `"` stripped from both ends. */
  function Unquote(text: string): string
  {
    StripChar(StripChar(text, '\''), '"')
  }

  /** The entry one item adds: a symbol's name, a string's unquoted text,
    * nothing for anything else. */
  function Entry(x: TypeItem): seq<string>
  {
    if x.SymbolItem? then [x.name] else if x.StringItem? then [Unquote(x.text)] else []
  }

  function ItemErrors(x: TypeItem): seq<string>
  {
    if x.OtherItem? then ["Invalid argument of type " + x.cls + " passed to types decorator"] else []
  }

  /** What one item adds to the list currently collected into. */
  function Put(x: TypeItem, inResults: bool): Collected
  {
    if inResults then Collected([], Entry(x), ItemErrors(x)) else Collected(Entry(x), [], ItemErrors(x))
  }

  function KeywordMessage(name: string): string
  {
    "Argument \"" + name + "\" provided to the types decorator is not valid"
  }

  function KeywordCount(ls: seq<DecoratorArg>): nat
  {
    if ls == [] then 0 else (if ls[0].Keyword? then 1 else 0) + KeywordCount(ls[1..])
  }

  /** The items of a `results` value, as the list the loop continues on. */
  function Lift(items: seq<TypeItem>): (r: seq<DecoratorArg>)
    ensures |r| == |items| && KeywordCount(r) == 0
    ensures forall k :: 0 <= k < |r| ==> r[k] == Positional(items[k])
  {
    if items == [] then []
    else
      var r := [Positional(items[0])] + Lift(items[1..]);
      assert r[1..] == Lift(items[1..]);
      r
  }

  /** What the loop over the decorator's arguments collects from `ls`
    * onwards: items go to the current list; `results=v` switches to the
    * result list and continues on the items of `v`, dropping whatever
    * followed it; any other keyword is reported and also switches to the
    * result list, on the remaining arguments. */
  function Collect(ls: seq<DecoratorArg>, inResults: bool): Collected
    decreases KeywordCount(ls), |ls|
  {
    if ls == [] then NoneCollected
    else match ls[0]
      case Positional(x) => Then(Put(x, inResults), Collect(ls[1..], inResults))
      case Keyword(n, v) =>
        if n == "results" then Collect(Lift(v), true)
        else Then(Collected([], [], [KeywordMessage(n)]), Collect(ls[1..], true))
  }

  /** The header the decorator stands for. */
  function HeaderText(name: string, c: Collected): string
  {
    "#$ header " + name + "(" + Join(c.types, ",") + ")" +
    (if c.results != [] then " results(" + Join(c.results, ",") + ")" else "")
  }

  /** The `while` loop of `_visit_FunctionDef` over the `types` decorator's
    * arguments, and the header text built from what it collects; `name`
    * is the function's name with its quotes removed. */
  method TypesHeader(name: string, args: seq<DecoratorArg>) returns (txt: string, errors: seq<string>)
    ensures txt == HeaderText(name, Collect(args, false))
    ensures errors == Collect(args, false).errors
  {
    var types: seq<string> := [];
    var results: seq<string> := [];
    errors := [];
    var inResults := false;
    var ls := args;
    var i: int := 0;
    while i < |ls|
      invariant 0 <= i <= |ls|
      invariant Then(Collected(types, results, errors), Collect(ls[i..], inResults)) == Collect(args, false)
      decreases KeywordCount(ls[i..]), |ls| - i
    {
      var arg := ls[i];
      CollectHead(ls[i..], inResults);
      assert ls[i..][0] == arg && ls[i..][1..] == ls[i + 1..];
      match arg {
        case Positional(x) =>
          ghost var before := Collected(types, results, errors);
          types, results, errors := AddItem(types, results, errors, x, inResults);
          ThenAssociative(before, Put(x, inResults), Collect(ls[i + 1..], inResults));
        case Keyword(n, v) =>
          inResults := true;
          if n != "results" {
            ReportKeyword(types, results, errors, n, Collect(ls[i + 1..], true));
            errors := errors + [KeywordMessage(n)];
          } else {
            ls := Lift(v);
            i := -1;
            assert ls[i + 1..] == ls;
          }
      }
      i := i + 1;
    }
    txt := "#$ header " + name;
    txt := txt + "(" + Join(types, ",") + ")";
    if results != [] {
      txt := txt + " results(" + Join(results, ",") + ")";
    }
    assert Collected(types, results, errors) == Collect(args, false);
  }

  /** Reporting a keyword other than `results` adds its message after the
    * errors collected so far. */
  lemma ReportKeyword(types: seq<string>, results: seq<string>, errors: seq<string>, n: string, rest: Collected)
    ensures Then(Collected(types, results, errors + [KeywordMessage(n)]), rest)
      == Then(Collected(types, results, errors), Then(Collected([], [], [KeywordMessage(n)]), rest))
  {
    var before := Collected(types, results, errors);
    assert Collected(types, results, errors + [KeywordMessage(n)]) == Then(before, Collected([], [], [KeywordMessage(n)]));
    ThenAssociative(before, Collected([], [], [KeywordMessage(n)]), rest);
  }

  /** One item of the loop: a symbol's name or a string's unquoted text is
    * appended to the list being collected into; anything else is reported. */
  method AddItem(types: seq<string>, results: seq<string>, errors: seq<string>, x: TypeItem, inResults: bool)
    returns (types': seq<string>, results': seq<string>, errors': seq<string>)
    ensures Collected(types', results', errors') == Then(Collected(types, results, errors), Put(x, inResults))
  {
    types', results', errors' := types, results, errors;
    match x {
      case SymbolItem(n) =>
        if inResults { results' := results + [n]; } else { types' := types + [n]; }
      case StringItem(t) =>
        var a := Unquote(t);
        if inResults { results' := results + [a]; } else { types' := types + [a]; }
      case OtherItem(c) =>
        errors' := errors + ["Invalid argument of type " + c + " passed to types decorator"];
    }
    assert types' == types + Put(x, inResults).types;
    assert results' == results + Put(x, inResults).results;
    assert errors' == errors + Put(x, inResults).errors;
  }

  /** How `Collect` starts on a non-empty list. */
  lemma CollectHead(ls: seq<DecoratorArg>, inResults: bool)
    requires ls != []
    ensures ls[0].Positional? ==>
      Collect(ls, inResults) == Then(Put(ls[0].item, inResults), Collect(ls[1..], inResults)) &&
      KeywordCount(ls) == KeywordCount(ls[1..])
    ensures ls[0].Keyword? ==> KeywordCount(ls) == 1 + KeywordCount(ls[1..])
    ensures ls[0].Keyword? && ls[0].name == "results" ==> Collect(ls, inResults) == Collect(Lift(ls[0].value), true)
    ensures ls[0].Keyword? && ls[0].name != "results" ==>
      Collect(ls, inResults) == Then(Collected([], [], [KeywordMessage(ls[0].name)]), Collect(ls[1..], true))
  {
  }

  /** A positional first item is collected before the rest. */
  lemma PositionalStep(ls: seq<DecoratorArg>, inResults: bool)
    requires ls != [] && ls[0].Positional?
    ensures Collect(ls, inResults) == Then(Put(ls[0].item, inResults), Collect(ls[1..], inResults))
  {
  }

  /** Without keywords, collecting a concatenation collects each part. */
  lemma {:induction false} CollectConcat(ls: seq<DecoratorArg>, rest: seq<DecoratorArg>, inResults: bool)
    requires KeywordCount(ls) == 0
    ensures Collect(ls + rest, inResults) == Then(Collect(ls, inResults), Collect(rest, inResults))
  {
    if ls == [] {
      assert ls + rest == rest;
    } else {
      var both := ls + rest;
      assert both[0] == ls[0] && both[1..] == ls[1..] + rest;
      assert ls[0].Positional? && KeywordCount(ls[1..]) == 0;
      PositionalStep(ls, inResults);
      PositionalStep(both, inResults);
      CollectConcat(ls[1..], rest, inResults);
      var head := Put(ls[0].item, inResults);
      calc {
        Collect(ls + rest, inResults);
        Then(head, Collect(ls[1..] + rest, inResults));
        Then(head, Then(Collect(ls[1..], inResults), Collect(rest, inResults)));
        { ThenAssociative(head, Collect(ls[1..], inResults), Collect(rest, inResults)); }
        Then(Then(head, Collect(ls[1..], inResults)), Collect(rest, inResults));
        Then(Collect(ls, inResults), Collect(rest, inResults));
      }
    }
  }

  /** Without keywords, items are collected in order into the argument
    * types, or into the result types once a keyword has been met, with the
    * same errors either way. */
  lemma {:induction false} CollectContainer(ls: seq<DecoratorArg>)
    requires KeywordCount(ls) == 0
    ensures Collect(ls, true).types == [] && Collect(ls, false).results == []
    ensures Collect(ls, true).results == Collect(ls, false).types
    ensures Collect(ls, true).errors == Collect(ls, false).errors
  {
    if ls != [] {
      CollectHead(ls, true);
      CollectHead(ls, false);
      CollectContainer(ls[1..]);
    }
  }

  /** `@types(a, b, results=r)`: the arguments before `results` give the
    * argument types, the items of `r` the result types, and anything after
    * `results=...` is ignored. */
  lemma CollectResultsKeyword(before: seq<DecoratorArg>, r: seq<TypeItem>, after: seq<DecoratorArg>)
    requires KeywordCount(before) == 0
    ensures var c := Collect(before + [Keyword("results", r)] + after, false);
      c.types == Collect(before, false).types &&
      c.results == Collect(Lift(r), false).types &&
      c.errors == Collect(before, false).errors + Collect(Lift(r), false).errors
  {
    var tail := [Keyword("results", r)] + after;
    assert before + [Keyword("results", r)] + after == before + tail;
    CollectConcat(before, tail, false);
    CollectHead(tail, false);
    CollectContainer(Lift(r));
    CollectContainer(before);
  }

  /** The decorator entries written as string literals in single quotes. */
  function Quoted(entries: seq<string>): (r: seq<DecoratorArg>)
    ensures |r| == |entries| && KeywordCount(r) == 0
  {
    Lift(QuotedItems(entries))
  }

  function QuotedItems(entries: seq<string>): (r: seq<TypeItem>)
    ensures |r| == |entries|
    ensures forall k :: 0 <= k < |r| ==> r[k] == StringItem("'" + entries[k] + "'")
  {
    if entries == [] then [] else [StringItem("'" + entries[0] + "'")] + QuotedItems(entries[1..])
  }

  predicate IsQuote(c: char)
  {
    c == '\'' || c == '"'
  }

  /** A non-empty text that neither starts nor ends with a quote. */
  predicate Unquoted(t: string)
  {
    t != [] && !IsQuote(t[0]) && !IsQuote(t[|t| - 1])
  }

  /** A type written `'t'` reads back as `t` when `t` neither starts nor ends
    * with a quote. */
  lemma UnquoteQuoted(t: string)
    requires Unquoted(t)
    ensures Unquote("'" + t + "'") == t
  {
    var q := "'" + t + "'";
    var t' := t + "'";
    assert q[0] == '\'' && q[1..] == t';
    assert t'[0] == t[0] && t'[|t'| - 1] == '\'' && t'[..|t|] == t;
    assert StripChar(t, '\'') == t;
    assert StripChar(t', '\'') == t;
    assert StripChar(t, '"') == t;
  }

  /** A decorator of quoted types gives exactly those types, in order, with
    * no result type and no error. */
  lemma {:induction false} CollectQuoted(entries: seq<string>)
    requires forall k :: 0 <= k < |entries| ==> Unquoted(entries[k])
    ensures Collect(Quoted(entries), false) == Collected(entries, [], [])
  {
    if entries != [] {
      var ls := Quoted(entries);
      assert ls[0] == Positional(StringItem("'" + entries[0] + "'"));
      assert QuotedItems(entries)[1..] == QuotedItems(entries[1..]);
      assert Lift(QuotedItems(entries))[1..] == Lift(QuotedItems(entries[1..]));
      UnquoteQuoted(entries[0]);
      CollectHead(ls, false);
      CollectQuoted(entries[1..]);
      assert entries == [entries[0]] + entries[1..];
    }
  }

  /** The entries `build_types_decorator` produces for typed variables read
    * back, through a `@types` decorator of quoted strings, as the same
    * argument types: for element types whose names neither start nor end
    * with a quote. */
  lemma BuildTypesDecoratorReadsBack(args: seq<AstUtilities.TypedArg>, order: string)
    requires AstUtilities.BuildTypesDecorator(args, order).Success?
    requires forall k :: 0 <= k < |args| ==> Unquoted(args[k].dtypeName)
    ensures var entries := AstUtilities.BuildTypesDecorator(args, order).value;
      Collect(Quoted(entries), false) == Collected(entries, [], [])
  {
    var entries := AstUtilities.BuildTypesDecorator(args, order).value;
    forall k | 0 <= k < |entries|
      ensures Unquoted(entries[k])
    {
      EntryUnquoted(args[k], order);
      assert entries[k] == AstUtilities.TypeEntry(args[k], order);
    }
    CollectQuoted(entries);
  }

  /** An entry starts with the lower-cased type name and ends with it, `]`
    * or `)`, so it neither starts nor ends with a quote when the name does
    * not. */
  lemma EntryUnquoted(a: AstUtilities.TypedArg, order: string)
    requires a.TypedVar?
    requires Unquoted(a.dtypeName)
    ensures Unquoted(AstUtilities.TypeEntry(a, order))
  {
    var d := Lower(a.dtypeName);
    var e := AstUtilities.TypeEntry(a, order);
    assert d[0] == LowerChar(a.dtypeName[0]);
    assert d[|d| - 1] == LowerChar(a.dtypeName[|d| - 1]);
    if a.rank == 0 {
      assert e == d;
    } else {
      var shaped := d + "[" + AstUtilities.Colons(a.rank) + "]";
      assert shaped[0] == d[0] && shaped[|shaped| - 1] == ']';
      if order != "" && a.rank > 1 {
        assert e == shaped + "(order=" + order + ")";
        assert e[0] == shaped[0] && e[|e| - 1] == ')';
      } else {
        assert e == shaped;
      }
    }
  }

  // ------------------------------------------------------------ _visit_Module

  /** A visited top-level statement, by what decides where it goes:
    * `HeaderS` stands for headers, comments and comment blocks, `BlankS`
    * for new lines and empty lines. */
  datatype Stmt =
    | FunctionDefS(name: string)
    | ClassDefS(name: string)
    | HeaderS(text: string)
    | BlankS
    | ImportS(targets: seq<string>, source: string)
    | OtherS(text: string)

  predicate IsDef(v: Stmt) { v.FunctionDefS? || v.ClassDefS? }

  /** The statements that belong to no block of their own. */
  predicate IsTrivia(v: Stmt) { v.HeaderS? || v.BlankS? }

  /** Which list `current_file` is. */
  datatype Current = ToStart | ToMod | ToProg

  /** The loop's variables. */
  datatype SplitState = SplitState(prog: seq<Stmt>, mod: seq<Stmt>, start: seq<Stmt>, current: Current,
                                   targets: seq<string>, nEmptyLines: nat, isProg: bool)

  const Initial := SplitState([], [], [], ToStart, [], 0, false)

  /** `current_file[-1:-1] = start`: the pending statements go just before
    * the last one. */
  function Splice(l: seq<Stmt>, pending: seq<Stmt>): seq<Stmt>
  {
    if l == [] then pending else l[..|l| - 1] + pending + [l[|l| - 1]]
  }

  function AppendTo(st: SplitState, c: Current, v: Stmt): SplitState
  {
    match c
    case ToStart => st.(start := st.start + [v])
    case ToMod => st.(mod := st.mod + [v])
    case ToProg => st.(prog := st.prog + [v])
  }

  /** Once the current list is the module or the program, the pending
    * headers and comments move in front of the statement just read. */
  function Flush(st: SplitState): SplitState
  {
    if |st.start| > 0 && st.current != ToStart then
      match st.current
      case ToMod => st.(mod := Splice(st.mod, st.start), start := [])
      case ToProg => st.(prog := Splice(st.prog, st.start), start := [])
    else st
  }

  /** One turn of the loop of `_visit_Module` before the pending headers
    * are moved. */
  function Next(st: SplitState, v: Stmt): SplitState
  {
    var cur := if st.nEmptyLines > 3 then ToStart else st.current;
    match v
    case FunctionDefS(n) => st.(nEmptyLines := 0, mod := st.mod + [v], targets := st.targets + [n], current := ToMod)
    case ClassDefS(n) => st.(nEmptyLines := 0, mod := st.mod + [v], targets := st.targets + [n], current := ToMod)
    case HeaderS(_) => st.(nEmptyLines := 0, current := ToStart, start := st.start + [v])
    case BlankS => AppendTo(st, cur, v).(nEmptyLines := st.nEmptyLines + 1, current := cur)
    case ImportS(_, _) => st.(nEmptyLines := 0, mod := st.mod + [v], prog := st.prog + [v], current := cur)
    case OtherS(_) => st.(isProg := true, nEmptyLines := 0, prog := st.prog + [v], current := ToProg)
  }

  /** One turn of the loop of `_visit_Module`. */
  function Step(st: SplitState, v: Stmt): SplitState
  {
    Flush(Next(st, v))
  }

  /** The loop's variables after the statements of `body`. */
  function SplitBody(body: seq<Stmt>): SplitState
  {
    if body == [] then Initial else Step(SplitBody(body[..|body| - 1]), body[|body| - 1])
  }

  /** The `ParserResult`: the program and the module, when each exists, and
    * their names. */
  datatype ParserResult = ParserResult(programCode: Option<seq<Stmt>>, moduleCode: Option<seq<Stmt>>,
                                       progName: string, modName: string)

  /** After the loop: leftover headers go to the module; the module exists
    * when something is defined, the program when there is an executable
    * statement, and then it imports the module's definitions first; a file
    * with neither is a module. */
  function Finish(st: SplitState, modName: string): ParserResult
  {
    var mod := if |st.start| > 0 then st.mod + st.start else st.mod;
    var modCode := if |st.targets| > 0 then Some(mod) else None;
    if st.isProg then
      var prog := if modCode.Some? then [ImportS(st.targets, modName)] + st.prog else st.prog;
      ParserResult(Some(prog), modCode, "prog_" + modName, modName)
    else
      ParserResult(None, if modCode.None? then Some(mod) else modCode, "prog_" + modName, modName)
  }

  /** `_visit_Module` for a file whose name without extension is
    * `modName`. */
  method VisitModule(body: seq<Stmt>, modName: string) returns (r: ParserResult)
    ensures r == Finish(SplitBody(body), modName)
  {
    var prog: seq<Stmt> := [];
    var mod: seq<Stmt> := [];
    var start: seq<Stmt> := [];
    var current := ToStart;
    var targets: seq<string> := [];
    var nEmptyLines: nat := 0;
    var isProg := false;
    for i := 0 to |body|
      invariant SplitState(prog, mod, start, current, targets, nEmptyLines, isProg) == SplitBody(body[..i])
    {
      var v := body[i];
      assert body[..i + 1][..i] == body[..i];
      if nEmptyLines > 3 {
        current := ToStart;
      }
      match v {
        case FunctionDefS(n) =>
          nEmptyLines := 0;
          mod := mod + [v];
          targets := targets + [n];
          current := ToMod;
        case ClassDefS(n) =>
          nEmptyLines := 0;
          mod := mod + [v];
          targets := targets + [n];
          current := ToMod;
        case HeaderS(_) =>
          nEmptyLines := 0;
          current := ToStart;
          start := start + [v];
        case BlankS =>
          match current {
            case ToStart => start := start + [v];
            case ToMod => mod := mod + [v];
            case ToProg => prog := prog + [v];
          }
          nEmptyLines := nEmptyLines + 1;
        case ImportS(_, _) =>
          nEmptyLines := 0;
          mod := mod + [v];
          prog := prog + [v];
        case OtherS(_) =>
          isProg := true;
          nEmptyLines := 0;
          prog := prog + [v];
          current := ToProg;
      }
      if |start| > 0 && current != ToStart {
        if current == ToMod {
          mod := Splice(mod, start);
        } else {
          prog := Splice(prog, start);
        }
        start := [];
      }
    }
    assert body[..|body|] == body;
    if |start| > 0 {
      mod := mod + start;
    }
    var modCode := if |targets| > 0 then Some(mod) else None;
    if isProg {
      if modCode.Some? {
        prog := [ImportS(targets, modName)] + prog;
      }
      r := ParserResult(Some(prog), modCode, "prog_" + modName, modName);
    } else {
      if modCode.None? {
        modCode := Some(mod);
      }
      r := ParserResult(None, modCode, "prog_" + modName, modName);
    }
  }

  /** The statements a list keeps for a given role. */
  datatype Role = Code | ModuleCode | ProgramCode | Imports

  predicate Plays(role: Role, v: Stmt)
  {
    match role
    case Code => !IsTrivia(v)
    case ModuleCode => IsDef(v) || v.ImportS?
    case ProgramCode => v.ImportS? || v.OtherS?
    case Imports => v.ImportS?
  }

  /** The statements of `s` that play `role`, in order. */
  function Keep(s: seq<Stmt>, role: Role): (r: seq<Stmt>)
    ensures |r| <= |s|
  {
    if s == [] then [] else Keep(s[..|s| - 1], role) + (if Plays(role, s[|s| - 1]) then [s[|s| - 1]] else [])
  }

  /** The names of the functions and classes of `s`, in order. */
  function DefNames(s: seq<Stmt>): seq<string>
  {
    if s == [] then []
    else DefNames(s[..|s| - 1]) + (if IsDef(s[|s| - 1]) then [s[|s| - 1].name] else [])
  }

  lemma {:induction false} KeepConcat(a: seq<Stmt>, b: seq<Stmt>, role: Role)
    ensures Keep(a + b, role) == Keep(a, role) + Keep(b, role)
    decreases |b|
  {
    if b == [] {
      assert a + b == a;
    } else {
      assert (a + b)[..|a + b| - 1] == a + b[..|b| - 1];
      KeepConcat(a, b[..|b| - 1], role);
    }
  }

  /** Moving pending headers and comments never moves code. */
  lemma SpliceKeepsCode(l: seq<Stmt>, pending: seq<Stmt>)
    requires Keep(pending, Code) == []
    ensures Keep(Splice(l, pending), Code) == Keep(l, Code)
    ensures multiset(Splice(l, pending)) == multiset(l) + multiset(pending)
  {
    if l != [] {
      var n := |l| - 1;
      var front, last := l[..n], [l[n]];
      assert l == front + last;
      assert Splice(l, pending) == (front + pending) + last;
      calc {
        Keep(Splice(l, pending), Code);
        { KeepConcat(front + pending, last, Code); }
        Keep(front + pending, Code) + Keep(last, Code);
        { KeepConcat(front, pending, Code); }
        Keep(front, Code) + Keep(last, Code);
        { KeepConcat(front, last, Code); }
        Keep(l, Code);
      }
    }
  }

  /** What the loop keeps true: every statement is in the module, the
    * program or the pending list, imports in both of the first two; the
    * module holds exactly the definitions and imports in order, the
    * program exactly the imports and executable statements in order, and
    * the pending list only headers, comments and blank lines; the targets
    * are the defined names; the file is a program iff it has an executable
    * statement. */
  predicate SplitInvariant(body: seq<Stmt>, st: SplitState)
  {
    multiset(st.mod) + multiset(st.prog) + multiset(st.start) == multiset(body) + multiset(Keep(body, Imports)) &&
    Keep(st.mod, Code) == Keep(body, ModuleCode) &&
    Keep(st.prog, Code) == Keep(body, ProgramCode) &&
    Keep(st.start, Code) == [] &&
    st.targets == DefNames(body) &&
    (st.isProg <==> exists k :: 0 <= k < |body| && body[k].OtherS?)
  }

  lemma FlushKeeps(body: seq<Stmt>, st: SplitState)
    requires SplitInvariant(body, st)
    ensures SplitInvariant(body, Flush(st))
  {
    if |st.start| > 0 && st.current != ToStart {
      if st.current == ToMod {
        SpliceKeepsCode(st.mod, st.start);
      } else {
        SpliceKeepsCode(st.prog, st.start);
      }
    }
  }

  /** Each statement is placed once, an import twice. */
  lemma NextPlaces(st: SplitState, v: Stmt)
    ensures var next := Next(st, v);
      multiset(next.mod) + multiset(next.prog) + multiset(next.start) ==
        multiset(st.mod) + multiset(st.prog) + multiset(st.start) + multiset{v} +
        (if v.ImportS? then multiset{v} else multiset{})
  {
    var next := Next(st, v);
    var cur := if st.nEmptyLines > 3 then ToStart else st.current;
    match v {
      case BlankS =>
        match cur {
          case ToStart => assert multiset(next.start) == multiset(st.start) + multiset{v};
          case ToMod => assert multiset(next.mod) == multiset(st.mod) + multiset{v};
          case ToProg => assert multiset(next.prog) == multiset(st.prog) + multiset{v};
        }
      case ImportS(_, _) =>
        assert multiset(next.mod) == multiset(st.mod) + multiset{v};
        assert multiset(next.prog) == multiset(st.prog) + multiset{v};
      case HeaderS(_) => assert multiset(next.start) == multiset(st.start) + multiset{v};
      case OtherS(_) => assert multiset(next.prog) == multiset(st.prog) + multiset{v};
      case FunctionDefS(_) => assert multiset(next.mod) == multiset(st.mod) + multiset{v};
      case ClassDefS(_) => assert multiset(next.mod) == multiset(st.mod) + multiset{v};
    }
  }

  /** A statement's code goes to the module iff it is module code, to the
    * program iff it is program code, and never stays pending. */
  lemma {:induction false} NextCode(st: SplitState, v: Stmt)
    requires Keep(st.start, Code) == []
    ensures Keep(Next(st, v).mod, Code) == Keep(st.mod, Code) + (if Plays(ModuleCode, v) then [v] else [])
    ensures Keep(Next(st, v).prog, Code) == Keep(st.prog, Code) + (if Plays(ProgramCode, v) then [v] else [])
    ensures Keep(Next(st, v).start, Code) == []
    ensures Next(st, v).targets == st.targets + (if IsDef(v) then [v.name] else [])
    ensures Next(st, v).isProg == (st.isProg || v.OtherS?)
  {
    var cur := if st.nEmptyLines > 3 then ToStart else st.current;
    NextLists(st, v);
    KeepMaybeSnoc(st.mod, v, Code, IsDef(v) || v.ImportS? || (v.BlankS? && cur == ToMod));
    KeepMaybeSnoc(st.prog, v, Code, v.ImportS? || v.OtherS? || (v.BlankS? && cur == ToProg));
    KeepMaybeSnoc(st.start, v, Code, v.HeaderS? || (v.BlankS? && cur == ToStart));
  }

  lemma KeepMaybeSnoc(s: seq<Stmt>, v: Stmt, role: Role, b: bool)
    ensures Keep(s + (if b then [v] else []), role) == Keep(s, role) + (if b && Plays(role, v) then [v] else [])
  {
    if b {
      KeepSnoc(s, v, role);
    } else {
      assert s + [] == s;
    }
  }

  /** Where one turn of the loop appends the statement. */
  lemma NextLists(st: SplitState, v: Stmt)
    ensures var cur := if st.nEmptyLines > 3 then ToStart else st.current;
      Next(st, v).mod == st.mod + (if IsDef(v) || v.ImportS? || (v.BlankS? && cur == ToMod) then [v] else []) &&
      Next(st, v).prog == st.prog + (if v.ImportS? || v.OtherS? || (v.BlankS? && cur == ToProg) then [v] else []) &&
      Next(st, v).start == st.start + (if v.HeaderS? || (v.BlankS? && cur == ToStart) then [v] else [])
  {
    assert st.mod + [] == st.mod && st.prog + [] == st.prog && st.start + [] == st.start;
  }

  lemma KeepSnoc(s: seq<Stmt>, v: Stmt, role: Role)
    ensures Keep(s + [v], role) == Keep(s, role) + (if Plays(role, v) then [v] else [])
  {
    assert (s + [v])[..|s|] == s;
  }

  lemma BodyAppend(body: seq<Stmt>, v: Stmt)
    ensures var body' := body + [v];
      (forall role :: Keep(body', role) == Keep(body, role) + (if Plays(role, v) then [v] else [])) &&
      DefNames(body') == DefNames(body) + (if IsDef(v) then [v.name] else []) &&
      multiset(body') == multiset(body) + multiset{v} &&
      ((exists k :: 0 <= k < |body'| && body'[k].OtherS?) <==>
        (exists k :: 0 <= k < |body| && body[k].OtherS?) || v.OtherS?)
  {
    var body' := body + [v];
    assert body'[..|body|] == body;
    if v.OtherS? {
      assert body'[|body|] == v;
    }
    if exists k :: 0 <= k < |body| && body[k].OtherS? {
      var k :| 0 <= k < |body| && body[k].OtherS?;
      assert body'[k] == body[k];
    }
  }

  lemma StepKeeps(body: seq<Stmt>, st: SplitState, v: Stmt)
    requires SplitInvariant(body, st)
    ensures SplitInvariant(body + [v], Step(st, v))
  {
    NextKeeps(body, st, v);
    FlushKeeps(body + [v], Next(st, v));
  }

  /** Every statement seen is placed once, an import twice. */
  lemma NextMultiset(body: seq<Stmt>, st: SplitState, v: Stmt)
    requires multiset(st.mod) + multiset(st.prog) + multiset(st.start) == multiset(body) + multiset(Keep(body, Imports))
    ensures var next := Next(st, v);
      multiset(next.mod) + multiset(next.prog) + multiset(next.start) ==
        multiset(body + [v]) + multiset(Keep(body + [v], Imports))
  {
    var next := Next(st, v);
    var extra := if v.ImportS? then multiset{v} else multiset{};
    NextPlaces(st, v);
    KeepSnoc(body, v, Imports);
    assert multiset(body + [v]) == multiset(body) + multiset{v};
    assert multiset(Keep(body + [v], Imports)) == multiset(Keep(body, Imports)) + extra by {
      if !v.ImportS? {
        assert Keep(body + [v], Imports) == Keep(body, Imports) + [];
      }
    }
    MultisetShuffle(multiset(body), multiset(Keep(body, Imports)), multiset{v}, extra);
  }

  lemma MultisetShuffle(a: multiset<Stmt>, b: multiset<Stmt>, c: multiset<Stmt>, d: multiset<Stmt>)
    ensures a + b + c + d == (a + c) + (b + d)
  {
  }

  /** The loop's invariant before the pending statements are flushed. */
  lemma NextKeeps(body: seq<Stmt>, st: SplitState, v: Stmt)
    requires SplitInvariant(body, st)
    ensures SplitInvariant(body + [v], Next(st, v))
  {
    var body', next := body + [v], Next(st, v);
    NextMultiset(body, st, v);
    NextCode(st, v);
    BodyAppend(body, v);
    assert Keep(body', ModuleCode) == Keep(body, ModuleCode) + (if Plays(ModuleCode, v) then [v] else []);
    assert Keep(body', ProgramCode) == Keep(body, ProgramCode) + (if Plays(ProgramCode, v) then [v] else []);
  }

  lemma {:induction false} SplitBodyInvariant(body: seq<Stmt>)
    ensures SplitInvariant(body, SplitBody(body))
  {
    if body != [] {
      var n := |body| - 1;
      var front, prev := body[..n], SplitBody(body[..n]);
      assert front + [body[n]] == body;
      assert SplitBody(body) == Step(prev, body[n]);
      SplitBodyInvariant(front);
      StepKeeps(front, prev, body[n]);
    }
  }

  lemma {:induction false} DefNamesEmpty(body: seq<Stmt>)
    ensures DefNames(body) == [] <==> forall k :: 0 <= k < |body| ==> !IsDef(body[k])
  {
    if body != [] {
      var n := |body| - 1;
      DefNamesEmpty(body[..n]);
      assert forall k :: 0 <= k < n ==> body[..n][k] == body[k];
    }
  }

  /** What `_visit_Module` returns: a module, a program, or both; the
    * program exists iff the file has an executable statement, the module
    * iff it defines something or has no executable statement. The module
    * holds the definitions and imports in their order; the program the
    * imports and executable statements in their order, after an import of
    * every defined name from the module when there is one. Headers,
    * comments and blank lines are the only statements that may be left
    * out, and nothing else is added. */
  lemma VisitModuleSplits(body: seq<Stmt>, modName: string)
    ensures var r := Finish(SplitBody(body), modName);
      var hasCode := exists k :: 0 <= k < |body| && body[k].OtherS?;
      var hasDefs := exists k :: 0 <= k < |body| && IsDef(body[k]);
      (r.moduleCode.Some? || r.programCode.Some?) &&
      (r.programCode.Some? <==> hasCode) &&
      (r.moduleCode.Some? <==> hasDefs || !hasCode) &&
      r.progName == "prog_" + modName &&
      (r.moduleCode.Some? ==> Keep(r.moduleCode.value, Code) == Keep(body, ModuleCode)) &&
      (r.programCode.Some? ==>
         Keep(r.programCode.value, Code) ==
           (if r.moduleCode.Some? then [ImportS(DefNames(body), modName)] else []) + Keep(body, ProgramCode))
  {
    var st := SplitBody(body);
    SplitBodyInvariant(body);
    DefNamesEmpty(body);
    KeepConcat(st.mod, st.start, Code);
    KeepConcat([ImportS(st.targets, modName)], st.prog, Code);
    assert Keep([ImportS(st.targets, modName)], Code) == [ImportS(st.targets, modName)] by {
      assert [ImportS(st.targets, modName)][..0] == [];
    }
  }

  /** Before the module and the program are decided on, no statement is
    * lost: each is in the module, the program or the leftover headers, and
    * imports are in both the module and the program. */
  lemma SplitBodyLosesNothing(body: seq<Stmt>)
    ensures var st := SplitBody(body);
      multiset(st.mod) + multiset(st.prog) + multiset(st.start) == multiset(body) + multiset(Keep(body, Imports))
  {
    SplitBodyInvariant(body);
  }

  /** A comment goes with the definition that follows it; the program
    * imports the module's function. */
  lemma VisitModuleExample(c: string, f: string, x: string, m: string)
    ensures Finish(SplitBody([HeaderS(c), FunctionDefS(f), OtherS(x)]), m) ==
      ParserResult(Some([ImportS([f], m), OtherS(x)]), Some([HeaderS(c), FunctionDefS(f)]), "prog_" + m, m)
  {
    var body := [HeaderS(c), FunctionDefS(f), OtherS(x)];
    assert body[..2][..1] == [HeaderS(c)];
    assert body[..2] == [HeaderS(c), FunctionDefS(f)];
    assert [HeaderS(c), FunctionDefS(f)][..1] == [HeaderS(c)];
    assert [HeaderS(c)][..0] == [];
    var s1 := SplitState([], [], [HeaderS(c)], ToStart, [], 0, false);
    assert SplitBody([HeaderS(c)]) == s1;
    assert Splice([FunctionDefS(f)], [HeaderS(c)]) == [HeaderS(c), FunctionDefS(f)];
    var s2 := SplitState([], [HeaderS(c), FunctionDefS(f)], [], ToMod, [f], 0, false);
    assert SplitBody(body[..2]) == s2;
    var s3 := SplitState([OtherS(x)], [HeaderS(c), FunctionDefS(f)], [], ToProg, [f], 0, true);
    assert SplitBody(body) == s3;
    assert [ImportS([f], m)] + [OtherS(x)] == [ImportS([f], m), OtherS(x)];
    assert Finish(s3, m) ==
      ParserResult(Some([ImportS([f], m), OtherS(x)]), Some([HeaderS(c), FunctionDefS(f)]), "prog_" + m, m);
  }
}
