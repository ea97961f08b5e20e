/** The OpenMP pragma syntax (pyccel/parser/syntax/openmp.py): the clause
  * objects and their text, the allow-list each construct checks its clauses
  * against, the text of combined constructs, and what `parse` returns. The
  * directives and clauses are those of chapter 2 ("Directives") of the
  * OpenMP API 5.1 specification. The grammar that builds these objects from
  * a pragma is not modelled: the parsed objects are the inputs. */
module OpenmpSyntax {
  import opened Wrappers
  import opened OmpNodes

  // ------------------------------------------------------------------ clauses

  /** The clause classes, by their Python names. */
  datatype ClauseKind =
    | OmpNumThread | OmpNumTeams | OmpThreadLimit | OmpNumTasks | OmpGrainSize
    | OmpDefault | OmpProcBind
    | OmpPrivate | OmpShared | OmpFirstPrivate | OmpLastPrivate | OmpCopyin | FlushList
    | OmpCriticalName | OmpReduction | OmpDepend | OmpMap | OmpinReduction
    | OmpCollapse | OmpOrdered | OmpLinear | OmpSchedule | OmpFilter | OmpPriority | OmpFinal
    | OmpUntied | OmpMergeable | OmpNogroup
    | OmpAtomicClause | AtomicMemoryClause | OmpCancelType

  /** A parsed clause with the values the grammar gives it. An optional
    * argument the grammar leaves out is None. */
  datatype Clause =
    | NumThread(thread: string)
    | NumTeams(teams: string)
    | ThreadLimit(limit: string)
    | NumTasks(tasks: string)
    | GrainSize(size: string)
    | Default(status: string)
    | ProcBind(status: string)
    | Private(args: seq<string>)
    | Shared(args: seq<string>)
    | FirstPrivate(args: seq<string>)
    | LastPrivate(args: seq<string>)
    | Copyin(args: seq<string>)
    | Flush(args: seq<string>)
    | CriticalName(criticalName: string)
    | Reduction(op: string, args: seq<string>)
    | Depend(dtype: string, args: seq<string>)
    | Map(mtype: string, args: seq<string>)
    | InReduction(ctype: string, op: string, args: seq<string>)
    | Collapse(n: string)
    | Ordered(count: Option<string>)
    | Linear(val: string, step: string)
    | Schedule(kind: string, chunkSize: Option<string>)
    | Filter(name: string, n: string)
    | Priority(name: string, n: string)
    | Final(final: string)
    | Untied
    | Mergeable
    | Nogroup
    | AtomicKind(name: string)
    | AtomicMemory(name: string)
    | CancelType(name: string)

  function KindOf(c: Clause): ClauseKind
  {
    match c
    case NumThread(_) => OmpNumThread
    case NumTeams(_) => OmpNumTeams
    case ThreadLimit(_) => OmpThreadLimit
    case NumTasks(_) => OmpNumTasks
    case GrainSize(_) => OmpGrainSize
    case Default(_) => OmpDefault
    case ProcBind(_) => OmpProcBind
    case Private(_) => OmpPrivate
    case Shared(_) => OmpShared
    case FirstPrivate(_) => OmpFirstPrivate
    case LastPrivate(_) => OmpLastPrivate
    case Copyin(_) => OmpCopyin
    case Flush(_) => FlushList
    case CriticalName(_) => OmpCriticalName
    case Reduction(_, _) => OmpReduction
    case Depend(_, _) => OmpDepend
    case Map(_, _) => OmpMap
    case InReduction(_, _, _) => OmpinReduction
    case Collapse(_) => OmpCollapse
    case Ordered(_) => OmpOrdered
    case Linear(_, _) => OmpLinear
    case Schedule(_, _) => OmpSchedule
    case Filter(_, _) => OmpFilter
    case Priority(_, _) => OmpPriority
    case Final(_) => OmpFinal
    case Untied => OmpUntied
    case Mergeable => OmpMergeable
    case Nogroup => OmpNogroup
    case AtomicKind(_) => OmpAtomicClause
    case AtomicMemory(_) => AtomicMemoryClause
    case CancelType(_) => OmpCancelType
  }

  /** `type(clause).__name__`. */
  function ClassName(k: ClauseKind): string
  {
    match k
    case OmpNumThread => "OmpNumThread"
    case OmpNumTeams => "OmpNumTeams"
    case OmpThreadLimit => "OmpThreadLimit"
    case OmpNumTasks => "OmpNumTasks"
    case OmpGrainSize => "OmpGrainSize"
    case OmpDefault => "OmpDefault"
    case OmpProcBind => "OmpProcBind"
    case OmpPrivate => "OmpPrivate"
    case OmpShared => "OmpShared"
    case OmpFirstPrivate => "OmpFirstPrivate"
    case OmpLastPrivate => "OmpLastPrivate"
    case OmpCopyin => "OmpCopyin"
    case FlushList => "FlushList"
    case OmpCriticalName => "OmpCriticalName"
    case OmpReduction => "OmpReduction"
    case OmpDepend => "OmpDepend"
    case OmpMap => "OmpMap"
    case OmpinReduction => "OmpinReduction"
    case OmpCollapse => "OmpCollapse"
    case OmpOrdered => "OmpOrdered"
    case OmpLinear => "OmpLinear"
    case OmpSchedule => "OmpSchedule"
    case OmpFilter => "OmpFilter"
    case OmpPriority => "OmpPriority"
    case OmpFinal => "OmpFinal"
    case OmpUntied => "OmpUntied"
    case OmpMergeable => "OmpMergeable"
    case OmpNogroup => "OmpNogroup"
    case OmpAtomicClause => "OmpAtomicClause"
    case AtomicMemoryClause => "AtomicMemoryClause"
    case OmpCancelType => "OmpCancelType"
  }

  /** `kw(a, b, ...)`: a list clause. */
  function ListText(kw: string, args: seq<string>): string
  {
    kw + "(" + Join(args, ", ") + ")"
  }

  /** The `expr` property of each clause. */
  function ClauseText(c: Clause): string
  {
    match c
    case NumThread(t) => "num_threads(" + t + ")"
    case NumTeams(t) => "num_teams(" + t + ")"
    case ThreadLimit(l) => "thread_limit(" + l + ")"
    case NumTasks(t) => "num_tasks(" + t + ")"
    case GrainSize(s) => "grainsize(" + s + ")"
    case Default(s) => "default(" + s + ")"
    case ProcBind(s) => "proc_bind(" + s + ")"
    case Private(a) => ListText("private", a)
    case Shared(a) => ListText("shared", a)
    case FirstPrivate(a) => ListText("firstprivate", a)
    case LastPrivate(a) => ListText("lastprivate", a)
    case Copyin(a) => ListText("copyin", a)
    case Flush(a) => ListText("", a)
    case CriticalName(n) => "(" + n + ")"
    case Reduction(op, a) => "reduction(" + op + ": " + Join(a, ", ") + ")"
    case Depend(d, a) => "depend(" + d + ": " + Join(a, ", ") + ")"
    case Map(m, a) => "map(" + m + " " + Join(a, ", ") + ")"
    case InReduction(t, op, a) => t + "(" + op + ": " + Join(a, ", ") + ")"
    case Collapse(n) => "collapse(" + n + ")"
    case Ordered(n) => if n.Some? then "ordered(" + n.value + ")" else "ordered"
    case Linear(v, s) => "linear(" + v + ":" + s + ")"
    case Schedule(k, ch) => if ch.Some? then "schedule(" + k + ", " + ch.value + ")" else "schedule(" + k + ")"
    case Filter(name, n) => name + "(" + n + ")"
    case Priority(name, n) => name + "(" + n + ")"
    case Final(f) => "final(" + f + ")"
    case Untied => "untied"
    case Mergeable => "mergeable"
    case Nogroup => "nogroup"
    case AtomicKind(name) => name
    case AtomicMemory(name) => name
    case CancelType(name) => name
  }

  /** Neither `,` nor `(`/`)` in a name: what keeps a clause's text
    * readable back into its parts. */
  predicate Plain(s: string)
  {
    ',' !in s && '(' !in s && ')' !in s
  }

  /** An optional argument shows exactly when it is given: `ordered` alone
    * or with its count in parentheses, `schedule(kind)` or
    * `schedule(kind, chunk)`; a reduction puts the operator before `: `. */
  lemma OptionalArgumentsShow(kind: string, chunk: Option<string>, count: Option<string>, op: string, args: seq<string>)
    requires Plain(kind)
    ensures var t := ClauseText(Schedule(kind, chunk));
      (',' in t <==> chunk.Some?) &&
      t[..9] == "schedule(" && t[|t| - 1] == ')'
    ensures ClauseText(Ordered(count)) == "ordered" <==> count.None?
    ensures ClauseText(Reduction(op, args))[..10 + |op| + 2] == "reduction(" + op + ": "
  {
    ScheduleShows(kind, chunk);
    OrderedShows(count);
    ReductionShows(op, args);
  }

  /** `schedule(kind)` has no comma; `schedule(kind, chunk)` has one. */
  lemma ScheduleShows(kind: string, chunk: Option<string>)
    requires Plain(kind)
    ensures var t := ClauseText(Schedule(kind, chunk));
      (',' in t <==> chunk.Some?) &&
      t[..9] == "schedule(" && t[|t| - 1] == ')'
  {
    var t := ClauseText(Schedule(kind, chunk));
    if chunk.None? {
      assert t == "schedule(" + kind + ")";
      forall k | 0 <= k < |t|
        ensures t[k] != ','
      {
        if 9 <= k < 9 + |kind| {
          assert t[k] == kind[k - 9];
        }
      }
    } else {
      assert t == "schedule(" + kind + ", " + chunk.value + ")";
      assert t[9 + |kind|] == ',';
    }
  }

  /** `ordered` alone exactly when no count is given. */
  lemma OrderedShows(count: Option<string>)
    ensures ClauseText(Ordered(count)) == "ordered" <==> count.None?
  {
    if count.Some? {
      assert |ClauseText(Ordered(count))| > |"ordered"|;
    }
  }

  /** A reduction starts with its operator and `: `. */
  lemma ReductionShows(op: string, args: seq<string>)
    ensures ClauseText(Reduction(op, args))[..10 + |op| + 2] == "reduction(" + op + ": "
  {
    var r := ClauseText(Reduction(op, args));
    assert r == "reduction(" + op + ": " + (Join(args, ", ") + ")");
  }

  // ------------------------------------------------------- check_get_clauses

  /** The text the clauses add: `' ' + clause.expr` for each, in order. */
  function ClausesText(clauses: seq<Clause>): string
  {
    if clauses == [] then ""
    else ClausesText(clauses[..|clauses| - 1]) + " " + ClauseText(clauses[|clauses| - 1])
  }

  predicate AllValid(valid: set<ClauseKind>, clauses: seq<Clause>)
  {
    forall k :: 0 <= k < |clauses| ==> KindOf(clauses[k]) in valid
  }

  /** The position of the first clause outside the allow-list. */
  function FirstInvalid(valid: set<ClauseKind>, clauses: seq<Clause>): (i: nat)
    requires !AllValid(valid, clauses)
    ensures i < |clauses| && KindOf(clauses[i]) !in valid
    ensures forall k :: 0 <= k < i ==> KindOf(clauses[k]) in valid
  {
    if KindOf(clauses[0]) !in valid then 0
    else
      var i := 1 + FirstInvalid(valid, clauses[1..]);
      assert forall k :: 1 <= k < i ==> clauses[k] == clauses[1..][k - 1];
      i
  }

  /** The message of the TypeError: the tuple the source builds, printed. */
  function WrongClause(who: string, c: Clause): string
  {
    "('Wrong clause " + ClassName(KindOf(c)) + " for ', '" + who + "')"
  }

  /** `check_get_clauses(construct, valid_clauses, clauses)`, for a construct
    * of class `who`: the clauses' texts in order until one is not allowed. */
  function CheckClauses(who: string, valid: set<ClauseKind>, clauses: seq<Clause>): Result<string>
  {
    if clauses == [] then Success("")
    else
      var c := clauses[|clauses| - 1];
      match CheckClauses(who, valid, clauses[..|clauses| - 1])
      case Failure(k, m) => Failure(k, m)
      case Success(txt) =>
        if KindOf(c) in valid then Success(txt + " " + ClauseText(c)) else Failure(TypeError, WrongClause(who, c))
  }

  /** The loop of `check_get_clauses`. */
  method CheckGetClauses(who: string, valid: set<ClauseKind>, clauses: seq<Clause>) returns (r: Result<string>)
    ensures r == CheckClauses(who, valid, clauses)
  {
    var txt := "";
    for i := 0 to |clauses|
      invariant CheckClauses(who, valid, clauses[..i]) == Success(txt)
    {
      var clause := clauses[i];
      assert clauses[..i + 1][..i] == clauses[..i];
      if KindOf(clause) in valid {
        txt := txt + " " + ClauseText(clause);
      } else {
        CheckFailureSticks(who, valid, clauses, i + 1);
        return Failure(TypeError, WrongClause(who, clause));
      }
    }
    assert clauses[..|clauses|] == clauses;
    return Success(txt);
  }

  /** Once a prefix of the clauses is rejected, the whole list is, with the
    * same message. */
  lemma {:induction false} CheckFailureSticks(who: string, valid: set<ClauseKind>, clauses: seq<Clause>, i: nat)
    requires i <= |clauses|
    requires CheckClauses(who, valid, clauses[..i]).Failure?
    ensures CheckClauses(who, valid, clauses) == CheckClauses(who, valid, clauses[..i])
    decreases |clauses| - i
  {
    if i < |clauses| {
      assert clauses[..i + 1][..i] == clauses[..i];
      CheckFailureSticks(who, valid, clauses, i + 1);
    } else {
      assert clauses[..i] == clauses;
    }
  }

  /** The first invalid clause is the one with only valid clauses before
    * it. */
  lemma FirstInvalidAt(valid: set<ClauseKind>, clauses: seq<Clause>, i: nat)
    requires i < |clauses| && KindOf(clauses[i]) !in valid
    requires forall k :: 0 <= k < i ==> KindOf(clauses[k]) in valid
    ensures FirstInvalid(valid, clauses) == i
  {
  }

  /** Clauses are accepted iff every one is in the allow-list, and then give
    * their texts, each after a space, in order; a rejected list is a
    * TypeError naming the first clause that is not allowed. */
  lemma CheckClausesMeaning(who: string, valid: set<ClauseKind>, clauses: seq<Clause>)
    ensures CheckClauses(who, valid, clauses).Success? <==> AllValid(valid, clauses)
    ensures AllValid(valid, clauses) ==> CheckClauses(who, valid, clauses) == Success(ClausesText(clauses))
    ensures !AllValid(valid, clauses) ==>
      CheckClauses(who, valid, clauses) == Failure(TypeError, WrongClause(who, clauses[FirstInvalid(valid, clauses)]))
  {
    if AllValid(valid, clauses) {
      CheckClausesAccepts(who, valid, clauses);
    } else {
      CheckClausesRejects(who, valid, clauses);
    }
  }

  lemma {:induction false} CheckClausesAccepts(who: string, valid: set<ClauseKind>, clauses: seq<Clause>)
    requires AllValid(valid, clauses)
    ensures CheckClauses(who, valid, clauses) == Success(ClausesText(clauses))
  {
    if clauses != [] {
      var n := |clauses| - 1;
      var front := clauses[..n];
      assert forall k :: 0 <= k < n ==> front[k] == clauses[k];
      CheckClausesAccepts(who, valid, front);
    }
  }

  lemma {:induction false} CheckClausesRejects(who: string, valid: set<ClauseKind>, clauses: seq<Clause>)
    requires !AllValid(valid, clauses)
    ensures CheckClauses(who, valid, clauses) == Failure(TypeError, WrongClause(who, clauses[FirstInvalid(valid, clauses)]))
  {
    var front := clauses[..|clauses| - 1];
    if !AllValid(valid, front) {
      CheckClausesRejects(who, valid, front);
      RejectedFront(who, valid, clauses, front);
    } else {
      CheckClausesAccepts(who, valid, front);
      RejectedLast(who, valid, clauses, front);
    }
  }

  /** A rejected front keeps its error once one more clause is added. */
  lemma RejectedFront(who: string, valid: set<ClauseKind>, clauses: seq<Clause>, front: seq<Clause>)
    requires clauses != [] && front == clauses[..|clauses| - 1] && !AllValid(valid, front)
    requires CheckClauses(who, valid, front) == Failure(TypeError, WrongClause(who, front[FirstInvalid(valid, front)]))
    ensures !AllValid(valid, clauses)
    ensures CheckClauses(who, valid, clauses) == Failure(TypeError, WrongClause(who, clauses[FirstInvalid(valid, clauses)]))
  {
    var j := FirstInvalid(valid, front);
    assert clauses[j] == front[j];
    assert forall k :: 0 <= k < j ==> clauses[k] == front[k];
    FirstInvalidAt(valid, clauses, j);
  }

  /** Valid clauses followed by an invalid one: the error names the last. */
  lemma RejectedLast(who: string, valid: set<ClauseKind>, clauses: seq<Clause>, front: seq<Clause>)
    requires clauses != [] && front == clauses[..|clauses| - 1] && AllValid(valid, front)
    requires CheckClauses(who, valid, front).Success?
    requires !AllValid(valid, clauses)
    ensures CheckClauses(who, valid, clauses) == Failure(TypeError, WrongClause(who, clauses[FirstInvalid(valid, clauses)]))
  {
    LastFirstInvalid(valid, clauses, front);
  }

  /** When every clause but the last is allowed, the first one that is not
    * is the last. */
  lemma LastFirstInvalid(valid: set<ClauseKind>, clauses: seq<Clause>, front: seq<Clause>)
    requires clauses != [] && front == clauses[..|clauses| - 1] && AllValid(valid, front)
    requires !AllValid(valid, clauses)
    ensures KindOf(clauses[|clauses| - 1]) !in valid && FirstInvalid(valid, clauses) == |clauses| - 1
  {
    var n := |clauses| - 1;
    forall k | 0 <= k < n
      ensures KindOf(clauses[k]) in valid
    {
      assert clauses[k] == front[k];
    }
    FirstInvalidAt(valid, clauses, n);
  }

  lemma {:induction false} ClausesTextConcat(a: seq<Clause>, b: seq<Clause>)
    ensures ClausesText(a + b) == ClausesText(a) + ClausesText(b)
    decreases |b|
  {
    if b == [] {
      assert a + b == a;
    } else {
      var b', c := b[..|b| - 1], b[|b| - 1];
      assert b == b' + [c] && a + b == (a + b') + [c];
      ClausesTextConcat(a, b');
      ClausesTextSnoc(b', c);
      ClausesTextSnoc(a + b', c);
      JoinRegroup(ClausesText(a), ClausesText(b'), ClauseText(c));
    }
  }

  lemma JoinRegroup(x: string, y: string, t: string)
    ensures x + y + " " + t == x + (y + " " + t)
  {
    var u := " " + t;
    assert y + " " + t == y + u;
    assert x + y + " " + t == (x + y) + u;
  }

  lemma ClausesTextSnoc(s: seq<Clause>, c: Clause)
    ensures ClausesText(s + [c]) == ClausesText(s) + " " + ClauseText(c)
  {
    assert (s + [c])[..|s|] == s;
  }

  /** A list is accepted iff both its halves are, and its text is theirs
    * joined; a rejected second half gives its own error. */
  lemma CheckClausesConcat(who: string, valid: set<ClauseKind>, a: seq<Clause>, b: seq<Clause>)
    ensures CheckClauses(who, valid, a + b).Success? <==>
      CheckClauses(who, valid, a).Success? && CheckClauses(who, valid, b).Success?
    ensures CheckClauses(who, valid, a + b).Success? ==>
      CheckClauses(who, valid, a + b).value == CheckClauses(who, valid, a).value + CheckClauses(who, valid, b).value
  {
    CheckClausesMeaning(who, valid, a);
    CheckClausesMeaning(who, valid, b);
    CheckClausesMeaning(who, valid, a + b);
    ClausesTextConcat(a, b);
    assert forall k :: 0 <= k < |a| ==> (a + b)[k] == a[k];
    assert forall k :: 0 <= k < |b| ==> (a + b)[|a| + k] == b[k];
  }

  // ------------------------------------------------------------ allow-lists

  const TeamsClauses: set<ClauseKind> :=
    {OmpPrivate, OmpLastPrivate, OmpShared, OmpReduction, OmpNumTeams, OmpThreadLimit}
  const SectionsClauses: set<ClauseKind> := {OmpPrivate, OmpFirstPrivate, OmpLastPrivate, OmpReduction}
  const DistributeClauses: set<ClauseKind> := {OmpPrivate, OmpFirstPrivate, OmpLastPrivate, OmpCollapse}
  const SimdClauses: set<ClauseKind> := {OmpLinear, OmpReduction, OmpCollapse, OmpLastPrivate}
  const TaskloopClauses: set<ClauseKind> :=
    {OmpShared, OmpPrivate, OmpFirstPrivate, OmpLastPrivate, OmpReduction, OmpinReduction, OmpNumTasks,
     OmpGrainSize, OmpCollapse, OmpUntied, OmpMergeable, OmpNogroup, OmpPriority}
  const LoopClauses: set<ClauseKind> :=
    {OmpPrivate, OmpFirstPrivate, OmpLastPrivate, OmpReduction, OmpSchedule, OmpCollapse, OmpLinear, OmpOrdered}
  const ParallelClauses: set<ClauseKind> :=
    {OmpNumThread, OmpDefault, OmpPrivate, OmpShared, OmpFirstPrivate, OmpCopyin, OmpReduction, OmpProcBind}
  const TaskClauses: set<ClauseKind> :=
    {OmpPriority, OmpFinal, OmpDefault, OmpPrivate, OmpShared, OmpFirstPrivate, OmpUntied, OmpMergeable,
     OmpinReduction, OmpDepend}
  const TargetClauses: set<ClauseKind> := {OmpPrivate, OmpLastPrivate, OmpinReduction, OmpDepend, OmpMap}

  // ------------------------------------------------------ combined constructs

  /** `OmpForSimd`: `for`, and `simd` when given. */
  function ForSimdText(fname: string, sname: Option<string>): string
  {
    if sname.Some? then fname + " " + sname.value else fname
  }

  /** `OmpMaskedTaskloop`: `masked`, then `taskloop` and, only after it,
    * `simd`. */
  function MaskedTaskloopText(mname: string, tname: Option<string>, sname: Option<string>): string
  {
    if tname.Some? then
      (if sname.Some? then mname + " " + tname.value + " " + sname.value else mname + " " + tname.value)
    else mname
  }

  /** `OmpTaskloopSimd`. */
  function TaskloopSimdText(tname: string, sname: Option<string>): string
  {
    if sname.Some? then tname + " " + sname.value else tname
  }

  /** The message Python gives for `' ' + None`. */
  const NoneConcat := "can only concatenate str (not \"NoneType\") to str"

  /** `OmpDistributeCombined`: `distribute` then `simd`, or else `parallel`
    * and the loop name (which must then be given) and an optional `simd`. */
  function DistributeCombinedText(dname: string, sname: Option<string>, pname: Option<string>,
                                  fname: Option<string>, ssname: Option<string>): Result<string>
  {
    if sname.Some? then Success(dname + " " + sname.value)
    else if pname.Some? then
      if fname.None? then Failure(TypeError, NoneConcat)
      else
        var t := dname + " " + pname.value + " " + fname.value;
        Success(if ssname.Some? then t + " " + ssname.value else t)
    else Success(dname)
  }

  /** `OmpTargetParallel`: `parallel`, then the loop name and, only after
    * it, `simd`. */
  function TargetParallelText(pname: string, fname: Option<string>, sname: Option<string>): string
  {
    if fname.Some? then
      (if sname.Some? then pname + " " + fname.value + " " + sname.value else pname + " " + fname.value)
    else pname
  }

  /** `OmpTargetTeams`: `teams`, then `distribute` and either `simd` or
    * `parallel` with the loop name (both then needed) and an optional
    * `simd`. */
  function TargetTeamsText(tname: string, dname: Option<string>, sname: Option<string>, pname: Option<string>,
                           fname: Option<string>, ssname: Option<string>): Result<string>
  {
    if dname.None? then Success(tname)
    else if sname.Some? then Success(tname + " " + dname.value + " " + sname.value)
    else if pname.None? || fname.None? then Failure(TypeError, NoneConcat)
    else
      var t := tname + " " + dname.value + " " + pname.value + " " + fname.value;
      Success(if ssname.Some? then t + " " + ssname.value else t)
  }

  /** A later name of a combined construct shows only under the one before
    * it: `simd` needs `taskloop` in a masked taskloop and the loop name in
    * a target parallel; `simd` after `distribute` takes the place of
    * `parallel for`. */
  lemma CombinedTextGuards(m: string, t: string, s: string, d: string, p: string, f: string)
    ensures MaskedTaskloopText(m, None, Some(s)) == m
    ensures MaskedTaskloopText(m, Some(t), Some(s)) == m + " " + t + " " + s
    ensures TargetParallelText(p, None, Some(s)) == p
    ensures DistributeCombinedText(d, Some(s), Some(p), Some(f), Some(s)) == Success(d + " " + s)
    ensures DistributeCombinedText(d, None, Some(p), Some(f), None) == Success(d + " " + p + " " + f)
    ensures DistributeCombinedText(d, None, Some(p), None, None).Failure?
    ensures TargetTeamsText(t, None, Some(s), Some(p), Some(f), Some(s)) == Success(t)
  {
  }

  /** Each combined text starts with its first name, and is exactly that
    * name when no later name is given. */
  lemma CombinedTextStartsWithFirstName(first: string, a: Option<string>, b: Option<string>, c: Option<string>)
    ensures ForSimdText(first, a)[..|first|] == first
    ensures MaskedTaskloopText(first, a, b)[..|first|] == first
    ensures TaskloopSimdText(first, a)[..|first|] == first
    ensures TargetParallelText(first, a, b)[..|first|] == first
    ensures DistributeCombinedText(first, a, b, c, None).Success? ==>
      DistributeCombinedText(first, a, b, c, None).value[..|first|] == first
    ensures ForSimdText(first, None) == first && TaskloopSimdText(first, None) == first
  {
    if a.Some? {
      assert (first + " " + a.value)[..|first|] == first;
      if b.Some? {
        assert (first + " " + a.value + " " + b.value)[..|first|] == first;
      }
    }
    if b.Some? && c.Some? {
      assert (first + " " + b.value + " " + c.value)[..|first|] == first;
    }
  }

  // -------------------------------------------------------------- constructs

  /** The node class a construct instantiates and what it passes to it:
    * the text; the text passed as the second positional argument, which
    * the base initialiser `__init__(txt, has_nowait=False, combined=None)`
    * stores as `has_nowait` (None when nothing, or None, is passed); and
    * the text passed as the `combined` keyword. This is the call and not
    * the stored `OmpNodes.Node`: there `has_nowait` is the boolean the end
    * clause passes, while a construct passes its combination's text in
    * that position, so the second argument is kept here as the text. */
  datatype OmpNode = OmpNode(cls: NodeClass, txt: string, hasNowait: Option<string>, combined: Option<string>)

  datatype ParallelCombined =
    | ForSimd(fname: string, sname: Option<string>)
    | MaskedTaskloop(mname: string, tname: Option<string>, msname: Option<string>)
    | PSections(psname: string)

  function ParallelCombinedText(c: ParallelCombined): string
  {
    match c
    case ForSimd(f, s) => ForSimdText(f, s)
    case MaskedTaskloop(m, t, s) => MaskedTaskloopText(m, t, s)
    case PSections(s) => s
  }

  /** The clauses a parallel construct accepts: a loop combination adds the
    * loop clauses and, when its text names `simd`, the simd ones; a masked
    * taskloop adds `filter` and, by what its text names, the simd and
    * taskloop clauses; parallel sections add the sections clauses. */
  function ParallelValid(combined: Option<ParallelCombined>): set<ClauseKind>
  {
    match combined
    case None => ParallelClauses
    case Some(c) =>
      var text := ParallelCombinedText(c);
      match c
      case ForSimd(_, _) =>
        ParallelClauses + LoopClauses + (if Contains(text, "simd") then SimdClauses else {})
      case MaskedTaskloop(_, _, _) =>
        ParallelClauses + {OmpFilter} + (if Contains(text, "simd") then SimdClauses else {}) +
        (if Contains(text, "taskloop") then TaskloopClauses else {})
      case PSections(_) => ParallelClauses + SectionsClauses
  }

  /** `OmpParallelConstruct` as written: the node is called as
    * `OMP_Parallel_Construct(txt, com)`, so the local `com` (the loop or
    * masked taskloop text; still None for parallel sections, whose text is
    * stored on the syntax object as `self.com`) lands in `has_nowait`, and
    * `combined` stays None. */
  function ParallelAsWritten(clauses: seq<Clause>, combined: Option<ParallelCombined>): Result<OmpNode>
  {
    var com := if combined.Some? && !combined.value.PSections? then Some(ParallelCombinedText(combined.value)) else None;
    match CheckClauses("OmpParallelConstruct", ParallelValid(combined), clauses)
    case Failure(k, m) => Failure(k, m)
    case Success(txt) => Success(OmpNode(ParallelNode, txt, com, None))
  }

  /** `#$ omp parallel for` builds a node whose `has_nowait` is `for` and
    * which has no combined construct; `#$ omp parallel sections` loses
    * `sections` altogether. */
  lemma ParallelAsWrittenDropsCombined()
    ensures ParallelAsWritten([], Some(ForSimd("for", None))) == Success(OmpNode(ParallelNode, "", Some("for"), None))
    ensures ParallelAsWritten([], Some(PSections("sections"))) == Success(OmpNode(ParallelNode, "", None, None))
  {
    assert CheckClauses("OmpParallelConstruct", ParallelValid(Some(ForSimd("for", None))), []) == Success("");
    assert CheckClauses("OmpParallelConstruct", ParallelValid(Some(PSections("sections"))), []) == Success("");
  }

  /** `OmpParallelConstruct` passing every combination's text to the node
    * as its combined construct, `OMP_Parallel_Construct(txt, combined=com)`. */
  function Parallel(clauses: seq<Clause>, combined: Option<ParallelCombined>): Result<OmpNode>
  {
    var com := if combined.Some? then Some(ParallelCombinedText(combined.value)) else None;
    match CheckClauses("OmpParallelConstruct", ParallelValid(combined), clauses)
    case Failure(k, m) => Failure(k, m)
    case Success(txt) => Success(OmpNode(ParallelNode, txt, None, com))
  }

  /** A parallel construct is accepted iff its clauses are in its allow-list;
    * the node keeps the clause text and, as its combined construct, the
    * text of whatever the construct is combined with. The version as
    * written accepts the same clauses and builds the same text, but never
    * passes a combined construct: every combination's text but that of
    * parallel sections goes to `has_nowait` instead. */
  lemma ParallelKeepsCombined(clauses: seq<Clause>, combined: Option<ParallelCombined>)
    ensures Parallel(clauses, combined).Success? <==> AllValid(ParallelValid(combined), clauses)
    ensures Parallel(clauses, combined).Success? ==>
      var n := Parallel(clauses, combined).value;
      n.txt == ClausesText(clauses) && n.hasNowait.None? &&
      (n.combined.Some? <==> combined.Some?) &&
      (combined.Some? ==> n.combined.value == ParallelCombinedText(combined.value))
    ensures ParallelAsWritten(clauses, combined).Success? <==> Parallel(clauses, combined).Success?
    ensures Parallel(clauses, combined).Success? ==>
      var w := ParallelAsWritten(clauses, combined).value;
      w.txt == Parallel(clauses, combined).value.txt && w.combined.None? &&
      w.hasNowait == (if combined.Some? && combined.value.PSections? then None else Parallel(clauses, combined).value.combined)
  {
    CheckClausesMeaning("OmpParallelConstruct", ParallelValid(combined), clauses);
  }

  /** Combining only ever widens a parallel construct's allow-list; `filter`
    * is accepted only with a masked taskloop, and `linear` with a masked
    * taskloop only when `simd` is named. */
  lemma ParallelAllowList(combined: Option<ParallelCombined>, m: string, t: Option<string>, s: Option<string>)
    ensures ParallelClauses <= ParallelValid(combined)
    ensures OmpFilter in ParallelValid(combined) <==> combined.Some? && combined.value.MaskedTaskloop?
    ensures combined.Some? && combined.value.ForSimd? ==> LoopClauses + SimdClauses <= ParallelValid(combined)
    ensures var text := MaskedTaskloopText(m, t, s);
      (OmpLinear in ParallelValid(Some(MaskedTaskloop(m, t, s))) <==> Contains(text, "simd"))
  {
  }

  datatype TaskloopSimd = TaskloopSimd(tname: string, sname: Option<string>)

  /** The clauses a masked construct accepts: `filter`, and with a taskloop
    * the taskloop clauses, plus the simd ones when `simd` is named. */
  function MaskedValid(combined: Option<TaskloopSimd>): set<ClauseKind>
  {
    if combined.None? then {OmpFilter}
    else
      var text := TaskloopSimdText(combined.value.tname, combined.value.sname);
      {OmpFilter} + (if Contains(text, "simd") then SimdClauses else {}) + TaskloopClauses
  }

  /** `OmpMaskedConstruct` as written: the taskloop's text goes to
    * `self.com`, and the node is called as `OMP_Masked_Construct(txt, com)`
    * with the local `com`, always None. */
  function MaskedAsWritten(clauses: seq<Clause>, combined: Option<TaskloopSimd>): Result<OmpNode>
  {
    match CheckClauses("OmpMaskedConstruct", MaskedValid(combined), clauses)
    case Failure(k, m) => Failure(k, m)
    case Success(txt) => Success(OmpNode(MaskedNode, txt, None, None))
  }

  /** `#$ omp masked taskloop` builds a node that has lost `taskloop`. */
  lemma MaskedTaskloopAsWrittenDropsCombined()
    ensures MaskedAsWritten([], Some(TaskloopSimd("taskloop", None))) == Success(OmpNode(MaskedNode, "", None, None))
  {
    assert CheckClauses("OmpMaskedConstruct", MaskedValid(Some(TaskloopSimd("taskloop", None))), []) == Success("");
  }

  /** `OmpMaskedConstruct` passing the taskloop's text to the node as its
    * combined construct. */
  function Masked(clauses: seq<Clause>, combined: Option<TaskloopSimd>): Result<OmpNode>
  {
    var com := if combined.Some? then Some(TaskloopSimdText(combined.value.tname, combined.value.sname)) else None;
    match CheckClauses("OmpMaskedConstruct", MaskedValid(combined), clauses)
    case Failure(k, m) => Failure(k, m)
    case Success(txt) => Success(OmpNode(MaskedNode, txt, None, com))
  }

  /** The corrected masked construct keeps the taskloop it is combined
    * with, accepts the same clauses as the version as written, and agrees
    * with it when nothing is combined. */
  lemma MaskedKeepsCombined(clauses: seq<Clause>, combined: Option<TaskloopSimd>)
    ensures Masked(clauses, combined).Success? <==> MaskedAsWritten(clauses, combined).Success?
    ensures Masked(clauses, combined).Success? ==>
      Masked(clauses, combined).value.txt == ClausesText(clauses) &&
      (Masked(clauses, combined).value.combined.Some? <==> combined.Some?) &&
      (combined.Some? ==> Masked(clauses, combined).value.combined.value[..|combined.value.tname|] == combined.value.tname)
    ensures combined.None? ==> Masked(clauses, combined) == MaskedAsWritten(clauses, combined)
  {
    CheckClausesMeaning("OmpMaskedConstruct", MaskedValid(combined), clauses);
    if combined.Some? {
      CombinedTextStartsWithFirstName(combined.value.tname, combined.value.sname, None, None);
    }
  }

  datatype TargetCombined =
    | TargetParallel(pname: string, fname: Option<string>, sname: Option<string>)
    | TargetTeams(tname: string, dname: Option<string>, tsname: Option<string>, pname': Option<string>,
                  fname': Option<string>, ssname: Option<string>)

  function TargetCombinedText(c: TargetCombined): Result<string>
  {
    match c
    case TargetParallel(p, f, s) => Success(TargetParallelText(p, f, s))
    case TargetTeams(t, d, s, p, f, ss) => TargetTeamsText(t, d, s, p, f, ss)
  }

  /** The clauses a target construct accepts, widened by the names its
    * combination's text contains. */
  function TargetValid(text: string): set<ClauseKind>
  {
    TargetClauses +
    (if Contains(text, "distribute") then DistributeClauses else {}) +
    (if Contains(text, "parallel") then ParallelClauses else {}) +
    (if Contains(text, "simd") then SimdClauses else {}) +
    (if Contains(text, "for") then LoopClauses else {}) +
    (if Contains(text, "teams") then TeamsClauses else {})
  }

  /** The loop of `OmpTargetConstruct` over its clauses, as a function: a
    * clause outside the allow-list, or `copyin` on a target parallel, is a
    * TypeError. */
  function TargetClausesText(valid: set<ClauseKind>, isTargetParallel: bool, clauses: seq<Clause>): Result<string>
  {
    if clauses == [] then Success("")
    else
      var front := clauses[..|clauses| - 1];
      var c := clauses[|clauses| - 1];
      match TargetClausesText(valid, isTargetParallel, front)
      case Failure(k, m) => Failure(k, m)
      case Success(txt) =>
        if KindOf(c) in valid && !(c.Copyin? && isTargetParallel) then Success(txt + " " + ClauseText(c))
        else Failure(TypeError, "Wrong clause for OmpTargetConstruct")
  }

  /** The loop itself. */
  method TargetClausesLoop(valid: set<ClauseKind>, isTargetParallel: bool, clauses: seq<Clause>) returns (r: Result<string>)
    ensures r == TargetClausesText(valid, isTargetParallel, clauses)
  {
    var txt := "";
    for i := 0 to |clauses|
      invariant TargetClausesText(valid, isTargetParallel, clauses[..i]) == Success(txt)
    {
      var clause := clauses[i];
      assert clauses[..i + 1][..i] == clauses[..i];
      if KindOf(clause) in valid {
        if clause.Copyin? && isTargetParallel {
          TargetFailureSticks(valid, isTargetParallel, clauses, i + 1);
          return Failure(TypeError, "Wrong clause for OmpTargetConstruct");
        }
        txt := txt + " " + ClauseText(clause);
      } else {
        TargetFailureSticks(valid, isTargetParallel, clauses, i + 1);
        return Failure(TypeError, "Wrong clause for OmpTargetConstruct");
      }
    }
    assert clauses[..|clauses|] == clauses;
    return Success(txt);
  }

  /** Once a prefix of the clauses is rejected, the whole list is. */
  lemma {:induction false} TargetFailureSticks(valid: set<ClauseKind>, isTargetParallel: bool, clauses: seq<Clause>, i: nat)
    requires i <= |clauses|
    requires TargetClausesText(valid, isTargetParallel, clauses[..i]).Failure?
    ensures TargetClausesText(valid, isTargetParallel, clauses) == TargetClausesText(valid, isTargetParallel, clauses[..i])
    decreases |clauses| - i
  {
    if i < |clauses| {
      assert clauses[..i + 1][..i] == clauses[..i];
      TargetFailureSticks(valid, isTargetParallel, clauses, i + 1);
    } else {
      assert clauses[..i] == clauses;
    }
  }

  /** The clause text `OmpTargetConstruct` builds and its local `com`, the
    * text of its combination. */
  function TargetParts(clauses: seq<Clause>, combined: Option<TargetCombined>): Result<(string, Option<string>)>
  {
    if combined.None? then
      match TargetClausesText(TargetClauses, false, clauses)
      case Failure(k, m) => Failure(k, m)
      case Success(txt) => Success((txt, None))
    else
      match TargetCombinedText(combined.value)
      case Failure(k, m) => Failure(k, m)
      case Success(text) =>
        match TargetClausesText(TargetValid(text), combined.value.TargetParallel?, clauses)
        case Failure(k, m) => Failure(k, m)
        case Success(txt) => Success((txt, Some(text)))
  }

  /** `OmpTargetConstruct` as written: `OMP_Target_Construct(txt, com)`
    * puts the combination's text in `has_nowait`. */
  function TargetAsWritten(clauses: seq<Clause>, combined: Option<TargetCombined>): Result<OmpNode>
  {
    match TargetParts(clauses, combined)
    case Failure(k, m) => Failure(k, m)
    case Success(p) => Success(OmpNode(TargetNode, p.0, p.1, None))
  }

  /** `OmpTargetConstruct` passing the combination's text to the node as its
    * combined construct. */
  function Target(clauses: seq<Clause>, combined: Option<TargetCombined>): Result<OmpNode>
  {
    match TargetParts(clauses, combined)
    case Failure(k, m) => Failure(k, m)
    case Success(p) => Success(OmpNode(TargetNode, p.0, None, p.1))
  }

  /** `#$ omp target parallel` builds a node whose `has_nowait` is
    * `parallel` and which has no combined construct. */
  lemma TargetAsWrittenDropsCombined()
    ensures TargetAsWritten([], Some(TargetParallel("parallel", None, None))) ==
      Success(OmpNode(TargetNode, "", Some("parallel"), None))
  {
  }

  /** The corrected target construct keeps its combination's text as the
    * combined construct; the version as written accepts the same clauses
    * and builds the same text, with that text in `has_nowait` instead. */
  lemma TargetKeepsCombined(clauses: seq<Clause>, combined: Option<TargetCombined>)
    ensures TargetAsWritten(clauses, combined).Success? <==> Target(clauses, combined).Success?
    ensures Target(clauses, combined).Success? ==>
      var n := Target(clauses, combined).value;
      n.hasNowait.None? &&
      (n.combined.Some? <==> combined.Some?) &&
      (combined.Some? ==> TargetCombinedText(combined.value) == Success(n.combined.value))
    ensures Target(clauses, combined).Success? ==>
      var w := TargetAsWritten(clauses, combined).value;
      w.txt == Target(clauses, combined).value.txt && w.combined.None? &&
      w.hasNowait == Target(clauses, combined).value.combined
  {
  }

  /** `copyin` is refused on `target parallel`, although the parallel
    * clauses it adds include `copyin`, and accepted on `target teams
    * distribute parallel for`; a plain target accepts no parallel clause. */
  lemma TargetCopyin(args: seq<string>)
    ensures Target([Copyin(args)], Some(TargetParallel("parallel", None, None))) ==
      Failure(TypeError, "Wrong clause for OmpTargetConstruct")
    ensures OmpCopyin in TargetValid("parallel")
    ensures Target([Copyin(args)], Some(TargetTeams("teams", Some("distribute"), None, Some("parallel"), Some("for"), None))) ==
      Success(OmpNode(TargetNode, " " + ListText("copyin", args), None, Some("teams distribute parallel for")))
    ensures Target([Copyin(args)], None).Failure?
  {
    TargetParallelCopyin(args);
    TargetTeamsCopyin(args);
    PlainTargetCopyin(args);
  }

  lemma PlainTargetCopyin(args: seq<string>)
    ensures TargetClausesText(TargetClauses, false, [Copyin(args)]).Failure?
  {
    var cl := [Copyin(args)];
    assert cl[..0] == [];
  }

  lemma TargetParallelCopyin(args: seq<string>)
    ensures Target([Copyin(args)], Some(TargetParallel("parallel", None, None))) ==
      Failure(TypeError, "Wrong clause for OmpTargetConstruct")
    ensures OmpCopyin in TargetValid("parallel")
  {
    var cl := [Copyin(args)];
    assert cl[..0] == [];
    assert TargetClausesText(TargetValid("parallel"), true, cl) == Failure(TypeError, "Wrong clause for OmpTargetConstruct");
    assert OccursAt("parallel", "parallel", 0);
  }

  lemma TeamsDistributeParallelFor()
    ensures TargetTeamsText("teams", Some("distribute"), None, Some("parallel"), Some("for"), None)
      == Success("teams distribute parallel for")
    ensures OmpCopyin in TargetValid("teams distribute parallel for")
  {
    var text := "teams distribute parallel for";
    assert OccursAt(text, "parallel", 17);
    assert "teams" + " " == "teams ";
    assert "teams " + "distribute" == "teams distribute";
    assert "teams distribute" + " " == "teams distribute ";
    assert "teams distribute " + "parallel" == "teams distribute parallel";
    assert "teams distribute parallel" + " " == "teams distribute parallel ";
    assert "teams distribute parallel " + "for" == text;
  }

  lemma TargetTeamsCopyin(args: seq<string>)
    ensures Target([Copyin(args)], Some(TargetTeams("teams", Some("distribute"), None, Some("parallel"), Some("for"), None))) ==
      Success(OmpNode(TargetNode, " " + ListText("copyin", args), None, Some("teams distribute parallel for")))
  {
    var cl := [Copyin(args)];
    var text := "teams distribute parallel for";
    assert cl[..0] == [];
    TeamsDistributeParallelFor();
    assert "" + " " + ClauseText(Copyin(args)) == " " + ListText("copyin", args);
    assert TargetClausesText(TargetValid(text), false, cl) == Success(" " + ListText("copyin", args));
  }

  datatype DistributeCombined =
    DistributeCombined(dname: string, sname: Option<string>, pname: Option<string>, fname: Option<string>,
                       ssname: Option<string>)

  /** The clauses a teams construct accepts: with a distribute combination,
    * the distribute clauses, the simd ones when `simd` is named, and the
    * parallel and loop ones when `parallel` is. */
  function TeamsValid(text: string): set<ClauseKind>
  {
    TeamsClauses + DistributeClauses + (if Contains(text, "simd") then SimdClauses else {}) +
    (if Contains(text, "parallel") then ParallelClauses + LoopClauses else {})
  }

  /** The clause text `OmpTeamsConstruct` builds and its local `com`, the
    * text of its distribute combination. */
  function TeamsParts(clauses: seq<Clause>, combined: Option<DistributeCombined>): Result<(string, Option<string>)>
  {
    if combined.None? then
      match CheckClauses("OmpTeamsConstruct", TeamsClauses, clauses)
      case Failure(k, m) => Failure(k, m)
      case Success(txt) => Success((txt, None))
    else
      var c := combined.value;
      match DistributeCombinedText(c.dname, c.sname, c.pname, c.fname, c.ssname)
      case Failure(k, m) => Failure(k, m)
      case Success(text) =>
        match CheckClauses("OmpTeamsConstruct", TeamsValid(text), clauses)
        case Failure(k, m) => Failure(k, m)
        case Success(txt) => Success((txt, Some(text)))
  }

  /** `OmpTeamsConstruct` as written: `OMP_Teams_Construct(txt, com)` puts
    * the combination's text in `has_nowait`. */
  function TeamsAsWritten(clauses: seq<Clause>, combined: Option<DistributeCombined>): Result<OmpNode>
  {
    match TeamsParts(clauses, combined)
    case Failure(k, m) => Failure(k, m)
    case Success(p) => Success(OmpNode(TeamsNode, p.0, p.1, None))
  }

  /** `OmpTeamsConstruct` passing the combination's text to the node as its
    * combined construct. */
  function Teams(clauses: seq<Clause>, combined: Option<DistributeCombined>): Result<OmpNode>
  {
    match TeamsParts(clauses, combined)
    case Failure(k, m) => Failure(k, m)
    case Success(p) => Success(OmpNode(TeamsNode, p.0, None, p.1))
  }

  /** `#$ omp teams distribute` builds a node whose `has_nowait` is
    * `distribute` and which has no combined construct. */
  lemma TeamsAsWrittenDropsCombined()
    ensures TeamsAsWritten([], Some(DistributeCombined("distribute", None, None, None, None))) ==
      Success(OmpNode(TeamsNode, "", Some("distribute"), None))
  {
    assert CheckClauses("OmpTeamsConstruct", TeamsValid("distribute"), []) == Success("");
  }

  /** The corrected teams construct differs from the version as written
    * only in where the combination's text goes. */
  lemma TeamsKeepsCombined(clauses: seq<Clause>, combined: Option<DistributeCombined>)
    ensures TeamsAsWritten(clauses, combined).Success? <==> Teams(clauses, combined).Success?
    ensures Teams(clauses, combined).Success? ==>
      var w := TeamsAsWritten(clauses, combined).value;
      Teams(clauses, combined).value.hasNowait.None? &&
      w.txt == Teams(clauses, combined).value.txt && w.combined.None? &&
      w.hasNowait == Teams(clauses, combined).value.combined
  {
  }

  /** A teams construct accepts its clauses iff they are in the allow-list
    * its combination gives, and keeps the combination's text. */
  lemma TeamsAllowList(clauses: seq<Clause>, combined: Option<DistributeCombined>)
    requires combined.Some? ==> combined.value.sname.Some? || combined.value.pname.None? || combined.value.fname.Some?
    ensures combined.Some? ==>
      var c := combined.value;
      var text := DistributeCombinedText(c.dname, c.sname, c.pname, c.fname, c.ssname);
      text.Success? &&
        (Teams(clauses, combined).Success? <==> AllValid(TeamsValid(text.value), clauses)) &&
        (Teams(clauses, combined).Success? ==> Teams(clauses, combined).value.combined == Some(text.value))
    ensures combined.None? ==> (Teams(clauses, combined).Success? <==> AllValid(TeamsClauses, clauses))
    ensures TeamsClauses <= TeamsValid("distribute")
  {
    if combined.Some? {
      var c := combined.value;
      var text := DistributeCombinedText(c.dname, c.sname, c.pname, c.fname, c.ssname);
      CheckClausesMeaning("OmpTeamsConstruct", TeamsValid(text.value), clauses);
    } else {
      CheckClausesMeaning("OmpTeamsConstruct", TeamsClauses, clauses);
    }
  }

  /** The other constructs, as parsed. */
  datatype Construct =
    | ParallelConstruct(clauses: seq<Clause>, parallelCombined: Option<ParallelCombined>)
    | LoopConstruct(clauses: seq<Clause>)
    | TaskLoopConstruct(name: string, clauses: seq<Clause>)
    | TaskConstruct(name: string, clauses: seq<Clause>)
    | SingleConstruct(name: string, clauses: seq<Clause>)
    | CriticalConstruct(name: string, clauses: seq<Clause>)
    | SimdConstruct(name: string, clauses: seq<Clause>)
    | MasterConstruct(name: string)
    | MaskedConstruct(name: string, clauses: seq<Clause>, maskedCombined: Option<TaskloopSimd>)
    | SectionsConstruct(name: string, clauses: seq<Clause>)
    | SectionConstruct(name: string)
    | DistributeConstruct(name: string, clauses: seq<Clause>)
    | BarrierConstruct(name: string)
    | TaskWaitConstruct(name: string)
    | TaskyieldConstruct(name: string)
    | FlushConstruct(name: string, clauses: seq<Clause>)
    | CancelConstruct(name: string, clauses: seq<Clause>)
    | TargetConstruct(name: string, clauses: seq<Clause>, targetCombined: Option<TargetCombined>)
    | TeamsConstruct(name: string, clauses: seq<Clause>, teamsCombined: Option<DistributeCombined>)
    | AtomicConstruct(name: string, clauses: seq<Clause>)
    | EndClause(constructs: seq<string>, simd: string, nowait: string)

  /** `name` followed by the checked clauses, in a node of class `cls`. */
  function Named(cls: NodeClass, who: string, name: string, valid: set<ClauseKind>, clauses: seq<Clause>): Result<OmpNode>
  {
    match CheckClauses(who, valid, clauses)
    case Failure(k, m) => Failure(k, m)
    case Success(txt) => Success(OmpNode(cls, name + txt, None, None))
  }

  /** `'end {constructs joined by space} {simd} {nowait}'`, where an absent
    * `simd` or `nowait` is empty. */
  function EndText(constructs: seq<string>, simd: string, nowait: string): string
  {
    "end " + Join(constructs, " ") + " " + simd + " " + nowait
  }

  /** The `expr` of each construct. The parallel, masked, target and teams
    * constructs are the corrected ones, which pass their combined text as
    * the node's combined construct. */
  function Expr(c: Construct): Result<OmpNode>
  {
    match c
    case ParallelConstruct(cl, com) => Parallel(cl, com)
    case LoopConstruct(cl) =>
      (match CheckClauses("OmpLoopConstruct", LoopClauses, cl)
       case Failure(k, m) => Failure(k, m)
       case Success(txt) => Success(OmpNode(ForLoopNode, txt, None, None)))
    case TaskLoopConstruct(n, cl) => Named(AnnotatedComment, "OmpTaskLoopConstruct", n, TaskloopClauses + {OmpinReduction}, cl)
    case TaskConstruct(n, cl) => Named(TaskNode, "OmpTaskConstruct", n, TaskClauses, cl)
    case SingleConstruct(n, cl) => Named(SingleNode, "OmpSingleConstruct", n, {OmpPrivate, OmpFirstPrivate}, cl)
    case CriticalConstruct(n, cl) => Named(CriticalNode, "OmpCriticalConstruct", n, {OmpCriticalName}, cl)
    case SimdConstruct(n, cl) => Named(AnnotatedComment, "OmpSimdConstruct", n, SimdClauses, cl)
    case MasterConstruct(n) => Success(OmpNode(MasterNode, n, None, None))
    case MaskedConstruct(_, cl, com) => Masked(cl, com)
    case SectionsConstruct(n, cl) => Named(SectionsNode, "OmpSectionsConstruct", n, SectionsClauses, cl)
    case SectionConstruct(n) => Success(OmpNode(SectionNode, n, None, None))
    case DistributeConstruct(n, cl) => Named(AnnotatedComment, "OmpDistributeConstruct", n, DistributeClauses, cl)
    case BarrierConstruct(n) => Success(OmpNode(AnnotatedComment, n, None, None))
    case TaskWaitConstruct(n) => Success(OmpNode(AnnotatedComment, n, None, None))
    case TaskyieldConstruct(n) => Success(OmpNode(AnnotatedComment, n, None, None))
    case FlushConstruct(n, cl) => Named(AnnotatedComment, "OmpFlushConstruct", n, {FlushList}, cl)
    case CancelConstruct(n, cl) => Named(CancelNode, "OmpCancelConstruct", n, {OmpCancelType}, cl)
    case TargetConstruct(_, cl, com) => Target(cl, com)
    case TeamsConstruct(_, cl, com) => Teams(cl, com)
    case AtomicConstruct(n, cl) => Named(AnnotatedComment, "OmpAtomicConstruct", n, {OmpAtomicClause, AtomicMemoryClause}, cl)
    case EndClause(cs, s, nw) => Success(OmpNode(EndNode, EndText(cs, s, nw), None, None))
  }

  /** A named construct's text is its name followed by its clauses, each
    * after a space, when every clause is allowed, and otherwise a TypeError
    * naming the first that is not. */
  lemma NamedText(cls: NodeClass, who: string, name: string, valid: set<ClauseKind>, cl: seq<Clause>)
    ensures Named(cls, who, name, valid, cl).Success? <==> AllValid(valid, cl)
    ensures AllValid(valid, cl) ==> Named(cls, who, name, valid, cl) == Success(OmpNode(cls, name + ClausesText(cl), None, None))
    ensures !AllValid(valid, cl) ==>
      Named(cls, who, name, valid, cl) == Failure(TypeError, WrongClause(who, cl[FirstInvalid(valid, cl)]))
  {
    CheckClausesMeaning(who, valid, cl);
  }

  /** A single construct reads `single` and its `private`/`firstprivate`
    * clauses; any other clause after them is refused by name. */
  lemma SingleConstructText(cl: seq<Clause>, other: Clause)
    requires AllValid({OmpPrivate, OmpFirstPrivate}, cl)
    requires !other.Private? && !other.FirstPrivate?
    ensures Expr(SingleConstruct("single", cl)) == Success(OmpNode(SingleNode, "single" + ClausesText(cl), None, None))
    ensures Expr(SingleConstruct("single", cl + [other])) == Failure(TypeError, WrongClause("OmpSingleConstruct", other))
  {
    var valid := {OmpPrivate, OmpFirstPrivate};
    SingleRefuses(cl, other, valid);
    NamedText(SingleNode, "OmpSingleConstruct", "single", valid, cl);
  }

  lemma SingleRefuses(cl: seq<Clause>, other: Clause, valid: set<ClauseKind>)
    requires valid == {OmpPrivate, OmpFirstPrivate}
    requires AllValid(valid, cl) && KindOf(other) !in valid
    ensures Named(SingleNode, "OmpSingleConstruct", "single", valid, cl + [other]) ==
      Failure(TypeError, WrongClause("OmpSingleConstruct", other))
  {
    var cl' := cl + [other];
    assert !AllValid(valid, cl') by {
      assert KindOf(cl'[|cl|]) !in valid;
    }
    FirstInvalidAt(valid, cl', |cl|);
    NamedText(SingleNode, "OmpSingleConstruct", "single", valid, cl');
  }

  /** The loop construct's text is its clauses alone, without a name. */
  lemma LoopConstructText(cl: seq<Clause>)
    requires AllValid(LoopClauses, cl)
    ensures Expr(LoopConstruct(cl)) == Success(OmpNode(ForLoopNode, ClausesText(cl), None, None))
  {
    CheckClausesMeaning("OmpLoopConstruct", LoopClauses, cl);
  }

  /** An end directive reads `end`, the constructs it closes, then the
    * `simd` and `nowait` slots, each after one space even when empty. */
  lemma EndTextLayout(constructs: seq<string>, simd: string, nowait: string)
    ensures var t := EndText(constructs, simd, nowait);
      t[..4] == "end " && t[|t| - |nowait|..] == nowait &&
      |t| == 6 + |Join(constructs, " ")| + |simd| + |nowait|
    ensures EndText(["parallel"], "", "") == "end parallel  "
    ensures EndText(["do"], "", "nowait") == "end do  nowait"
  {
  }

  // ------------------------------------------------------------------- parse

  /** A statement of the parsed model: an OpenMP statement, or anything
    * else the grammar yields. */
  datatype Statement = OpenmpStmt(stmt: Construct) | OtherStatement

  /** What `parse` returns: one node unwrapped, or a list. */
  datatype Parsed = Single(node: OmpNode) | Several(nodes: seq<OmpNode>)

  /** The nodes of the OpenMP statements, in order; the first construct
    * that fails makes the whole parse fail. */
  function Nodes(stmts: seq<Statement>): Result<seq<OmpNode>>
  {
    if stmts == [] then Success([])
    else
      match Nodes(stmts[..|stmts| - 1])
      case Failure(k, m) => Failure(k, m)
      case Success(ns) =>
        var s := stmts[|stmts| - 1];
        if s.OtherStatement? then Success(ns)
        else
          match Expr(s.stmt)
          case Failure(k, m) => Failure(k, m)
          case Success(n) => Success(ns + [n])
  }

  /** `parse(filename, stmts)`, given what the grammar yields for the file
    * or the text: an empty or absent source is a ValueError. */
  function Parse(filename: Option<string>, text: Option<string>, model: seq<Statement>): Result<Parsed>
  {
    if (filename.None? || filename.value == "") && (text.None? || text.value == "") then
      Failure(ValueError, "Expecting a filename or a string")
    else
      match Nodes(model)
      case Failure(k, m) => Failure(k, m)
      case Success(ns) => Success(if |ns| == 1 then Single(ns[0]) else Several(ns))
  }

  function OmpCount(stmts: seq<Statement>): nat
  {
    if stmts == [] then 0
    else OmpCount(stmts[..|stmts| - 1]) + (if stmts[|stmts| - 1].OpenmpStmt? then 1 else 0)
  }

  /** The loop of `parse` over the model's statements. */
  method CollectNodes(stmts: seq<Statement>) returns (r: Result<seq<OmpNode>>)
    ensures r == Nodes(stmts)
  {
    var nodes: seq<OmpNode> := [];
    for i := 0 to |stmts|
      invariant Nodes(stmts[..i]) == Success(nodes)
    {
      assert stmts[..i + 1][..i] == stmts[..i];
      var s := stmts[i];
      if s.OpenmpStmt? {
        var e := Expr(s.stmt);
        if e.Failure? {
          NodesFailureSticks(stmts, i + 1);
          return Failure(e.kind, e.msg);
        }
        nodes := nodes + [e.value];
      }
    }
    assert stmts[..|stmts|] == stmts;
    return Success(nodes);
  }

  lemma {:induction false} NodesFailureSticks(stmts: seq<Statement>, i: nat)
    requires i <= |stmts| && Nodes(stmts[..i]).Failure?
    ensures Nodes(stmts) == Nodes(stmts[..i])
    decreases |stmts| - i
  {
    if i < |stmts| {
      assert stmts[..i + 1][..i] == stmts[..i];
      NodesFailureSticks(stmts, i + 1);
    } else {
      assert stmts[..i] == stmts;
    }
  }

  lemma {:induction false} NodesCount(stmts: seq<Statement>)
    ensures Nodes(stmts).Success? ==> |Nodes(stmts).value| == OmpCount(stmts)
  {
    if stmts != [] {
      NodesCount(stmts[..|stmts| - 1]);
    }
  }

  /** A parse with a source gives one node per OpenMP statement, in order,
    * and returns it unwrapped when there is exactly one; a parse without a
    * source fails with ValueError whatever the model holds. */
  lemma ParseShape(filename: Option<string>, text: Option<string>, model: seq<Statement>)
    ensures (filename.None? || filename.value == "") && (text.None? || text.value == "") ==>
      Parse(filename, text, model) == Failure(ValueError, "Expecting a filename or a string")
    ensures var r := Parse(filename, text, model);
      r.Success? ==>
        (r.value.Single? <==> OmpCount(model) == 1) &&
        (r.value.Several? ==> |r.value.nodes| == OmpCount(model))
    ensures Parse(Some("f"), None, [OpenmpStmt(BarrierConstruct("barrier"))]) ==
      Success(Single(OmpNode(AnnotatedComment, "barrier", None, None)))
  {
    NodesCount(model);
    var one := [OpenmpStmt(BarrierConstruct("barrier"))];
    assert one[..0] == [];
  }
}
