/** The naming, dispatch-flag and converter logic of the C-API wrapper
  * printer (pyccel/codegen/printing/cwrappercode.py). The printer keeps the
  * names it has handed out, the wrapper name of each function and a cache of
  * argument converters across calls. */
module CWrapperPrinter {
  import opened Wrappers
  import ArrayOperands

  /** What the printer knows of a C argument. */
  datatype CArg = CArg(
    name: string,
    dtype: string,
    precision: nat,
    rank: nat,
    order: Option<string>,
    isOptional: bool,
    isPointer: bool,
    isNdarray: bool)
  {
    function Key(): (string, nat) { (dtype, precision) }
  }

  // ------------------------------------------------------------------ names

  /** The names tried after a collision, `prefix_1`, `prefix_2`, ...: the
    * incrementing string generator of pyccel/ast/core.py is not part of this
    * model, so only the prefix and freshness of its result are relied on. */
  function Candidate(prefix: string, k: nat): string
  {
    prefix + "_" + NatToString(k)
  }

  lemma CandidateInjective(prefix: string, j: nat, k: nat)
    requires Candidate(prefix, j) == Candidate(prefix, k)
    ensures j == k
  {
    var n := |prefix| + 1;
    assert Candidate(prefix, j)[n..] == NatToString(j);
    assert Candidate(prefix, k)[n..] == NatToString(k);
    NatToStringInjective(j, k);
  }

  lemma {:induction false} CandidatesCard(prefix: string, n: nat)
    ensures |set k | 1 <= k <= n :: Candidate(prefix, k)| == n
    decreases n
  {
    if n > 0 {
      CandidatesCard(prefix, n - 1);
      var before := set k | 1 <= k <= n - 1 :: Candidate(prefix, k);
      var after := set k | 1 <= k <= n :: Candidate(prefix, k);
      assert after == before + {Candidate(prefix, n)};
      if Candidate(prefix, n) in before {
        var k :| 1 <= k <= n - 1 && Candidate(prefix, k) == Candidate(prefix, n);
        CandidateInjective(prefix, k, n);
      }
    }
  }

  // ---------------------------------------------------------- dispatch flags

  /** `set_flag_value(flag, variable)`: shift the flag by four bits and add
    * the registry code of the argument's (dtype, precision); an unknown pair
    * raises NotImplementedError. */
  function SetFlagValue(flag: int, arg: CArg, flags: map<(string, nat), int>): (r: Result<int>)
    ensures r.Success? <==> arg.Key() in flags
    ensures r.Success? ==> r.value == 16 * flag + flags[arg.Key()]
  {
    if arg.Key() in flags then Success(flag * 16 + flags[arg.Key()])
    else Failure(NotImplementedError, "datatype not implemented as arguments : " + arg.dtype)
  }

  /** The dispatch key of one overload: `set_flag_value` folded over its
    * arguments from 0. */
  function DispatchKey(args: seq<CArg>, flags: map<(string, nat), int>): Result<int>
  {
    if args == [] then Success(0)
    else
      match DispatchKey(args[..|args| - 1], flags)
      case Failure(k, m) => Failure(k, m)
      case Success(f) => SetFlagValue(f, args[|args| - 1], flags)
  }

  /** The registry code of each argument, when all are known. */
  function Codes(args: seq<CArg>, flags: map<(string, nat), int>): (r: seq<int>)
    requires forall k :: 0 <= k < |args| ==> args[k].Key() in flags
    ensures |r| == |args| && forall k :: 0 <= k < |args| ==> r[k] == flags[args[k].Key()]
  {
    if args == [] then [] else Codes(args[..|args| - 1], flags) + [flags[args[|args| - 1].Key()]]
  }

  function Pow16(e: nat): (r: nat)
    ensures r >= 1
  {
    if e == 0 then 1 else 16 * Pow16(e - 1)
  }

  /** The left fold `(flag << 4) + code`. */
  function FlagFold(codes: seq<int>): int
  {
    if codes == [] then 0 else 16 * FlagFold(codes[..|codes| - 1]) + codes[|codes| - 1]
  }

  /** What the type-check function accumulates: `code << 4*(n-1-i)` for the
    * argument at position `i`. */
  function ShiftSum(codes: seq<int>): int
  {
    if codes == [] then 0 else codes[0] * Pow16(|codes| - 1) + ShiftSum(codes[1..])
  }

  lemma {:induction false} ShiftSumSnoc(codes: seq<int>, c: int)
    ensures ShiftSum(codes + [c]) == 16 * ShiftSum(codes) + c
    decreases |codes|
  {
    if codes == [] {
      assert ShiftSum([c]) == c * Pow16(0) + ShiftSum([]);
    } else {
      var all := codes + [c];
      assert all[0] == codes[0] && all[1..] == codes[1..] + [c];
      ShiftSumSnoc(codes[1..], c);
      var p := Pow16(|codes| - 1);
      assert Pow16(|all| - 1) == 16 * p;
      calc {
        ShiftSum(all);
        codes[0] * (16 * p) + ShiftSum(codes[1..] + [c]);
        codes[0] * (16 * p) + 16 * ShiftSum(codes[1..]) + c;
        { assert codes[0] * (16 * p) == 16 * (codes[0] * p); }
        16 * (codes[0] * p + ShiftSum(codes[1..])) + c;
      }
    }
  }

  /** The key an overload is dispatched on and the sum the type-check
    * function builds agree, whatever the codes. */
  lemma {:induction false} FoldIsShiftSum(codes: seq<int>)
    ensures FlagFold(codes) == ShiftSum(codes)
    decreases |codes|
  {
    if codes != [] {
      var front := codes[..|codes| - 1];
      FoldIsShiftSum(front);
      ShiftSumSnoc(front, codes[|codes| - 1]);
      assert front + [codes[|codes| - 1]] == codes;
    }
  }

  lemma {:induction false} FlagFoldNonNegative(codes: seq<int>)
    requires forall k :: 0 <= k < |codes| ==> 0 <= codes[k]
    ensures FlagFold(codes) >= 0
    decreases |codes|
  {
    if codes != [] {
      FlagFoldNonNegative(codes[..|codes| - 1]);
    }
  }

  lemma DivMod16(x: int, r: int)
    requires 0 <= r < 16
    ensures (16 * x + r) / 16 == x && (16 * x + r) % 16 == r
  {
  }

  /** With four-bit codes, overloads whose argument types differ get
    * different keys. */
  lemma {:induction false} FlagFoldInjective(a: seq<int>, b: seq<int>)
    requires |a| == |b|
    requires forall k :: 0 <= k < |a| ==> 0 <= a[k] < 16
    requires forall k :: 0 <= k < |b| ==> 0 <= b[k] < 16
    requires FlagFold(a) == FlagFold(b)
    ensures a == b
    decreases |a|
  {
    if a != [] {
      var n := |a| - 1;
      DivMod16(FlagFold(a[..n]), a[n]);
      DivMod16(FlagFold(b[..n]), b[n]);
      FlagFoldInjective(a[..n], b[..n]);
      assert a == a[..n] + [a[n]] && b == b[..n] + [b[n]];
    }
  }

  /** `DispatchKey` is the fold of the argument codes, and fails exactly when
    * an argument's type has no code. */
  lemma DispatchKeyIsFold(args: seq<CArg>, flags: map<(string, nat), int>)
    ensures DispatchKey(args, flags).Success? <==> forall k :: 0 <= k < |args| ==> args[k].Key() in flags
    ensures DispatchKey(args, flags).Success? ==>
      DispatchKey(args, flags).value == FlagFold(Codes(args, flags))
  {
    DispatchKeyFails(args, flags);
    if forall k :: 0 <= k < |args| ==> args[k].Key() in flags {
      DispatchKeyValue(args, flags);
    }
  }

  lemma {:induction false} DispatchKeyValue(args: seq<CArg>, flags: map<(string, nat), int>)
    requires forall k :: 0 <= k < |args| ==> args[k].Key() in flags
    ensures DispatchKey(args, flags) == Success(FlagFold(Codes(args, flags)))
    decreases |args|
  {
    if args != [] {
      var n := |args| - 1;
      var front := args[..n];
      CodesLast(args, front, flags);
      DispatchKeyValue(front, flags);
      FlagFoldSnoc(Codes(front, flags), flags[args[n].Key()]);
      assert DispatchKey(args, flags) == SetFlagValue(FlagFold(Codes(front, flags)), args[n], flags);
    }
  }

  lemma CodesLast(args: seq<CArg>, front: seq<CArg>, flags: map<(string, nat), int>)
    requires args != [] && front == args[..|args| - 1]
    requires forall k :: 0 <= k < |args| ==> args[k].Key() in flags
    ensures forall k :: 0 <= k < |front| ==> front[k].Key() in flags
    ensures Codes(args, flags) == Codes(front, flags) + [flags[args[|args| - 1].Key()]]
  {
  }

  lemma FlagFoldSnoc(codes: seq<int>, c: int)
    ensures FlagFold(codes + [c]) == 16 * FlagFold(codes) + c
  {
    assert (codes + [c])[..|codes|] == codes;
  }

  lemma {:induction false} DispatchKeyFails(args: seq<CArg>, flags: map<(string, nat), int>)
    ensures DispatchKey(args, flags).Failure? <==> exists k :: 0 <= k < |args| && args[k].Key() !in flags
    decreases |args|
  {
    if args != [] {
      var n := |args| - 1;
      var front := args[..n];
      assert forall k :: 0 <= k < n ==> front[k] == args[k];
      DispatchKeyFails(front, flags);
      if DispatchKey(front, flags).Failure? {
        var k :| 0 <= k < n && front[k].Key() !in flags;
        assert args[k].Key() !in flags;
      } else if args[n].Key() in flags {
        assert forall k :: 0 <= k < n ==> args[k].Key() in flags;
      }
    }
  }

  // ------------------------------------------------------- interface check

  /** One test of the type-check function: a C type and the flag it adds. */
  datatype Branch = Branch(ctype: string, flag: int)

  /** The tests for one Python argument and the TypeError text that ends
    * them. */
  datatype ArgCheck = ArgCheck(branches: seq<Branch>, message: string)

  function TypesOf(bs: seq<Branch>): (r: seq<string>)
    ensures |r| == |bs| && forall k :: 0 <= k < |bs| ==> r[k] == bs[k].ctype
  {
    if bs == [] then [] else TypesOf(bs[..|bs| - 1]) + [bs[|bs| - 1].ctype]
  }

  /** The tests for one argument at shift `shift`: each candidate's C type
    * once, in first-occurrence order, with `code << 4*shift`. */
  function ArgBranches(cands: seq<CArg>, shift: nat, ctypes: map<(string, nat), string>,
                       flags: map<(string, nat), int>): Result<seq<Branch>>
  {
    if cands == [] then Success([])
    else
      match ArgBranches(cands[..|cands| - 1], shift, ctypes, flags)
      case Failure(k, m) => Failure(k, m)
      case Success(bs) =>
        var c := cands[|cands| - 1];
        if c.Key() !in ctypes then Failure(KeyError, c.dtype)
        else if ctypes[c.Key()] in TypesOf(bs) then Success(bs)
        else
          match SetFlagValue(0, c, flags)
          case Failure(k, m) => Failure(k, m)
          case Success(code) => Success(bs + [Branch(ctypes[c.Key()], code * Pow16(shift))])
  }

  /** Each C type is checked once. */
  lemma {:induction false} ArgBranchesDistinct(cands: seq<CArg>, shift: nat, ctypes: map<(string, nat), string>,
                                               flags: map<(string, nat), int>)
    requires ArgBranches(cands, shift, ctypes, flags).Success?
    ensures var bs := ArgBranches(cands, shift, ctypes, flags).value;
      forall i, j :: 0 <= i < j < |bs| ==> bs[i].ctype != bs[j].ctype
    decreases |cands|
  {
    if cands != [] {
      var front := cands[..|cands| - 1];
      ArgBranchesDistinct(front, shift, ctypes, flags);
      var bs := ArgBranches(front, shift, ctypes, flags).value;
      var c := cands[|cands| - 1];
      if ctypes[c.Key()] !in TypesOf(bs) {
        var all := ArgBranches(cands, shift, ctypes, flags).value;
        assert all == bs + [Branch(ctypes[c.Key()], flags[c.Key()] * Pow16(shift))];
        forall i, j | 0 <= i < j < |all|
          ensures all[i].ctype != all[j].ctype
        {
          if j == |bs| {
            assert TypesOf(bs)[i] == all[i].ctype;
          }
        }
      }
    }
  }

  /** Every candidate's C type is checked. */
  lemma {:induction false} ArgBranchesCover(cands: seq<CArg>, shift: nat, ctypes: map<(string, nat), string>,
                                            flags: map<(string, nat), int>)
    requires ArgBranches(cands, shift, ctypes, flags).Success?
    ensures var bs := ArgBranches(cands, shift, ctypes, flags).value;
      forall k :: 0 <= k < |cands| ==> cands[k].Key() in ctypes && ctypes[cands[k].Key()] in TypesOf(bs)
    decreases |cands|
  {
    if cands != [] {
      var front := cands[..|cands| - 1];
      ArgBranchesCover(front, shift, ctypes, flags);
      var bs := ArgBranches(front, shift, ctypes, flags).value;
      var all := ArgBranches(cands, shift, ctypes, flags).value;
      var c := cands[|cands| - 1];
      assert forall k :: 0 <= k < |front| ==> front[k] == cands[k];
      if ctypes[c.Key()] !in TypesOf(bs) {
        assert all == bs + [Branch(ctypes[c.Key()], flags[c.Key()] * Pow16(shift))];
        assert TypesOf(all) == TypesOf(bs) + [ctypes[c.Key()]];
      }
    }
  }

  /** Each test adds the code of a candidate's type, shifted to the
    * argument's position. */
  lemma {:induction false} ArgBranchesFlags(cands: seq<CArg>, shift: nat, ctypes: map<(string, nat), string>,
                                            flags: map<(string, nat), int>)
    requires ArgBranches(cands, shift, ctypes, flags).Success?
    ensures var bs := ArgBranches(cands, shift, ctypes, flags).value;
      forall i :: 0 <= i < |bs| ==> exists k :: 0 <= k < |cands| && IsBranchOf(bs[i], cands[k], shift, ctypes, flags)
    decreases |cands|
  {
    if cands != [] {
      var front := cands[..|cands| - 1];
      ArgBranchesFlags(front, shift, ctypes, flags);
      var bs := ArgBranches(front, shift, ctypes, flags).value;
      var all := ArgBranches(cands, shift, ctypes, flags).value;
      var c := cands[|cands| - 1];
      forall i | 0 <= i < |all|
        ensures exists k :: 0 <= k < |cands| && IsBranchOf(all[i], cands[k], shift, ctypes, flags)
      {
        if i < |bs| {
          assert all[i] == bs[i];
          var k :| 0 <= k < |front| && IsBranchOf(bs[i], front[k], shift, ctypes, flags);
          assert front[k] == cands[k];
        } else {
          assert all == bs + [Branch(ctypes[c.Key()], flags[c.Key()] * Pow16(shift))];
          assert IsBranchOf(all[i], cands[|cands| - 1], shift, ctypes, flags);
        }
      }
    }
  }

  predicate IsBranchOf(b: Branch, c: CArg, shift: nat, ctypes: map<(string, nat), string>, flags: map<(string, nat), int>)
  {
    c.Key() in ctypes && c.Key() in flags && b == Branch(ctypes[c.Key()], flags[c.Key()] * Pow16(shift))
  }

  /** The tests and error text for the argument at position `i` of `n`. */
  function CheckFor(name: string, cands: seq<CArg>, shift: nat, ctypes: map<(string, nat), string>,
                    flags: map<(string, nat), int>): Result<ArgCheck>
  {
    match ArgBranches(cands, shift, ctypes, flags)
    case Failure(k, m) => Failure(k, m)
    case Success(bs) => Success(ArgCheck(bs, "\"" + name + " must be (" + Join(TypesOf(bs), " or ") + ")\""))
  }

  /** The argument checks for parameters `0..i` of `n`. */
  function ChecksUpTo(typeDict: seq<seq<CArg>>, i: nat, ctypes: map<(string, nat), string>,
                      flags: map<(string, nat), int>): Result<seq<ArgCheck>>
    requires i <= |typeDict|
  {
    if i == 0 then Success([])
    else
      match ChecksUpTo(typeDict, i - 1, ctypes, flags)
      case Failure(k, m) => Failure(k, m)
      case Success(cs) =>
        var cands := typeDict[i - 1];
        if cands == [] then Failure(IndexError, "list index out of range")
        else
          match CheckFor(cands[0].name, cands, |typeDict| - i, ctypes, flags)
          case Failure(k, m) => Failure(k, m)
          case Success(c) => Success(cs + [c])
  }

  // -------------------------------------------------------- converter names

  function ReplaceSpaces(s: string): (r: string)
    ensures |r| == |s| && forall k :: 0 <= k < |s| ==> r[k] == (if s[k] == ' ' then '_' else s[k])
  {
    if s == [] then [] else [if s[0] == ' ' then '_' else s[0]] + ReplaceSpaces(s[1..])
  }

  /** The name `generate_converter_function_name` requests before making it
    * unique: `py_to_`, `o_` for an optional argument, the C type with spaces
    * turned into `_`, the precision, `_rank` for an array and `_order` when
    * an order is set. */
  function ConverterBaseName(arg: CArg, ctype: string): string
  {
    "py_to_" + (if arg.isOptional then "o_" else "") + ReplaceSpaces(ctype) + NatToString(arg.precision)
      + (if arg.rank < 1 then "" else "_" + NatToString(arg.rank))
      + (match arg.order case None => "" case Some(o) => "_" + o)
  }

  /** The requested name starts with `py_to_`, and the C type appears in it
    * with no space left; optional arguments are marked right after the
    * prefix. */
  lemma ConverterBaseNameShape(arg: CArg, ctype: string)
    ensures var n := ConverterBaseName(arg, ctype);
      n[..6] == "py_to_" &&
      (arg.isOptional ==> n[6..8] == "o_") &&
      var start := if arg.isOptional then 8 else 6;
      |n| >= start + |ctype| && n[start..start + |ctype|] == ReplaceSpaces(ctype) &&
      forall k :: start <= k < start + |ctype| ==> n[k] != ' '
  {
    var n := ConverterBaseName(arg, ctype);
    var opt := if arg.isOptional then "o_" else "";
    var head := "py_to_" + opt + ReplaceSpaces(ctype);
    PrefixOfName(head, NatToString(arg.precision), if arg.rank < 1 then "" else "_" + NatToString(arg.rank),
                 match arg.order case None => "" case Some(o) => "_" + o);
    assert n[..|head|] == head;
    assert head[..6] == "py_to_";
    if arg.isOptional {
      assert head[6..8] == "o_";
    }
    var start := |"py_to_" + opt|;
    assert head[start..] == ReplaceSpaces(ctype);
  }

  /** The name's text before the precision. */
  lemma PrefixOfName(head: string, a: string, b: string, c: string)
    ensures |head + a + b + c| >= |head| && (head + a + b + c)[..|head|] == head
  {
  }

  // ---------------------------------------------------- argument management

  /** A statement releasing an argument. */
  datatype FreeStmt = Deallocate(arg: string) | Free(arg: string)

  /** `need_free(variable)`. */
  predicate NeedFree(arg: CArg, target: string)
  {
    arg.isOptional || (arg.rank > 0 && target == "c")
  }

  /** `get_free_statements(variable)`: deallocation of a C array, then the
    * `free` of an optional argument's storage. */
  function FreeStatements(arg: CArg, target: string): (r: seq<FreeStmt>)
    ensures r == [] <==> !NeedFree(arg, target)
    ensures |r| <= 2
    ensures Free(arg.name) in r <==> arg.isOptional
    ensures Deallocate(arg.name) in r <==> arg.rank > 0 && target == "c"
    ensures |r| == 2 ==> r == [Deallocate(arg.name), Free(arg.name)]
  {
    (if arg.rank > 0 && target == "c" then [Deallocate(arg.name)] else [])
      + (if arg.isOptional then [Free(arg.name)] else [])
  }

  /** `get_declare_type(variable)` as written: a non-ndarray array reports
    * `PYCCEL_RESTRICTION_TODO`, a name the module does not import, so the
    * lookup of that name raises NameError before any report is made. */
  function DeclareTypeAsWritten(arg: CArg, ctypes: map<(string, nat), string>): Result<string>
  {
    if arg.Key() !in ctypes then Failure(KeyError, arg.dtype)
    else if arg.rank > 0 && !arg.isNdarray then Failure(NameError, "name 'PYCCEL_RESTRICTION_TODO' is not defined")
    else DeclareType(arg, ctypes)
  }

  /** `get_declare_type(variable)` with the restriction imported: the C
    * type, `t_ndarray` for an array, then `**` for an optional pointer, `*`
    * for a pointer or an optional, nothing otherwise; a non-ndarray array
    * is a fatal report. */
  function DeclareType(arg: CArg, ctypes: map<(string, nat), string>): (r: Result<string>)
    ensures r.Success? <==> arg.Key() in ctypes && (arg.rank > 0 ==> arg.isNdarray)
    ensures r.Failure? && arg.Key() in ctypes ==> r == Failure(FatalReport, "rank > 0")
    ensures r.Success? ==>
      var base := if arg.rank > 0 then "t_ndarray" else ctypes[arg.Key()];
      r.value == base + (if arg.isPointer && arg.isOptional then " **"
                         else if arg.isPointer || arg.isOptional then " *" else " ")
  {
    if arg.Key() !in ctypes then Failure(KeyError, arg.dtype)
    else
      var dtype := if arg.rank > 0 then "t_ndarray" else ctypes[arg.Key()];
      if arg.rank > 0 && !arg.isNdarray then Failure(FatalReport, "rank > 0")
      else if arg.isPointer && arg.isOptional then Success(dtype + " **")
      else if arg.isPointer || arg.isOptional then Success(dtype + " *")
      else Success(dtype + " ")
  }

  /** The two agree except on a registered array that is not an ndarray,
    * where the code as written raises NameError instead of the fatal
    * report: a C `double` matrix passed as a plain pointer shows it. */
  lemma DeclareTypeAsWrittenNameError(arg: CArg, ctypes: map<(string, nat), string>)
    ensures arg.Key() in ctypes && arg.rank > 0 && !arg.isNdarray ==>
      DeclareTypeAsWritten(arg, ctypes).kind == NameError && DeclareType(arg, ctypes).kind == FatalReport
    ensures !(arg.Key() in ctypes && arg.rank > 0 && !arg.isNdarray) ==>
      DeclareTypeAsWritten(arg, ctypes) == DeclareType(arg, ctypes)
    ensures var m := CArg("x", "float", 8, 2, None, false, true, false);
      DeclareTypeAsWritten(m, map[("float", 8) := "double"]).Failure? &&
      DeclareTypeAsWritten(m, map[("float", 8) := "double"]).kind == NameError
  {
  }

  function StarCount(s: string): nat
  {
    if s == [] then 0 else (if s[0] == '*' then 1 else 0) + StarCount(s[1..])
  }

  lemma StarCountAppend(a: string, b: string)
    ensures StarCount(a + b) == StarCount(a) + StarCount(b)
  {
    if a == [] {
      assert a + b == b;
    } else {
      assert (a + b)[0] == a[0] && (a + b)[1..] == a[1..] + b;
      StarCountAppend(a[1..], b);
    }
  }

  /** The declared type adds one level of indirection per pointer or
    * optional flag, two when both are set. */
  lemma DeclareTypeIndirection(arg: CArg, ctypes: map<(string, nat), string>)
    requires DeclareType(arg, ctypes).Success?
    requires arg.rank == 0 ==> StarCount(ctypes[arg.Key()]) == 0
    ensures StarCount(DeclareType(arg, ctypes).value) ==
      (if arg.isPointer && arg.isOptional then 2 else if arg.isPointer || arg.isOptional then 1 else 0)
  {
    var base := if arg.rank > 0 then "t_ndarray" else ctypes[arg.Key()];
    assert StarCount("t_ndarray") == 0;
    StarCountAppend(base, " **");
    StarCountAppend(base, " *");
    StarCountAppend(base, " ");
  }

  /** An argument of the static call. */
  datatype StaticArg = Whole(arg: string) | ArrayDim(arg: string, axis: nat) | ArrayData(arg: string)

  /** `get_static_args(argument)`: a Fortran array is passed as its sizes
    * followed by its data buffer; anything else is passed as is. */
  function StaticArgs(arg: CArg, target: string): (r: seq<StaticArg>)
    ensures target == "fortran" && arg.rank > 0 ==>
      |r| == arg.rank + 1 && r[arg.rank] == ArrayData(arg.name) &&
      forall i :: 0 <= i < arg.rank ==> r[i] == ArrayDim(arg.name, i)
    ensures !(target == "fortran" && arg.rank > 0) ==> r == [Whole(arg.name)]
  {
    if target == "fortran" && arg.rank > 0 then Dims(arg.name, arg.rank) + [ArrayData(arg.name)]
    else [Whole(arg.name)]
  }

  function Dims(name: string, n: nat): (r: seq<StaticArg>)
    ensures |r| == n && forall i :: 0 <= i < n ==> r[i] == ArrayDim(name, i)
  {
    if n == 0 then [] else Dims(name, n - 1) + [ArrayDim(name, n - 1)]
  }

  // ----------------------------------------------------- converter functions

  /** The checks at the head of a converter, in order. */
  datatype Section =
    | FreeOnNull(frees: seq<FreeStmt>)
    | NoneIsSuccess
    | ArrayCheck
    | ScalarTypeCheck

  /** What a converter returns on success. */
  datatype SuccessCode = CleanupSupported | One

  datatype Converter = Converter(
    name: string,
    cast: string,
    checks: seq<Section>,
    allocates: bool,
    onSuccess: SuccessCode)

  /** `generate_converter_function`: release on a NULL object when the
    * argument needs freeing, succeed at once on `None` for an optional
    * argument, then the type checks (arrays always, scalars only outside an
    * interface, whose dispatcher has checked them). */
  function GenerateConverter(name: string, cast: string, arg: CArg, isInterface: bool, target: string): Converter
  {
    var free := if NeedFree(arg, target) then [FreeOnNull(FreeStatements(arg, target) )] else [];
    var none := if arg.isOptional then [NoneIsSuccess] else [];
    var check := if arg.rank > 0 then [ArrayCheck] else if !isInterface then [ScalarTypeCheck] else [];
    Converter(name, cast, free + none + check, arg.isOptional,
              if NeedFree(arg, target) then CleanupSupported else One)
  }

  predicate IsTypeCheck(s: Section)
  {
    s.ArrayCheck? || s.ScalarTypeCheck?
  }

  /** An optional argument given `None` is accepted before any type check,
    * so `f()` and `f(None)` both reach the function. */
  lemma NoneBeforeTypeChecks(name: string, cast: string, arg: CArg, isInterface: bool, target: string)
    requires arg.isOptional
    ensures var c := GenerateConverter(name, cast, arg, isInterface, target);
      exists i :: 0 <= i < |c.checks| && c.checks[i] == NoneIsSuccess &&
        forall j :: 0 <= j < |c.checks| && IsTypeCheck(c.checks[j]) ==> i < j
  {
    var c := GenerateConverter(name, cast, arg, isInterface, target);
    var i := if NeedFree(arg, target) then 1 else 0;
    assert c.checks[i] == NoneIsSuccess;
  }

  /** A converter checks an argument's type exactly when it is an array or
    * not part of an interface. */
  lemma ConverterChecksType(name: string, cast: string, arg: CArg, isInterface: bool, target: string)
    ensures var c := GenerateConverter(name, cast, arg, isInterface, target);
      (exists j :: 0 <= j < |c.checks| && IsTypeCheck(c.checks[j])) <==> (arg.rank > 0 || !isInterface)
  {
    var c := GenerateConverter(name, cast, arg, isInterface, target);
    if arg.rank > 0 || !isInterface {
      assert IsTypeCheck(c.checks[|c.checks| - 1]);
    }
  }

  /** The function that moves a Python object into the argument:
    * `pyarray_to_f_ndarray`/`pyarray_to_c_ndarray` for arrays, otherwise
    * the registered scalar cast (an unknown one raises NotImplementedError). */
  function CastFunction(arg: CArg, target: string, casts: map<(string, nat), string>): Result<string>
  {
    if arg.rank > 0 then
      Success(if target == "fortran" then "pyarray_to_f_ndarray" else "pyarray_to_c_ndarray")
    else if arg.Key() in casts then Success(casts[arg.Key()])
    else Failure(NotImplementedError, "parser not implemented for this datatype : " + arg.dtype)
  }

  // ------------------------------------------------------------ the printer

  class Printer {
    /** `_function_wrapper_names`: the wrapper name of each function. */
    var functionWrapperNames: map<string, string>
    /** `_global_names`: the names visible in the whole generated module. */
    var globalNames: set<string>
    /** `_converter_functions`: converters by argument key. */
    var converterFunctions: map<string, Converter>
    /** The language the wrapped code is written in. */
    const targetLanguage: string

    /** Every recorded wrapper name is a global name. */
    predicate Valid()
      reads this
    {
      forall f :: f in functionWrapperNames ==> functionWrapperNames[f] in globalNames
    }

    constructor(target: string)
      ensures Valid()
      ensures functionWrapperNames == map[] && globalNames == {} && converterFunctions == map[]
      ensures targetLanguage == target
    {
      functionWrapperNames := map[];
      globalNames := {};
      converterFunctions := map[];
      targetLanguage := target;
    }

    /** `get_new_name(used_names, requested_name)`: the requested name when
      * it is free, otherwise the first free `requested_name_<n>`; the name
      * is added to the returned set. */
    static method GetNewName(used: set<string>, requested: string) returns (name: string, newUsed: set<string>)
      ensures name !in used
      ensures newUsed == used + {name}
      ensures requested !in used ==> name == requested
      ensures requested in used ==> exists n: nat :: n >= 1 && name == Candidate(requested, n)
    {
      if requested !in used {
        return requested, used + {requested};
      }
      var n: nat := 1;
      name := Candidate(requested, 1);
      while name in used
        invariant n >= 1 && name == Candidate(requested, n)
        invariant forall k :: 1 <= k < n ==> Candidate(requested, k) in used
        decreases |used| + 1 - n
      {
        CandidatesCard(requested, n);
        assert (set k | 1 <= k <= n :: Candidate(requested, k)) <= used;
        ArrayOperands.SubsetCard(set k | 1 <= k <= n :: Candidate(requested, k), used);
        n := n + 1;
        name := Candidate(requested, n);
      }
      newUsed := used + {name};
    }

    /** `get_wrapper_name(used_names, function)`: a name free in both the
      * caller's names and the global names, recorded for the function and
      * added to both sets. */
    method GetWrapperName(used: set<string>, func: string) returns (wrapper: string, newUsed: set<string>)
      requires Valid()
      modifies this
      ensures Valid()
      ensures wrapper !in used && wrapper !in old(globalNames)
      ensures func + "_wrapper" !in used + old(globalNames) ==> wrapper == func + "_wrapper"
      ensures functionWrapperNames == old(functionWrapperNames)[func := wrapper]
      ensures globalNames == old(globalNames) + {wrapper}
      ensures newUsed == used + {wrapper}
      ensures converterFunctions == old(converterFunctions)
    {
      var ignored: set<string>;
      wrapper, ignored := GetNewName(used + globalNames, func + "_wrapper");
      functionWrapperNames := functionWrapperNames[func := wrapper];
      globalNames := globalNames + {wrapper};
      newUsed := used + {wrapper};
    }

    /** `generate_converter_function_name(used_names, argument)`. */
    static method ConverterName(used: set<string>, arg: CArg, ctypes: map<(string, nat), string>)
      returns (r: Result<string>, newUsed: set<string>)
      ensures r.Success? <==> arg.Key() in ctypes
      ensures r.Success? ==> r.value !in used && newUsed == used + {r.value}
      ensures r.Success? && ConverterBaseName(arg, ctypes[arg.Key()]) !in used ==>
        r.value == ConverterBaseName(arg, ctypes[arg.Key()])
      ensures r.Failure? ==> r.kind == KeyError && newUsed == used
    {
      if arg.Key() !in ctypes {
        return Failure(KeyError, arg.dtype), used;
      }
      var name;
      name, newUsed := GetNewName(used, ConverterBaseName(arg, ctypes[arg.Key()]));
      r := Success(name);
    }

    /** `get_PyArgParse_Converter(used_names, argument, is_interface)`: a
      * cached converter when one exists for the argument's key, otherwise a
      * new one under a fresh name, stored under that key. */
    method GetPyArgParseConverter(used: set<string>, arg: CArg, key: string, isInterface: bool,
                                  ctypes: map<(string, nat), string>, casts: map<(string, nat), string>)
      returns (r: Result<Converter>, newUsed: set<string>)
      modifies this
      ensures functionWrapperNames == old(functionWrapperNames) && globalNames == old(globalNames)
      ensures key in old(converterFunctions) ==>
        r == Success(old(converterFunctions)[key]) && newUsed == used &&
        converterFunctions == old(converterFunctions)
      ensures key !in old(converterFunctions) && r.Success? ==>
        converterFunctions == old(converterFunctions)[key := r.value] &&
        r.value.name !in used && newUsed == used + {r.value.name} &&
        CastFunction(arg, targetLanguage, casts).Success? &&
        r.value == GenerateConverter(r.value.name, CastFunction(arg, targetLanguage, casts).value,
                                     arg, isInterface, targetLanguage)
      ensures key !in old(converterFunctions) ==>
        (r.Success? <==> arg.Key() in ctypes && CastFunction(arg, targetLanguage, casts).Success?)
      ensures key !in old(converterFunctions) && arg.Key() !in ctypes ==>
        r.Failure? && r.kind == KeyError && newUsed == used
      ensures key !in old(converterFunctions) && arg.Key() in ctypes && r.Failure? ==>
        r.kind == NotImplementedError &&
        exists name :: name !in used && newUsed == used + {name}
      ensures r.Failure? ==> converterFunctions == old(converterFunctions)
    {
      if key in converterFunctions {
        return Success(converterFunctions[key]), used;
      }
      var name;
      name, newUsed := ConverterName(used, arg, ctypes);
      if name.Failure? {
        return Failure(name.kind, name.msg), newUsed;
      }
      var cast := CastFunction(arg, targetLanguage, casts);
      if cast.Failure? {
        return Failure(cast.kind, cast.msg), newUsed;
      }
      var conv := GenerateConverter(name.value, cast.value, arg, isInterface, targetLanguage);
      converterFunctions := converterFunctions[key := conv];
      r := Success(conv);
    }

    /** The flag loop of `_print_Interface` for one overload. */
    static method InterfaceFlag(args: seq<CArg>, flags: map<(string, nat), int>) returns (r: Result<int>)
      ensures r == DispatchKey(args, flags)
    {
      var flag := 0;
      var i := 0;
      while i < |args|
        invariant i <= |args|
        invariant DispatchKey(args[..i], flags) == Success(flag)
      {
        assert args[..i + 1][..i] == args[..i];
        var next := SetFlagValue(flag, args[i], flags);
        if next.Failure? {
          DispatchKeyFailsOnPrefix(args, flags, i + 1);
          return next;
        }
        flag := next.value;
        i := i + 1;
      }
      assert args[..i] == args;
      r := Success(flag);
    }

    /** `generate_interface_check_function`: one argument check per Python
      * parameter (shift `n-1-i` for parameter `i`), then a fresh global name
      * for the function. */
    method GenerateInterfaceCheck(typeDict: seq<seq<CArg>>, used: set<string>, wrapperName: string,
                                  ctypes: map<(string, nat), string>, flags: map<(string, nat), int>)
      returns (r: Result<(string, seq<ArgCheck>)>)
      requires Valid()
      modifies this
      ensures Valid()
      ensures functionWrapperNames == old(functionWrapperNames) && converterFunctions == old(converterFunctions)
      ensures r.Success? <==> ChecksUpTo(typeDict, |typeDict|, ctypes, flags).Success?
      ensures r.Success? ==>
        r.value.1 == ChecksUpTo(typeDict, |typeDict|, ctypes, flags).value &&
        r.value.0 !in used && r.value.0 !in old(globalNames) &&
        globalNames == old(globalNames) + {r.value.0}
      ensures r.Failure? ==> globalNames == old(globalNames)
    {
      var checks := BuildChecks(typeDict, ctypes, flags);
      if checks.Failure? {
        return Failure(checks.kind, checks.msg);
      }
      var name, ignored := GetNewName(used + globalNames, wrapperName + "_type_check");
      globalNames := globalNames + {name};
      r := Success((name, checks.value));
    }

    /** The outer loop over the parameters: parameter `i` of `n` is shifted
      * by `n-1-i` nibbles. */
    static method BuildChecks(typeDict: seq<seq<CArg>>, ctypes: map<(string, nat), string>,
                              flags: map<(string, nat), int>) returns (r: Result<seq<ArgCheck>>)
      ensures r == ChecksUpTo(typeDict, |typeDict|, ctypes, flags)
    {
      var checks: seq<ArgCheck> := [];
      var i := 0;
      while i < |typeDict|
        invariant i <= |typeDict|
        invariant ChecksUpTo(typeDict, i, ctypes, flags) == Success(checks)
      {
        var cands := typeDict[i];
        if cands == [] {
          ChecksStop(typeDict, i, ctypes, flags, checks, IndexError, "list index out of range");
          return Failure(IndexError, "list index out of range");
        }
        var c := ArgCheckMethod(cands[0].name, cands, |typeDict| - 1 - i, ctypes, flags);
        if c.Failure? {
          ChecksStop(typeDict, i, ctypes, flags, checks, c.kind, c.msg);
          return Failure(c.kind, c.msg);
        }
        ChecksStep(typeDict, i, ctypes, flags, checks, c.value);
        checks := checks + [c.value];
        i := i + 1;
      }
      r := Success(checks);
    }

    /** The inner loop over one parameter's candidate types. */
    static method ArgCheckMethod(name: string, cands: seq<CArg>, shift: nat,
                                 ctypes: map<(string, nat), string>, flags: map<(string, nat), int>)
      returns (r: Result<ArgCheck>)
      ensures r == CheckFor(name, cands, shift, ctypes, flags)
    {
      var types: seq<string> := [];
      var branches: seq<Branch> := [];
      var j := 0;
      while j < |cands|
        invariant j <= |cands|
        invariant ArgBranches(cands[..j], shift, ctypes, flags) == Success(branches)
        invariant types == TypesOf(branches)
      {
        assert cands[..j + 1][..j] == cands[..j];
        var c := cands[j];
        if c.Key() !in ctypes {
          BranchesFailOnPrefix(cands, shift, ctypes, flags, j + 1);
          return Failure(KeyError, c.dtype);
        }
        var dtype := ctypes[c.Key()];
        if dtype in types {
          j := j + 1;
          continue;
        }
        var code := SetFlagValue(0, c, flags);
        if code.Failure? {
          BranchesFailOnPrefix(cands, shift, ctypes, flags, j + 1);
          return Failure(code.kind, code.msg);
        }
        branches := branches + [Branch(dtype, code.value * Pow16(shift))];
        types := types + [dtype];
        j := j + 1;
      }
      assert cands[..j] == cands;
      r := Success(ArgCheck(branches, "\"" + name + " must be (" + Join(types, " or ") + ")\""));
    }
  }

  lemma {:induction false} DispatchKeyFailsOnPrefix(args: seq<CArg>, flags: map<(string, nat), int>, i: nat)
    requires i <= |args| && DispatchKey(args[..i], flags).Failure?
    ensures DispatchKey(args, flags) == DispatchKey(args[..i], flags)
    decreases |args| - i
  {
    if i < |args| {
      assert args[..i + 1][..i] == args[..i];
      DispatchKeyFailsOnPrefix(args, flags, i + 1);
    } else {
      assert args[..i] == args;
    }
  }

  lemma {:induction false} BranchesFailOnPrefix(cands: seq<CArg>, shift: nat, ctypes: map<(string, nat), string>,
                                                flags: map<(string, nat), int>, j: nat)
    requires j <= |cands| && ArgBranches(cands[..j], shift, ctypes, flags).Failure?
    ensures ArgBranches(cands, shift, ctypes, flags) == ArgBranches(cands[..j], shift, ctypes, flags)
    decreases |cands| - j
  {
    if j < |cands| {
      assert cands[..j + 1][..j] == cands[..j];
      BranchesFailOnPrefix(cands, shift, ctypes, flags, j + 1);
    } else {
      assert cands[..j] == cands;
    }
  }

  lemma ChecksStep(typeDict: seq<seq<CArg>>, i: nat, ctypes: map<(string, nat), string>,
                   flags: map<(string, nat), int>, checks: seq<ArgCheck>, c: ArgCheck)
    requires i < |typeDict| && typeDict[i] != []
    requires ChecksUpTo(typeDict, i, ctypes, flags) == Success(checks)
    requires CheckFor(typeDict[i][0].name, typeDict[i], |typeDict| - 1 - i, ctypes, flags) == Success(c)
    ensures ChecksUpTo(typeDict, i + 1, ctypes, flags) == Success(checks + [c])
  {
    ChecksNext(typeDict, i, ctypes, flags, checks);
  }

  /** A parameter without candidates, or one whose tests cannot be built,
    * ends the outer loop with that error. */
  lemma ChecksStop(typeDict: seq<seq<CArg>>, i: nat, ctypes: map<(string, nat), string>,
                   flags: map<(string, nat), int>, checks: seq<ArgCheck>, k: ErrorKind, m: string)
    requires i < |typeDict| && ChecksUpTo(typeDict, i, ctypes, flags) == Success(checks)
    requires typeDict[i] == [] ==> k == IndexError && m == "list index out of range"
    requires typeDict[i] != [] ==>
      CheckFor(typeDict[i][0].name, typeDict[i], |typeDict| - 1 - i, ctypes, flags) == Failure(k, m)
    ensures ChecksUpTo(typeDict, |typeDict|, ctypes, flags) == Failure(k, m)
  {
    ChecksNext(typeDict, i, ctypes, flags, checks);
    ChecksFailOnPrefix(typeDict, ctypes, flags, i + 1);
  }

  /** `ChecksUpTo` one parameter further, after a successful prefix. */
  lemma ChecksNext(typeDict: seq<seq<CArg>>, i: nat, ctypes: map<(string, nat), string>,
                   flags: map<(string, nat), int>, checks: seq<ArgCheck>)
    requires i < |typeDict| && ChecksUpTo(typeDict, i, ctypes, flags) == Success(checks)
    ensures typeDict[i] == [] ==> ChecksUpTo(typeDict, i + 1, ctypes, flags) == Failure(IndexError, "list index out of range")
    ensures typeDict[i] != [] ==>
      var c := CheckFor(typeDict[i][0].name, typeDict[i], |typeDict| - 1 - i, ctypes, flags);
      ChecksUpTo(typeDict, i + 1, ctypes, flags) == if c.Failure? then Failure(c.kind, c.msg) else Success(checks + [c.value])
  {
    assert |typeDict| - (i + 1) == |typeDict| - 1 - i;
  }

  lemma {:induction false} ChecksFailOnPrefix(typeDict: seq<seq<CArg>>, ctypes: map<(string, nat), string>,
                                              flags: map<(string, nat), int>, i: nat)
    requires i <= |typeDict| && ChecksUpTo(typeDict, i, ctypes, flags).Failure?
    ensures ChecksUpTo(typeDict, |typeDict|, ctypes, flags) == ChecksUpTo(typeDict, i, ctypes, flags)
    decreases |typeDict| - i
  {
    if i < |typeDict| {
      ChecksFailOnPrefix(typeDict, ctypes, flags, i + 1);
    }
  }
}
