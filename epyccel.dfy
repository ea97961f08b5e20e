/** Source extraction and module naming for just-in-time compilation
  * (pyccel/epyccel.py). Reading source lines, drawing random characters,
  * writing files and compiling are inputs or left out: the lines of a
  * function and the choices of the random generator are parameters. */
module Epyccel {
  import opened Wrappers
  import opened Internals

  /** `a[k:]` in Python: empty once `k` passes the end. */
  function Drop(a: string, k: nat): (r: string)
    ensures |r| == if k >= |a| then 0 else |a| - k
    ensures k < |a| ==> r == a[k..]
  {
    if k >= |a| then "" else a[k..]
  }

  /** `len(a) - len(a.lstrip())`: the length of the leading whitespace. */
  function LeadingSpaces(a: string): nat
  {
    |a| - |StripLeft(a)|
  }

  /** Every line with its first `k` characters removed, whatever they are. */
  function DedentLines(lines: seq<string>, k: nat): (r: seq<string>)
    ensures |r| == |lines|
    ensures forall i :: 0 <= i < |lines| ==> r[i] == Drop(lines[i], k)
  {
    if lines == [] then [] else DedentLines(lines[..|lines| - 1], k) + [Drop(lines[|lines| - 1], k)]
  }

  /** `''.join(lines)`, accumulated from the front. */
  function Concat(lines: seq<string>): string
  {
    if lines == [] then "" else Concat(lines[..|lines| - 1]) + lines[|lines| - 1]
  }

  /** What `get_source_function(func)` returns for a function whose source
    * lines are `lines`: a TypeError for anything not callable, else the
    * lines concatenated after removing as many characters as the first line
    * is indented (`lines[0]` of no lines is an IndexError). */
  function SourceText(isCallable: bool, lines: seq<string>): Result<string>
  {
    if !isCallable then Failure(TypeError, "Expecting a callable function")
    else if lines == [] then Failure(IndexError, "list index out of range")
    else Success(Concat(DedentLines(lines, LeadingSpaces(lines[0]))))
  }

  /** `get_source_function`: the loop that accumulates `code`. */
  method GetSourceFunction(isCallable: bool, lines: seq<string>) returns (r: Result<string>)
    ensures r == SourceText(isCallable, lines)
  {
    if !isCallable {
      return Failure(TypeError, "Expecting a callable function");
    }
    if lines == [] {
      return Failure(IndexError, "list index out of range");
    }
    var leading := LeadingSpaces(lines[0]);
    var code := "";
    var i := 0;
    while i < |lines|
      invariant i <= |lines|
      invariant code == Concat(DedentLines(lines[..i], leading))
    {
      var line;
      if leading > 0 {
        line := Drop(lines[i], leading);
      } else {
        line := lines[i];
      }
      assert lines[..i + 1][..i] == lines[..i];
      code := code + line;
      i := i + 1;
    }
    assert lines[..i] == lines;
    return Success(code);
  }

  lemma DedentZero(lines: seq<string>)
    ensures DedentLines(lines, 0) == lines
  {
  }

  /** The extracted text starts with the first line stripped of exactly its
    * indentation; an unindented first line leaves the text as the plain
    * concatenation of the lines. */
  lemma SourceTextFirstLine(lines: seq<string>)
    requires lines != []
    ensures DedentLines(lines, LeadingSpaces(lines[0]))[0] == StripLeft(lines[0])
    ensures LeadingSpaces(lines[0]) == 0 ==> SourceText(true, lines) == Success(Concat(lines))
  {
    DedentZero(lines);
  }

  /** Putting `p` back in front of every line. */
  function IndentLines(p: string, lines: seq<string>): (r: seq<string>)
    ensures |r| == |lines|
  {
    if lines == [] then [] else IndentLines(p, lines[..|lines| - 1]) + [p + lines[|lines| - 1]]
  }

  /** When every line starts with the indentation `p` of the first, the
    * extraction loses nothing: indenting the dedented lines by `p` gives
    * the source lines back. */
  lemma {:induction false} DedentIndentRoundTrip(p: string, lines: seq<string>)
    requires forall i :: 0 <= i < |lines| ==> StartsWith(lines[i], p)
    ensures IndentLines(p, DedentLines(lines, |p|)) == lines
  {
    if lines != [] {
      var n := |lines| - 1;
      var front := lines[..n];
      AllStartWithFront(p, lines, n);
      DedentIndentRoundTrip(p, front);
      RestoreLine(p, lines[n]);
      IndentSnoc(p, DedentLines(front, |p|), Drop(lines[n], |p|));
      assert lines == front + [lines[n]];
    }
  }

  lemma AllStartWithFront(p: string, lines: seq<string>, n: nat)
    requires n <= |lines|
    requires forall i :: 0 <= i < |lines| ==> StartsWith(lines[i], p)
    ensures forall i :: 0 <= i < n ==> StartsWith(lines[..n][i], p)
  {
    assert forall i :: 0 <= i < n ==> lines[..n][i] == lines[i];
  }

  lemma IndentSnoc(p: string, a: seq<string>, x: string)
    ensures IndentLines(p, a + [x]) == IndentLines(p, a) + [p + x]
  {
    assert (a + [x])[..|a|] == a;
  }

  predicate StartsWith(s: string, p: string)
  {
    |p| <= |s| && s[..|p|] == p
  }

  /** A line that starts with `p` is `p` followed by what is left once
    * `|p|` characters are dropped. */
  lemma RestoreLine(p: string, s: string)
    requires StartsWith(s, p)
    ensures p + Drop(s, |p|) == s
  {
    assert s == s[..|p|] + s[|p|..];
  }

  /** `string.ascii_lowercase + string.digits`. */
  const Chars: string := "abcdefghijklmnopqrstuvwxyz0123456789"

  predicate LowerOrDigit(c: char)
  {
    'a' <= c <= 'z' || '0' <= c <= '9'
  }

  /** `random_string(n)`, with the generator's choices given as positions
    * into `Chars`. */
  function RandomString(n: nat, picks: seq<nat>): (r: string)
    requires |picks| == n
    requires forall i :: 0 <= i < |picks| ==> picks[i] < |Chars|
    ensures |r| == n
    ensures forall i :: 0 <= i < |r| ==> LowerOrDigit(r[i]) && r[i] == Chars[picks[i]]
  {
    if n == 0 then ""
    else
      CharsAlphabet(picks[n - 1]);
      RandomString(n - 1, picks[..n - 1]) + [Chars[picks[n - 1]]]
  }

  /** Every character of the alphabet is a lowercase letter or a digit. */
  lemma CharsAlphabet(k: nat)
    requires k < |Chars|
    ensures LowerOrDigit(Chars[k])
  {
  }

  function CharIndex(c: char): (k: nat)
    requires LowerOrDigit(c)
    ensures k < |Chars| && Chars[k] == c
  {
    if 'a' <= c <= 'z' then (c - 'a') as nat else 26 + (c - '0') as nat
  }

  function Picks(s: string): (r: seq<nat>)
    requires forall i :: 0 <= i < |s| ==> LowerOrDigit(s[i])
    ensures |r| == |s| && forall i :: 0 <= i < |s| ==> r[i] < |Chars| && Chars[r[i]] == s[i]
  {
    if s == [] then [] else Picks(s[..|s| - 1]) + [CharIndex(s[|s| - 1])]
  }

  /** Every string of lowercase letters and digits can be drawn: the
    * generator's output is exactly that alphabet. */
  lemma RandomStringCoversAlphabet(s: string)
    requires forall i :: 0 <= i < |s| ==> LowerOrDigit(s[i])
    ensures RandomString(|s|, Picks(s)) == s
  {
  }

  /** What is being compiled: a function (by name), a module (by its
    * dotted `__name__`), or anything else. */
  datatype Compiled = FunctionSource(name: string) | ModuleSource(dottedName: string) | OtherSource

  function Last(parts: seq<string>): string
    requires parts != []
  {
    parts[|parts| - 1]
  }

  /** The module name `epyccel_seq` derives from the random tag. */
  function ModuleName(c: Compiled, tag: string): Result<string>
  {
    match c
    case FunctionSource(_) => Success("mod_" + tag)
    case ModuleSource(d) => Success(Last(Split(d, '.')) + "_" + tag)
    case OtherSource => Failure(TypeError, "> Expecting a FunctionType or a ModuleType")
  }

  /** A function's module is `mod_` and the tag; a module keeps only the
    * last component of its dotted name, then `_` and the tag; a given
    * function or module gets different names for different tags. */
  lemma ModuleNameShape(c: Compiled, tag: string, tag': string)
    ensures c.OtherSource? <==> ModuleName(c, tag).Failure?
    ensures c.FunctionSource? ==> ModuleName(c, tag).value[..4] == "mod_"
    ensures c.ModuleSource? && '.' !in tag ==> '.' !in ModuleName(c, tag).value
    ensures ModuleName(c, tag).Success? ==> ModuleName(c, tag).value[|ModuleName(c, tag).value| - |tag| - 1..] == "_" + tag
    ensures ModuleName(c, tag).Success? && ModuleName(c, tag) == ModuleName(c, tag') ==> tag == tag'
  {
    if c.ModuleSource? {
      var parts := Split(c.dottedName, '.');
      SplitJoin(c.dottedName, '.');
      assert '.' !in parts[|parts| - 1];
      TagSuffix(Last(parts), tag, tag');
    } else if c.FunctionSource? {
      assert "mod_" + tag == "mod" + "_" + tag && "mod_" + tag' == "mod" + "_" + tag';
      TagSuffix("mod", tag, tag');
    }
  }

  /** `stem + "_" + tag` ends with `_` and the tag, and tells tags apart. */
  lemma TagSuffix(stem: string, tag: string, tag': string)
    ensures var name := stem + "_" + tag;
      name[|name| - |tag| - 1..] == "_" + tag &&
      (name == stem + "_" + tag' ==> tag == tag')
  {
    var name := stem + "_" + tag;
    if name == stem + "_" + tag' {
      assert tag == name[|stem| + 1..] == tag';
    }
  }
}
