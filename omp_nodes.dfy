/** The OpenMP nodes of pyccel's syntax tree (pyccel/ast/omp.py): one class
  * per construct, each storing the clause text, whether `nowait` was given
  * and the text of a combined construct, with a constant name and a
  * constant flag saying whether the construct opens a block. */
module OmpNodes {
  import opened Wrappers

  /** The node classes. */
  datatype NodeClass =
    | AnnotatedComment | ForLoopNode | SimdNode | DistributeNode | ParallelNode | TaskNode | SingleNode
    | CriticalNode | MasterNode | MaskedNode | CancelNode | TargetNode | TeamsNode | SectionsNode
    | SectionNode | EndNode

  /** The `name` property: only the loop and the four constructs that can
    * be combined have one. */
  function Name(c: NodeClass): string
  {
    match c
    case ForLoopNode => "for"
    case ParallelNode => "parallel"
    case MaskedNode => "masked"
    case TargetNode => "target"
    case TeamsNode => "teams"
    case _ => ""
  }

  /** The `is_multiline` property: whether the construct needs a block. */
  predicate IsMultiline(c: NodeClass)
  {
    match c
    case ParallelNode | TaskNode | SingleNode | CriticalNode | MasterNode | MaskedNode | TargetNode | TeamsNode
       | SectionsNode | SectionNode => true
    case _ => false
  }

  /** The classes whose own `__init__(txt, has_nowait)` replaces the base
    * one: `has_nowait` is required and `combined` cannot be given. */
  predicate NowaitOnly(c: NodeClass)
  {
    match c
    case ForLoopNode | SimdNode | DistributeNode | TaskNode | SingleNode | CriticalNode | MasterNode | CancelNode
       | SectionsNode | SectionNode | EndNode => true
    case _ => false
  }

  /** What a node stores. */
  datatype Node = Node(cls: NodeClass, txt: string, hasNowait: bool, combined: Option<string>)

  /** Calling the class with the text, a `has_nowait` argument when one is
    * passed, and a `combined` keyword when one is passed. Python reports
    * an unexpected keyword before a missing argument. */
  function New(cls: NodeClass, txt: string, hasNowait: Option<bool>, combined: Option<string>): Result<Node>
  {
    if NowaitOnly(cls) && combined.Some? then
      Failure(TypeError, "__init__() got an unexpected keyword argument 'combined'")
    else if NowaitOnly(cls) && hasNowait.None? then
      Failure(TypeError, "__init__() missing 1 required positional argument: 'has_nowait'")
    else
      Success(Node(cls, txt, if hasNowait.Some? then hasNowait.value else false, combined))
  }

  /** `__getnewargs__`: the text and the combined construct. */
  function NewArgs(n: Node): (string, Option<string>)
  {
    (n.txt, n.combined)
  }

  /** Exactly the loop, parallel, masked, target and teams nodes have a
    * name, and it is the directive's own word; of those, all but the loop
    * open a block. */
  lemma NamedClasses(c: NodeClass)
    ensures Name(c) != "" <==> c in {ForLoopNode, ParallelNode, MaskedNode, TargetNode, TeamsNode}
    ensures Name(c) != "" && c != ForLoopNode ==> IsMultiline(c)
    ensures !IsMultiline(ForLoopNode)
  {
  }

  /** Task, single, critical, master, sections and section open a block but
    * have no name; simd, distribute, cancel, the end clause and the plain
    * annotated comment neither open a block nor have a name. */
  lemma UnnamedClasses(c: NodeClass)
    ensures c in {TaskNode, SingleNode, CriticalNode, MasterNode, SectionsNode, SectionNode} ==>
      IsMultiline(c) && Name(c) == ""
    ensures !IsMultiline(c) <==> c in {AnnotatedComment, ForLoopNode, SimdNode, DistributeNode, CancelNode, EndNode}
    ensures c in {AnnotatedComment, SimdNode, DistributeNode, CancelNode, EndNode} ==> Name(c) == ""
  {
  }

  /** A node stores what it is given: the text, `has_nowait` (False when
    * left out) and the combined text; a class with its own initialiser
    * refuses a missing `has_nowait` or a `combined` keyword. */
  lemma NewStores(cls: NodeClass, txt: string, hasNowait: Option<bool>, combined: Option<string>)
    ensures New(cls, txt, hasNowait, combined).Success? <==>
      !NowaitOnly(cls) || (hasNowait.Some? && combined.None?)
    ensures New(cls, txt, hasNowait, combined).Success? ==>
      var n := New(cls, txt, hasNowait, combined).value;
      n.cls == cls && n.txt == txt && n.combined == combined &&
      (n.hasNowait <==> hasNowait == Some(true))
    ensures New(cls, txt, hasNowait, combined).Failure? ==> New(cls, txt, hasNowait, combined).kind == TypeError
  {
    var r := New(cls, txt, hasNowait, combined);
    if NowaitOnly(cls) && (combined.Some? || hasNowait.None?) {
      assert r.Failure? && r.kind == TypeError;
    } else {
      assert r == Success(Node(cls, txt, hasNowait == Some(true), combined));
    }
  }

  /** `__getnewargs__` gives back the text and the combined construct a
    * node was made with, and does not carry `has_nowait`: two nodes that
    * differ only there give the same arguments. */
  lemma NewArgsKeep(cls: NodeClass, txt: string, combined: Option<string>)
    requires !NowaitOnly(cls)
    ensures NewArgs(New(cls, txt, Some(true), combined).value) == (txt, combined)
    ensures NewArgs(New(cls, txt, Some(true), combined).value) == NewArgs(New(cls, txt, Some(false), combined).value)
    ensures New(cls, txt, Some(true), combined) != New(cls, txt, Some(false), combined)
  {
  }

  /** A construct that calls a class with its own initialiser with the text
    * alone is refused; the base-initialised classes accept it. */
  lemma TextAloneCall(cls: NodeClass, txt: string)
    ensures New(cls, txt, None, None).Failure? <==> NowaitOnly(cls)
    ensures !NowaitOnly(cls) ==> New(cls, txt, None, None) == Success(Node(cls, txt, false, None))
  {
  }
}
