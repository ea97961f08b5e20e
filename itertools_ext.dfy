/** `itertools.product` as the code generator sees it
  * (pyccel/ast/itertoolsext.py). */
module ItertoolsExt {
  import opened Wrappers

  /** What `Product(*args)` evaluates to: a lone argument is returned
    * itself, two or more become a product node. */
  datatype ProductOrArg<T> = Lone(arg: T) | Product(elements: seq<T>)

  /** `Product.__new__`/`__init__`: `args[0]` for fewer than two arguments
    * (an IndexError when there are none), else a node over the arguments.
    * The `isinstance(args, (tuple, list))` test is always true for `*args`
    * and is not modelled. */
  function NewProduct<T>(args: seq<T>): Result<ProductOrArg<T>>
  {
    if |args| < 2 then
      (if args == [] then Failure(IndexError, "tuple index out of range") else Success(Lone(args[0])))
    else Success(Product(args))
  }

  /** The factors a result stands for. */
  function Factors<T>(p: ProductOrArg<T>): seq<T>
  {
    match p
    case Lone(a) => [a]
    case Product(es) => es
  }

  /** Building a product fails only without arguments; otherwise its
    * factors are the arguments, in order, and a node appears exactly when
    * there are at least two. */
  lemma NewProductFactors<T>(args: seq<T>)
    ensures NewProduct(args).Failure? <==> args == []
    ensures NewProduct(args).Success? ==>
      Factors(NewProduct(args).value) == args &&
      (NewProduct(args).value.Product? <==> |args| >= 2)
  {
    if |args| == 1 {
      assert [args[0]] == args;
    }
  }
}
