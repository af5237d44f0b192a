/** `util.Unwrap`: the identifier at the core of an expression. */
module Util {
  import opened Go
  import opened Results
  import opened Panics

  /** The expression left once every leading `*` is removed. */
  function StripStars(e: Expr): (r: Expr)
    ensures !r.Star?
  {
    if e.Star? then StripStars(e.x) else e
  }

  /** `e` under `k` star layers. */
  function Stars(k: nat, e: Expr): Expr {
    if k == 0 then e else Star(Stars(k - 1, e))
  }

  /** The name of an identifier, of the selected identifier of a selector
      expression, or of either under any number of stars; any other
      expression panics with the expression the stars were hiding. */
  function Unwrap(e: Expr): (r: Result<string, Panic>)
    ensures r.Ok? <==> StripStars(e).Ident? || StripStars(e).Selector?
    ensures StripStars(e).Ident? ==> r == Ok(StripStars(e).name)
    ensures StripStars(e).Selector? ==> r == Ok(StripStars(e).sel)
    ensures r.Err? ==> r.error == NotAnIdent(StripStars(e))
  {
    match e
    case Ident(name, _) => Ok(name)
    case Selector(_, sel) => Ok(sel)
    case Star(x) => Unwrap(x)
    case _ => Err(NotAnIdent(e))
  }

  /** Stars make no difference to `Unwrap`. */
  lemma {:induction false} UnwrapStars(k: nat, e: Expr)
    ensures Unwrap(Stars(k, e)) == Unwrap(e)
  {
    if k > 0 {
      UnwrapStars(k - 1, e);
    }
  }
}
