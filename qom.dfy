/**
 * The part of the JCR 2.0 query object model (section 6.7 of JSR 283) built
 * around the `Not` constraint and the `DescendantNode` constraint.
 *
 * Constraint nodes are immutable values. A visitor is a record of one handler
 * per constraint kind, and `Accept` hands a node to the handler for its kind.
 * Evaluating a constraint against a node-tuple gives one of three verdicts:
 * satisfied, not satisfied, or an invalid query, the last kept apart from
 * "not satisfied".
 */
module Qom {
  import opened Wrappers
  import opened JcrPath

  /** The constraint kinds of this model. */
  datatype Constraint =
    | /** `NotImpl`: the constraint negated by this node. */
      Not(constraint: Constraint)
    | /** `DescendantNode`: the selector's node lies below the node at `path`. */
      DescendantNode(selectorName: string, path: string)

  /** `NotImpl.getConstraint`: the child the node was built with, and nothing else. */
  function GetConstraint(n: Constraint): (c: Constraint)
    requires n.Not?
    ensures n == Not(c)
    ensures c < n
  {
    n.constraint
  }

  /**
   * `QOMTreeVisitor`: one handler per constraint kind, each given the node and
   * the caller's data. Whatever a handler may throw is part of its result type `R`.
   */
  datatype Visitor<!D, R> = Visitor(
    visitNot: (Constraint, D) -> R,
    visitDescendantNode: (Constraint, D) -> R)

  /** `accept(visitor, data)`: the handler for this node's kind, called on the node itself with the same data. */
  function Accept<D, R>(c: Constraint, visitor: Visitor<D, R>, data: D): (r: R)
    ensures c.Not? ==> r == visitor.visitNot(c, data)
    ensures c.DescendantNode? ==> r == visitor.visitDescendantNode(c, data)
  {
    match c
    case Not(_) => visitor.visitNot(c, data)
    case DescendantNode(_, _) => visitor.visitDescendantNode(c, data)
  }

  /**
   * `NotImpl.toString`: the keyword and a space, then the child as `protect`
   * renders it (`protect` belongs to the superclass and is a parameter here).
   */
  function NotToString(n: Constraint, protect: Constraint -> string): (s: string)
    requires n.Not?
    ensures |s| >= 4 && s[..4] == "NOT "
    ensures s[4..] == protect(n.constraint)
  {
    "NOT " + protect(n.constraint)
  }

  /** Reads a `NOT ` rendering back into the rendering of the negated child. */
  function StripNot(s: string): (inner: Option<string>)
    ensures inner.Some? <==> |s| >= 4 && s[..4] == "NOT "
    ensures inner.Some? ==> s == "NOT " + inner.value
  {
    if |s| >= 4 && s[..4] == "NOT " then Some(s[4..]) else None
  }

  /** Stripping the keyword from a rendered `Not` node gives back the child's rendering. */
  lemma NotToStringRoundTrip(n: Constraint, protect: Constraint -> string)
    requires n.Not?
    ensures StripNot(NotToString(n, protect)) == Some(protect(n.constraint))
  {
  }

  /** What a query supplies to evaluation. */
  datatype QueryContext = QueryContext(
    /** the selector names declared in the query's source */
    selectors: set<string>,
    /**
     * the resolver's parse of an absolute path; `None` for a string that is
     * not a syntactically valid absolute path, a relative path included
     */
    parsePath: string -> Option<Path>,
    /** whether a node exists at the path and this session may see it */
    visible: Path -> bool)

  /** A node-tuple: the node bound to each selector (the map may be partial). */
  type NodeTuple = map<string, Path>

  datatype QueryError =
    | UnknownSelector(selectorName: string)
    | MalformedPath(path: string)

  datatype Verdict = Satisfied | Unsatisfied | Invalid(error: QueryError)

  /** A query is valid when every selector is declared and every path is a syntactically valid absolute path. */
  predicate IsValid(c: Constraint, ctx: QueryContext)
  {
    match c
    case Not(inner) => IsValid(inner, ctx)
    case DescendantNode(s, p) => s in ctx.selectors && ctx.parsePath(p).Some?
  }

  /**
   * The satisfaction rules as the interfaces state them: a `Not` node holds
   * when its child does not, and a descendant-node constraint holds when some
   * ancestor of the selector's node, above it, is the visible node at `path`.
   */
  ghost predicate Satisfies(c: Constraint, ctx: QueryContext, tuple: NodeTuple)
    requires IsValid(c, ctx)
  {
    match c
    case Not(inner) => !Satisfies(inner, ctx, tuple)
    case DescendantNode(s, p) =>
      var target := ctx.parsePath(p).value;
      s in tuple && ctx.visible(target) && DescendantByAncestor(tuple[s], target)
  }

  /** The evaluator: an invalid query is reported as such, otherwise the verdict follows `Satisfies`. */
  function Evaluate(c: Constraint, ctx: QueryContext, tuple: NodeTuple): (v: Verdict)
    ensures v.Invalid? <==> !IsValid(c, ctx)
    ensures v == Satisfied <==> IsValid(c, ctx) && Satisfies(c, ctx, tuple)
    ensures v == Unsatisfied <==> IsValid(c, ctx) && !Satisfies(c, ctx, tuple)
  {
    match c
    case Not(inner) =>
      (match Evaluate(inner, ctx, tuple)
       case Satisfied => Unsatisfied
       case Unsatisfied => Satisfied
       case Invalid(e) => Invalid(e))
    case DescendantNode(s, p) =>
      if s !in ctx.selectors then Invalid(UnknownSelector(s))
      else
        match ctx.parsePath(p)
        case None => Invalid(MalformedPath(p))
        case Some(target) =>
          if s !in tuple then Unsatisfied
          else
            DescendantIffStrictPrefix(tuple[s], target);
            if ctx.visible(target) && IsStrictDescendant(tuple[s], target) then Satisfied else Unsatisfied
  }

  /** Negation swaps the two verdicts of a valid child and passes an invalid query's error through unchanged. */
  lemma NotNegates(c: Constraint, ctx: QueryContext, tuple: NodeTuple)
    ensures Evaluate(Not(c), ctx, tuple) == Satisfied <==> Evaluate(c, ctx, tuple) == Unsatisfied
    ensures Evaluate(Not(c), ctx, tuple) == Unsatisfied <==> Evaluate(c, ctx, tuple) == Satisfied
    ensures Evaluate(c, ctx, tuple).Invalid? ==> Evaluate(Not(c), ctx, tuple) == Evaluate(c, ctx, tuple)
  {
  }

  /** Negating twice gives the same verdict as the constraint itself. */
  lemma DoubleNegation(c: Constraint, ctx: QueryContext, tuple: NodeTuple)
    ensures Evaluate(Not(Not(c)), ctx, tuple) == Evaluate(c, ctx, tuple)
  {
    NotNegates(c, ctx, tuple);
    NotNegates(Not(c), ctx, tuple);
  }

  /**
   * With a declared selector and a parsable path, the constraint holds exactly
   * when the path's node is visible and the selector's node is that node with
   * at least one more name appended.
   */
  lemma DescendantNodeSatisfiedIff(s: string, p: string, ctx: QueryContext, tuple: NodeTuple, target: Path)
    requires s in ctx.selectors && ctx.parsePath(p) == Some(target)
    ensures Evaluate(DescendantNode(s, p), ctx, tuple) == Satisfied <==>
              s in tuple && ctx.visible(target) &&
              exists suffix: seq<PathElement> :: suffix != [] && tuple[s] == target + suffix
  {
    if s in tuple && exists suffix: seq<PathElement> :: suffix != [] && tuple[s] == target + suffix {
      var suffix: seq<PathElement> :| suffix != [] && tuple[s] == target + suffix;
      AppendedIsStrictDescendant(target, suffix);
    }
    if s in tuple && IsStrictDescendant(tuple[s], target) {
      var suffix := tuple[s][|target|..];
      assert tuple[s] == target + suffix;
    }
  }

  /** Every node strictly below a visible target satisfies the constraint, a direct child included. */
  lemma StrictDescendantsSatisfied(s: string, p: string, ctx: QueryContext, tuple: NodeTuple, target: Path, suffix: seq<PathElement>)
    requires s in ctx.selectors && ctx.parsePath(p) == Some(target) && ctx.visible(target)
    requires suffix != [] && s in tuple && tuple[s] == target + suffix
    ensures Evaluate(DescendantNode(s, p), ctx, tuple) == Satisfied
  {
    AppendedIsStrictDescendant(target, suffix);
  }

  /** The node at `path` does not satisfy the constraint: its own depth is excluded. */
  lemma NodeAtPathNotSatisfied(s: string, p: string, ctx: QueryContext, tuple: NodeTuple)
    requires ctx.parsePath(p).Some? && s in tuple && tuple[s] == ctx.parsePath(p).value
    ensures Evaluate(DescendantNode(s, p), ctx, tuple) != Satisfied
  {
  }

  /** The root node (depth 0) satisfies the constraint for no path at all. */
  lemma RootNotSatisfied(s: string, p: string, ctx: QueryContext, tuple: NodeTuple)
    requires s in tuple && tuple[s] == []
    ensures Evaluate(DescendantNode(s, p), ctx, tuple) != Satisfied
  {
  }

  /**
   * A syntactically valid path that names no node, or one the session cannot
   * see, leaves the query valid and satisfied by no tuple.
   */
  lemma UnresolvedPathNeverSatisfied(s: string, p: string, ctx: QueryContext, target: Path)
    requires s in ctx.selectors && ctx.parsePath(p) == Some(target) && !ctx.visible(target)
    ensures IsValid(DescendantNode(s, p), ctx)
    ensures forall tuple: NodeTuple :: Evaluate(DescendantNode(s, p), ctx, tuple) == Unsatisfied
  {
  }

  /**
   * An unknown selector, or a path that is not a syntactically valid absolute
   * path, makes the query invalid for every tuple, which is not the same as
   * "not satisfied".
   */
  lemma InvalidDescendantNode(s: string, p: string, ctx: QueryContext, tuple: NodeTuple)
    ensures s !in ctx.selectors ==> Evaluate(DescendantNode(s, p), ctx, tuple) == Invalid(UnknownSelector(s))
    ensures s in ctx.selectors && ctx.parsePath(p).None? ==>
              Evaluate(DescendantNode(s, p), ctx, tuple) == Invalid(MalformedPath(p))
    ensures !IsValid(DescendantNode(s, p), ctx) ==> Evaluate(DescendantNode(s, p), ctx, tuple) != Unsatisfied
  {
  }

  /** A tuple that binds nothing to the selector (an outer join) does not satisfy the constraint. */
  lemma UnboundSelectorNotSatisfied(s: string, p: string, ctx: QueryContext, tuple: NodeTuple)
    requires s !in tuple
    ensures Evaluate(DescendantNode(s, p), ctx, tuple) != Satisfied
  {
  }
}
