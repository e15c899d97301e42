/**
 * The conditional nodes of the compiler's tree (nuitka/nodes/ConditionalNodes.py):
 * the expression `a if b else c`, its constant folding, and the
 * conditional statement's "does it abort" query. Nodes are values; a node's
 * identity (Python object identity) is its `id`. The analysis results the
 * folding consults (will the condition raise, what is its truth value) and
 * the helper that keeps a dropped condition's side effects are parameters.
 */
module ConditionalNodes {

  import opened Optional

  type NodeId = nat

  /**
   * Expressions: a conditional expression, the node that evaluates side
   * effects before an expression, and any other expression.
   */
  datatype Expr =
    | ConditionalExpr(id: NodeId, condition: Expr, yes: Expr, no: Expr)
    | SideEffectsExpr(sideEffects: seq<Expr>, expression: Expr)
    | OtherExpr(id: NodeId)

  /** The identities of the original nodes in an expression tree. */
  function Ids(e: Expr): set<NodeId>
  {
    match e
    case ConditionalExpr(id, c, y, n) => {id} + Ids(c) + Ids(y) + Ids(n)
    case SideEffectsExpr(effects, x) =>
      (set i, k | 0 <= i < |effects| && k in Ids(effects[i]) :: k) + Ids(x)
    case OtherExpr(id) => {id}
  }

  /** A conditional expression whose node and three children share no node. */
  predicate ChildrenDisjoint(e: Expr)
    requires e.ConditionalExpr?
  {
    && e.id !in Ids(e.condition) + Ids(e.yes) + Ids(e.no)
    && Ids(e.condition) !! Ids(e.yes)
    && Ids(e.condition) !! Ids(e.no)
    && Ids(e.yes) !! Ids(e.no)
  }

  /** Python's `True`, `False` or `None` for "not known" as a truth value. */
  datatype Truth = KnownTrue | KnownFalse | Unknown

  /** The tag the folding returns with its result (`"new_raise"`, `"new_expression"`, or none). */
  datatype Change = NewRaise(message: string) | NewExpression(message: string) | NoChange

  datatype Computed = Computed(node: Expr, change: Change)

  /**
   * `wrapExpressionWithNodeSideEffects(new, old)` builds only from `new` and
   * the side effects found in `old`; it brings in no other original node.
   */
  ghost predicate WrapDrawsFrom(wrap: (Expr, Expr) -> Expr)
  {
    forall n, o :: Ids(wrap(n, o)) <= Ids(n) + Ids(o)
  }

  /**
   * `ExpressionConditional.computeExpression`: a condition that raises
   * replaces the whole expression; a known truth value selects a branch,
   * keeping the condition's side effects; otherwise nothing changes.
   */
  function ComputeExpression(e: Expr, willRaise: Expr -> bool, truthValue: Expr -> Truth,
                             wrap: (Expr, Expr) -> Expr): (r: Computed)
    requires e.ConditionalExpr?
    ensures willRaise(e.condition) ==>
      r == Computed(e.condition, NewRaise("Conditional expression raises in condition"))
    ensures !willRaise(e.condition) && truthValue(e.condition) == KnownTrue ==>
      r == Computed(wrap(e.yes, e.condition), NewExpression("Conditional expression predicted to yes case"))
    ensures !willRaise(e.condition) && truthValue(e.condition) == KnownFalse ==>
      r == Computed(wrap(e.no, e.condition), NewExpression("Conditional expression predicted to no case"))
    ensures r.change == NoChange <==> !willRaise(e.condition) && truthValue(e.condition) == Unknown
    ensures r.change == NoChange ==> r.node == e
  {
    var condition := e.condition;
    if willRaise(condition) then
      Computed(condition, NewRaise("Conditional expression raises in condition"))
    else
      match truthValue(condition)
      case KnownTrue =>
        Computed(wrap(e.yes, condition), NewExpression("Conditional expression predicted to yes case"))
      case KnownFalse =>
        Computed(wrap(e.no, condition), NewExpression("Conditional expression predicted to no case"))
      case Unknown => Computed(e, NoChange)
  }

  /**
   * Folding drops what cannot run: after a raising condition neither
   * branch is left, after a known truth value the other branch is gone,
   * and every change removes at least the conditional node itself.
   */
  lemma FoldingDropsDeadParts(e: Expr, willRaise: Expr -> bool, truthValue: Expr -> Truth,
                              wrap: (Expr, Expr) -> Expr)
    requires e.ConditionalExpr? && ChildrenDisjoint(e) && WrapDrawsFrom(wrap)
    ensures var r := ComputeExpression(e, willRaise, truthValue, wrap);
      && (r.change.NewRaise? ==> Ids(r.node) !! Ids(e.yes) + Ids(e.no))
      && (r.change.NewExpression? && truthValue(e.condition) == KnownTrue ==> Ids(r.node) !! Ids(e.no))
      && (r.change.NewExpression? && truthValue(e.condition) == KnownFalse ==> Ids(r.node) !! Ids(e.yes))
      && (r.change != NoChange ==> e.id !in Ids(r.node) && Ids(r.node) < Ids(e))
  {
    var r := ComputeExpression(e, willRaise, truthValue, wrap);
    if r.change.NewExpression? {
      var kept := if truthValue(e.condition) == KnownTrue then e.yes else e.no;
      assert Ids(wrap(kept, e.condition)) <= Ids(kept) + Ids(e.condition);
    }
  }

  /** When nothing is known, running the step again under the same analysis changes nothing. */
  lemma UnchangedIsFixpoint(e: Expr, willRaise: Expr -> bool, truthValue: Expr -> Truth,
                            wrap: (Expr, Expr) -> Expr)
    requires e.ConditionalExpr?
    requires ComputeExpression(e, willRaise, truthValue, wrap).change == NoChange
    ensures var r := ComputeExpression(e, willRaise, truthValue, wrap);
      r.node.ConditionalExpr? && ComputeExpression(r.node, willRaise, truthValue, wrap) == r
  {
  }

  /** The expressions a conditional expression can evaluate to, through nested branches. */
  function BranchResults(e: Expr): seq<Expr>
  {
    match e
    case ConditionalExpr(_, _, yes, no) => BranchResults(yes) + BranchResults(no)
    case _ => [e]
  }

  /**
   * `mayProvideReference`: a conditional expression may provide a reference
   * exactly when one of the expressions it can evaluate to may; any other
   * expression answers for itself.
   */
  function MayProvideReference(e: Expr, providesReference: Expr -> bool): (r: bool)
    ensures r <==> exists x :: x in BranchResults(e) && providesReference(x)
  {
    match e
    case ConditionalExpr(_, _, yes, no) =>
      assert forall x :: x in BranchResults(e) <==> x in BranchResults(yes) || x in BranchResults(no);
      MayProvideReference(yes, providesReference) || MayProvideReference(no, providesReference)
    case _ =>
      assert BranchResults(e) == [e];
      providesReference(e)
  }

  /** Statements: a conditional statement with optional branches, and any other statement. */
  datatype Stmt =
    | ConditionalStmt(id: NodeId, condition: Expr, yesBranch: Option<Stmt>, noBranch: Option<Stmt>)
    | OtherStmt(id: NodeId)

  /**
   * `StatementConditional.isStatementAborting`: aborting only when both
   * branches are present and both abort; `aborts` answers for other statements.
   */
  function IsStatementAborting(s: Stmt, aborts: Stmt -> bool): (r: bool)
    ensures s.ConditionalStmt? && (s.yesBranch.None? || s.noBranch.None?) ==> !r
    ensures s.ConditionalStmt? ==>
      (r <==> s.yesBranch.Some? && s.noBranch.Some?
              && IsStatementAborting(s.yesBranch.value, aborts)
              && IsStatementAborting(s.noBranch.value, aborts))
  {
    match s
    case ConditionalStmt(_, _, yesBranch, noBranch) =>
      if yesBranch.Some? then
        if IsStatementAborting(yesBranch.value, aborts) then
          if noBranch.Some? then IsStatementAborting(noBranch.value, aborts)
          else false
        else false
      else false
    case OtherStmt(_) => aborts(s)
  }

  /**
   * The ways control can leave a statement, one per path through nested
   * conditionals: the statement the path ends in, or `None` when the path
   * passes through an absent branch and simply continues.
   */
  function Paths(s: Stmt): seq<Option<Stmt>>
  {
    match s
    case ConditionalStmt(_, _, yesBranch, noBranch) => BranchPaths(yesBranch) + BranchPaths(noBranch)
    case OtherStmt(_) => [Some(s)]
  }

  function BranchPaths(b: Option<Stmt>): seq<Option<Stmt>>
  {
    match b
    case None => [None]
    case Some(t) => Paths(t)
  }

  /** A conditional statement aborts exactly when every path through it ends in an aborting statement. */
  lemma {:induction false} AbortingIffEveryPathAborts(s: Stmt, aborts: Stmt -> bool)
    ensures IsStatementAborting(s, aborts) <==>
      forall p :: p in Paths(s) ==> p.Some? && aborts(p.value)
  {
    match s
    case ConditionalStmt(_, _, yesBranch, noBranch) =>
      BranchAbortingIffEveryPathAborts(yesBranch, aborts);
      BranchAbortingIffEveryPathAborts(noBranch, aborts);
      assert forall p :: p in Paths(s) <==> p in BranchPaths(yesBranch) || p in BranchPaths(noBranch);
    case OtherStmt(_) =>
      assert Paths(s) == [Some(s)];
  }

  lemma {:induction false} BranchAbortingIffEveryPathAborts(b: Option<Stmt>, aborts: Stmt -> bool)
    ensures (b.Some? && IsStatementAborting(b.value, aborts)) <==>
      forall p :: p in BranchPaths(b) ==> p.Some? && aborts(p.value)
    decreases b
  {
    match b
    case None =>
      assert None in BranchPaths(b);
    case Some(t) =>
      AbortingIffEveryPathAborts(t, aborts);
  }
}
