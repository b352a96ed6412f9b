/**
 * Node.IsZero: whether a node carries no information beyond its type. The
 * checker treats a nil or zero child as missing, the walkers and encoders
 * skip some zero children, so this predicate is shared by all of them.
 */
module Zero {
  import opened Wrappers
  import opened Ast

  /** A nil interface, or a node that IsZero: what `n == nil || n.IsZero()` tests. */
  predicate Missing(o: Option<Node>)
  {
    o.None? || IsZero(o.value)
  }

  predicate IdentifierIsZero(i: Identifier)
  {
    i.loc.IsZero() && i.name == ""
  }

  /** FunctionBody.IsZero is constantly false (statement.go:218). */
  predicate FunctionBodyIsZero(fb: FunctionBody) { false }

  /** Property.IsZero (expression.go:306-311). */
  predicate PropertyIsZero(p: Property)
  {
    p.loc.IsZero() && Missing(p.key) && Missing(p.value) && p.kind == ""
  }

  /** CatchClause.IsZero (exception.go:142-146). */
  predicate CatchClauseIsZero(cc: CatchClause)
  {
    cc.loc.IsZero() && Missing(cc.param) && cc.body.loc.IsZero() && |cc.body.body| == 0
  }

  /**
   * Node.IsZero for every variant. BlockStatement, FunctionBody, SwitchCase,
   * ThisExpression, ArrayHole, ArrayExpression, ObjectExpression, the
   * literals, EmptyStatement and DebuggerStatement are never zero; the three
   * variants without an IsZero method (FunctionDeclaration,
   * VariableDeclaration, Directive) are treated the same way.
   */
  predicate IsZero(n: Node)
  {
    match n
    case ThisExpression(_) => false
    case ArrayHole => false
    case ArrayExpression(_, _) => false
    case ObjectExpression(_, _) => false
    case PropertyNode(p) => PropertyIsZero(p)
    case FunctionExpression(loc, id, params, fb) =>
      loc.IsZero() && IdentifierIsZero(id) && |params| == 0 && FunctionBodyIsZero(fb)
    case ConditionalExpression(loc, t, c, a) => loc.IsZero() && Missing(t) && Missing(c) && Missing(a)
    case CallExpression(loc, callee, args) => loc.IsZero() && Missing(callee) && |args| == 0
    case NewExpression(loc, callee, args) => loc.IsZero() && Missing(callee) && |args| == 0
    case SequenceExpression(loc, es) => loc.IsZero() && |es| == 0
    case BinaryExpression(loc, op, l, r) => loc.IsZero() && op == "" && Missing(l) && Missing(r)
    case AssignmentExpression(loc, op, l, r) => loc.IsZero() && op == "" && Missing(l) && Missing(r)
    case LogicalExpression(loc, op, l, r) => loc.IsZero() && op == "" && Missing(l) && Missing(r)
    case MemberExpression(loc, o, p, _) => loc.IsZero() && Missing(o) && Missing(p)
    case UnaryExpression(loc, op, prefix, arg) => loc.IsZero() && op == "" && !prefix && Missing(arg)
    case UpdateExpression(loc, op, arg, prefix) => loc.IsZero() && op == "" && !prefix && Missing(arg)
    case StringLiteral(_, _) => false
    case BoolLiteral(_, _) => false
    case NullLiteral(_) => false
    case NumberLiteral(_, _) => false
    case RegExpLiteral(_, _, _) => false
    case IdentifierNode(i) => IdentifierIsZero(i)
    case ExpressionStatement(loc, e) => loc.IsZero() && Missing(e)
    case BlockStatementNode(_) => false
    case FunctionBodyNode(_) => false
    case EmptyStatement(_) => false
    case DebuggerStatement(_) => false
    case WithStatement(loc, o, b) => loc.IsZero() && Missing(o) && Missing(b)
    case ReturnStatement(loc, arg) => loc.IsZero() && Missing(arg)
    case LabeledStatement(loc, lbl, body) => loc.IsZero() && IdentifierIsZero(lbl) && Missing(body)
    case BreakStatement(loc, lbl) => loc.IsZero() && IdentifierIsZero(lbl)
    case ContinueStatement(loc, lbl) => loc.IsZero() && IdentifierIsZero(lbl)
    case IfStatement(loc, t, c, a) => loc.IsZero() && Missing(t) && Missing(c) && Missing(a)
    case SwitchStatement(loc, d, cases) => loc.IsZero() && Missing(d) && |cases| == 0
    case SwitchCaseNode(_) => false
    case ThrowStatement(loc, arg) => loc.IsZero() && Missing(arg)
    case TryStatement(loc, block, handler, finalizer) =>
      loc.IsZero() && block.loc.IsZero() && |block.body| == 0 && CatchClauseIsZero(handler)
      && finalizer.loc.IsZero() && |finalizer.body| == 0
    case CatchClauseNode(cc) => CatchClauseIsZero(cc)
    case WhileStatement(loc, t, b) => loc.IsZero() && Missing(t) && Missing(b)
    case DoWhileStatement(loc, b, t) => loc.IsZero() && Missing(b) && Missing(t)
    case ForStatement(loc, i, t, u, b) => loc.IsZero() && Missing(i) && Missing(t) && Missing(u) && Missing(b)
    case ForInStatement(loc, l, r, b) => loc.IsZero() && Missing(l) && Missing(r) && Missing(b)
    case Program(loc, body) => loc.IsZero() && |body| == 0
    case FunctionDeclaration(_, _, _) => false
    case VariableDeclaration(_, _) => false
    case Directive(_, _) => false
  }

  /** The variants whose IsZero method is a constant false. */
  predicate NeverZero(n: Node)
  {
    n.ThisExpression? || n.ArrayHole? || n.ArrayExpression? || n.ObjectExpression?
    || n.FunctionExpression? || IsLiteral(n) || n.BlockStatementNode? || n.FunctionBodyNode?
    || n.EmptyStatement? || n.DebuggerStatement? || n.SwitchCaseNode?
  }

  /** A zero node holds no location: every IsZero method starts with Loc.IsZero(). */
  lemma ZeroHasZeroLocation(n: Node)
    requires IsZero(n)
    ensures Location(n).IsZero()
  {
  }

  /**
   * The zero value of each variant with a computed IsZero is zero, so a
   * freshly declared Go struct counts as missing. This includes the
   * Return/Break/Continue statements, which the tests expect to be non-zero.
   */
  lemma ZeroStatementsAreZero()
    ensures IsZero(ExpressionStatement(ZeroLocation, None))
    ensures IsZero(ReturnStatement(ZeroLocation, None))
  {
  }

  /** Likewise for the zero Break and Continue statements, whose label is the zero Identifier. */
  lemma ZeroJumpsAreZero()
    ensures IsZero(BreakStatement(ZeroLocation, ZeroIdentifier))
    ensures IsZero(ContinueStatement(ZeroLocation, ZeroIdentifier))
  {
  }

  lemma ZeroTryIsZero()
    ensures IsZero(TryStatement(ZeroLocation, ZeroBlock, ZeroCatchClause, ZeroBlock))
  {
  }

  /** A prefix UnaryExpression is never zero, whatever else it holds. */
  lemma PrefixUnaryIsNotZero(loc: SourceLocation, op: string, arg: Option<Node>)
    ensures !IsZero(UnaryExpression(loc, op, true, arg))
    ensures IsZero(UnaryExpression(ZeroLocation, "", false, None))
  {
  }

  /** NeverZero names exactly the variants that are never zero. */
  lemma NeverZeroIsNotZero(n: Node)
    requires NeverZero(n)
    ensures !IsZero(n)
  {
  }

  /** MemberExpression.IsZero does not look at Computed (binary.go:443-447). */
  lemma MemberIsZeroIgnoresComputed(loc: SourceLocation, o: Option<Node>, p: Option<Node>)
    ensures IsZero(MemberExpression(loc, o, p, true)) == IsZero(MemberExpression(loc, o, p, false))
  {
  }
}
