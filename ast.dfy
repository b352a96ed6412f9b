/**
 * The ESTree (ES5) node layer: source positions, ECMAScript versions, and the
 * node variants with the methods every node shares (Type, Location,
 * MinVersion) and the marker interfaces that say where a node may appear.
 *
 * Go's nodes are structs behind interfaces; here they are one datatype whose
 * constructors carry the Go type names. Children held in an interface-typed
 * field are Option<Node> (None is Go's nil interface). Fields whose Go type is
 * a concrete struct (Identifier, BlockStatement, FunctionBody, Property,
 * SwitchCase, CatchClause, VariableDeclarator) use the record datatypes below,
 * which are never nil; IdentifierNode, BlockStatementNode, ... wrap them when
 * the struct itself is used as a Node.
 */
module Ast {
  import opened Wrappers
  import Text

  /** A line (from 1) and column (from 0) in the parsed source. */
  datatype Position = Position(line: int, column: int)
  {
    /** Position.IsZero: no information about the source location. */
    predicate IsZero() { line == 0 && column == 0 }
  }

  const ZeroPosition := Position(0, 0)

  /** The source, start and end (exclusive) of a node. */
  datatype SourceLocation = SourceLocation(source: string, start: Position, end: Position)
  {
    /** SourceLocation.IsZero: no information about the source location. */
    predicate IsZero() { source == "" && start.IsZero() && end.IsZero() }
  }

  const ZeroLocation := SourceLocation("", ZeroPosition, ZeroPosition)

  lemma ZeroLocationIsOnlyZero(sl: SourceLocation)
    ensures sl.IsZero() <==> sl == ZeroLocation
  {
  }

  /** A revision of the ECMAScript standard (Go: type Version int). */
  type Version = int

  const ES5: Version := 5
  const ES6: Version := 6
  const ES2015: Version := ES6
  const ES2016: Version := 7
  const ES2017: Version := 8
  const ES2018: Version := 9
  const ES2019: Version := 10
  const ES2020: Version := 11
  const ES2021: Version := 12

  /** Version.String: the name of a known revision, otherwise its number. */
  function VersionString(v: Version): (s: string)
    ensures ES5 <= v <= ES2021 ==> |s| >= 3 && s[0] == 'E' && s[1] == 'S'
    ensures !(ES5 <= v <= ES2021) ==> s == Text.Decimal(v)
  {
    if v == ES5 then "ES5"
    else if v == ES6 then "ES6"
    else if v == ES2016 then "ES2016"
    else if v == ES2017 then "ES2017"
    else if v == ES2018 then "ES2018"
    else if v == ES2019 then "ES2019"
    else if v == ES2020 then "ES2020"
    else if v == ES2021 then "ES2021"
    else Text.Decimal(v)
  }

  /** No two versions print alike, and ES2015 prints as its alias ES6. */
  lemma VersionStringInjective(v: Version, w: Version)
    requires VersionString(v) == VersionString(w)
    ensures v == w
  {
    Text.DecimalRoundTrip(v);
    Text.DecimalRoundTrip(w);
  }

  datatype Node =
    // expression.go
    | ThisExpression(loc: SourceLocation)
    | ArrayHole
    | ArrayExpression(loc: SourceLocation, elements: seq<Option<Node>>)
    | ObjectExpression(loc: SourceLocation, properties: seq<Property>)
    | PropertyNode(prop: Property)
    | FunctionExpression(loc: SourceLocation, id: Identifier, params: seq<Option<Node>>, functionBody: FunctionBody)
    | ConditionalExpression(loc: SourceLocation, test: Option<Node>, consequent: Option<Node>, alternate: Option<Node>)
    | CallExpression(loc: SourceLocation, callee: Option<Node>, arguments: seq<Option<Node>>)
    | NewExpression(loc: SourceLocation, callee: Option<Node>, arguments: seq<Option<Node>>)
    | SequenceExpression(loc: SourceLocation, expressions: seq<Option<Node>>)
    // binary.go
    | BinaryExpression(loc: SourceLocation, operator: string, left: Option<Node>, right: Option<Node>)
    | AssignmentExpression(loc: SourceLocation, operator: string, left: Option<Node>, right: Option<Node>)
    | LogicalExpression(loc: SourceLocation, operator: string, left: Option<Node>, right: Option<Node>)
    | MemberExpression(loc: SourceLocation, object: Option<Node>, property: Option<Node>, computed: bool)
    // unary.go
    | UnaryExpression(loc: SourceLocation, operator: string, prefix: bool, argument: Option<Node>)
    | UpdateExpression(loc: SourceLocation, operator: string, argument: Option<Node>, prefix: bool)
    // literal.go
    | StringLiteral(loc: SourceLocation, stringValue: string)
    | BoolLiteral(loc: SourceLocation, boolValue: bool)
    | NullLiteral(loc: SourceLocation)
    | NumberLiteral(loc: SourceLocation, numberValue: real)
    | RegExpLiteral(loc: SourceLocation, pattern: string, flags: string)
    // identifier.go
    | IdentifierNode(identifier: Identifier)
    // statement.go
    | ExpressionStatement(loc: SourceLocation, expression: Option<Node>)
    | BlockStatementNode(block: BlockStatement)
    | FunctionBodyNode(functionBody: FunctionBody)
    | EmptyStatement(loc: SourceLocation)
    | DebuggerStatement(loc: SourceLocation)
    | WithStatement(loc: SourceLocation, object: Option<Node>, body: Option<Node>)
    // control.go
    | ReturnStatement(loc: SourceLocation, argument: Option<Node>)
    | LabeledStatement(loc: SourceLocation, labelId: Identifier, body: Option<Node>)
    | BreakStatement(loc: SourceLocation, labelId: Identifier)
    | ContinueStatement(loc: SourceLocation, labelId: Identifier)
    // choice.go
    | IfStatement(loc: SourceLocation, test: Option<Node>, consequent: Option<Node>, alternate: Option<Node>)
    | SwitchStatement(loc: SourceLocation, discriminant: Option<Node>, cases: seq<SwitchCase>)
    | SwitchCaseNode(switchCase: SwitchCase)
    // exception.go
    | ThrowStatement(loc: SourceLocation, argument: Option<Node>)
    | TryStatement(loc: SourceLocation, block: BlockStatement, handler: CatchClause, finalizer: BlockStatement)
    | CatchClauseNode(catchClause: CatchClause)
    // loop.go
    | WhileStatement(loc: SourceLocation, test: Option<Node>, body: Option<Node>)
    | DoWhileStatement(loc: SourceLocation, body: Option<Node>, test: Option<Node>)
    | ForStatement(loc: SourceLocation, init: Option<Node>, test: Option<Node>, update: Option<Node>, body: Option<Node>)
    | ForInStatement(loc: SourceLocation, left: Option<Node>, right: Option<Node>, body: Option<Node>)
    // program.go
    | Program(loc: SourceLocation, programBody: seq<Option<Node>>)
    // declaration.go
    | FunctionDeclaration(id: Identifier, params: seq<Option<Node>>, functionBody: FunctionBody)
    | VariableDeclaration(declarations: seq<VariableDeclarator>, kind: string)
    // directive.go
    | Directive(expression: Option<Node>, directive: string)

  datatype Identifier = Identifier(loc: SourceLocation, name: string)
  datatype BlockStatement = BlockStatement(loc: SourceLocation, body: seq<Option<Node>>)
  datatype FunctionBody = FunctionBody(loc: SourceLocation, body: seq<Option<Node>>)
  datatype Property = Property(loc: SourceLocation, key: Option<Node>, value: Option<Node>, kind: string)
  datatype SwitchCase = SwitchCase(loc: SourceLocation, test: Option<Node>, consequent: seq<Option<Node>>)
  datatype CatchClause = CatchClause(loc: SourceLocation, param: Option<Node>, body: BlockStatement)
  datatype VariableDeclarator = VariableDeclarator(id: Option<Node>, init: Option<Node>)

  const ZeroIdentifier := Identifier(ZeroLocation, "")
  const ZeroBlock := BlockStatement(ZeroLocation, [])
  const ZeroFunctionBody := FunctionBody(ZeroLocation, [])
  const ZeroCatchClause := CatchClause(ZeroLocation, None, ZeroBlock)

  /** The "type" string of every literal variant. */
  const LiteralType := "Literal"

  /** Node.Type: the ESTree type string, as each variant's Type method returns it. */
  function Type(n: Node): string
  {
    match n
    case ThisExpression(_) => "ThisExpression"
    case ArrayHole => "ArrayHole"
    case ArrayExpression(_, _) => "ArrayExpression"
    case ObjectExpression(_, _) => "ObjectExpression"
    case PropertyNode(_) => "Property"
    case FunctionExpression(_, _, _, _) => "FunctionExpression"
    case ConditionalExpression(_, _, _, _) => "ConditionalExpression"
    case CallExpression(_, _, _) => "CallExpression"
    case NewExpression(_, _, _) => "NewExpression"
    case SequenceExpression(_, _) => "SequenceExpression"
    case BinaryExpression(_, _, _, _) => "BinaryExpression"
    case AssignmentExpression(_, _, _, _) => "AssignmentExpression"
    case LogicalExpression(_, _, _, _) => "LogicalExpression"
    case MemberExpression(_, _, _, _) => "MemberExpression"
    case UnaryExpression(_, _, _, _) => "UnaryExpression"
    case UpdateExpression(_, _, _, _) => "UpdateExpression"
    case StringLiteral(_, _) => LiteralType
    case BoolLiteral(_, _) => LiteralType
    case NullLiteral(_) => LiteralType
    case NumberLiteral(_, _) => LiteralType
    case RegExpLiteral(_, _, _) => LiteralType
    case IdentifierNode(_) => "Identifier"
    case ExpressionStatement(_, _) => "ExpressionStatement"
    case BlockStatementNode(_) => "BlockStatement"
    // FunctionBody reports the type of BlockStatement (statement.go:216)
    case FunctionBodyNode(_) => "BlockStatement"
    case EmptyStatement(_) => "EmptyStatement"
    case DebuggerStatement(_) => "DebuggerStatement"
    case WithStatement(_, _, _) => "WithStatement"
    case ReturnStatement(_, _) => "ReturnStatement"
    case LabeledStatement(_, _, _) => "LabeledStatement"
    case BreakStatement(_, _) => "BreakStatement"
    case ContinueStatement(_, _) => "ContinueStatement"
    case IfStatement(_, _, _, _) => "IfStatement"
    case SwitchStatement(_, _, _) => "SwitchStatement"
    case SwitchCaseNode(_) => "SwitchCase"
    case ThrowStatement(_, _) => "ThrowStatement"
    case TryStatement(_, _, _, _) => "TryStatement"
    case CatchClauseNode(_) => "CatchClause"
    case WhileStatement(_, _, _) => "WhileStatement"
    case DoWhileStatement(_, _, _) => "DoWhileStatement"
    case ForStatement(_, _, _, _, _) => "ForStatement"
    case ForInStatement(_, _, _, _) => "ForInStatement"
    case Program(_, _) => "Program"
    // the misspellings are the source's own (declaration.go:28, 129)
    case FunctionDeclaration(_, _, _) => "FunctionDelaration"
    case VariableDeclaration(_, _) => "VariableDelaration"
    case Directive(_, _) => "Directive"
  }

  /**
   * Type tells the variants apart except in two places: the five literals
   * share "Literal", and FunctionBody reports BlockStatement's type.
   */
  lemma TypeSharedStrings(n: Node)
    ensures Type(n) == LiteralType <==> IsLiteral(n)
    ensures Type(n) == "BlockStatement" <==> n.BlockStatementNode? || n.FunctionBodyNode?
  {
  }

  /** The type string VariableDeclarator.Type returns (declaration.go:166). */
  const VariableDeclaratorType := "VariableDelarator"

  /**
   * Node.Location. ArrayHole has none; FunctionDeclaration,
   * VariableDeclaration and Directive have no Location method and no location
   * field, so the model gives them the zero location.
   */
  function Location(n: Node): (sl: SourceLocation)
    ensures n.ArrayHole? || n.FunctionDeclaration? || n.VariableDeclaration? || n.Directive? ==> sl.IsZero()
  {
    match n
    case ArrayHole => ZeroLocation
    case PropertyNode(p) => p.loc
    case IdentifierNode(i) => i.loc
    case BlockStatementNode(b) => b.loc
    case FunctionBodyNode(fb) => fb.loc
    case SwitchCaseNode(sc) => sc.loc
    case CatchClauseNode(cc) => cc.loc
    case FunctionDeclaration(_, _, _) => ZeroLocation
    case VariableDeclaration(_, _) => ZeroLocation
    case Directive(_, _) => ZeroLocation
    case _ => n.loc
  }

  /**
   * Node.MinVersion is defined for every node except an ExpressionStatement
   * whose expression is nil: Go calls MinVersion on the nil interface and
   * panics (statement.go:103-105).
   */
  predicate HasMinVersion(n: Node)
  {
    match n
    case ExpressionStatement(_, e) => e.Some? && HasMinVersion(e.value)
    case _ => true
  }

  /**
   * Node.MinVersion: every variant reports ES5, except ExpressionStatement,
   * which reports its expression's (statement.go:103-105).
   * FunctionDeclaration and VariableDeclaration report ES5 through the
   * baseStatement that their baseDeclaration embeds (declaration.go:15-17,
   * statement.go:89). Directive has no MinVersion method at all; the model
   * gives it ES5 as well.
   */
  function MinVersion(n: Node): (v: Version)
    requires HasMinVersion(n)
    ensures v == ES5
  {
    match n
    case ExpressionStatement(_, e) => MinVersion(e.value)
    case _ => ES5
  }

  // The marker interfaces. A node belongs to a group when its Go type has the
  // group's marker method (expression.go:12-18, literal.go:10-15, pattern.go,
  // statement.go:9-12, program.go:9-12, declaration.go).

  predicate IsLiteral(n: Node)
  {
    n.StringLiteral? || n.BoolLiteral? || n.NullLiteral? || n.NumberLiteral? || n.RegExpLiteral?
  }

  /**
   * ExpressionStatement embeds the Expression interface, so Go promotes the
   * Expression markers to it and it satisfies Expression too.
   */
  predicate IsExpression(n: Node)
  {
    n.ThisExpression? || n.ArrayExpression? || n.ObjectExpression? || n.FunctionExpression?
    || n.ConditionalExpression? || n.CallExpression? || n.NewExpression? || n.SequenceExpression?
    || n.BinaryExpression? || n.AssignmentExpression? || n.LogicalExpression? || n.MemberExpression?
    || n.UnaryExpression? || n.UpdateExpression? || IsLiteral(n) || n.ExpressionStatement?
  }

  predicate IsPattern(n: Node) { n.IdentifierNode? }

  predicate IsStatement(n: Node)
  {
    n.ExpressionStatement? || n.BlockStatementNode? || n.FunctionBodyNode? || n.EmptyStatement?
    || n.DebuggerStatement? || n.WithStatement? || n.ReturnStatement? || n.LabeledStatement?
    || n.BreakStatement? || n.ContinueStatement? || n.IfStatement? || n.SwitchStatement?
    || n.ThrowStatement? || n.TryStatement? || n.WhileStatement? || n.DoWhileStatement?
    || n.ForStatement? || n.ForInStatement? || n.FunctionDeclaration? || n.VariableDeclaration?
  }

  predicate IsDirectiveOrStatement(n: Node) { IsStatement(n) || n.Directive? }
  predicate IsExpressionOrArrayHole(n: Node) { IsExpression(n) || n.ArrayHole? }
  predicate IsPatternOrExpression(n: Node) { IsPattern(n) || IsExpression(n) }
  predicate IsLiteralOrIdentifier(n: Node) { IsLiteral(n) || n.IdentifierNode? }
  predicate IsVariableDeclarationOrExpression(n: Node) { n.VariableDeclaration? || IsExpression(n) }
  predicate IsVariableDeclarationOrPattern(n: Node) { n.VariableDeclaration? || IsPattern(n) }

  /** A nil interface or a node of the group. */
  predicate Holds(o: Option<Node>, group: Node -> bool)
  {
    o.Some? ==> group(o.value)
  }

  predicate AllHold(s: seq<Option<Node>>, group: Node -> bool)
  {
    forall i :: 0 <= i < |s| ==> Holds(s[i], group)
  }
}
