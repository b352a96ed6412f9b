/**
 * Node.Errors: each variant's shallow validation, as a driver of the
 * nodeChecker. A function per variant states which faults the checks find
 * and in which order; each driver is proved to report exactly those, every
 * one naming the node checked.
 */
module Validation {
  import opened Wrappers
  import opened Ast
  import opened Zero
  import opened Tokens
  import opened Checker
  import Traversal

  /** A wrong-value fault unless the field is valid. */
  function Bad(valid: bool, what: Subject): seq<Fault>
  {
    if valid then [] else [Fault(WrongValue, what, None)]
  }

  /** A required operand, a checked operator, a required operand: binary.go's three Errors methods. */
  function OperatorFaults(left: Option<Node>, valid: bool, right: Option<Node>, lw: Subject, ow: Subject, rw: Subject): seq<Fault>
  {
    RequiredFault(left, lw) + Bad(valid, ow) + RequiredFault(right, rw)
  }

  /** The argument is checked before the operator when prefix, after it otherwise (unary.go). */
  function PrefixedFaults(prefix: bool, argument: Option<Node>, valid: bool, aw: Subject, ow: Subject): seq<Fault>
  {
    if prefix then RequiredFault(argument, aw) + Bad(valid, ow) else Bad(valid, ow) + RequiredFault(argument, aw)
  }

  /** TryStatement needs a handler or a finalizer that is not zero (exception.go:93). */
  predicate TryIsIncomplete(handler: CatchClause, finalizer: BlockStatement)
  {
    CatchClauseIsZero(handler) && finalizer.loc.IsZero() && |finalizer.body| == 0
  }

  // The faults each Errors method finds, in the order it checks.

  function ArrayExpressionFaults(ae: Node): seq<Fault>
    requires ae.ArrayExpression?
  {
    MissingFaults(ae.elements, ArrayElement, |ae.elements|)
  }

  function ObjectExpressionFaults(oe: Node): seq<Fault>
    requires oe.ObjectExpression?
  {
    MissingFaults(Traversal.PropertyNodes(oe.properties), ObjectProperty, |oe.properties|)
  }

  function PropertyFaults(p: Property): seq<Fault>
  {
    RequiredFault(p.key, PropertyName) + RequiredFault(p.value, PropertyExpression) + Bad(IsValidPropertyKind(p.kind), PropertyKindValue)
  }

  function FunctionExpressionFaults(fe: Node): seq<Fault>
    requires fe.FunctionExpression?
  {
    MissingFaults(fe.params, FunctionParameter, |fe.params|) + RequiredFault(Some(FunctionBodyNode(fe.functionBody)), FunctionBodyPart)
  }

  function ConditionalExpressionFaults(ce: Node): seq<Fault>
    requires ce.ConditionalExpression?
  {
    RequiredFault(ce.test, ConditionTest) + RequiredFault(ce.consequent, ConditionConsequent) + RequiredFault(ce.alternate, ConditionAlternate)
  }

  function CallExpressionFaults(ce: Node): seq<Fault>
    requires ce.CallExpression?
  {
    RequiredFault(ce.callee, Callee) + MissingFaults(ce.arguments, Argument, |ce.arguments|)
  }

  function NewExpressionFaults(ne: Node): seq<Fault>
    requires ne.NewExpression?
  {
    RequiredFault(ne.callee, NewCallee) + MissingFaults(ne.arguments, NewArgument, |ne.arguments|)
  }

  function BinaryExpressionFaults(be: Node): seq<Fault>
    requires be.BinaryExpression?
  {
    OperatorFaults(be.left, IsValidBinaryOperator(be.operator), be.right, LeftOperand, BinaryOperatorValue, RightOperand)
  }

  function AssignmentExpressionFaults(ae: Node): seq<Fault>
    requires ae.AssignmentExpression?
  {
    OperatorFaults(ae.left, IsValidAssignmentOperator(ae.operator), ae.right,
                   AssignmentLeft, AssignmentOperatorValue, AssignmentRight)
  }

  function LogicalExpressionFaults(le: Node): seq<Fault>
    requires le.LogicalExpression?
  {
    OperatorFaults(le.left, IsValidLogicalOperator(le.operator), le.right, LeftOperand, LogicalOperatorValue, RightOperand)
  }

  function MemberExpressionFaults(me: Node): seq<Fault>
    requires me.MemberExpression?
  {
    var MemberExpression(_, o, p, _) := me;
    RequiredFault(o, MemberObject) + RequiredFault(p, MemberProperty)
  }

  function UnaryExpressionFaults(ue: Node): seq<Fault>
    requires ue.UnaryExpression?
  {
    PrefixedFaults(ue.prefix, ue.argument, IsValidUnaryOperator(ue.operator), UnaryArgument, UnaryOperatorValue)
  }

  function UpdateExpressionFaults(ue: Node): seq<Fault>
    requires ue.UpdateExpression?
  {
    PrefixedFaults(ue.prefix, ue.argument, IsValidUpdateOperator(ue.operator), UpdateArgument, UpdateOperatorValue)
  }

  function IdentifierFaults(i: Identifier): seq<Fault>
  {
    Bad(i.name != "", IdentifierName)
  }

  function WithStatementFaults(ws: Node): seq<Fault>
    requires ws.WithStatement?
  {
    var WithStatement(_, o, body) := ws;
    RequiredFault(o, WithObject) + RequiredFault(body, WithBody)
  }

  function IfStatementFaults(ifs: Node): seq<Fault>
    requires ifs.IfStatement?
  {
    RequiredFault(ifs.test, IfTest) + RequiredFault(ifs.consequent, IfConsequent)
  }

  function TryStatementFaults(ts: Node): seq<Fault>
    requires ts.TryStatement?
  {
    if TryIsIncomplete(ts.handler, ts.finalizer) then [Fault(MissingNode, CatchOrFinalBlock, None)] else []
  }

  function CatchClauseFaults(cc: CatchClause): seq<Fault>
  {
    RequiredFault(cc.param, CatchParam) + RequiredFault(Some(BlockStatementNode(cc.body)), CatchBlock)
  }

  function SequenceExpressionFaults(se: Node): seq<Fault>
    requires se.SequenceExpression?
  {
    MissingFaults(se.expressions, SequenceElement, |se.expressions|)
  }

  function ExpressionStatementFaults(es: Node): seq<Fault>
    requires es.ExpressionStatement?
  {
    RequiredFault(es.expression, StatementExpression)
  }

  function BlockStatementFaults(b: BlockStatement): seq<Fault>
  {
    MissingFaults(b.body, BlockStatementPart, |b.body|)
  }

  function FunctionBodyFaults(fb: FunctionBody): seq<Fault>
  {
    MissingFaults(fb.body, DirectiveOrStatement, |fb.body|)
  }

  function SwitchStatementFaults(ss: Node): seq<Fault>
    requires ss.SwitchStatement?
  {
    RequiredFault(ss.discriminant, SwitchDiscriminant)
  }

  function SwitchCaseFaults(sc: SwitchCase): seq<Fault>
  {
    MissingFaults(sc.consequent, SwitchCaseStatement, |sc.consequent|)
  }

  function ThrowStatementFaults(ts: Node): seq<Fault>
    requires ts.ThrowStatement?
  {
    RequiredFault(ts.argument, ThrowArgument)
  }

  function ProgramFaults(p: Node): seq<Fault>
    requires p.Program?
  {
    MissingFaults(p.programBody, DirectiveOrStatement, |p.programBody|)
  }

  // The Errors methods: each makes its calls on a fresh nodeChecker, in
  // the source's order, and returns errors().

  /** ArrayExpression.Errors (expression.go:172-179). */
  method ArrayExpressionErrors(ae: Node) returns (errs: seq<SyntaxError>)
    requires ae.ArrayExpression?
    ensures Faults(errs) == ArrayExpressionFaults(ae)
    ensures forall e :: e in errs ==> e.err.Some? && e.node == Some(ae)
  {
    var ArrayExpression(_, elements) := ae;
    var a := RequireEachCall(elements, ArrayElement);
    errs := CheckNode(ae, [a]);
    ScriptFaultsOf(a, a, a, a);
  }

  /** ObjectExpression.Errors (expression.go:235-242): each property is checked as a node. */
  method ObjectExpressionErrors(oe: Node) returns (errs: seq<SyntaxError>)
    requires oe.ObjectExpression?
    ensures Faults(errs) == ObjectExpressionFaults(oe)
    ensures forall e :: e in errs ==> e.err.Some? && e.node == Some(oe)
  {
    var ObjectExpression(_, properties) := oe;
    var a := RequireEachCall(Traversal.PropertyNodes(properties), ObjectProperty);
    errs := CheckNode(oe, [a]);
    ScriptFaultsOf(a, a, a, a);
  }

  /** Property.Errors (expression.go:325-333). */
  method PropertyErrors(p: Node) returns (errs: seq<SyntaxError>)
    requires p.PropertyNode?
    ensures Faults(errs) == PropertyFaults(p.prop)
    ensures forall e :: e in errs ==> e.err.Some? && e.node == Some(p)
  {
    var PropertyNode(Property(_, key, value, kind)) := p;
    var a := RequireCall(key, PropertyName);
    var b := RequireCall(value, PropertyExpression);
    var d := AppendfWhen(!IsValidPropertyKind(kind), Fault(WrongValue, PropertyKindValue, None));
    errs := CheckNode(p, [a, b, d]);
    ScriptFaultsOf(a, b, d, d);
  }

  /** FunctionExpression.Errors (expression.go:398-407): the identifier is optional. */
  method FunctionExpressionErrors(fe: Node) returns (errs: seq<SyntaxError>)
    requires fe.FunctionExpression?
    ensures Faults(errs) == FunctionExpressionFaults(fe)
    ensures forall e :: e in errs ==> e.err.Some? && e.node == Some(fe)
  {
    errs := CheckNode(fe, FunctionExpressionScript(fe));
    FunctionExpressionScriptFaults(fe);
  }

  /** The calls FunctionExpression.Errors makes, in order. */
  function FunctionExpressionScript(fe: Node): seq<Check>
    requires fe.FunctionExpression?
  {
    [OptionalCall(Some(IdentifierNode(fe.id))),
     RequireEachCall(fe.params, FunctionParameter),
     RequireCall(Some(FunctionBodyNode(fe.functionBody)), FunctionBodyPart)]
  }

  lemma FunctionExpressionScriptFaults(fe: Node)
    requires fe.FunctionExpression?
    ensures ScriptFaults(FunctionExpressionScript(fe)) == FunctionExpressionFaults(fe)
  {
    var script := FunctionExpressionScript(fe);
    ScriptFaultsOf(script[0], script[1], script[2], script[2]);
    assert script == [script[0], script[1], script[2]];
  }

  /** ConditionalExpression.Errors (expression.go:482-488). */
  method ConditionalExpressionErrors(ce: Node) returns (errs: seq<SyntaxError>)
    requires ce.ConditionalExpression?
    ensures Faults(errs) == ConditionalExpressionFaults(ce)
    ensures forall e :: e in errs ==> e.err.Some? && e.node == Some(ce)
  {
    var ConditionalExpression(_, test, consequent, alternate) := ce;
    var a := RequireCall(test, ConditionTest);
    var b := RequireCall(consequent, ConditionConsequent);
    var d := RequireCall(alternate, ConditionAlternate);
    errs := CheckNode(ce, [a, b, d]);
    ScriptFaultsOf(a, b, d, d);
  }

  /** CallExpression.Errors (expression.go:554-562). */
  method CallExpressionErrors(ce: Node) returns (errs: seq<SyntaxError>)
    requires ce.CallExpression?
    ensures Faults(errs) == CallExpressionFaults(ce)
    ensures forall e :: e in errs ==> e.err.Some? && e.node == Some(ce)
  {
    var CallExpression(_, callee, arguments) := ce;
    var a := RequireCall(callee, Callee);
    var b := RequireEachCall(arguments, Argument);
    errs := CheckNode(ce, [a, b]);
    ScriptFaultsOf(a, b, b, b);
  }

  /** NewExpression.Errors (expression.go:626-634). */
  method NewExpressionErrors(ne: Node) returns (errs: seq<SyntaxError>)
    requires ne.NewExpression?
    ensures Faults(errs) == NewExpressionFaults(ne)
    ensures forall e :: e in errs ==> e.err.Some? && e.node == Some(ne)
  {
    var NewExpression(_, callee, arguments) := ne;
    var a := RequireCall(callee, NewCallee);
    var b := RequireEachCall(arguments, NewArgument);
    errs := CheckNode(ne, [a, b]);
    ScriptFaultsOf(a, b, b, b);
  }

  /** SequenceExpression.Errors (expression.go:689-696). */
  method SequenceExpressionErrors(se: Node) returns (errs: seq<SyntaxError>)
    requires se.SequenceExpression?
    ensures Faults(errs) == SequenceExpressionFaults(se)
    ensures forall e :: e in errs ==> e.err.Some? && e.node == Some(se)
  {
    var SequenceExpression(_, expressions) := se;
    var a := RequireEachCall(expressions, SequenceElement);
    errs := CheckNode(se, [a]);
    ScriptFaultsOf(a, a, a, a);
  }

  /** BinaryExpression.Errors (binary.go:131-139). */
  method BinaryExpressionErrors(be: Node) returns (errs: seq<SyntaxError>)
    requires be.BinaryExpression?
    ensures Faults(errs) == BinaryExpressionFaults(be)
    ensures forall e :: e in errs ==> e.err.Some? && e.node == Some(be)
  {
    var BinaryExpression(_, operator, left, right) := be;
    var a := RequireCall(left, LeftOperand);
    var b := AppendfWhen(!IsValidBinaryOperator(operator), Fault(WrongValue, BinaryOperatorValue, None));
    var d := RequireCall(right, RightOperand);
    errs := CheckNode(be, [a, b, d]);
    ScriptFaultsOf(a, b, d, d);
  }

  /** AssignmentExpression.Errors (binary.go:271-279). */
  method AssignmentExpressionErrors(ae: Node) returns (errs: seq<SyntaxError>)
    requires ae.AssignmentExpression?
    ensures Faults(errs) == AssignmentExpressionFaults(ae)
    ensures forall e :: e in errs ==> e.err.Some? && e.node == Some(ae)
  {
    var AssignmentExpression(_, operator, left, right) := ae;
    var a := RequireCall(left, AssignmentLeft);
    var b := AppendfWhen(!IsValidAssignmentOperator(operator), Fault(WrongValue, AssignmentOperatorValue, None));
    var d := RequireCall(right, AssignmentRight);
    errs := CheckNode(ae, [a, b, d]);
    ScriptFaultsOf(a, b, d, d);
  }

  /** LogicalExpression.Errors (binary.go:377-385). */
  method LogicalExpressionErrors(le: Node) returns (errs: seq<SyntaxError>)
    requires le.LogicalExpression?
    ensures Faults(errs) == LogicalExpressionFaults(le)
    ensures forall e :: e in errs ==> e.err.Some? && e.node == Some(le)
  {
    var LogicalExpression(_, operator, left, right) := le;
    var a := RequireCall(left, LeftOperand);
    var b := AppendfWhen(!IsValidLogicalOperator(operator), Fault(WrongValue, LogicalOperatorValue, None));
    var d := RequireCall(right, RightOperand);
    errs := CheckNode(le, [a, b, d]);
    ScriptFaultsOf(a, b, d, d);
  }

  /** MemberExpression.Errors (binary.go:461-466). */
  method MemberExpressionErrors(me: Node) returns (errs: seq<SyntaxError>)
    requires me.MemberExpression?
    ensures Faults(errs) == MemberExpressionFaults(me)
    ensures forall e :: e in errs ==> e.err.Some? && e.node == Some(me)
  {
    var MemberExpression(_, o, p, _) := me;
    var a := RequireCall(o, MemberObject);
    var b := RequireCall(p, MemberProperty);
    errs := CheckNode(me, [a, b]);
    ScriptFaultsOf(a, b, b, b);
  }

  /** UnaryExpression.Errors (unary.go:78-90): the argument is checked before the operator for a prefix operator, after it otherwise. */
  method UnaryExpressionErrors(ue: Node) returns (errs: seq<SyntaxError>)
    requires ue.UnaryExpression?
    ensures Faults(errs) == UnaryExpressionFaults(ue)
    ensures forall e :: e in errs ==> e.err.Some? && e.node == Some(ue)
  {
    var UnaryExpression(_, operator, prefix, argument) := ue;
    var a := RequireCall(argument, UnaryArgument);
    var b := AppendfWhen(!IsValidUnaryOperator(operator), Fault(WrongValue, UnaryOperatorValue, None));
    if prefix {
      errs := CheckNode(ue, [a, b]);
      ScriptFaultsOf(a, b, b, b);
    } else {
      errs := CheckNode(ue, [b, a]);
      ScriptFaultsOf(b, a, a, a);
    }
  }

  /** UpdateExpression.Errors (unary.go:182-194), in the same order as UnaryExpressionErrors. */
  method UpdateExpressionErrors(ue: Node) returns (errs: seq<SyntaxError>)
    requires ue.UpdateExpression?
    ensures Faults(errs) == UpdateExpressionFaults(ue)
    ensures forall e :: e in errs ==> e.err.Some? && e.node == Some(ue)
  {
    var UpdateExpression(_, operator, argument, prefix) := ue;
    var a := RequireCall(argument, UpdateArgument);
    var b := AppendfWhen(!IsValidUpdateOperator(operator), Fault(WrongValue, UpdateOperatorValue, None));
    if prefix {
      errs := CheckNode(ue, [a, b]);
      ScriptFaultsOf(a, b, b, b);
    } else {
      errs := CheckNode(ue, [b, a]);
      ScriptFaultsOf(b, a, a, a);
    }
  }

  /** Identifier.Errors (identifier.go:28-35). */
  method IdentifierErrors(i: Node) returns (errs: seq<SyntaxError>)
    requires i.IdentifierNode?
    ensures Faults(errs) == IdentifierFaults(i.identifier)
    ensures forall e :: e in errs ==> e.err.Some? && e.node == Some(i)
  {
    var IdentifierNode(Identifier(_, name)) := i;
    var a := AppendfWhen(name == "", Fault(WrongValue, IdentifierName, None));
    errs := CheckNode(i, [a]);
    ScriptFaultsOf(a, a, a, a);
  }

  /** ExpressionStatement.Errors (statement.go:120-124). */
  method ExpressionStatementErrors(es: Node) returns (errs: seq<SyntaxError>)
    requires es.ExpressionStatement?
    ensures Faults(errs) == ExpressionStatementFaults(es)
    ensures forall e :: e in errs ==> e.err.Some? && e.node == Some(es)
  {
    var ExpressionStatement(_, expression) := es;
    var a := RequireCall(expression, StatementExpression);
    errs := CheckNode(es, [a]);
    ScriptFaultsOf(a, a, a, a);
  }

  /** BlockStatement.Errors (statement.go:170-177). */
  method BlockStatementErrors(bs: Node) returns (errs: seq<SyntaxError>)
    requires bs.BlockStatementNode?
    ensures Faults(errs) == BlockStatementFaults(bs.block)
    ensures forall e :: e in errs ==> e.err.Some? && e.node == Some(bs)
  {
    var BlockStatementNode(BlockStatement(_, body)) := bs;
    var a := RequireEachCall(body, BlockStatementPart);
    errs := CheckNode(bs, [a]);
    ScriptFaultsOf(a, a, a, a);
  }

  /** FunctionBody.Errors (statement.go:229-236). */
  method FunctionBodyErrors(fb: Node) returns (errs: seq<SyntaxError>)
    requires fb.FunctionBodyNode?
    ensures Faults(errs) == FunctionBodyFaults(fb.functionBody)
    ensures forall e :: e in errs ==> e.err.Some? && e.node == Some(fb)
  {
    var FunctionBodyNode(FunctionBody(_, body)) := fb;
    var a := RequireEachCall(body, DirectiveOrStatement);
    errs := CheckNode(fb, [a]);
    ScriptFaultsOf(a, a, a, a);
  }

  /** WithStatement.Errors (statement.go:368-373). */
  method WithStatementErrors(ws: Node) returns (errs: seq<SyntaxError>)
    requires ws.WithStatement?
    ensures Faults(errs) == WithStatementFaults(ws)
    ensures forall e :: e in errs ==> e.err.Some? && e.node == Some(ws)
  {
    var WithStatement(_, o, body) := ws;
    var a := RequireCall(o, WithObject);
    var b := RequireCall(body, WithBody);
    errs := CheckNode(ws, [a, b]);
    ScriptFaultsOf(a, b, b, b);
  }

  /** IfStatement.Errors (choice.go:43-49): the alternate is optional. */
  method IfStatementErrors(ifs: Node) returns (errs: seq<SyntaxError>)
    requires ifs.IfStatement?
    ensures Faults(errs) == IfStatementFaults(ifs)
    ensures forall e :: e in errs ==> e.err.Some? && e.node == Some(ifs)
  {
    var IfStatement(_, test, consequent, alternate) := ifs;
    var a := RequireCall(test, IfTest);
    var b := RequireCall(consequent, IfConsequent);
    var d := OptionalCall(alternate);
    errs := CheckNode(ifs, [a, b, d]);
    ScriptFaultsOf(a, b, d, d);
  }

  /** SwitchStatement.Errors (choice.go:117-121): the cases are not checked. */
  method SwitchStatementErrors(ss: Node) returns (errs: seq<SyntaxError>)
    requires ss.SwitchStatement?
    ensures Faults(errs) == SwitchStatementFaults(ss)
    ensures forall e :: e in errs ==> e.err.Some? && e.node == Some(ss)
  {
    var SwitchStatement(_, discriminant, _) := ss;
    var a := RequireCall(discriminant, SwitchDiscriminant);
    errs := CheckNode(ss, [a]);
    ScriptFaultsOf(a, a, a, a);
  }

  /** SwitchCase.Errors (choice.go:179-187): a nil test is the default case. */
  method SwitchCaseErrors(sc: Node) returns (errs: seq<SyntaxError>)
    requires sc.SwitchCaseNode?
    ensures Faults(errs) == SwitchCaseFaults(sc.switchCase)
    ensures forall e :: e in errs ==> e.err.Some? && e.node == Some(sc)
  {
    var SwitchCaseNode(SwitchCase(_, test, consequent)) := sc;
    var b := RequireEachCall(consequent, SwitchCaseStatement);
    MarkedThen(OptionalCall(test), b);
    errs := CheckNode(sc, [OptionalCall(test), b]);
  }

  /** ThrowStatement.Errors (exception.go:31-35). */
  method ThrowStatementErrors(ts: Node) returns (errs: seq<SyntaxError>)
    requires ts.ThrowStatement?
    ensures Faults(errs) == ThrowStatementFaults(ts)
    ensures forall e :: e in errs ==> e.err.Some? && e.node == Some(ts)
  {
    var ThrowStatement(_, argument) := ts;
    var a := RequireCall(argument, ThrowArgument);
    errs := CheckNode(ts, [a]);
    ScriptFaultsOf(a, a, a, a);
  }

  /** TryStatement.Errors (exception.go:89-98). */
  method TryStatementErrors(ts: Node) returns (errs: seq<SyntaxError>)
    requires ts.TryStatement?
    ensures Faults(errs) == TryStatementFaults(ts)
    ensures forall e :: e in errs ==> e.err.Some? && e.node == Some(ts)
  {
    var TryStatement(_, block, handler, finalizer) := ts;
    var a := OptionalCall(Some(BlockStatementNode(block)));
    var b := OptionalCall(Some(CatchClauseNode(handler)));
    var d := AppendfWhen(TryIsIncomplete(handler, finalizer), Fault(MissingNode, CatchOrFinalBlock, None));
    var f := OptionalCall(Some(BlockStatementNode(finalizer)));
    errs := CheckNode(ts, [a, b, d, f]);
    ScriptFaultsOf(a, b, d, f);
  }

  /** CatchClause.Errors (exception.go:158-163). */
  method CatchClauseErrors(cc: Node) returns (errs: seq<SyntaxError>)
    requires cc.CatchClauseNode?
    ensures Faults(errs) == CatchClauseFaults(cc.catchClause)
    ensures forall e :: e in errs ==> e.err.Some? && e.node == Some(cc)
  {
    var CatchClauseNode(CatchClause(_, param, body)) := cc;
    var a := RequireCall(param, CatchParam);
    var b := RequireCall(Some(BlockStatementNode(body)), CatchBlock);
    errs := CheckNode(cc, [a, b]);
    ScriptFaultsOf(a, b, b, b);
  }

  /** Program.Errors (program.go:51-58). */
  method ProgramErrors(p: Node) returns (errs: seq<SyntaxError>)
    requires p.Program?
    ensures Faults(errs) == ProgramFaults(p)
    ensures forall e :: e in errs ==> e.err.Some? && e.node == Some(p)
  {
    var Program(_, body) := p;
    var a := RequireEachCall(body, DirectiveOrStatement);
    errs := CheckNode(p, [a]);
    ScriptFaultsOf(a, a, a, a);
  }

  /**
   * The faults Node.Errors finds for any node. ThisExpression, ArrayHole,
   * the literals, EmptyStatement and DebuggerStatement return nil by
   * design; ReturnStatement, LabeledStatement, BreakStatement,
   * ContinueStatement and the four loops return nil from a stub
   * (control.go:32-34, loop.go:37-39, ...); the three variants without an
   * Errors method report nothing either.
   */
  function NodeFaults(n: Node): seq<Fault>
  {
    if IsCompound(n) then CompoundFaults(n)
    else if IsOperation(n) then OperationFaults(n)
    else if IsBlockLike(n) then BlockLikeFaults(n)
    else if IsGuarded(n) then GuardedFaults(n)
    else if IsException(n) then ExceptionFaults(n)
    else []
  }

  function CompoundFaults(n: Node): seq<Fault>
    requires IsCompound(n)
  {
    match n
    case ArrayExpression(_, _) => ArrayExpressionFaults(n)
    case ObjectExpression(_, _) => ObjectExpressionFaults(n)
    case PropertyNode(p) => PropertyFaults(p)
    case FunctionExpression(_, _, _, _) => FunctionExpressionFaults(n)
    case ConditionalExpression(_, _, _, _) => ConditionalExpressionFaults(n)
    case CallExpression(_, _, _) => CallExpressionFaults(n)
    case NewExpression(_, _, _) => NewExpressionFaults(n)
    case SequenceExpression(_, _) => SequenceExpressionFaults(n)
  }

  function OperationFaults(n: Node): seq<Fault>
    requires IsOperation(n)
  {
    match n
    case BinaryExpression(_, _, _, _) => BinaryExpressionFaults(n)
    case AssignmentExpression(_, _, _, _) => AssignmentExpressionFaults(n)
    case LogicalExpression(_, _, _, _) => LogicalExpressionFaults(n)
    case MemberExpression(_, _, _, _) => MemberExpressionFaults(n)
    case UnaryExpression(_, _, _, _) => UnaryExpressionFaults(n)
    case UpdateExpression(_, _, _, _) => UpdateExpressionFaults(n)
    case IdentifierNode(i) => IdentifierFaults(i)
  }

  function BlockLikeFaults(n: Node): seq<Fault>
    requires IsBlockLike(n)
  {
    match n
    case BlockStatementNode(b) => BlockStatementFaults(b)
    case FunctionBodyNode(fb) => FunctionBodyFaults(fb)
    case Program(_, _) => ProgramFaults(n)
    case SwitchCaseNode(sc) => SwitchCaseFaults(sc)
  }

  function GuardedFaults(n: Node): seq<Fault>
    requires IsGuarded(n)
  {
    match n
    case ExpressionStatement(_, _) => ExpressionStatementFaults(n)
    case WithStatement(_, _, _) => WithStatementFaults(n)
    case IfStatement(_, _, _, _) => IfStatementFaults(n)
    case SwitchStatement(_, _, _) => SwitchStatementFaults(n)
  }

  function ExceptionFaults(n: Node): seq<Fault>
    requires IsException(n)
  {
    match n
    case ThrowStatement(_, _) => ThrowStatementFaults(n)
    case TryStatement(_, _, _, _) => TryStatementFaults(n)
    case CatchClauseNode(cc) => CatchClauseFaults(cc)
  }

  /** The variants whose Errors method returns nil whatever the node holds. */
  predicate Unchecked(n: Node)
  {
    n.ThisExpression? || n.ArrayHole? || IsLiteral(n) || n.EmptyStatement? || n.DebuggerStatement?
    || n.ReturnStatement? || n.LabeledStatement? || n.BreakStatement? || n.ContinueStatement?
    || n.WhileStatement? || n.DoWhileStatement? || n.ForStatement? || n.ForInStatement?
    || n.FunctionDeclaration? || n.VariableDeclaration? || n.Directive?
  }

  predicate IsCompound(n: Node)
  {
    n.ArrayExpression? || n.ObjectExpression? || n.PropertyNode? || n.FunctionExpression?
    || n.ConditionalExpression? || n.CallExpression? || n.NewExpression? || n.SequenceExpression?
  }

  predicate IsOperation(n: Node)
  {
    n.BinaryExpression? || n.AssignmentExpression? || n.LogicalExpression? || n.MemberExpression?
    || n.UnaryExpression? || n.UpdateExpression? || n.IdentifierNode?
  }

  /** The statements made of a list of statements. */
  predicate IsBlockLike(n: Node)
  {
    n.BlockStatementNode? || n.FunctionBodyNode? || n.Program? || n.SwitchCaseNode?
  }

  /** The statements with required children. */
  predicate IsGuarded(n: Node)
  {
    n.ExpressionStatement? || n.WithStatement? || n.IfStatement? || n.SwitchStatement?
  }

  predicate IsException(n: Node)
  {
    n.ThrowStatement? || n.TryStatement? || n.CatchClauseNode?
  }

  /** Node.Errors: the variant's own method, or no errors for an unchecked variant. */
  method NodeErrors(n: Node) returns (errs: seq<SyntaxError>)
    ensures Faults(errs) == NodeFaults(n)
    ensures forall e :: e in errs ==> e.err.Some? && e.node == Some(n)
  {
    if IsCompound(n) {
      errs := CompoundErrors(n);
    } else if IsOperation(n) {
      errs := OperationErrors(n);
    } else if IsBlockLike(n) {
      errs := BlockLikeErrors(n);
    } else if IsGuarded(n) {
      errs := GuardedErrors(n);
    } else if IsException(n) {
      errs := ExceptionErrors(n);
    } else {
      errs := [];
    }
  }

  method CompoundErrors(n: Node) returns (errs: seq<SyntaxError>)
    requires IsCompound(n)
    ensures Faults(errs) == CompoundFaults(n)
    ensures forall e :: e in errs ==> e.err.Some? && e.node == Some(n)
  {
    match n
    case ArrayExpression(_, _) => errs := ArrayExpressionErrors(n);
    case ObjectExpression(_, _) => errs := ObjectExpressionErrors(n);
    case PropertyNode(_) => errs := PropertyErrors(n);
    case FunctionExpression(_, _, _, _) => errs := FunctionExpressionErrors(n);
    case ConditionalExpression(_, _, _, _) => errs := ConditionalExpressionErrors(n);
    case CallExpression(_, _, _) => errs := CallExpressionErrors(n);
    case NewExpression(_, _, _) => errs := NewExpressionErrors(n);
    case SequenceExpression(_, _) => errs := SequenceExpressionErrors(n);
  }

  method OperationErrors(n: Node) returns (errs: seq<SyntaxError>)
    requires IsOperation(n)
    ensures Faults(errs) == OperationFaults(n)
    ensures forall e :: e in errs ==> e.err.Some? && e.node == Some(n)
  {
    match n
    case BinaryExpression(_, _, _, _) => errs := BinaryExpressionErrors(n);
    case AssignmentExpression(_, _, _, _) => errs := AssignmentExpressionErrors(n);
    case LogicalExpression(_, _, _, _) => errs := LogicalExpressionErrors(n);
    case MemberExpression(_, _, _, _) => errs := MemberExpressionErrors(n);
    case UnaryExpression(_, _, _, _) => errs := UnaryExpressionErrors(n);
    case UpdateExpression(_, _, _, _) => errs := UpdateExpressionErrors(n);
    case IdentifierNode(_) => errs := IdentifierErrors(n);
  }

  method BlockLikeErrors(n: Node) returns (errs: seq<SyntaxError>)
    requires IsBlockLike(n)
    ensures Faults(errs) == BlockLikeFaults(n)
    ensures forall e :: e in errs ==> e.err.Some? && e.node == Some(n)
  {
    match n
    case BlockStatementNode(_) => errs := BlockStatementErrors(n);
    case FunctionBodyNode(_) => errs := FunctionBodyErrors(n);
    case Program(_, _) => errs := ProgramErrors(n);
    case SwitchCaseNode(_) => errs := SwitchCaseErrors(n);
  }

  method GuardedErrors(n: Node) returns (errs: seq<SyntaxError>)
    requires IsGuarded(n)
    ensures Faults(errs) == GuardedFaults(n)
    ensures forall e :: e in errs ==> e.err.Some? && e.node == Some(n)
  {
    match n
    case ExpressionStatement(_, _) => errs := ExpressionStatementErrors(n);
    case WithStatement(_, _, _) => errs := WithStatementErrors(n);
    case IfStatement(_, _, _, _) => errs := IfStatementErrors(n);
    case SwitchStatement(_, _, _) => errs := SwitchStatementErrors(n);
  }

  method ExceptionErrors(n: Node) returns (errs: seq<SyntaxError>)
    requires IsException(n)
    ensures Faults(errs) == ExceptionFaults(n)
    ensures forall e :: e in errs ==> e.err.Some? && e.node == Some(n)
  {
    match n
    case ThrowStatement(_, _) => errs := ThrowStatementErrors(n);
    case TryStatement(_, _, _, _) => errs := TryStatementErrors(n);
    case CatchClauseNode(_) => errs := CatchClauseErrors(n);
  }

  // What the checks promise, stated on the fault functions.

  predicate HasFault(faults: seq<Fault>, s: Sentinel)
  {
    exists j :: 0 <= j < |faults| && faults[j].sentinel == s
  }

  /**
   * A binary, assignment or logical expression passes exactly when both
   * operands are present and the operator is in its token set; an invalid
   * operator is the only wrong-value fault, and a missing left operand is
   * reported first.
   */
  lemma OperatorFaultsShape(left: Option<Node>, valid: bool, right: Option<Node>, lw: Subject, ow: Subject, rw: Subject)
    ensures var r := OperatorFaults(left, valid, right, lw, ow, rw);
      (r == [] <==> !Missing(left) && valid && !Missing(right))
      && (HasFault(r, WrongValue) <==> !valid)
      && (Missing(left) ==> r[0] == Fault(MissingNode, lw, None))
      && (Missing(right) ==> r[|r| - 1] == Fault(MissingNode, rw, None))
      && |r| == (if Missing(left) then 1 else 0) + (if valid then 0 else 1) + (if Missing(right) then 1 else 0)
  {
    var r := OperatorFaults(left, valid, right, lw, ow, rw);
    if !valid {
      var j := if Missing(left) then 1 else 0;
      assert r[j].sentinel == WrongValue;
    }
  }

  /**
   * A prefix unary or update expression reports a missing argument before a
   * bad operator; a postfix one reports them the other way round.
   */
  lemma PrefixedFaultOrder(prefix: bool, argument: Option<Node>, valid: bool, aw: Subject, ow: Subject)
    requires Missing(argument) && !valid
    ensures var r := PrefixedFaults(prefix, argument, valid, aw, ow);
      |r| == 2
      && (prefix ==> r == [Fault(MissingNode, aw, None), Fault(WrongValue, ow, None)])
      && (!prefix ==> r == [Fault(WrongValue, ow, None), Fault(MissingNode, aw, None)])
  {
  }

  /** Whatever the order, a unary or update expression passes exactly when its argument and operator are good. */
  lemma PrefixedFaultsEmpty(prefix: bool, argument: Option<Node>, valid: bool, aw: Subject, ow: Subject)
    ensures PrefixedFaults(prefix, argument, valid, aw, ow) == [] <==> !Missing(argument) && valid
    ensures multiset(PrefixedFaults(prefix, argument, valid, aw, ow)) == multiset(PrefixedFaults(!prefix, argument, valid, aw, ow))
  {
  }

  /** An identifier has a fault exactly when its name is empty, and then only a wrong value. */
  lemma IdentifierFaultsIffEmptyName(i: Identifier)
    ensures IdentifierFaults(i) != [] <==> i.name == ""
    ensures forall f :: f in IdentifierFaults(i) ==> f.sentinel == WrongValue
  {
  }

  /**
   * A try statement is reported exactly when it has neither a handler nor a
   * finalizer; the try block itself is never checked, so a zero try
   * statement is reported.
   */
  lemma TryFaultsIffIncomplete(loc: SourceLocation, block: BlockStatement, handler: CatchClause, finalizer: BlockStatement)
    ensures var ts := TryStatement(loc, block, handler, finalizer);
      (TryStatementFaults(ts) != [] <==> CatchClauseIsZero(handler) && finalizer.loc.IsZero() && |finalizer.body| == 0)
      && TryStatementFaults(ts) == TryStatementFaults(TryStatement(loc, ZeroBlock, handler, finalizer))
      && (IsZero(ts) ==> TryStatementFaults(ts) == [Fault(MissingNode, CatchOrFinalBlock, None)])
  {
  }

  /**
   * The required function body is a struct field, never nil and never zero,
   * so its check never fires: only the parameters can be reported.
   */
  lemma FunctionBodyNeverMissing(fe: Node)
    requires fe.FunctionExpression?
    ensures FunctionExpressionFaults(fe) == MissingFaults(fe.params, FunctionParameter, |fe.params|)
  {
    assert !IsZero(FunctionBodyNode(fe.functionBody));
  }

  /** Likewise the catch block: only a missing parameter is reported. */
  lemma CatchBlockNeverMissing(cc: CatchClause)
    ensures CatchClauseFaults(cc) == RequiredFault(cc.param, CatchParam)
  {
    assert !IsZero(BlockStatementNode(cc.body));
  }

  /** The alternate of an if statement is optional: it never adds a fault. */
  lemma IfAlternateUnchecked(loc: SourceLocation, t: Option<Node>, c: Option<Node>, a: Option<Node>)
    ensures IfStatementFaults(IfStatement(loc, t, c, a)) == IfStatementFaults(IfStatement(loc, t, c, None))
    ensures |IfStatementFaults(IfStatement(loc, t, c, a))| <= 2
  {
  }

  /**
   * Every nil or zero array element is reported by its index, in index
   * order (that every fault names such an element is MissingFaults' own
   * postcondition).
   */
  lemma ArrayFaultsByIndex(ae: Node)
    requires ae.ArrayExpression?
    ensures forall i :: 0 <= i < |ae.elements| && Missing(ae.elements[i]) ==>
      Fault(MissingNode, ArrayElement, Some(i)) in ArrayExpressionFaults(ae)
    ensures forall j, j' :: 0 <= j < j' < |ArrayExpressionFaults(ae)| ==>
      ArrayExpressionFaults(ae)[j].index.value < ArrayExpressionFaults(ae)[j'].index.value
  {
    MissingFaultsComplete(ae.elements, ArrayElement, |ae.elements|);
    MissingFaultsOrdered(ae.elements, ArrayElement, |ae.elements|);
  }

  /**
   * An object expression is reported for each nil or zero property, and a
   * property is zero only when its location, key, value and kind all are.
   */
  lemma ObjectFaultsByIndex(oe: Node)
    requires oe.ObjectExpression?
    ensures ObjectExpressionFaults(oe) == [] <==> forall i :: 0 <= i < |oe.properties| ==> !PropertyIsZero(oe.properties[i])
  {
    var nodes := Traversal.PropertyNodes(oe.properties);
    MissingFaultsEmpty(nodes, ObjectProperty, |oe.properties|);
    assert forall i :: 0 <= i < |oe.properties| ==> (Missing(nodes[i]) <==> PropertyIsZero(oe.properties[i]));
  }

  /**
   * The unchecked variants accept anything, even a node whose required
   * children are all nil: a zero return statement or loop has no fault.
   */
  lemma UncheckedAcceptsAll(n: Node)
    requires Unchecked(n)
    ensures NodeFaults(n) == []
  {
    assert !IsCompound(n) && !IsOperation(n) && !IsBlockLike(n) && !IsGuarded(n) && !IsException(n);
  }

  /**
   * A zero binary, assignment or logical expression reports all three of its
   * checks: both operands missing and the empty operator unrecognized.
   */
  lemma ZeroOperatorExpressionFaults(n: Node)
    requires n.BinaryExpression? || n.AssignmentExpression? || n.LogicalExpression?
    requires IsZero(n)
    ensures |NodeFaults(n)| == 3
    ensures NodeFaults(n)[0].sentinel == MissingNode && NodeFaults(n)[1].sentinel == WrongValue && NodeFaults(n)[2].sentinel == MissingNode
  {
    assert n.operator == "";
  }
}
