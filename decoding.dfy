/**
 * Decoding ESTree JSON into nodes: each node's UnmarshalJSON, and the
 * unmarshalX dispatchers that read a message's "type" member and hand the
 * message to the decoder of that variant.
 *
 * A node decoder is json.Unmarshal into an anonymous struct x (Json.Members,
 * Json.UnmarshalError), the type check, and then the assignments of the
 * receiver's fields, which happen only when both succeeded. Receivers are
 * the zero value at every call site, so each decoder returns the receiver's
 * final state and the error; Identifier alone takes its receiver, because
 * unmarshalLiteralOrIdentifier returns it whatever happened. The error
 * bookkeeping follows the source line by line, including the places where a
 * later call overwrites an earlier error.
 *
 * A dispatcher returns (node, matched, error); the node is nil whenever the
 * error is not. The unions that return two results give (node, error).
 */
module Decoding {
  import opened Wrappers
  import opened Json
  import opened Ast
  import Tokens

  type Fields = map<string, Json>

  /** The (value, match, err) triple of unmarshalExpression, unmarshalStatement, ... */
  datatype Dispatched = Dispatched(node: Option<Node>, matched: bool, err: Option<DecodeError>)

  // The type strings unmarshalExpression accepts (expression.go:26-66), by the file that defines them.
  const PrimaryTypes: set<string> := {"ThisExpression", "ArrayExpression", "ObjectExpression", "FunctionExpression"}
  const CompoundTypes: set<string> := {"ConditionalExpression", "CallExpression", "NewExpression", "SequenceExpression"}
  const UnaryTypes: set<string> := {"UnaryExpression", "UpdateExpression"}
  const BinaryTypes: set<string> := {"BinaryExpression", "AssignmentExpression", "LogicalExpression", "MemberExpression"}
  const ExpressionTypes: set<string> := PrimaryTypes + CompoundTypes + UnaryTypes + BinaryTypes

  // The type strings unmarshalStatement accepts (statement.go:23-76), by the file that defines them.
  const SimpleStatementTypes: set<string> := {"ExpressionStatement", "BlockStatement", "EmptyStatement", "DebuggerStatement", "WithStatement"}
  const ControlTypes: set<string> := {"ReturnStatement", "LabeledStatement", "BreakStatement", "ContinueStatement"}
  const ChoiceTypes: set<string> := {"IfStatement", "SwitchStatement", "ThrowStatement", "TryStatement"}
  const LoopTypes: set<string> := {"WhileStatement", "DoWhileStatement", "ForStatement", "ForInStatement"}
  const StatementTypes: set<string> := SimpleStatementTypes + ControlTypes + ChoiceTypes + LoopTypes

  const ZeroProperty := Property(ZeroLocation, None, None, "")
  const ZeroSwitchCase := SwitchCase(ZeroLocation, None, [])
  const ZeroDeclarator := VariableDeclarator(None, None)

  // ---------------------------------------------------------------------
  // Field helpers shared by the decoders
  // ---------------------------------------------------------------------

  /**
   * Position has no json tags, so its members are "Line" and "Column";
   * the lower-case spellings are accepted too. An absent member is left
   * alone.
   */
  function DecodePosition(m: Raw): (r: Decoded<Position>)
    ensures m.None? ==> r == Decoded(ZeroPosition, None)
  {
    if m.None? then Decoded(ZeroPosition, None)
    else
      var o := Members(m);
      var line := IntOf(FieldEither(o.value, "Line", "line"));
      var column := IntOf(FieldEither(o.value, "Column", "column"));
      Decoded(Position(line.value, column.value), FirstError([o.err, line.err, column.err]))
  }

  /**
   * SourceLocation has no UnmarshalJSON: it decodes as a plain struct whose
   * members "source", "start" and "end" match its field names.
   */
  function DecodeLocation(m: Raw): (r: Decoded<SourceLocation>)
    ensures m.None? ==> r == Decoded(ZeroLocation, None)
  {
    if m.None? then Decoded(ZeroLocation, None)
    else
      var o := Members(m);
      var source := StringOf(FieldEither(o.value, "source", "Source"));
      var start := DecodePosition(FieldEither(o.value, "start", "Start"));
      var end := DecodePosition(FieldEither(o.value, "end", "End"));
      Decoded(SourceLocation(source.value, start.value, end.value), FirstError([o.err, source.err, start.err, end.err]))
  }

  /** x.Type. */
  function TypeField(fs: Fields): Decoded<string>
  {
    StringOf(Field(fs, "type"))
  }

  /** x.Loc. */
  function LocField(fs: Fields): Decoded<SourceLocation>
  {
    DecodeLocation(Field(fs, "loc"))
  }

  /** `if err == nil && x.Type != want { err = ErrWrongType }` */
  function CheckType(err: Option<DecodeError>, got: string, want: string): (e: Option<DecodeError>)
    ensures e.None? <==> err.None? && got == want
    ensures err.Some? ==> e == err
  {
    if err.None? && got != want then Some(ErrWrongType) else err
  }

  /** `if err == nil && err2 != nil { err = err2 }` */
  function KeepFirst(err: Option<DecodeError>, err2: Option<DecodeError>): (e: Option<DecodeError>)
    ensures e == FirstError([err, err2])
  {
    if err.None? then err2 else err
  }

  /** json.Unmarshal(m, &x) for x struct { Type string }: the discriminator read by every dispatcher. */
  function PeekType(m: Raw): (r: Decoded<string>)
    ensures r.err.None? ==> m.Some? && (m.value.JNull? || m.value.JObject?)
    ensures m.None? ==> r.err == Some(ErrSyntax)
  {
    var o := Members(m);
    var ty := TypeField(o.value);
    Decoded(ty.value, UnmarshalError(o.err, [], [ty.err]))
  }

  /** `e, match, err = x, true, json.Unmarshal(m, &x)` followed by `if err != nil { e = nil }`. */
  function Matched(d: Decoded<Node>): (r: Dispatched)
    ensures r.matched && r.err == d.err
    ensures r.node.Some? <==> d.err.None?
    ensures r.node.Some? ==> r.node.value == d.value
  {
    Dispatched(if d.err.None? then Some(d.value) else None, true, d.err)
  }

  // ---------------------------------------------------------------------
  // identifier.go, literal.go, pattern.go: the leaves
  // ---------------------------------------------------------------------

  /**
   * Identifier.UnmarshalJSON (identifier.go:43-57). The receiver changes
   * only when the message is an object (or null) of type "Identifier".
   */
  function DecodeIdentifier(recv: Identifier, b: Raw): (r: Decoded<Identifier>)
    ensures r.err.Some? ==> r.value == recv
  {
    var o := Members(b);
    var ty := TypeField(o.value);
    var loc := LocField(o.value);
    var name := StringOf(Field(o.value, "name"));
    var err := CheckType(UnmarshalError(o.err, [], [ty.err, loc.err, name.err]), ty.value, "Identifier");
    if err.None? then Decoded(Identifier(loc.value, name.value), None) else Decoded(recv, err)
  }

  /**
   * An Identifier-typed struct field: left zero when the key is absent,
   * otherwise decoded by Identifier.UnmarshalJSON, which encoding/json calls
   * even for null.
   */
  function IdentifierField(m: Raw): Decoded<Identifier>
  {
    if m.None? then Decoded(ZeroIdentifier, None) else DecodeIdentifier(ZeroIdentifier, m)
  }

  /**
   * unmarshalLiteral (literal.go:17-51): a non-empty regex pattern or flags
   * makes a RegExpLiteral whatever the value; otherwise the JSON kind of the
   * value picks the literal.
   */
  function UnmarshalLiteral(m: Raw): (r: Dispatched)
    ensures r.node.Some? <==> r.err.None?
    ensures r.node.Some? ==> IsLiteral(r.node.value)
    ensures !r.matched ==> r.err == Some(ErrWrongType)
  {
    var o := Members(m);
    var ty := TypeField(o.value);
    var loc := LocField(o.value);
    var value := Field(o.value, "value");
    var regex := Field(o.value, "regex");
    var ro := if regex.None? then Decoded(map[], None) else Members(regex);
    var pattern := StringOf(Field(ro.value, "pattern"));
    var flags := StringOf(Field(ro.value, "flags"));
    var err := UnmarshalError(o.err, [], [ty.err, loc.err, ro.err, pattern.err, flags.err]);
    if err.Some? then Dispatched(None, true, err)
    else if ty.value != LiteralType then Dispatched(None, false, Some(ErrWrongType))
    else if pattern.value != "" || flags.value != "" then
      Dispatched(Some(RegExpLiteral(loc.value, pattern.value, flags.value)), true, None)
    else if IsNullOrEmpty(value) then Dispatched(Some(NullLiteral(loc.value)), true, None)
    else match value.value
      case JString(s) => Dispatched(Some(StringLiteral(loc.value, s)), true, None)
      case JBool(v) => Dispatched(Some(BoolLiteral(loc.value, v)), true, None)
      case JNumber(n) => Dispatched(Some(NumberLiteral(loc.value, n)), true, None)
      case _ => Dispatched(None, true, Some(ErrWrongType))
  }

  /**
   * unmarshalLiteralOrIdentifier (literal.go:58-67). When the literal
   * decoder does not claim the message, the Identifier is returned with
   * whatever error its decoder gave, unless that error is a wrong type.
   */
  function UnmarshalLiteralOrIdentifier(m: Raw): (r: Dispatched)
    ensures r.node.Some? ==> IsLiteralOrIdentifier(r.node.value)
    ensures r.err.None? ==> r.node.Some?
    ensures !r.matched ==> r.node.None? && r.err == Some(ErrWrongType)
  {
    var l := UnmarshalLiteral(m);
    if l.matched then l
    else
      var i := DecodeIdentifier(ZeroIdentifier, m);
      if !IsWrongType(i.err) then Dispatched(Some(IdentifierNode(i.value)), true, i.err)
      else Dispatched(None, false, Some(ErrWrongType))
  }

  /** unmarshalPattern (pattern.go:16-26): the only Pattern is an Identifier. */
  function UnmarshalPattern(m: Raw): (r: Dispatched)
    ensures r.node.Some? <==> r.err.None?
    ensures r.node.Some? ==> r.node.value.IdentifierNode?
    ensures !r.matched <==> r.err == Some(ErrWrongType)
  {
    var i := DecodeIdentifier(ZeroIdentifier, m);
    if i.err.None? then Dispatched(Some(IdentifierNode(i.value)), true, None)
    else if IsWrongType(i.err) then Dispatched(None, false, Some(ErrWrongType))
    else Dispatched(None, true, i.err)
  }

  // ---------------------------------------------------------------------
  // The dispatchers and unions
  // ---------------------------------------------------------------------

  /**
   * unmarshalExpression (expression.go:20-75): the discriminator picks the
   * decoder. A ThisExpression is not decoded: the result is always the zero
   * ThisExpression.
   */
  function UnmarshalExpression(m: Raw): (r: Dispatched)
    ensures r.node.Some? <==> r.err.None?
    ensures r.node.Some? ==> IsExpression(r.node.value)
    ensures r.matched <==> PeekType(m).err.None? && PeekType(m).value in ExpressionTypes
    ensures !r.matched ==> r.err == (if PeekType(m).err.Some? then PeekType(m).err else Some(ErrWrongType))
    decreases Present(m), Val(m), 2, 1
  {
    var peek := PeekType(m);
    if peek.err.Some? then Dispatched(None, false, peek.err)
    else if peek.value in PrimaryTypes then PrimaryCases(peek.value, m)
    else if peek.value in CompoundTypes then CompoundCases(peek.value, m)
    else if peek.value in UnaryTypes then UnaryCases(peek.value, m)
    else if peek.value in BinaryTypes then BinaryCases(peek.value, m)
    else Dispatched(None, false, Some(ErrWrongType))
  }

  /** The cases of unmarshalExpression for the primary expressions (expression.go:27-38). */
  function PrimaryCases(t: string, m: Raw): (r: Dispatched)
    ensures r.node.Some? <==> r.err.None?
    ensures r.node.Some? ==> IsExpression(r.node.value)
    ensures r.matched <==> t in PrimaryTypes
    ensures !r.matched ==> r.err == Some(ErrWrongType)
    decreases Present(m), Val(m), 2, 0
  {
    if t == "ThisExpression" then Dispatched(Some(ThisExpression(ZeroLocation)), true, None)
    else if t == "ArrayExpression" then Matched(DecodeArrayExpression(m))
    else if t == "ObjectExpression" then Matched(DecodeObjectExpression(m))
    else if t == "FunctionExpression" then Matched(DecodeFunctionExpression(m))
    else Dispatched(None, false, Some(ErrWrongType))
  }

  /** The cases of unmarshalExpression defined in unary.go (expression.go:39-44). */
  function UnaryCases(t: string, m: Raw): (r: Dispatched)
    ensures r.node.Some? <==> r.err.None?
    ensures r.node.Some? ==> IsExpression(r.node.value)
    ensures r.matched <==> t in UnaryTypes
    ensures !r.matched ==> r.err == Some(ErrWrongType)
    decreases Present(m), Val(m), 2, 0
  {
    if t == "UnaryExpression" then Matched(DecodeUnaryExpression(m))
    else if t == "UpdateExpression" then Matched(DecodeUpdateExpression(m))
    else Dispatched(None, false, Some(ErrWrongType))
  }

  /** The cases of unmarshalExpression defined in binary.go (expression.go:45-56). */
  function BinaryCases(t: string, m: Raw): (r: Dispatched)
    ensures r.node.Some? <==> r.err.None?
    ensures r.node.Some? ==> IsExpression(r.node.value)
    ensures r.matched <==> t in BinaryTypes
    ensures !r.matched ==> r.err == Some(ErrWrongType)
    decreases Present(m), Val(m), 2, 0
  {
    if t == "BinaryExpression" then Matched(DecodeBinaryExpression(m))
    else if t == "AssignmentExpression" then Matched(DecodeAssignmentExpression(m))
    else if t == "LogicalExpression" then Matched(DecodeLogicalExpression(m))
    else if t == "MemberExpression" then Matched(DecodeMemberExpression(m))
    else Dispatched(None, false, Some(ErrWrongType))
  }

  /** The remaining cases of unmarshalExpression (expression.go:57-68). */
  function CompoundCases(t: string, m: Raw): (r: Dispatched)
    ensures r.node.Some? <==> r.err.None?
    ensures r.node.Some? ==> IsExpression(r.node.value)
    ensures r.matched <==> t in CompoundTypes
    ensures !r.matched ==> r.err == Some(ErrWrongType)
    decreases Present(m), Val(m), 2, 0
  {
    if t == "ConditionalExpression" then Matched(DecodeConditionalExpression(m))
    else if t == "CallExpression" then Matched(DecodeCallExpression(m))
    else if t == "NewExpression" then Matched(DecodeNewExpression(m))
    else if t == "SequenceExpression" then Matched(DecodeSequenceExpression(m))
    else Dispatched(None, false, Some(ErrWrongType))
  }

  /**
   * unmarshalStatement (statement.go:14-85). An unreadable discriminator
   * counts as a match; "BlockStatement" always means BlockStatement, so the
   * FunctionBody case that follows it is never taken.
   */
  function UnmarshalStatement(m: Raw): (r: Dispatched)
    ensures r.node.Some? <==> r.err.None?
    ensures r.node.Some? ==> IsStatement(r.node.value)
    ensures r.matched <==> PeekType(m).err.Some? || PeekType(m).value in StatementTypes
    ensures PeekType(m).err.Some? ==> r.err == PeekType(m).err
    ensures !r.matched ==> r.err == Some(ErrWrongType)
    decreases Present(m), Val(m), 2, 1
  {
    var peek := PeekType(m);
    if peek.err.Some? then Dispatched(None, true, peek.err)
    else if peek.value in SimpleStatementTypes then SimpleStatementCases(peek.value, m)
    else if peek.value in ControlTypes then ControlCases(peek.value, m)
    else if peek.value in ChoiceTypes then ChoiceCases(peek.value, m)
    else if peek.value in LoopTypes then LoopCases(peek.value, m)
    else Dispatched(None, false, Some(ErrWrongType))
  }

  /** The cases of unmarshalStatement defined in statement.go (statement.go:23-43). */
  function SimpleStatementCases(t: string, m: Raw): (r: Dispatched)
    ensures r.node.Some? <==> r.err.None?
    ensures r.node.Some? ==> IsStatement(r.node.value)
    ensures r.matched <==> t in SimpleStatementTypes
    ensures !r.matched ==> r.err == Some(ErrWrongType)
    decreases Present(m), Val(m), 2, 0
  {
    if t == "ExpressionStatement" then Matched(DecodeExpressionStatement(m))
    else if t == "BlockStatement" then BlockCase(m)
    else if t == "EmptyStatement" then Matched(DecodeEmptyStatement(m))
    else if t == "DebuggerStatement" then Matched(DecodeDebuggerStatement(m))
    else if t == "WithStatement" then Matched(DecodeWithStatement(m))
    else Dispatched(None, false, Some(ErrWrongType))
  }

  /** The cases of unmarshalStatement defined in control.go (statement.go:44-55). */
  function ControlCases(t: string, m: Raw): (r: Dispatched)
    ensures r.node.Some? <==> r.err.None?
    ensures r.node.Some? ==> IsStatement(r.node.value)
    ensures r.matched <==> t in ControlTypes
    ensures !r.matched ==> r.err == Some(ErrWrongType)
    decreases Present(m), Val(m), 2, 0
  {
    if t == "ReturnStatement" then Matched(DecodeReturnStatement(m))
    else if t == "LabeledStatement" then Matched(DecodeLabeledStatement(m))
    else if t == "BreakStatement" then Matched(DecodeBreakStatement(m))
    else if t == "ContinueStatement" then Matched(DecodeContinueStatement(m))
    else Dispatched(None, false, Some(ErrWrongType))
  }

  /** The cases of unmarshalStatement defined in choice.go and exception.go (statement.go:56-67). */
  function ChoiceCases(t: string, m: Raw): (r: Dispatched)
    ensures r.node.Some? <==> r.err.None?
    ensures r.node.Some? ==> IsStatement(r.node.value)
    ensures r.matched <==> t in ChoiceTypes
    ensures !r.matched ==> r.err == Some(ErrWrongType)
    decreases Present(m), Val(m), 2, 0
  {
    if t == "IfStatement" then Matched(DecodeIfStatement(m))
    else if t == "SwitchStatement" then Matched(DecodeSwitchStatement(m))
    else if t == "ThrowStatement" then Matched(DecodeThrowStatement(m))
    else if t == "TryStatement" then Matched(DecodeTryStatement(m))
    else Dispatched(None, false, Some(ErrWrongType))
  }

  /** The cases of unmarshalStatement defined in loop.go (statement.go:68-79). */
  function LoopCases(t: string, m: Raw): (r: Dispatched)
    ensures r.node.Some? <==> r.err.None?
    ensures r.node.Some? ==> IsStatement(r.node.value)
    ensures r.matched <==> t in LoopTypes
    ensures !r.matched ==> r.err == Some(ErrWrongType)
    decreases Present(m), Val(m), 2, 0
  {
    if t == "WhileStatement" then Matched(DecodeWhileStatement(m))
    else if t == "DoWhileStatement" then Matched(DecodeDoWhileStatement(m))
    else if t == "ForStatement" then Matched(DecodeForStatement(m))
    else if t == "ForInStatement" then Matched(DecodeForInStatement(m))
    else Dispatched(None, false, Some(ErrWrongType))
  }

  /** The BlockStatement case: the decoded block as a statement node. */
  function BlockCase(m: Raw): (r: Dispatched)
    ensures r.matched && (r.node.Some? <==> r.err.None?)
    ensures r.node.Some? ==> r.node.value.BlockStatementNode?
    decreases Present(m), Val(m), 1, 1
  {
    var d := DecodeBlockStatement(m);
    Matched(Decoded(BlockStatementNode(d.value), d.err))
  }

  /**
   * unmarshalPatternOrExpression (pattern.go:33-41): the Pattern result
   * whenever the pattern decoder claims the message, else the Expression
   * result whenever that one does.
   */
  function UnmarshalPatternOrExpression(m: Raw): (r: Decoded<Option<Node>>)
    ensures r.value.Some? <==> r.err.None?
    ensures r.value.Some? ==> IsPatternOrExpression(r.value.value)
    decreases Present(m), Val(m), 3, 0
  {
    var p := UnmarshalPattern(m);
    if p.matched then Decoded(p.node, p.err)
    else
      var e := UnmarshalExpression(m);
      if e.matched then Decoded(e.node, e.err)
      else Decoded(None, Some(ErrWrongType))
  }

  /**
   * unmarshalDirectiveOrStatement (program.go:15-26): a Statement whenever
   * the statement decoder claims the message, otherwise a Directive.
   */
  function UnmarshalDirectiveOrStatement(m: Raw): (r: Decoded<Option<Node>>)
    ensures r.value.Some? <==> r.err.None?
    ensures r.value.Some? ==> IsDirectiveOrStatement(r.value.value)
    decreases Present(m), Val(m), 3, 0
  {
    var s := UnmarshalStatement(m);
    if s.matched then Decoded(s.node, s.err)
    else
      var d := DecodeDirective(m);
      if d.err.None? then Decoded(Some(d.value), None)
      else if !IsWrongType(d.err) then Decoded(None, d.err)
      else Decoded(None, Some(ErrWrongType))
  }

  /**
   * unmarshalVariableDeclarationOrExpression (declaration.go:70-85). The
   * expression call keeps the value and the error of unmarshalExpression's
   * three results.
   */
  function UnmarshalVariableDeclarationOrExpression(m: Raw): (r: Decoded<Option<Node>>)
    ensures r.value.Some? <==> r.err.None?
    ensures r.value.Some? ==> IsVariableDeclarationOrExpression(r.value.value)
    decreases Present(m), Val(m), 3, 0
  {
    var vd := DecodeVariableDeclaration(m);
    if vd.err.None? then Decoded(Some(vd.value), None)
    else if !IsWrongType(vd.err) then Decoded(None, vd.err)
    else
      var e := UnmarshalExpression(m);
      if e.err.None? then Decoded(e.node, None)
      else if !IsWrongType(e.err) then Decoded(None, e.err)
      else Decoded(None, Some(ErrWrongType))
  }

  /** unmarshalVariableDeclarationOrPattern (declaration.go:93-108), the same shape with Pattern. */
  function UnmarshalVariableDeclarationOrPattern(m: Raw): (r: Decoded<Option<Node>>)
    ensures r.value.Some? <==> r.err.None?
    ensures r.value.Some? ==> IsVariableDeclarationOrPattern(r.value.value)
    decreases Present(m), Val(m), 3, 0
  {
    var vd := DecodeVariableDeclaration(m);
    if vd.err.None? then Decoded(Some(vd.value), None)
    else if !IsWrongType(vd.err) then Decoded(None, vd.err)
    else
      var p := UnmarshalPattern(m);
      if p.err.None? then Decoded(p.node, None)
      else if !IsWrongType(p.err) then Decoded(None, p.err)
      else Decoded(None, Some(ErrWrongType))
  }

  // ---------------------------------------------------------------------
  // The loops over []json.RawMessage fields, from element i on
  // ---------------------------------------------------------------------

  /** One element of an ArrayExpression (expression.go:201-208): null is an ArrayHole, anything else an Expression. */
  function DecodeElement(item: Json): (r: Dispatched)
    ensures item.JNull? ==> r == Dispatched(Some(ArrayHole), true, None)
    ensures r.node.Some? <==> r.err.None?
    decreases 1, item, 3, 0
  {
    if IsNullOrEmpty(Some(item)) then Dispatched(Some(ArrayHole), true, None) else UnmarshalExpression(Some(item))
  }

  /** ArrayExpression's loop (expression.go:200-209): every element decoded, the first error kept. */
  function DecodeElements(arr: Raw, i: nat): (r: Decoded<seq<Option<Node>>>)
    requires i <= |Elements(arr)|
    ensures |r.value| == |Elements(arr)| - i
    decreases Present(arr), Val(arr), 0, |Elements(arr)| - i
  {
    if i == |Elements(arr)| then Decoded([], None)
    else
      var head := DecodeElement(Elements(arr)[i]);
      var tail := DecodeElements(arr, i + 1);
      Decoded([head.node] + tail.value, KeepFirst(head.err, tail.err))
  }

  /** Every element through unmarshalExpression, the first error kept (SequenceExpression, NewExpression). */
  function DecodeExpressions(arr: Raw, i: nat): (r: Decoded<seq<Option<Node>>>)
    requires i <= |Elements(arr)|
    ensures |r.value| == |Elements(arr)| - i
    decreases Present(arr), Val(arr), 0, |Elements(arr)| - i
  {
    if i == |Elements(arr)| then Decoded([], None)
    else
      var head := UnmarshalExpression(Some(Elements(arr)[i]));
      var tail := DecodeExpressions(arr, i + 1);
      Decoded([head.node] + tail.value, KeepFirst(head.err, tail.err))
  }

  /**
   * CallExpression's loop (expression.go:588-592): stops at the first
   * error, leaving the remaining arguments nil.
   */
  function DecodeArgumentsUntilError(arr: Raw, i: nat): (r: Decoded<seq<Option<Node>>>)
    requires i <= |Elements(arr)|
    ensures |r.value| == |Elements(arr)| - i
    decreases Present(arr), Val(arr), 0, |Elements(arr)| - i
  {
    if i == |Elements(arr)| then Decoded([], None)
    else
      var head := UnmarshalExpression(Some(Elements(arr)[i]));
      if head.err.Some? then Decoded([None] + seq(|Elements(arr)| - i - 1, _ => None), head.err)
      else
        var tail := DecodeArgumentsUntilError(arr, i + 1);
        Decoded([head.node] + tail.value, tail.err)
  }

  /** Every element through unmarshalStatement, the first error kept (BlockStatement, SwitchCase). */
  function DecodeStatements(arr: Raw, i: nat): (r: Decoded<seq<Option<Node>>>)
    requires i <= |Elements(arr)|
    ensures |r.value| == |Elements(arr)| - i
    decreases Present(arr), Val(arr), 0, |Elements(arr)| - i
  {
    if i == |Elements(arr)| then Decoded([], None)
    else
      var head := UnmarshalStatement(Some(Elements(arr)[i]));
      var tail := DecodeStatements(arr, i + 1);
      Decoded([head.node] + tail.value, KeepFirst(head.err, tail.err))
  }

  /** Every element through unmarshalDirectiveOrStatement, the first error kept (FunctionBody, Program). */
  function DecodeBodyItems(arr: Raw, i: nat): (r: Decoded<seq<Option<Node>>>)
    requires i <= |Elements(arr)|
    ensures |r.value| == |Elements(arr)| - i
    decreases Present(arr), Val(arr), 0, |Elements(arr)| - i
  {
    if i == |Elements(arr)| then Decoded([], None)
    else
      var head := UnmarshalDirectiveOrStatement(Some(Elements(arr)[i]));
      var tail := DecodeBodyItems(arr, i + 1);
      Decoded([head.value] + tail.value, KeepFirst(head.err, tail.err))
  }

  /**
   * The parameter loops that stop at the first error (expression.go:431-435,
   * declaration.go:51-55), leaving the remaining parameters nil.
   */
  function DecodeParamsUntilError(arr: Raw, i: nat): (r: Decoded<seq<Option<Node>>>)
    requires i <= |Elements(arr)|
    ensures |r.value| == |Elements(arr)| - i
    decreases Present(arr), Val(arr), 0, |Elements(arr)| - i
  {
    if i == |Elements(arr)| then Decoded([], None)
    else
      var head := UnmarshalPattern(Some(Elements(arr)[i]));
      if head.err.Some? then Decoded([None] + seq(|Elements(arr)| - i - 1, _ => None), head.err)
      else
        var tail := DecodeParamsUntilError(arr, i + 1);
        Decoded([head.node] + tail.value, tail.err)
  }

  /** FunctionExpression's second parameter loop (expression.go:439-445): the first error kept. */
  function DecodeParams(arr: Raw, i: nat): (r: Decoded<seq<Option<Node>>>)
    requires i <= |Elements(arr)|
    ensures |r.value| == |Elements(arr)| - i
    decreases Present(arr), Val(arr), 0, |Elements(arr)| - i
  {
    if i == |Elements(arr)| then Decoded([], None)
    else
      var head := UnmarshalPattern(Some(Elements(arr)[i]));
      var tail := DecodeParams(arr, i + 1);
      Decoded([head.node] + tail.value, KeepFirst(head.err, tail.err))
  }

  // Slices of structs with their own UnmarshalJSON: encoding/json decodes
  // the elements in order and stops at the first error.

  function DecodePropertySlice(arr: Raw, i: nat): (r: Decoded<seq<Property>>)
    requires i <= |Elements(arr)|
    decreases Present(arr), Val(arr), 0, |Elements(arr)| - i
  {
    if i == |Elements(arr)| then Decoded([], None)
    else
      var head := DecodeProperty(Some(Elements(arr)[i]));
      if head.err.Some? then Decoded([head.value], head.err)
      else
        var tail := DecodePropertySlice(arr, i + 1);
        Decoded([head.value] + tail.value, tail.err)
  }

  function DecodeSwitchCaseSlice(arr: Raw, i: nat): (r: Decoded<seq<SwitchCase>>)
    requires i <= |Elements(arr)|
    ensures r.err.None? ==> |r.value| == |Elements(arr)| - i
    decreases Present(arr), Val(arr), 0, |Elements(arr)| - i
  {
    if i == |Elements(arr)| then Decoded([], None)
    else
      var head := DecodeSwitchCase(Some(Elements(arr)[i]));
      if head.err.Some? then Decoded([head.value], head.err)
      else
        var tail := DecodeSwitchCaseSlice(arr, i + 1);
        Decoded([head.value] + tail.value, tail.err)
  }

  function DecodeDeclaratorSlice(arr: Raw, i: nat): (r: Decoded<seq<VariableDeclarator>>)
    requires i <= |Elements(arr)|
    decreases Present(arr), Val(arr), 0, |Elements(arr)| - i
  {
    if i == |Elements(arr)| then Decoded([], None)
    else
      var head := DecodeVariableDeclarator(Some(Elements(arr)[i]));
      if head.err.Some? then Decoded([head.value], head.err)
      else
        var tail := DecodeDeclaratorSlice(arr, i + 1);
        Decoded([head.value] + tail.value, tail.err)
  }

  // Struct-typed fields with their own UnmarshalJSON: zero when the key is
  // absent, otherwise the type's decoder (called even for null).

  function BlockField(m: Raw): (r: Decoded<BlockStatement>)
    decreases Present(m), Val(m), 2 * Present(m), 0
  {
    if m.None? then Decoded(ZeroBlock, None) else DecodeBlockStatement(m)
  }

  function FunctionBodyField(m: Raw): (r: Decoded<FunctionBody>)
    decreases Present(m), Val(m), 2 * Present(m), 0
  {
    if m.None? then Decoded(ZeroFunctionBody, None) else DecodeFunctionBody(m)
  }

  function CatchClauseField(m: Raw): (r: Decoded<CatchClause>)
    decreases Present(m), Val(m), 2 * Present(m), 0
  {
    if m.None? then Decoded(ZeroCatchClause, None) else DecodeCatchClause(m)
  }

  // ---------------------------------------------------------------------
  // expression.go
  // ---------------------------------------------------------------------

  /** ThisExpression.UnmarshalJSON (expression.go:106-119); unmarshalExpression does not call it. */
  function DecodeThisExpression(b: Raw): (r: Decoded<Node>)
    ensures r.value.ThisExpression?
  {
    var o := Members(b);
    var ty := TypeField(o.value);
    var loc := LocField(o.value);
    var err := CheckType(UnmarshalError(o.err, [], [ty.err, loc.err]), ty.value, "ThisExpression");
    if err.Some? then Decoded(ThisExpression(ZeroLocation), err)
    else Decoded(ThisExpression(loc.value), None)
  }

  /** ArrayExpression.UnmarshalJSON (expression.go:187-213). */
  function DecodeArrayExpression(b: Raw): (r: Decoded<Node>)
    ensures r.value.ArrayExpression?
    decreases Present(b), Val(b), 1, 0
  {
    var o := Members(b);
    var ty := TypeField(o.value);
    var loc := LocField(o.value);
    var elements := Field(o.value, "elements");
    var err := CheckType(UnmarshalError(o.err, [], [ty.err, loc.err, SliceError(elements)]), ty.value, "ArrayExpression");
    if err.Some? then Decoded(ArrayExpression(ZeroLocation, []), err)
    else
      var es := DecodeElements(elements, 0);
      Decoded(ArrayExpression(loc.value, es.value), es.err)
  }

  /**
   * ObjectExpression.UnmarshalJSON (expression.go:250-262): the fields are
   * assigned only when the type is wrong, so a successful decode leaves the
   * zero ObjectExpression.
   */
  function DecodeObjectExpression(b: Raw): (r: Decoded<Node>)
    ensures r.value.ObjectExpression?
    decreases Present(b), Val(b), 1, 0
  {
    var o := Members(b);
    var ty := TypeField(o.value);
    var loc := LocField(o.value);
    var properties := Field(o.value, "properties");
    var ps := DecodePropertySlice(properties, 0);
    var err := UnmarshalError(o.err, [ps.err], [ty.err, loc.err, SliceError(properties)]);
    if err.None? && ty.value != "ObjectExpression" then
      Decoded(ObjectExpression(loc.value, ps.value), Some(ErrWrongType))
    else Decoded(ObjectExpression(ZeroLocation, []), err)
  }

  /**
   * Property.UnmarshalJSON (expression.go:343-371). The value's error
   * overwrites both the kind's ErrWrongValue and the key's error, and only
   * a nil value error lets the key's error through.
   */
  function DecodeProperty(b: Raw): (r: Decoded<Property>)
    decreases Present(b), Val(b), 1, 0
  {
    var o := Members(b);
    var ty := TypeField(o.value);
    var loc := LocField(o.value);
    var kind := StringOf(Field(o.value, "kind"));
    var err := CheckType(UnmarshalError(o.err, [], [ty.err, loc.err, kind.err]), ty.value, "Property");
    if err.Some? then Decoded(ZeroProperty, err)
    else
      var kindOk := Tokens.IsValidPropertyKind(kind.value);
      var key := UnmarshalLiteralOrIdentifier(Field(o.value, "key"));
      var value := UnmarshalExpression(Field(o.value, "value"));
      Decoded(Property(loc.value, key.node, value.node, if kindOk then kind.value else ""), KeepFirst(value.err, key.err))
  }

  /** FunctionExpression.UnmarshalJSON (expression.go:417-448). */
  function DecodeFunctionExpression(b: Raw): (r: Decoded<Node>)
    ensures r.value.FunctionExpression?
    decreases Present(b), Val(b), 1, 0
  {
    var o := Members(b);
    var ty := TypeField(o.value);
    var loc := LocField(o.value);
    var id := IdentifierField(Field(o.value, "id"));
    var params := Field(o.value, "params");
    var body := FunctionBodyField(Field(o.value, "body"));
    var err := CheckType(UnmarshalError(o.err, [id.err, body.err], [ty.err, loc.err, SliceError(params)]), ty.value, "FunctionExpression");
    if err.Some? then Decoded(FunctionExpression(ZeroLocation, ZeroIdentifier, [], ZeroFunctionBody), err)
    else
      var first := DecodeParamsUntilError(params, 0);
      if first.err.Some? then Decoded(FunctionExpression(ZeroLocation, ZeroIdentifier, first.value, ZeroFunctionBody), first.err)
      else
        var second := DecodeParams(params, 0);
        Decoded(FunctionExpression(loc.value, id.value, second.value, body.value), second.err)
  }

  /**
   * ConditionalExpression.UnmarshalJSON (expression.go:498-522): the
   * consequent's error overwrites the test's; the alternate's error is
   * reported only when the consequent had none.
   */
  function DecodeConditionalExpression(b: Raw): (r: Decoded<Node>)
    ensures r.value.ConditionalExpression?
    decreases Present(b), Val(b), 1, 0
  {
    var o := Members(b);
    var ty := TypeField(o.value);
    var loc := LocField(o.value);
    var err := CheckType(UnmarshalError(o.err, [], [ty.err, loc.err]), ty.value, "ConditionalExpression");
    if err.Some? then Decoded(ConditionalExpression(ZeroLocation, None, None, None), err)
    else
      var test := UnmarshalExpression(Field(o.value, "test"));
      var alternate := UnmarshalExpression(Field(o.value, "alternate"));
      var consequent := UnmarshalExpression(Field(o.value, "consequent"));
      Decoded(ConditionalExpression(loc.value, test.node, consequent.node, alternate.node), KeepFirst(consequent.err, alternate.err))
  }

  /** CallExpression.UnmarshalJSON (expression.go:571-595): arguments only after a good callee. */
  function DecodeCallExpression(b: Raw): (r: Decoded<Node>)
    ensures r.value.CallExpression?
    decreases Present(b), Val(b), 1, 0
  {
    var o := Members(b);
    var ty := TypeField(o.value);
    var loc := LocField(o.value);
    var arguments := Field(o.value, "arguments");
    var err := CheckType(UnmarshalError(o.err, [], [ty.err, loc.err, SliceError(arguments)]), ty.value, "CallExpression");
    if err.Some? then Decoded(CallExpression(ZeroLocation, None, []), err)
    else
      var callee := UnmarshalExpression(Field(o.value, "callee"));
      if callee.err.Some? then Decoded(CallExpression(loc.value, None, []), callee.err)
      else
        var args := DecodeArgumentsUntilError(arguments, 0);
        Decoded(CallExpression(loc.value, callee.node, args.value), args.err)
  }

  /**
   * NewExpression.UnmarshalJSON (expression.go:643-664): x has no Loc, so
   * the location is never decoded.
   */
  function DecodeNewExpression(b: Raw): (r: Decoded<Node>)
    ensures r.value.NewExpression? && r.value.loc == ZeroLocation
    decreases Present(b), Val(b), 1, 0
  {
    var o := Members(b);
    var ty := TypeField(o.value);
    var arguments := Field(o.value, "arguments");
    var err := CheckType(UnmarshalError(o.err, [], [ty.err, SliceError(arguments)]), ty.value, "NewExpression");
    if err.Some? then Decoded(NewExpression(ZeroLocation, None, []), err)
    else
      var callee := UnmarshalExpression(Field(o.value, "callee"));
      var args := DecodeExpressions(arguments, 0);
      Decoded(NewExpression(ZeroLocation, callee.node, args.value), KeepFirst(callee.err, args.err))
  }

  /** SequenceExpression.UnmarshalJSON (expression.go:704-725). */
  function DecodeSequenceExpression(b: Raw): (r: Decoded<Node>)
    ensures r.value.SequenceExpression?
    decreases Present(b), Val(b), 1, 0
  {
    var o := Members(b);
    var ty := TypeField(o.value);
    var loc := LocField(o.value);
    var expressions := Field(o.value, "expressions");
    var err := CheckType(UnmarshalError(o.err, [], [ty.err, loc.err, SliceError(expressions)]), ty.value, "SequenceExpression");
    if err.Some? then Decoded(SequenceExpression(ZeroLocation, []), err)
    else
      var es := DecodeExpressions(expressions, 0);
      Decoded(SequenceExpression(loc.value, es.value), es.err)
  }

  // ---------------------------------------------------------------------
  // binary.go, unary.go
  // ---------------------------------------------------------------------

  /**
   * BinaryExpression.UnmarshalJSON (binary.go:149-177). The right operand's
   * error overwrites the operator's ErrWrongValue; the left operand's error
   * is reported only when the right one had none.
   */
  function DecodeBinaryExpression(b: Raw): (r: Decoded<Node>)
    ensures r.value.BinaryExpression?
    decreases Present(b), Val(b), 1, 0
  {
    var o := Members(b);
    var ty := TypeField(o.value);
    var loc := LocField(o.value);
    var operator := StringOf(Field(o.value, "operator"));
    var err := CheckType(UnmarshalError(o.err, [], [ty.err, loc.err, operator.err]), ty.value, "BinaryExpression");
    if err.Some? then Decoded(BinaryExpression(ZeroLocation, "", None, None), err)
    else
      var op := if Tokens.IsValidBinaryOperator(operator.value) then operator.value else "";
      var left := UnmarshalExpression(Field(o.value, "left"));
      var right := UnmarshalExpression(Field(o.value, "right"));
      Decoded(BinaryExpression(loc.value, op, left.node, right.node), KeepFirst(right.err, left.err))
  }

  /**
   * AssignmentExpression.UnmarshalJSON (binary.go:289-317): as
   * BinaryExpression, with the left side read as a Pattern or Expression.
   */
  function DecodeAssignmentExpression(b: Raw): (r: Decoded<Node>)
    ensures r.value.AssignmentExpression?
    decreases Present(b), Val(b), 1, 0
  {
    var o := Members(b);
    var ty := TypeField(o.value);
    var loc := LocField(o.value);
    var operator := StringOf(Field(o.value, "operator"));
    var err := CheckType(UnmarshalError(o.err, [], [ty.err, loc.err, operator.err]), ty.value, "AssignmentExpression");
    if err.Some? then Decoded(AssignmentExpression(ZeroLocation, "", None, None), err)
    else
      var op := if Tokens.IsValidAssignmentOperator(operator.value) then operator.value else "";
      var left := UnmarshalPatternOrExpression(Field(o.value, "left"));
      var right := UnmarshalExpression(Field(o.value, "right"));
      Decoded(AssignmentExpression(loc.value, op, left.value, right.node), KeepFirst(right.err, left.err))
  }

  /** LogicalExpression.UnmarshalJSON (binary.go:395-420), the same shape as BinaryExpression. */
  function DecodeLogicalExpression(b: Raw): (r: Decoded<Node>)
    ensures r.value.LogicalExpression?
    decreases Present(b), Val(b), 1, 0
  {
    var o := Members(b);
    var ty := TypeField(o.value);
    var loc := LocField(o.value);
    var operator := StringOf(Field(o.value, "operator"));
    var err := CheckType(UnmarshalError(o.err, [], [ty.err, loc.err, operator.err]), ty.value, "LogicalExpression");
    if err.Some? then Decoded(LogicalExpression(ZeroLocation, "", None, None), err)
    else
      var op := if Tokens.IsValidLogicalOperator(operator.value) then operator.value else "";
      var left := UnmarshalExpression(Field(o.value, "left"));
      var right := UnmarshalExpression(Field(o.value, "right"));
      Decoded(LogicalExpression(loc.value, op, left.node, right.node), KeepFirst(right.err, left.err))
  }

  /** MemberExpression.UnmarshalJSON (binary.go:476-497): the object's error first, then the property's. */
  function DecodeMemberExpression(b: Raw): (r: Decoded<Node>)
    ensures r.value.MemberExpression?
    decreases Present(b), Val(b), 1, 0
  {
    var o := Members(b);
    var ty := TypeField(o.value);
    var loc := LocField(o.value);
    var computed := BoolOf(Field(o.value, "computed"));
    var err := CheckType(UnmarshalError(o.err, [], [ty.err, loc.err, computed.err]), ty.value, "MemberExpression");
    if err.Some? then Decoded(MemberExpression(ZeroLocation, None, None, false), err)
    else
      var obj := UnmarshalExpression(Field(o.value, "object"));
      var property := UnmarshalExpression(Field(o.value, "property"));
      Decoded(MemberExpression(loc.value, obj.node, property.node, computed.value), KeepFirst(obj.err, property.err))
  }

  /**
   * UnaryExpression.UnmarshalJSON (unary.go:100-125): the argument's error
   * overwrites the operator's ErrWrongValue.
   */
  function DecodeUnaryExpression(b: Raw): (r: Decoded<Node>)
    ensures r.value.UnaryExpression?
    decreases Present(b), Val(b), 1, 0
  {
    var o := Members(b);
    var ty := TypeField(o.value);
    var loc := LocField(o.value);
    var operator := StringOf(Field(o.value, "operator"));
    var prefix := BoolOf(Field(o.value, "prefix"));
    var err := CheckType(UnmarshalError(o.err, [], [ty.err, loc.err, operator.err, prefix.err]), ty.value, "UnaryExpression");
    if err.Some? then Decoded(UnaryExpression(ZeroLocation, "", false, None), err)
    else
      var op := if Tokens.IsValidUnaryOperator(operator.value) then operator.value else "";
      var argument := UnmarshalExpression(Field(o.value, "argument"));
      Decoded(UnaryExpression(loc.value, op, prefix.value, argument.node), argument.err)
  }

  /**
   * UpdateExpression.UnmarshalJSON (unary.go:204-229): an invalid operator
   * is reported; otherwise the argument's error.
   */
  function DecodeUpdateExpression(b: Raw): (r: Decoded<Node>)
    ensures r.value.UpdateExpression?
    decreases Present(b), Val(b), 1, 0
  {
    var o := Members(b);
    var ty := TypeField(o.value);
    var loc := LocField(o.value);
    var operator := StringOf(Field(o.value, "operator"));
    var prefix := BoolOf(Field(o.value, "prefix"));
    var err := CheckType(UnmarshalError(o.err, [], [ty.err, loc.err, operator.err, prefix.err]), ty.value, "UpdateExpression");
    if err.Some? then Decoded(UpdateExpression(ZeroLocation, "", None, false), err)
    else
      var opOk := Tokens.IsValidUpdateOperator(operator.value);
      var argument := UnmarshalExpression(Field(o.value, "argument"));
      Decoded(UpdateExpression(loc.value, if opOk then operator.value else "", argument.node, prefix.value),
              KeepFirst(if opOk then None else Some(ErrWrongValue), argument.err))
  }

  // ---------------------------------------------------------------------
  // statement.go, control.go, choice.go, exception.go, loop.go
  // ---------------------------------------------------------------------

  /** ExpressionStatement.UnmarshalJSON (statement.go:132-147). */
  function DecodeExpressionStatement(b: Raw): (r: Decoded<Node>)
    ensures r.value.ExpressionStatement?
    decreases Present(b), Val(b), 1, 0
  {
    var o := Members(b);
    var ty := TypeField(o.value);
    var loc := LocField(o.value);
    var err := CheckType(UnmarshalError(o.err, [], [ty.err, loc.err]), ty.value, "ExpressionStatement");
    if err.Some? then Decoded(ExpressionStatement(ZeroLocation, None), err)
    else
      var e := UnmarshalExpression(Field(o.value, "expression"));
      Decoded(ExpressionStatement(loc.value, e.node), e.err)
  }

  /** BlockStatement.UnmarshalJSON (statement.go:185-206). */
  function DecodeBlockStatement(b: Raw): (r: Decoded<BlockStatement>)
    decreases Present(b), Val(b), 1, 0
  {
    var o := Members(b);
    var ty := TypeField(o.value);
    var loc := LocField(o.value);
    var body := Field(o.value, "body");
    var err := CheckType(UnmarshalError(o.err, [], [ty.err, loc.err, SliceError(body)]), ty.value, "BlockStatement");
    if err.Some? then Decoded(ZeroBlock, err)
    else
      var ss := DecodeStatements(body, 0);
      Decoded(BlockStatement(loc.value, ss.value), ss.err)
  }

  /** FunctionBody.UnmarshalJSON (statement.go:244-265): its type string is "BlockStatement". */
  function DecodeFunctionBody(b: Raw): (r: Decoded<FunctionBody>)
    decreases Present(b), Val(b), 1, 0
  {
    var o := Members(b);
    var ty := TypeField(o.value);
    var loc := LocField(o.value);
    var body := Field(o.value, "body");
    var err := CheckType(UnmarshalError(o.err, [], [ty.err, loc.err, SliceError(body)]), ty.value, "BlockStatement");
    if err.Some? then Decoded(ZeroFunctionBody, err)
    else
      var items := DecodeBodyItems(body, 0);
      Decoded(FunctionBody(loc.value, items.value), items.err)
  }

  /** EmptyStatement.UnmarshalJSON (statement.go:288-301). */
  function DecodeEmptyStatement(b: Raw): (r: Decoded<Node>)
    ensures r.value.EmptyStatement?
  {
    var o := Members(b);
    var ty := TypeField(o.value);
    var loc := LocField(o.value);
    var err := CheckType(UnmarshalError(o.err, [], [ty.err, loc.err]), ty.value, "EmptyStatement");
    if err.Some? then Decoded(EmptyStatement(ZeroLocation), err) else Decoded(EmptyStatement(loc.value), None)
  }

  /** DebuggerStatement.UnmarshalJSON (statement.go:324-337). */
  function DecodeDebuggerStatement(b: Raw): (r: Decoded<Node>)
    ensures r.value.DebuggerStatement?
  {
    var o := Members(b);
    var ty := TypeField(o.value);
    var loc := LocField(o.value);
    var err := CheckType(UnmarshalError(o.err, [], [ty.err, loc.err]), ty.value, "DebuggerStatement");
    if err.Some? then Decoded(DebuggerStatement(ZeroLocation), err) else Decoded(DebuggerStatement(loc.value), None)
  }

  /** WithStatement.UnmarshalJSON (statement.go:382-401): the body only after a good object. */
  function DecodeWithStatement(b: Raw): (r: Decoded<Node>)
    ensures r.value.WithStatement?
    decreases Present(b), Val(b), 1, 0
  {
    var o := Members(b);
    var ty := TypeField(o.value);
    var loc := LocField(o.value);
    var err := CheckType(UnmarshalError(o.err, [], [ty.err, loc.err]), ty.value, "WithStatement");
    if err.Some? then Decoded(WithStatement(ZeroLocation, None, None), err)
    else
      var obj := UnmarshalExpression(Field(o.value, "object"));
      if obj.err.Some? then Decoded(WithStatement(loc.value, None, None), obj.err)
      else
        var body := UnmarshalStatement(Field(o.value, "body"));
        Decoded(WithStatement(loc.value, obj.node, body.node), body.err)
  }

  /** ReturnStatement.UnmarshalJSON (control.go:42-57). */
  function DecodeReturnStatement(b: Raw): (r: Decoded<Node>)
    ensures r.value.ReturnStatement?
    decreases Present(b), Val(b), 1, 0
  {
    var o := Members(b);
    var ty := TypeField(o.value);
    var loc := LocField(o.value);
    var err := CheckType(UnmarshalError(o.err, [], [ty.err, loc.err]), ty.value, "ReturnStatement");
    if err.Some? then Decoded(ReturnStatement(ZeroLocation, None), err)
    else
      var argument := UnmarshalExpression(Field(o.value, "argument"));
      Decoded(ReturnStatement(loc.value, argument.node), argument.err)
  }

  /** LabeledStatement.UnmarshalJSON (control.go:98-114). */
  function DecodeLabeledStatement(b: Raw): (r: Decoded<Node>)
    ensures r.value.LabeledStatement?
    decreases Present(b), Val(b), 1, 0
  {
    var o := Members(b);
    var ty := TypeField(o.value);
    var loc := LocField(o.value);
    var lbl := IdentifierField(Field(o.value, "label"));
    var err := CheckType(UnmarshalError(o.err, [lbl.err], [ty.err, loc.err]), ty.value, "LabeledStatement");
    if err.Some? then Decoded(LabeledStatement(ZeroLocation, ZeroIdentifier, None), err)
    else
      var body := UnmarshalStatement(Field(o.value, "body"));
      Decoded(LabeledStatement(loc.value, lbl.value, body.node), body.err)
  }

  /** BreakStatement.UnmarshalJSON (control.go:149-163). */
  function DecodeBreakStatement(b: Raw): (r: Decoded<Node>)
    ensures r.value.BreakStatement?
  {
    var o := Members(b);
    var ty := TypeField(o.value);
    var loc := LocField(o.value);
    var lbl := IdentifierField(Field(o.value, "label"));
    var err := CheckType(UnmarshalError(o.err, [lbl.err], [ty.err, loc.err]), ty.value, "BreakStatement");
    if err.Some? then Decoded(BreakStatement(ZeroLocation, ZeroIdentifier), err)
    else Decoded(BreakStatement(loc.value, lbl.value), None)
  }

  /** ContinueStatement.UnmarshalJSON (control.go:198-212). */
  function DecodeContinueStatement(b: Raw): (r: Decoded<Node>)
    ensures r.value.ContinueStatement?
  {
    var o := Members(b);
    var ty := TypeField(o.value);
    var loc := LocField(o.value);
    var lbl := IdentifierField(Field(o.value, "label"));
    var err := CheckType(UnmarshalError(o.err, [lbl.err], [ty.err, loc.err]), ty.value, "ContinueStatement");
    if err.Some? then Decoded(ContinueStatement(ZeroLocation, ZeroIdentifier), err)
    else Decoded(ContinueStatement(loc.value, lbl.value), None)
  }

  /**
   * IfStatement.UnmarshalJSON (choice.go:61-85): the first error of test,
   * consequent and alternate. An absent alternate is an empty message, which
   * unmarshalStatement reports as a syntax error.
   */
  function DecodeIfStatement(b: Raw): (r: Decoded<Node>)
    ensures r.value.IfStatement?
    decreases Present(b), Val(b), 1, 0
  {
    var o := Members(b);
    var ty := TypeField(o.value);
    var loc := LocField(o.value);
    var err := CheckType(UnmarshalError(o.err, [], [ty.err, loc.err]), ty.value, "IfStatement");
    if err.Some? then Decoded(IfStatement(ZeroLocation, None, None, None), err)
    else
      var test := UnmarshalExpression(Field(o.value, "test"));
      var consequent := UnmarshalStatement(Field(o.value, "consequent"));
      var alternate := UnmarshalStatement(Field(o.value, "alternate"));
      Decoded(IfStatement(loc.value, test.node, consequent.node, alternate.node),
              KeepFirst(KeepFirst(test.err, consequent.err), alternate.err))
  }

  /** SwitchStatement.UnmarshalJSON (choice.go:132-148): the discriminant is read from "test". */
  function DecodeSwitchStatement(b: Raw): (r: Decoded<Node>)
    ensures r.value.SwitchStatement?
    decreases Present(b), Val(b), 1, 0
  {
    var o := Members(b);
    var ty := TypeField(o.value);
    var loc := LocField(o.value);
    var cases := Field(o.value, "cases");
    var cs := DecodeSwitchCaseSlice(cases, 0);
    var err := CheckType(UnmarshalError(o.err, [cs.err], [ty.err, loc.err, SliceError(cases)]), ty.value, "SwitchStatement");
    if err.Some? then Decoded(SwitchStatement(ZeroLocation, None, []), err)
    else
      var discriminant := UnmarshalExpression(Field(o.value, "test"));
      Decoded(SwitchStatement(loc.value, discriminant.node, cs.value), discriminant.err)
  }

  /**
   * SwitchCase.UnmarshalJSON (choice.go:200-228): an absent test (the
   * default case) is an empty message, which unmarshalExpression reports
   * as a syntax error; an empty consequent stays nil.
   */
  function DecodeSwitchCase(b: Raw): (r: Decoded<SwitchCase>)
    decreases Present(b), Val(b), 1, 0
  {
    var o := Members(b);
    var ty := TypeField(o.value);
    var loc := LocField(o.value);
    var consequent := Field(o.value, "consequent");
    var err := CheckType(UnmarshalError(o.err, [], [ty.err, loc.err, SliceError(consequent)]), ty.value, "SwitchCase");
    if err.Some? then Decoded(ZeroSwitchCase, err)
    else
      var test := UnmarshalExpression(Field(o.value, "test"));
      var ss := DecodeStatements(consequent, 0);
      Decoded(SwitchCase(loc.value, test.node, ss.value), KeepFirst(test.err, ss.err))
  }

  /** ThrowStatement.UnmarshalJSON (exception.go:43-58). */
  function DecodeThrowStatement(b: Raw): (r: Decoded<Node>)
    ensures r.value.ThrowStatement?
    decreases Present(b), Val(b), 1, 0
  {
    var o := Members(b);
    var ty := TypeField(o.value);
    var loc := LocField(o.value);
    var err := CheckType(UnmarshalError(o.err, [], [ty.err, loc.err]), ty.value, "ThrowStatement");
    if err.Some? then Decoded(ThrowStatement(ZeroLocation, None), err)
    else
      var argument := UnmarshalExpression(Field(o.value, "argument"));
      Decoded(ThrowStatement(loc.value, argument.node), argument.err)
  }

  /** TryStatement.UnmarshalJSON (exception.go:112-129): block, handler and finalizer decode themselves. */
  function DecodeTryStatement(b: Raw): (r: Decoded<Node>)
    ensures r.value.TryStatement?
    decreases Present(b), Val(b), 1, 0
  {
    var o := Members(b);
    var ty := TypeField(o.value);
    var loc := LocField(o.value);
    var block := BlockField(Field(o.value, "block"));
    var handler := CatchClauseField(Field(o.value, "handler"));
    var finalizer := BlockField(Field(o.value, "finalizer"));
    var err := CheckType(UnmarshalError(o.err, [block.err, handler.err, finalizer.err], [ty.err, loc.err]), ty.value, "TryStatement");
    if err.Some? then Decoded(TryStatement(ZeroLocation, ZeroBlock, ZeroCatchClause, ZeroBlock), err)
    else Decoded(TryStatement(loc.value, block.value, handler.value, finalizer.value), None)
  }

  /** CatchClause.UnmarshalJSON (exception.go:172-188): the parameter through unmarshalPattern. */
  function DecodeCatchClause(b: Raw): (r: Decoded<CatchClause>)
    decreases Present(b), Val(b), 1, 0
  {
    var o := Members(b);
    var ty := TypeField(o.value);
    var loc := LocField(o.value);
    var body := BlockField(Field(o.value, "body"));
    var err := CheckType(UnmarshalError(o.err, [body.err], [ty.err, loc.err]), ty.value, "CatchClause");
    if err.Some? then Decoded(ZeroCatchClause, err)
    else
      var param := UnmarshalPattern(Field(o.value, "param"));
      Decoded(CatchClause(loc.value, param.node, body.value), param.err)
  }

  /** WhileStatement.UnmarshalJSON (loop.go:48-68): the test's error first, then the body's. */
  function DecodeWhileStatement(b: Raw): (r: Decoded<Node>)
    ensures r.value.WhileStatement?
    decreases Present(b), Val(b), 1, 0
  {
    var o := Members(b);
    var ty := TypeField(o.value);
    var loc := LocField(o.value);
    var err := CheckType(UnmarshalError(o.err, [], [ty.err, loc.err]), ty.value, "WhileStatement");
    if err.Some? then Decoded(WhileStatement(ZeroLocation, None, None), err)
    else
      var test := UnmarshalExpression(Field(o.value, "test"));
      var body := UnmarshalStatement(Field(o.value, "body"));
      Decoded(WhileStatement(loc.value, test.node, body.node), KeepFirst(test.err, body.err))
  }

  /** DoWhileStatement.UnmarshalJSON (loop.go:110-130): the test's error overwrites the body's. */
  function DecodeDoWhileStatement(b: Raw): (r: Decoded<Node>)
    ensures r.value.DoWhileStatement?
    decreases Present(b), Val(b), 1, 0
  {
    var o := Members(b);
    var ty := TypeField(o.value);
    var loc := LocField(o.value);
    var err := CheckType(UnmarshalError(o.err, [], [ty.err, loc.err]), ty.value, "DoWhileStatement");
    if err.Some? then Decoded(DoWhileStatement(ZeroLocation, None, None), err)
    else
      var body := UnmarshalStatement(Field(o.value, "body"));
      var test := UnmarshalExpression(Field(o.value, "test"));
      Decoded(DoWhileStatement(loc.value, body.node, test.node), test.err)
  }

  /**
   * ForStatement.UnmarshalJSON (loop.go:190-224). Nothing is assigned
   * unless "init" is present; test and update are read only when present;
   * each step overwrites the error, so the body's error is the result.
   */
  function DecodeForStatement(b: Raw): (r: Decoded<Node>)
    ensures r.value.ForStatement?
    decreases Present(b), Val(b), 1, 0
  {
    var o := Members(b);
    var ty := TypeField(o.value);
    var loc := LocField(o.value);
    var init := Field(o.value, "init");
    var testRaw := Field(o.value, "test");
    var updateRaw := Field(o.value, "update");
    var err := CheckType(UnmarshalError(o.err, [], [ty.err, loc.err]), ty.value, "ForStatement");
    if err.Some? then Decoded(ForStatement(ZeroLocation, None, None, None, None), err)
    else if init.None? then Decoded(ForStatement(ZeroLocation, None, None, None, None), None)
    else
      var i := UnmarshalVariableDeclarationOrExpression(init);
      var test := if testRaw.Some? then UnmarshalExpression(testRaw).node else None;
      var update := if updateRaw.Some? then UnmarshalExpression(updateRaw).node else None;
      var body := UnmarshalStatement(Field(o.value, "body"));
      Decoded(ForStatement(loc.value, i.value, test, update, body.node), body.err)
  }

  /** ForInStatement.UnmarshalJSON (loop.go:271-295): each step overwrites the error; the body's is the result. */
  function DecodeForInStatement(b: Raw): (r: Decoded<Node>)
    ensures r.value.ForInStatement?
    decreases Present(b), Val(b), 1, 0
  {
    var o := Members(b);
    var ty := TypeField(o.value);
    var loc := LocField(o.value);
    var err := CheckType(UnmarshalError(o.err, [], [ty.err, loc.err]), ty.value, "ForInStatement");
    if err.Some? then Decoded(ForInStatement(ZeroLocation, None, None, None), err)
    else
      var left := UnmarshalVariableDeclarationOrPattern(Field(o.value, "left"));
      var right := UnmarshalExpression(Field(o.value, "right"));
      var body := UnmarshalStatement(Field(o.value, "body"));
      Decoded(ForInStatement(loc.value, left.value, right.node, body.node), body.err)
  }

  // ---------------------------------------------------------------------
  // program.go, directive.go, declaration.go
  // ---------------------------------------------------------------------

  /** Program.UnmarshalJSON (program.go:68-94). */
  function DecodeProgram(b: Raw): (r: Decoded<Node>)
    ensures r.value.Program?
    decreases Present(b), Val(b), 1, 0
  {
    var o := Members(b);
    var ty := TypeField(o.value);
    var loc := LocField(o.value);
    var body := Field(o.value, "body");
    var err := CheckType(UnmarshalError(o.err, [], [ty.err, loc.err, SliceError(body)]), ty.value, "Program");
    if err.Some? then Decoded(Program(ZeroLocation, []), err)
    else
      var items := DecodeBodyItems(body, 0);
      Decoded(Program(loc.value, items.value), items.err)
  }

  /**
   * Directive.UnmarshalJSON (directive.go:27-44); the literal call keeps
   * the value and the error of unmarshalLiteral's three results.
   */
  function DecodeDirective(b: Raw): (r: Decoded<Node>)
    ensures r.value.Directive?
  {
    var o := Members(b);
    var ty := TypeField(o.value);
    var directive := StringOf(Field(o.value, "directive"));
    var err := CheckType(UnmarshalError(o.err, [], [ty.err, directive.err]), ty.value, "Directive");
    if err.Some? then Decoded(Directive(None, ""), err)
    else
      var e := UnmarshalLiteral(Field(o.value, "expression"));
      Decoded(Directive(e.node, if e.err.None? then directive.value else ""), e.err)
  }

  /**
   * FunctionDeclaration.UnmarshalJSON (declaration.go:39-62): the
   * parameter loop stops at the first error, and ID and Body are assigned
   * only when there was none. The parameter call keeps the value and the
   * error of unmarshalPattern's three results.
   */
  function DecodeFunctionDeclaration(b: Raw): (r: Decoded<Node>)
    ensures r.value.FunctionDeclaration?
    decreases Present(b), Val(b), 1, 0
  {
    var o := Members(b);
    var ty := TypeField(o.value);
    var id := IdentifierField(Field(o.value, "id"));
    var params := Field(o.value, "params");
    var body := FunctionBodyField(Field(o.value, "body"));
    var err := CheckType(UnmarshalError(o.err, [id.err, body.err], [ty.err, SliceError(params)]), ty.value, "FunctionDelaration");
    if err.Some? then Decoded(FunctionDeclaration(ZeroIdentifier, [], ZeroFunctionBody), err)
    else
      var ps := DecodeParamsUntilError(params, 0);
      if ps.err.Some? then Decoded(FunctionDeclaration(ZeroIdentifier, ps.value, ZeroFunctionBody), ps.err)
      else Decoded(FunctionDeclaration(id.value, ps.value, body.value), None)
  }

  /**
   * VariableDeclaration.UnmarshalJSON (declaration.go:141-159): the
   * declarations are decoded but never assigned; a kind other than "var"
   * is an error that wraps neither sentinel.
   */
  function DecodeVariableDeclaration(b: Raw): (r: Decoded<Node>)
    ensures r.value.VariableDeclaration? && r.value.declarations == []
    decreases Present(b), Val(b), 1, 0
  {
    var o := Members(b);
    var ty := TypeField(o.value);
    var declarations := Field(o.value, "declarations");
    var ds := DecodeDeclaratorSlice(declarations, 0);
    var kind := StringOf(Field(o.value, "kind"));
    var err := CheckType(UnmarshalError(o.err, [ds.err], [ty.err, SliceError(declarations), kind.err]), ty.value, "VariableDelaration");
    if err.Some? then Decoded(VariableDeclaration([], ""), err)
    else if kind.value == Tokens.Var then Decoded(VariableDeclaration([], Tokens.Var), None)
    else Decoded(VariableDeclaration([], ""), Some(ErrKind))
  }

  /**
   * VariableDeclarator.UnmarshalJSON (declaration.go:179-196): the id
   * through unmarshalPattern, then the init only when present; both calls
   * keep the value and the error of the three results.
   */
  function DecodeVariableDeclarator(b: Raw): (r: Decoded<VariableDeclarator>)
    decreases Present(b), Val(b), 1, 0
  {
    var o := Members(b);
    var ty := TypeField(o.value);
    var init := Field(o.value, "init");
    var err := CheckType(UnmarshalError(o.err, [], [ty.err]), ty.value, VariableDeclaratorType);
    if err.Some? then Decoded(ZeroDeclarator, err)
    else
      var id := UnmarshalPattern(Field(o.value, "id"));
      if id.err.Some? || init.None? then Decoded(VariableDeclarator(id.node, None), id.err)
      else
        var e := UnmarshalExpression(init);
        Decoded(VariableDeclarator(id.node, e.node), e.err)
  }
}
