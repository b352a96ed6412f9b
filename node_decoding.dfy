/**
 * What the node decoders do with a wrong discriminator and with absent or
 * null children, as the decoders are written.
 */
module NodeDecoding {
  import opened Wrappers
  import opened Json
  import opened Ast
  import opened Zero
  import opened Decoding
  import opened Dispatch
  import opened Slices
  import Tokens

  /** Members whose type and location can be read. */
  predicate Readable(fs: Fields)
  {
    TypeField(fs).err.None? && LocField(fs).err.None?
  }

  // The type gate: with readable members and the wrong discriminator, a
  // decoder leaves its receiver zero and reports ErrWrongType.

  // A decoder that also reads a slice, a string, a bool or a struct member
  // while unmarshalling into x reports that member's error first; the
  // gates below hold when those members are readable too.

  lemma ExpressionGate(fs: Fields)
    requires Readable(fs)
    ensures TypeField(fs).value != "ThisExpression" ==> DecodeThisExpression(Some(JObject(fs))) == Decoded(ThisExpression(ZeroLocation), Some(ErrWrongType))
    ensures TypeField(fs).value != "ConditionalExpression" ==> DecodeConditionalExpression(Some(JObject(fs))) == Decoded(ConditionalExpression(ZeroLocation, None, None, None), Some(ErrWrongType))
    ensures TypeField(fs).value != "ArrayExpression" && SliceError(Field(fs, "elements")).None? ==>
      DecodeArrayExpression(Some(JObject(fs))) == Decoded(ArrayExpression(ZeroLocation, []), Some(ErrWrongType))
    ensures TypeField(fs).value != "SequenceExpression" && SliceError(Field(fs, "expressions")).None? ==>
      DecodeSequenceExpression(Some(JObject(fs))) == Decoded(SequenceExpression(ZeroLocation, []), Some(ErrWrongType))
  {
  }

  lemma CallGate(fs: Fields)
    requires Readable(fs)
    ensures TypeField(fs).value != "CallExpression" && SliceError(Field(fs, "arguments")).None? ==>
      DecodeCallExpression(Some(JObject(fs))) == Decoded(CallExpression(ZeroLocation, None, []), Some(ErrWrongType))
    ensures (TypeField(fs).value != "FunctionExpression" && SliceError(Field(fs, "params")).None?
             && IdentifierField(Field(fs, "id")).err.None? && FunctionBodyField(Field(fs, "body")).err.None?) ==>
      DecodeFunctionExpression(Some(JObject(fs))) == Decoded(FunctionExpression(ZeroLocation, ZeroIdentifier, [], ZeroFunctionBody), Some(ErrWrongType))
  {
  }

  /** NewExpression's x has no Loc: its gate needs only a readable type, and "loc" is never looked at. */
  lemma NewExpressionGate(fs: Fields, j: Json)
    requires TypeField(fs).err.None?
    ensures TypeField(fs).value != "NewExpression" && SliceError(Field(fs, "arguments")).None? ==>
      DecodeNewExpression(Some(JObject(fs))) == Decoded(NewExpression(ZeroLocation, None, []), Some(ErrWrongType))
    ensures DecodeNewExpression(Some(JObject(fs["loc" := j]))) == DecodeNewExpression(Some(JObject(fs)))
  {
    assert Field(fs["loc" := j], "type") == Field(fs, "type");
    assert Field(fs["loc" := j], "callee") == Field(fs, "callee");
    assert Field(fs["loc" := j], "arguments") == Field(fs, "arguments");
  }

  lemma OperatorGate(fs: Fields)
    requires Readable(fs) && StringOf(Field(fs, "operator")).err.None?
    ensures TypeField(fs).value != "BinaryExpression" ==> DecodeBinaryExpression(Some(JObject(fs))) == Decoded(BinaryExpression(ZeroLocation, "", None, None), Some(ErrWrongType))
    ensures TypeField(fs).value != "AssignmentExpression" ==> DecodeAssignmentExpression(Some(JObject(fs))) == Decoded(AssignmentExpression(ZeroLocation, "", None, None), Some(ErrWrongType))
    ensures TypeField(fs).value != "LogicalExpression" ==> DecodeLogicalExpression(Some(JObject(fs))) == Decoded(LogicalExpression(ZeroLocation, "", None, None), Some(ErrWrongType))
    ensures TypeField(fs).value != "MemberExpression" && BoolOf(Field(fs, "computed")).err.None? ==>
      DecodeMemberExpression(Some(JObject(fs))) == Decoded(MemberExpression(ZeroLocation, None, None, false), Some(ErrWrongType))
  {
  }

  lemma UnaryGate(fs: Fields)
    requires Readable(fs) && StringOf(Field(fs, "operator")).err.None? && BoolOf(Field(fs, "prefix")).err.None?
    ensures TypeField(fs).value != "UnaryExpression" ==> DecodeUnaryExpression(Some(JObject(fs))) == Decoded(UnaryExpression(ZeroLocation, "", false, None), Some(ErrWrongType))
    ensures TypeField(fs).value != "UpdateExpression" ==> DecodeUpdateExpression(Some(JObject(fs))) == Decoded(UpdateExpression(ZeroLocation, "", None, false), Some(ErrWrongType))
  {
  }

  /**
   * UnaryExpression.UnmarshalJSON (unary.go:112-123): past the gate the
   * location and the prefix flag are copied, the operator only when it is
   * valid, and the argument's error overwrites the operator's.
   */
  lemma UnaryOperatorOnlyWhenValid(fs: Fields)
    requires Readable(fs) && TypeField(fs).value == "UnaryExpression"
    requires StringOf(Field(fs, "operator")).err.None? && BoolOf(Field(fs, "prefix")).err.None?
    ensures var r, op := DecodeUnaryExpression(Some(JObject(fs))), StringOf(Field(fs, "operator")).value;
      && r.value.loc == LocField(fs).value
      && r.value.prefix == BoolOf(Field(fs, "prefix")).value
      && (Tokens.IsValidUnaryOperator(op) ==> r.value.operator == op)
      && (!Tokens.IsValidUnaryOperator(op) ==> r.value.operator == "")
      && r.value.argument == UnmarshalExpression(Field(fs, "argument")).node
      && r.err == UnmarshalExpression(Field(fs, "argument")).err
  {
  }

  /**
   * UpdateExpression.UnmarshalJSON (unary.go:216-227): as UnaryExpression,
   * except that an invalid operator is reported when the argument decodes.
   */
  lemma UpdateOperatorOnlyWhenValid(fs: Fields)
    requires Readable(fs) && TypeField(fs).value == "UpdateExpression"
    requires StringOf(Field(fs, "operator")).err.None? && BoolOf(Field(fs, "prefix")).err.None?
    ensures var r, op := DecodeUpdateExpression(Some(JObject(fs))), StringOf(Field(fs, "operator")).value;
      && r.value.loc == LocField(fs).value
      && r.value.prefix == BoolOf(Field(fs, "prefix")).value
      && (Tokens.IsValidUpdateOperator(op) ==> r.value.operator == op && r.err == UnmarshalExpression(Field(fs, "argument")).err)
      && (!Tokens.IsValidUpdateOperator(op) ==> r.value.operator == "" && r.err.Some?)
      && r.value.argument == UnmarshalExpression(Field(fs, "argument")).node
  {
  }

  /**
   * BinaryExpression and LogicalExpression (binary.go:161-175, 406-418):
   * past the gate both operands go through unmarshalExpression and the
   * operator is stored only when valid. The right operand's call overwrites
   * err, so an invalid operator is never reported: the right operand's
   * error is returned, or else the left one's.
   */
  lemma BinaryOperands(fs: Fields)
    requires Readable(fs) && StringOf(Field(fs, "operator")).err.None?
    ensures var r, op := DecodeBinaryExpression(Some(JObject(fs))), StringOf(Field(fs, "operator")).value;
      var left, right := UnmarshalExpression(Field(fs, "left")), UnmarshalExpression(Field(fs, "right"));
      TypeField(fs).value == "BinaryExpression" ==>
        && r.value.loc == LocField(fs).value
        && (Tokens.IsValidBinaryOperator(op) ==> r.value.operator == op)
        && (!Tokens.IsValidBinaryOperator(op) ==> r.value.operator == "")
        && r.value.left == left.node && r.value.right == right.node
        && (r.err.None? <==> left.err.None? && right.err.None?)
        && (right.err.Some? ==> r.err == right.err)
        && (right.err.None? ==> r.err == left.err)
    ensures var r, op := DecodeLogicalExpression(Some(JObject(fs))), StringOf(Field(fs, "operator")).value;
      var left, right := UnmarshalExpression(Field(fs, "left")), UnmarshalExpression(Field(fs, "right"));
      TypeField(fs).value == "LogicalExpression" ==>
        && r.value.loc == LocField(fs).value
        && (Tokens.IsValidLogicalOperator(op) ==> r.value.operator == op)
        && (!Tokens.IsValidLogicalOperator(op) ==> r.value.operator == "")
        && r.value.left == left.node && r.value.right == right.node
        && (r.err.None? <==> left.err.None? && right.err.None?)
        && (right.err.Some? ==> r.err == right.err)
        && (right.err.None? ==> r.err == left.err)
  {
  }

  /**
   * AssignmentExpression (binary.go:301-315): as BinaryExpression, except
   * that the left side goes through unmarshalPatternOrExpression, so an
   * Identifier target is read as a pattern.
   */
  lemma AssignmentLeftIsPattern(fs: Fields)
    requires Readable(fs) && StringOf(Field(fs, "operator")).err.None? && TypeField(fs).value == "AssignmentExpression"
    ensures var r, op := DecodeAssignmentExpression(Some(JObject(fs))), StringOf(Field(fs, "operator")).value;
      var left, right := UnmarshalPatternOrExpression(Field(fs, "left")), UnmarshalExpression(Field(fs, "right"));
      && r.value.loc == LocField(fs).value
      && (Tokens.IsValidAssignmentOperator(op) ==> r.value.operator == op)
      && (!Tokens.IsValidAssignmentOperator(op) ==> r.value.operator == "")
      && r.value.left == left.value && r.value.right == right.node
      && (r.err.None? <==> left.err.None? && right.err.None?)
      && (right.err.Some? ==> r.err == right.err)
      && (right.err.None? ==> r.err == left.err)
  {
  }

  lemma SimpleStatementGate(fs: Fields)
    requires Readable(fs)
    ensures TypeField(fs).value != "ExpressionStatement" ==> DecodeExpressionStatement(Some(JObject(fs))) == Decoded(ExpressionStatement(ZeroLocation, None), Some(ErrWrongType))
    ensures TypeField(fs).value != "EmptyStatement" ==> DecodeEmptyStatement(Some(JObject(fs))) == Decoded(EmptyStatement(ZeroLocation), Some(ErrWrongType))
    ensures TypeField(fs).value != "DebuggerStatement" ==> DecodeDebuggerStatement(Some(JObject(fs))) == Decoded(DebuggerStatement(ZeroLocation), Some(ErrWrongType))
    ensures TypeField(fs).value != "WithStatement" ==> DecodeWithStatement(Some(JObject(fs))) == Decoded(WithStatement(ZeroLocation, None, None), Some(ErrWrongType))
  {
  }

  lemma ControlGate(fs: Fields)
    requires Readable(fs)
    ensures TypeField(fs).value != "ReturnStatement" ==> DecodeReturnStatement(Some(JObject(fs))) == Decoded(ReturnStatement(ZeroLocation, None), Some(ErrWrongType))
    ensures TypeField(fs).value != "ThrowStatement" ==> DecodeThrowStatement(Some(JObject(fs))) == Decoded(ThrowStatement(ZeroLocation, None), Some(ErrWrongType))
    ensures TypeField(fs).value != "IfStatement" ==> DecodeIfStatement(Some(JObject(fs))) == Decoded(IfStatement(ZeroLocation, None, None, None), Some(ErrWrongType))
  {
  }

  lemma JumpGate(fs: Fields)
    requires Readable(fs) && IdentifierField(Field(fs, "label")).err.None?
    ensures TypeField(fs).value != "LabeledStatement" ==> DecodeLabeledStatement(Some(JObject(fs))) == Decoded(LabeledStatement(ZeroLocation, ZeroIdentifier, None), Some(ErrWrongType))
    ensures TypeField(fs).value != "BreakStatement" ==> DecodeBreakStatement(Some(JObject(fs))) == Decoded(BreakStatement(ZeroLocation, ZeroIdentifier), Some(ErrWrongType))
    ensures TypeField(fs).value != "ContinueStatement" ==> DecodeContinueStatement(Some(JObject(fs))) == Decoded(ContinueStatement(ZeroLocation, ZeroIdentifier), Some(ErrWrongType))
  {
  }

  /**
   * Break/ContinueStatement.UnmarshalJSON (control.go:149-163, 198-212) on
   * any message: it decodes exactly when it is an object (or null) whose
   * type is right and whose location and label read, and then holds that
   * location and label; otherwise the statement stays zero.
   */
  lemma JumpDecoding(b: Raw)
    ensures DecodeBreakStatement(b).err.None? <==> JumpReads(b, "BreakStatement")
    ensures DecodeContinueStatement(b).err.None? <==> JumpReads(b, "ContinueStatement")
    ensures DecodeBreakStatement(b).value == if JumpReads(b, "BreakStatement") then BreakStatement(JumpLocation(b), JumpLabel(b)) else BreakStatement(ZeroLocation, ZeroIdentifier)
    ensures DecodeContinueStatement(b).value == if JumpReads(b, "ContinueStatement") then ContinueStatement(JumpLocation(b), JumpLabel(b)) else ContinueStatement(ZeroLocation, ZeroIdentifier)
  {
    JumpErrors(b, "BreakStatement");
    JumpErrors(b, "ContinueStatement");
  }

  /** The error both jump statements compute is nil exactly when JumpReads holds. */
  lemma JumpErrors(b: Raw, t: string)
    ensures var o := Members(b);
      var ty, loc, lbl := TypeField(o.value), LocField(o.value), IdentifierField(Field(o.value, "label"));
      CheckType(UnmarshalError(o.err, [lbl.err], [ty.err, loc.err]), ty.value, t).None? <==> JumpReads(b, t)
  {
    var o := Members(b);
    var ty, loc, lbl := TypeField(o.value), LocField(o.value), IdentifierField(Field(o.value, "label"));
    assert FirstError([lbl.err]).None? <==> lbl.err.None?;
    assert FirstError([ty.err, loc.err]).None? <==> ty.err.None? && loc.err.None?;
  }

  /** The message is an object (or null) with the type t and a readable location and label. */
  predicate JumpReads(b: Raw, t: string)
  {
    var o := Members(b);
    o.err.None? && TypeField(o.value) == Decoded(t, None) && LocField(o.value).err.None? && IdentifierField(Field(o.value, "label")).err.None?
  }

  function JumpLocation(b: Raw): SourceLocation
  {
    LocField(Members(b).value).value
  }

  function JumpLabel(b: Raw): Identifier
  {
    IdentifierField(Field(Members(b).value, "label")).value
  }

  lemma ChoiceGate(fs: Fields)
    requires Readable(fs)
    ensures TypeField(fs).value != "SwitchStatement" && SliceError(Field(fs, "cases")).None? && DecodeSwitchCaseSlice(Field(fs, "cases"), 0).err.None? ==>
      DecodeSwitchStatement(Some(JObject(fs))) == Decoded(SwitchStatement(ZeroLocation, None, []), Some(ErrWrongType))
    ensures (TypeField(fs).value != "TryStatement" && BlockField(Field(fs, "block")).err.None?
             && CatchClauseField(Field(fs, "handler")).err.None? && BlockField(Field(fs, "finalizer")).err.None?) ==>
      DecodeTryStatement(Some(JObject(fs))) == Decoded(TryStatement(ZeroLocation, ZeroBlock, ZeroCatchClause, ZeroBlock), Some(ErrWrongType))
    ensures TypeField(fs).value != "Program" && SliceError(Field(fs, "body")).None? ==>
      DecodeProgram(Some(JObject(fs))) == Decoded(Program(ZeroLocation, []), Some(ErrWrongType))
  {
  }

  /**
   * SwitchStatement (choice.go:132-148): the discriminant is read from the
   * "test" member, and a "discriminant" member is never looked at; past the
   * gate the cases are kept and the discriminant's error is the one returned.
   */
  lemma SwitchReadsTest(fs: Fields, j: Json)
    requires Readable(fs) && TypeField(fs).value == "SwitchStatement"
    requires SliceError(Field(fs, "cases")).None? && DecodeSwitchCaseSlice(Field(fs, "cases"), 0).err.None?
    ensures var r, test := DecodeSwitchStatement(Some(JObject(fs))), UnmarshalExpression(Field(fs, "test"));
      && r.value.loc == LocField(fs).value
      && r.value.discriminant == test.node
      && r.value.cases == DecodeSwitchCaseSlice(Field(fs, "cases"), 0).value
      && r.err == test.err
    ensures DecodeSwitchStatement(Some(JObject(fs["discriminant" := j]))) == DecodeSwitchStatement(Some(JObject(fs)))
  {
    var gs := fs["discriminant" := j];
    assert Field(gs, "type") == Field(fs, "type");
    assert Field(gs, "loc") == Field(fs, "loc");
    assert Field(gs, "cases") == Field(fs, "cases");
    assert Field(gs, "test") == Field(fs, "test");
  }

  /**
   * CatchClause (exception.go:172-188): past the gate the location and the
   * body are kept and the parameter goes through unmarshalPattern, whose
   * error is the one returned.
   */
  lemma CatchParamIsPattern(fs: Fields)
    requires Readable(fs) && TypeField(fs).value == "CatchClause" && BlockField(Field(fs, "body")).err.None?
    ensures var r, param := DecodeCatchClause(Some(JObject(fs))), UnmarshalPattern(Field(fs, "param"));
      && r.value.loc == LocField(fs).value
      && r.value.body == BlockField(Field(fs, "body")).value
      && r.value.param == param.node
      && (r.value.param.Some? ==> r.value.param.value.IdentifierNode?)
      && r.err == param.err
  {
  }

  /**
   * VariableDeclarator (declaration.go:179-196): past the gate the id goes
   * through unmarshalPattern; the init is decoded through
   * unmarshalExpression only when the id decoded and an "init" member is
   * present, and otherwise stays nil.
   */
  lemma DeclaratorDecoding(fs: Fields)
    requires TypeField(fs) == Decoded(VariableDeclaratorType, None)
    ensures var r, id := DecodeVariableDeclarator(Some(JObject(fs))), UnmarshalPattern(Field(fs, "id"));
      && r.value.id == id.node
      && (id.err.Some? || "init" !in fs ==> r.value.init == None && r.err == id.err)
      && (id.err.None? && "init" in fs ==>
            r.value.init == UnmarshalExpression(Field(fs, "init")).node && r.err == UnmarshalExpression(Field(fs, "init")).err)
  {
  }

  /** The gate of the records that are not nodes of their own: each stays zero. */
  lemma RecordGate(fs: Fields)
    requires Readable(fs)
    ensures TypeField(fs).value != "BlockStatement" && SliceError(Field(fs, "body")).None? ==>
      DecodeBlockStatement(Some(JObject(fs))) == Decoded(ZeroBlock, Some(ErrWrongType))
      && DecodeFunctionBody(Some(JObject(fs))) == Decoded(ZeroFunctionBody, Some(ErrWrongType))
    ensures TypeField(fs).value != "Property" && StringOf(Field(fs, "kind")).err.None? ==>
      DecodeProperty(Some(JObject(fs))) == Decoded(ZeroProperty, Some(ErrWrongType))
    ensures TypeField(fs).value != "SwitchCase" && SliceError(Field(fs, "consequent")).None? ==>
      DecodeSwitchCase(Some(JObject(fs))) == Decoded(ZeroSwitchCase, Some(ErrWrongType))
    ensures TypeField(fs).value != "CatchClause" && BlockField(Field(fs, "body")).err.None? ==>
      DecodeCatchClause(Some(JObject(fs))) == Decoded(ZeroCatchClause, Some(ErrWrongType))
    ensures TypeField(fs).value != VariableDeclaratorType ==> DecodeVariableDeclarator(Some(JObject(fs))) == Decoded(ZeroDeclarator, Some(ErrWrongType))
  {
  }

  /**
   * WithStatement.UnmarshalJSON (statement.go:391-400): past the gate the
   * object is decoded, and the body only when the object had no error.
   */
  lemma WithBodyAfterObject(fs: Fields)
    requires Readable(fs) && TypeField(fs).value == "WithStatement"
    ensures var r, obj := DecodeWithStatement(Some(JObject(fs))), UnmarshalExpression(Field(fs, "object"));
      && (obj.err.Some? ==> r == Decoded(WithStatement(LocField(fs).value, None, None), obj.err))
      && (obj.err.None? ==> r == Decoded(WithStatement(LocField(fs).value, obj.node, UnmarshalStatement(Field(fs, "body")).node), UnmarshalStatement(Field(fs, "body")).err))
  {
  }

  /**
   * Program.UnmarshalJSON (program.go:79-91): past the gate every body item
   * is decoded in turn through unmarshalDirectiveOrStatement, and the first
   * item error is the one returned; an empty or absent body gives no items.
   */
  lemma ProgramDecodesEveryItem(fs: Fields)
    requires Readable(fs) && TypeField(fs).value == "Program" && SliceError(Field(fs, "body")).None?
    ensures var r, items := DecodeProgram(Some(JObject(fs))), Elements(Field(fs, "body"));
      && r.value.loc == LocField(fs).value
      && |r.value.programBody| == |items|
      && (forall k :: 0 <= k < |items| ==> r.value.programBody[k] == UnmarshalDirectiveOrStatement(Some(items[k])).value)
      && (r.err.None? <==> forall k :: 0 <= k < |items| ==> UnmarshalDirectiveOrStatement(Some(items[k])).err.None?)
      && (r.err.Some? ==>
            exists k :: 0 <= k < |items| && UnmarshalDirectiveOrStatement(Some(items[k])).err == r.err
              && forall j :: 0 <= j < k ==> UnmarshalDirectiveOrStatement(Some(items[j])).err.None?)
  {
    var body := Field(fs, "body");
    assert DecodeProgram(Some(JObject(fs))) == Decoded(Program(LocField(fs).value, DecodeBodyItems(body, 0).value), DecodeBodyItems(body, 0).err);
    BodyItemsAt(body);
    BodyItemsError(body);
  }

  /** Item k of a decoded body is what unmarshalDirectiveOrStatement makes of element k. */
  lemma BodyItemsAt(body: Raw)
    ensures |DecodeBodyItems(body, 0).value| == |Elements(body)|
    ensures forall k :: 0 <= k < |Elements(body)| ==>
      DecodeBodyItems(body, 0).value[k] == UnmarshalDirectiveOrStatement(Some(Elements(body)[k])).value
  {
    forall k | 0 <= k < |Elements(body)|
      ensures DecodeBodyItems(body, 0).value[k] == UnmarshalDirectiveOrStatement(Some(Elements(body)[k])).value
    {
      BodyItemAt(body, k);
    }
    if |Elements(body)| > 0 {
      BodyItemAt(body, 0);
    } else {
      assert DecodeBodyItems(body, 0).value == [];
    }
  }

  lemma BodyItemAt(body: Raw, k: nat)
    requires k < |Elements(body)|
    ensures |DecodeBodyItems(body, 0).value| == |Elements(body)|
    ensures DecodeBodyItems(body, 0).value[k] == UnmarshalDirectiveOrStatement(Some(Elements(body)[k])).value
  {
    LoopAt(BodyItemLoop, body, k);
    BodyItemStep(Elements(body)[k]);
    assert Run(BodyItemLoop, body, 0) == DecodeBodyItems(body, 0);
  }

  /** A body's error is the first item error. */
  lemma BodyItemsError(body: Raw)
    ensures DecodeBodyItems(body, 0).err.None? <==> forall k :: 0 <= k < |Elements(body)| ==> UnmarshalDirectiveOrStatement(Some(Elements(body)[k])).err.None?
    ensures DecodeBodyItems(body, 0).err.Some? ==>
      exists k :: 0 <= k < |Elements(body)| && UnmarshalDirectiveOrStatement(Some(Elements(body)[k])).err == DecodeBodyItems(body, 0).err
        && forall j :: 0 <= j < k ==> UnmarshalDirectiveOrStatement(Some(Elements(body)[j])).err.None?
  {
    LoopError(BodyItemLoop, body);
    assert Run(BodyItemLoop, body, 0) == DecodeBodyItems(body, 0);
    forall k | 0 <= k < |Elements(body)|
      ensures Step(BodyItemLoop, Elements(body)[k]).err == UnmarshalDirectiveOrStatement(Some(Elements(body)[k])).err
    {
      BodyItemStep(Elements(body)[k]);
    }
  }

  lemma BodyItemStep(item: Json)
    ensures Step(BodyItemLoop, item) == Dispatched(UnmarshalDirectiveOrStatement(Some(item)).value, true, UnmarshalDirectiveOrStatement(Some(item)).err)
  {
  }

  lemma LoopGate(fs: Fields)
    requires Readable(fs)
    ensures TypeField(fs).value != "WhileStatement" ==> DecodeWhileStatement(Some(JObject(fs))) == Decoded(WhileStatement(ZeroLocation, None, None), Some(ErrWrongType))
    ensures TypeField(fs).value != "DoWhileStatement" ==> DecodeDoWhileStatement(Some(JObject(fs))) == Decoded(DoWhileStatement(ZeroLocation, None, None), Some(ErrWrongType))
    ensures TypeField(fs).value != "ForStatement" ==> DecodeForStatement(Some(JObject(fs))) == Decoded(ForStatement(ZeroLocation, None, None, None, None), Some(ErrWrongType))
    ensures TypeField(fs).value != "ForInStatement" ==> DecodeForInStatement(Some(JObject(fs))) == Decoded(ForInStatement(ZeroLocation, None, None, None), Some(ErrWrongType))
  {
  }

  /**
   * Identifier: a wrong discriminator is reported and the receiver keeps
   * its location and name.
   */
  lemma IdentifierGate(recv: Identifier, fs: Fields)
    requires Readable(fs) && StringOf(Field(fs, "name")).err.None?
    requires TypeField(fs).value != "Identifier"
    ensures DecodeIdentifier(recv, Some(JObject(fs))) == Decoded(recv, Some(ErrWrongType))
  {
  }

  /** Directive: a wrong discriminator is reported. */
  lemma DirectiveGate(fs: Fields)
    requires TypeField(fs).err.None? && StringOf(Field(fs, "directive")).err.None?
    requires TypeField(fs).value != "Directive"
    ensures DecodeDirective(Some(JObject(fs))) == Decoded(Directive(None, ""), Some(ErrWrongType))
  {
  }

  // Absent and null children.

  /**
   * ForStatement with no "init" member (what encoding writes when Init is
   * nil): nothing is assigned, so the result is the zero ForStatement,
   * location and body included.
   */
  lemma ForWithoutInit(fs: Fields)
    requires TypeField(fs) == Decoded("ForStatement", None) && LocField(fs).err.None?
    requires "init" !in fs
    ensures DecodeForStatement(Some(JObject(fs))) == Decoded(ForStatement(ZeroLocation, None, None, None, None), None)
  {
  }

  /**
   * IfStatement with no "alternate" member (what encoding writes when the
   * alternate is nil): the empty message fails with a syntax error, even
   * when test and consequent decode.
   */
  lemma IfWithoutAlternate(fs: Fields)
    requires TypeField(fs) == Decoded("IfStatement", None) && LocField(fs).err.None?
    requires UnmarshalExpression(Field(fs, "test")).err.None? && UnmarshalStatement(Field(fs, "consequent")).err.None?
    requires "alternate" !in fs
    ensures DecodeIfStatement(Some(JObject(fs))).err == Some(ErrSyntax)
  {
    EmptyIsSyntaxError();
  }

  /**
   * SwitchCase with no "test" member (the default case as encoding writes
   * it): the empty message fails with a syntax error.
   */
  lemma DefaultCaseFails(fs: Fields)
    requires TypeField(fs) == Decoded("SwitchCase", None) && LocField(fs).err.None?
    requires SliceError(Field(fs, "consequent")).None?
    requires "test" !in fs
    ensures DecodeSwitchCase(Some(JObject(fs))).err == Some(ErrSyntax)
  {
    EmptyIsSyntaxError();
  }

  /**
   * ReturnStatement whose argument is null (what encoding writes for a nil
   * argument): no dispatcher claims null, so decoding fails.
   */
  lemma NullArgumentFails(fs: Fields)
    requires TypeField(fs) == Decoded("ReturnStatement", None) && LocField(fs).err.None?
    requires "argument" in fs && fs["argument"] == JNull
    ensures DecodeReturnStatement(Some(JObject(fs))).err == Some(ErrWrongType)
  {
    NullIsNoExpression();
  }

  /**
   * ObjectExpression assigns its fields only when the type is wrong: every
   * successful decode gives the zero ObjectExpression.
   */
  lemma ObjectExpressionDropsFields(b: Raw)
    ensures DecodeObjectExpression(b).err.None? ==> DecodeObjectExpression(b).value == ObjectExpression(ZeroLocation, [])
  {
  }

  /** ... and a message of another type gets its location assigned, with ErrWrongType. */
  lemma ObjectExpressionWrongTypeKeepsLocation(fs: Fields)
    requires Readable(fs) && TypeField(fs).value != "ObjectExpression"
    requires "properties" !in fs
    ensures DecodeObjectExpression(Some(JObject(fs))) == Decoded(ObjectExpression(LocField(fs).value, []), Some(ErrWrongType))
  {
  }

  /**
   * SwitchCase: a consequent that is absent, null or the empty array is
   * left empty; the test is whatever unmarshalExpression makes of "test".
   */
  lemma EmptyConsequent(fs: Fields)
    requires TypeField(fs) == Decoded("SwitchCase", None) && LocField(fs).err.None?
    requires "consequent" !in fs || fs["consequent"] == JNull || fs["consequent"] == JArray([])
    ensures DecodeSwitchCase(Some(JObject(fs))).value.consequent == []
  {
  }

  /**
   * FunctionDeclaration: a parameter that fails stops the loop, and the
   * identifier and the body stay zero.
   */
  lemma BadParameterStops(fs: Fields)
    requires TypeField(fs) == Decoded("FunctionDelaration", None)
    requires IdentifierField(Field(fs, "id")).err.None? && FunctionBodyField(Field(fs, "body")).err.None?
    requires SliceError(Field(fs, "params")).None?
    requires DecodeParamsUntilError(Field(fs, "params"), 0).err.Some?
    ensures DecodeFunctionDeclaration(Some(JObject(fs))).value.id == ZeroIdentifier
    ensures DecodeFunctionDeclaration(Some(JObject(fs))).value.functionBody == ZeroFunctionBody
    ensures DecodeFunctionDeclaration(Some(JObject(fs))).err == DecodeParamsUntilError(Field(fs, "params"), 0).err
  {
  }

  /**
   * FunctionDeclaration's gate (declaration.go:48-50) compares with the
   * misspelt "FunctionDelaration": any other type, the correct spelling
   * included, leaves the receiver zero and reports ErrWrongType.
   */
  lemma FunctionDeclarationGate(fs: Fields)
    requires TypeField(fs).err.None? && SliceError(Field(fs, "params")).None?
    requires IdentifierField(Field(fs, "id")).err.None? && FunctionBodyField(Field(fs, "body")).err.None?
    ensures TypeField(fs).value != "FunctionDelaration" ==>
      DecodeFunctionDeclaration(Some(JObject(fs))) == Decoded(FunctionDeclaration(ZeroIdentifier, [], ZeroFunctionBody), Some(ErrWrongType))
    ensures TypeField(fs).value == "FunctionDeclaration" ==> DecodeFunctionDeclaration(Some(JObject(fs))).err == Some(ErrWrongType)
  {
  }

  /**
   * FunctionDeclaration (declaration.go:51-60): past the gate the parameters
   * are the parameter loop's result (DecodeParamsUntilError, which is
   * Run(ParamUntilErrorLoop, _, 0): Slices.LoopError and
   * Slices.StoppingLoopNoError state its error and elements), its error is the result's error, and only without one are the
   * id and the body assigned.
   */
  lemma FunctionDeclarationDecodes(fs: Fields)
    requires TypeField(fs) == Decoded("FunctionDelaration", None) && SliceError(Field(fs, "params")).None?
    requires IdentifierField(Field(fs, "id")).err.None? && FunctionBodyField(Field(fs, "body")).err.None?
    ensures var r, ps := DecodeFunctionDeclaration(Some(JObject(fs))), DecodeParamsUntilError(Field(fs, "params"), 0);
      r.err == ps.err && r.value.params == ps.value
    ensures var r := DecodeFunctionDeclaration(Some(JObject(fs)));
      r.err.None? ==>
        && r.value.id == IdentifierField(Field(fs, "id")).value
        && r.value.functionBody == FunctionBodyField(Field(fs, "body")).value
    ensures var r := DecodeFunctionDeclaration(Some(JObject(fs)));
      r.err.Some? ==> r.value.id == ZeroIdentifier && r.value.functionBody == ZeroFunctionBody
  {
  }
}
