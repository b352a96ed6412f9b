/**
 * What the dispatchers and unions do with messages they cannot read, with
 * the two leaf node types unmarshalExpression does not list, and in which
 * order the unions try their members.
 */
module Dispatch {
  import opened Wrappers
  import opened Json
  import opened Ast
  import opened Zero
  import opened Decoding

  /**
   * The discriminator of a null message is "" with no error: null is read
   * as an object with no members.
   */
  lemma NullDiscriminator()
    ensures PeekType(Some(JNull)) == Decoded("", None)
  {
    assert Members(Some(JNull)).value == map[];
  }

  /** The discriminators that name no expression. */
  lemma NotExpressionType(t: string)
    requires t == "" || t == "Identifier" || t == LiteralType || t == "VariableDeclaration"
    ensures t !in ExpressionTypes
  {
  }

  /** The discriminators that name no statement. */
  lemma NotStatementType(t: string)
    requires t == "" || t == "Directive"
    ensures t !in StatementTypes
  {
  }

  /**
   * A null child (what encoding writes for a nil node) is claimed by no
   * dispatcher: unmarshalExpression, unmarshalStatement, unmarshalPattern
   * and unmarshalLiteral all report (nil, false, ErrWrongType).
   */
  lemma NullIsNoExpression()
    ensures UnmarshalExpression(Some(JNull)) == Dispatched(None, false, Some(ErrWrongType))
  {
    NullDiscriminator();
    NotExpressionType("");
  }

  lemma NullIsNoStatement()
    ensures UnmarshalStatement(Some(JNull)) == Dispatched(None, false, Some(ErrWrongType))
  {
    NullDiscriminator();
    NotStatementType("");
  }

  lemma NullIsNoLeaf()
    ensures UnmarshalPattern(Some(JNull)) == Dispatched(None, false, Some(ErrWrongType))
    ensures UnmarshalLiteral(Some(JNull)) == Dispatched(None, false, Some(ErrWrongType))
  {
    assert Members(Some(JNull)).value == map[];
  }

  /**
   * An absent child (the empty message) cannot be read: unmarshalExpression
   * reports the syntax error unmatched, while unmarshalStatement,
   * unmarshalPattern and unmarshalLiteral claim it.
   */
  lemma EmptyIsSyntaxError()
    ensures UnmarshalExpression(None) == Dispatched(None, false, Some(ErrSyntax))
    ensures UnmarshalStatement(None) == Dispatched(None, true, Some(ErrSyntax))
    ensures UnmarshalPattern(None) == Dispatched(None, true, Some(ErrSyntax))
    ensures UnmarshalLiteral(None) == Dispatched(None, true, Some(ErrSyntax))
  {
    assert PeekType(None).err == Some(ErrSyntax);
  }

  /**
   * unmarshalExpression has no case for "Identifier" or "Literal": a
   * message that only an Identifier or a literal decoder would take is
   * rejected with ErrWrongType.
   */
  lemma LeavesAreNotExpressions(fs: Fields)
    requires TypeField(fs) == Decoded("Identifier", None) || TypeField(fs) == Decoded(LiteralType, None)
    ensures UnmarshalExpression(Some(JObject(fs))) == Dispatched(None, false, Some(ErrWrongType))
  {
    assert PeekType(Some(JObject(fs))) == TypeField(fs);
    NotExpressionType(TypeField(fs).value);
  }

  /**
   * The "ThisExpression" case returns a new zero ThisExpression without
   * decoding the message, so its location is always dropped.
   */
  lemma ThisExpressionIsZero(fs: Fields)
    requires TypeField(fs) == Decoded("ThisExpression", None)
    ensures UnmarshalExpression(Some(JObject(fs))) == Dispatched(Some(ThisExpression(ZeroLocation)), true, None)
  {
    assert PeekType(Some(JObject(fs))) == TypeField(fs);
    assert "ThisExpression" in PrimaryTypes;
  }

  /**
   * "BlockStatement" always dispatches to BlockStatement: the FunctionBody
   * case listed after it is unreachable, and unmarshalStatement never
   * produces a FunctionBody.
   */
  lemma BlockStatementDispatch(fs: Fields)
    requires TypeField(fs) == Decoded("BlockStatement", None)
    ensures UnmarshalStatement(Some(JObject(fs))).matched
    ensures UnmarshalStatement(Some(JObject(fs))).node.Some? ==> UnmarshalStatement(Some(JObject(fs))).node.value.BlockStatementNode?
  {
    assert PeekType(Some(JObject(fs))) == TypeField(fs);
    assert "BlockStatement" in SimpleStatementTypes;
  }

  /** A readable discriminator that names no statement is left unclaimed by unmarshalStatement. */
  lemma UnknownStatementType(fs: Fields)
    requires TypeField(fs).err.None? && TypeField(fs).value !in StatementTypes
    ensures UnmarshalStatement(Some(JObject(fs))) == Dispatched(None, false, Some(ErrWrongType))
  {
    assert PeekType(Some(JObject(fs))) == TypeField(fs);
  }

  // ---------------------------------------------------------------------
  // The order of the unions
  // ---------------------------------------------------------------------

  /**
   * unmarshalPatternOrExpression: once the pattern decoder claims the
   * message, its result is final, error included, and unmarshalExpression
   * is not consulted.
   */
  lemma PatternMatchIsFinal(m: Raw)
    requires UnmarshalPattern(m).matched
    ensures UnmarshalPatternOrExpression(m) == Decoded(UnmarshalPattern(m).node, UnmarshalPattern(m).err)
  {
  }

  /**
   * unmarshalLiteralOrIdentifier (literal.go:58-67): once unmarshalLiteral
   * claims the message its result is final; otherwise the Identifier
   * decoder's result is returned, claimed unless its error is a wrong type.
   */
  lemma LiteralMatchIsFinal(m: Raw)
    ensures UnmarshalLiteral(m).matched ==> UnmarshalLiteralOrIdentifier(m) == UnmarshalLiteral(m)
    ensures UnmarshalLiteralOrIdentifier(m).matched
      <==> UnmarshalLiteral(m).matched || !IsWrongType(DecodeIdentifier(ZeroIdentifier, m).err)
    ensures !UnmarshalLiteral(m).matched && !IsWrongType(DecodeIdentifier(ZeroIdentifier, m).err) ==>
      UnmarshalLiteralOrIdentifier(m) == Dispatched(Some(IdentifierNode(DecodeIdentifier(ZeroIdentifier, m).value)), true, DecodeIdentifier(ZeroIdentifier, m).err)
  {
  }

  /**
   * An Identifier whose name is not a string is claimed by the pattern
   * decoder with encoding/json's type error, which the union returns.
   */
  lemma BadIdentifierIsFinal(fs: Fields)
    requires TypeField(fs) == Decoded("Identifier", None) && LocField(fs).err.None?
    requires "name" in fs && fs["name"].JNumber?
    ensures UnmarshalPattern(Some(JObject(fs))) == Dispatched(None, true, Some(ErrUnmarshalType))
    ensures UnmarshalPatternOrExpression(Some(JObject(fs))) == Decoded(None, Some(ErrUnmarshalType))
  {
    BadIdentifierName(fs);
    PatternMatchIsFinal(Some(JObject(fs)));
  }

  lemma BadIdentifierName(fs: Fields)
    requires TypeField(fs) == Decoded("Identifier", None) && LocField(fs).err.None?
    requires "name" in fs && fs["name"].JNumber?
    ensures UnmarshalPattern(Some(JObject(fs))) == Dispatched(None, true, Some(ErrUnmarshalType))
  {
    var errs := [TypeField(fs).err, LocField(fs).err, StringOf(Field(fs, "name")).err];
    assert errs[1..][1..] == [Some(ErrUnmarshalType)];
    assert FirstError(errs[1..][1..]) == Some(ErrUnmarshalType);
    assert FirstError(errs[1..]) == Some(ErrUnmarshalType);
    assert FirstError(errs) == Some(ErrUnmarshalType);
  }

  /**
   * unmarshalDirectiveOrStatement: once unmarshalStatement claims the
   * message, its result is final, error included; an unreadable message
   * is claimed that way.
   */
  lemma StatementMatchIsFinal(m: Raw)
    requires UnmarshalStatement(m).matched
    ensures UnmarshalDirectiveOrStatement(m) == Decoded(UnmarshalStatement(m).node, UnmarshalStatement(m).err)
  {
  }

  lemma EmptyBodyItem()
    ensures UnmarshalDirectiveOrStatement(None) == Decoded(None, Some(ErrSyntax))
  {
    EmptyIsSyntaxError();
  }

  /**
   * The VariableDeclaration unions: a kind other than "var" is an error
   * that wraps neither sentinel, so neither union goes on to the
   * Expression or Pattern decoder.
   */
  lemma KindErrorIsFinal(fs: Fields, kind: string)
    requires TypeField(fs) == Decoded("VariableDelaration", None)
    requires "declarations" !in fs
    requires "kind" in fs && fs["kind"] == JString(kind) && kind != "var"
    ensures DecodeVariableDeclaration(Some(JObject(fs))).err == Some(ErrKind)
    ensures UnmarshalVariableDeclarationOrExpression(Some(JObject(fs))) == Decoded(None, Some(ErrKind))
    ensures UnmarshalVariableDeclarationOrPattern(Some(JObject(fs))) == Decoded(None, Some(ErrKind))
  {
  }

  /**
   * unmarshalVariableDeclarationOrExpression and ...OrPattern
   * (declaration.go:70-85, 93-108) over every message: a declaration that
   * decodes is the result; a declaration error other than a wrong type is
   * final; after a wrong type the Expression (or Pattern) decoder's value
   * and error are returned.
   */
  lemma DeclarationErrorIsFinal(m: Raw)
    ensures DecodeVariableDeclaration(m).err.None? ==>
      UnmarshalVariableDeclarationOrExpression(m) == Decoded(Some(DecodeVariableDeclaration(m).value), None)
      && UnmarshalVariableDeclarationOrPattern(m) == Decoded(Some(DecodeVariableDeclaration(m).value), None)
    ensures DecodeVariableDeclaration(m).err.Some? && !IsWrongType(DecodeVariableDeclaration(m).err) ==>
      UnmarshalVariableDeclarationOrExpression(m) == Decoded(None, DecodeVariableDeclaration(m).err)
      && UnmarshalVariableDeclarationOrPattern(m) == Decoded(None, DecodeVariableDeclaration(m).err)
    ensures IsWrongType(DecodeVariableDeclaration(m).err) ==>
      UnmarshalVariableDeclarationOrExpression(m) == Decoded(UnmarshalExpression(m).node, UnmarshalExpression(m).err)
      && UnmarshalVariableDeclarationOrPattern(m) == Decoded(UnmarshalPattern(m).node, UnmarshalPattern(m).err)
  {
  }

  /**
   * VariableDeclaration's discriminator is spelled "VariableDelaration":
   * a message of type "VariableDeclaration" is rejected by the declaration
   * decoder, then by unmarshalExpression, and the union reports a wrong
   * type.
   */
  lemma DeclarationSpelling(fs: Fields)
    requires TypeField(fs) == Decoded("VariableDeclaration", None)
    requires "declarations" !in fs && "kind" !in fs
    ensures DecodeVariableDeclaration(Some(JObject(fs))).err == Some(ErrWrongType)
    ensures UnmarshalVariableDeclarationOrExpression(Some(JObject(fs))) == Decoded(None, Some(ErrWrongType))
  {
    assert PeekType(Some(JObject(fs))) == TypeField(fs);
    NotExpressionType("VariableDeclaration");
  }
}
