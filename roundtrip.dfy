/**
 * What decoding gives back for what encoding wrote. Locations, identifiers,
 * literals, the jump statements, the leaf statements and directives come back
 * unchanged. No round trip is stated for composite nodes. Several nodes do
 * not survive the trip as the decoders are written, and the lemmas at the
 * end say which and why.
 */
module RoundTrip {
  import opened Wrappers
  import opened Json
  import opened Ast
  import opened Zero
  import opened Encoding
  import opened Decoding
  import opened Dispatch

  /** A position comes back from its "Line"/"Column" object. */
  lemma PositionRoundTrip(p: Position)
    ensures DecodePosition(Some(EncodePosition(p))) == Decoded(p, None)
  {
    assert (p.line as real).Floor == p.line;
    assert (p.column as real).Floor == p.column;
  }

  /** SourceLocation: the zero location is null, and null decodes to the zero location. */
  lemma LocationRoundTrip(sl: SourceLocation)
    ensures DecodeLocation(Some(EncodeLocation(sl))) == Decoded(sl, None)
  {
    if !sl.IsZero() {
      PositionRoundTrip(sl.start);
      PositionRoundTrip(sl.end);
    }
  }

  /** The members nodeToMap writes decode to the type and location, whatever members follow them. */
  lemma HeaderFields(t: string, loc: SourceLocation, own: Fields)
    requires own.Keys !! {"type", "loc"}
    ensures TypeField(Header(t, loc) + own) == Decoded(t, None)
    ensures LocField(Header(t, loc) + own) == Decoded(loc, None)
  {
    var fs := Header(t, loc) + own;
    assert Field(fs, "type") == Some(JString(t));
    assert Field(fs, "loc") == Field(Header(t, loc), "loc");
    if !loc.IsZero() {
      LocationRoundTrip(loc);
    }
  }

  /** Identifier: decoding what was encoded gives the identifier back, whatever the receiver held. */
  lemma IdentifierRoundTrip(recv: Identifier, i: Identifier)
    ensures DecodeIdentifier(recv, Some(EncodeIdentifier(i))) == Decoded(i, None)
  {
    HeaderFields("Identifier", i.loc, map["name" := JString(i.name)]);
  }

  /**
   * unmarshalLiteral on an object of type "Literal" with no regex member:
   * the JSON kind of "value" picks the literal, an absent or null value is
   * a NullLiteral, and an array or object value is claimed with a wrong-type
   * error.
   */
  lemma LiteralFromFields(loc: SourceLocation, fs: Fields)
    requires TypeField(fs) == Decoded(LiteralType, None) && LocField(fs) == Decoded(loc, None)
    requires "regex" !in fs
    ensures "value" !in fs ==> UnmarshalLiteral(Some(JObject(fs))) == Dispatched(Some(NullLiteral(loc)), true, None)
    ensures "value" in fs && fs["value"].JNull? ==> UnmarshalLiteral(Some(JObject(fs))) == Dispatched(Some(NullLiteral(loc)), true, None)
    ensures "value" in fs && fs["value"].JString? ==> UnmarshalLiteral(Some(JObject(fs))) == Dispatched(Some(StringLiteral(loc, fs["value"].s)), true, None)
    ensures "value" in fs && fs["value"].JBool? ==> UnmarshalLiteral(Some(JObject(fs))) == Dispatched(Some(BoolLiteral(loc, fs["value"].b)), true, None)
    ensures "value" in fs && fs["value"].JNumber? ==> UnmarshalLiteral(Some(JObject(fs))) == Dispatched(Some(NumberLiteral(loc, fs["value"].n)), true, None)
    ensures "value" in fs && (fs["value"].JArray? || fs["value"].JObject?) ==> UnmarshalLiteral(Some(JObject(fs))) == Dispatched(None, true, Some(ErrWrongType))
  {
  }

  /**
   * unmarshalLiteral on an object of type "Literal" whose regex member
   * holds a pattern and flags: a RegExpLiteral when either is not empty,
   * and otherwise, with no value member, a NullLiteral.
   */
  lemma RegExpFromFields(loc: SourceLocation, fs: Fields, pattern: string, flags: string)
    requires TypeField(fs) == Decoded(LiteralType, None) && LocField(fs) == Decoded(loc, None)
    requires "regex" in fs && fs["regex"] == JObject(map["pattern" := JString(pattern), "flags" := JString(flags)])
    requires "value" !in fs
    ensures pattern != "" || flags != "" ==> UnmarshalLiteral(Some(JObject(fs))) == Dispatched(Some(RegExpLiteral(loc, pattern, flags)), true, None)
    ensures pattern == "" && flags == "" ==> UnmarshalLiteral(Some(JObject(fs))) == Dispatched(Some(NullLiteral(loc)), true, None)
  {
  }

  /** unmarshalLiteral claims any object whose type is not "Literal" for nobody: (nil, false, ErrWrongType). */
  lemma LiteralTypeGate(fs: Fields)
    requires TypeField(fs).err.None? && LocField(fs).err.None? && "regex" !in fs
    requires TypeField(fs).value != LiteralType
    ensures UnmarshalLiteral(Some(JObject(fs))) == Dispatched(None, false, Some(ErrWrongType))
  {
  }

  // The literals come back through unmarshalLiteral, one lemma per kind.

  lemma StringLiteralRoundTrip(loc: SourceLocation, v: string)
    ensures UnmarshalLiteral(Encode(StringLiteral(loc, v))) == Dispatched(Some(StringLiteral(loc, v)), true, None)
  {
    var own := map["value" := JString(v)];
    var fs := Header(LiteralType, loc) + own;
    HeaderFields(LiteralType, loc, own);
    assert "regex" !in fs && fs["value"] == JString(v);
    LiteralFromFields(loc, fs);
    EncodeStringLiteral(loc, v);
  }

  lemma BoolLiteralRoundTrip(loc: SourceLocation, v: bool)
    ensures UnmarshalLiteral(Encode(BoolLiteral(loc, v))) == Dispatched(Some(BoolLiteral(loc, v)), true, None)
  {
    var own := map["value" := JBool(v)];
    var fs := Header(LiteralType, loc) + own;
    HeaderFields(LiteralType, loc, own);
    assert "regex" !in fs && fs["value"] == JBool(v);
    LiteralFromFields(loc, fs);
    EncodeBoolLiteral(loc, v);
  }

  /** NullLiteral has no "value" member; an absent value reads as null. */
  lemma NullLiteralRoundTrip(loc: SourceLocation)
    ensures UnmarshalLiteral(Encode(NullLiteral(loc))) == Dispatched(Some(NullLiteral(loc)), true, None)
  {
    var own: Fields := map[];
    var fs := Header(LiteralType, loc) + own;
    HeaderFields(LiteralType, loc, own);
    assert "regex" !in fs && "value" !in fs;
    LiteralFromFields(loc, fs);
    EncodeNullLiteral(loc);
  }

  lemma NumberLiteralRoundTrip(loc: SourceLocation, v: real)
    ensures UnmarshalLiteral(Encode(NumberLiteral(loc, v))) == Dispatched(Some(NumberLiteral(loc, v)), true, None)
  {
    var own := map["value" := JNumber(v)];
    var fs := Header(LiteralType, loc) + own;
    HeaderFields(LiteralType, loc, own);
    assert "regex" !in fs && fs["value"] == JNumber(v);
    LiteralFromFields(loc, fs);
    EncodeNumberLiteral(loc, v);
  }

  /** A regular expression comes back when its pattern or its flags are not empty. */
  lemma RegExpLiteralRoundTrip(loc: SourceLocation, pattern: string, flags: string)
    requires pattern != "" || flags != ""
    ensures UnmarshalLiteral(Encode(RegExpLiteral(loc, pattern, flags))) == Dispatched(Some(RegExpLiteral(loc, pattern, flags)), true, None)
  {
    var own := map["regex" := JObject(map["pattern" := JString(pattern), "flags" := JString(flags)])];
    var fs := Header(LiteralType, loc) + own;
    HeaderFields(LiteralType, loc, own);
    assert "value" !in fs && fs["regex"] == own["regex"];
    RegExpFromFields(loc, fs, pattern, flags);
    EncodeRegExpLiteral(loc, pattern, flags);
  }

  /**
   * As written, a regular expression with an empty pattern and no flags is
   * decoded as a NullLiteral: the regex member is only looked at when one of
   * its strings is not empty, and there is no value member.
   */
  lemma EmptyRegExpBecomesNull(loc: SourceLocation)
    ensures UnmarshalLiteral(Encode(RegExpLiteral(loc, "", ""))) == Dispatched(Some(NullLiteral(loc)), true, None)
  {
    var own := map["regex" := JObject(map["pattern" := JString(""), "flags" := JString("")])];
    var fs := Header(LiteralType, loc) + own;
    HeaderFields(LiteralType, loc, own);
    assert "value" !in fs && fs["regex"] == own["regex"];
    RegExpFromFields(loc, fs, "", "");
    EncodeRegExpLiteral(loc, "", "");
  }

  /** A pattern (an Identifier) comes back through unmarshalPattern. */
  lemma PatternRoundTrip(i: Identifier)
    ensures UnmarshalPattern(Encode(IdentifierNode(i))) == Dispatched(Some(IdentifierNode(i)), true, None)
  {
    assert NodeMembers(IdentifierNode(i)) == LeafMembers(IdentifierNode(i));
    assert Encode(IdentifierNode(i)) == Some(EncodeIdentifier(i));
    IdentifierRoundTrip(ZeroIdentifier, i);
  }

  // The leaf statements come back through unmarshalStatement: what
  // unmarshalStatement makes of any members with the right type, location
  // and label; that the members the encoder writes are such members; and
  // the round trip itself.

  lemma EmptyStatementFromFields(fs: Fields, loc: SourceLocation)
    requires TypeField(fs) == Decoded("EmptyStatement", None) && LocField(fs) == Decoded(loc, None)
    ensures UnmarshalStatement(Some(JObject(fs))) == Dispatched(Some(EmptyStatement(loc)), true, None)
  {
    assert "EmptyStatement" in SimpleStatementTypes;
  }

  lemma EmptyStatementRoundTrip(loc: SourceLocation)
    ensures UnmarshalStatement(Encode(EmptyStatement(loc))) == Dispatched(Some(EmptyStatement(loc)), true, None)
  {
    HeaderFields("EmptyStatement", loc, map[]);
    EmptyStatementFromFields(Header("EmptyStatement", loc) + map[], loc);
    EncodeEmptyStatement(loc);
  }

  lemma DebuggerStatementFromFields(fs: Fields, loc: SourceLocation)
    requires TypeField(fs) == Decoded("DebuggerStatement", None) && LocField(fs) == Decoded(loc, None)
    ensures UnmarshalStatement(Some(JObject(fs))) == Dispatched(Some(DebuggerStatement(loc)), true, None)
  {
    assert "DebuggerStatement" in SimpleStatementTypes;
  }

  lemma DebuggerStatementRoundTrip(loc: SourceLocation)
    ensures UnmarshalStatement(Encode(DebuggerStatement(loc))) == Dispatched(Some(DebuggerStatement(loc)), true, None)
  {
    HeaderFields("DebuggerStatement", loc, map[]);
    DebuggerStatementFromFields(Header("DebuggerStatement", loc) + map[], loc);
    EncodeDebuggerStatement(loc);
  }

  /**
   * The members of a Break/ContinueStatement read back: type, location,
   * and the label, which comes back zero when it has no name (it was not
   * written).
   */
  lemma LabelledFields(t: string, loc: SourceLocation, lbl: Identifier)
    ensures TypeField(Header(t, loc) + LabelMember(lbl)) == Decoded(t, None)
    ensures LocField(Header(t, loc) + LabelMember(lbl)) == Decoded(loc, None)
    ensures IdentifierField(Field(Header(t, loc) + LabelMember(lbl), "label")) == Decoded(if lbl.name != "" then lbl else ZeroIdentifier, None)
  {
    HeaderFields(t, loc, LabelMember(lbl));
    if lbl.name != "" {
      assert Field(Header(t, loc) + LabelMember(lbl), "label") == Some(EncodeIdentifier(lbl));
      IdentifierRoundTrip(ZeroIdentifier, lbl);
    } else {
      assert Field(Header(t, loc) + LabelMember(lbl), "label") == None;
    }
  }

  lemma BreakStatementFromFields(fs: Fields, loc: SourceLocation, lbl: Identifier)
    requires TypeField(fs) == Decoded("BreakStatement", None) && LocField(fs) == Decoded(loc, None)
    requires IdentifierField(Field(fs, "label")) == Decoded(lbl, None)
    ensures UnmarshalStatement(Some(JObject(fs))) == Dispatched(Some(BreakStatement(loc, lbl)), true, None)
  {
    assert "BreakStatement" in ControlTypes;
  }

  lemma BreakStatementRoundTrip(loc: SourceLocation, lbl: Identifier)
    ensures UnmarshalStatement(Encode(BreakStatement(loc, lbl)))
         == Dispatched(Some(BreakStatement(loc, if lbl.name != "" then lbl else ZeroIdentifier)), true, None)
  {
    LabelledFields("BreakStatement", loc, lbl);
    BreakStatementFromFields(Header("BreakStatement", loc) + LabelMember(lbl), loc, if lbl.name != "" then lbl else ZeroIdentifier);
    EncodeBreakStatement(loc, lbl);
  }

  lemma ContinueStatementFromFields(fs: Fields, loc: SourceLocation, lbl: Identifier)
    requires TypeField(fs) == Decoded("ContinueStatement", None) && LocField(fs) == Decoded(loc, None)
    requires IdentifierField(Field(fs, "label")) == Decoded(lbl, None)
    ensures UnmarshalStatement(Some(JObject(fs))) == Dispatched(Some(ContinueStatement(loc, lbl)), true, None)
  {
    assert "ContinueStatement" in ControlTypes;
  }

  lemma ContinueStatementRoundTrip(loc: SourceLocation, lbl: Identifier)
    ensures UnmarshalStatement(Encode(ContinueStatement(loc, lbl)))
         == Dispatched(Some(ContinueStatement(loc, if lbl.name != "" then lbl else ZeroIdentifier)), true, None)
  {
    LabelledFields("ContinueStatement", loc, lbl);
    ContinueStatementFromFields(Header("ContinueStatement", loc) + LabelMember(lbl), loc, if lbl.name != "" then lbl else ZeroIdentifier);
    EncodeContinueStatement(loc, lbl);
  }

  /**
   * unmarshalDirectiveOrStatement on a Directive's members: no statement
   * claims "Directive", so the directive decoder reads it.
   */
  lemma DirectiveFromMembers(e: Json, lit: Node, directive: string)
    requires UnmarshalLiteral(Some(e)) == Dispatched(Some(lit), true, None)
    ensures UnmarshalDirectiveOrStatement(Some(JObject(Header("Directive", ZeroLocation) + map["expression" := e, "directive" := JString(directive)])))
         == Decoded(Some(Directive(Some(lit), directive)), None)
  {
    DirectiveFields(e, directive);
    DirectiveFromFields(Header("Directive", ZeroLocation) + map["expression" := e, "directive" := JString(directive)], lit, directive);
  }

  /** The members Directive.MarshalJSON writes, read back one by one. */
  lemma DirectiveFields(e: Json, directive: string)
    ensures var fs := Header("Directive", ZeroLocation) + map["expression" := e, "directive" := JString(directive)];
      && TypeField(fs) == Decoded("Directive", None)
      && "directive" in fs && fs["directive"] == JString(directive)
      && "expression" in fs && fs["expression"] == e
  {
    HeaderFields("Directive", ZeroLocation, map["expression" := e, "directive" := JString(directive)]);
  }

  lemma DirectiveFromFields(fs: Fields, lit: Node, directive: string)
    requires TypeField(fs) == Decoded("Directive", None)
    requires "directive" in fs && fs["directive"] == JString(directive)
    requires "expression" in fs && UnmarshalLiteral(Some(fs["expression"])) == Dispatched(Some(lit), true, None)
    ensures UnmarshalDirectiveOrStatement(Some(JObject(fs))) == Decoded(Some(Directive(Some(lit), directive)), None)
  {
    NotStatementType("Directive");
    UnknownStatementType(fs);
    DirectiveDecoded(fs, lit, directive);
  }

  lemma DirectiveDecoded(fs: Fields, lit: Node, directive: string)
    requires TypeField(fs) == Decoded("Directive", None)
    requires "directive" in fs && fs["directive"] == JString(directive)
    requires "expression" in fs && UnmarshalLiteral(Some(fs["expression"])) == Dispatched(Some(lit), true, None)
    ensures DecodeDirective(Some(JObject(fs))) == Decoded(Directive(Some(lit), directive), None)
  {
  }

  /** A Directive comes back through unmarshalDirectiveOrStatement whenever its literal comes back. */
  lemma DirectiveRoundTrip(lit: Node, directive: string)
    requires Encode(lit).Some? && UnmarshalLiteral(Encode(lit)) == Dispatched(Some(lit), true, None)
    ensures UnmarshalDirectiveOrStatement(Encode(Directive(Some(lit), directive))) == Decoded(Some(Directive(Some(lit), directive)), None)
  {
    DirectiveFromMembers(Encode(lit).value, lit, directive);
    EncodeDirective(lit, directive);
  }

  /** What unmarshalExpression reads as the discriminator of an encoded Identifier or literal. */
  lemma LeafHeader(t: string, loc: SourceLocation, own: Fields)
    requires own.Keys !! {"type", "loc"}
    ensures TypeField(Header(t, loc) + own) == Decoded(t, None)
  {
    HeaderFields(t, loc, own);
  }

  /**
   * An Identifier is an operand only where a Pattern is allowed: the left
   * side of an assignment takes it, unmarshalExpression (every other
   * operand) rejects it.
   */
  lemma IdentifierIsOperand(i: Identifier)
    ensures UnmarshalPatternOrExpression(Encode(IdentifierNode(i))) == Decoded(Some(IdentifierNode(i)), None)
  {
    PatternRoundTrip(i);
  }

  lemma IdentifierIsNoExpression(i: Identifier)
    ensures UnmarshalExpression(Encode(IdentifierNode(i))) == Dispatched(None, false, Some(ErrWrongType))
  {
    LeafHeader("Identifier", i.loc, map["name" := JString(i.name)]);
    LeavesAreNotExpressions(Header("Identifier", i.loc) + map["name" := JString(i.name)]);
    EncodeIdentifierNode(i);
  }

  /** No literal is an expression to unmarshalExpression: an encoded string literal is rejected. */
  lemma LiteralIsNoExpression(loc: SourceLocation, v: string)
    ensures UnmarshalExpression(Encode(StringLiteral(loc, v))) == Dispatched(None, false, Some(ErrWrongType))
  {
    LeafHeader(LiteralType, loc, map["value" := JString(v)]);
    LeavesAreNotExpressions(Header(LiteralType, loc) + map["value" := JString(v)]);
    EncodeStringLiteral(loc, v);
  }
}
