/**
 * The closed token sets of the node layer: operator tokens and property
 * kinds, plus the variable declaration kind. Go declares each as a string
 * type with one variable per token, an IsValid method and a GoString method
 * that prints the variable's name.
 */
module Tokens {
  import opened Wrappers
  import Text

  /** The BinaryOperator tokens (binary.go:12-93). */
  const BinaryOperators: set<string> := {"==", "!=", "===", "!==", "<", "<=", ">", ">=", "<<", ">>", ">>>", "+", "-", "*", "/", "%", "|", "^", "&", "in", "instanceof"}

  /** BinaryOperator.IsValid: the token is one of the declared constants. */
  predicate IsValidBinaryOperator(s: string) { s in BinaryOperators }

  /**
   * BinaryOperator.GoString: the name of the constant holding the token, or the
   * token quoted when it is not one of them.
   */
  function BinaryOperatorGoString(s: string): (g: string)
    ensures !IsValidBinaryOperator(s) ==> g == Text.Quote(s)
    ensures IsValidBinaryOperator(s) ==> |g| > 0 && g[0] != '"'
  {
    if s == "==" then "Equal"
    else if s == "!=" then "NotEqual"
    else if s == "===" then "StrictEqual"
    else if s == "!==" then "StrictNotEqual"
    else if s == "<" then "LessThan"
    else if s == "<=" then "LessThanOrEqual"
    else if s == ">" then "GreaterThan"
    else if s == ">=" then "GreaterThanOrEqual"
    else if s == "<<" then "LeftShift"
    else if s == ">>" then "SignedRightShift"
    else if s == ">>>" then "UnsignedRightShift"
    else if s == "+" then "Add"
    else if s == "-" then "Subtract"
    else if s == "*" then "Multiply"
    else if s == "/" then "Divide"
    else if s == "%" then "Modulo"
    else if s == "|" then "BitwiseOr"
    else if s == "^" then "BitwiseXor"
    else if s == "&" then "BitwiseAnd"
    else if s == "in" then "In"
    else if s == "instanceof" then "InstanceOf"
    else Text.Quote(s)
  }

  /** Reads back what BinaryOperatorGoString prints. */
  function BinaryOperatorFromGoString(g: string): Option<string>
  {
    if |g| > 0 && g[0] == '"' then Text.Unquote(g)
    else if g == "Equal" then Some("==")
    else if g == "NotEqual" then Some("!=")
    else if g == "StrictEqual" then Some("===")
    else if g == "StrictNotEqual" then Some("!==")
    else if g == "LessThan" then Some("<")
    else if g == "LessThanOrEqual" then Some("<=")
    else if g == "GreaterThan" then Some(">")
    else if g == "GreaterThanOrEqual" then Some(">=")
    else if g == "LeftShift" then Some("<<")
    else if g == "SignedRightShift" then Some(">>")
    else if g == "UnsignedRightShift" then Some(">>>")
    else if g == "Add" then Some("+")
    else if g == "Subtract" then Some("-")
    else if g == "Multiply" then Some("*")
    else if g == "Divide" then Some("/")
    else if g == "Modulo" then Some("%")
    else if g == "BitwiseOr" then Some("|")
    else if g == "BitwiseXor" then Some("^")
    else if g == "BitwiseAnd" then Some("&")
    else if g == "In" then Some("in")
    else if g == "InstanceOf" then Some("instanceof")
    else None
  }

  /** GoString loses nothing: distinct tokens, valid or not, print differently. */
  lemma BinaryOperatorGoStringRoundTrip(s: string)
    ensures BinaryOperatorFromGoString(BinaryOperatorGoString(s)) == Some(s)
  {
    if !IsValidBinaryOperator(s) {
      Text.QuoteRoundTrip(s);
    }
    else if s in {"==", "!=", "===", "!=="} {
      BinaryOperatorEqualityRoundTrip(s);
    }
    else if s in {"<", "<=", ">", ">="} {
      BinaryOperatorRelationalRoundTrip(s);
    }
    else if s in {"<<", ">>", ">>>"} {
      BinaryOperatorShiftRoundTrip(s);
    }
    else if s in {"+", "-", "*", "/", "%"} {
      BinaryOperatorArithmeticRoundTrip(s);
    }
    else if s in {"|", "^", "&"} {
      BinaryOperatorBitwiseRoundTrip(s);
    }
    else if s in {"in", "instanceof"} {
      BinaryOperatorKeywordRoundTrip(s);
    }
  }

  lemma BinaryOperatorEqualityRoundTrip(s: string)
    requires s in {"==", "!=", "===", "!=="}
    ensures BinaryOperatorFromGoString(BinaryOperatorGoString(s)) == Some(s)
  {
    if s == "==" {
      assert BinaryOperatorGoString(s) == "Equal";
      assert BinaryOperatorFromGoString("Equal") == Some("==");
    }
    else if s == "!=" {
      assert BinaryOperatorGoString(s) == "NotEqual";
      assert BinaryOperatorFromGoString("NotEqual") == Some("!=");
    }
    else if s == "===" {
      assert BinaryOperatorGoString(s) == "StrictEqual";
      assert BinaryOperatorFromGoString("StrictEqual") == Some("===");
    }
    else {
      assert BinaryOperatorGoString(s) == "StrictNotEqual";
      assert BinaryOperatorFromGoString("StrictNotEqual") == Some("!==");
    }
  }

  lemma BinaryOperatorRelationalRoundTrip(s: string)
    requires s in {"<", "<=", ">", ">="}
    ensures BinaryOperatorFromGoString(BinaryOperatorGoString(s)) == Some(s)
  {
    if s == "<" {
      assert BinaryOperatorGoString(s) == "LessThan";
      assert BinaryOperatorFromGoString("LessThan") == Some("<");
    }
    else if s == "<=" {
      assert BinaryOperatorGoString(s) == "LessThanOrEqual";
      assert BinaryOperatorFromGoString("LessThanOrEqual") == Some("<=");
    }
    else if s == ">" {
      assert BinaryOperatorGoString(s) == "GreaterThan";
      assert BinaryOperatorFromGoString("GreaterThan") == Some(">");
    }
    else {
      assert BinaryOperatorGoString(s) == "GreaterThanOrEqual";
      assert BinaryOperatorFromGoString("GreaterThanOrEqual") == Some(">=");
    }
  }

  lemma BinaryOperatorShiftRoundTrip(s: string)
    requires s in {"<<", ">>", ">>>"}
    ensures BinaryOperatorFromGoString(BinaryOperatorGoString(s)) == Some(s)
  {
    if s == "<<" {
      assert BinaryOperatorGoString(s) == "LeftShift";
      assert BinaryOperatorFromGoString("LeftShift") == Some("<<");
    }
    else if s == ">>" {
      assert BinaryOperatorGoString(s) == "SignedRightShift";
      assert BinaryOperatorFromGoString("SignedRightShift") == Some(">>");
    }
    else {
      assert BinaryOperatorGoString(s) == "UnsignedRightShift";
      assert BinaryOperatorFromGoString("UnsignedRightShift") == Some(">>>");
    }
  }

  lemma BinaryOperatorArithmeticRoundTrip(s: string)
    requires s in {"+", "-", "*", "/", "%"}
    ensures BinaryOperatorFromGoString(BinaryOperatorGoString(s)) == Some(s)
  {
    if s == "+" {
      assert BinaryOperatorGoString(s) == "Add";
      assert BinaryOperatorFromGoString("Add") == Some("+");
    }
    else if s == "-" {
      assert BinaryOperatorGoString(s) == "Subtract";
      assert BinaryOperatorFromGoString("Subtract") == Some("-");
    }
    else if s == "*" {
      assert BinaryOperatorGoString(s) == "Multiply";
      assert BinaryOperatorFromGoString("Multiply") == Some("*");
    }
    else if s == "/" {
      assert BinaryOperatorGoString(s) == "Divide";
      assert BinaryOperatorFromGoString("Divide") == Some("/");
    }
    else {
      assert BinaryOperatorGoString(s) == "Modulo";
      assert BinaryOperatorFromGoString("Modulo") == Some("%");
    }
  }

  lemma BinaryOperatorBitwiseRoundTrip(s: string)
    requires s in {"|", "^", "&"}
    ensures BinaryOperatorFromGoString(BinaryOperatorGoString(s)) == Some(s)
  {
    if s == "|" {
      assert BinaryOperatorGoString(s) == "BitwiseOr";
      assert BinaryOperatorFromGoString("BitwiseOr") == Some("|");
    }
    else if s == "^" {
      assert BinaryOperatorGoString(s) == "BitwiseXor";
      assert BinaryOperatorFromGoString("BitwiseXor") == Some("^");
    }
    else {
      assert BinaryOperatorGoString(s) == "BitwiseAnd";
      assert BinaryOperatorFromGoString("BitwiseAnd") == Some("&");
    }
  }

  lemma BinaryOperatorKeywordRoundTrip(s: string)
    requires s in {"in", "instanceof"}
    ensures BinaryOperatorFromGoString(BinaryOperatorGoString(s)) == Some(s)
  {
    if s == "in" {
      assert BinaryOperatorGoString(s) == "In";
      assert BinaryOperatorFromGoString("In") == Some("in");
    }
    else {
      assert BinaryOperatorGoString(s) == "InstanceOf";
      assert BinaryOperatorFromGoString("InstanceOf") == Some("instanceof");
    }
  }

  /** The AssignmentOperator tokens (binary.go:183-237). */
  const AssignmentOperators: set<string> := {"=", "+=", "-=", "*=", "/=", "%=", "<<=", ">>=", ">>>=", "|=", "^=", "&="}

  /** AssignmentOperator.IsValid: the token is one of the declared constants. */
  predicate IsValidAssignmentOperator(s: string) { s in AssignmentOperators }

  /**
   * AssignmentOperator.GoString: the name of the constant holding the token, or the
   * token quoted when it is not one of them.
   */
  function AssignmentOperatorGoString(s: string): (g: string)
    ensures !IsValidAssignmentOperator(s) ==> g == Text.Quote(s)
    ensures IsValidAssignmentOperator(s) ==> |g| > 0 && g[0] != '"'
  {
    if s == "=" then "Assign"
    else if s == "+=" then "AddAssign"
    else if s == "-=" then "SubtractAssign"
    else if s == "*=" then "MultiplyAssign"
    else if s == "/=" then "DivideAssign"
    else if s == "%=" then "RemainderAssign"
    else if s == "<<=" then "LeftShiftAssign"
    else if s == ">>=" then "SignedRightShiftAssign"
    else if s == ">>>=" then "UnsignedRightShiftAssign"
    else if s == "|=" then "BitwiseOrAssign"
    else if s == "^=" then "BitwiseXorAssign"
    else if s == "&=" then "BitwiseAndAssign"
    else Text.Quote(s)
  }

  /** Reads back what AssignmentOperatorGoString prints. */
  function AssignmentOperatorFromGoString(g: string): Option<string>
  {
    if |g| > 0 && g[0] == '"' then Text.Unquote(g)
    else if g == "Assign" then Some("=")
    else if g == "AddAssign" then Some("+=")
    else if g == "SubtractAssign" then Some("-=")
    else if g == "MultiplyAssign" then Some("*=")
    else if g == "DivideAssign" then Some("/=")
    else if g == "RemainderAssign" then Some("%=")
    else if g == "LeftShiftAssign" then Some("<<=")
    else if g == "SignedRightShiftAssign" then Some(">>=")
    else if g == "UnsignedRightShiftAssign" then Some(">>>=")
    else if g == "BitwiseOrAssign" then Some("|=")
    else if g == "BitwiseXorAssign" then Some("^=")
    else if g == "BitwiseAndAssign" then Some("&=")
    else None
  }

  /** GoString loses nothing: distinct tokens, valid or not, print differently. */
  lemma AssignmentOperatorGoStringRoundTrip(s: string)
    ensures AssignmentOperatorFromGoString(AssignmentOperatorGoString(s)) == Some(s)
  {
    if !IsValidAssignmentOperator(s) {
      Text.QuoteRoundTrip(s);
    }
    else if s in {"=", "+=", "-=", "*=", "/=", "%="} {
      AssignmentOperatorArithmeticAssignRoundTrip(s);
    }
    else if s in {"<<=", ">>=", ">>>=", "|=", "^=", "&="} {
      AssignmentOperatorShiftBitwiseAssignRoundTrip(s);
    }
  }

  lemma AssignmentOperatorArithmeticAssignRoundTrip(s: string)
    requires s in {"=", "+=", "-=", "*=", "/=", "%="}
    ensures AssignmentOperatorFromGoString(AssignmentOperatorGoString(s)) == Some(s)
  {
    if s == "=" {
      assert AssignmentOperatorGoString(s) == "Assign";
      assert AssignmentOperatorFromGoString("Assign") == Some("=");
    }
    else if s == "+=" {
      assert AssignmentOperatorGoString(s) == "AddAssign";
      assert AssignmentOperatorFromGoString("AddAssign") == Some("+=");
    }
    else if s == "-=" {
      assert AssignmentOperatorGoString(s) == "SubtractAssign";
      assert AssignmentOperatorFromGoString("SubtractAssign") == Some("-=");
    }
    else if s == "*=" {
      assert AssignmentOperatorGoString(s) == "MultiplyAssign";
      assert AssignmentOperatorFromGoString("MultiplyAssign") == Some("*=");
    }
    else if s == "/=" {
      assert AssignmentOperatorGoString(s) == "DivideAssign";
      assert AssignmentOperatorFromGoString("DivideAssign") == Some("/=");
    }
    else {
      assert AssignmentOperatorGoString(s) == "RemainderAssign";
      assert AssignmentOperatorFromGoString("RemainderAssign") == Some("%=");
    }
  }

  lemma AssignmentOperatorShiftBitwiseAssignRoundTrip(s: string)
    requires s in {"<<=", ">>=", ">>>=", "|=", "^=", "&="}
    ensures AssignmentOperatorFromGoString(AssignmentOperatorGoString(s)) == Some(s)
  {
    if s == "<<=" {
      assert AssignmentOperatorGoString(s) == "LeftShiftAssign";
      assert AssignmentOperatorFromGoString("LeftShiftAssign") == Some("<<=");
    }
    else if s == ">>=" {
      assert AssignmentOperatorGoString(s) == "SignedRightShiftAssign";
      assert AssignmentOperatorFromGoString("SignedRightShiftAssign") == Some(">>=");
    }
    else if s == ">>>=" {
      assert AssignmentOperatorGoString(s) == "UnsignedRightShiftAssign";
      assert AssignmentOperatorFromGoString("UnsignedRightShiftAssign") == Some(">>>=");
    }
    else if s == "|=" {
      assert AssignmentOperatorGoString(s) == "BitwiseOrAssign";
      assert AssignmentOperatorFromGoString("BitwiseOrAssign") == Some("|=");
    }
    else if s == "^=" {
      assert AssignmentOperatorGoString(s) == "BitwiseXorAssign";
      assert AssignmentOperatorFromGoString("BitwiseXorAssign") == Some("^=");
    }
    else {
      assert AssignmentOperatorGoString(s) == "BitwiseAndAssign";
      assert AssignmentOperatorFromGoString("BitwiseAndAssign") == Some("&=");
    }
  }


  /** The LogicalOperator tokens (binary.go:323-344). */
  const LogicalOperators: set<string> := {"||", "&&"}

  /** LogicalOperator.IsValid: the token is one of the declared constants. */
  predicate IsValidLogicalOperator(s: string) { s in LogicalOperators }

  /**
   * LogicalOperator.GoString: the name of the constant holding the token, or the
   * token quoted when it is not one of them.
   */
  function LogicalOperatorGoString(s: string): (g: string)
    ensures !IsValidLogicalOperator(s) ==> g == Text.Quote(s)
    ensures IsValidLogicalOperator(s) ==> |g| > 0 && g[0] != '"'
  {
    if s == "||" then "Or"
    else if s == "&&" then "And"
    else Text.Quote(s)
  }

  /** Reads back what LogicalOperatorGoString prints. */
  function LogicalOperatorFromGoString(g: string): Option<string>
  {
    if |g| > 0 && g[0] == '"' then Text.Unquote(g)
    else if g == "Or" then Some("||")
    else if g == "And" then Some("&&")
    else None
  }

  /** GoString loses nothing: distinct tokens, valid or not, print differently. */
  lemma LogicalOperatorGoStringRoundTrip(s: string)
    ensures LogicalOperatorFromGoString(LogicalOperatorGoString(s)) == Some(s)
  {
    if !IsValidLogicalOperator(s) {
      Text.QuoteRoundTrip(s);
    }
  }

  /** The UnaryOperator tokens (unary.go:12-48). */
  const UnaryOperators: set<string> := {"-", "+", "!", "~", "typeof", "void", "delete"}

  /** UnaryOperator.IsValid: the token is one of the declared constants. */
  predicate IsValidUnaryOperator(s: string) { s in UnaryOperators }

  /**
   * UnaryOperator.GoString: the name of the constant holding the token, or the
   * token quoted when it is not one of them.
   */
  function UnaryOperatorGoString(s: string): (g: string)
    ensures !IsValidUnaryOperator(s) ==> g == Text.Quote(s)
    ensures IsValidUnaryOperator(s) ==> |g| > 0 && g[0] != '"'
  {
    if s == "-" then "Minus"
    else if s == "+" then "Plus"
    else if s == "!" then "Not"
    else if s == "~" then "BitwiseNot"
    else if s == "typeof" then "TypeOf"
    else if s == "void" then "Void"
    else if s == "delete" then "Delete"
    else Text.Quote(s)
  }

  /** Reads back what UnaryOperatorGoString prints. */
  function UnaryOperatorFromGoString(g: string): Option<string>
  {
    if |g| > 0 && g[0] == '"' then Text.Unquote(g)
    else if g == "Minus" then Some("-")
    else if g == "Plus" then Some("+")
    else if g == "Not" then Some("!")
    else if g == "BitwiseNot" then Some("~")
    else if g == "TypeOf" then Some("typeof")
    else if g == "Void" then Some("void")
    else if g == "Delete" then Some("delete")
    else None
  }

  /** GoString loses nothing: distinct tokens, valid or not, print differently. */
  lemma UnaryOperatorGoStringRoundTrip(s: string)
    ensures UnaryOperatorFromGoString(UnaryOperatorGoString(s)) == Some(s)
  {
    if !IsValidUnaryOperator(s) {
      Text.QuoteRoundTrip(s);
    }
    else if s in {"-", "+", "!", "~"} {
      UnaryOperatorSignRoundTrip(s);
    }
    else if s in {"typeof", "void", "delete"} {
      UnaryOperatorKeywordRoundTrip(s);
    }
  }

  lemma UnaryOperatorSignRoundTrip(s: string)
    requires s in {"-", "+", "!", "~"}
    ensures UnaryOperatorFromGoString(UnaryOperatorGoString(s)) == Some(s)
  {
    if s == "-" {
      assert UnaryOperatorGoString(s) == "Minus";
      assert UnaryOperatorFromGoString("Minus") == Some("-");
    }
    else if s == "+" {
      assert UnaryOperatorGoString(s) == "Plus";
      assert UnaryOperatorFromGoString("Plus") == Some("+");
    }
    else if s == "!" {
      assert UnaryOperatorGoString(s) == "Not";
      assert UnaryOperatorFromGoString("Not") == Some("!");
    }
    else {
      assert UnaryOperatorGoString(s) == "BitwiseNot";
      assert UnaryOperatorFromGoString("BitwiseNot") == Some("~");
    }
  }

  lemma UnaryOperatorKeywordRoundTrip(s: string)
    requires s in {"typeof", "void", "delete"}
    ensures UnaryOperatorFromGoString(UnaryOperatorGoString(s)) == Some(s)
  {
    if s == "typeof" {
      assert UnaryOperatorGoString(s) == "TypeOf";
      assert UnaryOperatorFromGoString("TypeOf") == Some("typeof");
    }
    else if s == "void" {
      assert UnaryOperatorGoString(s) == "Void";
      assert UnaryOperatorFromGoString("Void") == Some("void");
    }
    else {
      assert UnaryOperatorGoString(s) == "Delete";
      assert UnaryOperatorFromGoString("Delete") == Some("delete");
    }
  }


  /** The UpdateOperator tokens (unary.go:131-152). */
  const UpdateOperators: set<string> := {"++", "--"}

  /** UpdateOperator.IsValid: the token is one of the declared constants. */
  predicate IsValidUpdateOperator(s: string) { s in UpdateOperators }

  /**
   * UpdateOperator.GoString: the name of the constant holding the token, or the
   * token quoted when it is not one of them.
   */
  function UpdateOperatorGoString(s: string): (g: string)
    ensures !IsValidUpdateOperator(s) ==> g == Text.Quote(s)
    ensures IsValidUpdateOperator(s) ==> |g| > 0 && g[0] != '"'
  {
    if s == "++" then "Increment"
    else if s == "--" then "Decrement"
    else Text.Quote(s)
  }

  /** Reads back what UpdateOperatorGoString prints. */
  function UpdateOperatorFromGoString(g: string): Option<string>
  {
    if |g| > 0 && g[0] == '"' then Text.Unquote(g)
    else if g == "Increment" then Some("++")
    else if g == "Decrement" then Some("--")
    else None
  }

  /** GoString loses nothing: distinct tokens, valid or not, print differently. */
  lemma UpdateOperatorGoStringRoundTrip(s: string)
    ensures UpdateOperatorFromGoString(UpdateOperatorGoString(s)) == Some(s)
  {
    if !IsValidUpdateOperator(s) {
      Text.QuoteRoundTrip(s);
    }
  }

  /** The PropertyKind tokens (expression.go:268-292). */
  const PropertyKinds: set<string> := {"init", "get", "set"}

  /** PropertyKind.IsValid: the token is one of the declared constants. */
  predicate IsValidPropertyKind(s: string) { s in PropertyKinds }

  /**
   * PropertyKind.GoString: the name of the constant holding the token, or the
   * token quoted when it is not one of them.
   */
  function PropertyKindGoString(s: string): (g: string)
    ensures !IsValidPropertyKind(s) ==> g == Text.Quote(s)
    ensures IsValidPropertyKind(s) ==> |g| > 0 && g[0] != '"'
  {
    if s == "init" then "Init"
    else if s == "get" then "Get"
    else if s == "set" then "Set"
    else Text.Quote(s)
  }

  /** Reads back what PropertyKindGoString prints. */
  function PropertyKindFromGoString(g: string): Option<string>
  {
    if |g| > 0 && g[0] == '"' then Text.Unquote(g)
    else if g == "Init" then Some("init")
    else if g == "Get" then Some("get")
    else if g == "Set" then Some("set")
    else None
  }

  /** GoString loses nothing: distinct tokens, valid or not, print differently. */
  lemma PropertyKindGoStringRoundTrip(s: string)
    ensures PropertyKindFromGoString(PropertyKindGoString(s)) == Some(s)
  {
    if !IsValidPropertyKind(s) {
      Text.QuoteRoundTrip(s);
    }
  }

  /** The only VariableDeclarationKind token (declaration.go:112-114). */
  const Var := "var"

  /**
   * VariableDeclarationKind.GoString (declaration.go:116-121) compares with
   * "Var", not with the token "var", so the token itself prints quoted.
   */
  function VariableDeclarationKindGoString(s: string): (g: string)
    ensures s == Var ==> g == Text.Quote(Var)
    ensures s != "Var" ==> g == Text.Quote(s)
    ensures s == "Var" ==> |g| > 0 && g[0] != '"'
  {
    if s == "Var" then "Var" else Text.Quote(s)
  }

  /** Reads back what VariableDeclarationKindGoString prints. */
  function VariableDeclarationKindFromGoString(g: string): Option<string>
  {
    if |g| > 0 && g[0] == '"' then Text.Unquote(g)
    else if g == "Var" then Some("Var")
    else None
  }

  /** GoString loses nothing: the bare "Var" and every quoted string read back to what was printed. */
  lemma VariableDeclarationKindGoStringRoundTrip(s: string)
    ensures VariableDeclarationKindFromGoString(VariableDeclarationKindGoString(s)) == Some(s)
  {
    if s != "Var" {
      Text.QuoteRoundTrip(s);
    }
  }
}
