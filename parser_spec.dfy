/** The Pratt parser as functions over an explicit state: the tokens are a
    sequence, `pos` is the index of the current token (the next one is at
    `pos + 1`, and past the end every token is EOF), and `errors` is the
    append-only error list. Each function is one routine of the parser and
    returns what the routine returns together with the state it leaves behind;
    `None` stands for a nil result. The class `Parser` is proved to compute the
    same thing in place. */
module ParserSpec {
  import opened Wrappers
  import opened Tokens
  import opened GoInts
  import opened Ast

  // Precedence levels, lowest first (Go's iota starts at 0 for the blank).
  const NONE: int := 1
  const EQUALS: int := 2
  const LESSERGREATER: int := 3
  const SUM: int := 4
  const MULT_LEVEL: int := 5
  const PREFIX: int := 6
  const CALL: int := 7
  const INDEX: int := 8

  /** The precedence table, with NONE for every token not in it. */
  function Precedence(t: TokenType): (p: int)
    ensures NONE <= p <= INDEX
    ensures p == NONE <==> !HasInfix(t)
  {
    match t
    case EQ => EQUALS
    case NEQ => EQUALS
    case LT => LESSERGREATER
    case GT => LESSERGREATER
    case PLUS => SUM
    case MINUS => SUM
    case DIV => MULT_LEVEL
    case MULT => MULT_LEVEL
    case LPAREN => CALL
    case LBRACK => INDEX
    case _ => NONE
  }

  /** The kinds with a prefix parse routine. */
  predicate HasPrefix(t: TokenType) {
    t == ID || t == DIGIT || t == MINUS || t == EXCLAM || t == LPAREN ||
    t == TRUE || t == FALSE || t == IF || t == FUNC || t == LBRACK
  }

  /** The kinds parsed by `parseInfixExpression`. */
  predicate IsBinaryOperator(t: TokenType) {
    t == PLUS || t == MINUS || t == DIV || t == MULT || t == EQ || t == NEQ || t == LT || t == GT
  }

  /** The kinds with an infix parse routine. */
  predicate HasInfix(t: TokenType) {
    IsBinaryOperator(t) || t == LPAREN || t == LBRACK
  }

  /** An error the parser records; `Message` renders it as the parser's text. */
  datatype ParseError =
    | ExpectedNext(expected: TokenType, got: TokenType)
    | NoPrefixParseFn(kind: TokenType)
    | NotAnInteger(lexeme: string)

  function Message(e: ParseError): string {
    match e
    case ExpectedNext(t, g) => "expected next token to be " + TypeName(t) + ", got " + TypeName(g) + " instead"
    case NoPrefixParseFn(t) => "no prefix parse function for " + TypeName(t) + " found"
    case NotAnInteger(lexeme) => "could not parse \"" + lexeme + "\" as integer"
  }

  /** The error list as the parser's `Errors` returns it. */
  function Messages(es: seq<ParseError>): (r: seq<string>)
    ensures |r| == |es|
    ensures forall i :: 0 <= i < |es| ==> r[i] == Message(es[i])
  {
    if es == [] then [] else [Message(es[0])] + Messages(es[1..])
  }

  datatype PState = PState(pos: nat, errors: seq<ParseError>)

  datatype Parsed<T> = Parsed(value: T, state: PState)

  function Cur(toks: seq<Token>, s: PState): Token { TokenAt(toks, s.pos) }

  function Peek(toks: seq<Token>, s: PState): Token { TokenAt(toks, s.pos + 1) }

  /** `getToken`: the next token becomes the current one. */
  function GetToken(s: PState): PState { s.(pos := s.pos + 1) }

  /** Tokens left before the current one is past the end: the termination measure. */
  function Rem(toks: seq<Token>, s: PState): nat {
    if s.pos < |toks| then |toks| - s.pos else 0
  }

  /** The cursor never moves back and errors are only ever appended. */
  predicate Grows(s: PState, s': PState) {
    s.pos <= s'.pos && s.errors <= s'.errors
  }

  /** No error was recorded between the two states. */
  predicate NoNewErrors(s: PState, s': PState) {
    |s'.errors| == |s.errors|
  }

  function AddError(s: PState, e: ParseError): PState {
    s.(errors := s.errors + [e])
  }

  /** The error of `peekError`: it names the expected kind and, as written,
      the kind of the CURRENT token rather than the next one. */
  function PeekError(toks: seq<Token>, t: TokenType, s: PState): ParseError {
    ExpectedNext(t, Cur(toks, s).kind)
  }

  /** `expect`: consume the next token if it has kind `t`, else record an error. */
  function Expect(toks: seq<Token>, t: TokenType, s: PState): Parsed<bool> {
    if Peek(toks, s).kind == t then Parsed(true, GetToken(s))
    else Parsed(false, AddError(s, PeekError(toks, t, s)))
  }

  /** A `;` after a statement is consumed if present. */
  function SkipSemicolon(toks: seq<Token>, s: PState): PState {
    if Peek(toks, s).kind == SEMICOLON then GetToken(s) else s
  }

  // ---------------------------------------------------------------------
  // Expressions.

  function ParseExpression(toks: seq<Token>, prec: int, s: PState): (r: Parsed<Option<Expression>>)
    ensures Grows(s, r.state)
    ensures NoNewErrors(s, r.state) ==> OptWhole(r.value)
    ensures HasPrefix(Cur(toks, s).kind) ==> Stopped(toks, prec, r.state)
    decreases Rem(toks, s), 4
  {
    var k := Cur(toks, s).kind;
    if !HasPrefix(k) then Parsed(None, AddError(s, NoPrefixParseFn(k)))
    else
      var left := ParsePrefix(toks, s);
      ExpressionLoop(toks, prec, left.value, left.state)
  }

  /** Where the extension loop of `parseExpression` stops: at a `;`, before
      a token that binds no tighter than `prec`, or before a token with no
      infix routine. */
  predicate Stopped(toks: seq<Token>, prec: int, s: PState) {
    var k := Peek(toks, s).kind;
    k == SEMICOLON || Precedence(k) <= prec || !HasInfix(k)
  }

  /** The loop of `parseExpression`: while the next token is not `;` and binds
      tighter than `prec`, it becomes the operator of a larger left operand. */
  function ExpressionLoop(toks: seq<Token>, prec: int, left: Option<Expression>, s: PState)
    : (r: Parsed<Option<Expression>>)
    ensures Grows(s, r.state)
    ensures NoNewErrors(s, r.state) && OptWhole(left) ==> OptWhole(r.value)
    ensures Stopped(toks, prec, r.state)
    decreases Rem(toks, s), 3
  {
    var k := Peek(toks, s).kind;
    if k != SEMICOLON && prec < Precedence(k) && HasInfix(k) then
      var s1 := GetToken(s);
      var r := ParseInfix(toks, left, s1);
      ExpressionLoop(toks, prec, r.value, r.state)
    else Parsed(left, s)
  }

  function ParsePrefix(toks: seq<Token>, s: PState): (r: Parsed<Option<Expression>>)
    requires HasPrefix(Cur(toks, s).kind)
    ensures Grows(s, r.state)
    ensures NoNewErrors(s, r.state) ==> OptWhole(r.value)
    decreases Rem(toks, s), 3
  {
    var k := Cur(toks, s).kind;
    if k == ID then ParseIdentifier(toks, s)
    else if k == DIGIT then ParseIntegerLiteral(toks, s)
    else if k == MINUS || k == EXCLAM then ParsePrefixExpression(toks, s)
    else if k == LPAREN then ParseGroupedExpression(toks, s)
    else if k == TRUE || k == FALSE then ParseBoolean(toks, s)
    else if k == IF then ParseIfExpression(toks, s)
    else if k == FUNC then ParseFunctionLiteral(toks, s)
    else ParseArrayLiteral(toks, s)
  }

  function ParseInfix(toks: seq<Token>, left: Option<Expression>, s: PState): (r: Parsed<Option<Expression>>)
    requires HasInfix(Cur(toks, s).kind)
    ensures Grows(s, r.state)
    ensures NoNewErrors(s, r.state) && OptWhole(left) ==> OptWhole(r.value)
    decreases Rem(toks, s), 2
  {
    var k := Cur(toks, s).kind;
    if k == LPAREN then ParseCallExpression(toks, left, s)
    else if k == LBRACK then ParseIndexExpression(toks, left, s)
    else ParseInfixExpression(toks, left, s)
  }

  function ParseIdentifier(toks: seq<Token>, s: PState): Parsed<Option<Expression>> {
    var t := Cur(toks, s);
    Parsed(Some(Ident(Identifier(t, t.lexeme))), s)
  }

  function ParseIntegerLiteral(toks: seq<Token>, s: PState): Parsed<Option<Expression>> {
    var t := Cur(toks, s);
    match ParseInt(t.lexeme)
    case None => Parsed(None, AddError(s, NotAnInteger(t.lexeme)))
    case Some(v) => Parsed(Some(IntegerLiteral(t, v)), s)
  }

  function ParseBoolean(toks: seq<Token>, s: PState): Parsed<Option<Expression>> {
    var t := Cur(toks, s);
    Parsed(Some(BooleanExpression(t, t.kind == TRUE)), s)
  }

  /** A prefix operator's operand is parsed at PREFIX precedence. */
  function ParsePrefixExpression(toks: seq<Token>, s: PState): (r: Parsed<Option<Expression>>)
    requires Cur(toks, s).kind == MINUS || Cur(toks, s).kind == EXCLAM
    ensures Grows(s, r.state)
    ensures NoNewErrors(s, r.state) ==> OptWhole(r.value)
    decreases Rem(toks, s), 2
  {
    var t := Cur(toks, s);
    var operand := ParseExpression(toks, PREFIX, GetToken(s));
    Parsed(Some(PrefixExpression(t, t.lexeme, operand.value)), operand.state)
  }

  /** An infix operator's right operand is parsed at the operator's own precedence. */
  function ParseInfixExpression(toks: seq<Token>, left: Option<Expression>, s: PState)
    : (r: Parsed<Option<Expression>>)
    requires IsBinaryOperator(Cur(toks, s).kind)
    ensures Grows(s, r.state)
    ensures NoNewErrors(s, r.state) && OptWhole(left) ==> OptWhole(r.value)
    decreases Rem(toks, s), 1
  {
    var t := Cur(toks, s);
    var right := ParseExpression(toks, Precedence(t.kind), GetToken(s));
    Parsed(Some(InfixExpression(t, t.lexeme, left, right.value)), right.state)
  }

  function ParseGroupedExpression(toks: seq<Token>, s: PState): (r: Parsed<Option<Expression>>)
    requires Cur(toks, s).kind == LPAREN
    ensures Grows(s, r.state)
    ensures NoNewErrors(s, r.state) ==> OptWhole(r.value)
    decreases Rem(toks, s), 2
  {
    var inner := ParseExpression(toks, NONE, GetToken(s));
    var close := Expect(toks, RPAREN, inner.state);
    if !close.value then Parsed(None, close.state)
    else Parsed(inner.value, close.state)
  }

  function ParseIfExpression(toks: seq<Token>, s: PState): (r: Parsed<Option<Expression>>)
    requires Cur(toks, s).kind == IF
    ensures Grows(s, r.state)
    ensures NoNewErrors(s, r.state) ==> OptWhole(r.value)
    decreases Rem(toks, s), 2
  {
    var t := Cur(toks, s);
    var open := Expect(toks, LPAREN, s);
    if !open.value then Parsed(None, open.state)
    else
      var cond := ParseExpression(toks, NONE, GetToken(open.state));
      var close := Expect(toks, RPAREN, cond.state);
      if !close.value then Parsed(None, close.state)
      else
        var brace := Expect(toks, LBRACE, close.state);
        if !brace.value then Parsed(None, brace.state)
        else ParseIfBranches(toks, t, cond.value, brace.state)
  }

  /** The rest of `parseIfExpression`, entered on the `{` of the consequence:
      the consequence block, then an alternative block if `else` follows. */
  function ParseIfBranches(toks: seq<Token>, t: Token, cond: Option<Expression>, s: PState)
    : (r: Parsed<Option<Expression>>)
    requires Cur(toks, s).kind == LBRACE
    ensures Grows(s, r.state)
    ensures NoNewErrors(s, r.state) && OptWhole(cond) ==> OptWhole(r.value)
    decreases Rem(toks, s), 1
  {
    var cons := ParseStatementBlock(toks, s);
    if Peek(toks, cons.state).kind == ELSE then
      var brace := Expect(toks, LBRACE, GetToken(cons.state));
      if !brace.value then Parsed(None, brace.state)
      else
        var alt := ParseStatementBlock(toks, brace.state);
        Parsed(Some(IfExpression(t, cond, cons.value, Some(alt.value))), alt.state)
    else Parsed(Some(IfExpression(t, cond, cons.value, None)), cons.state)
  }

  function ParseFunctionLiteral(toks: seq<Token>, s: PState): (r: Parsed<Option<Expression>>)
    requires Cur(toks, s).kind == FUNC
    ensures Grows(s, r.state)
    ensures NoNewErrors(s, r.state) ==> OptWhole(r.value)
    decreases Rem(toks, s), 2
  {
    var t := Cur(toks, s);
    var open := Expect(toks, LPAREN, s);
    if !open.value then Parsed(None, open.state)
    else
      var params := ParseFunctionParameters(toks, open.state);
      var brace := Expect(toks, LBRACE, params.state);
      if !brace.value then Parsed(None, brace.state)
      else
        var body := ParseStatementBlock(toks, brace.state);
        Parsed(Some(FunctionLiteral(t, params.value.GetOr([]), body.value)), body.state)
  }

  /** Comma-separated identifiers up to `)`; nil when the `)` is missing. */
  function ParseFunctionParameters(toks: seq<Token>, s: PState): (r: Parsed<Option<seq<Identifier>>>)
    ensures Grows(s, r.state)
    ensures NoNewErrors(s, r.state) ==> r.value.Some?
  {
    if Peek(toks, s).kind == RPAREN then Parsed(Some([]), GetToken(s))
    else
      var s1 := GetToken(s);
      var t := Cur(toks, s1);
      ParameterLoop(toks, [Identifier(t, t.lexeme)], s1)
  }

  function ParameterLoop(toks: seq<Token>, acc: seq<Identifier>, s: PState)
    : (r: Parsed<Option<seq<Identifier>>>)
    ensures Grows(s, r.state)
    ensures NoNewErrors(s, r.state) ==> r.value.Some?
    decreases Rem(toks, s)
  {
    if Peek(toks, s).kind == COMMA then
      var s2 := GetToken(GetToken(s));
      var t := Cur(toks, s2);
      ParameterLoop(toks, acc + [Identifier(t, t.lexeme)], s2)
    else
      var close := Expect(toks, RPAREN, s);
      if close.value then Parsed(Some(acc), close.state) else Parsed(None, close.state)
  }

  function ParseArrayLiteral(toks: seq<Token>, s: PState): (r: Parsed<Option<Expression>>)
    requires Cur(toks, s).kind == LBRACK
    ensures Grows(s, r.state)
    ensures NoNewErrors(s, r.state) ==> OptWhole(r.value)
    decreases Rem(toks, s), 2
  {
    var t := Cur(toks, s);
    var items := ParseExpressionList(toks, RBRACK, s);
    Parsed(Some(ArrayLiteral(t, items.value.GetOr([]))), items.state)
  }

  function ParseCallExpression(toks: seq<Token>, callee: Option<Expression>, s: PState)
    : (r: Parsed<Option<Expression>>)
    requires Cur(toks, s).kind == LPAREN
    ensures Grows(s, r.state)
    ensures NoNewErrors(s, r.state) && OptWhole(callee) ==> OptWhole(r.value)
    decreases Rem(toks, s), 1
  {
    var t := Cur(toks, s);
    var args := ParseExpressionList(toks, RPAREN, s);
    Parsed(Some(CallExpression(t, callee, args.value.GetOr([]))), args.state)
  }

  function ParseIndexExpression(toks: seq<Token>, left: Option<Expression>, s: PState)
    : (r: Parsed<Option<Expression>>)
    requires Cur(toks, s).kind == LBRACK
    ensures Grows(s, r.state)
    ensures NoNewErrors(s, r.state) && OptWhole(left) ==> OptWhole(r.value)
    decreases Rem(toks, s), 1
  {
    var t := Cur(toks, s);
    var index := ParseExpression(toks, NONE, GetToken(s));
    var close := Expect(toks, RBRACK, index.state);
    if !close.value then Parsed(None, close.state)
    else Parsed(Some(IndexExpression(t, left, index.value)), close.state)
  }

  /** Comma-separated expressions up to `end`; nil when `end` is missing. */
  function ParseExpressionList(toks: seq<Token>, end: TokenType, s: PState)
    : (r: Parsed<Option<seq<Option<Expression>>>>)
    requires Cur(toks, s).kind != EOF
    ensures Grows(s, r.state)
    ensures NoNewErrors(s, r.state) ==> r.value.Some? && ListWhole(r.value.value)
    ensures r.value.Some? ==> Cur(toks, r.state).kind == end
    ensures r.value.None? ==> |r.state.errors| > |s.errors|
    decreases Rem(toks, s), 0
  {
    if Peek(toks, s).kind == end then Parsed(Some([]), GetToken(s))
    else
      var first := ParseExpression(toks, NONE, GetToken(s));
      ListWholeAppend([], first.value);
      assert [] + [first.value] == [first.value];
      ListLoop(toks, end, [first.value], first.state)
  }

  function ListLoop(toks: seq<Token>, end: TokenType, acc: seq<Option<Expression>>, s: PState)
    : (r: Parsed<Option<seq<Option<Expression>>>>)
    ensures Grows(s, r.state)
    ensures NoNewErrors(s, r.state) && ListWhole(acc) ==> r.value.Some? && ListWhole(r.value.value)
    ensures r.value.Some? ==> Cur(toks, r.state).kind == end && acc <= r.value.value
    ensures r.value.None? ==> |r.state.errors| > |s.errors|
    decreases Rem(toks, s), 0
  {
    if Peek(toks, s).kind == COMMA then
      var item := ParseExpression(toks, NONE, GetToken(GetToken(s)));
      ListWholeAppend(acc, item.value);
      ListLoop(toks, end, acc + [item.value], item.state)
    else
      var close := Expect(toks, end, s);
      if close.value then Parsed(Some(acc), close.state) else Parsed(None, close.state)
  }

  // ---------------------------------------------------------------------
  // Statements.

  /** The statements of a `{ ... }` block, entered on its `{`; the block ends
      at `}` or at EOF. */
  function ParseStatementBlock(toks: seq<Token>, s: PState): (r: Parsed<StatementBlock>)
    requires Cur(toks, s).kind == LBRACE
    ensures Grows(s, r.state)
    ensures NoNewErrors(s, r.state) ==> BlockWhole(r.value)
    ensures Cur(toks, r.state).kind == RBRACE || Cur(toks, r.state).kind == EOF
    decreases Rem(toks, s), 0
  {
    var t := Cur(toks, s);
    var body := BlockLoop(toks, [], GetToken(s));
    Parsed(StatementBlock(t, body.value), body.state)
  }

  function BlockLoop(toks: seq<Token>, acc: seq<Statement>, s: PState): (r: Parsed<seq<Statement>>)
    ensures Grows(s, r.state)
    ensures NoNewErrors(s, r.state) && StmtsWhole(acc) ==> StmtsWhole(r.value)
    ensures acc <= r.value
    ensures Cur(toks, r.state).kind == RBRACE || Cur(toks, r.state).kind == EOF
    decreases Rem(toks, s), 8
  {
    var k := Cur(toks, s).kind;
    if k == RBRACE || k == EOF then Parsed(acc, s)
    else
      var stmt := ParseStatement(toks, s);
      StmtsWholeAppend(acc, stmt.value);
      BlockLoop(toks, acc + [stmt.value], GetToken(stmt.state))
  }

  function ParseStatement(toks: seq<Token>, s: PState): (r: Parsed<Statement>)
    ensures Grows(s, r.state)
    ensures NoNewErrors(s, r.state) ==> StmtWhole(r.value)
    decreases Rem(toks, s), 7
  {
    var k := Cur(toks, s).kind;
    if k == LET then ParseLetStatement(toks, s)
    else if k == RETURN then ParseReturnStatement(toks, s)
    else ParseExpressionStatement(toks, s)
  }

  /** `let <id> = <expr>`; a mismatch of either required token yields the
      failed statement. */
  function ParseLetStatement(toks: seq<Token>, s: PState): (r: Parsed<Statement>)
    requires Cur(toks, s).kind == LET
    ensures Grows(s, r.state)
    ensures NoNewErrors(s, r.state) ==> StmtWhole(r.value)
    decreases Rem(toks, s), 6
  {
    var t := Cur(toks, s);
    var id := Expect(toks, ID, s);
    if !id.value then Parsed(FailedStatement, id.state)
    else
      var n := Cur(toks, id.state);
      var assign := Expect(toks, ASSIGN, id.state);
      if !assign.value then Parsed(FailedStatement, assign.state)
      else
        var v := ParseExpression(toks, NONE, GetToken(assign.state));
        Parsed(LetStatement(t, Identifier(n, n.lexeme), v.value), SkipSemicolon(toks, v.state))
  }

  function ParseReturnStatement(toks: seq<Token>, s: PState): (r: Parsed<Statement>)
    requires Cur(toks, s).kind == RETURN
    ensures Grows(s, r.state)
    ensures NoNewErrors(s, r.state) ==> StmtWhole(r.value)
    decreases Rem(toks, s), 6
  {
    var t := Cur(toks, s);
    var v := ParseExpression(toks, NONE, GetToken(s));
    Parsed(ReturnStatement(t, v.value), SkipSemicolon(toks, v.state))
  }

  function ParseExpressionStatement(toks: seq<Token>, s: PState): (r: Parsed<Statement>)
    ensures Grows(s, r.state)
    ensures NoNewErrors(s, r.state) ==> StmtWhole(r.value)
    decreases Rem(toks, s), 6
  {
    var t := Cur(toks, s);
    var e := ParseExpression(toks, NONE, s);
    Parsed(ExpressionStatement(t, e.value), SkipSemicolon(toks, e.state))
  }

  // ---------------------------------------------------------------------
  // Programs.

  /** The state `New` leaves: the first token is current, the second next. */
  function Initial(): PState { PState(0, []) }

  function ParseProgram(toks: seq<Token>): (r: Parsed<Program>)
    ensures |r.value.statements| <= |toks|
    ensures r.state.errors == [] ==> StmtsWhole(r.value.statements)
    ensures Cur(toks, r.state).kind == EOF
  {
    var body := ProgramLoop(toks, [], Initial());
    Parsed(Program(body.value), body.state)
  }

  /** One statement per iteration, each followed by one `getToken`, until the
      current token is EOF. */
  function ProgramLoop(toks: seq<Token>, acc: seq<Statement>, s: PState): (r: Parsed<seq<Statement>>)
    ensures Grows(s, r.state)
    ensures NoNewErrors(s, r.state) && StmtsWhole(acc) ==> StmtsWhole(r.value)
    ensures acc <= r.value && |r.value| <= |acc| + Rem(toks, s)
    ensures Cur(toks, r.state).kind == EOF
    decreases Rem(toks, s)
  {
    if Cur(toks, s).kind == EOF then Parsed(acc, s)
    else
      var stmt := ParseStatement(toks, s);
      StmtsWholeAppend(acc, stmt.value);
      ProgramLoop(toks, acc + [stmt.value], GetToken(stmt.state))
  }

  // ---------------------------------------------------------------------
  // Helpers about completeness of grown lists.

  lemma {:induction false} ListWholeAppend(acc: seq<Option<Expression>>, x: Option<Expression>)
    ensures ListWhole(acc) && OptWhole(x) ==> ListWhole(acc + [x])
    decreases |acc|
  {
    if acc != [] {
      assert (acc + [x])[1..] == acc[1..] + [x];
      ListWholeAppend(acc[1..], x);
    }
  }

  lemma {:induction false} StmtsWholeAppend(acc: seq<Statement>, x: Statement)
    ensures StmtsWhole(acc) && StmtWhole(x) ==> StmtsWhole(acc + [x])
    decreases |acc|
  {
    if acc != [] {
      assert (acc + [x])[1..] == acc[1..] + [x];
      StmtsWholeAppend(acc[1..], x);
    } else {
      assert [x][1..] == [];
    }
  }
  // ---------------------------------------------------------------------
  // One-step unfoldings of the loops, used by the imperative parser.

  lemma ExpressionStep(toks: seq<Token>, prec: int, left: Option<Expression>, s: PState, s1: PState,
                       right: Option<Expression>, s2: PState)
    requires var k := Peek(toks, s).kind; k != SEMICOLON && prec < Precedence(k) && HasInfix(k)
    requires s1 == GetToken(s) && Parsed(right, s2) == ParseInfix(toks, left, s1)
    ensures ExpressionLoop(toks, prec, left, s) == ExpressionLoop(toks, prec, right, s2)
  {
  }

  lemma ListEntry(toks: seq<Token>, end: TokenType, s: PState, s1: PState, first: Option<Expression>, s2: PState)
    requires Cur(toks, s).kind != EOF && Peek(toks, s).kind != end && s1 == GetToken(s)
    requires Parsed(first, s2) == ParseExpression(toks, NONE, s1)
    ensures ParseExpressionList(toks, end, s) == ListLoop(toks, end, [first], s2)
  {
  }

  lemma ListStep(toks: seq<Token>, end: TokenType, acc: seq<Option<Expression>>, s: PState, s1: PState,
                 item: Option<Expression>, s2: PState)
    requires Peek(toks, s).kind == COMMA && s1 == GetToken(GetToken(s))
    requires Parsed(item, s2) == ParseExpression(toks, NONE, s1)
    ensures ListLoop(toks, end, acc, s) == ListLoop(toks, end, acc + [item], s2)
  {
  }

  lemma ListExit(toks: seq<Token>, end: TokenType, acc: seq<Option<Expression>>, s: PState, ok: bool, s1: PState)
    requires Peek(toks, s).kind != COMMA
    requires Parsed(ok, s1) == Expect(toks, end, s)
    ensures ListLoop(toks, end, acc, s) == Parsed(if ok then Some(acc) else None, s1)
  {
  }
}

