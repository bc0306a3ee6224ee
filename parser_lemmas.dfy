/** What the parser promises, proved about the functions of `ParserSpec`:
    the precedence order, how `parseExpression` groups operators, what
    `expect`, `let` and the expression lists do, and how `ParseProgram`
    collects statements and errors. */
module ParserProperties {
  import opened Wrappers
  import opened Tokens
  import opened GoInts
  import opened Ast
  import opened ParserSpec

  // ---------------------------------------------------------------------
  // Precedence.

  /** The levels rise from `==`/`!=` through `<`/`>`, `+`/`-`, `*`/`/` and
      prefix operators to calls and indexing; every token outside the table,
      among them the closing tokens of lists and blocks, is at NONE. */
  lemma PrecedenceLevels()
    ensures Precedence(EQ) == Precedence(NEQ) == EQUALS
    ensures Precedence(LT) == Precedence(GT) == LESSERGREATER
    ensures Precedence(PLUS) == Precedence(MINUS) == SUM
    ensures Precedence(MULT) == Precedence(DIV) == MULT_LEVEL
    ensures Precedence(LPAREN) == CALL && Precedence(LBRACK) == INDEX
    ensures NONE < EQUALS < LESSERGREATER < SUM < MULT_LEVEL < PREFIX < CALL < INDEX
    ensures forall t :: !(IsBinaryOperator(t) || t == LPAREN || t == LBRACK) ==> Precedence(t) == NONE
  {
  }

  // ---------------------------------------------------------------------
  // parseExpression.

  /** With no prefix routine for the current token exactly one error is
      recorded, naming that token's kind, and no expression results. */
  lemma NoPrefixRoutine(toks: seq<Token>, prec: int, s: PState)
    requires !HasPrefix(Cur(toks, s).kind)
    ensures var r := ParseExpression(toks, prec, s);
      r.value == None && r.state.pos == s.pos &&
      r.state.errors == s.errors + [NoPrefixParseFn(Cur(toks, s).kind)] &&
      Message(r.state.errors[|s.errors|]) ==
        "no prefix parse function for " + TypeName(Cur(toks, s).kind) + " found"
  {
  }

  /** The extension loop stops, leaving the left operand as it is, when the
      next token is `;` or binds no tighter than the bound. */
  lemma LoopStops(toks: seq<Token>, prec: int, left: Option<Expression>, s: PState)
    requires Peek(toks, s).kind == SEMICOLON || Precedence(Peek(toks, s).kind) <= prec
    ensures ExpressionLoop(toks, prec, left, s) == Parsed(left, s)
  {
  }

  /** A binary operator that binds tighter than the bound takes the left
      operand, and its right operand is parsed at the operator's own level. */
  lemma LoopTakesOperator(toks: seq<Token>, prec: int, left: Option<Expression>, s: PState)
    requires IsBinaryOperator(Peek(toks, s).kind) && prec < Precedence(Peek(toks, s).kind)
    ensures var o := Peek(toks, s);
      var right := ParseExpression(toks, Precedence(o.kind), GetToken(GetToken(s)));
      ExpressionLoop(toks, prec, left, s) ==
        ExpressionLoop(toks, prec, Some(InfixExpression(o, o.lexeme, left, right.value)), right.state)
  {
    var s1 := GetToken(s);
    var o := Peek(toks, s);
    assert Cur(toks, s1) == o;
    var right := ParseExpression(toks, Precedence(o.kind), GetToken(s1));
    assert ParseInfix(toks, left, s1) == ParseInfixExpression(toks, left, s1);
    assert ParseInfixExpression(toks, left, s1) == Parsed(Some(InfixExpression(o, o.lexeme, left, right.value)), right.state);
  }

  /** The tokens that stand alone as operands: identifiers and integers. */
  predicate Atom(t: Token) {
    t.kind == ID || (t.kind == DIGIT && ParseInt(t.lexeme).Some?)
  }

  function AtomExpr(t: Token): Expression
    requires Atom(t)
  {
    if t.kind == ID then Ident(Identifier(t, t.lexeme)) else IntegerLiteral(t, ParseInt(t.lexeme).value)
  }

  function Bin(o: Token, l: Expression, r: Expression): Expression {
    InfixExpression(o, o.lexeme, Some(l), Some(r))
  }

  /** An operand followed by a token that binds no tighter than the bound is
      the whole expression, and no token is consumed. */
  lemma AtomAlone(toks: seq<Token>, prec: int, s: PState)
    requires Atom(Cur(toks, s)) && Precedence(Peek(toks, s).kind) <= prec
    ensures ParseExpression(toks, prec, s) == Parsed(Some(AtomExpr(Cur(toks, s))), s)
  {
    var left := ParsePrefix(toks, s);
    assert left == Parsed(Some(AtomExpr(Cur(toks, s))), s);
    LoopStops(toks, prec, left.value, s);
  }

  /** The grouping rule of precedence climbing for `a o1 b o2 c` : when `o1`
      binds at least as tightly as `o2` the left pair groups first (so equal
      levels associate to the left), otherwise the right pair does. */
  lemma BinaryGrouping(toks: seq<Token>, s: PState)
    requires Atom(TokenAt(toks, s.pos)) && IsBinaryOperator(TokenAt(toks, s.pos + 1).kind)
    requires Atom(TokenAt(toks, s.pos + 2)) && IsBinaryOperator(TokenAt(toks, s.pos + 3).kind)
    requires Atom(TokenAt(toks, s.pos + 4)) && Precedence(TokenAt(toks, s.pos + 5).kind) == NONE
    ensures var a, o1, b, o2, c := AtomExpr(TokenAt(toks, s.pos)), TokenAt(toks, s.pos + 1),
        AtomExpr(TokenAt(toks, s.pos + 2)), TokenAt(toks, s.pos + 3), AtomExpr(TokenAt(toks, s.pos + 4));
      ParseExpression(toks, NONE, s) ==
        Parsed(Some(if Precedence(o1.kind) >= Precedence(o2.kind) then Bin(o2, Bin(o1, a, b), c)
                    else Bin(o1, a, Bin(o2, b, c))), s.(pos := s.pos + 4))
  {
    var a := AtomExpr(TokenAt(toks, s.pos));
    var left := ParsePrefix(toks, s);
    assert left == Parsed(Some(a), s);
    LoopTakesOperator(toks, NONE, Some(a), s);
    if Precedence(TokenAt(toks, s.pos + 1).kind) >= Precedence(TokenAt(toks, s.pos + 3).kind) {
      LeftPairFirst(toks, a, s);
    } else {
      RightPairFirst(toks, a, s);
    }
  }

  /** The loop of `BinaryGrouping` after `a`, when `o1` binds at least as tightly. */
  lemma LeftPairFirst(toks: seq<Token>, a: Expression, s: PState)
    requires IsBinaryOperator(TokenAt(toks, s.pos + 1).kind)
    requires Atom(TokenAt(toks, s.pos + 2)) && IsBinaryOperator(TokenAt(toks, s.pos + 3).kind)
    requires Atom(TokenAt(toks, s.pos + 4)) && Precedence(TokenAt(toks, s.pos + 5).kind) == NONE
    requires Precedence(TokenAt(toks, s.pos + 1).kind) >= Precedence(TokenAt(toks, s.pos + 3).kind)
    ensures var o1, b, o2, c := TokenAt(toks, s.pos + 1),
        AtomExpr(TokenAt(toks, s.pos + 2)), TokenAt(toks, s.pos + 3), AtomExpr(TokenAt(toks, s.pos + 4));
      var s2 := s.(pos := s.pos + 2);
      var right := ParseExpression(toks, Precedence(o1.kind), s2);
      ExpressionLoop(toks, NONE, Some(InfixExpression(o1, o1.lexeme, Some(a), right.value)), right.state) ==
        Parsed(Some(Bin(o2, Bin(o1, a, b), c)), s.(pos := s.pos + 4))
  {
    var o1, b, o2, c := TokenAt(toks, s.pos + 1),
      AtomExpr(TokenAt(toks, s.pos + 2)), TokenAt(toks, s.pos + 3), AtomExpr(TokenAt(toks, s.pos + 4));
    var s2, s4 := s.(pos := s.pos + 2), s.(pos := s.pos + 4);
    AtomAlone(toks, Precedence(o1.kind), s2);
    LoopTakesOperator(toks, NONE, Some(Bin(o1, a, b)), s2);
    AtomAlone(toks, Precedence(o2.kind), s4);
    LoopStops(toks, NONE, Some(Bin(o2, Bin(o1, a, b), c)), s4);
  }

  /** The loop of `BinaryGrouping` after `a`, when `o2` binds tighter. */
  lemma RightPairFirst(toks: seq<Token>, a: Expression, s: PState)
    requires IsBinaryOperator(TokenAt(toks, s.pos + 1).kind)
    requires Atom(TokenAt(toks, s.pos + 2)) && IsBinaryOperator(TokenAt(toks, s.pos + 3).kind)
    requires Atom(TokenAt(toks, s.pos + 4)) && Precedence(TokenAt(toks, s.pos + 5).kind) == NONE
    requires Precedence(TokenAt(toks, s.pos + 1).kind) < Precedence(TokenAt(toks, s.pos + 3).kind)
    ensures var o1, b, o2, c := TokenAt(toks, s.pos + 1),
        AtomExpr(TokenAt(toks, s.pos + 2)), TokenAt(toks, s.pos + 3), AtomExpr(TokenAt(toks, s.pos + 4));
      var s2 := s.(pos := s.pos + 2);
      var right := ParseExpression(toks, Precedence(o1.kind), s2);
      ExpressionLoop(toks, NONE, Some(InfixExpression(o1, o1.lexeme, Some(a), right.value)), right.state) ==
        Parsed(Some(Bin(o1, a, Bin(o2, b, c))), s.(pos := s.pos + 4))
  {
    var o1, b, o2, c := TokenAt(toks, s.pos + 1),
      AtomExpr(TokenAt(toks, s.pos + 2)), TokenAt(toks, s.pos + 3), AtomExpr(TokenAt(toks, s.pos + 4));
    var s2, s4 := s.(pos := s.pos + 2), s.(pos := s.pos + 4);
    var p1 := Precedence(o1.kind);
    var inner := ParsePrefix(toks, s2);
    assert inner == Parsed(Some(b), s2);
    LoopTakesOperator(toks, p1, Some(b), s2);
    AtomAlone(toks, Precedence(o2.kind), s4);
    LoopStops(toks, p1, Some(Bin(o2, b, c)), s4);
    LoopStops(toks, NONE, Some(Bin(o1, a, Bin(o2, b, c))), s4);
  }

  /** A prefix operator's operand is parsed at PREFIX level, above every
      binary operator: `-a * b` is `((-a) * b)`. */
  lemma PrefixBindsTighter(toks: seq<Token>, s: PState)
    requires Cur(toks, s).kind == MINUS || Cur(toks, s).kind == EXCLAM
    requires Atom(TokenAt(toks, s.pos + 1)) && IsBinaryOperator(TokenAt(toks, s.pos + 2).kind)
    requires Atom(TokenAt(toks, s.pos + 3)) && Precedence(TokenAt(toks, s.pos + 4).kind) == NONE
    ensures var m, a, o, b := Cur(toks, s), AtomExpr(TokenAt(toks, s.pos + 1)), TokenAt(toks, s.pos + 2),
        AtomExpr(TokenAt(toks, s.pos + 3));
      ParseExpression(toks, NONE, s) ==
        Parsed(Some(Bin(o, PrefixExpression(m, m.lexeme, Some(a)), b)), s.(pos := s.pos + 3))
  {
    var m, a, o, b := Cur(toks, s), AtomExpr(TokenAt(toks, s.pos + 1)), TokenAt(toks, s.pos + 2),
      AtomExpr(TokenAt(toks, s.pos + 3));
    var s1, s3 := GetToken(s), s.(pos := s.pos + 3);
    AtomAlone(toks, PREFIX, s1);
    var neg := PrefixExpression(m, m.lexeme, Some(a));
    assert ParsePrefix(toks, s) == Parsed(Some(neg), s1);
    LoopTakesOperator(toks, NONE, Some(neg), s1);
    AtomAlone(toks, Precedence(o.kind), s3);
    LoopStops(toks, NONE, Some(Bin(o, neg, b)), s3);
  }

  // ---------------------------------------------------------------------
  // Whole programs of one expression statement, and the groupings the
  // parser's tests check through the program's text.

  /** A program that is one expression statement running up to the end of
      the tokens. */
  lemma SingleExpressionProgram(toks: seq<Token>, e: Expression, k: nat)
    requires Cur(toks, Initial()).kind != LET && Cur(toks, Initial()).kind != RETURN
    requires Cur(toks, Initial()).kind != EOF
    requires ParseExpression(toks, NONE, Initial()) == Parsed(Some(e), PState(k, []))
    requires TokenAt(toks, k + 1).kind == EOF
    ensures ParseProgram(toks) ==
      Parsed(Program([ExpressionStatement(TokenAt(toks, 0), Some(e))]), PState(k + 1, []))
  {
    var s0 := Initial();
    var stmt := ParseStatement(toks, s0);
    assert stmt == ParseExpressionStatement(toks, s0);
    assert SkipSemicolon(toks, PState(k, [])) == PState(k, []);
    assert stmt == Parsed(ExpressionStatement(TokenAt(toks, 0), Some(e)), PState(k, []));
    assert ProgramLoop(toks, [stmt.value], PState(k + 1, [])) == Parsed([stmt.value], PState(k + 1, []));
    assert [] + [stmt.value] == [stmt.value];
    assert ProgramLoop(toks, [], s0) == ProgramLoop(toks, [] + [stmt.value], GetToken(stmt.state));
    assert ParseProgram(toks) == Parsed(Program(ProgramLoop(toks, [], s0).value), ProgramLoop(toks, [], s0).state);
  }

  /** A program that is one expression statement up to the end of the
      tokens, parsed without error, has that expression's text. */
  lemma OneExpressionProgram(toks: seq<Token>, e: Expression, k: nat)
    requires Cur(toks, Initial()).kind != LET && Cur(toks, Initial()).kind != RETURN
    requires Cur(toks, Initial()).kind != EOF
    requires ParseExpression(toks, NONE, Initial()) == Parsed(Some(e), PState(k, []))
    requires TokenAt(toks, k + 1).kind == EOF
    requires Renderable(e)
    ensures var r := ParseProgram(toks);
      r.state.errors == [] && StmtsRenderable(r.value.statements) &&
      ProgramString(r.value) == ExpressionString(e)
  {
    SingleExpressionProgram(toks, e, k);
    var ss := [ExpressionStatement(TokenAt(toks, 0), Some(e))];
    assert ss[1..] == [];
    assert StmtRenderable(ss[0]) && StmtsRenderable(ss[1..]);
    assert StatementsString(ss) == StatementString(ss[0]) + StatementsString([]);
    assert StatementString(ss[0]) == ExpressionString(e);
    assert ProgramString(Program(ss)) == StatementsString(ss);
  }

  function Id(name: string): Token { Token(ID, name) }

  function Leaf(name: string): Expression { Ident(Identifier(Id(name), name)) }

  lemma MinusText()
    ensures var m := Token(MINUS, "-");
      Renderable(Bin(m, Bin(m, Leaf("a"), Leaf("b")), Leaf("c"))) &&
      ExpressionString(Bin(m, Bin(m, Leaf("a"), Leaf("b")), Leaf("c"))) == "((a - b) - c)"
  {
    var m := Token(MINUS, "-");
    OperatorRenderings(m, "-", Leaf("a"), Leaf("b"));
    OperatorRenderings(m, "-", Bin(m, Leaf("a"), Leaf("b")), Leaf("c"));
    assert "(" + ("(" + "a" + " " + "-" + " " + "b" + ")") + " " + "-" + " " + "c" + ")" == "((a - b) - c)";
  }

  function Num(digits: string, v: int64): Expression { IntegerLiteral(Token(DIGIT, digits), v) }

  lemma SumText()
    ensures var e := Bin(Token(PLUS, "+"), Num("1", 1), Bin(Token(MULT, "*"), Num("2", 2), Num("3", 3)));
      Renderable(e) && ExpressionString(e) == "(1 + (2 * 3))"
  {
    var product := Bin(Token(MULT, "*"), Num("2", 2), Num("3", 3));
    OperatorRenderings(Token(MULT, "*"), "*", Num("2", 2), Num("3", 3));
    OperatorRenderings(Token(PLUS, "+"), "+", Num("1", 1), product);
    assert "(" + "1" + " " + "+" + " " + ("(" + "2" + " " + "*" + " " + "3" + ")") + ")" == "(1 + (2 * 3))";
  }

  lemma NegationText()
    ensures var e := Bin(Token(MULT, "*"), PrefixExpression(Token(MINUS, "-"), "-", Some(Leaf("a"))), Leaf("b"));
      Renderable(e) && ExpressionString(e) == "((-a) * b)"
  {
    var neg := PrefixExpression(Token(MINUS, "-"), "-", Some(Leaf("a")));
    OperatorRenderings(Token(MINUS, "-"), "-", Leaf("b"), Leaf("a"));
    OperatorRenderings(Token(MULT, "*"), "*", neg, Leaf("b"));
    assert "(" + ("(" + "-" + "a" + ")") + " " + "*" + " " + "b" + ")" == "((-a) * b)";
  }

  /** `a - b - c` is `((a - b) - c)`: equal levels associate to the left. */
  lemma LeftAssociativeMinus()
    ensures var r := ParseProgram([Id("a"), Token(MINUS, "-"), Id("b"), Token(MINUS, "-"), Id("c")]);
      r.state.errors == [] && StmtsRenderable(r.value.statements) &&
      ProgramString(r.value) == "((a - b) - c)"
  {
    var toks := [Id("a"), Token(MINUS, "-"), Id("b"), Token(MINUS, "-"), Id("c")];
    var m := Token(MINUS, "-");
    BinaryGrouping(toks, Initial());
    var e := Bin(m, Bin(m, Leaf("a"), Leaf("b")), Leaf("c"));
    MinusText();
    OneExpressionProgram(toks, e, 4);
  }

  lemma SmallNumerals()
    ensures ParseInt("1") == Some(1) && ParseInt("2") == Some(2) && ParseInt("3") == Some(3)
  {
  }

  /** `1 + 2 * 3` is `(1 + (2 * 3))`: `*` binds tighter than `+`. */
  lemma ProductBindsTighter()
    ensures var r := ParseProgram([Token(DIGIT, "1"), Token(PLUS, "+"), Token(DIGIT, "2"), Token(MULT, "*"),
                                   Token(DIGIT, "3")]);
      r.state.errors == [] && StmtsRenderable(r.value.statements) &&
      ProgramString(r.value) == "(1 + (2 * 3))"
  {
    var toks := [Token(DIGIT, "1"), Token(PLUS, "+"), Token(DIGIT, "2"), Token(MULT, "*"), Token(DIGIT, "3")];
    SmallNumerals();
    assert TokenAt(toks, 0) == Token(DIGIT, "1") && TokenAt(toks, 1) == Token(PLUS, "+");
    assert TokenAt(toks, 2) == Token(DIGIT, "2") && TokenAt(toks, 3) == Token(MULT, "*");
    assert TokenAt(toks, 4) == Token(DIGIT, "3") && TokenAt(toks, 5) == Token(EOF, "");
    assert AtomExpr(Token(DIGIT, "1")) == Num("1", 1) && AtomExpr(Token(DIGIT, "2")) == Num("2", 2);
    assert AtomExpr(Token(DIGIT, "3")) == Num("3", 3);
    assert Precedence(PLUS) < Precedence(MULT);
    BinaryGrouping(toks, Initial());
    var e := Bin(Token(PLUS, "+"), Num("1", 1), Bin(Token(MULT, "*"), Num("2", 2), Num("3", 3)));
    assert ParseExpression(toks, NONE, Initial()) == Parsed(Some(e), PState(4, []));
    SumText();
    OneExpressionProgram(toks, e, 4);
  }

  /** `-a * b` is `((-a) * b)`. */
  lemma NegationBindsTighter()
    ensures var r := ParseProgram([Token(MINUS, "-"), Id("a"), Token(MULT, "*"), Id("b")]);
      r.state.errors == [] && StmtsRenderable(r.value.statements) &&
      ProgramString(r.value) == "((-a) * b)"
  {
    var toks := [Token(MINUS, "-"), Id("a"), Token(MULT, "*"), Id("b")];
    PrefixBindsTighter(toks, Initial());
    var neg := PrefixExpression(Token(MINUS, "-"), "-", Some(Leaf("a")));
    var e := Bin(Token(MULT, "*"), neg, Leaf("b"));
    NegationText();
    OneExpressionProgram(toks, e, 3);
  }

  // ---------------------------------------------------------------------
  // expect.

  /** `expect(t)` consumes exactly the next token when it has kind `t`;
      otherwise the cursor stays and one error names `t` and the kind of the
      current token. */
  lemma ExpectAdvancesOrReports(toks: seq<Token>, t: TokenType, s: PState)
    ensures var r := Expect(toks, t, s);
      (r.value <==> Peek(toks, s).kind == t) &&
      (r.value ==> r.state == s.(pos := s.pos + 1)) &&
      (!r.value ==> r.state.pos == s.pos && r.state.errors == s.errors + [ExpectedNext(t, Cur(toks, s).kind)] &&
                    Message(r.state.errors[|s.errors|]) ==
                      "expected next token to be " + TypeName(t) + ", got " + TypeName(Cur(toks, s).kind) + " instead")
  {
  }

  // ---------------------------------------------------------------------
  // Statements.

  /** A `let` statement fails exactly when the token after `let` is not an
      identifier or the one after that is not `=`; the first mismatch is the
      one reported. Otherwise the value is parsed after the `=`, and a `;`
      after it is consumed without being required. */
  lemma LetRequirements(toks: seq<Token>, s: PState)
    requires Cur(toks, s).kind == LET
    ensures var r := ParseStatement(toks, s);
      var name, assign := TokenAt(toks, s.pos + 1), TokenAt(toks, s.pos + 2);
      (r.value == FailedStatement <==> name.kind != ID || assign.kind != ASSIGN) &&
      (name.kind != ID ==> r.state == AddError(s, ExpectedNext(ID, LET))) &&
      (name.kind == ID && assign.kind != ASSIGN ==>
         r.state == AddError(s.(pos := s.pos + 1), ExpectedNext(ASSIGN, ID))) &&
      (name.kind == ID && assign.kind == ASSIGN ==>
         var v := ParseExpression(toks, NONE, s.(pos := s.pos + 3));
         r == Parsed(LetStatement(Cur(toks, s), Identifier(name, name.lexeme), v.value), SkipSemicolon(toks, v.state)))
  {
    assert ParseStatement(toks, s) == ParseLetStatement(toks, s);
    var id := Expect(toks, ID, s);
    if id.value {
      assert Cur(toks, id.state) == TokenAt(toks, s.pos + 1);
      assert Peek(toks, id.state) == TokenAt(toks, s.pos + 2);
    }
  }

  /** The trailing `;` of a statement: consumed when it is there, never
      required, and never the cause of an error. */
  lemma SemicolonIsOptional(toks: seq<Token>, s: PState)
    ensures var r := SkipSemicolon(toks, s);
      r.errors == s.errors &&
      r.pos == (if TokenAt(toks, s.pos + 1).kind == SEMICOLON then s.pos + 1 else s.pos)
  {
  }

  /** `return` is followed by its value, parsed from the next token on. */
  lemma ReturnStatementShape(toks: seq<Token>, s: PState)
    requires Cur(toks, s).kind == RETURN
    ensures var v := ParseExpression(toks, NONE, s.(pos := s.pos + 1));
      ParseStatement(toks, s) == Parsed(ReturnStatement(Cur(toks, s), v.value), SkipSemicolon(toks, v.state))
  {
    assert ParseStatement(toks, s) == ParseReturnStatement(toks, s);
  }

  /** Any other token starts an expression statement. */
  lemma ExpressionStatementShape(toks: seq<Token>, s: PState)
    requires Cur(toks, s).kind != LET && Cur(toks, s).kind != RETURN
    ensures var e := ParseExpression(toks, NONE, s);
      ParseStatement(toks, s) == Parsed(ExpressionStatement(Cur(toks, s), e.value), SkipSemicolon(toks, e.state))
  {
    assert ParseStatement(toks, s) == ParseExpressionStatement(toks, s);
  }

  // ---------------------------------------------------------------------
  // Expression lists.

  /** The `i`-th of every other token from `p` on. */
  function ItemAt(toks: seq<Token>, p: nat, i: nat): Token {
    TokenAt(toks, p + 2 * i)
  }

  /** The operands at every other token from `p` on, `n` of them. */
  function Atoms(toks: seq<Token>, p: nat, n: nat): (r: seq<Option<Expression>>)
    requires forall i :: 0 <= i < n ==> Atom(ItemAt(toks, p, i))
    ensures |r| == n
    ensures forall i :: 0 <= i < n ==> r[i] == Some(AtomExpr(ItemAt(toks, p, i)))
  {
    if n == 0 then [] else Atoms(toks, p, n - 1) + [Some(AtomExpr(ItemAt(toks, p, n - 1)))]
  }

  /** An expression list whose next token is its closing token is empty,
      and the closing token is consumed. */
  lemma EmptyList(toks: seq<Token>, end: TokenType, s: PState)
    requires Cur(toks, s).kind != EOF && Peek(toks, s).kind == end
    ensures ParseExpressionList(toks, end, s) == Parsed(Some([]), s.(pos := s.pos + 1))
  {
  }

  /** When an item is followed by neither `,` nor the closing token, the list
      is nil and one error names the missing closing token. */
  lemma UnclosedList(toks: seq<Token>, end: TokenType, acc: seq<Option<Expression>>, s: PState)
    requires Peek(toks, s).kind != COMMA && Peek(toks, s).kind != end
    ensures ListLoop(toks, end, acc, s) == Parsed(None, AddError(s, ExpectedNext(end, Cur(toks, s).kind)))
  {
  }

  /** The layout `a0 , a1 , ... , a(n-1) end` of operands at every other
      token from `p` on and separators from `q = p + 1` on. */
  predicate AtomLayout(toks: seq<Token>, end: TokenType, p: nat, q: nat, n: nat) {
    q == p + 1 && 0 < n &&
    (forall i :: 0 <= i < n ==> Atom(ItemAt(toks, p, i))) &&
    (forall i :: 0 <= i < n - 1 ==> ItemAt(toks, q, i).kind == COMMA) &&
    ItemAt(toks, q, n - 1).kind == end
  }

  /** The loop of `parseExpressionList` over that layout, entered on operand
      `j - 1` with the first `j` operands collected. */
  lemma {:induction false} AtomListLoop(toks: seq<Token>, end: TokenType, p: nat, q: nat, n: nat, j: nat, s: PState)
    requires end == RPAREN || end == RBRACK
    requires AtomLayout(toks, end, p, q, n)
    requires 1 <= j <= n && s.pos == p + 2 * (j - 1)
    ensures ListLoop(toks, end, Atoms(toks, p, j), s) ==
      Parsed(Some(Atoms(toks, p, n)), s.(pos := p + 2 * n - 1))
    decreases n - j
  {
    assert Peek(toks, s) == ItemAt(toks, q, j - 1);
    if j < n {
      var s2 := s.(pos := s.pos + 2);
      assert Cur(toks, s2) == ItemAt(toks, p, j);
      assert Peek(toks, s2) == ItemAt(toks, q, j);
      AtomAlone(toks, NONE, s2);
      assert ListLoop(toks, end, Atoms(toks, p, j), s) == ListLoop(toks, end, Atoms(toks, p, j + 1), s2);
      AtomListLoop(toks, end, p, q, n, j + 1, s2);
    }
  }

  /** `( a0 , ... , a(n-1) )` or `[ a0 , ... , a(n-1) ]`, entered on the
      opening token: one expression per item, in order, and the closing
      token becomes the current one. */
  lemma AtomList(toks: seq<Token>, end: TokenType, s: PState, p: nat, q: nat, n: nat)
    requires end == RPAREN || end == RBRACK
    requires Cur(toks, s).kind != EOF && p == s.pos + 1
    requires AtomLayout(toks, end, p, q, n)
    ensures ParseExpressionList(toks, end, s) == Parsed(Some(Atoms(toks, p, n)), s.(pos := s.pos + 2 * n))
  {
    var s1 := s.(pos := p);
    assert Peek(toks, s) == ItemAt(toks, p, 0);
    assert Cur(toks, s1) == ItemAt(toks, p, 0);
    assert Peek(toks, s1) == ItemAt(toks, q, 0);
    AtomAlone(toks, NONE, s1);
    var first := Some(AtomExpr(ItemAt(toks, p, 0)));
    ListEntry(toks, end, s, s1, first, s1);
    assert Atoms(toks, p, 1) == [first];
    AtomListLoop(toks, end, p, q, n, 1, s1);
  }

  // ---------------------------------------------------------------------
  // Programs.

  /** What `ParseProgram`'s loop collects and where it stops do not depend on
      the statements collected before: it appends to them. */
  lemma {:induction false} ProgramLoopAccumulates(toks: seq<Token>, acc: seq<Statement>, s: PState)
    ensures ProgramLoop(toks, acc, s) ==
      Parsed(acc + ProgramLoop(toks, [], s).value, ProgramLoop(toks, [], s).state)
    decreases Rem(toks, s)
  {
    if Cur(toks, s).kind != EOF {
      var stmt := ParseStatement(toks, s);
      var s1 := GetToken(stmt.state);
      assert ProgramLoop(toks, acc, s) == ProgramLoop(toks, acc + [stmt.value], s1);
      assert ProgramLoop(toks, [], s) == ProgramLoop(toks, [] + [stmt.value], s1);
      assert [] + [stmt.value] == [stmt.value];
      ProgramLoopAccumulates(toks, acc + [stmt.value], s1);
      ProgramLoopAccumulates(toks, [stmt.value], s1);
      assert acc + [stmt.value] + ProgramLoop(toks, [], s1).value == acc + ([stmt.value] + ProgramLoop(toks, [], s1).value);
    } else {
      assert acc + [] == acc;
    }
  }

  /** Statements come out in source order: the statement at the cursor, then
      those parsed after one `getToken` past its end. */
  lemma ProgramInSourceOrder(toks: seq<Token>, s: PState)
    requires Cur(toks, s).kind != EOF
    ensures var stmt := ParseStatement(toks, s);
      var rest := ProgramLoop(toks, [], stmt.state.(pos := stmt.state.pos + 1));
      ProgramLoop(toks, [], s) == Parsed([stmt.value] + rest.value, rest.state)
  {
    var stmt := ParseStatement(toks, s);
    assert [] + [stmt.value] == [stmt.value];
    ProgramLoopAccumulates(toks, [stmt.value], GetToken(stmt.state));
  }

  /** A program parsed without error has a text: every statement and
      expression in it is complete. */
  lemma ErrorFreeProgramRenders(toks: seq<Token>)
    ensures var r := ParseProgram(toks);
      r.state.errors == [] ==> StmtsRenderable(r.value.statements)
  {
    var r := ParseProgram(toks);
    if r.state.errors == [] {
      StmtsWholeIsRenderable(r.value.statements);
    }
  }

  /** The tokens of `let = 5;`. */
  function LetNoName(): seq<Token> {
    [Token(LET, "let"), Token(ASSIGN, "="), Token(DIGIT, "5"), Token(SEMICOLON, ";")]
  }

  lemma LetNoNameFirst()
    ensures ParseStatement(LetNoName(), PState(0, [])) == Parsed(FailedStatement, PState(0, [ExpectedNext(ID, LET)]))
  {
    var toks := LetNoName();
    assert TokenAt(toks, 0) == Token(LET, "let") && TokenAt(toks, 1) == Token(ASSIGN, "=");
    LetRequirements(toks, PState(0, []));
  }

  lemma LetNoNameSecond(es: seq<ParseError>)
    ensures ParseStatement(LetNoName(), PState(1, es)) ==
      Parsed(ExpressionStatement(Token(ASSIGN, "="), None), PState(1, es + [NoPrefixParseFn(ASSIGN)]))
  {
    var toks := LetNoName();
    assert TokenAt(toks, 1) == Token(ASSIGN, "=") && TokenAt(toks, 2) == Token(DIGIT, "5");
    ExpressionStatementShape(toks, PState(1, es));
    NoPrefixRoutine(toks, NONE, PState(1, es));
  }

  lemma LetNoNameThird(es: seq<ParseError>)
    ensures var five := Token(DIGIT, "5");
      ParseStatement(LetNoName(), PState(2, es)) ==
        Parsed(ExpressionStatement(five, Some(IntegerLiteral(five, 5))), PState(3, es))
  {
    var toks := LetNoName();
    assert ParseInt("5") == Some(5);
    assert TokenAt(toks, 2) == Token(DIGIT, "5") && TokenAt(toks, 3) == Token(SEMICOLON, ";");
    ExpressionStatementShape(toks, PState(2, es));
    AtomAlone(toks, NONE, PState(2, es));
  }

  function LetNoNameStatements(): seq<Statement> {
    var five := Token(DIGIT, "5");
    [FailedStatement, ExpressionStatement(Token(ASSIGN, "="), None),
     ExpressionStatement(five, Some(IntegerLiteral(five, 5)))]
  }

  lemma LetNoNameFromThird(toks: seq<Token>, es: seq<ParseError>)
    requires toks == LetNoName()
    ensures ProgramLoop(toks, [], PState(2, es)) == Parsed(LetNoNameStatements()[2..], PState(4, es))
  {
    LetNoNameThird(es);
    ProgramInSourceOrder(toks, PState(2, es));
    assert TokenAt(toks, 4).kind == EOF;
    assert ProgramLoop(toks, [], PState(4, es)) == Parsed([], PState(4, es));
    assert LetNoNameStatements()[2..] == [LetNoNameStatements()[2]] + [];
  }

  lemma LetNoNameFromSecond(toks: seq<Token>, es: seq<ParseError>)
    requires toks == LetNoName()
    ensures ProgramLoop(toks, [], PState(1, es)) ==
      Parsed(LetNoNameStatements()[1..], PState(4, es + [NoPrefixParseFn(ASSIGN)]))
  {
    LetNoNameSecond(es);
    ProgramInSourceOrder(toks, PState(1, es));
    LetNoNameFromThird(toks, es + [NoPrefixParseFn(ASSIGN)]);
    assert LetNoNameStatements()[1..] == [LetNoNameStatements()[1]] + LetNoNameStatements()[2..];
  }

  /** `let = 5;`: the missing name fails the `let` statement, which is still
      kept; parsing resumes at `=`, which has no prefix routine, and then
      at `5`. Both errors are reported, in order. */
  lemma LetWithoutName(toks: seq<Token>)
    requires toks == LetNoName()
    ensures var five := Token(DIGIT, "5");
      ParseProgram(toks).value.statements ==
        [FailedStatement, ExpressionStatement(Token(ASSIGN, "="), None),
         ExpressionStatement(five, Some(IntegerLiteral(five, 5)))]
    ensures ParseProgram(toks).state.errors == [ExpectedNext(ID, LET), NoPrefixParseFn(ASSIGN)]
    ensures Messages(ParseProgram(toks).state.errors) ==
      ["expected next token to be ID, got LET instead", "no prefix parse function for = found"]
  {
    var e1 := [ExpectedNext(ID, LET)];
    var e2 := e1 + [NoPrefixParseFn(ASSIGN)];
    LetNoNameFirst();
    ProgramInSourceOrder(toks, PState(0, []));
    LetNoNameFromSecond(toks, e1);
    var ss := LetNoNameStatements();
    assert ss == [ss[0]] + ss[1..];
    assert ProgramLoop(toks, [], Initial()) == Parsed(ss, PState(4, e2));
    assert Messages(e2) == [Message(e2[0]), Message(e2[1])];
    LetNoNameMessages();
  }

  lemma LetNoNameMessages()
    ensures Message(ExpectedNext(ID, LET)) == "expected next token to be ID, got LET instead"
    ensures Message(NoPrefixParseFn(ASSIGN)) == "no prefix parse function for = found"
  {
    ExpectedIdMessage();
    NoPrefixAssignMessage();
  }

  lemma ExpectedIdMessage()
    ensures Message(ExpectedNext(ID, LET)) == "expected next token to be ID, got LET instead"
  {
    assert TypeName(ID) == "ID" && TypeName(LET) == "LET";
  }

  lemma NoPrefixAssignMessage()
    ensures Message(NoPrefixParseFn(ASSIGN)) == "no prefix parse function for = found"
  {
    assert TypeName(ASSIGN) == "=";
  }
}
