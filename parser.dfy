/** The parser as an object: the current and next token, the position of
    the current token in the token stream and the error list, updated in place
    by each routine. Every method is proved to compute exactly what the
    matching function of `ParserSpec` computes from the state it starts in.
    The parser reads the stream the lexer produces (see `ParseSource`); past
    its end it sees EOF, as the lexer keeps returning EOF there. */
module Parsing {
  import opened Wrappers
  import opened Tokens
  import opened GoInts
  import opened Ast
  import opened Lexing
  import Spec = ParserSpec

  class Parser {
    const tokens: seq<Token>
    var pos: nat
    var currentToken: Token
    var nextToken: Token
    var errors: seq<Spec.ParseError>

    /** The two token fields are the tokens at `pos` and just after it. */
    ghost predicate Valid()
      reads this
    {
      currentToken == TokenAt(tokens, pos) && nextToken == TokenAt(tokens, pos + 1)
    }

    ghost function State(): Spec.PState
      reads this
    {
      Spec.PState(pos, errors)
    }

    /** `New`: no errors, and the first two tokens become the current and the
        next token. */
    constructor (tokens: seq<Token>)
      ensures Valid() && this.tokens == tokens && State() == Spec.Initial()
    {
      this.tokens := tokens;
      pos, errors := 0, [];
      currentToken := TokenAt(tokens, 0);
      nextToken := TokenAt(tokens, 1);
    }

    method GetToken()
      requires Valid()
      modifies this
      ensures Valid() && State() == Spec.GetToken(old(State()))
    {
      currentToken := nextToken;
      nextToken := TokenAt(tokens, pos + 2);
      pos := pos + 1;
    }

    /** `Errors`: the messages recorded so far, oldest first. */
    function Errors(): (r: seq<string>)
      reads this
      ensures |r| == |errors| && forall i :: 0 <= i < |errors| ==> r[i] == Spec.Message(errors[i])
    {
      Spec.Messages(errors)
    }

    method PeekError(t: TokenType)
      requires Valid()
      modifies this
      ensures Valid() && State() == Spec.AddError(old(State()), Spec.PeekError(tokens, t, old(State())))
    {
      errors := errors + [Spec.ExpectedNext(t, currentToken.kind)];
    }

    method NoPrefixParseFnError(t: TokenType)
      requires Valid()
      modifies this
      ensures Valid() && State() == Spec.AddError(old(State()), Spec.NoPrefixParseFn(t))
    {
      errors := errors + [Spec.NoPrefixParseFn(t)];
    }

    method Expect(t: TokenType) returns (ok: bool)
      requires Valid()
      modifies this
      ensures Valid() && Spec.Parsed(ok, State()) == Spec.Expect(tokens, t, old(State()))
    {
      if nextToken.kind == t {
        GetToken();
        ok := true;
      } else {
        PeekError(t);
        ok := false;
      }
    }

    // -------------------------------------------------------------------
    // Expressions.

    method ParseExpression(prec: int) returns (r: Option<Expression>)
      requires Valid()
      modifies this
      ensures Valid() && Spec.Parsed(r, State()) == Spec.ParseExpression(tokens, prec, old(State()))
      decreases Spec.Rem(tokens, State()), 4
    {
      if !Spec.HasPrefix(currentToken.kind) {
        NoPrefixParseFnError(currentToken.kind);
        r := None;
      } else {
        var left := ParsePrefix();
        r := ExtendExpression(prec, left);
      }
    }

    /** The loop of `parseExpression`: while the next token is not `;`, binds
        tighter than `prec` and has an infix routine, it makes `left` the left
        operand of a larger expression. */
    method ExtendExpression(prec: int, left: Option<Expression>) returns (r: Option<Expression>)
      requires Valid()
      modifies this
      ensures Valid() && Spec.Parsed(r, State()) == Spec.ExpressionLoop(tokens, prec, left, old(State()))
      decreases Spec.Rem(tokens, State()), 3
    {
      ghost var target := Spec.ExpressionLoop(tokens, prec, left, State());
      r := left;
      while nextToken.kind != SEMICOLON && prec < Spec.Precedence(nextToken.kind)
        invariant Valid() && old(pos) <= pos
        invariant Spec.ExpressionLoop(tokens, prec, r, State()) == target
        decreases Spec.Rem(tokens, State())
      {
        if !Spec.HasInfix(nextToken.kind) {
          break;
        }
        ghost var s0 := State();
        GetToken();
        ghost var s1 := State();
        var right := ParseInfix(r);
        Spec.ExpressionStep(tokens, prec, r, s0, s1, right, State());
        r := right;
      }
    }

    /** The prefix routine registered for the current token. */
    method ParsePrefix() returns (r: Option<Expression>)
      requires Valid() && Spec.HasPrefix(currentToken.kind)
      modifies this
      ensures Valid() && Spec.Parsed(r, State()) == Spec.ParsePrefix(tokens, old(State()))
      decreases Spec.Rem(tokens, State()), 3
    {
      var k := currentToken.kind;
      if k == ID {
        r := ParseIdentifier();
      } else if k == DIGIT {
        r := ParseIntegerLiteral();
      } else if k == MINUS || k == EXCLAM {
        r := ParsePrefixExpression();
      } else if k == LPAREN {
        r := ParseGroupedExpression();
      } else if k == TRUE || k == FALSE {
        r := ParseBoolean();
      } else if k == IF {
        r := ParseIfExpression();
      } else if k == FUNC {
        r := ParseFunctionLiteral();
      } else {
        r := ParseArrayLiteral();
      }
    }

    /** The infix routine registered for the current token. */
    method ParseInfix(left: Option<Expression>) returns (r: Option<Expression>)
      requires Valid() && Spec.HasInfix(currentToken.kind)
      modifies this
      ensures Valid() && Spec.Parsed(r, State()) == Spec.ParseInfix(tokens, left, old(State()))
      decreases Spec.Rem(tokens, State()), 2
    {
      var k := currentToken.kind;
      if k == LPAREN {
        r := ParseCallExpression(left);
      } else if k == LBRACK {
        r := ParseIndexExpression(left);
      } else {
        r := ParseInfixExpression(left);
      }
    }

    method ParseIdentifier() returns (r: Option<Expression>)
      requires Valid()
      ensures Spec.Parsed(r, State()) == Spec.ParseIdentifier(tokens, State())
    {
      r := Some(Ident(Identifier(currentToken, currentToken.lexeme)));
    }

    method ParseIntegerLiteral() returns (r: Option<Expression>)
      requires Valid()
      modifies this
      ensures Valid() && Spec.Parsed(r, State()) == Spec.ParseIntegerLiteral(tokens, old(State()))
    {
      var value := ParseInt(currentToken.lexeme);
      if value.None? {
        errors := errors + [Spec.NotAnInteger(currentToken.lexeme)];
        return None;
      }
      r := Some(IntegerLiteral(currentToken, value.value));
    }

    method ParseBoolean() returns (r: Option<Expression>)
      requires Valid()
      ensures Spec.Parsed(r, State()) == Spec.ParseBoolean(tokens, State())
    {
      r := Some(BooleanExpression(currentToken, currentToken.kind == TRUE));
    }

    method ParsePrefixExpression() returns (r: Option<Expression>)
      requires Valid() && (currentToken.kind == MINUS || currentToken.kind == EXCLAM)
      modifies this
      ensures Valid() && Spec.Parsed(r, State()) == Spec.ParsePrefixExpression(tokens, old(State()))
      decreases Spec.Rem(tokens, State()), 2
    {
      var t := currentToken;
      GetToken();
      var operand := ParseExpression(Spec.PREFIX);
      r := Some(PrefixExpression(t, t.lexeme, operand));
    }

    method ParseInfixExpression(left: Option<Expression>) returns (r: Option<Expression>)
      requires Valid() && Spec.IsBinaryOperator(currentToken.kind)
      modifies this
      ensures Valid() && Spec.Parsed(r, State()) == Spec.ParseInfixExpression(tokens, left, old(State()))
      decreases Spec.Rem(tokens, State()), 1
    {
      var t := currentToken;
      var precedence := Spec.Precedence(t.kind);
      GetToken();
      var right := ParseExpression(precedence);
      r := Some(InfixExpression(t, t.lexeme, left, right));
    }

    method ParseGroupedExpression() returns (r: Option<Expression>)
      requires Valid() && currentToken.kind == LPAREN
      modifies this
      ensures Valid() && Spec.Parsed(r, State()) == Spec.ParseGroupedExpression(tokens, old(State()))
      decreases Spec.Rem(tokens, State()), 2
    {
      GetToken();
      var inner := ParseExpression(Spec.NONE);
      var ok := Expect(RPAREN);
      r := if ok then inner else None;
    }

    method ParseIfExpression() returns (r: Option<Expression>)
      requires Valid() && currentToken.kind == IF
      modifies this
      ensures Valid() && Spec.Parsed(r, State()) == Spec.ParseIfExpression(tokens, old(State()))
      decreases Spec.Rem(tokens, State()), 2
    {
      var t := currentToken;
      r := None;
      var ok := Expect(LPAREN);
      if ok {
        GetToken();
        var cond := ParseExpression(Spec.NONE);
        ok := Expect(RPAREN);
        if ok {
          ok := Expect(LBRACE);
          if ok {
            r := ParseIfBranches(t, cond);
          }
        }
      }
    }

    method ParseIfBranches(t: Token, cond: Option<Expression>) returns (r: Option<Expression>)
      requires Valid() && currentToken.kind == LBRACE
      modifies this
      ensures Valid() && Spec.Parsed(r, State()) == Spec.ParseIfBranches(tokens, t, cond, old(State()))
      decreases Spec.Rem(tokens, State()), 1
    {
      var cons := ParseStatementBlock();
      if nextToken.kind == ELSE {
        GetToken();
        var ok := Expect(LBRACE);
        if ok {
          var a := ParseStatementBlock();
          r := Some(IfExpression(t, cond, cons, Some(a)));
        } else {
          r := None;
        }
      } else {
        r := Some(IfExpression(t, cond, cons, None));
      }
    }

    method ParseFunctionLiteral() returns (r: Option<Expression>)
      requires Valid() && currentToken.kind == FUNC
      modifies this
      ensures Valid() && Spec.Parsed(r, State()) == Spec.ParseFunctionLiteral(tokens, old(State()))
      decreases Spec.Rem(tokens, State()), 2
    {
      var t := currentToken;
      r := None;
      var ok := Expect(LPAREN);
      if ok {
        var params := ParseFunctionParameters();
        ok := Expect(LBRACE);
        if ok {
          var body := ParseStatementBlock();
          r := Some(FunctionLiteral(t, params.GetOr([]), body));
        }
      }
    }

    method ParseFunctionParameters() returns (r: Option<seq<Identifier>>)
      requires Valid()
      modifies this
      ensures Valid() && Spec.Parsed(r, State()) == Spec.ParseFunctionParameters(tokens, old(State()))
    {
      if nextToken.kind == RPAREN {
        GetToken();
        return Some([]);
      }
      ghost var s0 := State();
      GetToken();
      var identifiers := [Identifier(currentToken, currentToken.lexeme)];
      while nextToken.kind == COMMA
        invariant Valid()
        invariant Spec.ParameterLoop(tokens, identifiers, State()) == Spec.ParseFunctionParameters(tokens, s0)
        decreases Spec.Rem(tokens, State())
      {
        GetToken();
        GetToken();
        identifiers := identifiers + [Identifier(currentToken, currentToken.lexeme)];
      }
      var ok := Expect(RPAREN);
      r := if ok then Some(identifiers) else None;
    }

    method ParseArrayLiteral() returns (r: Option<Expression>)
      requires Valid() && currentToken.kind == LBRACK
      modifies this
      ensures Valid() && Spec.Parsed(r, State()) == Spec.ParseArrayLiteral(tokens, old(State()))
      decreases Spec.Rem(tokens, State()), 2
    {
      var t := currentToken;
      var items := ParseExpressionList(RBRACK);
      r := Some(ArrayLiteral(t, items.GetOr([])));
    }

    method ParseCallExpression(callee: Option<Expression>) returns (r: Option<Expression>)
      requires Valid() && currentToken.kind == LPAREN
      modifies this
      ensures Valid() && Spec.Parsed(r, State()) == Spec.ParseCallExpression(tokens, callee, old(State()))
      decreases Spec.Rem(tokens, State()), 1
    {
      var t := currentToken;
      var args := ParseExpressionList(RPAREN);
      r := Some(CallExpression(t, callee, args.GetOr([])));
    }

    method ParseIndexExpression(left: Option<Expression>) returns (r: Option<Expression>)
      requires Valid() && currentToken.kind == LBRACK
      modifies this
      ensures Valid() && Spec.Parsed(r, State()) == Spec.ParseIndexExpression(tokens, left, old(State()))
      decreases Spec.Rem(tokens, State()), 1
    {
      var t := currentToken;
      GetToken();
      var index := ParseExpression(Spec.NONE);
      var ok := Expect(RBRACK);
      r := if ok then Some(IndexExpression(t, left, index)) else None;
    }

    method ParseExpressionList(end: TokenType) returns (r: Option<seq<Option<Expression>>>)
      requires Valid() && currentToken.kind != EOF
      modifies this
      ensures Valid() && Spec.Parsed(r, State()) == Spec.ParseExpressionList(tokens, end, old(State()))
      decreases Spec.Rem(tokens, State()), 0
    {
      if nextToken.kind == end {
        GetToken();
        r := Some([]);
      } else {
        ghost var s0 := State();
        GetToken();
        ghost var s1 := State();
        var first := ParseExpression(Spec.NONE);
        Spec.ListEntry(tokens, end, s0, s1, first, State());
        r := ParseListRest(end, [first]);
      }
    }

    /** The loop of `parseExpressionList` after the first element. */
    method ParseListRest(end: TokenType, first: seq<Option<Expression>>) returns (r: Option<seq<Option<Expression>>>)
      requires Valid()
      modifies this
      ensures Valid() && Spec.Parsed(r, State()) == Spec.ListLoop(tokens, end, first, old(State()))
      decreases Spec.Rem(tokens, State()), 0
    {
      ghost var target := Spec.ListLoop(tokens, end, first, State());
      var list := first;
      while nextToken.kind == COMMA
        invariant Valid()
        invariant Spec.ListLoop(tokens, end, list, State()) == target
        decreases Spec.Rem(tokens, State())
      {
        ghost var s2 := State();
        GetToken();
        GetToken();
        ghost var s3 := State();
        var item := ParseExpression(Spec.NONE);
        Spec.ListStep(tokens, end, list, s2, s3, item, State());
        list := list + [item];
      }
      ghost var s4 := State();
      var ok := Expect(end);
      Spec.ListExit(tokens, end, list, s4, ok, State());
      r := if ok then Some(list) else None;
    }

    // -------------------------------------------------------------------
    // Statements.

    method ParseStatementBlock() returns (b: StatementBlock)
      requires Valid() && currentToken.kind == LBRACE
      modifies this
      ensures Valid() && Spec.Parsed(b, State()) == Spec.ParseStatementBlock(tokens, old(State()))
      decreases Spec.Rem(tokens, State()), 0
    {
      var t := currentToken;
      ghost var s0 := State();
      var statements: seq<Statement> := [];
      GetToken();
      while currentToken.kind != RBRACE && currentToken.kind != EOF
        invariant Valid() && s0.pos < pos
        invariant Spec.BlockLoop(tokens, statements, State()) == Spec.BlockLoop(tokens, [], Spec.GetToken(s0))
        decreases Spec.Rem(tokens, State())
      {
        var stmt := ParseStatement();
        statements := statements + [stmt];
        GetToken();
      }
      b := StatementBlock(t, statements);
    }

    method ParseStatement() returns (r: Statement)
      requires Valid()
      modifies this
      ensures Valid() && Spec.Parsed(r, State()) == Spec.ParseStatement(tokens, old(State()))
      decreases Spec.Rem(tokens, State()), 7
    {
      var k := currentToken.kind;
      if k == LET {
        r := ParseLetStatement();
      } else if k == RETURN {
        r := ParseReturnStatement();
      } else {
        r := ParseExpressionStatement();
      }
    }

    method ParseLetStatement() returns (r: Statement)
      requires Valid() && currentToken.kind == LET
      modifies this
      ensures Valid() && Spec.Parsed(r, State()) == Spec.ParseLetStatement(tokens, old(State()))
      decreases Spec.Rem(tokens, State()), 6
    {
      var t := currentToken;
      r := FailedStatement;
      var ok := Expect(ID);
      if ok {
        var name := Identifier(currentToken, currentToken.lexeme);
        ok := Expect(ASSIGN);
        if ok {
          GetToken();
          var value := ParseExpression(Spec.NONE);
          if nextToken.kind == SEMICOLON {
            GetToken();
          }
          r := LetStatement(t, name, value);
        }
      }
    }

    method ParseReturnStatement() returns (r: Statement)
      requires Valid() && currentToken.kind == RETURN
      modifies this
      ensures Valid() && Spec.Parsed(r, State()) == Spec.ParseReturnStatement(tokens, old(State()))
      decreases Spec.Rem(tokens, State()), 6
    {
      var t := currentToken;
      GetToken();
      var value := ParseExpression(Spec.NONE);
      if nextToken.kind == SEMICOLON {
        GetToken();
      }
      r := ReturnStatement(t, value);
    }

    method ParseExpressionStatement() returns (r: Statement)
      requires Valid()
      modifies this
      ensures Valid() && Spec.Parsed(r, State()) == Spec.ParseExpressionStatement(tokens, old(State()))
      decreases Spec.Rem(tokens, State()), 6
    {
      var t := currentToken;
      var e := ParseExpression(Spec.NONE);
      if nextToken.kind == SEMICOLON {
        GetToken();
      }
      r := ExpressionStatement(t, e);
    }

    // -------------------------------------------------------------------
    // Programs.

    method ParseProgram() returns (p: Program)
      requires Valid()
      modifies this
      ensures Valid() && Spec.Parsed(p.statements, State()) == Spec.ProgramLoop(tokens, [], old(State()))
      ensures old(State()) == Spec.Initial() ==> Spec.Parsed(p, State()) == Spec.ParseProgram(tokens)
    {
      ghost var s0 := State();
      var statements: seq<Statement> := [];
      while currentToken.kind != EOF
        invariant Valid()
        invariant Spec.ProgramLoop(tokens, statements, State()) == Spec.ProgramLoop(tokens, [], s0)
        decreases Spec.Rem(tokens, State())
      {
        var stmt := ParseStatement();
        statements := statements + [stmt];
        GetToken();
      }
      p := Program(statements);
    }
  }

  /** Lex and parse a whole source text, as the tests and the console do.
      The program and the errors are those of the parse of the tokens the
      lexer returns for the text. */
  method ParseSource(input: string) returns (p: Program, errors: seq<string>)
    ensures p == Spec.ParseProgram(Tokenize(input, 0)).value
    ensures errors == Spec.Messages(Spec.ParseProgram(Tokenize(input, 0)).state.errors)
  {
    var l := new Lexer(input);
    var tokens := l.ReadTokens();
    var parser := new Parser(tokens);
    p := parser.ParseProgram();
    errors := parser.Errors();
  }
}
