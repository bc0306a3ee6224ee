/** Token kinds and the keyword classifier of the lexer. Go's `TokenType` is a
    string; here it is a closed set of kinds, and `TypeName` gives the string
    each kind stands for (it is what error messages print). */
module Tokens {

  newtype TokenType = k: int | 0 <= k < 30

  const EOF: TokenType := 0
  const ILLEGAL: TokenType := 1
  const ID: TokenType := 2
  const DIGIT: TokenType := 3
  const STRING: TokenType := 4
  const ASSIGN: TokenType := 5
  const EQ: TokenType := 6
  const NEQ: TokenType := 7
  const PLUS: TokenType := 8
  const MINUS: TokenType := 9
  const MULT: TokenType := 10
  const DIV: TokenType := 11
  const LT: TokenType := 12
  const GT: TokenType := 13
  const COMMA: TokenType := 14
  const EXCLAM: TokenType := 15
  const SEMICOLON: TokenType := 16
  const LPAREN: TokenType := 17
  const RPAREN: TokenType := 18
  const LBRACE: TokenType := 19
  const RBRACE: TokenType := 20
  const LBRACK: TokenType := 21
  const RBRACK: TokenType := 22
  const FUNC: TokenType := 23
  const LET: TokenType := 24
  const IF: TokenType := 25
  const ELSE: TokenType := 26
  const RETURN: TokenType := 27
  const TRUE: TokenType := 28
  const FALSE: TokenType := 29

  datatype Token = Token(kind: TokenType, lexeme: string)

  /** The `i`-th token a lexer hands out when `toks` are the tokens it yields
      before its input is used up: from then on it returns EOF with an empty lexeme. */
  function TokenAt(toks: seq<Token>, i: nat): Token {
    if i < |toks| then toks[i] else Token(EOF, "")
  }

  /** The string value of each token-type constant. */
  function TypeName(t: TokenType): string {
    match t
    case EOF => "EOF"
    case ILLEGAL => "ILLEGAL"
    case ID => "ID"
    case DIGIT => "DIGIT"
    case STRING => "STRING"
    case ASSIGN => "="
    case EQ => "=="
    case NEQ => "!="
    case PLUS => "+"
    case MINUS => "-"
    case MULT => "*"
    case DIV => "/"
    case LT => "<"
    case GT => ">"
    case COMMA => ","
    case EXCLAM => "!"
    case SEMICOLON => ";"
    case LPAREN => "("
    case RPAREN => ")"
    case LBRACE => "{"
    case RBRACE => "}"
    case LBRACK => "["
    case RBRACK => "]"
    case FUNC => "FUNC"
    case LET => "LET"
    case IF => "IF"
    case ELSE => "ELSE"
    case RETURN => "RETURN"
    case TRUE => "TRUE"
    case _ => "FALSE"
  }

  predicate IsKeyword(t: TokenType) {
    t == FUNC || t == LET || t == FALSE || t == TRUE || t == IF || t == ELSE || t == RETURN
  }

  /** The reserved words of the language and their token kinds. */
  const Keywords: map<string, TokenType> :=
    map["func" := FUNC, "let" := LET, "false" := FALSE, "true" := TRUE,
        "if" := IF, "else" := ELSE, "return" := RETURN]

  /** Classifies an identifier-shaped lexeme: a reserved word gets its keyword
      kind, everything else is an identifier. */
  function DetermineTokenType(id: string): (t: TokenType)
    ensures t == ID || IsKeyword(t)
    ensures t != ID <==> id in {"func", "let", "false", "true", "if", "else", "return"}
  {
    if id in Keywords then Keywords[id] else ID
  }

  /** Each reserved word maps to its own kind. */
  lemma KeywordKinds()
    ensures DetermineTokenType("func") == FUNC
    ensures DetermineTokenType("let") == LET
    ensures DetermineTokenType("false") == FALSE
    ensures DetermineTokenType("true") == TRUE
    ensures DetermineTokenType("if") == IF
    ensures DetermineTokenType("else") == ELSE
    ensures DetermineTokenType("return") == RETURN
  {
  }

  /** Lookup is exact: a differently capitalised word is an identifier. */
  lemma LookupIsCaseSensitive()
    ensures DetermineTokenType("Let") == ID
    ensures DetermineTokenType("TRUE") == ID
    ensures DetermineTokenType("Func") == ID
  {
    assert "Let" !in Keywords;
    assert "TRUE" !in Keywords;
    assert "Func" !in Keywords;
  }

  /** Every keyword kind is produced by exactly one word. */
  lemma KeywordKindsAreDistinct(a: string, b: string)
    requires DetermineTokenType(a) == DetermineTokenType(b) != ID
    ensures a == b
  {
  }
}
