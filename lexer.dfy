/** The byte scanner. The input is a Go string; each `char` here stands for
    one byte of it, and `NUL` (byte 0) is what the scanner reads past the end.

    `Scan(input, p)` is the specification: starting with the cursor on byte
    `p`, it gives the token `GetToken` returns and the cursor it leaves. The
    class `Lexer` is the scanner itself, with its two cursors and current byte;
    each method is proved against the specification. */
module Lexing {
  import opened Tokens
  import GoInts

  const NUL: char := 0 as char

  /** The byte at `i`, or NUL past the end (what `readChar`/`peekChar` yield there). */
  function CharAt(input: string, i: nat): char {
    if i < |input| then input[i] else NUL
  }

  predicate IsLetter(c: char) { 'a' <= c <= 'z' || 'A' <= c <= 'Z' || c == '_' }

  predicate IsDigit(c: char) { '0' <= c <= '9' }

  predicate IsWhitespace(c: char) { c == ' ' || c == '\t' || c == '\n' || c == '\r' }

  /** The cursor after one `readChar`: one byte on, but never past the end. */
  function Step(input: string, p: nat): nat
    requires p <= |input|
  {
    if p < |input| then p + 1 else p
  }

  /** The first position at or after `p` that does not hold whitespace. */
  function SkipWhitespace(input: string, p: nat): (q: nat)
    requires p <= |input|
    ensures p <= q <= |input|
    ensures forall i :: p <= i < q ==> IsWhitespace(input[i])
    ensures !IsWhitespace(CharAt(input, q))
    decreases |input| - p
  {
    if IsWhitespace(CharAt(input, p)) then SkipWhitespace(input, p + 1) else p
  }

  /** The end of the longest run of letters starting at `p`. */
  function LetterRunEnd(input: string, p: nat): (q: nat)
    requires p <= |input|
    ensures p <= q <= |input|
    ensures forall i :: p <= i < q ==> IsLetter(input[i])
    ensures !IsLetter(CharAt(input, q))
    decreases |input| - p
  {
    if IsLetter(CharAt(input, p)) then LetterRunEnd(input, p + 1) else p
  }

  /** The end of the longest run of digits starting at `p`. */
  function DigitRunEnd(input: string, p: nat): (q: nat)
    requires p <= |input|
    ensures p <= q <= |input|
    ensures forall i :: p <= i < q ==> IsDigit(input[i])
    ensures !IsDigit(CharAt(input, q))
    decreases |input| - p
  {
    if IsDigit(CharAt(input, p)) then DigitRunEnd(input, p + 1) else p
  }

  /** Go's `string(b)` on a byte `b`: the UTF-8 encoding of the code point
      U+00bb, so one byte below 0x80 and two bytes from 0x80 on. A `char`
      above 0xFF stands for no byte and is read as its low byte, as Go's
      `byte(x)` would. */
  function ByteString(c: char): (r: string)
    ensures |r| == 1 || |r| == 2
  {
    var b := c as int % 0x100;
    if b < 0x80 then [b as char]
    else [(0xC0 + b / 0x40) as char, (0x80 + b % 0x40) as char]
  }

  /** Decoding `ByteString(c)` as UTF-8 gives back the byte: an ASCII byte
      stands for itself; any other is a lead byte 0xC2 or 0xC3 carrying the
      top two bits and a continuation byte carrying the low six. */
  lemma ByteStringDecodes(c: char)
    requires c as int < 0x100
    ensures c as int < 0x80 ==> ByteString(c) == [c]
    ensures 0x80 <= c as int ==>
      var r := ByteString(c);
      |r| == 2 &&
      0xC2 <= r[0] as int <= 0xC3 && 0x80 <= r[1] as int < 0xC0 &&
      (r[0] as int - 0xC0) * 0x40 + (r[1] as int - 0x80) == c as int
  {
  }

  /** The token kind of a byte that forms a token on its own, if it is one. */
  function SingleCharKind(c: char): TokenType {
    match c
    case '{' => LBRACE
    case '}' => RBRACE
    case '(' => LPAREN
    case ')' => RPAREN
    case '-' => MINUS
    case '+' => PLUS
    case '*' => MULT
    case '/' => DIV
    case '<' => LT
    case '>' => GT
    case ';' => SEMICOLON
    case ',' => COMMA
    case '[' => LBRACK
    case ']' => RBRACK
    case _ => ILLEGAL
  }

  /** What one `GetToken` call yields from cursor `p`, and where it leaves the cursor. */
  function Scan(input: string, p: nat): (r: (Token, nat))
    requires p <= |input|
    ensures p <= r.1 <= |input|
    ensures p < |input| ==> p < r.1
  {
    var q := SkipWhitespace(input, p);
    var c := CharAt(input, q);
    if c == '=' then
      if CharAt(input, q + 1) == '=' then (Token(EQ, "=="), Step(input, Step(input, q)))
      else (Token(ASSIGN, "="), Step(input, q))
    else if c == '!' then
      if CharAt(input, q + 1) == '=' then (Token(NEQ, "!="), Step(input, Step(input, q)))
      else (Token(EXCLAM, "!"), Step(input, q))
    else if c == '"' then
      // readString as written: its loop always stops after one readChar, so the
      // lexeme is the quote alone and the byte after it is skipped as well
      (Token(STRING, input[q..Step(input, q)]), Step(input, Step(input, q)))
    else if c == NUL then
      (Token(EOF, ""), Step(input, q))
    else if IsLetter(c) then
      var e := LetterRunEnd(input, q);
      (Token(DetermineTokenType(input[q..e]), input[q..e]), e)
    else if IsDigit(c) then
      var e := DigitRunEnd(input, q);
      (Token(DIGIT, input[q..e]), e)
    else
      (Token(SingleCharKind(c), ByteString(c)), Step(input, q))
  }

  /** The tokens that successive `GetToken` calls return from cursor `p` until
      the input is used up. Past its end every call returns EOF. */
  function Tokenize(input: string, p: nat): seq<Token>
    requires p <= |input|
    decreases |input| - p
  {
    if p == |input| then [] else
      var r := Scan(input, p);
      [r.0] + Tokenize(input, r.1)
  }

  /** The cursor after `n` successive `GetToken` calls from `p`. */
  function CursorAfter(input: string, p: nat, n: nat): (q: nat)
    requires p <= |input|
    ensures q <= |input|
    decreases n
  {
    if n == 0 then p else CursorAfter(input, Scan(input, p).1, n - 1)
  }

  // ---------------------------------------------------------------------
  // Properties of the scanner specification.

  /** Once only whitespace is left, every call yields EOF with an empty lexeme
      and leaves the cursor at the end. */
  lemma ExhaustedInputGivesEof(input: string, p: nat)
    requires p <= |input|
    requires forall i :: p <= i < |input| ==> IsWhitespace(input[i])
    ensures Scan(input, p) == (Token(EOF, ""), |input|)
  {
  }

  /** `=` and `!` are joined with a following `=` into one two-byte token. */
  lemma TwoByteOperators(input: string, p: nat)
    requires p <= |input|
    ensures var q := SkipWhitespace(input, p);
      var r := Scan(input, p);
      (CharAt(input, q) == '=' ==>
         if CharAt(input, q + 1) == '=' then r == (Token(EQ, "=="), q + 2)
         else r == (Token(ASSIGN, "="), q + 1)) &&
      (CharAt(input, q) == '!' ==>
         if CharAt(input, q + 1) == '=' then r == (Token(NEQ, "!="), q + 2)
         else r == (Token(EXCLAM, "!"), q + 1))
  {
  }

  /** Whitespace before a token is skipped: the token is what starts at the
      first other byte. */
  lemma WhitespaceIsSkipped(input: string, p: nat)
    requires p < |input| && IsWhitespace(input[p])
    ensures Scan(input, p) == Scan(input, p + 1)
  {
  }

  /** A letter or underscore starts the longest run of letters and underscores,
      classified by keyword lookup. */
  lemma IdentifierMaximalMunch(input: string, p: nat)
    requires p <= |input|
    requires IsLetter(CharAt(input, SkipWhitespace(input, p)))
    ensures var q := SkipWhitespace(input, p);
      var (tok, e) := Scan(input, p);
      q < e && tok.lexeme == input[q..e] &&
      (forall i :: q <= i < e ==> IsLetter(input[i])) &&
      !IsLetter(CharAt(input, e)) &&
      tok.kind == DetermineTokenType(tok.lexeme)
  {
  }

  /** A digit is not a letter, so it ends an identifier. */
  lemma DigitEndsIdentifier(c: char)
    requires IsDigit(c)
    ensures !IsLetter(c)
  {
  }

  /** A digit starts the longest run of digits, a DIGIT token. */
  lemma NumberMaximalMunch(input: string, p: nat)
    requires p <= |input|
    requires IsDigit(CharAt(input, SkipWhitespace(input, p)))
    ensures var q := SkipWhitespace(input, p);
      var (tok, e) := Scan(input, p);
      q < e && tok == Token(DIGIT, input[q..e]) &&
      (forall i :: q <= i < e ==> IsDigit(input[i])) &&
      !IsDigit(CharAt(input, e))
  {
  }

  /** A byte that starts no token is one ILLEGAL token whose lexeme is
      `string(byte)`: the byte itself when it is ASCII, its two-byte UTF-8
      encoding otherwise. */
  lemma IllegalByte(input: string, p: nat)
    requires p <= |input|
    ensures var q := SkipWhitespace(input, p);
      var c := CharAt(input, q);
      c !in "=!\"{}()-+*/<>;,[]" && c != NUL && !IsLetter(c) && !IsDigit(c) ==>
        Scan(input, p) == (Token(ILLEGAL, ByteString(c)), q + 1) &&
        (c as int < 0x80 ==> Scan(input, p).0.lexeme == [c]) &&
        (0x80 <= c as int < 0x100 ==> |Scan(input, p).0.lexeme| == 2)
  {
  }

  /** The byte 0xC3 alone lexes to ILLEGAL with the two-byte lexeme C3 83. */
  lemma NonAsciiIllegal()
    ensures Scan("\U{C3}", 0) == (Token(ILLEGAL, "\U{C3}\U{83}"), 1)
  {
    assert SkipWhitespace("\U{C3}", 0) == 0;
  }

  lemma CursorStaysAtEnd(input: string, n: nat)
    ensures CursorAfter(input, |input|, n) == |input|
    decreases n
  {
    if n > 0 {
      CursorStaysAtEnd(input, n - 1);
    }
  }

  /** The token stream as a sequence agrees with calling the scanner over and
      over: the n-th call from `p` yields token n of `Tokenize(input, p)`. */
  lemma {:induction false} TokenizeAgrees(input: string, p: nat, n: nat)
    requires p <= |input|
    ensures TokenAt(Tokenize(input, p), n) == Scan(input, CursorAfter(input, p, n)).0
    decreases |input| - p
  {
    if p == |input| {
      CursorStaysAtEnd(input, n);
    } else if n > 0 {
      var r := Scan(input, p);
      TokenizeAgrees(input, r.1, n - 1);
    }
  }

  /** Every DIGIT token the lexer produces is a non-empty run of decimal digits,
      the only shape the integer conversion is modelled for. */
  lemma {:induction false} DigitTokensAreDigitRuns(input: string, p: nat)
    requires p <= |input|
    ensures forall t :: t in Tokenize(input, p) && t.kind == DIGIT ==>
      t.lexeme != [] && GoInts.AllDigits(t.lexeme)
    decreases |input| - p
  {
    if p < |input| {
      var r := Scan(input, p);
      DigitTokensAreDigitRuns(input, r.1);
      var q := SkipWhitespace(input, p);
      var c := CharAt(input, q);
      if r.0.kind == DIGIT {
        assert IsDigit(c);
        var e := DigitRunEnd(input, q);
        assert r.0.lexeme == input[q..e];
        assert forall i :: 0 <= i < |r.0.lexeme| ==> r.0.lexeme[i] == input[q + i];
      }
      assert Tokenize(input, p) == [r.0] + Tokenize(input, r.1);
    }
  }

  // ---------------------------------------------------------------------
  // The scanner object.

  class Lexer {
    const input: string
    var position: nat
    var readPosition: nat
    var ch: char

    /** `position` is the current byte, `readPosition` the next one, and `ch`
        the byte at `position` (NUL at the end). */
    ghost predicate Valid()
      reads this
    {
      position <= readPosition <= |input| &&
      if position < |input| then readPosition == position + 1 && ch == input[position]
      else readPosition == position && ch == NUL
    }

    constructor (input: string)
      ensures Valid() && this.input == input && position == 0
    {
      this.input := input;
      position, readPosition, ch := 0, 0, NUL;
      new;
      ReadChar();
    }

    /** Moves to the next byte; at the end of the input it stays there with ch == NUL. */
    method ReadChar()
      requires position <= readPosition <= |input|
      modifies this
      ensures position <= readPosition <= |input|
      ensures old(readPosition) < |input| ==>
        ch == input[old(readPosition)] && position == old(readPosition) && readPosition == old(readPosition) + 1
      ensures |input| <= old(readPosition) ==>
        ch == NUL && position == old(readPosition) && readPosition == old(readPosition)
    {
      if readPosition >= |input| {
        ch := NUL;
        position := readPosition;
        return;
      } else {
        ch := input[readPosition];
      }
      position := readPosition;
      readPosition := readPosition + 1;
    }

    /** The byte after the current one, NUL past the end; nothing changes. */
    method PeekChar() returns (c: char)
      requires Valid()
      ensures c == CharAt(input, position + 1)
    {
      if readPosition >= |input| {
        return NUL;
      } else {
        return input[readPosition];
      }
    }

    /** One byte on, as `Step` says; the object stays valid. */
    method Advance()
      requires Valid()
      modifies this
      ensures Valid() && position == Step(input, old(position))
    {
      ReadChar();
    }

    method EatWhitespace()
      requires Valid()
      modifies this
      ensures Valid() && position == SkipWhitespace(input, old(position))
    {
      while ch == ' ' || ch == '\t' || ch == '\n' || ch == '\r'
        invariant Valid() && old(position) <= position
        invariant SkipWhitespace(input, position) == SkipWhitespace(input, old(position))
        decreases |input| - position
      {
        Advance();
      }
    }

    method ReadId() returns (id: string)
      requires Valid()
      modifies this
      ensures Valid() && position == LetterRunEnd(input, old(position))
      ensures id == input[old(position)..position]
    {
      var pos := position;
      while IsLetter(ch)
        invariant Valid() && pos <= position
        invariant LetterRunEnd(input, position) == LetterRunEnd(input, pos)
        decreases |input| - position
      {
        Advance();
      }
      id := input[pos..position];
    }

    method ReadNumber() returns (digits: string)
      requires Valid()
      modifies this
      ensures Valid() && position == DigitRunEnd(input, old(position))
      ensures digits == input[old(position)..position]
    {
      var pos := position;
      while IsDigit(ch)
        invariant Valid() && pos <= position
        invariant DigitRunEnd(input, position) == DigitRunEnd(input, pos)
        decreases |input| - position
      {
        Advance();
      }
      digits := input[pos..position];
    }

    /** As written: the source's exit test (the byte is not a quote, or it is
        not NUL) holds of every byte, so the loop stops after one byte. */
    method ReadString() returns (s: string)
      requires Valid()
      modifies this
      ensures Valid() && position == Step(input, old(position))
      ensures s == input[old(position)..position]
    {
      var pos := position;
      // exactly one readChar happens before the loop exits
      Advance();
      s := input[pos..position];
    }

    method GetToken() returns (tok: Token)
      requires Valid()
      modifies this
      ensures Valid()
      ensures (tok, position) == Scan(input, old(position))
    {
      EatWhitespace();
      var q := position;
      var c := ch;
      if c == '=' {
        var n := PeekChar();
        if n == '=' {
          Advance();
          assert [c] + [ch] == "==";
          tok := Token(EQ, [c] + [ch]);
        } else {
          tok := Token(ASSIGN, [c]);
        }
      } else if c == '!' {
        var n := PeekChar();
        if n == '=' {
          Advance();
          assert [c] + [ch] == "!=";
          tok := Token(NEQ, [c] + [ch]);
        } else {
          tok := Token(EXCLAM, [c]);
        }
      } else if c == '"' {
        var s := ReadString();
        tok := Token(STRING, s);
      } else if c == NUL {
        tok := Token(EOF, "");
      } else if IsLetter(c) {
        var id := ReadId();
        tok := Token(DetermineTokenType(id), id);
        return;
      } else if IsDigit(c) {
        var digits := ReadNumber();
        tok := Token(DIGIT, digits);
        return;
      } else {
        tok := Token(SingleCharKind(c), ByteString(c));
      }
      Advance();
    }

    /** Calls `GetToken` until the input is used up: the tokens returned are
        the stream `Tokenize` describes. */
    method ReadTokens() returns (tokens: seq<Token>)
      requires Valid()
      modifies this
      ensures Valid() && position == |input|
      ensures tokens == Tokenize(input, old(position))
    {
      ghost var p0 := position;
      tokens := [];
      while position < |input|
        invariant Valid()
        invariant tokens + Tokenize(input, position) == Tokenize(input, p0)
        decreases |input| - position
      {
        ghost var rest := Tokenize(input, position);
        var tok := GetToken();
        assert rest == [tok] + Tokenize(input, position);
        tokens := tokens + [tok];
      }
    }
  }
}
