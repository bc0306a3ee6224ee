/** The syntax tree and its canonical text. A field the parser may leave nil
    is an `Option`; a nil slice and an empty one are the same to every reader
    of the tree, so lists are plain sequences. `FailedStatement` is the typed
    nil `*LetStatement` a failed `let` leaves in a statement list. */
module Ast {
  import opened Wrappers
  import opened Tokens
  import opened GoInts

  datatype Identifier = Identifier(token: Token, value: string)

  datatype Expression =
    | Ident(id: Identifier)
    | IntegerLiteral(token: Token, number: int64)
    | BooleanExpression(token: Token, truth: bool)
    | PrefixExpression(token: Token, op: string, operand: Option<Expression>)
    | InfixExpression(token: Token, op: string, left: Option<Expression>, right: Option<Expression>)
    | IfExpression(token: Token, condition: Option<Expression>, consequence: StatementBlock,
                   alternative: Option<StatementBlock>)
    | FunctionLiteral(token: Token, parameters: seq<Identifier>, body: StatementBlock)
    | CallExpression(token: Token, callee: Option<Expression>, arguments: seq<Option<Expression>>)
    | ArrayLiteral(token: Token, items: seq<Option<Expression>>)
    | IndexExpression(token: Token, left: Option<Expression>, index: Option<Expression>)

  datatype Statement =
    | LetStatement(token: Token, name: Identifier, value: Option<Expression>)
    | ReturnStatement(token: Token, value: Option<Expression>)
    | ExpressionStatement(token: Token, expression: Option<Expression>)
    | FailedStatement

  datatype StatementBlock = StatementBlock(token: Token, statements: seq<Statement>)

  datatype Program = Program(statements: seq<Statement>)

  // ---------------------------------------------------------------------
  // Sizes, the termination measure of every walk over the tree.

  function ExprSize(e: Expression): (r: nat)
    ensures r >= 1
  {
    match e
    case Ident(_) => 1
    case IntegerLiteral(_, _) => 1
    case BooleanExpression(_, _) => 1
    case PrefixExpression(_, _, x) => 1 + OptSize(x)
    case InfixExpression(_, _, l, r) => 1 + OptSize(l) + OptSize(r)
    case IfExpression(_, c, b, a) => 1 + OptSize(c) + BlockSize(b) + OptBlockSize(a)
    case FunctionLiteral(_, _, b) => 1 + BlockSize(b)
    case CallExpression(_, f, args) => 1 + OptSize(f) + ListSize(args)
    case ArrayLiteral(_, items) => 1 + ListSize(items)
    case IndexExpression(_, l, i) => 1 + OptSize(l) + OptSize(i)
  }

  function OptSize(e: Option<Expression>): (r: nat)
    ensures r >= 1
  {
    match e
    case None => 1
    case Some(x) => 1 + ExprSize(x)
  }

  function ListSize(es: seq<Option<Expression>>): (r: nat)
    ensures r >= 1
  {
    if es == [] then 1 else OptSize(es[0]) + ListSize(es[1..])
  }

  function StmtSize(s: Statement): (r: nat)
    ensures r >= 1
  {
    match s
    case LetStatement(_, _, v) => 1 + OptSize(v)
    case ReturnStatement(_, v) => 1 + OptSize(v)
    case ExpressionStatement(_, e) => 1 + OptSize(e)
    case FailedStatement => 1
  }

  function StmtsSize(ss: seq<Statement>): (r: nat)
    ensures r >= 1
  {
    if ss == [] then 1 else StmtSize(ss[0]) + StmtsSize(ss[1..])
  }

  function BlockSize(b: StatementBlock): nat {
    1 + StmtsSize(b.statements)
  }

  function OptBlockSize(b: Option<StatementBlock>): nat {
    match b
    case None => 1
    case Some(x) => 1 + BlockSize(x)
  }

  // ---------------------------------------------------------------------
  // Which trees can be rendered. `String()` dereferences every sub-node
  // except the value of a let, return or expression statement and the
  // alternative of an if, so a nil anywhere else (or a failed statement)
  // would be a nil-pointer panic.

  predicate Renderable(e: Expression)
    decreases ExprSize(e)
  {
    match e
    case Ident(_) => true
    case IntegerLiteral(_, _) => true
    case BooleanExpression(_, _) => true
    case PrefixExpression(_, _, x) => x.Some? && OptRenderable(x)
    case InfixExpression(_, _, l, r) => l.Some? && r.Some? && OptRenderable(l) && OptRenderable(r)
    case IfExpression(_, c, b, a) =>
      c.Some? && OptRenderable(c) && BlockRenderable(b) && OptBlockRenderable(a)
    case FunctionLiteral(_, _, b) => BlockRenderable(b)
    case CallExpression(_, f, args) => f.Some? && OptRenderable(f) && ListRenderable(args)
    case ArrayLiteral(_, items) => ListRenderable(items)
    case IndexExpression(_, l, i) => l.Some? && i.Some? && OptRenderable(l) && OptRenderable(i)
  }

  predicate ListRenderable(es: seq<Option<Expression>>)
    decreases ListSize(es)
  {
    es != [] ==> es[0].Some? && OptRenderable(es[0]) && ListRenderable(es[1..])
  }

  predicate OptRenderable(e: Option<Expression>)
    decreases OptSize(e)
  {
    e.Some? ==> Renderable(e.value)
  }

  predicate OptBlockRenderable(b: Option<StatementBlock>)
    decreases OptBlockSize(b)
  {
    b.Some? ==> BlockRenderable(b.value)
  }

  predicate StmtRenderable(s: Statement)
    decreases StmtSize(s)
  {
    match s
    case LetStatement(_, _, v) => OptRenderable(v)
    case ReturnStatement(_, v) => OptRenderable(v)
    case ExpressionStatement(_, e) => OptRenderable(e)
    case FailedStatement => false
  }

  predicate StmtsRenderable(ss: seq<Statement>)
    decreases StmtsSize(ss)
  {
    ss != [] ==> StmtRenderable(ss[0]) && StmtsRenderable(ss[1..])
  }

  predicate BlockRenderable(b: StatementBlock)
    decreases BlockSize(b)
  {
    StmtsRenderable(b.statements)
  }

  // ---------------------------------------------------------------------
  // Complete trees: no sub-node missing at all (only an if's alternative is
  // optional) and no failed statement. A parse that records no error yields one.

  predicate Whole(e: Expression)
    decreases ExprSize(e)
  {
    match e
    case Ident(_) => true
    case IntegerLiteral(_, _) => true
    case BooleanExpression(_, _) => true
    case PrefixExpression(_, _, x) => OptWhole(x)
    case InfixExpression(_, _, l, r) => OptWhole(l) && OptWhole(r)
    case IfExpression(_, c, b, a) => OptWhole(c) && BlockWhole(b) && OptBlockWhole(a)
    case FunctionLiteral(_, _, b) => BlockWhole(b)
    case CallExpression(_, f, args) => OptWhole(f) && ListWhole(args)
    case ArrayLiteral(_, items) => ListWhole(items)
    case IndexExpression(_, l, i) => OptWhole(l) && OptWhole(i)
  }

  predicate OptWhole(e: Option<Expression>)
    decreases OptSize(e)
  {
    e.Some? && Whole(e.value)
  }

  predicate ListWhole(es: seq<Option<Expression>>)
    decreases ListSize(es)
  {
    es != [] ==> OptWhole(es[0]) && ListWhole(es[1..])
  }

  predicate OptBlockWhole(b: Option<StatementBlock>)
    decreases OptBlockSize(b)
  {
    b.Some? ==> BlockWhole(b.value)
  }

  predicate StmtWhole(s: Statement)
    decreases StmtSize(s)
  {
    match s
    case LetStatement(_, _, v) => OptWhole(v)
    case ReturnStatement(_, v) => OptWhole(v)
    case ExpressionStatement(_, e) => OptWhole(e)
    case FailedStatement => false
  }

  predicate StmtsWhole(ss: seq<Statement>)
    decreases StmtsSize(ss)
  {
    ss != [] ==> StmtWhole(ss[0]) && StmtsWhole(ss[1..])
  }

  predicate BlockWhole(b: StatementBlock)
    decreases BlockSize(b)
  {
    StmtsWhole(b.statements)
  }

  // ---------------------------------------------------------------------
  // String() and TokenLexeme().

  /** `strings.Join`. */
  function Join(parts: seq<string>, sep: string): (r: string)
    ensures parts == [] ==> r == ""
    ensures |parts| == 1 ==> r == parts[0]
    ensures parts != [] ==> parts[0] <= r
  {
    if parts == [] then ""
    else if |parts| == 1 then parts[0]
    else parts[0] + sep + Join(parts[1..], sep)
  }

  function ParameterStrings(ps: seq<Identifier>): (r: seq<string>)
    ensures |r| == |ps| && forall i :: 0 <= i < |ps| ==> r[i] == ps[i].value
  {
    if ps == [] then [] else [ps[0].value] + ParameterStrings(ps[1..])
  }

  function ExpressionString(e: Expression): (r: string)
    requires Renderable(e)
    ensures e.PrefixExpression? || e.InfixExpression? || e.IndexExpression? ==>
      |r| >= 2 && r[0] == '(' && r[|r| - 1] == ')'
    decreases ExprSize(e)
  {
    match e
    case Ident(id) => id.value
    case IntegerLiteral(t, _) => t.lexeme
    case BooleanExpression(t, _) => t.lexeme
    case PrefixExpression(_, op, x) => "(" + op + OptString(x) + ")"
    case InfixExpression(_, op, l, r) => "(" + OptString(l) + " " + op + " " + OptString(r) + ")"
    case IfExpression(_, c, b, a) => "if" + OptString(c) + " " + BlockString(b) + AlternativeString(a)
    case FunctionLiteral(t, ps, b) =>
      t.lexeme + "(" + Join(ParameterStrings(ps), ", ") + ") " + BlockString(b)
    case CallExpression(_, f, args) =>
      OptString(f) + "(" + Join(ListStrings(args), ", ") + ")"
    case ArrayLiteral(_, items) => "[" + Join(ListStrings(items), ", ") + "]"
    case IndexExpression(_, l, i) =>
      "(" + OptString(l) + "[" + OptString(i) + "])"
  }

  function ListStrings(es: seq<Option<Expression>>): (r: seq<string>)
    requires ListRenderable(es)
    ensures |r| == |es|
    decreases ListSize(es)
  {
    if es == [] then [] else [OptString(es[0])] + ListStrings(es[1..])
  }

  /** The text of an if's alternative, "else " and the block, when present. */
  function AlternativeString(a: Option<StatementBlock>): string
    requires OptBlockRenderable(a)
    decreases OptBlockSize(a)
  {
    if a.Some? then "else " + BlockString(a.value) else ""
  }

  /** The text of a sub-expression; "" for an absent one (written only where
      `String()` checks for nil first, or where the node is known present). */
  function OptString(e: Option<Expression>): string
    requires OptRenderable(e)
    decreases OptSize(e)
  {
    if e.Some? then ExpressionString(e.value) else ""
  }

  function StatementString(s: Statement): string
    requires StmtRenderable(s)
    decreases StmtSize(s)
  {
    match s
    case LetStatement(t, name, v) => t.lexeme + " " + name.value + " = " + OptString(v) + ";"
    case ReturnStatement(t, v) => t.lexeme + " " + OptString(v) + ";"
    case ExpressionStatement(_, e) => OptString(e)
  }

  function StatementsString(ss: seq<Statement>): string
    requires StmtsRenderable(ss)
    decreases StmtsSize(ss)
  {
    if ss == [] then "" else StatementString(ss[0]) + StatementsString(ss[1..])
  }

  function BlockString(b: StatementBlock): string
    requires BlockRenderable(b)
    decreases BlockSize(b)
  {
    StatementsString(b.statements)
  }

  function ProgramString(p: Program): string
    requires StmtsRenderable(p.statements)
  {
    StatementsString(p.statements)
  }

  function ExpressionLexeme(e: Expression): string {
    if e.Ident? then e.id.token.lexeme else e.token.lexeme
  }

  function StatementLexeme(s: Statement): string
    requires !s.FailedStatement?
  {
    s.token.lexeme
  }

  /** The lexeme of the first statement, or "" for an empty program. */
  function ProgramLexeme(p: Program): (r: string)
    requires p.statements != [] ==> !p.statements[0].FailedStatement?
    ensures p.statements == [] ==> r == ""
    ensures p.statements != [] ==> r == p.statements[0].token.lexeme
  {
    if |p.statements| > 0 then StatementLexeme(p.statements[0]) else ""
  }

  // ---------------------------------------------------------------------
  // Properties of the tree and its text.

  /** A complete tree can be rendered. */
  lemma {:induction false} WholeIsRenderable(e: Expression)
    requires Whole(e)
    ensures Renderable(e)
    decreases ExprSize(e)
  {
    match e
    case Ident(_) =>
    case IntegerLiteral(_, _) =>
    case BooleanExpression(_, _) =>
    case PrefixExpression(_, _, x) => OptWholeIsRenderable(x);
    case InfixExpression(_, _, l, r) => OptWholeIsRenderable(l); OptWholeIsRenderable(r);
    case IfExpression(_, c, b, a) =>
      OptWholeIsRenderable(c); BlockWholeIsRenderable(b); OptBlockWholeIsRenderable(a);
    case FunctionLiteral(_, _, b) => BlockWholeIsRenderable(b);
    case CallExpression(_, f, args) => OptWholeIsRenderable(f); ListWholeIsRenderable(args);
    case ArrayLiteral(_, items) => ListWholeIsRenderable(items);
    case IndexExpression(_, l, i) => OptWholeIsRenderable(l); OptWholeIsRenderable(i);
  }

  lemma {:induction false} OptWholeIsRenderable(e: Option<Expression>)
    requires OptWhole(e)
    ensures e.Some? && OptRenderable(e)
    decreases OptSize(e)
  {
    WholeIsRenderable(e.value);
  }

  lemma {:induction false} ListWholeIsRenderable(es: seq<Option<Expression>>)
    requires ListWhole(es)
    ensures ListRenderable(es)
    decreases ListSize(es)
  {
    if es != [] {
      OptWholeIsRenderable(es[0]);
      ListWholeIsRenderable(es[1..]);
    }
  }

  lemma {:induction false} StmtsWholeIsRenderable(ss: seq<Statement>)
    requires StmtsWhole(ss)
    ensures StmtsRenderable(ss)
    decreases StmtsSize(ss)
  {
    if ss != [] {
      StmtWholeIsRenderable(ss[0]);
      StmtsWholeIsRenderable(ss[1..]);
    }
  }

  lemma {:induction false} StmtWholeIsRenderable(s: Statement)
    requires StmtWhole(s)
    ensures StmtRenderable(s)
    decreases StmtSize(s)
  {
    match s
    case LetStatement(_, _, v) => OptWholeIsRenderable(v);
    case ReturnStatement(_, v) => OptWholeIsRenderable(v);
    case ExpressionStatement(_, x) => OptWholeIsRenderable(x);
  }

  lemma {:induction false} OptBlockWholeIsRenderable(b: Option<StatementBlock>)
    requires OptBlockWhole(b)
    ensures OptBlockRenderable(b)
    decreases OptBlockSize(b)
  {
    if b.Some? {
      BlockWholeIsRenderable(b.value);
    }
  }

  lemma {:induction false} BlockWholeIsRenderable(b: StatementBlock)
    requires BlockWhole(b)
    ensures BlockRenderable(b)
    decreases BlockSize(b)
  {
    StmtsWholeIsRenderable(b.statements);
  }

  /** Statement lists render as the concatenation of their statements, with
      no separator, so the text of a joined list is the joined texts. */
  lemma {:induction false} StatementsStringAppend(a: seq<Statement>, b: seq<Statement>)
    requires StmtsRenderable(a) && StmtsRenderable(b)
    ensures StmtsRenderable(a + b)
    ensures StatementsString(a + b) == StatementsString(a) + StatementsString(b)
    decreases |a|
  {
    if a == [] {
      assert a + b == b;
    } else {
      assert (a + b)[1..] == a[1..] + b;
      StatementsStringAppend(a[1..], b);
    }
  }

  /** A program's text is its statements' texts in order. */
  lemma {:induction false} ProgramStringIsConcatenation(ss: seq<Statement>, i: nat)
    requires StmtsRenderable(ss) && i <= |ss|
    ensures StmtsRenderable(ss[..i]) && StmtsRenderable(ss[i..])
    ensures ProgramString(Program(ss)) == StatementsString(ss[..i]) + StatementsString(ss[i..])
  {
    SplitRenderable(ss, i);
    assert ss == ss[..i] + ss[i..];
    StatementsStringAppend(ss[..i], ss[i..]);
  }

  lemma {:induction false} SplitRenderable(ss: seq<Statement>, i: nat)
    requires StmtsRenderable(ss) && i <= |ss|
    ensures StmtsRenderable(ss[..i]) && StmtsRenderable(ss[i..])
    decreases i
  {
    if i > 0 {
      SplitRenderable(ss[1..], i - 1);
      assert ss[..i][1..] == ss[1..][..i - 1];
      assert ss[i..] == ss[1..][i - 1..];
    }
  }

  /** `let`, `return` and expression statements render with the value left
      out when it is absent. */
  lemma StatementRenderings(t: Token, name: Identifier, v: Option<Expression>)
    requires OptRenderable(v)
    ensures StatementString(LetStatement(t, name, v)) ==
      t.lexeme + " " + name.value + " = " + (if v.Some? then ExpressionString(v.value) else "") + ";"
    ensures StatementString(ReturnStatement(t, v)) ==
      t.lexeme + " " + (if v.Some? then ExpressionString(v.value) else "") + ";"
    ensures StatementString(ExpressionStatement(t, v)) ==
      if v.Some? then ExpressionString(v.value) else ""
  {
  }

  /** The i-th string of an argument list is the text of the i-th argument. */
  lemma {:induction false} ListStringsItems(es: seq<Option<Expression>>)
    requires ListRenderable(es)
    ensures forall i :: 0 <= i < |es| ==>
      es[i].Some? && OptRenderable(es[i]) && ListStrings(es)[i] == ExpressionString(es[i].value)
    decreases |es|
  {
    if es != [] {
      ListStringsItems(es[1..]);
      assert forall i :: 1 <= i < |es| ==> es[i] == es[1..][i - 1];
    }
  }

  /** One more part adds the separator and that part at the end. */
  lemma {:induction false} JoinAppend(parts: seq<string>, p: string, sep: string)
    requires parts != []
    ensures Join(parts + [p], sep) == Join(parts, sep) + sep + p
    decreases |parts|
  {
    if |parts| > 1 {
      assert (parts + [p])[1..] == parts[1..] + [p];
      JoinAppend(parts[1..], p, sep);
    }
  }

  /** The parameters of a function literal are written in order between
      `(` and `) `, each one after the first preceded by ", ". */
  lemma FunctionLiteralRendering(t: Token, ps: seq<Identifier>, body: StatementBlock)
    requires BlockRenderable(body)
    ensures ps == [] ==>
      ExpressionString(FunctionLiteral(t, ps, body)) == t.lexeme + "() " + BlockString(body)
    ensures |ps| == 1 ==>
      ExpressionString(FunctionLiteral(t, ps, body)) ==
        t.lexeme + "(" + ps[0].value + ") " + BlockString(body)
    ensures |ps| >= 2 ==>
      var init := ps[..|ps| - 1];
      ExpressionString(FunctionLiteral(t, ps, body)) ==
        t.lexeme + "(" + Join(ParameterStrings(init), ", ") + ", " + ps[|ps| - 1].value + ") " +
        BlockString(body)
  {
    if |ps| >= 2 {
      var init := ps[..|ps| - 1];
      assert ParameterStrings(ps) == ParameterStrings(init) + [ps[|ps| - 1].value];
      JoinAppend(ParameterStrings(init), ps[|ps| - 1].value, ", ");
    }
  }

  /** The arguments of a call are written in order between `(` and `)`
      after the callee, each one after the first preceded by ", ". */
  lemma CallRendering(t: Token, f: Expression, args: seq<Option<Expression>>)
    requires Renderable(f) && ListRenderable(args)
    ensures Renderable(CallExpression(t, Some(f), args))
    ensures args == [] ==>
      ExpressionString(CallExpression(t, Some(f), args)) == ExpressionString(f) + "()"
    ensures |args| == 1 ==>
      args[0].Some? && OptRenderable(args[0]) &&
      ExpressionString(CallExpression(t, Some(f), args)) ==
        ExpressionString(f) + "(" + ExpressionString(args[0].value) + ")"
    ensures |args| >= 2 ==>
      var init, last := args[..|args| - 1], args[|args| - 1];
      ListRenderable(init) && last.Some? && OptRenderable(last) &&
      ExpressionString(CallExpression(t, Some(f), args)) ==
        ExpressionString(f) + "(" + Join(ListStrings(init), ", ") + ", " +
        ExpressionString(last.value) + ")"
  {
    ListStringsItems(args);
    if |args| == 1 {
      assert ListStrings(args) == [ExpressionString(args[0].value)];
    } else if |args| >= 2 {
      var init, last := args[..|args| - 1], args[|args| - 1];
      ListRenderableFront(args);
      ListStringsItems(init);
      assert ListStrings(args) == ListStrings(init) + [ExpressionString(last.value)];
      JoinAppend(ListStrings(init), ExpressionString(last.value), ", ");
    }
  }

  /** Dropping the last item keeps a list renderable. */
  lemma {:induction false} ListRenderableFront(es: seq<Option<Expression>>)
    requires ListRenderable(es) && es != []
    ensures ListRenderable(es[..|es| - 1])
    decreases |es|
  {
    if |es| > 1 {
      assert es[..|es| - 1][1..] == es[1..][..|es[1..]| - 1];
      ListRenderableFront(es[1..]);
    }
  }

  /** An infix expression is parenthesised with a space on each side of the
      operator; a prefix expression is parenthesised with no space. */
  lemma OperatorRenderings(t: Token, op: string, l: Expression, r: Expression)
    requires Renderable(l) && Renderable(r)
    ensures Renderable(InfixExpression(t, op, Some(l), Some(r)))
    ensures ExpressionString(InfixExpression(t, op, Some(l), Some(r))) ==
      "(" + ExpressionString(l) + " " + op + " " + ExpressionString(r) + ")"
    ensures Renderable(PrefixExpression(t, op, Some(r)))
    ensures ExpressionString(PrefixExpression(t, op, Some(r))) == "(" + op + ExpressionString(r) + ")"
  {
  }

  /** Each statement of a list is smaller than the list. */
  lemma {:induction false} StatementSmaller(ss: seq<Statement>, i: nat)
    requires i < |ss|
    ensures StmtSize(ss[i]) < StmtsSize(ss)
    decreases i
  {
    if i > 0 {
      StatementSmaller(ss[1..], i - 1);
    }
  }

  /** Each expression of a list is smaller than the list. */
  lemma {:induction false} ExpressionSmaller(es: seq<Option<Expression>>, i: nat)
    requires i < |es|
    ensures OptSize(es[i]) < ListSize(es)
    decreases i
  {
    if i > 0 {
      ExpressionSmaller(es[1..], i - 1);
    }
  }
}
