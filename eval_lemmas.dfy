/** Properties of the evaluator, stated over `EvaluatorSpec` (and so, by
    the contracts of `Evaluating`, over the imperative evaluator too). */
module EvaluatorProperties {
  import opened Wrappers
  import opened GoInts
  import Tokens
  import opened Ast
  import opened EvaluatorSpec

  // ---------------------------------------------------------------------
  // Integer operators.

  /** `+`, `-` and `*` on two Integers give a new Integer holding the
      mathematical result wrapped to 64 bits (equal to it when it fits). */
  lemma IntegerArithmetic(l: int64, r: int64)
    ensures var sum := EvaluateInfixExpression(Some(Integer(l)), Some(Integer(r)), "+");
      sum.Done? && sum.value.Some? && sum.value.value.Integer?
      && (sum.value.value.value - (l + r)) % TWO_64 == 0
      && (MIN_INT64 <= l + r <= MAX_INT64 ==> sum.value.value.value == l + r)
    ensures var diff := EvaluateInfixExpression(Some(Integer(l)), Some(Integer(r)), "-");
      diff.Done? && diff.value.Some? && diff.value.value.Integer?
      && (diff.value.value.value - (l - r)) % TWO_64 == 0
      && (MIN_INT64 <= l - r <= MAX_INT64 ==> diff.value.value.value == l - r)
    ensures var prod := EvaluateInfixExpression(Some(Integer(l)), Some(Integer(r)), "*");
      prod.Done? && prod.value.Some? && prod.value.value.Integer?
      && (prod.value.value.value - l * r) % TWO_64 == 0
      && (MIN_INT64 <= l * r <= MAX_INT64 ==> prod.value.value.value == l * r)
  {
  }

  /** `/` is Go's quotient (truncated toward zero, see `GoInts.Quo`), and a
      zero divisor is Go's run-time panic. */
  lemma IntegerDivision(l: int64, r: int64)
    ensures var q := EvaluateInfixExpression(Some(Integer(l)), Some(Integer(r)), "/");
      (r == 0 <==> q == Panic(DivideByZero))
      && (r != 0 ==> q == Done(Some(Integer(Quo(l, r)))))
  {
  }

  /** The comparisons give the `TRUE` / `FALSE` singletons, and `TRUE`
      exactly when the comparison holds of the two numbers. */
  lemma IntegerComparisons(l: int64, r: int64)
    ensures EvaluateInfixExpression(Some(Integer(l)), Some(Integer(r)), "<") == Done(if l < r then TRUE else FALSE)
    ensures EvaluateInfixExpression(Some(Integer(l)), Some(Integer(r)), ">") == Done(if l > r then TRUE else FALSE)
    ensures EvaluateInfixExpression(Some(Integer(l)), Some(Integer(r)), "<=") == Done(if l <= r then TRUE else FALSE)
    ensures EvaluateInfixExpression(Some(Integer(l)), Some(Integer(r)), ">=") == Done(if l >= r then TRUE else FALSE)
    ensures EvaluateInfixExpression(Some(Integer(l)), Some(Integer(r)), "==") == Done(if l == r then TRUE else FALSE)
    ensures EvaluateInfixExpression(Some(Integer(l)), Some(Integer(r)), "!=") == Done(if l != r then TRUE else FALSE)
  {
  }

  predicate IntegerOperator(op: string) {
    op == "+" || op == "-" || op == "*" || op == "/"
    || op == "<" || op == ">" || op == "<=" || op == ">=" || op == "==" || op == "!="
  }

  /** Any other operator on two Integers is an Error naming it. */
  lemma IntegerUnknownOperator(l: int64, r: int64, op: string)
    ensures !IntegerOperator(op) <==>
      EvaluateInfixExpression(Some(Integer(l)), Some(Integer(r)), op)
        == Done(Some(Error("unknown operator: INTEGER " + op + " INTEGER")))
  {
    if IntegerOperator(op) {
      var res := EvaluateInfixExpression(Some(Integer(l)), Some(Integer(r)), op);
      assert res.Panic? || !IsError(res.value);
    }
  }

  // ---------------------------------------------------------------------
  // Operators on other objects.

  /** `Type()` is called on both operands, so Go's nil panics. */
  lemma NilOperandPanics(left: Value, right: Value, op: string)
    ensures (left.None? || right.None?) <==> EvaluateInfixExpression(left, right, op) == Panic(NilDereference)
  {
  }

  /** Operands of two different types are a type mismatch, whatever the
      operator. */
  lemma TypeMismatch(l: Object, r: Object, op: string)
    requires TypeOf(l) != TypeOf(r)
    ensures EvaluateInfixExpression(Some(l), Some(r), op)
      == Done(Some(Error("type mismatch: " + TypeOf(l) + " " + op + " " + TypeOf(r))))
  {
  }

  /** Two objects of the same non-integer type are compared by identity
      (booleans and `NULL` are singletons, and every function and Return
      value carries the number of its allocation; an Error operand never
      gets here, since it is returned first); any other operator on them is
      unknown. */
  lemma SameTypeOperators(l: Object, r: Object, op: string)
    requires TypeOf(l) == TypeOf(r) && !l.Integer?
    ensures op == "==" ==> EvaluateInfixExpression(Some(l), Some(r), op) == Done(if l == r then TRUE else FALSE)
    ensures op == "!=" ==> EvaluateInfixExpression(Some(l), Some(r), op) == Done(if l != r then TRUE else FALSE)
    ensures op != "==" && op != "!=" ==>
      (EvaluateInfixExpression(Some(l), Some(r), op)
        == Done(Some(Error("unknown operator: " + TypeOf(l) + " " + op + " " + TypeOf(r)))))
  {
  }

  /** Two function values made by different evaluations of a literal are
      never `==`, even with the same parameters, body and environment. */
  lemma FunctionsCompareByIdentity(i: nat, j: nat, ps: seq<Identifier>, body: StatementBlock, env: nat)
    requires i != j
    ensures EvaluateInfixExpression(Some(Function(i, ps, body, env)), Some(Function(j, ps, body, env)), "==") == Done(FALSE)
  {
  }

  /** On operands of one type, `!=` is the negation of `==`. */
  lemma NotEqualIsNegatedEqual(l: Object, r: Object)
    requires TypeOf(l) == TypeOf(r)
    ensures var eq := EvaluateInfixExpression(Some(l), Some(r), "==");
      eq.Done? && EvaluateInfixExpression(Some(l), Some(r), "!=") == Done(EvaluateNotExpression(eq.value))
  {
  }

  /** On operands of one type, `==` and `!=` are symmetric. */
  lemma EqualityIsSymmetric(l: Object, r: Object)
    requires TypeOf(l) == TypeOf(r)
    ensures EvaluateInfixExpression(Some(l), Some(r), "==") == EvaluateInfixExpression(Some(r), Some(l), "==")
    ensures EvaluateInfixExpression(Some(l), Some(r), "!=") == EvaluateInfixExpression(Some(r), Some(l), "!=")
  {
  }

  // ---------------------------------------------------------------------
  // Prefix operators and truthiness.

  /** Only `NULL` and `FALSE` are falsy: Integer 0 and Go's nil are truthy. */
  lemma Truthiness(v: Value)
    ensures IsTruthy(v) <==> v != NULL && v != FALSE
    ensures IsTruthy(Some(Integer(0))) && IsTruthy(None)
  {
  }

  /** The table of `!`. */
  lemma NotTable(v: Value)
    ensures EvaluateNotExpression(TRUE) == FALSE
    ensures EvaluateNotExpression(FALSE) == TRUE
    ensures EvaluateNotExpression(NULL) == TRUE
    ensures v != TRUE && v != FALSE && v != NULL ==> EvaluateNotExpression(v) == FALSE
  {
  }

  /** `!` is the negation of truthiness, so `!!x` is the truthiness of `x`. */
  lemma NotNegatesTruthiness(v: Value)
    ensures EvaluateNotExpression(v) == NativeBoolToBooleanObject(!IsTruthy(v))
    ensures EvaluateNotExpression(EvaluateNotExpression(v)) == NativeBoolToBooleanObject(IsTruthy(v))
  {
  }

  /** Unary `-` on anything but an Integer is an unknown operator. */
  lemma MinusOnNonInteger(o: Object)
    ensures !o.Integer? <==>
      EvaluatePrefixExpression("-", Some(o)) == Done(Some(Error("unknown operator: -" + TypeOf(o))))
  {
  }

  /** Unary `-` negates with 64-bit wrap-around, so that applying it twice
      gives back the number (the most negative number is its own negation). */
  lemma MinusTwice(n: int64)
    ensures var once := EvaluatePrefixExpression("-", Some(Integer(n)));
      once.Done? && once.value.Some? && once.value.value.Integer?
      && EvaluatePrefixExpression("-", once.value) == Done(Some(Integer(n)))
    ensures n != MIN_INT64 ==> EvaluatePrefixExpression("-", Some(Integer(n))) == Done(Some(Integer(-n)))
    ensures EvaluatePrefixExpression("-", Some(Integer(MIN_INT64))) == Done(Some(Integer(MIN_INT64)))
  {
    if n == MIN_INT64 {
      assert Neg(n) == MIN_INT64;
    } else {
      assert Neg(n) == -n;
      assert Neg(-n) == n;
    }
  }

  /** Any operator other than `!` and `-` is unknown. */
  lemma UnknownPrefixOperator(op: string, o: Object)
    requires op != "!" && op != "-"
    ensures EvaluatePrefixExpression(op, Some(o)) == Done(Some(Error("unknown operator: " + op + TypeOf(o))))
    ensures EvaluatePrefixExpression(op, None) == Panic(NilDereference)
  {
  }

  // ---------------------------------------------------------------------
  // Environments.

  /** A binding is found again from the environment it was written to. */
  lemma GetAfterSet(st: Store, env: nat, name: string, v: Value)
    requires env < |st.frames|
    ensures Get(Set(st, env, name, v), env, name) == Some(v)
  {
  }

  /** Writing one name changes the lookup of no other name, from any
      environment. */
  lemma {:induction false} SetLeavesOtherNames(st: Store, env: nat, name: string, v: Value, e: nat, other: string)
    requires other != name
    ensures Get(Set(st, env, name, v), e, other) == Get(st, e, other)
    decreases e
  {
    var st' := Set(st, env, name, v);
    if e < |st.frames| {
      assert st'.frames[e].outer == st.frames[e].outer;
      assert (other in st'.frames[e].vars) == (other in st.frames[e].vars);
      if other in st.frames[e].vars {
        assert st'.frames[e].vars[other] == st.frames[e].vars[other];
      } else if st.frames[e].outer.Some? && st.frames[e].outer.value < e {
        SetLeavesOtherNames(st, env, name, v, st.frames[e].outer.value, other);
      }
    }
  }

  /** Frames added later do not change a lookup from an older frame. */
  lemma {:induction false} GetIgnoresNewerFrames(st: Store, st': Store, e: nat, name: string)
    requires |st.frames| <= |st'.frames| && st'.frames[..|st.frames|] == st.frames
    requires e < |st.frames|
    ensures Get(st', e, name) == Get(st, e, name)
    decreases e
  {
    assert st'.frames[e] == st'.frames[..|st.frames|][e];
    var f := st.frames[e];
    if name !in f.vars && f.outer.Some? && f.outer.value < e {
      GetIgnoresNewerFrames(st, st', f.outer.value, name);
    }
  }

  /** Every enclosing link points to an older frame, so a chain of links
      always ends. This is the shape `NewEnclosedEnvironment` builds. */
  predicate LinksPointBack(st: Store) {
    forall k :: 0 <= k < |st.frames| && st.frames[k].outer.Some? ==> st.frames[k].outer.value < k
  }

  /** The global environment alone is well linked, and enclosing an
      existing environment, writing a name and allocating an object keep
      every link pointing back. */
  lemma StoreKeepsLinks(st: Store, outer: nat, env: nat, name: string, v: Value)
    requires LinksPointBack(st)
    ensures LinksPointBack(NewStore())
    ensures outer < |st.frames| ==> LinksPointBack(Enclose(st, outer))
    ensures LinksPointBack(Set(st, env, name, v))
    ensures LinksPointBack(Allocate(st))
  {
    if outer < |st.frames| {
      var st' := Enclose(st, outer);
      forall k | 0 <= k < |st'.frames| && st'.frames[k].outer.Some?
        ensures st'.frames[k].outer.value < k
      {
        if k < |st.frames| {
          assert st'.frames[k] == st.frames[k];
        }
      }
    }
  }

  /** In a well-linked store, a lookup walks the whole chain as
      `Environment.Get` does: a name not bound in the current frame is
      looked up in the enclosing one whenever there is one. */
  lemma GetWalksChain(st: Store, env: nat, name: string)
    requires LinksPointBack(st) && env < |st.frames|
    ensures var f := st.frames[env];
      Get(st, env, name) ==
        if name in f.vars then Some(f.vars[name])
        else if f.outer.Some? then Get(st, f.outer.value, name)
        else None
  {
  }

  // ---------------------------------------------------------------------
  // Errors stop evaluation.

  /** Once the left operand interrupts (an Error, or Go would have
      panicked), the right operand is never evaluated: the result does not
      depend on it and is the left operand's own. */
  lemma InfixLeftInterrupts(fuel: nat, tok: Tokens.Token, op: string, left: Option<Expression>,
                            right: Option<Expression>, env: nat, st: Store)
    requires Interrupts(Eval(fuel, left, env, st).outcome)
    ensures EvalInfix(fuel, InfixExpression(tok, op, left, right), env, st) == Eval(fuel, left, env, st)
  {
  }

  /** Otherwise the right operand is evaluated in the store the left one
      left behind; an Error there is the result, and two values go to the
      operator. */
  lemma InfixEvaluatesLeftThenRight(fuel: nat, tok: Tokens.Token, op: string, left: Option<Expression>,
                                    right: Option<Expression>, env: nat, st: Store)
    requires !Interrupts(Eval(fuel, left, env, st).outcome)
    ensures var l := Eval(fuel, left, env, st);
      var r := Eval(fuel, right, env, l.store);
      EvalInfix(fuel, InfixExpression(tok, op, left, right), env, st)
        == if Interrupts(r.outcome) then r
           else Run(EvaluateInfixExpression(l.outcome.value, r.outcome.value, op), r.store)
  {
  }

  /** An Error in the operand of a prefix operator is the result. */
  lemma PrefixOperandInterrupts(fuel: nat, tok: Tokens.Token, op: string, operand: Option<Expression>,
                                env: nat, st: Store)
    requires Interrupts(Eval(fuel, operand, env, st).outcome)
    ensures EvalPrefix(fuel, PrefixExpression(tok, op, operand), env, st) == Eval(fuel, operand, env, st)
  {
  }

  /** An Error in the value of a `return` is the result, not wrapped. */
  lemma ReturnOfError(fuel: nat, tok: Tokens.Token, v: Option<Expression>, env: nat, st: Store)
    requires Interrupts(Eval(fuel, v, env, st).outcome)
    ensures EvalStatement(fuel, ReturnStatement(tok, v), env, st) == Eval(fuel, v, env, st)
  {
  }

  /** Any other value of a `return` is wrapped in a new Return object. */
  lemma ReturnWraps(fuel: nat, tok: Tokens.Token, v: Option<Expression>, env: nat, st: Store)
    requires !Interrupts(Eval(fuel, v, env, st).outcome)
    ensures var r := Eval(fuel, v, env, st);
      var s := EvalStatement(fuel, ReturnStatement(tok, v), env, st);
      s.outcome.Done? && s.outcome.value.Some? && s.outcome.value.value.ReturnValue?
      && s.outcome.value.value.inner == r.outcome.value
      && UnwrapReturnValue(s.outcome.value) == r.outcome.value
      && s.store.frames == r.store.frames
  {
  }

  /** An Error in the value of a `let` is the result, and nothing is bound. */
  lemma LetOfError(fuel: nat, tok: Tokens.Token, name: Identifier, v: Option<Expression>, env: nat, st: Store)
    requires Interrupts(Eval(fuel, v, env, st).outcome)
    ensures EvalStatement(fuel, LetStatement(tok, name, v), env, st) == Eval(fuel, v, env, st)
  {
  }

  /** A `let` yields no value and binds the name in the current environment,
      where a later lookup finds it; no other name changes. */
  lemma LetBinds(fuel: nat, tok: Tokens.Token, name: Identifier, v: Option<Expression>, env: nat, st: Store,
                 other: string, e: nat)
    requires !Interrupts(Eval(fuel, v, env, st).outcome)
    requires env < |Eval(fuel, v, env, st).store.frames|
    requires other != name.value
    ensures var r := Eval(fuel, v, env, st);
      var s := EvalStatement(fuel, LetStatement(tok, name, v), env, st);
      s.outcome == Done(None)
      && Get(s.store, env, name.value) == Some(r.outcome.value)
      && Get(s.store, e, other) == Get(r.store, e, other)
  {
    var r := Eval(fuel, v, env, st);
    GetAfterSet(r.store, env, name.value, r.outcome.value);
    SetLeavesOtherNames(r.store, env, name.value, r.outcome.value, e, other);
  }

  /** An identifier is the innermost binding along the environment chain,
      or an Error naming it. */
  lemma IdentifierLookup(id: Identifier, env: nat, st: Store)
    ensures Get(st, env, id.value).Some? ==> EvalIdentifier(id, env, st) == Get(st, env, id.value).value
    ensures Get(st, env, id.value).None? ==>
      EvalIdentifier(id, env, st) == Some(Error("identifier not found: " + id.value))
  {
  }

  // ---------------------------------------------------------------------
  // Conditionals.

  /** An Error in the condition is the result of the `if`. */
  lemma IfConditionInterrupts(fuel: nat, x: Expression, env: nat, st: Store)
    requires x.IfExpression?
    requires Interrupts(Eval(fuel, x.condition, env, st).outcome)
    ensures EvaluateIfExpression(fuel, x, env, st) == Eval(fuel, x.condition, env, st)
  {
  }

  /** A truthy condition runs the consequence, a falsy one the alternative,
      and a falsy condition with no alternative gives `NULL`. */
  lemma IfBranches(fuel: nat, x: Expression, env: nat, st: Store)
    requires x.IfExpression?
    requires !Interrupts(Eval(fuel, x.condition, env, st).outcome)
    ensures var c := Eval(fuel, x.condition, env, st);
      EvaluateIfExpression(fuel, x, env, st)
        == if IsTruthy(c.outcome.value) then EvaluateStatementBlock(fuel, x.consequence, env, c.store)
           else if x.alternative.Some? then EvaluateStatementBlock(fuel, x.alternative.value, env, c.store)
           else Run(Done(NULL), c.store)
  {
  }

  /** `if (0) { ... }` runs its consequence: Integer 0 is truthy. */
  lemma IfZeroIsTaken(fuel: nat, tok: Tokens.Token, b: StatementBlock, alt: Option<StatementBlock>,
                      env: nat, st: Store)
    ensures EvaluateIfExpression(fuel, IfExpression(tok, Some(IntegerLiteral(tok, 0)), b, alt), env, st)
      == EvaluateStatementBlock(fuel, b, env, st)
  {
  }

  // ---------------------------------------------------------------------
  // Programs and blocks.

  /** A statement whose value is a Return ends the program with the
      unwrapped value: the statements after it are never evaluated. */
  lemma ProgramStopsAtReturn(fuel: nat, s: Statement, rest: seq<Statement>, env: nat, result: Value, st: Store)
    requires var r := EvalStatement(fuel, s, env, st);
      r.outcome.Done? && r.outcome.value.Some? && r.outcome.value.value.ReturnValue?
    ensures var r := EvalStatement(fuel, s, env, st);
      EvaluateStatements(fuel, [s] + rest, env, result, st) == Run(Done(r.outcome.value.value.inner), r.store)
  {
    assert ([s] + rest)[0] == s;
  }

  /** A statement whose value is an Error ends the program with it. */
  lemma ProgramStopsAtError(fuel: nat, s: Statement, rest: seq<Statement>, env: nat, result: Value, st: Store)
    requires var r := EvalStatement(fuel, s, env, st);
      r.outcome.Done? && IsError(r.outcome.value)
    ensures EvaluateStatements(fuel, [s] + rest, env, result, st) == EvalStatement(fuel, s, env, st)
  {
    assert ([s] + rest)[0] == s;
  }

  /** In a block, a Return or an Error ends the block and is handed back
      as it is, the Return still wrapped. */
  lemma BlockStopsAtReturnOrError(fuel: nat, s: Statement, rest: seq<Statement>, env: nat, result: Value,
                                  st: Store)
    requires var r := EvalStatement(fuel, s, env, st);
      r.outcome.Done? && r.outcome.value.Some? && (r.outcome.value.value.ReturnValue? || r.outcome.value.value.Error?)
    ensures BlockLoop(fuel, [s] + rest, env, result, st) == EvalStatement(fuel, s, env, st)
  {
    assert ([s] + rest)[0] == s;
  }

  /** A program and a block over the same statements stop at the same
      statement, in the same store; the program's value is the block's
      with its Return unwrapped. */
  lemma {:induction false} ProgramIsUnwrappedBlock(fuel: nat, ss: seq<Statement>, env: nat, result: Value,
                                                   st: Store)
    requires !(result.Some? && result.value.ReturnValue?)
    ensures var b := BlockLoop(fuel, ss, env, result, st);
      EvaluateStatements(fuel, ss, env, result, st)
        == if b.outcome.Done? then Run(Done(UnwrapReturnValue(b.outcome.value)), b.store) else b
    decreases |ss|
  {
    if ss != [] {
      var r := EvalStatement(fuel, ss[0], env, st);
      if r.outcome.Done? {
        var v := r.outcome.value;
        if !(v.Some? && (v.value.ReturnValue? || v.value.Error?)) {
          ProgramIsUnwrappedBlock(fuel, ss[1..], env, v, r.store);
        }
      }
    }
  }

  // ---------------------------------------------------------------------
  // Calls.

  /** An Error from the callee is the result; no argument is evaluated. */
  lemma CalleeInterrupts(fuel: nat, tok: Tokens.Token, callee: Option<Expression>,
                         args: seq<Option<Expression>>, env: nat, st: Store)
    requires Interrupts(Eval(fuel, callee, env, st).outcome)
    ensures EvalCall(fuel, CallExpression(tok, callee, args), env, st) == Eval(fuel, callee, env, st)
  {
  }

  /** The first argument that evaluates to an Error is the result of the
      argument list, alone; the arguments after it are never evaluated. */
  lemma FirstErrorArgument(fuel: nat, e: Option<Expression>, rest: seq<Option<Expression>>, env: nat,
                           acc: seq<Value>, st: Store)
    requires var r := Eval(fuel, e, env, st); r.outcome.Done? && IsError(r.outcome.value)
    ensures var r := Eval(fuel, e, env, st);
      EvaluateExpressions(fuel, [e] + rest, env, acc, st) == Run(Done([r.outcome.value]), r.store)
  {
    assert ([e] + rest)[0] == e && ([e] + rest)[1..] == rest;
  }

  /** Two arguments are evaluated left to right: the second in the store
      the first left behind, and their values in that order. */
  lemma ArgumentsLeftToRight(fuel: nat, a: Option<Expression>, b: Option<Expression>, env: nat, st: Store)
    requires var ra := Eval(fuel, a, env, st);
      ra.outcome.Done? && !IsError(ra.outcome.value)
      && var rb := Eval(fuel, b, env, ra.store); rb.outcome.Done? && !IsError(rb.outcome.value)
    ensures var ra := Eval(fuel, a, env, st);
      var rb := Eval(fuel, b, env, ra.store);
      EvaluateExpressions(fuel, [a, b], env, [], st) == Run(Done([ra.outcome.value, rb.outcome.value]), rb.store)
  {
    var ra := Eval(fuel, a, env, st);
    var rb := Eval(fuel, b, env, ra.store);
    assert [a, b][0] == a && [a, b][1..] == [b] && [b][0] == b && [b][1..] == [];
    assert [] + [ra.outcome.value] == [ra.outcome.value];
    assert EvaluateExpressions(fuel, [a, b], env, [], st)
      == EvaluateExpressions(fuel, [b], env, [ra.outcome.value], ra.store);
    assert EvaluateExpressions(fuel, [b], env, [ra.outcome.value], ra.store)
      == EvaluateExpressions(fuel, [], env, [ra.outcome.value] + [rb.outcome.value], rb.store);
    assert [ra.outcome.value] + [rb.outcome.value] == [ra.outcome.value, rb.outcome.value];
  }

  /** An argument list evaluates either to one value per expression, none
      of them an Error, after the values already collected, or to the
      single Error that stopped it. */
  lemma {:induction false} ArgumentValues(fuel: nat, es: seq<Option<Expression>>, env: nat, acc: seq<Value>,
                                          st: Store)
    ensures var r := EvaluateExpressions(fuel, es, env, acc, st);
      r.outcome.Done? ==>
        (|r.outcome.value| == |acc| + |es| && r.outcome.value[..|acc|] == acc
         && forall i :: |acc| <= i < |r.outcome.value| ==> !IsError(r.outcome.value[i]))
        || (|r.outcome.value| == 1 && IsError(r.outcome.value[0]))
    decreases |es|
  {
    if es != [] {
      var r := Eval(fuel, es[0], env, st);
      if r.outcome.Done? && !IsError(r.outcome.value) {
        var acc' := acc + [r.outcome.value];
        ArgumentValues(fuel, es[1..], env, acc', r.store);
        var res := EvaluateExpressions(fuel, es[1..], env, acc', r.store);
        if res.outcome.Done? && |res.outcome.value| == |acc'| + |es[1..]| {
          var vs := res.outcome.value;
          assert vs[..|acc|] == vs[..|acc'|][..|acc|];
          assert vs[|acc|] == vs[..|acc'|][|acc|];
        }
      }
    }
  }

  /** Calling a value that is not a function is an Error naming its type;
      calling Go's nil panics. */
  lemma NotAFunction(fuel: nat, fn: Value, args: seq<Value>, st: Store)
    requires fn.Some? ==> !fn.value.Function?
    ensures fn.None? <==> ApplyFunction(fuel, fn, args, st) == Run(Panic(NilDereference), st)
    ensures fn.Some? ==> ApplyFunction(fuel, fn, args, st) == Run(Done(Some(Error("not a function: " + TypeOf(fn.value)))), st)
  {
  }

  /** No parameter after `k` has the name of parameter `k`. */
  predicate LastOfItsName(ps: seq<Identifier>, k: nat)
    requires k < |ps|
  {
    forall j :: k < j < |ps| ==> ps[j].value != ps[k].value
  }

  /** Binding parameters `i..` writes the frame `env` only: each name gets
      the argument of its last parameter, and every other name keeps what
      it had. */
  lemma {:induction false} BindsPositionally(ps: seq<Identifier>, args: seq<Value>, i: nat, env: nat, st: Store)
    requires i <= |ps| <= |args| && env < |st.frames|
    ensures var r := BindParameters(ps, args, i, env, st);
      r.outcome == Done(env) && r.store.next == st.next
      && |r.store.frames| == |st.frames|
      && (forall k :: 0 <= k < |st.frames| && k != env ==> r.store.frames[k] == st.frames[k])
      && r.store.frames[env].outer == st.frames[env].outer
      && var vars, vars' := st.frames[env].vars, r.store.frames[env].vars;
         (forall k :: i <= k < |ps| && LastOfItsName(ps, k) ==> ps[k].value in vars' && vars'[ps[k].value] == args[k])
         && (forall n :: (forall k :: i <= k < |ps| ==> ps[k].value != n) ==>
               (n in vars' <==> n in vars) && (n in vars ==> vars'[n] == vars[n]))
    decreases |ps| - i
  {
    if i < |ps| {
      var st1 := Set(st, env, ps[i].value, args[i]);
      BindsPositionally(ps, args, i + 1, env, st1);
      var r := BindParameters(ps, args, i + 1, env, st1);
      assert BindParameters(ps, args, i, env, st) == r;
      var vars1, vars' := st1.frames[env].vars, r.store.frames[env].vars;
      forall k | i <= k < |ps| && LastOfItsName(ps, k)
        ensures ps[k].value in vars' && vars'[ps[k].value] == args[k]
      {
        if k == i {
          assert forall kk :: i + 1 <= kk < |ps| ==> ps[kk].value != ps[i].value;
          assert ps[i].value in vars1 && vars1[ps[i].value] == args[i];
        }
      }
    }
  }

  /** A missing argument is Go's index out of range, after the frame is
      made. */
  lemma {:induction false} MissingArgumentPanics(ps: seq<Identifier>, args: seq<Value>, i: nat, env: nat, st: Store)
    requires i <= |args| < |ps|
    ensures BindParameters(ps, args, i, env, st).outcome == Panic(IndexOutOfRange)
    decreases |ps| - i
  {
    if i < |args| {
      MissingArgumentPanics(ps, args, i + 1, env, Set(st, env, ps[i].value, args[i]));
    }
  }

  /** The body of a function runs in a new environment enclosed by the one
      the function captured: the parameters are bound there, in order, to
      the arguments; every other name resolves as it would in the captured
      environment; the environments already there are untouched. */
  lemma FunctionEnvironment(f: Object, args: seq<Value>, st: Store, name: string)
    requires f.Function? && |f.parameters| <= |args|
    requires forall k :: 0 <= k < |f.parameters| ==> f.parameters[k].value != name
    ensures var r := ExtendedFunctionEnv(f, args, st);
      var env := |st.frames|;
      r.outcome == Done(env) && |r.store.frames| == env + 1
      && r.store.frames[..env] == st.frames
      && r.store.frames[env].outer == Some(f.env)
      && (forall k :: 0 <= k < |f.parameters| && LastOfItsName(f.parameters, k) ==>
            Get(r.store, env, f.parameters[k].value) == Some(args[k]))
      && Get(r.store, env, name) == Get(st, f.env, name)
  {
    var ps := f.parameters;
    var env := |st.frames|;
    var st0 := Enclose(st, f.env);
    BindsPositionally(ps, args, 0, env, st0);
    var r := BindParameters(ps, args, 0, env, st0);
    assert r.store.frames[..env] == st.frames by {
      forall k | 0 <= k < env
        ensures r.store.frames[k] == st.frames[k]
      {
        assert st0.frames[k] == st.frames[k];
      }
    }
    assert name !in r.store.frames[env].vars;
    if f.env < env {
      GetIgnoresNewerFrames(st, r.store, f.env, name);
    }
  }

  /** Applying a function with enough arguments runs its body in the new
      environment (the next frame) and hands back the body's result with a
      Return unwrapped, so `return v` in the body gives `v` to the caller.
      With no fuel left the call stops; an interrupted body interrupts the
      call. */
  lemma CallUnwrapsBody(fuel: nat, f: Object, args: seq<Value>, st: Store)
    requires f.Function? && |f.parameters| <= |args|
    ensures var ext := ExtendedFunctionEnv(f, args, st);
      ext.outcome == Done(|st.frames|) &&
      (fuel == 0 ==> ApplyFunction(fuel, Some(f), args, st) == Run(OutOfFuel, ext.store))
    ensures 0 < fuel ==>
      var ext := ExtendedFunctionEnv(f, args, st);
      var b := EvaluateStatementBlock(fuel - 1, f.body, |st.frames|, ext.store);
      var r := ApplyFunction(fuel, Some(f), args, st);
      (!b.outcome.Done? ==> r == b) &&
      (b.outcome.Done? ==> r == Run(Done(UnwrapReturnValue(b.outcome.value)), b.store)) &&
      (b.outcome.Done? && b.outcome.value.Some? && b.outcome.value.value.ReturnValue? ==>
         r.outcome == Done(b.outcome.value.value.inner)) &&
      (b.outcome.Done? && !(b.outcome.value.Some? && b.outcome.value.value.ReturnValue?) ==>
         r.outcome == b.outcome)
  {
    BindsPositionally(f.parameters, args, 0, |st.frames|, Enclose(st, f.env));
  }

  /** A function literal evaluates to a new Function object that captures
      the environment it is evaluated in, with the literal's parameters and
      body; only the object counter moves. */
  lemma LiteralCapturesEnv(fuel: nat, t: Tokens.Token, ps: seq<Identifier>, body: StatementBlock,
                           env: nat, st: Store)
    ensures var r := Eval(fuel, Some(FunctionLiteral(t, ps, body)), env, st);
      r.outcome.Done? && r.outcome.value.Some? && r.outcome.value.value.Function? &&
      var f := r.outcome.value.value;
      f.env == env && f.parameters == ps && f.body == body && f.id == st.next &&
      r.store.frames == st.frames && r.store.next == st.next + 1
  {
  }

  // ---------------------------------------------------------------------
  // A whole program: `let add = func(a, b) { return a + b; }; add(2, 3);`

  function Id(name: string): Identifier {
    Identifier(Tokens.Token(Tokens.ID, name), name)
  }

  function Num(lexeme: string, n: int64): Option<Expression> {
    Some(IntegerLiteral(Tokens.Token(Tokens.DIGIT, lexeme), n))
  }

  /** `{ return a + b; }` */
  function AddBody(): StatementBlock {
    StatementBlock(Tokens.Token(Tokens.LBRACE, "{"),
      [ReturnStatement(Tokens.Token(Tokens.RETURN, "return"),
         Some(InfixExpression(Tokens.Token(Tokens.PLUS, "+"), "+", Some(Ident(Id("a"))), Some(Ident(Id("b"))))))])
  }

  /** `add(2, 3)` */
  function AddCall(): Expression {
    CallExpression(Tokens.Token(Tokens.LPAREN, "("), Some(Ident(Id("add"))), [Num("2", 2), Num("3", 3)])
  }

  /** `let add = func(a, b) { return a + b; };` */
  function AddLet(): Statement {
    LetStatement(Tokens.Token(Tokens.LET, "let"), Id("add"),
      Some(FunctionLiteral(Tokens.Token(Tokens.FUNC, "func"), [Id("a"), Id("b")], AddBody())))
  }

  /** `add(2, 3);` */
  function AddCallStatement(): Statement {
    ExpressionStatement(Tokens.Token(Tokens.ID, "add"), Some(AddCall()))
  }

  function AddProgram(): Program {
    Program([AddLet(), AddCallStatement()])
  }

  /** The store after the `let`: the function, object 0, bound in the
      global environment, which it captured. */
  function AfterLet(): Store {
    Store([Frame(map["add" := Some(Function(0, [Id("a"), Id("b")], AddBody(), 0))], None)], 1)
  }

  /** The store the body runs in: a frame enclosed by the global one, with
      the parameters bound to the arguments. */
  function CallFrame(): Store {
    Store(AfterLet().frames + [Frame(map["a" := Some(Integer(2)), "b" := Some(Integer(3))], Some(0))], 1)
  }

  lemma AddLetStage()
    ensures EvalStatement(1, AddLet(), 0, NewStore()) == Run(Done(None), AfterLet())
  {
    var st := Allocate(NewStore());
    assert Set(st, 0, "add", Some(Function(0, [Id("a"), Id("b")], AddBody(), 0))) == AfterLet();
  }

  lemma AddBodyStage()
    ensures EvaluateStatementBlock(0, AddBody(), 1, CallFrame())
      == Run(Done(Some(ReturnValue(1, Some(Integer(5))))), Allocate(CallFrame()))
  {
    var st := CallFrame();
    assert Get(st, 1, "a") == Some(Some(Integer(2)));
    assert Get(st, 1, "b") == Some(Some(Integer(3)));
    var sum := AddBody().statements[0].value.value;
    assert EvalInfix(0, sum, 1, st) == Run(Done(Some(Integer(5))), st);
  }

  lemma AddApplyStage()
    ensures ApplyFunction(1, Some(Function(0, [Id("a"), Id("b")], AddBody(), 0)),
                          [Some(Integer(2)), Some(Integer(3))], AfterLet())
      == Run(Done(Some(Integer(5))), Allocate(CallFrame()))
  {
    var f := Function(0, [Id("a"), Id("b")], AddBody(), 0);
    var args := [Some(Integer(2)), Some(Integer(3))];
    var st0 := Enclose(AfterLet(), 0);
    var st1 := Set(st0, 1, "a", args[0]);
    var st2 := Set(st1, 1, "b", args[1]);
    assert ExtendedFunctionEnv(f, args, AfterLet()) == BindParameters(f.parameters, args, 0, 1, st0);
    assert BindParameters(f.parameters, args, 2, 1, st2) == Run(Done(1), st2);
    assert st2 == CallFrame();
    AddBodyStage();
  }

  lemma AddCallStage()
    ensures EvalStatement(1, AddCallStatement(), 0, AfterLet()) == Run(Done(Some(Integer(5))), Allocate(CallFrame()))
  {
    var st := AfterLet();
    var fv := Some(Function(0, [Id("a"), Id("b")], AddBody(), 0));
    assert Eval(1, AddCall().callee, 0, st) == Run(Done(fv), st);
    ArgumentsLeftToRight(1, Num("2", 2), Num("3", 3), 0, st);
    assert EvaluateExpressions(1, AddCall().arguments, 0, [], st) == Run(Done([Some(Integer(2)), Some(Integer(3))]), st);
    AddApplyStage();
    assert EvalCall(1, AddCall(), 0, st) == Run(Done(Some(Integer(5))), Allocate(CallFrame()));
    CallStatement(1, Tokens.Token(Tokens.ID, "add"), AddCall(), 0, st);
  }

  /** A call written as a statement is the call. */
  lemma CallStatement(fuel: nat, tok: Tokens.Token, x: Expression, env: nat, st: Store)
    requires x.CallExpression?
    ensures EvalStatement(fuel, ExpressionStatement(tok, Some(x)), env, st) == EvalCall(fuel, x, env, st)
  {
  }

  /** Two statements, neither of which stops the program. */
  lemma TwoStatements(fuel: nat, s0: Statement, s1: Statement, env: nat, st: Store, v: Value, w: Value,
                      mid: Store, end: Store)
    requires EvalStatement(fuel, s0, env, st) == Run(Done(v), mid)
    requires EvalStatement(fuel, s1, env, mid) == Run(Done(w), end)
    requires !(v.Some? && (v.value.ReturnValue? || v.value.Error?))
    requires !(w.Some? && (w.value.ReturnValue? || w.value.Error?))
    ensures EvaluateStatements(fuel, [s0, s1], env, None, st) == Run(Done(w), end)
  {
    assert [s0, s1][0] == s0 && [s0, s1][1..] == [s1] && [s1][0] == s1 && [s1][1..] == [];
    assert EvaluateStatements(fuel, [s0, s1], env, None, st) == EvaluateStatements(fuel, [s1], env, v, mid);
    assert EvaluateStatements(fuel, [s1], env, v, mid) == EvaluateStatements(fuel, [], env, w, end);
  }

  /** The program calls a function through the environment it captured and
      evaluates to 5. */
  lemma AddProgramValue()
    ensures EvalProgram(1, AddProgram(), 0, NewStore()).outcome == Done(Some(Integer(5)))
  {
    AddLetStage();
    AddCallStage();
    TwoStatements(1, AddLet(), AddCallStatement(), 0, NewStore(), None, Some(Integer(5)), AfterLet(),
                  Allocate(CallFrame()));
  }
}
