/** The tree-walking evaluator as functions. Go's objects are pointers; here
    they are values, and the two kinds whose pointer identity the evaluator
    can observe (`==` on two non-integers) carry the number of their
    allocation, so that equality of values is identity of objects.
    Environments live in a `Store`: a sequence of frames, each a map with an
    optional enclosing frame, addressed by index. Every evaluation returns
    the outcome together with the store it leaves. A Go runtime panic is the
    outcome `Panic`, and `OutOfFuel` bounds the depth of nested calls. */
module EvaluatorSpec {
  import opened Wrappers
  import opened GoInts
  import opened Ast

  datatype Object =
    | Integer(value: int64)
    | Boolean(truth: bool)
    | Null
    | ReturnValue(id: nat, inner: Option<Object>)
    | Error(message: string)
    | Function(id: nat, parameters: seq<Identifier>, body: StatementBlock, env: nat)

  /** What `Eval` returns: an object or Go's nil. */
  type Value = Option<Object>

  // The three singletons.
  const TRUE: Value := Some(Boolean(true))
  const FALSE: Value := Some(Boolean(false))
  const NULL: Value := Some(Null)

  /** `Type()` of each kind of object. */
  function TypeOf(o: Object): string {
    match o
    case Integer(_) => "INTEGER"
    case Boolean(_) => "BOOLEAN"
    case Null => "NULL"
    case ReturnValue(_, _) => "RETURN_VALUE"
    case Error(_) => "ERROR"
    case Function(_, _, _, _) => "FUNCTION"
  }

  predicate IsError(v: Value) {
    v.Some? && TypeOf(v.value) == "ERROR"
  }

  function NativeBoolToBooleanObject(b: bool): Value {
    if b then TRUE else FALSE
  }

  /** The switch of `isTruthy`, which compares against the singletons. */
  predicate IsTruthy(v: Value) {
    if v == NULL then false
    else if v == TRUE then true
    else if v == FALSE then false
    else true
  }

  datatype PanicReason = NilDereference | IndexOutOfRange | DivideByZero

  datatype Outcome<T> = Done(value: T) | Panic(reason: PanicReason) | OutOfFuel

  /** An outcome that is not `Done`, carried over to another result type. */
  function Abort<T, U>(o: Outcome<T>): Outcome<U>
    requires !o.Done?
  {
    if o.Panic? then Panic(o.reason) else OutOfFuel
  }

  // ---------------------------------------------------------------------
  // Operators.

  function EvaluateIntegerInfixExpression(l: int64, r: int64, op: string): Outcome<Value> {
    if op == "-" then Done(Some(Integer(Sub(l, r))))
    else if op == "+" then Done(Some(Integer(Add(l, r))))
    else if op == "/" then (if r == 0 then Panic(DivideByZero) else Done(Some(Integer(Quo(l, r)))))
    else if op == "*" then Done(Some(Integer(Mul(l, r))))
    else if op == ">" then Done(NativeBoolToBooleanObject(l > r))
    else if op == "<" then Done(NativeBoolToBooleanObject(l < r))
    else if op == "<=" then Done(NativeBoolToBooleanObject(l <= r))
    else if op == ">=" then Done(NativeBoolToBooleanObject(l >= r))
    else if op == "==" then Done(NativeBoolToBooleanObject(l == r))
    else if op == "!=" then Done(NativeBoolToBooleanObject(l != r))
    else Done(Some(Error("unknown operator: INTEGER " + op + " INTEGER")))
  }

  /** Both operands' `Type()` is called, so a nil operand panics. */
  function EvaluateInfixExpression(left: Value, right: Value, op: string): Outcome<Value> {
    if left.None? || right.None? then Panic(NilDereference)
    else
      var l, r := left.value, right.value;
      if l.Integer? && r.Integer? then EvaluateIntegerInfixExpression(l.value, r.value, op)
      else if TypeOf(l) != TypeOf(r) then
        Done(Some(Error("type mismatch: " + TypeOf(l) + " " + op + " " + TypeOf(r))))
      else if op == "==" then Done(NativeBoolToBooleanObject(l == r))
      else if op == "!=" then Done(NativeBoolToBooleanObject(l != r))
      else Done(Some(Error("unknown operator: " + TypeOf(l) + " " + op + " " + TypeOf(r))))
  }

  /** The switch of `evaluateNotExpression`, which compares against the singletons. */
  function EvaluateNotExpression(v: Value): Value {
    if v == TRUE then FALSE
    else if v == FALSE then TRUE
    else if v == NULL then TRUE
    else FALSE
  }

  function EvaluateMinusPrefixExpression(v: Value): Outcome<Value> {
    if v.None? then Panic(NilDereference)
    else if !v.value.Integer? then Done(Some(Error("unknown operator: -" + TypeOf(v.value))))
    else Done(Some(Integer(Neg(v.value.value))))
  }

  function EvaluatePrefixExpression(op: string, right: Value): Outcome<Value> {
    if op == "!" then Done(EvaluateNotExpression(right))
    else if op == "-" then EvaluateMinusPrefixExpression(right)
    else if right.None? then Panic(NilDereference)
    else Done(Some(Error("unknown operator: " + op + TypeOf(right.value))))
  }

  function UnwrapReturnValue(v: Value): Value {
    if v.Some? && v.value.ReturnValue? then v.value.inner else v
  }

  // ---------------------------------------------------------------------
  // Environments.

  datatype Frame = Frame(vars: map<string, Value>, outer: Option<nat>)

  /** The environments (frame `i` encloses only frames before it) and the
      number of objects allocated so far. */
  datatype Store = Store(frames: seq<Frame>, next: nat)

  /** One empty global environment, handle 0. */
  function NewStore(): Store {
    Store([Frame(map[], None)], 0)
  }

  /** `env.Get(name)`: the innermost binding along the chain, or `None`
      when there is none. */
  function Get(st: Store, env: nat, name: string): Option<Value>
    decreases env
  {
    if env >= |st.frames| then None
    else
      var f := st.frames[env];
      if name in f.vars then Some(f.vars[name])
      else if f.outer.Some? && f.outer.value < env then Get(st, f.outer.value, name)
      else None
  }

  /** `env.Set(name, v)`: writes the innermost frame only. */
  function Set(st: Store, env: nat, name: string, v: Value): Store {
    if env < |st.frames| then
      var f := st.frames[env];
      st.(frames := st.frames[env := f.(vars := f.vars[name := v])])
    else st
  }

  /** `NewEnclosedEnvironment(outer)`: an empty frame, with handle
      `|st.frames|`, enclosed by `outer`. */
  function Enclose(st: Store, outer: nat): Store {
    st.(frames := st.frames + [Frame(map[], Some(outer))])
  }

  /** A fresh object number. */
  function Allocate(st: Store): Store {
    st.(next := st.next + 1)
  }

  datatype Run<T> = Run(outcome: Outcome<T>, store: Store)

  /** The evaluation went wrong or produced an Error, which every caller
      hands back unchanged. */
  predicate Interrupts(o: Outcome<Value>) {
    !o.Done? || IsError(o.value)
  }

  // ---------------------------------------------------------------------
  // Eval. The measure is the fuel, then the size of the node.

  function Eval(fuel: nat, e: Option<Expression>, env: nat, st: Store): Run<Value>
    decreases fuel, OptSize(e)
  {
    match e
    case None => Run(Done(None), st)
    case Some(x) =>
      match x
      case IntegerLiteral(_, n) => Run(Done(Some(Integer(n))), st)
      case BooleanExpression(_, b) => Run(Done(NativeBoolToBooleanObject(b)), st)
      case Ident(id) => Run(Done(EvalIdentifier(id, env, st)), st)
      case FunctionLiteral(_, ps, body) => Run(Done(Some(Function(st.next, ps, body, env))), Allocate(st))
      case PrefixExpression(_, _, _) => EvalPrefix(fuel, x, env, st)
      case InfixExpression(_, _, _, _) => EvalInfix(fuel, x, env, st)
      case IfExpression(_, _, _, _) => EvaluateIfExpression(fuel, x, env, st)
      case CallExpression(_, _, _) => EvalCall(fuel, x, env, st)
      case ArrayLiteral(_, _) => Run(Done(None), st)
      case IndexExpression(_, _, _) => Run(Done(None), st)
  }

  function EvalIdentifier(id: Identifier, env: nat, st: Store): Value {
    match Get(st, env, id.value)
    case None => Some(Error("identifier not found: " + id.value))
    case Some(v) => v
  }

  function EvalPrefix(fuel: nat, x: Expression, env: nat, st: Store): Run<Value>
    requires x.PrefixExpression?
    decreases fuel, ExprSize(x)
  {
    var right := Eval(fuel, x.operand, env, st);
    if Interrupts(right.outcome) then right
    else Run(EvaluatePrefixExpression(x.op, right.outcome.value), right.store)
  }

  function EvalInfix(fuel: nat, x: Expression, env: nat, st: Store): Run<Value>
    requires x.InfixExpression?
    decreases fuel, ExprSize(x)
  {
    var left := Eval(fuel, x.left, env, st);
    if Interrupts(left.outcome) then left
    else
      var right := Eval(fuel, x.right, env, left.store);
      if Interrupts(right.outcome) then right
      else Run(EvaluateInfixExpression(left.outcome.value, right.outcome.value, x.op), right.store)
  }

  function EvaluateIfExpression(fuel: nat, x: Expression, env: nat, st: Store): Run<Value>
    requires x.IfExpression?
    decreases fuel, ExprSize(x)
  {
    var cond := Eval(fuel, x.condition, env, st);
    if Interrupts(cond.outcome) then cond
    else if IsTruthy(cond.outcome.value) then EvaluateStatementBlock(fuel, x.consequence, env, cond.store)
    else if x.alternative.Some? then
      assert BlockSize(x.alternative.value) < OptBlockSize(x.alternative) < ExprSize(x);
      EvaluateStatementBlock(fuel, x.alternative.value, env, cond.store)
    else Run(Done(NULL), cond.store)
  }

  /** A call: the callee, then the arguments, then the application. */
  function EvalCall(fuel: nat, x: Expression, env: nat, st: Store): Run<Value>
    requires x.CallExpression?
    decreases fuel, ExprSize(x)
  {
    var callee := Eval(fuel, x.callee, env, st);
    if Interrupts(callee.outcome) then callee
    else
      var args := EvaluateExpressions(fuel, x.arguments, env, [], callee.store);
      if !args.outcome.Done? then Run(Abort(args.outcome), args.store)
      else
        var vs := args.outcome.value;
        if |vs| == 1 && IsError(vs[0]) then Run(Done(vs[0]), args.store)
        else ApplyFunction(fuel, callee.outcome.value, vs, args.store)
  }

  /** The loop of `evaluateExpressions`, left to right, with the values so
      far in `acc`; the first Error is returned alone. */
  function EvaluateExpressions(fuel: nat, es: seq<Option<Expression>>, env: nat, acc: seq<Value>, st: Store)
    : Run<seq<Value>>
    decreases fuel, ListSize(es)
  {
    if es == [] then Run(Done(acc), st)
    else
      var r := Eval(fuel, es[0], env, st);
      if !r.outcome.Done? then Run(Abort(r.outcome), r.store)
      else if IsError(r.outcome.value) then Run(Done([r.outcome.value]), r.store)
      else EvaluateExpressions(fuel, es[1..], env, acc + [r.outcome.value], r.store)
  }

  /** `applyFunction`; every application spends one unit of fuel. */
  function ApplyFunction(fuel: nat, fn: Value, args: seq<Value>, st: Store): Run<Value>
    decreases fuel, 0
  {
    if fn.None? then Run(Panic(NilDereference), st)
    else if !fn.value.Function? then Run(Done(Some(Error("not a function: " + TypeOf(fn.value)))), st)
    else
      var ext := ExtendedFunctionEnv(fn.value, args, st);
      if !ext.outcome.Done? then Run(Abort(ext.outcome), ext.store)
      else if fuel == 0 then Run(OutOfFuel, ext.store)
      else
        var body := EvaluateStatementBlock(fuel - 1, fn.value.body, ext.outcome.value, ext.store);
        if !body.outcome.Done? then body
        else Run(Done(UnwrapReturnValue(body.outcome.value)), body.store)
  }

  /** `extendedFunctionEnv`: a new frame enclosed by the function's own
      environment, the parameters bound in order; a missing argument is an
      index out of range. */
  function ExtendedFunctionEnv(f: Object, args: seq<Value>, st: Store): Run<nat>
    requires f.Function?
  {
    BindParameters(f.parameters, args, 0, |st.frames|, Enclose(st, f.env))
  }

  function BindParameters(ps: seq<Identifier>, args: seq<Value>, i: nat, env: nat, st: Store): Run<nat>
    requires i <= |ps|
    decreases |ps| - i
  {
    if i == |ps| then Run(Done(env), st)
    else if i >= |args| then Run(Panic(IndexOutOfRange), st)
    else BindParameters(ps, args, i + 1, env, Set(st, env, ps[i].value, args[i]))
  }

  // ---------------------------------------------------------------------
  // Statements.

  function EvalStatement(fuel: nat, s: Statement, env: nat, st: Store): Run<Value>
    decreases fuel, StmtSize(s)
  {
    match s
    case ExpressionStatement(_, e) => Eval(fuel, e, env, st)
    case ReturnStatement(_, v) =>
      var r := Eval(fuel, v, env, st);
      if Interrupts(r.outcome) then r
      else Run(Done(Some(ReturnValue(r.store.next, r.outcome.value))), Allocate(r.store))
    case LetStatement(_, name, v) =>
      var r := Eval(fuel, v, env, st);
      if Interrupts(r.outcome) then r
      else Run(Done(None), Set(r.store, env, name.value, r.outcome.value))
    case FailedStatement => Run(Panic(NilDereference), st)
  }

  /** `evaluateStatements`, the loop over a program's statements with the
      last result in `result`: a Return is unwrapped and ends the program,
      and so does an Error. */
  function EvaluateStatements(fuel: nat, ss: seq<Statement>, env: nat, result: Value, st: Store): Run<Value>
    decreases fuel, StmtsSize(ss)
  {
    if ss == [] then Run(Done(result), st)
    else
      var r := EvalStatement(fuel, ss[0], env, st);
      if !r.outcome.Done? then r
      else
        var v := r.outcome.value;
        if v.Some? && v.value.ReturnValue? then Run(Done(v.value.inner), r.store)
        else if v.Some? && v.value.Error? then r
        else EvaluateStatements(fuel, ss[1..], env, v, r.store)
  }

  /** `Eval` on a program. */
  function EvalProgram(fuel: nat, p: Program, env: nat, st: Store): Run<Value> {
    EvaluateStatements(fuel, p.statements, env, None, st)
  }

  function EvaluateStatementBlock(fuel: nat, b: StatementBlock, env: nat, st: Store): Run<Value>
    decreases fuel, BlockSize(b)
  {
    BlockLoop(fuel, b.statements, env, None, st)
  }

  /** The loop of `evaluateStatementBlock`: a Return or an Error ends the
      block and is handed back as it is. */
  function BlockLoop(fuel: nat, ss: seq<Statement>, env: nat, result: Value, st: Store): Run<Value>
    decreases fuel, StmtsSize(ss)
  {
    if ss == [] then Run(Done(result), st)
    else
      var r := EvalStatement(fuel, ss[0], env, st);
      if !r.outcome.Done? then r
      else
        var v := r.outcome.value;
        if v.Some? && (TypeOf(v.value) == "RETURN_VALUE" || TypeOf(v.value) == "ERROR") then r
        else BlockLoop(fuel, ss[1..], env, v, r.store)
  }
}
