/** The evaluator over environments updated in place. `Heap` holds every
    environment of a run (the frames, addressed by handle) and the count of
    allocated objects; `env.Set` writes a frame, `NewEnclosedEnvironment`
    adds one, and the evaluation routines walk the tree with loops where Go
    has them. Every method is proved to compute exactly what the matching
    function of `EvaluatorSpec` computes from the heap it starts with. */
module Evaluating {
  import opened Wrappers
  import opened GoInts
  import opened Ast
  import opened Spec = EvaluatorSpec

  class Heap {
    var frames: seq<Frame>
    var next: nat

    ghost function State(): Store
      reads this
    {
      Store(frames, next)
    }

    /** One empty global environment (`NewEnvironment`), handle 0. */
    constructor ()
      ensures State() == NewStore()
    {
      frames := [Frame(map[], None)];
      next := 0;
    }

    /** `env.Get(name)`: walks outward from `env` to the first frame that
        binds `name`. */
    method Get(env: nat, name: string) returns (r: Option<Value>)
      ensures r == Spec.Get(State(), env, name)
    {
      var e: nat := env;
      r := None;
      while e < |frames|
        invariant Spec.Get(State(), e, name) == Spec.Get(State(), env, name)
        decreases e
      {
        var f := frames[e];
        if name in f.vars {
          r := Some(f.vars[name]);
          break;
        }
        if f.outer.None? || f.outer.value >= e {
          break;
        }
        e := f.outer.value;
      }
    }

    /** `env.Set(name, v)`: binds `name` in the frame `env` itself. */
    method Set(env: nat, name: string, v: Value)
      modifies this
      ensures State() == Spec.Set(old(State()), env, name, v)
    {
      if env < |frames| {
        var f := frames[env];
        frames := frames[env := f.(vars := f.vars[name := v])];
      }
    }

    /** `NewEnclosedEnvironment(outer)`. */
    method NewEnclosedEnvironment(outer: nat) returns (env: nat)
      modifies this
      ensures env == |old(frames)| && State() == Enclose(old(State()), outer)
    {
      env := |frames|;
      frames := frames + [Frame(map[], Some(outer))];
    }

    /** The number of a newly allocated object. */
    method Allocate() returns (id: nat)
      modifies this
      ensures id == old(next) && State() == Spec.Allocate(old(State()))
    {
      id := next;
      next := next + 1;
    }
  }

  // ---------------------------------------------------------------------
  // Eval.

  method Eval(h: Heap, fuel: nat, e: Option<Expression>, env: nat) returns (r: Outcome<Value>)
    modifies h
    ensures Run(r, h.State()) == Spec.Eval(fuel, e, env, old(h.State()))
    decreases fuel, OptSize(e)
  {
    match e
    case None =>
      r := Done(None);
    case Some(x) =>
      match x
      case IntegerLiteral(_, n) =>
        r := Done(Some(Integer(n)));
      case BooleanExpression(_, b) =>
        r := Done(NativeBoolToBooleanObject(b));
      case Ident(id) =>
        var v := EvalIdentifier(h, id, env);
        r := Done(v);
      case FunctionLiteral(_, ps, body) =>
        var id := h.Allocate();
        r := Done(Some(Function(id, ps, body, env)));
      case PrefixExpression(_, _, _) =>
        r := EvalPrefix(h, fuel, x, env);
      case InfixExpression(_, _, _, _) =>
        r := EvalInfix(h, fuel, x, env);
      case IfExpression(_, _, _, _) =>
        r := EvaluateIfExpression(h, fuel, x, env);
      case CallExpression(_, _, _) =>
        r := EvalCall(h, fuel, x, env);
      case ArrayLiteral(_, _) =>
        r := Done(None);
      case IndexExpression(_, _, _) =>
        r := Done(None);
  }

  method EvalIdentifier(h: Heap, id: Identifier, env: nat) returns (v: Value)
    ensures v == Spec.EvalIdentifier(id, env, h.State())
  {
    var found := h.Get(env, id.value);
    if found.None? {
      v := Some(Error("identifier not found: " + id.value));
    } else {
      v := found.value;
    }
  }

  method EvalPrefix(h: Heap, fuel: nat, x: Expression, env: nat) returns (r: Outcome<Value>)
    requires x.PrefixExpression?
    modifies h
    ensures Run(r, h.State()) == Spec.EvalPrefix(fuel, x, env, old(h.State()))
    decreases fuel, ExprSize(x)
  {
    var right := Eval(h, fuel, x.operand, env);
    if Interrupts(right) {
      r := right;
    } else {
      r := EvaluatePrefixExpression(x.op, right.value);
    }
  }

  method EvalInfix(h: Heap, fuel: nat, x: Expression, env: nat) returns (r: Outcome<Value>)
    requires x.InfixExpression?
    modifies h
    ensures Run(r, h.State()) == Spec.EvalInfix(fuel, x, env, old(h.State()))
    decreases fuel, ExprSize(x)
  {
    var left := Eval(h, fuel, x.left, env);
    if Interrupts(left) {
      r := left;
    } else {
      var right := Eval(h, fuel, x.right, env);
      if Interrupts(right) {
        r := right;
      } else {
        r := EvaluateInfixExpression(left.value, right.value, x.op);
      }
    }
  }

  method EvaluateIfExpression(h: Heap, fuel: nat, x: Expression, env: nat) returns (r: Outcome<Value>)
    requires x.IfExpression?
    modifies h
    ensures Run(r, h.State()) == Spec.EvaluateIfExpression(fuel, x, env, old(h.State()))
    decreases fuel, ExprSize(x)
  {
    var cond := Eval(h, fuel, x.condition, env);
    if Interrupts(cond) {
      r := cond;
    } else if IsTruthy(cond.value) {
      r := EvaluateStatementBlock(h, fuel, x.consequence, env);
    } else if x.alternative.Some? {
      assert BlockSize(x.alternative.value) < OptBlockSize(x.alternative) < ExprSize(x);
      r := EvaluateStatementBlock(h, fuel, x.alternative.value, env);
    } else {
      r := Done(NULL);
    }
  }

  method EvalCall(h: Heap, fuel: nat, x: Expression, env: nat) returns (r: Outcome<Value>)
    requires x.CallExpression?
    modifies h
    ensures Run(r, h.State()) == Spec.EvalCall(fuel, x, env, old(h.State()))
    decreases fuel, ExprSize(x)
  {
    var callee := Eval(h, fuel, x.callee, env);
    if Interrupts(callee) {
      r := callee;
    } else {
      var args := EvaluateExpressions(h, fuel, x.arguments, env);
      if !args.Done? {
        r := Abort(args);
      } else if |args.value| == 1 && IsError(args.value[0]) {
        r := Done(args.value[0]);
      } else {
        r := ApplyFunction(h, fuel, callee.value, args.value);
      }
    }
  }

  /** `evaluateExpressions`: left to right, stopping at the first Error,
      which is returned alone. */
  method EvaluateExpressions(h: Heap, fuel: nat, es: seq<Option<Expression>>, env: nat)
    returns (r: Outcome<seq<Value>>)
    modifies h
    ensures Run(r, h.State()) == Spec.EvaluateExpressions(fuel, es, env, [], old(h.State()))
    decreases fuel, ListSize(es)
  {
    ghost var target := Spec.EvaluateExpressions(fuel, es, env, [], h.State());
    var result: seq<Value> := [];
    var i := 0;
    r := Done([]);
    while i < |es|
      invariant i <= |es|
      invariant Spec.EvaluateExpressions(fuel, es[i..], env, result, h.State()) == target
    {
      ExpressionSmaller(es, i);
      assert es[i..][0] == es[i] && es[i..][1..] == es[i + 1..];
      var evaluated := Eval(h, fuel, es[i], env);
      if !evaluated.Done? {
        r := Abort(evaluated);
        return;
      }
      if IsError(evaluated.value) {
        r := Done([evaluated.value]);
        return;
      }
      result := result + [evaluated.value];
      i := i + 1;
    }
    r := Done(result);
  }

  method ApplyFunction(h: Heap, fuel: nat, fn: Value, args: seq<Value>) returns (r: Outcome<Value>)
    modifies h
    ensures Run(r, h.State()) == Spec.ApplyFunction(fuel, fn, args, old(h.State()))
    decreases fuel, 0
  {
    if fn.None? {
      r := Panic(NilDereference);
    } else if !fn.value.Function? {
      r := Done(Some(Error("not a function: " + TypeOf(fn.value))));
    } else {
      var ext := ExtendedFunctionEnv(h, fn.value, args);
      if !ext.Done? {
        r := Abort(ext);
      } else if fuel == 0 {
        r := OutOfFuel;
      } else {
        var evaluated := EvaluateStatementBlock(h, fuel - 1, fn.value.body, ext.value);
        r := if evaluated.Done? then Done(UnwrapReturnValue(evaluated.value)) else evaluated;
      }
    }
  }

  /** `extendedFunctionEnv`: a frame enclosed by the function's environment,
      with the parameters bound to the arguments in order. */
  method ExtendedFunctionEnv(h: Heap, f: Object, args: seq<Value>) returns (r: Outcome<nat>)
    requires f.Function?
    modifies h
    ensures Run(r, h.State()) == Spec.ExtendedFunctionEnv(f, args, old(h.State()))
  {
    ghost var target := Spec.ExtendedFunctionEnv(f, args, h.State());
    var env := h.NewEnclosedEnvironment(f.env);
    var i := 0;
    r := Done(env);
    while i < |f.parameters|
      invariant i <= |f.parameters|
      invariant BindParameters(f.parameters, args, i, env, h.State()) == target
    {
      if i >= |args| {
        r := Panic(IndexOutOfRange);
        return;
      }
      h.Set(env, f.parameters[i].value, args[i]);
      i := i + 1;
    }
  }

  // ---------------------------------------------------------------------
  // Statements.

  method EvalStatement(h: Heap, fuel: nat, s: Statement, env: nat) returns (r: Outcome<Value>)
    modifies h
    ensures Run(r, h.State()) == Spec.EvalStatement(fuel, s, env, old(h.State()))
    decreases fuel, StmtSize(s)
  {
    match s
    case ExpressionStatement(_, e) =>
      r := Eval(h, fuel, e, env);
    case ReturnStatement(_, v) =>
      var val := Eval(h, fuel, v, env);
      if Interrupts(val) {
        r := val;
      } else {
        var id := h.Allocate();
        r := Done(Some(ReturnValue(id, val.value)));
      }
    case LetStatement(_, name, v) =>
      var val := Eval(h, fuel, v, env);
      if Interrupts(val) {
        r := val;
      } else {
        h.Set(env, name.value, val.value);
        r := Done(None);
      }
    case FailedStatement =>
      r := Panic(NilDereference);
  }

  /** `evaluateStatements`: a Return ends the program with its value
      unwrapped, an Error ends it as it is. */
  method EvaluateStatements(h: Heap, fuel: nat, ss: seq<Statement>, env: nat) returns (r: Outcome<Value>)
    modifies h
    ensures Run(r, h.State()) == Spec.EvaluateStatements(fuel, ss, env, None, old(h.State()))
    decreases fuel, StmtsSize(ss)
  {
    ghost var target := Spec.EvaluateStatements(fuel, ss, env, None, h.State());
    var result: Value := None;
    var i := 0;
    r := Done(None);
    while i < |ss|
      invariant i <= |ss|
      invariant Spec.EvaluateStatements(fuel, ss[i..], env, result, h.State()) == target
    {
      StatementSmaller(ss, i);
      assert ss[i..][0] == ss[i] && ss[i..][1..] == ss[i + 1..];
      var o := EvalStatement(h, fuel, ss[i], env);
      if !o.Done? {
        r := o;
        return;
      }
      if o.value.Some? && o.value.value.ReturnValue? {
        r := Done(o.value.value.inner);
        return;
      }
      if o.value.Some? && o.value.value.Error? {
        r := o;
        return;
      }
      result := o.value;
      i := i + 1;
    }
    r := Done(result);
  }

  /** `Eval` on a program. */
  method EvalProgram(h: Heap, fuel: nat, p: Program, env: nat) returns (r: Outcome<Value>)
    modifies h
    ensures Run(r, h.State()) == Spec.EvalProgram(fuel, p, env, old(h.State()))
  {
    r := EvaluateStatements(h, fuel, p.statements, env);
  }

  /** `evaluateStatementBlock`: a Return or an Error ends the block and is
      handed back as it is. */
  method EvaluateStatementBlock(h: Heap, fuel: nat, b: StatementBlock, env: nat) returns (r: Outcome<Value>)
    modifies h
    ensures Run(r, h.State()) == Spec.EvaluateStatementBlock(fuel, b, env, old(h.State()))
    decreases fuel, BlockSize(b)
  {
    ghost var target := Spec.EvaluateStatementBlock(fuel, b, env, h.State());
    var ss := b.statements;
    var result: Value := None;
    var i := 0;
    r := Done(None);
    while i < |ss|
      invariant i <= |ss|
      invariant BlockLoop(fuel, ss[i..], env, result, h.State()) == target
    {
      StatementSmaller(ss, i);
      assert ss[i..][0] == ss[i] && ss[i..][1..] == ss[i + 1..];
      var o := EvalStatement(h, fuel, ss[i], env);
      if !o.Done? {
        r := o;
        return;
      }
      if o.value.Some? {
        var rt := TypeOf(o.value.value);
        if rt == "RETURN_VALUE" || rt == "ERROR" {
          r := o;
          return;
        }
      }
      result := o.value;
      i := i + 1;
    }
    r := Done(result);
  }
}
