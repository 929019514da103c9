/**
 * The command-line front end: the `context` record and the stages `parse`, `check`,
 * `calc` and `print_result` that `run` drives to an exit code.
 */
module Cli {
  import opened Ints
  import opened Wrappers
  import opened Operations
  import ML = MathLib
  import Decimal

  /** `enum class exit_code`. */
  datatype ExitCode = Ok | Usage | Math

  /** The process exit status `run` returns for a code. */
  function Status(e: ExitCode): int {
    match e
    case Ok => 0
    case Usage => 1
    case Math => 2
  }

  /** `struct context`: the parsed operation and operands, each with its "seen" flag, and the result. */
  datatype Context = Context(op: Operation, haveOp: bool, a: I64, haveA: bool, b: I64, haveB: bool, r: ML.MlResult)

  /** `context c {}`: the default member initialisers. */
  const Initial: Context := Context(NoOp, false, 0, false, 0, false, ML.ZeroResult)

  /** `have_op` is only ever set together with a real operation. */
  predicate WellFormed(c: Context) {
    c.haveOp ==> c.op != NoOp
  }

  /**
   * One option as `getopt_long` reports it: the character it returns ('o', 'a', 'b', 'h',
   * or '?' for an unknown option or a missing argument) and `optarg`, None when null.
   */
  datatype Token = Token(flag: char, arg: Option<string>)

  /** The exit code of a stage and the context it leaves. */
  datatype Stage = Stage(rc: ExitCode, c: Context)

  /**
   * One turn of the option loop in `parse`: it goes on exactly when the token is accepted,
   * never yields math, and keeps `have_op` paired with a real operation.
   */
  function Step(c: Context, t: Token): (s: Stage)
    ensures s.rc != Math
    ensures s.rc == Ok <==> Accepted(t)
    ensures WellFormed(c) ==> WellFormed(s.c)
  {
    match t.flag
    case 'o' =>
      if t.arg.Some? && Lookup(t.arg.value).Some? then Stage(Ok, c.(op := Lookup(t.arg.value).value, haveOp := true))
      else Stage(Usage, c.(haveOp := false))
    case 'a' =>
      if t.arg.Some? && Decimal.Parse(t.arg.value).Some? then Stage(Ok, c.(a := Decimal.Parse(t.arg.value).value, haveA := true))
      else Stage(Usage, c.(haveA := false))
    case 'b' =>
      if t.arg.Some? && Decimal.Parse(t.arg.value).Some? then Stage(Ok, c.(b := Decimal.Parse(t.arg.value).value, haveB := true))
      else Stage(Usage, c.(haveB := false))
    case _ => Stage(Usage, c)
  }

  /** A token the option loop gets past: a known operation name, or a valid integer operand. */
  predicate Accepted(t: Token) {
    t.arg.Some? &&
    ((t.flag == 'o' && Lookup(t.arg.value).Some?) ||
     ((t.flag == 'a' || t.flag == 'b') && Decimal.Parse(t.arg.value).Some?))
  }

  /** The effect of `parse` on a context: the tokens in order, stopping at the first one refused. */
  function ParseSpec(ts: seq<Token>, c: Context): (p: Stage)
    ensures p.rc != Math
    ensures p.rc == Ok <==> forall i :: 0 <= i < |ts| ==> Accepted(ts[i])
    ensures WellFormed(c) ==> WellFormed(p.c)
  {
    if ts == [] then Stage(Ok, c)
    else
      var p := Step(c, ts[0]);
      if p.rc != Ok then p
      else
        assert forall i :: 1 <= i < |ts| ==> ts[i] == ts[1..][i - 1];
        ParseSpec(ts[1..], p.c)
  }

  /** `parse`: the option loop over the tokens `getopt_long` yields. */
  method Parse(tokens: seq<Token>, c0: Context) returns (rc: ExitCode, c: Context)
    ensures Stage(rc, c) == ParseSpec(tokens, c0)
  {
    c := c0;
    var i := 0;
    while i < |tokens|
      invariant 0 <= i <= |tokens|
      invariant ParseSpec(tokens[i..], c) == ParseSpec(tokens, c0)
    {
      var t := tokens[i];
      assert tokens[i..][1..] == tokens[i + 1..];
      match t.flag {
        case 'o' =>
          var ok, op := ParseOp(t.arg, c.op);
          c := c.(op := op, haveOp := ok);
          if !ok {
            return Usage, c;
          }
        case 'a' =>
          var ok, a := Decimal.ParseI64(t.arg, c.a);
          c := c.(a := a, haveA := ok);
          if !ok {
            return Usage, c;
          }
        case 'b' =>
          var ok, b := Decimal.ParseI64(t.arg, c.b);
          c := c.(b := b, haveB := ok);
          if !ok {
            return Usage, c;
          }
        case _ =>
          // -h, and every option getopt_long does not recognise: the help text, then usage
          return Usage, c;
      }
      i := i + 1;
    }
    return Ok, c;
  }

  /** An operation is present with operand a, and operand b exactly when the operation takes one. */
  predicate ArityOk(c: Context) {
    c.haveOp && c.haveA && c.haveB == NeedsB(c.op)
  }

  /** A negative exponent for pow, or a negative operand for fact. */
  predicate DomainError(c: Context) {
    (c.op == Pow && c.b < 0) || (c.op == Fact && c.a < 0)
  }

  /** `check`: usage for any arity error, otherwise math for a domain error, otherwise ok. */
  function Check(c: Context): (rc: ExitCode)
    ensures rc == Usage <==> !ArityOk(c)
    ensures rc == Math <==> ArityOk(c) && DomainError(c)
  {
    if !c.haveOp || !c.haveA then Usage
    else if !NeedsB(c.op) && c.haveB then Usage
    else if NeedsB(c.op) && !c.haveB then Usage
    else if c.op == Pow && c.b < 0 then Math
    else if c.op == Fact && c.a < 0 then Math
    else Ok
  }

  /** What a passed check guarantees to `calc`: a real operation, the right operands, exact casts. */
  lemma CheckOk(c: Context)
    requires WellFormed(c) && Check(c) == Ok
    ensures c.op != NoOp && c.haveOp && c.haveA && c.haveB == NeedsB(c.op)
    ensures c.op == Pow ==> 0 <= c.b && ToU64(c.b) == c.b
    ensures c.op == Fact ==> 0 <= c.a && ToU64(c.a) == c.a
  {
  }

  /** The library call `calc` makes for a real operation, with the conversions of its call site. */
  function Apply(ml: ML.Engine, c: Context): ML.MlResult
    requires c.op != NoOp
  {
    match c.op
    case Add => ml.add(c.a, c.b)
    case Sub => ml.sub(c.a, c.b)
    case Mul => ml.mul(c.a, c.b)
    case Div => ml.div(c.a, c.b)
    case Pow => ml.pow(c.a, ToU64(c.b))
    case Fact => ml.fact(ToU64(c.a))
  }

  /** The effect of `calc`: usage for no operation, otherwise the result stored and ok. */
  function CalcSpec(c: Context, ml: ML.Engine): (s: Stage)
    ensures s.rc == Usage <==> c.op == NoOp
    ensures s.rc != Math
    ensures s.c.(r := c.r) == c
    ensures s.rc == Usage ==> s.c == c
  {
    if c.op == NoOp then Stage(Usage, c) else Stage(Ok, c.(r := Apply(ml, c)))
  }

  /** `calc`: dispatches on the operation and assigns `c.r`. */
  method Calc(c: Context, ml: ML.Engine) returns (rc: ExitCode, c': Context)
    ensures Stage(rc, c') == CalcSpec(c, ml)
  {
    c' := c;
    match c.op {
      case Add => c' := c'.(r := ml.add(c.a, c.b));
      case Sub => c' := c'.(r := ml.sub(c.a, c.b));
      case Mul => c' := c'.(r := ml.mul(c.a, c.b));
      case Div => c' := c'.(r := ml.div(c.a, c.b));
      case Pow => c' := c'.(r := ml.pow(c.a, ToU64(c.b)));
      case Fact => c' := c'.(r := ml.fact(ToU64(c.a)));
      case NoOp => return Usage, c';
    }
    return Ok, c';
  }

  /** After a passed check, `calc` hands the library the operands exactly as parsed. */
  lemma CalcAfterCheck(c: Context, ml: ML.Engine)
    requires WellFormed(c) && Check(c) == Ok
    ensures CalcSpec(c, ml).rc == Ok
    ensures c.op == Pow ==> 0 <= c.b
    ensures c.op == Fact ==> 0 <= c.a
    ensures c.op == Pow ==> CalcSpec(c, ml).c.r == ml.pow(c.a, c.b)
    ensures c.op == Fact ==> CalcSpec(c, ml).c.r == ml.fact(c.a)
  {
    CheckOk(c);
  }

  /** `calc` reads operand b only for the operations that take one. */
  lemma CalcIgnoresB(c: Context, ml: ML.Engine, x: I64)
    requires !NeedsB(c.op)
    ensures CalcSpec(c.(b := x), ml).rc == CalcSpec(c, ml).rc
    ensures CalcSpec(c.(b := x), ml).c.r == CalcSpec(c, ml).c.r
  {
  }

  /** `print_math_err`: whatever the error, a math failure. */
  function PrintMathErr(where: string, e: ML.MlError): (rc: ExitCode)
    ensures rc == Math
  {
    Math
  }

  /** `print_result`: ok exactly when the library reported no error, math otherwise. */
  function PrintResult(r: ML.MlResult): (rc: ExitCode)
    ensures rc == Ok <==> r.error == ML.Ok
    ensures rc != Usage
  {
    if r.error != ML.Ok then PrintMathErr("calc", r.error) else Ok
  }

  /** `run`: the first stage that does not return ok decides; otherwise `print_result` does. */
  function RunSpec(tokens: seq<Token>, ml: ML.Engine): ExitCode {
    var p := ParseSpec(tokens, Initial);
    if p.rc != Ok then p.rc
    else
      var rc := Check(p.c);
      if rc != Ok then rc
      else
        var q := CalcSpec(p.c, ml);
        if q.rc != Ok then q.rc
        else PrintResult(q.c.r)
  }

  /** `run`, returning the process exit status. */
  method Run(tokens: seq<Token>, ml: ML.Engine) returns (status: int)
    ensures status == Status(RunSpec(tokens, ml))
  {
    var c := Initial;
    var rc;
    rc, c := Parse(tokens, c);
    if rc != Ok {
      return Status(rc);
    }
    rc := Check(c);
    if rc != Ok {
      return Status(rc);
    }
    rc, c := Calc(c, ml);
    if rc != Ok {
      return Status(rc);
    }
    return Status(PrintResult(c.r));
  }
}
