/** Properties of the front end that relate several stages or several calls. */
module CliProperties {
  import opened Ints
  import opened Wrappers
  import opened Operations
  import ML = MathLib
  import Decimal
  import opened Cli

  /** Tokens are taken left to right, and the first one refused ends the loop. */
  lemma {:induction false} ParseSplit(ts1: seq<Token>, ts2: seq<Token>, c: Context)
    ensures ParseSpec(ts1 + ts2, c) ==
      (var p := ParseSpec(ts1, c); if p.rc == Ok then ParseSpec(ts2, p.c) else p)
  {
    if ts1 == [] {
      assert ts1 + ts2 == ts2;
    } else {
      assert (ts1 + ts2)[0] == ts1[0];
      assert (ts1 + ts2)[1..] == ts1[1..] + ts2;
      var p := Step(c, ts1[0]);
      if p.rc == Ok {
        ParseSplit(ts1[1..], ts2, p.c);
      }
    }
  }

  /** The first refused token decides the outcome; the tokens after it are never looked at. */
  lemma ParseStopsAtFirstRefused(ts: seq<Token>, c: Context, i: nat)
    requires i < |ts| && !Accepted(ts[i])
    requires forall j :: 0 <= j < i ==> Accepted(ts[j])
    ensures ParseSpec(ts, c) == Step(ParseSpec(ts[..i], c).c, ts[i])
    ensures ParseSpec(ts, c).rc == Usage
  {
    assert ts == ts[..i] + ts[i..];
    ParseSplit(ts[..i], ts[i..], c);
    assert ts[i..][0] == ts[i];
  }

  /** The index of the last token carrying the given option character, or -1 when there is none. */
  function LastWith(ts: seq<Token>, flag: char): (k: int)
    ensures -1 <= k < |ts|
    ensures k >= 0 ==> ts[k].flag == flag
    ensures forall j :: k < j < |ts| ==> ts[j].flag != flag
  {
    if ts == [] then -1
    else if ts[|ts| - 1].flag == flag then |ts| - 1
    else LastWith(ts[..|ts| - 1], flag)
  }

  /*
   * A repeated -o, -a or -b overwrites the earlier one: after a successful parse each field
   * holds what its last option gave, and a field no option mentions keeps its value.
   */

  /** The operation is the one named by the last -o. */
  lemma {:induction false} ParseLastOp(ts: seq<Token>, c: Context)
    requires ParseSpec(ts, c).rc == Ok
    ensures LastWith(ts, 'o') == -1 ==>
      ParseSpec(ts, c).c.op == c.op && ParseSpec(ts, c).c.haveOp == c.haveOp
    ensures LastWith(ts, 'o') >= 0 ==>
      (ParseSpec(ts, c).c.haveOp && Some(ParseSpec(ts, c).c.op) == Lookup(ts[LastWith(ts, 'o')].arg.value))
  {
    if ts != [] {
      var init, last := ts[..|ts| - 1], ts[|ts| - 1];
      assert ts == init + [last];
      ParseSplit(init, [last], c);
      ParseLastOp(init, c);
      assert Accepted(ts[|ts| - 1]);
    }
  }

  /** Operand a is the value of the last -a. */
  lemma {:induction false} ParseLastA(ts: seq<Token>, c: Context)
    requires ParseSpec(ts, c).rc == Ok
    ensures LastWith(ts, 'a') == -1 ==>
      ParseSpec(ts, c).c.a == c.a && ParseSpec(ts, c).c.haveA == c.haveA
    ensures LastWith(ts, 'a') >= 0 ==>
      (ParseSpec(ts, c).c.haveA && Some(ParseSpec(ts, c).c.a) == Decimal.Parse(ts[LastWith(ts, 'a')].arg.value))
  {
    if ts != [] {
      var init, last := ts[..|ts| - 1], ts[|ts| - 1];
      assert ts == init + [last];
      ParseSplit(init, [last], c);
      ParseLastA(init, c);
      assert Accepted(ts[|ts| - 1]);
    }
  }

  /** Operand b is the value of the last -b. */
  lemma {:induction false} ParseLastB(ts: seq<Token>, c: Context)
    requires ParseSpec(ts, c).rc == Ok
    ensures LastWith(ts, 'b') == -1 ==>
      ParseSpec(ts, c).c.b == c.b && ParseSpec(ts, c).c.haveB == c.haveB
    ensures LastWith(ts, 'b') >= 0 ==>
      (ParseSpec(ts, c).c.haveB && Some(ParseSpec(ts, c).c.b) == Decimal.Parse(ts[LastWith(ts, 'b')].arg.value))
  {
    if ts != [] {
      var init, last := ts[..|ts| - 1], ts[|ts| - 1];
      assert ts == init + [last];
      ParseSplit(init, [last], c);
      ParseLastB(init, c);
      assert Accepted(ts[|ts| - 1]);
    }
  }

  /** -h, or any option other than -o, -a and -b, makes parse fail with usage. */
  lemma HelpIsUsage(ts: seq<Token>, c: Context, i: nat)
    requires i < |ts| && ts[i].flag != 'o' && ts[i].flag != 'a' && ts[i].flag != 'b'
    ensures ParseSpec(ts, c).rc == Usage
  {
  }

  /**
   * The exit code of `run`: usage exactly for a parse failure or an arity error; math for a
   * domain error or an error the library reports; ok exactly when the library succeeds.
   */
  lemma RunExitCodes(tokens: seq<Token>, ml: ML.Engine)
    ensures var p := ParseSpec(tokens, Initial);
      RunSpec(tokens, ml) == Usage <==> p.rc != Ok || !ArityOk(p.c)
    ensures var p := ParseSpec(tokens, Initial);
      p.rc == Ok && ArityOk(p.c) ==> p.c.op != NoOp
    ensures var p := ParseSpec(tokens, Initial);
      RunSpec(tokens, ml) == Math <==>
        p.rc == Ok && ArityOk(p.c) && (DomainError(p.c) || Apply(ml, p.c).error != ML.Ok)
    ensures var p := ParseSpec(tokens, Initial);
      RunSpec(tokens, ml) == Ok <==>
        p.rc == Ok && ArityOk(p.c) && !DomainError(p.c) && Apply(ml, p.c).error == ML.Ok
  {
    var p := ParseSpec(tokens, Initial);
    if p.rc == Ok && Check(p.c) == Ok {
      CalcAfterCheck(p.c, ml);
    }
  }

  /** Input errors are reported before any arithmetic: the library's behaviour cannot change them. */
  lemma InputErrorsBeforeEngine(tokens: seq<Token>, ml1: ML.Engine, ml2: ML.Engine)
    requires ParseSpec(tokens, Initial).rc != Ok || Check(ParseSpec(tokens, Initial).c) != Ok
    ensures RunSpec(tokens, ml1) == RunSpec(tokens, ml2)
    ensures RunSpec(tokens, ml1) != Ok
  {
  }

  /** `-o add -a 2 -b 3`: exit 0 when the library adds without error. */
  lemma AddScenario(ml: ML.Engine)
    requires ml.add(2, 3).error == ML.Ok
    ensures RunSpec([Token('o', Some("add")), Token('a', Some("2")), Token('b', Some("3"))], ml) == Ok
  {
    Decimal.ParseRender(2);
    Decimal.ParseRender(3);
    assert Decimal.Render(2) == "2" && Decimal.Render(3) == "3";
  }

  /** `-o pow -a 2 -b -1`: a math failure whatever the library does. */
  lemma PowNegativeScenario(ml: ML.Engine)
    ensures RunSpec([Token('o', Some("pow")), Token('a', Some("2")), Token('b', Some("-1"))], ml) == Math
  {
    Decimal.ParseRender(2);
    Decimal.ParseRender(-1);
    assert Decimal.Render(2) == "2" && Decimal.Render(-1) == "-1";
  }

  /** `-o div -a 7 -b 0`: exit 2 when the library reports division by zero. */
  lemma DivByZeroScenario(ml: ML.Engine)
    requires ml.div(7, 0).error == ML.Div0
    ensures RunSpec([Token('o', Some("div")), Token('a', Some("7")), Token('b', Some("0"))], ml) == Math
  {
    Decimal.ParseRender(7);
    Decimal.ParseRender(0);
    assert Decimal.Render(7) == "7" && Decimal.Render(0) == "0";
  }

  /** `-o fact -a 5`: exit 0 when the library computes the factorial without error. */
  lemma FactScenario(ml: ML.Engine)
    requires ml.fact(5).error == ML.Ok
    ensures RunSpec([Token('o', Some("fact")), Token('a', Some("5"))], ml) == Ok
  {
    Decimal.ParseRender(5);
    assert Decimal.Render(5) == "5";
  }

  /** `-o fact -a 5 -b 1`: an operand b for a unary operation is a usage failure. */
  lemma FactWithBScenario(ml: ML.Engine)
    ensures RunSpec([Token('o', Some("fact")), Token('a', Some("5")), Token('b', Some("1"))], ml) == Usage
  {
    Decimal.ParseRender(5);
    Decimal.ParseRender(1);
    assert Decimal.Render(5) == "5" && Decimal.Render(1) == "1";
  }

  /** `-o xor -a 1`: an unknown operation name is a usage failure. */
  lemma UnknownOpScenario(ml: ML.Engine)
    ensures RunSpec([Token('o', Some("xor")), Token('a', Some("1"))], ml) == Usage
  {
  }
}
