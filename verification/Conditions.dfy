/** Boolean conditions of the SQL grammar: what a WHERE, ON or WHEN condition is, the text the grammar
    actions print for it, and a parser of the same layered grammar. The printer puts parentheses of
    its own around every operand of OR, AND and NOT; the theorems say that this text is a condition
    again, and one that means the same. */
module Conditions {
  import opened Wrappers

  datatype Comparison = Eq | Ne | Ne2 | Gt | Lt | Ge | Le | Like

  /** The tokens of a condition. An expression, whatever its own structure, is one token here. */
  datatype Token =
    | LParen | RParen | OrWord | AndWord | NotWord | IsWord | NullWord
    | Operator(op: Comparison)
    | Expression(text: string)

  // One datatype per layer of the grammar, so that a tree is a derivation.
  datatype OrCondition = One(only: AndCondition) | Or(left: OrCondition, right: AndCondition)
  datatype AndCondition = Single(sole: NotCondition) | And(before: AndCondition, after: NotCondition)
  datatype NotCondition = Plain(base: Final) | Not(negated: Final)
  datatype Final =
    | Paren(inner: OrCondition)
    | Compare(op: Comparison, lhs: string, rhs: string)
    | IsNull(subject: string)
    | IsNotNull(subject: string)
    | Bare(expr: string)

  // ---- the token string a derivation derives ----

  function YieldOr(c: OrCondition): seq<Token> {
    match c
    case One(a) => YieldAnd(a)
    case Or(l, r) => YieldOr(l) + [OrWord] + YieldAnd(r)
  }

  function YieldAnd(c: AndCondition): seq<Token> {
    match c
    case Single(n) => YieldNot(n)
    case And(l, r) => YieldAnd(l) + [AndWord] + YieldNot(r)
  }

  function YieldNot(c: NotCondition): seq<Token> {
    match c
    case Plain(f) => YieldFinal(f)
    case Not(f) => [NotWord] + YieldFinal(f)
  }

  function YieldFinal(c: Final): seq<Token> {
    match c
    case Paren(o) => [LParen] + YieldOr(o) + [RParen]
    case Compare(op, l, r) => [Expression(l), Operator(op), Expression(r)]
    case IsNull(e) => [Expression(e), IsWord, NullWord]
    case IsNotNull(e) => [Expression(e), IsWord, NotWord, NullWord]
    case Bare(e) => [Expression(e)]
  }

  // ---- what the grammar actions print ----

  function PrintOr(c: OrCondition): seq<Token> {
    match c
    case One(a) => PrintAnd(a)
    case Or(l, r) => [LParen] + PrintOr(l) + [RParen, OrWord, LParen] + PrintAnd(r) + [RParen]
  }

  function PrintAnd(c: AndCondition): seq<Token> {
    match c
    case Single(n) => PrintNot(n)
    case And(l, r) => [LParen] + PrintAnd(l) + [RParen, AndWord, LParen] + PrintNot(r) + [RParen]
  }

  function PrintNot(c: NotCondition): seq<Token> {
    match c
    case Plain(f) => PrintFinal(f)
    case Not(f) => [NotWord, LParen] + PrintFinal(f) + [RParen]
  }

  function PrintFinal(c: Final): seq<Token> {
    match c
    case Paren(o) => [LParen] + PrintOr(o) + [RParen]
    case Compare(op, l, r) => [Expression(l), Operator(op), Expression(r)]
    case IsNull(e) => [Expression(e), IsWord, NullWord]
    case IsNotNull(e) => [Expression(e), IsWord, NotWord, NullWord]
    case Bare(e) => [Expression(e)]
  }

  // ---- meaning: the three-valued logic of SQL ----

  datatype Truth = False | Unknown | True

  function Conj(a: Truth, b: Truth): Truth {
    if a.False? || b.False? then False else if a.True? && b.True? then True else Unknown
  }

  function Disj(a: Truth, b: Truth): Truth {
    if a.True? || b.True? then True else if a.False? && b.False? then False else Unknown
  }

  function Neg(a: Truth): Truth {
    match a case True => False case False => True case Unknown => Unknown
  }

  /** What one row makes of expressions: the outcome of a comparison, whether an expression is NULL,
      and its truth value when it stands alone. */
  datatype Env = Env(compare: (Comparison, string, string) -> Truth, isNull: string -> bool, truth: string -> Truth)

  function EvalOr(env: Env, c: OrCondition): Truth {
    match c
    case One(a) => EvalAnd(env, a)
    case Or(l, r) => Disj(EvalOr(env, l), EvalAnd(env, r))
  }

  function EvalAnd(env: Env, c: AndCondition): Truth {
    match c
    case Single(n) => EvalNot(env, n)
    case And(l, r) => Conj(EvalAnd(env, l), EvalNot(env, r))
  }

  function EvalNot(env: Env, c: NotCondition): Truth {
    match c
    case Plain(f) => EvalFinal(env, f)
    case Not(f) => Neg(EvalFinal(env, f))
  }

  function EvalFinal(env: Env, c: Final): Truth {
    match c
    case Paren(o) => EvalOr(env, o)
    case Compare(op, l, r) => env.compare(op, l, r)
    case IsNull(e) => if env.isNull(e) then True else False
    case IsNotNull(e) => if env.isNull(e) then False else True
    case Bare(e) => env.truth(e)
  }

  // ---- a parser of the layered grammar ----

  /** The first symbol of `ts` is `t`. */
  predicate Starts(ts: seq<Token>, t: Token) { ts != [] && ts[0] == t }

  function ParseOr(ts: seq<Token>): (r: Option<(OrCondition, seq<Token>)>)
    ensures r.Some? ==> |r.value.1| < |ts|
    decreases |ts|, 3
  {
    match ParseAnd(ts)
    case None => None
    case Some((a, rest)) => OrRest(One(a), rest)
  }

  function OrRest(left: OrCondition, ts: seq<Token>): (r: Option<(OrCondition, seq<Token>)>)
    ensures r.Some? ==> |r.value.1| <= |ts|
    decreases |ts|, 3
  {
    if !Starts(ts, OrWord) then Some((left, ts))
    else match ParseAnd(ts[1..])
      case None => None
      case Some((a, rest)) => OrRest(Or(left, a), rest)
  }

  function ParseAnd(ts: seq<Token>): (r: Option<(AndCondition, seq<Token>)>)
    ensures r.Some? ==> |r.value.1| < |ts|
    decreases |ts|, 2
  {
    match ParseNot(ts)
    case None => None
    case Some((n, rest)) => AndRest(Single(n), rest)
  }

  function AndRest(left: AndCondition, ts: seq<Token>): (r: Option<(AndCondition, seq<Token>)>)
    ensures r.Some? ==> |r.value.1| <= |ts|
    decreases |ts|, 2
  {
    if !Starts(ts, AndWord) then Some((left, ts))
    else match ParseNot(ts[1..])
      case None => None
      case Some((n, rest)) => AndRest(And(left, n), rest)
  }

  function ParseNot(ts: seq<Token>): (r: Option<(NotCondition, seq<Token>)>)
    ensures r.Some? ==> |r.value.1| < |ts|
    decreases |ts|, 1
  {
    if Starts(ts, NotWord) then
      match ParseFinal(ts[1..])
      case None => None
      case Some((f, rest)) => Some((Not(f), rest))
    else
      match ParseFinal(ts)
      case None => None
      case Some((f, rest)) => Some((Plain(f), rest))
  }

  function ParseFinal(ts: seq<Token>): (r: Option<(Final, seq<Token>)>)
    ensures r.Some? ==> |r.value.1| < |ts|
    decreases |ts|, 0
  {
    if ts == [] then None
    else match ts[0]
      case LParen =>
        (match ParseOr(ts[1..])
         case None => None
         case Some((o, rest)) => if Starts(rest, RParen) then Some((Paren(o), rest[1..])) else None)
      case Expression(e) =>
        if |ts| > 1 && ts[1].Operator? then
          if |ts| > 2 && ts[2].Expression? then Some((Compare(ts[1].op, e, ts[2].text), ts[3..])) else None
        else if |ts| > 1 && ts[1].IsWord? then
          if |ts| > 2 && ts[2].NullWord? then Some((IsNull(e), ts[3..]))
          else if |ts| > 3 && ts[2].NotWord? && ts[3].NullWord? then Some((IsNotNull(e), ts[4..]))
          else None
        else Some((Bare(e), ts[1..]))
      case _ => None
  }

  /** A whole token string as a condition. */
  function Parse(ts: seq<Token>): Option<OrCondition> {
    match ParseOr(ts)
    case Some((o, rest)) => if rest == [] then Some(o) else None
    case None => None
  }

  // ---- the parser finds the derivation ----

  /** What may follow an expression without being read as part of a comparison. */
  predicate Ended(ts: seq<Token>) { ts != [] ==> !ts[0].Operator? && !ts[0].IsWord? }

  lemma {:induction false} FinalComplete(c: Final, rest: seq<Token>)
    requires Ended(rest)
    ensures ParseFinal(YieldFinal(c) + rest) == Some((c, rest))
    decreases c, 0
  {
    var ts := YieldFinal(c) + rest;
    match c
    case Paren(o) =>
      OrComplete(o, [RParen] + rest);
      assert ts[1..] == YieldOr(o) + ([RParen] + rest);
      assert ([RParen] + rest)[1..] == rest;
    case Compare(_, _, _) => assert ts[3..] == rest;
    case IsNull(_) => assert ts[3..] == rest;
    case IsNotNull(_) => assert ts[4..] == rest;
    case Bare(_) => assert ts[1..] == rest;
  }

  lemma {:induction false} NotComplete(c: NotCondition, rest: seq<Token>)
    requires Ended(rest)
    ensures ParseNot(YieldNot(c) + rest) == Some((c, rest))
    decreases c, 1
  {
    match c
    case Plain(f) => FinalComplete(f, rest);
    case Not(f) =>
      FinalComplete(f, rest);
      assert (YieldNot(c) + rest)[1..] == YieldFinal(f) + rest;
  }

  lemma {:induction false} AndComplete(c: AndCondition, rest: seq<Token>)
    requires Ended(rest)
    ensures ParseAnd(YieldAnd(c) + rest) == AndRest(c, rest)
    decreases c, 2
  {
    match c
    case Single(n) => NotComplete(n, rest);
    case And(l, r) =>
      var tail := [AndWord] + (YieldNot(r) + rest);
      AndComplete(l, tail);
      NotComplete(r, rest);
      assert YieldAnd(c) + rest == YieldAnd(l) + tail;
      assert tail[1..] == YieldNot(r) + rest;
  }

  lemma {:induction false} OrComplete(c: OrCondition, rest: seq<Token>)
    requires Ended(rest) && !Starts(rest, AndWord)
    ensures ParseOr(YieldOr(c) + rest) == OrRest(c, rest)
    decreases c, 3
  {
    match c
    case One(a) => AndComplete(a, rest);
    case Or(l, r) =>
      var tail := [OrWord] + (YieldAnd(r) + rest);
      OrComplete(l, tail);
      AndComplete(r, rest);
      assert YieldOr(c) + rest == YieldOr(l) + tail;
      assert tail[1..] == YieldAnd(r) + rest;
  }

  // ---- the parser finds nothing but derivations ----

  lemma {:induction false} FinalSound(ts: seq<Token>)
    requires ParseFinal(ts).Some?
    ensures var (c, rest) := ParseFinal(ts).value; ts == YieldFinal(c) + rest
    decreases |ts|, 0
  {
    if ts[0].LParen? {
      OrSound(ts[1..]);
    }
  }

  lemma {:induction false} NotSound(ts: seq<Token>)
    requires ParseNot(ts).Some?
    ensures var (c, rest) := ParseNot(ts).value; ts == YieldNot(c) + rest
    decreases |ts|, 1
  {
    if Starts(ts, NotWord) {
      FinalSound(ts[1..]);
    } else {
      FinalSound(ts);
    }
  }

  lemma {:induction false} AndSound(ts: seq<Token>)
    requires ParseAnd(ts).Some?
    ensures var (c, rest) := ParseAnd(ts).value; ts == YieldAnd(c) + rest
    decreases |ts|, 2
  {
    NotSound(ts);
    var (n, rest) := ParseNot(ts).value;
    AndRestSound(Single(n), rest);
  }

  lemma {:induction false} AndRestSound(left: AndCondition, ts: seq<Token>)
    requires AndRest(left, ts).Some?
    ensures var (c, rest) := AndRest(left, ts).value; YieldAnd(left) + ts == YieldAnd(c) + rest
    decreases |ts|, 2
  {
    if Starts(ts, AndWord) {
      NotSound(ts[1..]);
      var (n, rest) := ParseNot(ts[1..]).value;
      AndRestSound(And(left, n), rest);
      assert YieldAnd(left) + ts == YieldAnd(And(left, n)) + rest;
    }
  }

  lemma {:induction false} OrSound(ts: seq<Token>)
    requires ParseOr(ts).Some?
    ensures var (c, rest) := ParseOr(ts).value; ts == YieldOr(c) + rest
    decreases |ts|, 3
  {
    AndSound(ts);
    var (a, rest) := ParseAnd(ts).value;
    OrRestSound(One(a), rest);
  }

  lemma {:induction false} OrRestSound(left: OrCondition, ts: seq<Token>)
    requires OrRest(left, ts).Some?
    ensures var (c, rest) := OrRest(left, ts).value; YieldOr(left) + ts == YieldOr(c) + rest
    decreases |ts|, 3
  {
    if Starts(ts, OrWord) {
      AndSound(ts[1..]);
      var (a, rest) := ParseAnd(ts[1..]).value;
      OrRestSound(Or(left, a), rest);
      assert YieldOr(left) + ts == YieldOr(Or(left, a)) + rest;
    }
  }

  /** The layered grammar is unambiguous and the parser decides it: it accepts exactly the token
      strings some derivation derives, and returns that derivation. */
  lemma ParseDecidesGrammar(ts: seq<Token>, c: OrCondition)
    ensures Parse(ts) == Some(c) <==> ts == YieldOr(c)
  {
    if Parse(ts) == Some(c) {
      OrSound(ts);
    }
    if ts == YieldOr(c) {
      OrComplete(c, []);
      assert YieldOr(c) + [] == ts;
    }
  }

  // ---- printing and parsing again ----

  /** The derivation of the printed text: `c` with a parenthesis around every operand. */
  function NormOr(c: OrCondition): OrCondition {
    match c
    case One(a) => One(NormAnd(a))
    case Or(l, r) => Or(One(Wrap(NormOr(l))), Wrap(One(NormAnd(r))))
  }

  function NormAnd(c: AndCondition): AndCondition {
    match c
    case Single(n) => Single(NormNot(n))
    case And(l, r) => And(Wrap(One(NormAnd(l))), Plain(Paren(One(Single(NormNot(r))))))
  }

  function NormNot(c: NotCondition): NotCondition {
    match c
    case Plain(f) => Plain(NormFinal(f))
    case Not(f) => Not(Paren(One(Single(Plain(NormFinal(f))))))
  }

  function NormFinal(c: Final): Final {
    match c
    case Paren(o) => Paren(NormOr(o))
    case _ => c
  }

  /** A condition in parentheses, as an operand. */
  function Wrap(c: OrCondition): AndCondition { Single(Plain(Paren(c))) }

  lemma WrapYields(c: OrCondition)
    ensures YieldAnd(Wrap(c)) == [LParen] + YieldOr(c) + [RParen]
  {
    assert YieldNot(Plain(Paren(c))) == YieldFinal(Paren(c));
  }

  lemma WrapKeeps(env: Env, c: OrCondition)
    ensures EvalAnd(env, Wrap(c)) == EvalOr(env, c)
  {
    assert EvalNot(env, Plain(Paren(c))) == EvalFinal(env, Paren(c));
  }

  lemma {:induction false} PrintIsYieldOr(c: OrCondition)
    ensures PrintOr(c) == YieldOr(NormOr(c))
  {
    match c
    case One(a) => PrintIsYieldAnd(a);
    case Or(l, r) =>
      PrintIsYieldOr(l);
      PrintIsYieldAnd(r);
      WrapYields(NormOr(l));
      WrapYields(One(NormAnd(r)));
      assert YieldOr(One(Wrap(NormOr(l)))) == [LParen] + YieldOr(NormOr(l)) + [RParen];
      assert YieldOr(One(NormAnd(r))) == YieldAnd(NormAnd(r));
  }

  lemma {:induction false} PrintIsYieldAnd(c: AndCondition)
    ensures PrintAnd(c) == YieldAnd(NormAnd(c))
  {
    match c
    case Single(n) => PrintIsYieldNot(n);
    case And(l, r) =>
      PrintIsYieldAnd(l);
      PrintIsYieldNot(r);
      WrapYields(One(NormAnd(l)));
      WrapYields(One(Single(NormNot(r))));
      assert YieldOr(One(NormAnd(l))) == YieldAnd(NormAnd(l));
      assert YieldOr(One(Single(NormNot(r)))) == YieldNot(NormNot(r));
  }

  lemma {:induction false} PrintIsYieldNot(c: NotCondition)
    ensures PrintNot(c) == YieldNot(NormNot(c))
  {
    match c
    case Plain(f) => PrintIsYieldFinal(f);
    case Not(f) =>
      PrintIsYieldFinal(f);
      var n := NormFinal(f);
      assert YieldNot(Plain(n)) == YieldFinal(n);
      assert YieldOr(One(Single(Plain(n)))) == YieldAnd(Single(Plain(n)));
  }

  lemma {:induction false} PrintIsYieldFinal(c: Final)
    ensures PrintFinal(c) == YieldFinal(NormFinal(c))
  {
    if c.Paren? {
      PrintIsYieldOr(c.inner);
    }
  }

  lemma {:induction false} NormKeepsOr(env: Env, c: OrCondition)
    ensures EvalOr(env, NormOr(c)) == EvalOr(env, c)
  {
    match c
    case One(a) => NormKeepsAnd(env, a);
    case Or(l, r) =>
      NormKeepsOr(env, l);
      NormKeepsAnd(env, r);
      WrapKeeps(env, NormOr(l));
      WrapKeeps(env, One(NormAnd(r)));
      assert EvalOr(env, One(Wrap(NormOr(l)))) == EvalOr(env, NormOr(l));
      assert EvalOr(env, One(NormAnd(r))) == EvalAnd(env, NormAnd(r));
  }

  lemma {:induction false} NormKeepsAnd(env: Env, c: AndCondition)
    ensures EvalAnd(env, NormAnd(c)) == EvalAnd(env, c)
  {
    match c
    case Single(n) => NormKeepsNot(env, n);
    case And(l, r) =>
      NormKeepsAnd(env, l);
      NormKeepsNot(env, r);
      WrapKeeps(env, One(NormAnd(l)));
      WrapKeeps(env, One(Single(NormNot(r))));
      assert EvalOr(env, One(NormAnd(l))) == EvalAnd(env, NormAnd(l));
      assert EvalOr(env, One(Single(NormNot(r)))) == EvalNot(env, NormNot(r));
  }

  lemma {:induction false} NormKeepsNot(env: Env, c: NotCondition)
    ensures EvalNot(env, NormNot(c)) == EvalNot(env, c)
  {
    match c
    case Plain(f) => NormKeepsFinal(env, f);
    case Not(f) =>
      NormKeepsFinal(env, f);
      var n := NormFinal(f);
      assert EvalNot(env, Plain(n)) == EvalFinal(env, n);
      assert EvalOr(env, One(Single(Plain(n)))) == EvalAnd(env, Single(Plain(n)));
  }

  lemma {:induction false} NormKeepsFinal(env: Env, c: Final)
    ensures EvalFinal(env, NormFinal(c)) == EvalFinal(env, c)
  {
    if c.Paren? {
      NormKeepsOr(env, c.inner);
    }
  }

  /** The printed text of any condition parses, and as a condition with the same truth value on every
      row. */
  lemma PrintPreservesMeaning(c: OrCondition, env: Env)
    ensures Parse(PrintOr(c)).Some?
    ensures EvalOr(env, Parse(PrintOr(c)).value) == EvalOr(env, c)
  {
    PrintIsYieldOr(c);
    ParseDecidesGrammar(PrintOr(c), NormOr(c));
    NormKeepsOr(env, c);
  }

  /** Printing and parsing again, `n` times. */
  function Rounds(n: nat, c: OrCondition): Option<OrCondition> {
    if n == 0 then Some(c)
    else match Parse(PrintOr(c)) case None => None case Some(d) => Rounds(n - 1, d)
  }

  /** A condition survives any number of rounds, although its text grows with each. */
  lemma {:induction false} RoundsPreserveMeaning(n: nat, c: OrCondition, env: Env)
    ensures Rounds(n, c).Some?
    ensures EvalOr(env, Rounds(n, c).value) == EvalOr(env, c)
  {
    if n > 0 {
      PrintPreservesMeaning(c, env);
      RoundsPreserveMeaning(n - 1, Parse(PrintOr(c)).value, env);
    }
  }

  lemma {:induction false} NormOrInjective(c: OrCondition, d: OrCondition)
    requires NormOr(c) == NormOr(d)
    ensures c == d
  {
    match c
    case One(a) => NormAndInjective(a, d.only);
    case Or(l, r) =>
      NormOrInjective(l, d.left);
      NormAndInjective(r, d.right);
  }

  lemma {:induction false} NormAndInjective(c: AndCondition, d: AndCondition)
    requires NormAnd(c) == NormAnd(d)
    ensures c == d
  {
    match c
    case Single(n) => NormNotInjective(n, d.sole);
    case And(l, r) =>
      NormAndInjective(l, d.before);
      NormNotInjective(r, d.after);
  }

  lemma {:induction false} NormNotInjective(c: NotCondition, d: NotCondition)
    requires NormNot(c) == NormNot(d)
    ensures c == d
  {
    match c
    case Plain(f) => NormFinalInjective(f, d.base);
    case Not(f) => NormFinalInjective(f, d.negated);
  }

  lemma {:induction false} NormFinalInjective(c: Final, d: Final)
    requires NormFinal(c) == NormFinal(d)
    ensures c == d
  {
    if c.Paren? {
      NormOrInjective(c.inner, d.inner);
    }
  }

  /** The printed text identifies the condition: two conditions print alike only when they are one. */
  lemma PrintIsInjective(c: OrCondition, d: OrCondition)
    ensures PrintOr(c) == PrintOr(d) <==> c == d
  {
    if PrintOr(c) == PrintOr(d) {
      PrintIsYieldOr(c);
      PrintIsYieldOr(d);
      ParseDecidesGrammar(PrintOr(c), NormOr(c));
      ParseDecidesGrammar(PrintOr(c), NormOr(d));
      NormOrInjective(c, d);
    }
  }
}
