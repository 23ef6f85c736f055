/** What conditions mean, in plain logic, and how they group. */
module ConditionMeaning {
  import opened Wrappers
  import opened Conditions

  // ---------------------------------------------------------------- two-valued logic

  /** A row in which nothing is unknown. */
  datatype World = World(compare: (Comparison, string, string) -> bool, isNull: string -> bool, truth: string -> bool)

  function Known(b: bool): Truth { if b then True else False }

  function AsEnv(w: World): Env {
    Env((op, l, r) => Known(w.compare(op, l, r)), w.isNull, e => Known(w.truth(e)))
  }

  predicate HoldsOr(w: World, c: OrCondition) {
    match c case One(a) => HoldsAnd(w, a) case Or(l, r) => HoldsOr(w, l) || HoldsAnd(w, r)
  }

  predicate HoldsAnd(w: World, c: AndCondition) {
    match c case Single(n) => HoldsNot(w, n) case And(l, r) => HoldsAnd(w, l) && HoldsNot(w, r)
  }

  predicate HoldsNot(w: World, c: NotCondition) {
    match c case Plain(f) => HoldsFinal(w, f) case Not(f) => !HoldsFinal(w, f)
  }

  predicate HoldsFinal(w: World, c: Final) {
    match c
    case Paren(o) => HoldsOr(w, o)
    case Compare(op, l, r) => w.compare(op, l, r)
    case IsNull(e) => w.isNull(e)
    case IsNotNull(e) => !w.isNull(e)
    case Bare(e) => w.truth(e)
  }

  /** Where nothing is unknown, OR, AND and NOT are those of plain logic. */
  lemma {:induction false} OrIsPlain(w: World, c: OrCondition)
    ensures EvalOr(AsEnv(w), c) == Known(HoldsOr(w, c))
    decreases c, 3
  {
    match c
    case One(a) => AndIsPlain(w, a);
    case Or(l, r) =>
      OrIsPlain(w, l);
      AndIsPlain(w, r);
  }

  lemma {:induction false} AndIsPlain(w: World, c: AndCondition)
    ensures EvalAnd(AsEnv(w), c) == Known(HoldsAnd(w, c))
    decreases c, 2
  {
    match c
    case Single(n) => NotIsPlain(w, n);
    case And(l, r) =>
      AndIsPlain(w, l);
      NotIsPlain(w, r);
  }

  lemma {:induction false} NotIsPlain(w: World, c: NotCondition)
    ensures EvalNot(AsEnv(w), c) == Known(HoldsNot(w, c))
    decreases c, 1
  {
    match c
    case Plain(f) => FinalIsPlain(w, f);
    case Not(f) => FinalIsPlain(w, f);
  }

  lemma {:induction false} FinalIsPlain(w: World, c: Final)
    ensures EvalFinal(AsEnv(w), c) == Known(HoldsFinal(w, c))
    decreases c, 0
  {
    match c
    case Paren(o) => OrIsPlain(w, o);
    case _ =>
  }

  // ---------------------------------------------------------------- three-valued logic

  /** `b` is `a`, or what an unknown `a` turns out to be. */
  predicate Settles(a: Truth, b: Truth) { a.Unknown? || a == b }

  ghost predicate SettlesEnv(e: Env, f: Env) {
    && (forall op, l, r :: Settles(e.compare(op, l, r), f.compare(op, l, r)))
    && (forall x :: e.isNull(x) == f.isNull(x))
    && (forall x :: Settles(e.truth(x), f.truth(x)))
  }

  /** A truth value that is known stays, whatever the unknown ones turn out to be. */
  lemma {:induction false} OrSettles(e: Env, f: Env, c: OrCondition)
    requires SettlesEnv(e, f)
    ensures Settles(EvalOr(e, c), EvalOr(f, c))
    decreases c, 3
  {
    match c
    case One(a) => AndSettles(e, f, a);
    case Or(l, r) =>
      OrSettles(e, f, l);
      AndSettles(e, f, r);
  }

  lemma {:induction false} AndSettles(e: Env, f: Env, c: AndCondition)
    requires SettlesEnv(e, f)
    ensures Settles(EvalAnd(e, c), EvalAnd(f, c))
    decreases c, 2
  {
    match c
    case Single(n) => NotSettles(e, f, n);
    case And(l, r) =>
      AndSettles(e, f, l);
      NotSettles(e, f, r);
  }

  lemma {:induction false} NotSettles(e: Env, f: Env, c: NotCondition)
    requires SettlesEnv(e, f)
    ensures Settles(EvalNot(e, c), EvalNot(f, c))
    decreases c, 1
  {
    match c
    case Plain(x) => FinalSettles(e, f, x);
    case Not(x) => FinalSettles(e, f, x);
  }

  lemma {:induction false} FinalSettles(e: Env, f: Env, c: Final)
    requires SettlesEnv(e, f)
    ensures Settles(EvalFinal(e, c), EvalFinal(f, c))
    decreases c, 0
  {
    match c
    case Paren(o) => OrSettles(e, f, o);
    case _ =>
  }

  /** One known operand decides where either value of the other would give the same, and only there. */
  lemma UnknownDecides(a: Truth)
    ensures Disj(Unknown, a) == Disj(a, Unknown) == if a.True? then True else Unknown
    ensures Conj(Unknown, a) == Conj(a, Unknown) == if a.False? then False else Unknown
    ensures Neg(Unknown) == Unknown
  {}

  // ---------------------------------------------------------------- grouping

  function Atom(e: string): NotCondition { Plain(Bare(e)) }

  function AtomAnd(e: string): AndCondition { Single(Atom(e)) }

  lemma AtomYields(e: string)
    ensures YieldNot(Atom(e)) == [Expression(e)] && YieldAnd(AtomAnd(e)) == [Expression(e)]
    ensures YieldOr(One(AtomAnd(e))) == [Expression(e)] && YieldNot(Not(Bare(e))) == [NotWord, Expression(e)]
  {}

  lemma AndYields(l: AndCondition, e: string)
    ensures YieldAnd(And(l, Atom(e))) == YieldAnd(l) + [AndWord, Expression(e)]
    ensures YieldOr(One(And(l, Atom(e)))) == YieldAnd(l) + [AndWord, Expression(e)]
  {
    hide YieldNot;
    AtomYields(e);
  }

  lemma OrYields(l: OrCondition, r: AndCondition)
    ensures YieldOr(Or(l, r)) == YieldOr(l) + [OrWord] + YieldAnd(r)
  {}

  /** AND binds closer than OR and NOT closer than AND, and both group to the left. */
  lemma Grouping(a: string, b: string, c: string)
    ensures Parse([Expression(a), OrWord, Expression(b), AndWord, Expression(c)]) ==
            Some(Or(One(AtomAnd(a)), And(AtomAnd(b), Atom(c))))
    ensures Parse([Expression(a), AndWord, Expression(b), OrWord, Expression(c)]) ==
            Some(Or(One(And(AtomAnd(a), Atom(b))), AtomAnd(c)))
    ensures Parse([NotWord, Expression(a), AndWord, Expression(b)]) ==
            Some(One(And(Single(Not(Bare(a))), Atom(b))))
    ensures Parse([Expression(a), OrWord, Expression(b), OrWord, Expression(c)]) ==
            Some(Or(Or(One(AtomAnd(a)), AtomAnd(b)), AtomAnd(c)))
    ensures Parse([Expression(a), AndWord, Expression(b), AndWord, Expression(c)]) ==
            Some(One(And(And(AtomAnd(a), Atom(b)), Atom(c))))
  {
    hide Parse, YieldOr, YieldAnd, YieldNot, AtomAnd, Atom;
    AtomYields(a);
    AtomYields(b);
    AtomYields(c);
    AndYields(AtomAnd(a), b);
    AndYields(AtomAnd(b), c);
    AndYields(And(AtomAnd(a), Atom(b)), c);
    OrYields(One(AtomAnd(a)), AtomAnd(b));
    OrYields(One(AtomAnd(a)), And(AtomAnd(b), Atom(c)));
    OrYields(One(And(AtomAnd(a), Atom(b))), AtomAnd(c));
    OrYields(Or(One(AtomAnd(a)), AtomAnd(b)), AtomAnd(c));
    ParseDecidesGrammar([Expression(a), OrWord, Expression(b), AndWord, Expression(c)],
                        Or(One(AtomAnd(a)), And(AtomAnd(b), Atom(c))));
    ParseDecidesGrammar([Expression(a), AndWord, Expression(b), OrWord, Expression(c)],
                        Or(One(And(AtomAnd(a), Atom(b))), AtomAnd(c)));
    ParseDecidesGrammar([Expression(a), OrWord, Expression(b), OrWord, Expression(c)],
                        Or(Or(One(AtomAnd(a)), AtomAnd(b)), AtomAnd(c)));
    ParseDecidesGrammar([Expression(a), AndWord, Expression(b), AndWord, Expression(c)],
                        One(And(And(AtomAnd(a), Atom(b)), Atom(c))));
    NotGroups(a, b);
  }

  lemma FinalYields(f: Final)
    ensures YieldOr(One(Single(Plain(f)))) == YieldFinal(f)
  {
    assert YieldNot(Plain(f)) == YieldFinal(f);
    assert YieldAnd(Single(Plain(f))) == YieldNot(Plain(f));
    assert YieldOr(One(Single(Plain(f)))) == YieldAnd(Single(Plain(f)));
  }

  /** Comparisons, tests for NULL and parentheses. */
  lemma Forms(a: string, op: Comparison, b: string)
    ensures Parse([Expression(a), Operator(op), Expression(b)]) == Some(One(Single(Plain(Compare(op, a, b)))))
    ensures Parse([Expression(a), IsWord, NullWord]) == Some(One(Single(Plain(IsNull(a)))))
    ensures Parse([Expression(a), IsWord, NotWord, NullWord]) == Some(One(Single(Plain(IsNotNull(a)))))
    ensures Parse([LParen, Expression(a), RParen]) == Some(One(Single(Plain(Paren(One(AtomAnd(a)))))))
  {
    hide Parse, YieldOr;
    FinalYields(Compare(op, a, b));
    FinalYields(IsNull(a));
    FinalYields(IsNotNull(a));
    FinalYields(Paren(One(AtomAnd(a))));
    AtomYields(a);
    ParseDecidesGrammar([Expression(a), Operator(op), Expression(b)], One(Single(Plain(Compare(op, a, b)))));
    ParseDecidesGrammar([Expression(a), IsWord, NullWord], One(Single(Plain(IsNull(a)))));
    ParseDecidesGrammar([Expression(a), IsWord, NotWord, NullWord], One(Single(Plain(IsNotNull(a)))));
    ParseDecidesGrammar([LParen, Expression(a), RParen], One(Single(Plain(Paren(One(AtomAnd(a)))))));
  }

  lemma NotGroups(a: string, b: string)
    ensures Parse([NotWord, Expression(a), AndWord, Expression(b)]) ==
            Some(One(And(Single(Not(Bare(a))), Atom(b))))
  {
    hide Parse, YieldOr;
    AndYields(Single(Not(Bare(a))), b);
    AtomYields(a);
    assert YieldAnd(Single(Not(Bare(a)))) == [NotWord, Expression(a)];
    ParseDecidesGrammar([NotWord, Expression(a), AndWord, Expression(b)],
                        One(And(Single(Not(Bare(a))), Atom(b))));
  }
}
