/** Which tables a statement is reported to use. The grammar actions report a table when its reference
    is complete; a scanner that only looks at the token kinds, from left to right, finds the same ones. */
module TableEvents {
  import opened Wrappers
  import TableStats

  /** The tokens of a statement, as far as they matter here. `Lead` is one of the keywords in front of a
      statement that is no query, `Other` stands for operators, literals, and all keywords but those that
      open a clause. */
  datatype Tok =
    | SelectWord | FromWord | JoinWord | OnWord | UsingWord | UnionWord | ClauseWord
    | LParen | RParen | Comma | Dot | Name(name: string) | Other | Lead(word: string)

  // ---------------------------------------------------------------- derivations

  /** Expressions and conditions. `Leaf` is a literal, a number, NULL or a star; `Prefix`, `Postfix` and
      `Infix` add one operator or keyword, several of them the longer forms such as IS NOT NULL and CASE. */
  datatype Expr =
    | Leaf
    | Column(name: string)
    | Dotted(table: string, column: string)
    | Dotted3(db: string, table: string, column: string)
    | Prefix(e: Expr)
    | Postfix(e: Expr)
    | Infix(left: Expr, right: Expr)
    | Paren(e: Expr)
    | Call(callee: string, args: Args)
    | Function(args: Args)
    | Typed(e: Expr, comma: bool, words: seq<TypeWord>)
    | Scalar(select: Select)
    | Exists(union: Union)
    | InSelect(e: Expr, negated: bool, select: Select)
    | InList(e: Expr, negated: bool, values: Exprs)
    | Aliased(e: Expr, alias: Alias)

  /** What CAST and CONVERT make of an expression. */
  datatype TypeWord = Named(name: string) | Reserved

  /** The grammar lets a list of arguments start with a comma. */
  datatype Args = NoArgs | Args(comma: bool, list: Exprs)

  datatype Exprs = Single(e: Expr) | More(e: Expr, rest: Exprs)

  datatype Alias = NoAlias | As(alias: string) | Plain(alias: string)

  datatype Hints = NoHints | Hint(short: bool, index: string, others: seq<string>, rest: Hints)

  datatype TableRef =
    | Table(name: string, alias: Alias, hints: Hints)
    | Qualified(db: string, name: string, alias: Alias, hints: Hints)
    | ParenTable(name: string, alias: Alias, hints: Hints)
    | Subquery(union: Union, alias: Alias)
    | Nested(tables: TableList, alias: Alias)

  datatype TableList = TableList(first: TableRef, others: TableRefs, joins: Joins)
  datatype TableRefs = NoRefs | MoreRefs(ref: TableRef, rest: TableRefs)

  datatype Joins = NoJoins | MoreJoins(outer: bool, ref: TableRef, spec: JoinSpec, rest: Joins)
  datatype JoinSpec = On(condition: Expr) | Using(columns: Exprs)

  /** WHERE, GROUP BY, ORDER BY and LIMIT. */
  datatype Clauses = NoClauses | Clause(es: Exprs, rest: Clauses)

  datatype Select = Select(columns: Exprs, from: Option<TableList>, clauses: Clauses)

  datatype Union =
    | One(select: Select)
    | OneParen(select: Select)
    | Both(left: Union, all: bool, right: Select, paren: bool)
    | Wrapped(inner: Union)

  // ---------------------------------------------------------------- the token strings

  function Around(ts: seq<Tok>): seq<Tok> { [LParen] + ts + [RParen] }

  function ExprToks(x: Expr): seq<Tok> {
    match x
    case Leaf => [Other]
    case Column(n) => [Name(n)]
    case Dotted(t, c) => [Name(t), Dot, Name(c)]
    case Dotted3(d, t, c) => [Name(d), Dot, Name(t), Dot, Name(c)]
    case Prefix(e) => [Other] + ExprToks(e)
    case Postfix(e) => ExprToks(e) + [Other]
    case Infix(l, r) => ExprToks(l) + [Other] + ExprToks(r)
    case Paren(e) => Around(ExprToks(e))
    case Call(f, args) => [Name(f)] + Around(ArgsToks(args))
    case Function(args) => [Other] + Around(ArgsToks(args))
    case Typed(e, comma, words) => [Other] + Around(ExprToks(e) + [if comma then Comma else Other] + WordsToks(words))
    case Scalar(s) => Around(SelectToks(s))
    case Exists(u) => [Other] + Around(UnionToks(u))
    case InSelect(e, negated, s) => ExprToks(e) + InToks(negated) + Around(SelectToks(s))
    case InList(e, negated, vs) => ExprToks(e) + InToks(negated) + Around(ExprsToks(vs))
    case Aliased(e, a) => ExprToks(e) + AliasToks(a)
  }

  function InToks(negated: bool): seq<Tok> { if negated then [Other, Other] else [Other] }

  function WordsToks(ws: seq<TypeWord>): (ts: seq<Tok>)
    ensures forall t :: t in ts ==> t.Name? || t.Other?
  {
    if ws == [] then [] else [if ws[0].Named? then Name(ws[0].name) else Other] + WordsToks(ws[1..])
  }

  function ArgsToks(args: Args): seq<Tok> {
    match args case NoArgs => [] case Args(comma, es) => (if comma then [Comma] else []) + ExprsToks(es)
  }

  function ExprsToks(xs: Exprs): seq<Tok> {
    match xs
    case Single(e) => ExprToks(e)
    case More(e, rest) => ExprToks(e) + [Comma] + ExprsToks(rest)
  }

  function AliasToks(a: Alias): seq<Tok> {
    match a case NoAlias => [] case As(n) => [Other, Name(n)] case Plain(n) => [Name(n)]
  }

  function NamesToks(ns: seq<string>): seq<Tok> {
    if ns == [] then [] else [Comma, Name(ns[0])] + NamesToks(ns[1..])
  }

  function HintsToks(h: Hints): seq<Tok> {
    match h
    case NoHints => []
    case Hint(short, i, others, rest) =>
      (if short then [Other] else [Other, Other]) + Around([Name(i)] + NamesToks(others)) + HintsToks(rest)
  }

  function RefToks(r: TableRef): seq<Tok> {
    match r
    case Table(n, a, h) => [Name(n)] + AliasToks(a) + HintsToks(h)
    case Qualified(d, n, a, h) => [Name(d), Dot, Name(n)] + AliasToks(a) + HintsToks(h)
    case ParenTable(n, a, h) => Around([Name(n)]) + AliasToks(a) + HintsToks(h)
    case Subquery(u, a) => Around(UnionToks(u)) + AliasToks(a)
    case Nested(l, a) => Around(ListToks(l)) + AliasToks(a)
  }

  function ListToks(l: TableList): seq<Tok> { RefToks(l.first) + RefsToks(l.others) + JoinsToks(l.joins) }

  function RefsToks(rs: TableRefs): seq<Tok> {
    match rs case NoRefs => [] case MoreRefs(r, rest) => [Comma] + RefToks(r) + RefsToks(rest)
  }

  function JoinsToks(js: Joins): seq<Tok> {
    match js
    case NoJoins => []
    case MoreJoins(outer, r, spec, rest) =>
      (if outer then [Other] else []) + [JoinWord] + RefToks(r) + SpecToks(spec) + JoinsToks(rest)
  }

  function SpecToks(s: JoinSpec): seq<Tok> {
    match s case On(c) => [OnWord] + ExprToks(c) case Using(es) => [UsingWord] + Around(ExprsToks(es))
  }

  function ClausesToks(cs: Clauses): seq<Tok> {
    match cs case NoClauses => [] case Clause(es, rest) => [ClauseWord] + ExprsToks(es) + ClausesToks(rest)
  }

  function SelectToks(s: Select): seq<Tok> {
    [SelectWord] + ExprsToks(s.columns) +
    (match s.from case None => [] case Some(l) => [FromWord] + ListToks(l)) + ClausesToks(s.clauses)
  }

  function UnionToks(u: Union): seq<Tok> {
    match u
    case One(s) => SelectToks(s)
    case OneParen(s) => Around(SelectToks(s))
    case Both(l, all, r, p) =>
      UnionToks(l) + [UnionWord] + (if all then [Other] else []) +
      (if p then Around(SelectToks(r)) else SelectToks(r))
    case Wrapped(i) => Around(UnionToks(i))
  }

  // ---------------------------------------------------------------- what the actions report

  function ExprCalls(x: Expr): seq<string> {
    match x
    case Leaf => [] case Column(_) => [] case Dotted(_, _) => [] case Dotted3(_, _, _) => []
    case Prefix(e) => ExprCalls(e)
    case Postfix(e) => ExprCalls(e)
    case Infix(l, r) => ExprCalls(l) + ExprCalls(r)
    case Paren(e) => ExprCalls(e)
    case Call(_, args) => ArgsCalls(args)
    case Function(args) => ArgsCalls(args)
    case Typed(e, _, _) => ExprCalls(e)
    case Scalar(s) => SelectCalls(s)
    case Exists(u) => UnionCalls(u)
    case InSelect(e, _, s) => ExprCalls(e) + SelectCalls(s)
    case InList(e, _, vs) => ExprCalls(e) + ExprsCalls(vs)
    case Aliased(e, _) => ExprCalls(e)
  }

  function ArgsCalls(args: Args): seq<string> {
    match args case NoArgs => [] case Args(_, es) => ExprsCalls(es)
  }

  function ExprsCalls(xs: Exprs): seq<string> {
    match xs case Single(e) => ExprCalls(e) case More(e, rest) => ExprCalls(e) + ExprsCalls(rest)
  }

  /** Reported when the reference is reduced; everything inside was reduced before. */
  function RefCalls(r: TableRef): seq<string> {
    match r
    case Table(n, _, _) => [n]
    case Qualified(_, _, _, _) => []
    case ParenTable(n, _, _) => [n]
    case Subquery(u, _) => UnionCalls(u)
    case Nested(l, _) => ListCalls(l)
  }

  function ListCalls(l: TableList): seq<string> { RefCalls(l.first) + RefsCalls(l.others) + JoinsCalls(l.joins) }

  function RefsCalls(rs: TableRefs): seq<string> {
    match rs case NoRefs => [] case MoreRefs(r, rest) => RefCalls(r) + RefsCalls(rest)
  }

  function JoinsCalls(js: Joins): seq<string> {
    match js case NoJoins => [] case MoreJoins(_, r, spec, rest) => RefCalls(r) + SpecCalls(spec) + JoinsCalls(rest)
  }

  function SpecCalls(s: JoinSpec): seq<string> {
    match s case On(c) => ExprCalls(c) case Using(es) => ExprsCalls(es)
  }

  function ClausesCalls(cs: Clauses): seq<string> {
    match cs case NoClauses => [] case Clause(es, rest) => ExprsCalls(es) + ClausesCalls(rest)
  }

  function SelectCalls(s: Select): seq<string> {
    ExprsCalls(s.columns) + (match s.from case None => [] case Some(l) => ListCalls(l)) + ClausesCalls(s.clauses)
  }

  function UnionCalls(u: Union): seq<string> {
    match u
    case One(s) => SelectCalls(s)
    case OneParen(s) => SelectCalls(s)
    case Both(l, _, r, _) => UnionCalls(l) + SelectCalls(r)
    case Wrapped(i) => UnionCalls(i)
  }

  // ---------------------------------------------------------------- the scanner

  /** Where a scanner stands: among expressions, in a table list, or in a table list where a table is
      due. */
  datatype Place = InExpr | InTables | TableDue

  /** The names that stand where a table is due and that no dot follows. `outer` holds the places to go
      back to at each closing parenthesis. */
  function Scan(ts: seq<Tok>, place: Place, outer: seq<Place>): seq<string> {
    if ts == [] then []
    else
      var rest := ts[1..];
      match ts[0]
      case SelectWord => Scan(rest, InExpr, outer)
      case FromWord => Scan(rest, TableDue, outer)
      case JoinWord => Scan(rest, TableDue, outer)
      case OnWord => Scan(rest, InExpr, outer)
      case UsingWord => Scan(rest, InExpr, outer)
      case UnionWord => Scan(rest, InExpr, outer)
      case ClauseWord => Scan(rest, InExpr, outer)
      case Comma => Scan(rest, if place == InTables then TableDue else place, outer)
      case LParen =>
        Scan(rest, if place == TableDue then TableDue else InExpr,
             [if place == TableDue then InTables else place] + outer)
      case RParen => if outer == [] then [] else Scan(rest, outer[0], outer[1..])
      case Name(n) =>
        if place == TableDue then
          (if rest != [] && rest[0] == Dot then [] else [n]) + Scan(rest, InTables, outer)
        else Scan(rest, place, outer)
      case Dot => Scan(rest, place, outer)
      case Other => Scan(rest, place, outer)
      case Lead(_) => Scan(rest, place, outer)
  }

  /** The place does not matter for what comes next. */
  predicate Resets(ts: seq<Tok>) {
    ts != [] ==> ts[0].RParen? || ts[0].UnionWord? || ts[0].ClauseWord?
  }

  lemma ResetsFrom(ts: seq<Tok>, outer: seq<Place>)
    requires Resets(ts)
    ensures Scan(ts, InTables, outer) == Scan(ts, InExpr, outer)
  {}

  lemma ScanOne(t: Tok, rest: seq<Tok>, place: Place, outer: seq<Place>)
    ensures var s := Scan([t] + rest, place, outer);
            match t
            case Comma => s == Scan(rest, if place == InTables then TableDue else place, outer)
            case Dot => s == Scan(rest, place, outer)
            case Other => s == Scan(rest, place, outer)
            case Lead(_) => s == Scan(rest, place, outer)
            case LParen => s == Scan(rest, if place == TableDue then TableDue else InExpr,
                                     [if place == TableDue then InTables else place] + outer)
            case RParen => outer != [] ==> s == Scan(rest, outer[0], outer[1..])
            case Name(n) =>
              if place == TableDue then
                s == (if rest != [] && rest[0] == Dot then [] else [n]) + Scan(rest, InTables, outer)
              else s == Scan(rest, place, outer)
            case FromWord => s == Scan(rest, TableDue, outer)
            case JoinWord => s == Scan(rest, TableDue, outer)
            case _ => s == Scan(rest, InExpr, outer)
  {
    assert ([t] + rest)[1..] == rest;
  }

  predicate NotDot(ts: seq<Tok>) { ts != [] ==> ts[0] != Dot }

  // Each part of a derivation is scanned like this: its tables come out, and the scan goes on.

  /** Among expressions, names, dots, commas and operators are passed over. */
  lemma {:induction false} PlainScan(ts: seq<Tok>, rest: seq<Tok>, outer: seq<Place>)
    requires forall t :: t in ts ==> t.Name? || t.Other? || t.Dot? || t.Comma?
    ensures Scan(ts + rest, InExpr, outer) == Scan(rest, InExpr, outer)
  {
    hide Scan;
    if ts == [] {
      assert ts + rest == rest;
    } else {
      var t := ts[0];
      assert t in ts;
      PlainScan(ts[1..], rest, outer);
      ScanOne(t, ts[1..] + rest, InExpr, outer);
      assert ts + rest == [t] + (ts[1..] + rest);
    }
  }

  lemma {:induction false} ExprScan(x: Expr, rest: seq<Tok>, outer: seq<Place>)
    ensures Scan(ExprToks(x) + rest, InExpr, outer) == ExprCalls(x) + Scan(rest, InExpr, outer)
    decreases x
  {
    hide Scan, ExprsToks, AliasToks, NamesToks, HintsToks, RefToks, ListToks, RefsToks, JoinsToks, SpecToks,
         ClausesToks, SelectToks, UnionToks, ArgsToks, WordsToks, ExprsCalls, RefCalls, ListCalls, RefsCalls,
         JoinsCalls, SpecCalls, ClausesCalls, SelectCalls, UnionCalls, ArgsCalls;
    match x
    case Leaf =>
      PlainScan([Other], rest, outer);
      assert ExprCalls(x) + Scan(rest, InExpr, outer) == Scan(rest, InExpr, outer);
    case Column(n) =>
      PlainScan([Name(n)], rest, outer);
      assert ExprCalls(x) + Scan(rest, InExpr, outer) == Scan(rest, InExpr, outer);
    case Dotted(t, c) =>
      PlainScan([Name(t), Dot, Name(c)], rest, outer);
      assert ExprCalls(x) + Scan(rest, InExpr, outer) == Scan(rest, InExpr, outer);
    case Dotted3(d, t, c) =>
      PlainScan([Name(d), Dot, Name(t), Dot, Name(c)], rest, outer);
      assert ExprCalls(x) + Scan(rest, InExpr, outer) == Scan(rest, InExpr, outer);
    case Prefix(_) => OperatorScan(x, rest, outer);
    case Postfix(_) => OperatorScan(x, rest, outer);
    case Infix(_, _) => OperatorScan(x, rest, outer);
    case Aliased(_, _) => OperatorScan(x, rest, outer);
    case Call(_, _) => FunctionScan(x, rest, outer);
    case Function(_) => FunctionScan(x, rest, outer);
    case Typed(_, _, _) => FunctionScan(x, rest, outer);
    case InSelect(_, _, _) => InSelectScan(x, rest, outer);
    case InList(_, _, _) => InListScan(x, rest, outer);
    case _ => ParenthesisedScan(x, rest, outer);
  }

  lemma {:induction false} OperatorScan(x: Expr, rest: seq<Tok>, outer: seq<Place>)
    requires x.Prefix? || x.Postfix? || x.Infix? || x.Aliased?
    ensures Scan(ExprToks(x) + rest, InExpr, outer) == ExprCalls(x) + Scan(rest, InExpr, outer)
    decreases x, 0
  {
    hide Scan, ExprsToks, AliasToks, NamesToks, HintsToks, RefToks, ListToks, RefsToks, JoinsToks, SpecToks,
         ClausesToks, SelectToks, UnionToks, ArgsToks, WordsToks, ExprsCalls, RefCalls, ListCalls, RefsCalls,
         JoinsCalls, SpecCalls, ClausesCalls, SelectCalls, UnionCalls, ArgsCalls;
    match x
    case Prefix(e) =>
      ExprScan(e, rest, outer);
      ScanOne(Other, ExprToks(e) + rest, InExpr, outer);
      assert ExprToks(x) + rest == [Other] + (ExprToks(e) + rest);
    case Postfix(e) =>
      ScanOne(Other, rest, InExpr, outer);
      ExprScan(e, [Other] + rest, outer);
      assert ExprToks(x) + rest == ExprToks(e) + ([Other] + rest);
    case Infix(_, _) => InfixScan(x, rest, outer);
    case Aliased(e, a) =>
      AliasScan(a, rest, InExpr, outer);
      ExprScan(e, AliasToks(a) + rest, outer);
      assert ExprToks(x) + rest == ExprToks(e) + (AliasToks(a) + rest);
  }

  lemma {:induction false} InfixScan(x: Expr, rest: seq<Tok>, outer: seq<Place>)
    requires x.Infix?
    ensures Scan(ExprToks(x) + rest, InExpr, outer) == ExprCalls(x) + Scan(rest, InExpr, outer)
    decreases x, 0, 0
  {
    hide Scan, ExprsToks, AliasToks, NamesToks, HintsToks, RefToks, ListToks, RefsToks, JoinsToks, SpecToks,
         ClausesToks, SelectToks, UnionToks, ArgsToks, WordsToks, InToks, Around, ExprsCalls, RefCalls, ListCalls,
         RefsCalls, JoinsCalls, SpecCalls, ClausesCalls, SelectCalls, UnionCalls, ArgsCalls;
    var right := ExprToks(x.right) + rest;
    ExprScan(x.right, rest, outer);
    ScanOne(Other, right, InExpr, outer);
    ExprScan(x.left, [Other] + right, outer);
    assert ExprToks(x) + rest == ExprToks(x.left) + ([Other] + right);
  }

  lemma {:induction false} ArgsScan(args: Args, rest: seq<Tok>, outer: seq<Place>)
    ensures Scan(Around(ArgsToks(args)) + rest, InExpr, outer) == ArgsCalls(args) + Scan(rest, InExpr, outer)
    decreases args
  {
    hide Scan, ExprsToks, ExprsCalls, Around;
    AroundScan(ArgsToks(args), rest, InExpr, outer);
    match args
    case NoArgs => assert ArgsToks(args) + ([RParen] + rest) == [RParen] + rest;
    case Args(comma, es) =>
      var tail := ExprsToks(es) + ([RParen] + rest);
      ExprsScan(es, [RParen] + rest, [InExpr] + outer);
      PlainScan(if comma then [Comma] else [], tail, [InExpr] + outer);
      assert ArgsToks(args) + ([RParen] + rest) == (if comma then [Comma] else []) + tail;
  }

  lemma {:induction false} FunctionScan(x: Expr, rest: seq<Tok>, outer: seq<Place>)
    requires x.Call? || x.Function? || x.Typed?
    ensures Scan(ExprToks(x) + rest, InExpr, outer) == ExprCalls(x) + Scan(rest, InExpr, outer)
    decreases x, 0
  {
    hide Scan, ExprsToks, AliasToks, NamesToks, HintsToks, RefToks, ListToks, RefsToks, JoinsToks, SpecToks,
         ClausesToks, SelectToks, UnionToks, ArgsToks, WordsToks, ExprsCalls, RefCalls, ListCalls, RefsCalls,
         JoinsCalls, SpecCalls, ClausesCalls, SelectCalls, UnionCalls, ArgsCalls;
    match x
    case Call(f, args) =>
      ArgsScan(args, rest, outer);
      PlainScan([Name(f)], Around(ArgsToks(args)) + rest, outer);
      assert ExprToks(x) + rest == [Name(f)] + (Around(ArgsToks(args)) + rest);
    case Function(args) =>
      ArgsScan(args, rest, outer);
      PlainScan([Other], Around(ArgsToks(args)) + rest, outer);
      assert ExprToks(x) + rest == [Other] + (Around(ArgsToks(args)) + rest);
    case Typed(e, comma, words) =>
      var plain := [if comma then Comma else Other] + WordsToks(words);
      var inner := ExprToks(e) + [if comma then Comma else Other] + WordsToks(words);
      AroundScan(inner, rest, InExpr, outer);
      PlainScan(plain, [RParen] + rest, [InExpr] + outer);
      ExprScan(e, plain + ([RParen] + rest), [InExpr] + outer);
      assert inner + ([RParen] + rest) == ExprToks(e) + (plain + ([RParen] + rest));
      PlainScan([Other], Around(inner) + rest, outer);
      assert ExprToks(x) + rest == [Other] + (Around(inner) + rest);
  }

  lemma InWordsScan(negated: bool, rest: seq<Tok>, outer: seq<Place>)
    ensures Scan(InToks(negated) + rest, InExpr, outer) == Scan(rest, InExpr, outer)
  {
    hide Scan;
    PlainScan(InToks(negated), rest, outer);
  }

  lemma {:induction false} InSelectScan(x: Expr, rest: seq<Tok>, outer: seq<Place>)
    requires x.InSelect?
    ensures Scan(ExprToks(x) + rest, InExpr, outer) == ExprCalls(x) + Scan(rest, InExpr, outer)
    decreases x, 0
  {
    hide Scan, ExprsToks, AliasToks, NamesToks, HintsToks, RefToks, ListToks, RefsToks, JoinsToks, SpecToks,
         ClausesToks, SelectToks, UnionToks, ArgsToks, WordsToks, InToks, Around, ExprsCalls, RefCalls, ListCalls,
         RefsCalls, JoinsCalls, SpecCalls, ClausesCalls, SelectCalls, UnionCalls, ArgsCalls;
    var select := SelectToks(x.select);
    var tail := Around(select) + rest;
    AroundScan(select, rest, InExpr, outer);
    SelectScan(x.select, [RParen] + rest, InExpr, [InExpr] + outer);
    InWordsScan(x.negated, tail, outer);
    ExprScan(x.e, InToks(x.negated) + tail, outer);
    assert ExprToks(x) + rest == ExprToks(x.e) + (InToks(x.negated) + tail);
  }

  lemma {:induction false} InListScan(x: Expr, rest: seq<Tok>, outer: seq<Place>)
    requires x.InList?
    ensures Scan(ExprToks(x) + rest, InExpr, outer) == ExprCalls(x) + Scan(rest, InExpr, outer)
    decreases x, 0
  {
    hide Scan, ExprsToks, AliasToks, NamesToks, HintsToks, RefToks, ListToks, RefsToks, JoinsToks, SpecToks,
         ClausesToks, SelectToks, UnionToks, ArgsToks, WordsToks, InToks, Around, ExprsCalls, RefCalls, ListCalls,
         RefsCalls, JoinsCalls, SpecCalls, ClausesCalls, SelectCalls, UnionCalls, ArgsCalls;
    var values := ExprsToks(x.values);
    var tail := Around(values) + rest;
    AroundScan(values, rest, InExpr, outer);
    ExprsScan(x.values, [RParen] + rest, [InExpr] + outer);
    InWordsScan(x.negated, tail, outer);
    ExprScan(x.e, InToks(x.negated) + tail, outer);
    assert ExprToks(x) + rest == ExprToks(x.e) + (InToks(x.negated) + tail);
  }

  lemma {:induction false} ParenthesisedScan(x: Expr, rest: seq<Tok>, outer: seq<Place>)
    requires x.Paren? || x.Scalar? || x.Exists?
    ensures Scan(ExprToks(x) + rest, InExpr, outer) == ExprCalls(x) + Scan(rest, InExpr, outer)
    decreases x, 0
  {
    hide Scan, ExprsToks, AliasToks, NamesToks, HintsToks, RefToks, ListToks, RefsToks, JoinsToks, SpecToks,
         ClausesToks, SelectToks, UnionToks, ArgsToks, WordsToks, ExprsCalls, RefCalls, ListCalls, RefsCalls,
         JoinsCalls, SpecCalls, ClausesCalls, SelectCalls, UnionCalls, ArgsCalls;
    match x
    case Paren(e) =>
      AroundScan(ExprToks(e), rest, InExpr, outer);
      ExprScan(e, [RParen] + rest, [InExpr] + outer);
    case Scalar(s) =>
      AroundScan(SelectToks(s), rest, InExpr, outer);
      SelectScan(s, [RParen] + rest, InExpr, [InExpr] + outer);
    case Exists(u) =>
      AroundScan(UnionToks(u), rest, InExpr, outer);
      UnionScan(u, [RParen] + rest, InExpr, [InExpr] + outer);
      ScanOne(Other, Around(UnionToks(u)) + rest, InExpr, outer);
      assert ExprToks(x) + rest == [Other] + (Around(UnionToks(u)) + rest);
  }

  /** Into a parenthesis, and out of it again. */
  lemma AroundScan(ts: seq<Tok>, rest: seq<Tok>, place: Place, outer: seq<Place>)
    ensures var back := if place == TableDue then InTables else place;
            && Scan(Around(ts) + rest, place, outer) ==
               Scan(ts + ([RParen] + rest), if place == TableDue then TableDue else InExpr, [back] + outer)
            && (forall p :: Scan([RParen] + rest, p, [back] + outer) == Scan(rest, back, outer))
  {
    hide Scan;
    var back := if place == TableDue then InTables else place;
    ScanOne(LParen, ts + ([RParen] + rest), place, outer);
    assert Around(ts) + rest == [LParen] + (ts + ([RParen] + rest));
    forall p
      ensures Scan([RParen] + rest, p, [back] + outer) == Scan(rest, back, outer)
    {
      ScanOne(RParen, rest, p, [back] + outer);
      assert ([back] + outer)[1..] == outer;
    }
  }

  lemma {:induction false} ExprsScan(xs: Exprs, rest: seq<Tok>, outer: seq<Place>)
    ensures Scan(ExprsToks(xs) + rest, InExpr, outer) == ExprsCalls(xs) + Scan(rest, InExpr, outer)
    decreases xs
  {
    hide Scan, ExprToks, AliasToks, NamesToks, HintsToks, RefToks, ListToks, RefsToks, JoinsToks, SpecToks,
         ClausesToks, SelectToks, UnionToks, ExprCalls, RefCalls, ListCalls, RefsCalls, JoinsCalls, SpecCalls,
         ClausesCalls, SelectCalls, UnionCalls;
    match xs
    case Single(e) => ExprScan(e, rest, outer);
    case More(e, more) =>
      var tail := ExprsToks(more) + rest;
      ExprsScan(more, rest, outer);
      ScanOne(Comma, tail, InExpr, outer);
      ExprScan(e, [Comma] + tail, outer);
      assert ExprsToks(xs) + rest == ExprToks(e) + ([Comma] + tail);
  }

  lemma AliasScan(a: Alias, rest: seq<Tok>, place: Place, outer: seq<Place>)
    requires place != TableDue
    ensures Scan(AliasToks(a) + rest, place, outer) == Scan(rest, place, outer)
    ensures NotDot(rest) ==> NotDot(AliasToks(a) + rest)
  {
    hide Scan;
    match a
    case NoAlias => assert [] + rest == rest;
    case As(n) =>
      ScanOne(Name(n), rest, place, outer);
      ScanOne(Other, [Name(n)] + rest, place, outer);
      assert AliasToks(a) + rest == [Other] + ([Name(n)] + rest);
    case Plain(n) => ScanOne(Name(n), rest, place, outer);
  }

  lemma {:induction false} NamesScan(ns: seq<string>, rest: seq<Tok>, outer: seq<Place>)
    ensures Scan(NamesToks(ns) + rest, InExpr, outer) == Scan(rest, InExpr, outer)
  {
    hide Scan;
    if ns == [] {
      assert NamesToks(ns) + rest == rest;
    } else {
      var tail := NamesToks(ns[1..]) + rest;
      NamesScan(ns[1..], rest, outer);
      ScanOne(Name(ns[0]), tail, InExpr, outer);
      ScanOne(Comma, [Name(ns[0])] + tail, InExpr, outer);
      assert NamesToks(ns) + rest == [Comma] + ([Name(ns[0])] + tail);
    }
  }

  lemma {:induction false} HintsScan(h: Hints, rest: seq<Tok>, outer: seq<Place>)
    ensures Scan(HintsToks(h) + rest, InTables, outer) == Scan(rest, InTables, outer)
    ensures NotDot(rest) ==> NotDot(HintsToks(h) + rest)
  {
    hide Scan, Around, NamesToks;
    match h
    case NoHints => assert [] + rest == rest;
    case Hint(short, i, others, more) =>
      var tail := HintsToks(more) + rest;
      var names := [Name(i)] + NamesToks(others);
      var index := Around(names) + tail;
      HintsScan(more, rest, outer);
      IndexScan(i, others, tail, outer);
      ScanOne(Other, index, InTables, outer);
      ScanOne(Other, [Other] + index, InTables, outer);
      assert HintsToks(h) + rest == [Other] + (if short then index else [Other] + index);
  }

  lemma IndexScan(name: string, others: seq<string>, rest: seq<Tok>, outer: seq<Place>)
    ensures Scan(Around([Name(name)] + NamesToks(others)) + rest, InTables, outer) == Scan(rest, InTables, outer)
  {
    hide Scan;
    var names := [Name(name)] + NamesToks(others);
    var after := NamesToks(others) + ([RParen] + rest);
    AroundScan(names, rest, InTables, outer);
    NamesScan(others, [RParen] + rest, [InTables] + outer);
    ScanOne(Name(name), after, InExpr, [InTables] + outer);
    assert names + ([RParen] + rest) == [Name(name)] + after;
  }

  lemma {:induction false} RefScan(r: TableRef, rest: seq<Tok>, outer: seq<Place>)
    requires NotDot(rest)
    ensures Scan(RefToks(r) + rest, TableDue, outer) == RefCalls(r) + Scan(rest, InTables, outer)
    decreases r
  {
    hide Scan, ExprToks, ExprsToks, AliasToks, NamesToks, HintsToks, ListToks, RefsToks, JoinsToks, SpecToks,
         ClausesToks, SelectToks, UnionToks, ExprCalls, ExprsCalls, ListCalls, RefsCalls, JoinsCalls, SpecCalls,
         ClausesCalls, SelectCalls, UnionCalls;
    match r
    case Table(n, a, h) =>
      var tail := HintsToks(h) + rest;
      HintsScan(h, rest, outer);
      AliasScan(a, tail, InTables, outer);
      ScanOne(Name(n), AliasToks(a) + tail, TableDue, outer);
      assert RefToks(r) + rest == [Name(n)] + (AliasToks(a) + tail);
    case Qualified(d, n, a, h) =>
      var tail := AliasToks(a) + (HintsToks(h) + rest);
      HintsScan(h, rest, outer);
      AliasScan(a, HintsToks(h) + rest, InTables, outer);
      ScanOne(Name(n), tail, InTables, outer);
      ScanOne(Dot, [Name(n)] + tail, InTables, outer);
      ScanOne(Name(d), [Dot] + ([Name(n)] + tail), TableDue, outer);
      assert RefToks(r) + rest == [Name(d)] + ([Dot] + ([Name(n)] + tail));
    case ParenTable(n, a, h) =>
      var tail := AliasToks(a) + (HintsToks(h) + rest);
      HintsScan(h, rest, outer);
      AliasScan(a, HintsToks(h) + rest, InTables, outer);
      AroundScan([Name(n)], tail, TableDue, outer);
      ScanOne(Name(n), [RParen] + tail, TableDue, [InTables] + outer);
      assert RefToks(r) + rest == Around([Name(n)]) + tail;
    case Subquery(u, a) =>
      var tail := AliasToks(a) + rest;
      AliasScan(a, rest, InTables, outer);
      AroundScan(UnionToks(u), tail, TableDue, outer);
      UnionScan(u, [RParen] + tail, TableDue, [InTables] + outer);
      assert RefToks(r) + rest == Around(UnionToks(u)) + tail;
    case Nested(l, a) =>
      var tail := AliasToks(a) + rest;
      AliasScan(a, rest, InTables, outer);
      AroundScan(ListToks(l), tail, TableDue, outer);
      ListScan(l, [RParen] + tail, [InTables] + outer);
      assert RefToks(r) + rest == Around(ListToks(l)) + tail;
  }

  lemma {:induction false} RefsScan(rs: TableRefs, rest: seq<Tok>, outer: seq<Place>)
    requires NotDot(rest)
    ensures Scan(RefsToks(rs) + rest, InTables, outer) == RefsCalls(rs) + Scan(rest, InTables, outer)
    ensures NotDot(RefsToks(rs) + rest)
    decreases rs
  {
    hide Scan, ExprToks, ExprsToks, AliasToks, NamesToks, HintsToks, RefToks, ListToks, JoinsToks, SpecToks,
         ClausesToks, SelectToks, UnionToks, ExprCalls, ExprsCalls, RefCalls, ListCalls, JoinsCalls, SpecCalls,
         ClausesCalls, SelectCalls, UnionCalls;
    match rs
    case NoRefs => assert RefsToks(rs) + rest == rest;
    case MoreRefs(r, more) =>
      var tail := RefsToks(more) + rest;
      RefsScan(more, rest, outer);
      RefScan(r, tail, outer);
      ScanOne(Comma, RefToks(r) + tail, InTables, outer);
      assert RefsToks(rs) + rest == [Comma] + (RefToks(r) + tail);
  }

  lemma {:induction false} SpecScan(s: JoinSpec, rest: seq<Tok>, outer: seq<Place>)
    ensures Scan(SpecToks(s) + rest, InTables, outer) == SpecCalls(s) + Scan(rest, InExpr, outer)
    ensures NotDot(SpecToks(s) + rest)
    decreases s
  {
    hide Scan, ExprToks, ExprsToks, AliasToks, NamesToks, HintsToks, RefToks, ListToks, RefsToks, JoinsToks,
         ClausesToks, SelectToks, UnionToks, ExprCalls, ExprsCalls, RefCalls, ListCalls, RefsCalls, JoinsCalls,
         ClausesCalls, SelectCalls, UnionCalls;
    match s
    case On(c) =>
      ExprScan(c, rest, outer);
      ScanOne(OnWord, ExprToks(c) + rest, InTables, outer);
      assert SpecToks(s) + rest == [OnWord] + (ExprToks(c) + rest);
    case Using(es) =>
      AroundScan(ExprsToks(es), rest, InExpr, outer);
      ExprsScan(es, [RParen] + rest, [InExpr] + outer);
      ScanOne(UsingWord, Around(ExprsToks(es)) + rest, InTables, outer);
      assert SpecToks(s) + rest == [UsingWord] + (Around(ExprsToks(es)) + rest);
  }

  lemma {:induction false} JoinsScan(js: Joins, rest: seq<Tok>, place: Place, outer: seq<Place>)
    requires Resets(rest) && place != TableDue
    ensures Scan(JoinsToks(js) + rest, place, outer) == JoinsCalls(js) + Scan(rest, InExpr, outer)
    ensures NotDot(JoinsToks(js) + rest)
    decreases js
  {
    match js
    case NoJoins =>
      assert JoinsToks(js) + rest == rest;
      ResetsFrom(rest, outer);
    case MoreJoins(outerJoin, r, spec, more) => JoinScan(js, rest, place, outer);
  }

  lemma {:induction false} JoinScan(js: Joins, rest: seq<Tok>, place: Place, outer: seq<Place>)
    requires Resets(rest) && place != TableDue && js.MoreJoins?
    ensures Scan(JoinsToks(js) + rest, place, outer) == JoinsCalls(js) + Scan(rest, InExpr, outer)
    ensures NotDot(JoinsToks(js) + rest)
    decreases js, 0
  {
    hide Scan, JoinsToks, ExprToks, ExprsToks, RefToks, ListToks, RefsToks, SpecToks, ExprCalls, ExprsCalls, RefCalls,
         SpecCalls;
    var tail := JoinsToks(js.rest) + rest;
    var spec := SpecToks(js.spec) + tail;
    var ref := RefToks(js.ref) + spec;
    JoinsScan(js.rest, rest, InExpr, outer);
    SpecScan(js.spec, tail, outer);
    RefScan(js.ref, spec, outer);
    ScanOne(JoinWord, ref, place, outer);
    JoinToksSplit(js, rest);
    if js.outer {
      ScanOne(Other, [JoinWord] + ref, place, outer);
    }
  }

  lemma JoinToksSplit(js: Joins, rest: seq<Tok>)
    requires js.MoreJoins?
    ensures var join := [JoinWord] + (RefToks(js.ref) + (SpecToks(js.spec) + (JoinsToks(js.rest) + rest)));
            JoinsToks(js) + rest == if js.outer then [Other] + join else join
  {
    hide RefToks, SpecToks;
  }

  lemma {:induction false} ListScan(l: TableList, rest: seq<Tok>, outer: seq<Place>)
    requires Resets(rest)
    ensures Scan(ListToks(l) + rest, TableDue, outer) == ListCalls(l) + Scan(rest, InExpr, outer)
    decreases l
  {
    hide Scan, ExprToks, ExprsToks, AliasToks, NamesToks, HintsToks, RefToks, RefsToks, JoinsToks, SpecToks,
         ClausesToks, SelectToks, UnionToks, ExprCalls, ExprsCalls, RefCalls, RefsCalls, JoinsCalls, SpecCalls,
         ClausesCalls, SelectCalls, UnionCalls;
    var tail := JoinsToks(l.joins) + rest;
    JoinsScan(l.joins, rest, InTables, outer);
    RefsScan(l.others, tail, outer);
    RefScan(l.first, RefsToks(l.others) + tail, outer);
    assert ListToks(l) + rest == RefToks(l.first) + (RefsToks(l.others) + tail);
  }

  lemma {:induction false} ClausesScan(cs: Clauses, rest: seq<Tok>, outer: seq<Place>)
    requires Resets(rest)
    ensures Scan(ClausesToks(cs) + rest, InExpr, outer) == ClausesCalls(cs) + Scan(rest, InExpr, outer)
    ensures Resets(ClausesToks(cs) + rest)
    decreases cs
  {
    hide Scan, ExprToks, ExprsToks, AliasToks, NamesToks, HintsToks, RefToks, ListToks, RefsToks, JoinsToks,
         SpecToks, SelectToks, UnionToks, ExprCalls, ExprsCalls, RefCalls, ListCalls, RefsCalls, JoinsCalls,
         SpecCalls, SelectCalls, UnionCalls;
    match cs
    case NoClauses => assert ClausesToks(cs) + rest == rest;
    case Clause(es, more) =>
      var tail := ClausesToks(more) + rest;
      ClausesScan(more, rest, outer);
      ExprsScan(es, tail, outer);
      ScanOne(ClauseWord, ExprsToks(es) + tail, InExpr, outer);
      assert ClausesToks(cs) + rest == [ClauseWord] + (ExprsToks(es) + tail);
  }

  lemma {:induction false} SelectScan(s: Select, rest: seq<Tok>, place: Place, outer: seq<Place>)
    requires Resets(rest)
    ensures Scan(SelectToks(s) + rest, place, outer) == SelectCalls(s) + Scan(rest, InExpr, outer)
    decreases s, 0
  {
    hide Scan, ExprToks, ExprsToks, AliasToks, NamesToks, HintsToks, RefToks, ListToks, RefsToks, JoinsToks,
         SpecToks, ClausesToks, UnionToks, ExprCalls, ExprsCalls, RefCalls, ListCalls, RefsCalls, JoinsCalls,
         SpecCalls, ClausesCalls, UnionCalls;
    var clauses := ClausesToks(s.clauses) + rest;
    SelectToksSplit(s, rest);
    ClausesScan(s.clauses, rest, outer);
    if s.from.Some? {
      var list := ListToks(s.from.value) + clauses;
      ListScan(s.from.value, clauses, outer);
      ScanOne(FromWord, list, InExpr, outer);
      ExprsScan(s.columns, [FromWord] + list, outer);
      ScanOne(SelectWord, ExprsToks(s.columns) + ([FromWord] + list), place, outer);
    } else {
      ExprsScan(s.columns, clauses, outer);
      ScanOne(SelectWord, ExprsToks(s.columns) + clauses, place, outer);
    }
  }

  lemma SelectToksSplit(s: Select, rest: seq<Tok>)
    ensures var clauses := ClausesToks(s.clauses) + rest;
            SelectToks(s) + rest ==
            [SelectWord] + (ExprsToks(s.columns) +
                            if s.from.Some? then [FromWord] + (ListToks(s.from.value) + clauses) else clauses)
  {
    hide ExprsToks, ListToks, ClausesToks;
  }

  /** The scan of a query, wherever it stands, finds the tables its actions report, in their order. */
  lemma {:induction false} UnionScan(u: Union, rest: seq<Tok>, place: Place, outer: seq<Place>)
    requires Resets(rest)
    ensures Scan(UnionToks(u) + rest, place, outer) == UnionCalls(u) + Scan(rest, InExpr, outer)
    decreases u
  {
    hide Scan, ExprToks, ExprsToks, AliasToks, NamesToks, HintsToks, RefToks, ListToks, RefsToks, JoinsToks,
         SpecToks, ClausesToks, SelectToks, ExprCalls, ExprsCalls, RefCalls, ListCalls, RefsCalls, JoinsCalls,
         SpecCalls, ClausesCalls, SelectCalls;
    match u
    case One(s) => SelectScan(s, rest, place, outer);
    case OneParen(s) => ParenSelectScan(s, rest, place, outer);
    case Both(l, all, r, p) => BothScan(u, rest, place, outer);
    case Wrapped(i) =>
      var back := if place == TableDue then InTables else place;
      AroundScan(UnionToks(i), rest, place, outer);
      UnionScan(i, [RParen] + rest, if place == TableDue then TableDue else InExpr, [back] + outer);
      ResetsFrom(rest, outer);
  }

  lemma {:induction false} BothScan(u: Union, rest: seq<Tok>, place: Place, outer: seq<Place>)
    requires Resets(rest) && u.Both?
    ensures Scan(UnionToks(u) + rest, place, outer) == UnionCalls(u) + Scan(rest, InExpr, outer)
    decreases u, 0
  {
    hide Scan, ExprToks, ExprsToks, AliasToks, NamesToks, HintsToks, RefToks, ListToks, RefsToks, JoinsToks,
         SpecToks, ClausesToks, SelectToks, ExprCalls, ExprsCalls, RefCalls, ListCalls, RefsCalls, JoinsCalls,
         SpecCalls, ClausesCalls, SelectCalls, Around;
    var select := (if u.paren then Around(SelectToks(u.right)) else SelectToks(u.right)) + rest;
    var right := (if u.all then [Other] else []) + select;
    if u.paren {
      ParenSelectScan(u.right, rest, InExpr, outer);
    } else {
      SelectScan(u.right, rest, InExpr, outer);
    }
    PlainScan(if u.all then [Other] else [], select, outer);
    assert Scan(right, InExpr, outer) == SelectCalls(u.right) + Scan(rest, InExpr, outer);
    ScanOne(UnionWord, right, InExpr, outer);
    UnionScan(u.left, [UnionWord] + right, place, outer);
    assert UnionToks(u) + rest == UnionToks(u.left) + ([UnionWord] + right);
  }

  lemma {:induction false} ParenSelectScan(s: Select, rest: seq<Tok>, place: Place, outer: seq<Place>)
    requires Resets(rest)
    ensures Scan(Around(SelectToks(s)) + rest, place, outer) == SelectCalls(s) + Scan(rest, InExpr, outer)
    decreases s, 1
  {
    hide Scan, ExprToks, ExprsToks, AliasToks, NamesToks, HintsToks, RefToks, ListToks, RefsToks, JoinsToks,
         SpecToks, ClausesToks, SelectToks, UnionToks, ExprCalls, ExprsCalls, RefCalls, ListCalls, RefsCalls,
         JoinsCalls, SpecCalls, ClausesCalls, SelectCalls, UnionCalls;
    var back := if place == TableDue then InTables else place;
    AroundScan(SelectToks(s), rest, place, outer);
    SelectScan(s, [RParen] + rest, if place == TableDue then TableDue else InExpr, [back] + outer);
    ResetsFrom(rest, outer);
  }

  // ---------------------------------------------------------------- statements

  datatype Statement =
    | Query(union: Union, trailing: Clauses)
    | Insert(table: string, columns: Option<Exprs>, values: Exprs)
    | Update(table: string, settings: Exprs, condition: Option<Expr>)
    | Delete(table: string, condition: Option<Expr>)
    | Alter(table: string, action: AlterAction)
    | Show(words: seq<Tok>)

  datatype AlterAction =
    | AddColumn(column: string, kind: string)
    | DropColumn(column: string)
    | ChangeColumn(column: string, to: string, kind: string)

  function ConditionToks(c: Option<Expr>): seq<Tok> { if c.Some? then [ClauseWord] + ExprToks(c.value) else [] }

  /** The tokens of a query, or of the part of another statement behind its target. */
  function Behind(s: Statement): seq<Tok> {
    match s
    case Query(u, cs) => UnionToks(u) + ClausesToks(cs)
    case Insert(_, cols, vs) =>
      (if cols.Some? then Around(ExprsToks(cols.value)) else []) + [Other] + Around(ExprsToks(vs))
    case Update(_, es, c) => [Other] + ExprsToks(es) + ConditionToks(c)
    case Delete(_, c) => ConditionToks(c)
    case Alter(_, action) => [Other, Other] + ActionToks(action)
    case Show(_) => []
  }

  function ActionToks(a: AlterAction): seq<Tok> {
    match a
    case AddColumn(c, k) => [Name(c), Name(k)]
    case DropColumn(c) => [Name(c)]
    case ChangeColumn(c, t, k) => [Name(c), Name(t), Name(k)]
  }

  function Target(s: Statement): seq<(string, string)> {
    match s
    case Query(_, _) => []
    case Show(_) => []
    case Insert(t, _, _) => [("INSERT", t)]
    case Update(t, _, _) => [("UPDATE", t)]
    case Delete(t, _) => [("DELETE", t)]
    case Alter(t, _) => [("ALTER", t)]
  }

  function Nested(s: Statement): seq<string> {
    match s
    case Query(u, cs) => UnionCalls(u) + ClausesCalls(cs)
    case Insert(_, cols, vs) => (if cols.Some? then ExprsCalls(cols.value) else []) + ExprsCalls(vs)
    case Update(_, es, c) => ExprsCalls(es) + (if c.Some? then ExprCalls(c.value) else [])
    case Delete(_, c) => if c.Some? then ExprCalls(c.value) else []
    case Alter(_, _) => []
    case Show(_) => []
  }

  function Tagged(names: seq<string>): seq<(string, string)> {
    seq(|names|, i requires 0 <= i < |names| => ("SELECT", names[i]))
  }

  /** The calls of `handle_table`, type and name, for a statement that parses. */
  function Calls(s: Statement): seq<(string, string)> { Tagged(Nested(s)) + Target(s) }

  lemma ConditionScan(c: Option<Expr>)
    ensures Scan(ConditionToks(c), InExpr, []) == if c.Some? then ExprCalls(c.value) else []
  {
    if c.Some? {
      ExprScan(c.value, [], []);
      ScanOne(ClauseWord, ExprToks(c.value), InExpr, []);
      assert ExprToks(c.value) + [] == ExprToks(c.value);
    }
  }

  lemma InsertScan(s: Statement)
    requires s.Insert?
    ensures Scan(Behind(s), InExpr, []) == Nested(s)
  {
    hide Scan, ExprsToks, ExprsCalls, Around;
    var values := Around(ExprsToks(s.values));
    var inside := [InExpr] + [];
    NothingScans();
    AroundScan(ExprsToks(s.values), [], InExpr, []);
    ExprsScan(s.values, [RParen] + [], inside);
    ScanOne(Other, values, InExpr, []);
    assert values + [] == values;
    if s.columns.Some? {
      var rest := [Other] + values;
      AroundScan(ExprsToks(s.columns.value), rest, InExpr, []);
      ExprsScan(s.columns.value, [RParen] + rest, inside);
      assert Behind(s) == Around(ExprsToks(s.columns.value)) + rest;
    } else {
      assert Behind(s) == [Other] + values;
    }
  }

  lemma BehindScan(s: Statement)
    ensures Scan(Behind(s), InExpr, []) == Nested(s)
  {
    hide Scan, ExprToks, ExprsToks, UnionToks, ClausesToks, ConditionToks,
         ExprCalls, ExprsCalls, UnionCalls, ClausesCalls;
    NothingScans();
    match s
    case Query(u, cs) =>
      ClausesScan(cs, [], []);
      assert ClausesToks(cs) + [] == ClausesToks(cs);
      UnionScan(u, ClausesToks(cs), InExpr, []);
    case Insert(_, _, _) => InsertScan(s);
    case Update(_, es, c) =>
      ConditionScan(c);
      ExprsScan(es, ConditionToks(c), []);
      ScanOne(Other, ExprsToks(es) + ConditionToks(c), InExpr, []);
      assert Behind(s) == [Other] + (ExprsToks(es) + ConditionToks(c));
    case Delete(_, c) => ConditionScan(c);
    case Alter(_, _) =>
      PlainScan(Behind(s), [], []);
      assert Behind(s) + [] == Behind(s);
    case Show(_) =>
  }

  /** The tokens in front of the target. */
  function Front(s: Statement): seq<Tok> {
    match s
    case Insert(_, _, _) => [Lead("INSERT"), Lead("INTO")]
    case Update(_, _, _) => [Lead("UPDATE")]
    case Delete(_, _) => [Lead("DELETE"), FromWord]
    case Alter(_, _) => [Lead("ALTER"), Lead("TABLE")]
    case _ => []
  }

  /** The tokens of a whole statement. */
  function StatementToks(s: Statement): seq<Tok> {
    if s.Query? then Behind(s)
    else if s.Show? then [Lead("SHOW")] + s.words
    else Front(s) + [Name(s.table)] + Behind(s)
  }

  /** Where the first name stands. */
  function FirstName(ts: seq<Tok>): (k: nat)
    ensures k <= |ts| && (k < |ts| ==> ts[k].Name?) && forall i :: 0 <= i < k ==> !ts[i].Name?
  {
    if ts == [] || ts[0].Name? then 0 else 1 + FirstName(ts[1..])
  }

  /** What is reported for a statement, read off its tokens alone: the tables a scan finds, in a statement
      with a target behind that, and then the target under the word the statement begins with. The words
      of a SHOW are not looked at; a FROM among them names no table that is reported. */
  function Reported(ts: seq<Tok>): seq<(string, string)> {
    if ts == [] || !ts[0].Lead? then Tagged(Scan(ts, InExpr, []))
    else if ts[0].word == "SHOW" then []
    else
      var k := FirstName(ts);
      if k == |ts| then [] else Tagged(Scan(ts[k + 1..], InExpr, [])) + [(ts[0].word, ts[k].name)]
  }

  lemma FirstNameIs(ts: seq<Tok>, k: nat)
    requires k < |ts| && ts[k].Name? && forall i :: 0 <= i < k ==> !ts[i].Name?
    ensures FirstName(ts) == k
  {}

  lemma TargetIsReported(front: seq<Tok>, name: string, behind: seq<Tok>)
    requires front != [] && front[0].Lead? && front[0].word != "SHOW" && forall t :: t in front ==> !t.Name?
    ensures Reported(front + [Name(name)] + behind) ==
            Tagged(Scan(behind, InExpr, [])) + [(front[0].word, name)]
  {
    hide Scan, FirstName;
    var ts := front + [Name(name)] + behind;
    FirstNameIs(ts, |front|);
    assert ts[|front| + 1..] == behind;
  }

  lemma {:induction false} QueryHasNoLead(u: Union)
    ensures UnionToks(u) != [] && !UnionToks(u)[0].Lead?
  {
    match u
    case One(_) =>
    case OneParen(_) =>
    case Both(l, _, _, _) => QueryHasNoLead(l);
    case Wrapped(_) =>
  }

  /** The tables reported for a statement are exactly those a left-to-right look at its tokens finds in
      FROM and JOIN positions, once for each time they stand there and in that order, and then the
      target of a statement that has one, under its leading word. */
  lemma CallsAreScanned(s: Statement)
    ensures Calls(s) == Reported(StatementToks(s))
  {
    hide Scan, FirstName, Behind, Nested;
    BehindScan(s);
    if s.Query? {
      QueryBehind(s.union, s.trailing);
      assert Calls(s) == Tagged(Nested(s)) + [] == Tagged(Nested(s));
    } else if s.Show? {
      ShowReportsNothing(s);
    } else {
      TargetIsReported(Front(s), s.table, Behind(s));
    }
  }

  lemma ShowReportsNothing(s: Statement)
    requires s.Show?
    ensures Calls(s) == []
  {
    assert Tagged([]) == [];
  }

  lemma QueryBehind(u: Union, cs: Clauses)
    ensures Behind(Query(u, cs)) != [] && !Behind(Query(u, cs))[0].Lead?
  {
    hide UnionToks, ClausesToks;
    QueryHasNoLead(u);
  }

  /** A statement with a target reports it last and once; everything else it reports, and all that a query
      or SHOW does, is of type SELECT. */
  lemma TargetIsLast(s: Statement)
    ensures var calls, ts := Calls(s), StatementToks(s);
            if s.Query? || s.Show? then forall c :: c in calls ==> c.0 == "SELECT"
            else
              && ts[0].Lead? && ts[0].word in {"INSERT", "UPDATE", "DELETE", "ALTER"}
              && calls != [] && calls[|calls| - 1] == (ts[0].word, s.table)
              && forall i :: 0 <= i < |calls| - 1 ==> calls[i].0 == "SELECT"
  {
    hide Scan, Nested, Behind;
  }

  lemma NothingScans()
    ensures Scan([], InExpr, []) == []
  {}

  // ---------------------------------------------------------------- into the statistics

  /** What the calls add to the history of the table statistics. */
  function Recorded(calls: seq<(string, string)>, t: real): seq<((string, string), real)> {
    seq(|calls|, i requires 0 <= i < |calls| => ((TableStats.TableName(calls[i].1), calls[i].0), t))
  }

  lemma RecordedNext(calls: seq<(string, string)>, i: nat, t: real)
    requires i < |calls|
    ensures Recorded(calls[..i + 1], t) ==
            Recorded(calls[..i], t) + [((TableStats.TableName(calls[i].1), calls[i].0), t)]
  {
    hide TableStats.TableName;
  }

  /** `Table_parser::handle_table` for each call, in order. */
  method Report(calls: seq<(string, string)>, stats: TableStats.TableStats, t: real)
    requires stats.Valid()
    modifies stats
    ensures stats.Valid() && stats.history == old(stats.history) + Recorded(calls, t)
  {
    hide Recorded, TableStats.TableName, TableStats.TableStats.Valid;
    ghost var before := stats.history;
    NothingRecorded(t);
    assert calls[..0] == [] && before + [] == before;
    for i := 0 to |calls|
      invariant stats.Valid() && stats.history == before + Recorded(calls[..i], t)
    {
      stats.UpdateTable(calls[i].1, calls[i].0, t);
      RecordedNext(calls, i, t);
    }
    assert calls[..|calls|] == calls;
  }

  lemma NothingRecorded(t: real)
    ensures Recorded([], t) == []
  {}
}
