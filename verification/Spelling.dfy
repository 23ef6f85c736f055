/** How tokens are spelled, character by character, and that the lexer reads them back. */
module Spelling {
  import opened Wrappers
  import opened Lexer
  import opened Characters

  // ---------------------------------------------------------------- characters

  const SPACES := [' ', '\t', '\n', '\r', '\U{0B}', '\U{0C}']

  /** Characters with a meaning of their own. */
  const SPECIAL := [',', '*', '=', '<', '>', '!', '(', ')', ';', '.', '+', '-', '/', '@', '`', '\'', '#']

  /** Any other character starts a word, but only some go on with it. */
  predicate StartsWord(c: char) { c !in SPECIAL && c !in DIGITS && c !in SPACES }

  predicate InWord(c: char) { c in SMALL || c in CAPITAL || c in DIGITS || c == '_' || c == '$' }

  lemma Spaces(c: char)
    ensures c in SPACES <==> IsSpace(c)
  {}

  lemma Specials(c: char)
    ensures c in SPECIAL <==> IsSymbol(c) || c == '`' || c == '\'' || c == '#'
  {}

  /** The character classes of the lexer, by their members. */
  lemma Classes(c: char)
    ensures IsSpace(c) <==> c in SPACES
    ensures IsDigit(c) <==> c in DIGITS
    ensures IsWordChar(c) <==> InWord(c)
    ensures StartsWord(c) <==> !IsDigit(c) && !IsSpace(c) && !IsSymbol(c) && c != '`' && c != '\'' && c != '#'
    ensures c in SPACES ==> !IsWordChar(c) && !IsSymbol(c)
  {
    Smalls(c);
    Capitals(c);
    Digits(c);
    Spaces(c);
    Specials(c);
    if IsSpace(c) {
      assert c == ' ' || c == '\t' || c == '\n' || c == '\r' || c == '\U{0B}' || c == '\U{0C}';
    }
  }

  // ---------------------------------------------------------------- keywords

  /** The same letter, small or capital, or the same other character. */
  predicate SameLetter(a: char, b: char) {
    a == b || exists i :: 0 <= i < 26 && ((a == SMALL[i] && b == CAPITAL[i]) || (a == CAPITAL[i] && b == SMALL[i]))
  }

  predicate SameWord(v: string, w: string) {
    |v| == |w| && forall i :: 0 <= i < |v| ==> SameLetter(v[i], w[i])
  }

  predicate NoSmall(w: string) { forall i :: 0 <= i < |w| ==> w[i] !in SMALL }

  lemma CapitalOf(a: char, b: char)
    requires b !in SMALL
    ensures SameLetter(a, b) <==> (if 'a' <= a <= 'z' then a - 'a' + 'A' else a) == b
  {
    Smalls(b);
    forall i | 0 <= i < 26
      ensures SMALL[i] as int == 'a' as int + i && CAPITAL[i] as int == 'A' as int + i
    {
      SmallAt(i);
      CapitalAt(i);
    }
    if 'a' <= a <= 'z' {
      var i := a as int - 'a' as int;
      assert a == SMALL[i];
    }
  }

  lemma UpperIs(v: string, w: string)
    requires NoSmall(w)
    ensures Upper(v) == w <==> SameWord(v, w)
  {
    hide SameLetter;
    if |v| == |w| {
      forall i | 0 <= i < |v|
        ensures Upper(v)[i] == w[i] <==> SameLetter(v[i], w[i])
      {
        CapitalOf(v[i], w[i]);
      }
    }
  }

  /** The keyword tokens the grammar declares, line by line. */
  predicate IsTerminal(w: string) {
    || w in {"SELECT", "FROM", "WHERE", "JOIN", "ON", "INNER", "LEFT", "RIGHT", "UNION", "ALL", "AS", "USING"}
    || w in {"INSERT", "INTO", "VALUES", "UPDATE", "SET", "DELETE", "ALTER", "TABLE", "ADD", "COLUMN", "DROP",
             "CHANGE", "MODIFY", "SHOW"}
    || w in {"ORDER", "BY", "LIMIT", "GROUP", "NOT", "AND", "OR", "DESC", "IS", "NULL", "LIKE", "IN"}
    || w in {"CASE", "WHEN", "THEN", "ELSE", "END", "LEAST"}
    || w in {"CONVERT", "CAST", "UCASE", "LOCATE", "CONCAT", "SUBSTRING", "IF", "SIGNED", "UNSIGNED", "INTEGER"}
    || w in {"FORCE", "IGNORE", "KEY", "INDEX", "DISTINCT", "EXISTS"}
  }

  lemma KeywordsAreTerminals(w: string)
    ensures IsKeyword(w) <==> IsTerminal(w)
  {}

  lemma TerminalsAreCapital(w: string)
    requires IsTerminal(w)
    ensures NoSmall(w)
  {
    forall i | 0 <= i < |w| ensures w[i] !in SMALL {
      Smalls(w[i]);
    }
  }

  lemma UpperIsTerminal(w: string, t: string)
    requires IsTerminal(t)
    ensures Upper(w) == t <==> SameWord(w, t)
  {
    TerminalsAreCapital(t);
    UpperIs(w, t);
  }

  /** A word is a keyword exactly when it is one of them up to the case of its letters. */
  lemma WordKindExactly(w: string, k: string)
    ensures WordKind(w) == Keyword(k) <==> IsTerminal(k) && SameWord(w, k)
  {
    hide IsTerminal, SameWord, Upper;
    KeywordsAreTerminals(Upper(w));
    if IsTerminal(k) {
      UpperIsTerminal(w, k);
    }
    if Upper(w) == k && IsTerminal(k) {
      KeywordsAreTerminals(k);
    }
  }

  lemma IdentifierExactly(w: string)
    ensures WordKind(w) == Id <==> forall t :: IsTerminal(t) ==> !SameWord(w, t)
  {
    hide IsTerminal, SameWord, Upper, WordKind;
    KindOfWord(w);
    var u := Upper(w);
    if WordKind(w) == Id {
      forall t | IsTerminal(t) ensures !SameWord(w, t) {
        UpperIsTerminal(w, t);
        KeywordsAreTerminals(t);
      }
    } else {
      KeywordsAreTerminals(u);
      UpperIsTerminal(w, u);
    }
  }

  lemma KindOfWord(w: string)
    ensures WordKind(w) == if IsKeyword(Upper(w)) then Keyword(Upper(w)) else Id
  {}

  // ---------------------------------------------------------------- tokens

  /** What a token is written as. */
  datatype Piece =
    | Mark(mark: string)
    | Word(word: string)
    | Quote(text: string)
    | Tick(name: string)
    | Figure(whole: string, point: bool, fraction: string)

  /** The marks and operators with their kinds. */
  function MarkKind(mark: string): Option<Kind> {
    if mark == "," then Some(Comma)
    else if mark == "*" then Some(Star)
    else if mark == "=" then Some(Eq)
    else if mark == "<" then Some(Lt)
    else if mark == "<=" then Some(Le)
    else if mark == "<>" then Some(Ne2)
    else if mark == ">" then Some(Gt)
    else if mark == ">=" then Some(Ge)
    else if mark == "!=" then Some(Ne)
    else if mark == "(" then Some(LParen)
    else if mark == ")" then Some(RParen)
    else if mark == ";" then Some(Semicolon)
    else if mark == "." then Some(Dot)
    else if mark == "+" then Some(Plus)
    else if mark == "-" then Some(Minus)
    else if mark == "/" then Some(Div)
    else if mark == "@@" then Some(AtAt)
    else None
  }

  predicate AllDigits(s: string) { forall i :: 0 <= i < |s| ==> s[i] in DIGITS }

  /** A piece that can be written. */
  predicate WellSpelled(p: Piece) {
    match p
    case Mark(m) => MarkKind(m).Some?
    case Word(w) => w != "" && StartsWord(w[0]) && forall i :: 1 <= i < |w| ==> InWord(w[i])
    case Quote(t) => forall i :: 0 <= i < |t| ==> t[i] != '\'' && t[i] != '\n'
    case Tick(t) => forall i :: 0 <= i < |t| ==> t[i] != '`' && t[i] != '\n'
    case Figure(w, point, f) => w != "" && AllDigits(w) && AllDigits(f) && (f != "" ==> point)
  }

  function Spelled(p: Piece): string {
    match p
    case Mark(m) => m
    case Word(w) => w
    case Quote(t) => ['\''] + t + ['\'']
    case Tick(t) => ['`'] + t + ['`']
    case Figure(w, point, f) => if point then w + (['.'] + f) else w
  }

  /** The token is of the kind its spelling says. */
  ghost predicate KindFits(k: Kind, p: Piece) {
    match p
    case Mark(m) => MarkKind(m) == Some(k)
    case Word(w) =>
      if k.Keyword? then IsTerminal(k.word) && SameWord(w, k.word)
      else k == Id && forall t :: IsTerminal(t) ==> !SameWord(w, t)
    case Quote(_) => k == Literal
    case Tick(_) => k == Id
    case Figure(_, _, _) => k == Number
  }

  /** A white space character and what follows it. */
  predicate Spaced(r: string) { r != "" && r[0] in SPACES }

  lemma MarkIsToken(m: string, r: string)
    requires MarkKind(m).Some? && Spaced(r)
    ensures Lex(m + r) == (MarkKind(m).value, |m|)
  {
    hide QuoteLen, NumberLen, WordLen, WordKind, LineLen, CloseLen;
    var s := m + r;
    Spaces(r[0]);
    assert s[0] == m[0] && s[1] == if |m| > 1 then m[1] else r[0];
  }

  lemma WordLexes(s: string)
    requires s != "" && !IsSymbol(s[0]) && !IsDigit(s[0]) && !IsSpace(s[0])
    requires s[0] != '`' && s[0] != '\'' && s[0] != '#'
    ensures var n := 1 + WordLen(s[1..]); Lex(s) == (WordKind(s[..n]), n)
  {
    hide WordKind, WordLen, NumberLen, QuoteLen, LineLen, CloseLen;
  }

  lemma WordIsToken(w: string, r: string)
    requires WellSpelled(Word(w)) && Spaced(r)
    ensures Lex(w + r) == (WordKind(w), |w|)
  {
    hide WordKind, WordLen, Lex, InWord, StartsWord;
    var s := w + r;
    forall i | 1 <= i < |w| ensures IsWordChar(s[i]) {
      Classes(w[i]);
    }
    Classes(w[0]);
    Classes(r[0]);
    assert s[0] == w[0];
    assert s[1..][|w| - 1] == r[0];
    WordLenIs(s[1..], |w| - 1);
    assert s[..|w|] == w;
    WordLexes(s);
  }

  lemma QuotedIsToken(q: char, t: string, r: string)
    requires (q == '\'' || q == '`') && forall i :: 0 <= i < |t| ==> t[i] != q && t[i] != '\n'
    ensures Lex([q] + t + [q] + r) == (if q == '`' then Id else Literal, |t| + 2)
  {
    hide QuoteLen;
    var s := [q] + t + [q] + r;
    assert s[1..] == t + ([q] + r);
    QuoteLenIs(s[1..], q, |t|);
  }

  lemma DigitsAre(d: string, r: string)
    requires AllDigits(d) && (r != "" ==> !IsDigit(r[0]))
    ensures DigitsLen(d + r) == |d|
  {
    var s := d + r;
    forall i | 0 <= i < |d| ensures IsDigit(s[i]) {
      Digits(d[i]);
    }
    DigitsLenIs(s, |d|);
  }

  lemma DigitLexes(s: string)
    requires s != "" && IsDigit(s[0])
    ensures Lex(s) == (Number, NumberLen(s))
  {
    hide NumberLen, QuoteLen, WordLen, LineLen, CloseLen;
  }

  /** The digits behind the first one, and what follows them. */
  lemma WholePart(w: string, tail: string)
    requires w != "" && AllDigits(w) && (tail != "" ==> !IsDigit(tail[0]))
    ensures var s := w + tail; IsDigit(s[0]) && 1 + DigitsLen(s[1..]) == |w|
  {
    hide DigitsLen;
    Digits(w[0]);
    assert (w + tail)[1..] == w[1..] + tail;
    DigitsAre(w[1..], tail);
  }

  lemma FigureLen(w: string, point: bool, f: string, r: string)
    requires WellSpelled(Figure(w, point, f)) && Spaced(r)
    ensures var s := w + if point then ['.'] + (f + r) else r;
            IsDigit(s[0]) && NumberLen(s) == |w| + if point then 1 + |f| else 0
  {
    hide DigitsLen, NumberLen;
    Classes(r[0]);
    var tail := if point then ['.'] + (f + r) else r;
    var s := w + tail;
    WholePart(w, tail);
    NumberIs(s, |w|);
    assert s[|w|] == tail[0];
    if point {
      assert s[|w| + 1..] == f + r;
      DigitsAre(f, r);
    }
  }

  lemma FigureIsToken(w: string, point: bool, f: string, r: string)
    requires WellSpelled(Figure(w, point, f)) && Spaced(r)
    ensures Lex(Spelled(Figure(w, point, f)) + r) == (Number, |Spelled(Figure(w, point, f))|)
  {
    hide NumberLen, Lex, AllDigits, DigitsLen;
    var s := w + if point then ['.'] + (f + r) else r;
    FigureLen(w, point, f, r);
    DigitLexes(s);
    if point {
      Regrouped(w, f, r);
    }
  }

  lemma Regrouped(w: string, f: string, r: string)
    ensures w + (['.'] + f) + r == w + (['.'] + (f + r))
  {}

  lemma NumberIs(s: string, n: nat)
    requires s != "" && IsDigit(s[0]) && n == 1 + DigitsLen(s[1..])
    ensures n <= |s|
    ensures NumberLen(s) == if n < |s| && s[n] == '.' then n + 1 + DigitsLen(s[n + 1..]) else n
  {
    hide DigitsLen;
  }

  /** Each piece is one token of its kind, as long as white space follows it. */
  lemma PieceIsToken(p: Piece, r: string)
    requires WellSpelled(p) && Spaced(r)
    ensures KindFits(Lex(Spelled(p) + r).0, p) && Lex(Spelled(p) + r).1 == |Spelled(p)|
  {
    hide Lex, WordKind, IsTerminal, SameWord;
    match p
    case Mark(m) => MarkIsToken(m, r);
    case Word(w) =>
      WordIsToken(w, r);
      WordIsKind(w);
    case Quote(t) => QuotedIsToken('\'', t, r);
    case Tick(t) => QuotedIsToken('`', t, r);
    case Figure(w, point, f) => FigureIsToken(w, point, f, r);
  }

  lemma WordIsKind(w: string)
    ensures KindFits(WordKind(w), Word(w))
  {
    hide IsTerminal, SameWord;
    WordKindExactly(w, Upper(w));
    IdentifierExactly(w);
  }

  // ---------------------------------------------------------------- texts

  /** The pieces of a text, each with the white space character behind it. */
  function Text(ps: seq<(Piece, char)>): string {
    if ps == [] then "" else Spelled(ps[0].0) + [ps[0].1] + Text(ps[1..])
  }

  ghost predicate KindsFit(ks: seq<Kind>, ps: seq<(Piece, char)>) {
    |ks| == |ps| + 1 && ks[|ps|] == End && forall i :: 0 <= i < |ps| ==> KindFits(ks[i], ps[i].0)
  }

  /** A text written token by token, with white space between, is read back as these tokens, each of its
      kind, and nothing else. */
  lemma {:induction false} TextIsLexed(ps: seq<(Piece, char)>)
    requires forall i :: 0 <= i < |ps| ==> WellSpelled(ps[i].0) && ps[i].1 in SPACES
    ensures KindsFit(LexAll(Text(ps)), ps)
    decreases |ps|
  {
    hide Lex, KindFits, WellSpelled;
    if ps == [] {
      NothingLexed();
    } else {
      var p, c := ps[0].0, ps[0].1;
      var r := [c] + Text(ps[1..]);
      var s := Spelled(p) + r;
      assert Text(ps) == s;
      PieceIsToken(p, r);
      assert s[|Spelled(p)|..] == r;
      TokenGoesOn(p, Lex(s).0);
      SpaceInFront(c, Text(ps[1..]));
      TextIsLexed(ps[1..]);
      assert LexAll(s) == [Lex(s).0] + LexAll(Text(ps[1..]));
    }
  }

  lemma TokenGoesOn(p: Piece, k: Kind)
    requires KindFits(k, p)
    ensures !Stops(k)
  {
    hide IsTerminal, SameWord;
  }

  lemma NothingLexed()
    ensures LexAll("") == [End]
  {}

  lemma SpaceInFront(c: char, s: string)
    requires c in SPACES
    ensures LexAll([c] + s) == LexAll(s)
  {
    Spaces(c);
    assert [c][1..] == "";
    FillerInFront([c], s);
  }

  /** The string that goes with a token: what stands between the quotes, the name, the figure with its first
      digit doubled. */
  lemma TextOfPiece(p: Piece)
    requires WellSpelled(p)
    ensures match p
            case Mark(m) => TokenText(MarkKind(m).value, m) == ""
            case Word(w) => TokenText(WordKind(w), w) == if WordKind(w).Id? then w else ""
            case Quote(t) => TokenText(Literal, Spelled(p)) == t
            case Tick(t) => TokenText(Id, Spelled(p)) == t
            case Figure(w, _, _) => TokenText(Number, Spelled(p)) == [w[0]] + Spelled(p)
  {
    hide WordKind, MarkKind, TokenText, InWord, StartsWord, AllDigits;
    match p
    case Mark(m) => MarkHasNoText(m);
    case Word(w) =>
      Classes(w[0]);
      WordText(w);
    case Quote(t) => TextInside('\'', t, Literal);
    case Tick(t) => TextInside('`', t, Id);
    case Figure(w, point, f) =>
      FirstOf(w, if point then ['.'] + f else "");
      NumberText(Spelled(p));
  }

  lemma FirstOf(w: string, more: string)
    requires w != ""
    ensures (w + more)[0] == w[0]
  {}

  lemma MarkHasNoText(m: string)
    requires MarkKind(m).Some?
    ensures TokenText(MarkKind(m).value, m) == ""
  {}

  lemma TextInside(q: char, t: string, k: Kind)
    requires k == Literal || (k == Id && q == '`')
    ensures TokenText(k, [q] + t + [q]) == t
  {
    assert ([q] + t + [q])[1..|t| + 1] == t;
  }

  // ---------------------------------------------------------------- errors

  /** An exclamation mark or an at sign without its second character is an error. */
  lemma LoneMarkIsError(c: char, r: string)
    requires c == '!' || c == '@'
    requires r == "" || r[0] != if c == '!' then '=' else '@'
    ensures Lex([c] + r) == (Error, 1)
  {
    hide QuoteLen, NumberLen, WordLen, WordKind, LineLen, CloseLen;
    var s := [c] + r;
    assert s[0] == c && (|s| > 1 ==> s[1] == r[0]);
  }

  /** So is a quote that does not close before the end of its line or of the text. */
  lemma OpenQuoteIsError(q: char, t: string, r: string)
    requires (q == '\'' || q == '`') && (r == "" || r[0] == '\n')
    requires forall i :: 0 <= i < |t| ==> t[i] != q && t[i] != '\n'
    ensures Lex([q] + t + r).0 == Error
  {
    hide QuoteLen, NumberLen, WordLen, LineLen, CloseLen;
    var s := [q] + t + r;
    assert s[1..] == t + r;
    QuoteLenIs(s[1..], q, |t|);
  }

  // ---------------------------------------------------------------- comments

  lemma {:induction false} LineEnds(t: string, r: string)
    requires '\n' !in t
    ensures LineLen(t + ['\n'] + r) == Some(|t| + 1)
  {
    var s := t + ['\n'] + r;
    if t != "" {
      assert s[0] == t[0] && s[1..] == t[1..] + ['\n'] + r;
      LineEnds(t[1..], r);
    }
  }

  /** There is no end mark in `t`. */
  predicate StaysOpen(t: string) { forall i :: 0 < i < |t| ==> !(t[i - 1] == '*' && t[i] == '/') }

  lemma {:induction false} BlockEnds(t: string, r: string)
    requires StaysOpen(t)
    ensures CloseLen(t + ['*', '/'] + r) == Some(|t| + 2)
  {
    var s := t + ['*', '/'] + r;
    if t != "" {
      assert s[0] == t[0] && s[1] == (t + ['*'])[1];
      assert s[1..] == t[1..] + ['*', '/'] + r;
      BlockEnds(t[1..], r);
    }
  }

  /** Two dashes up to the end of the line, a `#` and the character behind it up to the end of the next
      line, and a block up to its first end mark are comments, and the lexer takes nothing else with
      them. */
  lemma CommentsAreSkipped(t: string, c: char, r: string)
    ensures '\n' !in t ==> Blank(['-', '-'] + (t + ['\n'] + r)) == Some(|t| + 3)
    ensures '\n' !in t ==> Blank(['#', c] + (t + ['\n'] + r)) == Some(|t| + 3)
    ensures StaysOpen(t) ==> Blank(['/', '*'] + (t + ['*', '/'] + r)) == Some(|t| + 4)
  {
    hide LineLen, CloseLen;
    if '\n' !in t {
      LineEnds(t, r);
      assert (['-', '-'] + (t + ['\n'] + r))[2..] == t + ['\n'] + r;
      assert (['#', c] + (t + ['\n'] + r))[2..] == t + ['\n'] + r;
    }
    if StaysOpen(t) {
      BlockEnds(t, r);
      assert (['/', '*'] + (t + ['*', '/'] + r))[2..] == t + ['*', '/'] + r;
    }
  }

  /** So a comment may stand wherever white space may. */
  lemma CommentIsFiller(t: string)
    ensures '\n' !in t ==> Filler(['-', '-'] + (t + ['\n'])) && Filler(['#', ' '] + (t + ['\n']))
    ensures StaysOpen(t) ==> Filler(['/', '*'] + (t + ['*', '/']))
  {
    hide Blank;
    CommentsAreSkipped(t, ' ', "");
    assert t + ['\n'] + "" == t + ['\n'] && t + ['*', '/'] + "" == t + ['*', '/'];
  }
}
