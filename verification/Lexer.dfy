/** The hand-written SQL lexer: what it makes of a text, as a function of the text that is left, and the
    method with its one-character pushback that computes it. */
module Lexer {
  import opened Wrappers

  /** Token kinds. A keyword is known by its upper-case spelling. */
  datatype Kind =
    | End | Error
    | Comma | Star | Eq | Lt | Le | Gt | Ge | Ne | Ne2 | LParen | RParen | Semicolon | Dot
    | Plus | Minus | Div | AtAt
    | Literal | Number | Id
    | Keyword(word: string)

  /** The words the lexer compares with, in the order it does. */
  predicate IsKeyword(w: string) {
    || w in {"SELECT", "FROM", "WHERE", "JOIN", "UNION", "ALL", "ON", "INNER", "LEFT", "RIGHT", "AS", "USING"}
    || w in {"ORDER", "BY", "LIMIT", "GROUP", "NOT", "DESC", "AND", "OR", "INSERT", "INTO", "VALUES", "UPDATE"}
    || w in {"SET", "DELETE", "ALTER", "TABLE", "ADD", "COLUMN", "DROP", "CHANGE", "MODIFY", "SHOW", "IS", "EXISTS"}
    || w in {"NULL", "LIKE", "CASE", "WHEN", "THEN", "ELSE", "END", "CONVERT", "CAST", "UCASE", "LOCATE", "CONCAT"}
    || w in {"SUBSTRING", "IF", "IN", "LEAST", "SIGNED", "UNSIGNED", "INTEGER", "INDEX", "IGNORE", "FORCE", "KEY"}
    || w in {"DISTINCT"}
  }

  // ---------------------------------------------------------------- characters

  predicate IsSpace(c: char) { c in " \t\n\r" || c == '\U{0B}' || c == '\U{0C}' }

  predicate IsDigit(c: char) { '0' <= c <= '9' }

  /** Characters that go on with a word. */
  predicate IsWordChar(c: char) { 'a' <= c <= 'z' || 'A' <= c <= 'Z' || IsDigit(c) || c == '_' || c == '$' }

  function Upper(s: string): string {
    seq(|s|, i requires 0 <= i < |s| => if 'a' <= s[i] <= 'z' then s[i] - 'a' + 'A' else s[i])
  }

  // ---------------------------------------------------------------- lexing, on values

  /** The length of the line at the front of `s`, with its newline. */
  function LineLen(s: string): (n: Option<nat>)
    ensures n.Some? ==> 0 < n.value <= |s|
  {
    if s == "" then None
    else if s[0] == '\n' then Some(1)
    else match LineLen(s[1..]) case None => None case Some(n) => Some(n + 1)
  }

  /** The length of the rest of a comment at the front of `s`, with its end mark. */
  function CloseLen(s: string): (n: Option<nat>)
    ensures n.Some? ==> 1 < n.value <= |s|
  {
    if |s| < 2 then None
    else if s[0] == '*' && s[1] == '/' then Some(2)
    else match CloseLen(s[1..]) case None => None case Some(n) => Some(n + 1)
  }

  /** The length of the rest of a quoted token at the front of `s`, with its closing quote, or what is
      read before the quote turns out to be missing. */
  function QuoteLen(s: string, q: char): (r: (bool, nat))
    ensures r.1 <= |s| && (r.0 ==> r.1 > 0)
  {
    if s == "" then (false, 0)
    else if s[0] == q && q != '\n' then (true, 1)
    else if s[0] == '\n' then (false, 1)
    else var (ok, n) := QuoteLen(s[1..], q); (ok, n + 1)
  }

  function DigitsLen(s: string): (n: nat)
    ensures n <= |s| && (n < |s| ==> !IsDigit(s[n]))
  {
    if s == "" || !IsDigit(s[0]) then 0 else 1 + DigitsLen(s[1..])
  }

  function WordLen(s: string): (n: nat)
    ensures n <= |s| && (n < |s| ==> !IsWordChar(s[n]))
  {
    if s == "" || !IsWordChar(s[0]) then 0 else 1 + WordLen(s[1..])
  }

  /** Digits, and a dot with further digits. */
  function NumberLen(s: string): (n: nat)
    requires s != "" && IsDigit(s[0])
    ensures 1 <= n <= |s|
  {
    var n := 1 + DigitsLen(s[1..]);
    if n < |s| && s[n] == '.' then n + 1 + DigitsLen(s[n + 1..]) else n
  }

  function WordKind(w: string): Kind { if IsKeyword(Upper(w)) then Keyword(Upper(w)) else Id }

  predicate Second(s: string, c: char) { |s| > 1 && s[1] == c }

  /** The token at the front of `s`, which starts with neither white space nor a comment. */
  function Token(s: string): (r: (Kind, nat))
    requires s != ""
    ensures 1 <= r.1 <= |s| && !r.0.End?
  {
    var c := s[0];
    if c == ',' then (Comma, 1)
    else if c == '*' then (Star, 1)
    else if c == '=' then (Eq, 1)
    else if c == '<' then (if Second(s, '=') then (Le, 2) else if Second(s, '>') then (Ne2, 2) else (Lt, 1))
    else if c == '>' then (if Second(s, '=') then (Ge, 2) else (Gt, 1))
    else if c == '!' then (if Second(s, '=') then (Ne, 2) else (Error, 1))
    else if c == '(' then (LParen, 1)
    else if c == ')' then (RParen, 1)
    else if c == ';' then (Semicolon, 1)
    else if c == '.' then (Dot, 1)
    else if c == '+' then (Plus, 1)
    else if c == '-' then (Minus, 1)
    else if c == '/' then (Div, 1)
    else if c == '@' then (if Second(s, '@') then (AtAt, 2) else (Error, 1))
    else if c == '`' then var (ok, n) := QuoteLen(s[1..], c); (if ok then Id else Error, n + 1)
    else if c == '\'' then var (ok, n) := QuoteLen(s[1..], c); (if ok then Literal else Error, n + 1)
    else if IsDigit(c) then (Number, NumberLen(s))
    else
      var n := 1 + WordLen(s[1..]);
      (WordKind(s[..n]), n)
  }

  /** The first two characters open a comment to the end of the line. A `#` takes whatever follows it. */
  predicate OpensLine(s: string) { s != "" && (s[0] == '#' || (s[0] == '-' && Second(s, '-'))) }

  predicate OpensBlock(s: string) { s != "" && s[0] == '/' && Second(s, '*') }

  /** `n` further characters were read in front. */
  function Shift(n: nat, r: (Kind, nat)): (Kind, nat) { (r.0, n + r.1) }

  /** The length of what the lexer skips at the front of `s`: one white space character, or one comment
      with its end. A `#` takes the next character along, whatever it is. */
  function Blank(s: string): (n: Option<nat>)
    ensures n.Some? ==> 0 < n.value <= |s|
  {
    if s == "" then None
    else if IsSpace(s[0]) then Some(1)
    else
      var n := if |s| == 1 then None
               else if OpensLine(s) then LineLen(s[2..])
               else if OpensBlock(s) then CloseLen(s[2..])
               else None;
      if n.Some? then Some(n.value + 2) else None
  }

  /** The next token of `s` and the number of characters read to find it. A comment to the end of the
      line may end with the text instead; a block comment may not. */
  function Lex(s: string): (r: (Kind, nat))
    ensures r.1 <= |s| && (!r.0.End? ==> r.1 > 0)
    decreases |s|
  {
    if s == "" then (End, 0)
    else match Blank(s)
      case Some(n) => Shift(n, Lex(s[n..]))
      case None => if OpensLine(s) then (End, |s|) else if OpensBlock(s) then (Error, |s|) else Token(s)
  }

  /** The parser asks for no more after these. */
  predicate Stops(k: Kind) { k.End? || k.Error? }

  /** The token kinds of a text. */
  function LexAll(s: string): seq<Kind>
    decreases |s|
  {
    var (k, n) := Lex(s);
    if Stops(k) then [k] else [k] + LexAll(s[n..])
  }

  // ---------------------------------------------------------------- token boundaries

  /** Text that ends every token it follows. */
  predicate Ends(t: string) { t == "" || IsSpace(t[0]) || t[0] == '/' || t[0] == '#' }

  lemma {:induction false} LineLenStable(a: string, t: string, u: string)
    requires LineLen(a + t).Some? && LineLen(a + t).value <= |a|
    ensures LineLen(a + u) == LineLen(a + t)
  {
    assert (a + t)[0] == a[0];
    if a[0] != '\n' {
      assert (a + t)[1..] == a[1..] + t && (a + u)[1..] == a[1..] + u;
      LineLenStable(a[1..], t, u);
    }
  }

  lemma {:induction false} CloseLenStable(a: string, t: string, u: string)
    requires CloseLen(a + t).Some? && CloseLen(a + t).value <= |a|
    ensures CloseLen(a + u) == CloseLen(a + t)
  {
    assert (a + t)[0] == a[0] && (a + t)[1] == a[1];
    if a[0] != '*' || a[1] != '/' {
      assert (a + t)[1..] == a[1..] + t && (a + u)[1..] == a[1..] + u;
      CloseLenStable(a[1..], t, u);
    }
  }

  lemma {:induction false} QuoteLenStable(a: string, t: string, u: string, q: char)
    requires QuoteLen(a + t, q) == (true, |a|)
    ensures QuoteLen(a + u, q) == (true, |a|)
  {
    assert (a + t)[0] == a[0];
    assert (a + t)[1..] == a[1..] + t && (a + u)[1..] == a[1..] + u;
    if a[0] != q && a[0] != '\n' {
      QuoteLenStable(a[1..], t, u, q);
    }
  }

  lemma {:induction false} DigitsLenSees(s: string)
    ensures forall k :: 0 <= k < DigitsLen(s) ==> IsDigit(s[k])
  {
    if s != "" && IsDigit(s[0]) {
      DigitsLenSees(s[1..]);
    }
  }

  lemma {:induction false} DigitsLenIs(s: string, n: nat)
    requires n <= |s| && (forall k :: 0 <= k < n ==> IsDigit(s[k])) && (n < |s| ==> !IsDigit(s[n]))
    ensures DigitsLen(s) == n
  {
    if n > 0 {
      DigitsLenIs(s[1..], n - 1);
    }
  }

  lemma {:induction false} WordLenStable(a: string, t: string, u: string)
    requires WordLen(a + t) == |a| && (u != "" ==> !IsWordChar(u[0]))
    ensures WordLen(a + u) == |a|
  {
    if a == "" {
      assert a + u == u;
    } else {
      assert (a + t)[1..] == a[1..] + t && (a + u)[1..] == a[1..] + u;
      WordLenStable(a[1..], t, u);
    }
  }

  /** After `a`, the text `u` looks to the lexer as `t` did, or ends every token. */
  predicate Follows(t: string, u: string) { Ends(u) || (t != "" && u != "" && u[0] == t[0]) }

  /** Digits at the front of `a`, up to a character of `a` or up to the end of `a`. */
  lemma DigitsStable(a: string, t: string, u: string, d: nat)
    requires DigitsLen(a + t) == d <= |a| && Follows(t, u)
    ensures DigitsLen(a + u) == d
  {
    hide DigitsLen;
    DigitsLenSees(a + t);
    assert forall k :: 0 <= k < d ==> (a + u)[k] == (a + t)[k];
    if d == |a| {
      assert t != "" ==> (a + t)[d] == t[0];
      assert u != "" ==> (a + u)[d] == u[0];
    } else {
      assert (a + u)[d] == (a + t)[d];
    }
    DigitsLenIs(a + u, d);
  }

  lemma NumberStable(a: string, t: string, u: string)
    requires a != "" && IsDigit(a[0]) && NumberLen(a + t) == |a| && Follows(t, u)
    ensures NumberLen(a + u) == |a|
  {
    hide DigitsLen;
    var s, r := a + t, a + u;
    var d := 1 + DigitsLen(s[1..]);
    assert s[1..] == a[1..] + t && r[1..] == a[1..] + u;
    DigitsStable(a[1..], t, u, d - 1);
    if d == |a| {
      assert t != "" ==> s[d] == t[0];
      assert u != "" ==> r[d] == u[0];
    } else {
      assert s[d] == a[d] == r[d];
      assert s[d + 1..] == a[d + 1..] + t && r[d + 1..] == a[d + 1..] + u;
      DigitsStable(a[d + 1..], t, u, |a| - d - 1);
    }
  }

  lemma WordStable(a: string, t: string, u: string)
    requires a != "" && 1 + WordLen((a + t)[1..]) == |a| && Follows(t, u)
    ensures 1 + WordLen((a + u)[1..]) == |a|
  {
    assert (a + t)[1..] == a[1..] + t && (a + u)[1..] == a[1..] + u;
    assert t != "" ==> (a[1..] + t)[|a| - 1] == t[0];
    WordLenStable(a[1..], t, u);
  }

  predicate IsSymbol(c: char) {
    || c == ',' || c == '*' || c == '=' || c == '<' || c == '>' || c == '!' || c == '(' || c == ')'
    || c == ';' || c == '.' || c == '+' || c == '-' || c == '/' || c == '@'
  }

  lemma TokenStable(a: string, t: string, u: string)
    requires a != "" && Follows(t, u) && Blank(a + t).None? && !OpensLine(a + t) && !OpensBlock(a + t)
    requires Token(a + t).1 == |a| && !Token(a + t).0.Error?
    ensures Token(a + u) == Token(a + t) && Blank(a + u).None? && !OpensLine(a + u) && !OpensBlock(a + u)
  {
    hide WordKind, QuoteLen, NumberLen, WordLen;
    var s, r := a + t, a + u;
    assert s[0] == a[0] == r[0];
    if |a| > 1 {
      assert s[1] == a[1] == r[1];
    } else {
      assert t != "" ==> s[1] == t[0];
      assert u != "" ==> r[1] == u[0];
    }
    var c := a[0];
    if c == '`' || c == '\'' {
      assert s[1..] == a[1..] + t && r[1..] == a[1..] + u;
      QuoteLenStable(a[1..], t, u, c);
    } else if IsDigit(c) {
      NumberStable(a, t, u);
    } else if !IsSymbol(c) {
      WordStable(a, t, u);
      assert s[..|a|] == a == r[..|a|];
    }
  }

  lemma BlankStable(a: string, t: string, u: string)
    requires Blank(a + t).Some? && Blank(a + t).value <= |a|
    ensures Blank(a + u) == Blank(a + t)
  {
    hide LineLen, CloseLen;
    var s, r := a + t, a + u;
    assert s[0] == a[0] == r[0];
    if !IsSpace(a[0]) {
      assert s[1] == a[1] == r[1];
      assert s[2..] == a[2..] + t && r[2..] == a[2..] + u;
      if OpensLine(s) {
        LineLenStable(a[2..], t, u);
      } else {
        CloseLenStable(a[2..], t, u);
      }
    }
  }

  /** The token at the front does not depend on what follows it, as long as that ends tokens too. */
  lemma {:induction false} LexStable(a: string, t: string, u: string)
    requires Lex(a + t).1 == |a| && !Lex(a + t).0.End? && !Lex(a + t).0.Error? && Follows(t, u)
    ensures Lex(a + u) == Lex(a + t)
    decreases |a|
  {
    hide Token, Follows, Blank, OpensLine, OpensBlock;
    var s, r := a + t, a + u;
    match Blank(s)
    case Some(n) =>
      BlankStable(a, t, u);
      assert s[n..] == a[n..] + t && r[n..] == a[n..] + u;
      LexStable(a[n..], t, u);
    case None => TokenStable(a, t, u);
  }

  /** White space and comments that end. */
  predicate Filler(w: string)
    decreases |w|
  {
    w == "" || (Blank(w).Some? && Filler(w[Blank(w).value..]))
  }

  lemma {:induction false} FillerSkipped(w: string, s: string)
    requires Filler(w)
    ensures Lex(w + s) == Shift(|w|, Lex(s))
    decreases |w|
  {
    hide Token, Blank;
    if w == "" {
      assert w + s == s;
    } else {
      var n := Blank(w).value;
      assert w + "" == w;
      BlankStable(w, "", s);
      assert (w + s)[n..] == w[n..] + s;
      FillerSkipped(w[n..], s);
    }
  }

  /** Position `i` of `s` is its start or the end of one of its tokens. */
  ghost predicate Boundary(s: string, i: nat)
    decreases |s|
  {
    i == 0 || (var (k, n) := Lex(s); !Stops(k) && n <= i && Boundary(s[n..], i - n))
  }

  lemma FillerInFront(w: string, s: string)
    requires Filler(w)
    ensures LexAll(w + s) == LexAll(s)
  {
    hide Lex;
    FillerSkipped(w, s);
    var n := Lex(s).1;
    assert (w + s)[|w| + n..] == s[n..];
  }

  /** White space and comments between tokens do not matter: put in at any token boundary, or taken out
      again, they leave the tokens as they are. */
  lemma {:induction false} FillerDoesNotMatter(s: string, i: nat, w: string)
    requires i <= |s| && Boundary(s, i) && Filler(w) && Ends(w)
    ensures LexAll(s[..i] + w + s[i..]) == LexAll(s)
    decreases |s|
  {
    hide Lex, Filler;
    var r := s[..i] + w + s[i..];
    if i == 0 {
      assert r == w + s;
      FillerInFront(w, s);
    } else if w == "" {
      assert r == s;
    } else {
      var n := Lex(s).1;
      var a, t := s[..n], s[n..];
      var u := t[..i - n] + w + t[i - n..];
      assert s == a + t && r == a + u;
      assert Follows(t, u);
      LexStable(a, t, u);
      FillerDoesNotMatter(t, i - n, w);
      assert r[n..] == u;
    }
  }

  // ---------------------------------------------------------------- the end of the text

  // Pushing back the end of the text steps back over its last character instead.

  /** Characters after which the lexer reads another one, and may push that back. */
  predicate LooksAhead(c: char) { c == '<' || c == '>' || c == '!' || c == '@' || c == '-' || c == '/' }

  /** How far the place moves over the token at the front of `s`. */
  function TokenMove(s: string): (n: nat)
    requires s != ""
    ensures n <= |s|
  {
    if |s| == 1 && LooksAhead(s[0]) then 0 else Token(s).1
  }

  /** How far one call of the lexer moves the place. */
  function Move(s: string): (n: nat)
    ensures n <= |s|
    decreases |s|
  {
    match Blank(s)
    case Some(n) => n + Move(s[n..])
    case None => if s == "" || OpensLine(s) || OpensBlock(s) then |s| else TokenMove(s)
  }

  /** The rest of a comment in which the loop stops moving. */
  predicate NeverCloses(s: string) { CloseLen(s).None? && s != "" && s[|s| - 1] == '*' }

  /** A call of the lexer on `s` does not return. */
  predicate Hangs(s: string)
    decreases |s|
  {
    match Blank(s)
    case Some(n) => Hangs(s[n..])
    case None => OpensBlock(s) && NeverCloses(s[2..])
  }

  datatype Progress = Ended | Running | Hung

  /** What the parser has seen after at most `n` calls: the end or an error, only tokens, or a call that
      does not return. */
  function After(s: string, n: nat): Progress {
    if n == 0 then Running
    else if Hangs(s) then Hung
    else if Stops(Lex(s).0) then Ended
    else After(s[Move(s)..], n - 1)
  }

  /** The kinds these calls give, when they all return. */
  function CallKinds(s: string, n: nat): seq<Kind> {
    if n == 0 then []
    else [Lex(s).0] + if Stops(Lex(s).0) then [] else CallKinds(s[Move(s)..], n - 1)
  }

  /** What becomes of the calls on `s`, as many as there may be. */
  function Fate(s: string): Progress
    decreases |s|
  {
    if Hangs(s) then Hung
    else if Stops(Lex(s).0) then Ended
    else if Move(s) == 0 then Running
    else Fate(s[Move(s)..])
  }

  /** The fate of a text is what the calls come to, after no more of them than the text has characters
      and one; before, there are only tokens. */
  lemma {:induction false} FateOfCalls(s: string, n: nat)
    ensures After(s, n) == Running || After(s, n) == Fate(s)
    ensures n > |s| ==> After(s, n) == Fate(s)
  {
    hide Hangs, Lex, Move;
    if n > 0 && !Hangs(s) && !Stops(Lex(s).0) {
      assert Move(s) == 0 ==> s[Move(s)..] == s;
      FateOfCalls(s[Move(s)..], n - 1);
    }
  }

  /** Operators of one character after which the lexer looks for a second one. */
  predicate Lone(k: Kind) { k.Lt? || k.Gt? || k.Minus? || k.Div? }

  predicate LoneCharacter(c: char) { c == '<' || c == '>' || c == '-' || c == '/' }

  lemma TokenMoves(s: string)
    requires s != "" && !Stops(Token(s).0)
    ensures Lone(Token(s).0) <==> LoneCharacter(s[0]) && Token(s).1 == 1
    ensures TokenMove(s) == if Token(s).1 == |s| && Lone(Token(s).0) then |s| - 1 else Token(s).1
  {
    hide QuoteLen, NumberLen, WordLen;
  }

  /** A token moves the place behind it, but for such an operator at the very end of the text. */
  lemma {:induction false} MoveIs(s: string)
    requires !Stops(Lex(s).0)
    ensures Move(s) == if Lex(s).1 == |s| && Lone(Lex(s).0) then |s| - 1 else Lex(s).1
    ensures Lex(s).1 == |s| && Lone(Lex(s).0) ==> LoneCharacter(s[|s| - 1])
    decreases |s|
  {
    hide Blank, Token, TokenMove;
    match Blank(s)
    case Some(n) => MoveIs(s[n..]);
    case None => TokenMoves(s);
  }

  /** The token behind position `i` is a lone operator and the end of the text. */
  ghost predicate OperatorEnds(s: string, i: nat) {
    i <= |s| && Boundary(s, i) && Lone(Lex(s[i..]).0) && i + Lex(s[i..]).1 == |s|
  }

  /** Behind position `i` the text ends in a comment that does not close, and with a star. */
  ghost predicate CommentEnds(s: string, i: nat) { i <= |s| && Boundary(s, i) && Hangs(s[i..]) }

  lemma {:induction false} HangIsError(s: string)
    requires Hangs(s)
    ensures s != "" && s[|s| - 1] == '*' && Lex(s).0.Error?
    decreases |s|
  {
    hide Token, Blank, CloseLen;
    match Blank(s)
    case Some(n) =>
      HangIsError(s[n..]);
      assert s[n..][|s| - n - 1] == s[|s| - 1];
    case None => assert s[2..][|s| - 3] == s[|s| - 1];
  }

  /** Where a text goes on behind its first token. */
  lemma EndsBehind(s: string, i: nat)
    requires !Stops(Lex(s).0)
    ensures OperatorEnds(s, i) <==>
              var n := Lex(s).1; if i == 0 then Lone(Lex(s).0) && n == |s| else n <= i && OperatorEnds(s[n..], i - n)
    ensures CommentEnds(s, i) <==> i > 0 && Lex(s).1 <= i && CommentEnds(s[Lex(s).1..], i - Lex(s).1)
  {
    hide Lex, Hangs;
    assert s[0..] == s;
    if Hangs(s) {
      HangIsError(s);
    }
    var n := Lex(s).1;
    if n <= i <= |s| {
      assert s[n..][i - n..] == s[i..];
    }
  }

  /** The calls go on without end exactly when the last token of the text is a lone operator and nothing
      follows it; a call does not return exactly when the text ends in a comment that does not close and
      with a star. On every other text the calls come to the end or to an error. */
  lemma {:induction false} FateExactly(s: string)
    ensures Fate(s).Running? <==> exists i :: OperatorEnds(s, i)
    ensures Fate(s).Hung? <==> exists i :: CommentEnds(s, i)
    decreases |s|
  {
    hide Lex, Hangs, Move, OperatorEnds, CommentEnds;
    var (k, n) := Lex(s);
    if Hangs(s) || Stops(k) {
      StoppedAtOnce(s);
    } else {
      MoveIs(s);
      forall i: nat
        ensures OperatorEnds(s, i) <==> if i == 0 then Lone(k) && n == |s| else n <= i && OperatorEnds(s[n..], i - n)
        ensures CommentEnds(s, i) <==> i > 0 && n <= i && CommentEnds(s[n..], i - n)
      {
        EndsBehind(s, i);
      }
      if n == |s| {
        LastToken(s);
        assert s[n..] == "" && (Lone(k) ==> OperatorEnds(s, 0));
      } else {
        FateExactly(s[n..]);
        forall i: nat | OperatorEnds(s[n..], i)
          ensures OperatorEnds(s, i + n)
        {
        }
        forall i: nat | CommentEnds(s[n..], i)
          ensures CommentEnds(s, i + n)
        {
        }
      }
    }
  }

  lemma StoppedAtOnce(s: string)
    requires Hangs(s) || Stops(Lex(s).0)
    ensures forall i :: !OperatorEnds(s, i)
    ensures Hangs(s) <==> exists i :: CommentEnds(s, i)
  {
    hide Lex, Hangs;
    assert s[0..] == s;
    if Hangs(s) {
      HangIsError(s);
      assert CommentEnds(s, 0);
    }
  }

  lemma {:induction false} SameAtTheEnd(s: string)
    requires Lex(s).1 == |s| && Lone(Lex(s).0)
    ensures Lex(s[|s| - 1..]) == (Lex(s).0, 1)
    decreases |s|
  {
    hide Blank, Token;
    match Blank(s)
    case Some(n) =>
      SameAtTheEnd(s[n..]);
      assert s[n..][|s| - n - 1..] == s[|s| - 1..];
    case None =>
      TokenMoves(s);
      assert s[0..] == s;
  }

  lemma {:induction false} OperatorStays(s: string, n: nat)
    requires Lex(s).1 == |s| && Lone(Lex(s).0)
    ensures |CallKinds(s, n)| == n && forall j :: 0 <= j < n ==> CallKinds(s, n)[j] == Lex(s).0
  {
    hide Lex, Move;
    if n > 0 {
      MoveIs(s);
      SameAtTheEnd(s);
      OperatorStays(s[Move(s)..], n - 1);
    }
  }

  /** Once the calls have come to a lone operator at the end of the text, each of them gives that
      operator again. */
  lemma {:induction false} OperatorRepeats(s: string, i: nat, n: nat)
    requires OperatorEnds(s, i)
    ensures |CallKinds(s, n)| == n && forall j :: |s| <= j < n ==> CallKinds(s, n)[j] == Lex(s[i..]).0
    decreases n
  {
    hide Lex, Move;
    assert s[0..] == s;
    if i == 0 {
      OperatorStays(s, n);
    } else if n > 0 {
      var m := Lex(s).1;
      EndsBehind(s, i);
      BeforeTheEnd(s, i);
      assert s[m..][i - m..] == s[i..];
      OperatorRepeats(s[m..], i - m, n - 1);
    }
  }

  lemma BeforeTheEnd(s: string, i: nat)
    requires OperatorEnds(s, i) && i > 0
    ensures !Stops(Lex(s).0) && Move(s) == Lex(s).1 > 0
  {
    hide Move, Token, Blank;
    MoveIs(s);
    assert s[|s|..] == "";
  }

  /** A text that does not end with one of five characters is lexed to its end. */
  lemma {:induction false} PlainEnd(s: string)
    requires s != "" ==> !LoneCharacter(s[|s| - 1]) && s[|s| - 1] != '*'
    ensures Fate(s).Ended?
    decreases |s|
  {
    hide Lex, Hangs, Move;
    if Hangs(s) {
      HangIsError(s);
    } else if !Stops(Lex(s).0) {
      MoveIs(s);
      PlainEnd(s[Move(s)..]);
    }
  }

  // ---------------------------------------------------------------- the lexer

  function Newlines(s: string): nat {
    if s == "" then 0 else Newlines(s[..|s| - 1]) + (if s[|s| - 1] == '\n' then 1 else 0)
  }

  lemma {:induction false} NewlinesAreCounted(s: string)
    ensures Newlines(s) == multiset(s)['\n']
  {
    if s != "" {
      var n := |s| - 1;
      NewlinesAreCounted(s[..n]);
      assert s == s[..n] + [s[n]];
    }
  }

  /** The string that goes with a token, given the characters of the token. The first digit of a number
      is put into the buffer twice. */
  function TokenText(kind: Kind, lexeme: string): string {
    if kind.Literal? || (kind.Id? && lexeme != "" && lexeme[0] == '`') then
      if |lexeme| < 2 then "" else lexeme[1..|lexeme| - 1]
    else if kind.Number? && lexeme != "" then [lexeme[0]] + lexeme
    else if kind.Id? then lexeme
    else ""
  }

  lemma CloseNext(s: string)
    ensures s == "" ==> CloseLen(s) == None
    ensures s != "" && s[0] == '*' && Second(s, '/') ==> CloseLen(s) == Some(2)
    ensures s != "" && !(s[0] == '*' && Second(s, '/')) ==>
              var n := CloseLen(s[1..]);
              CloseLen(s) == if n.Some? then Some(n.value + 1) else None
  {
    if |s| == 1 {
      assert |s[1..]| == 0;
    }
  }

  /** The end of a comment, as seen from `from`, when the text up to `p` has none. */
  function CloseFrom(input: string, from: nat, p: nat): Option<nat>
    requires from <= p <= |input|
  {
    match CloseLen(input[p..]) case None => None case Some(n) => Some(n + (p - from))
  }

  lemma CloseStep(input: string, p: nat)
    requires p < |input|
    ensures var closed := input[p] == '*' && p + 1 < |input| && input[p + 1] == '/';
            CloseLen(input[p..]) == if closed then Some(2) else CloseFrom(input, p, p + 1)
    ensures p + 1 == |input| ==> CloseLen(input[p..]).None?
  {
    hide CloseLen;
    CloseNext(input[p..]);
    CloseNext(input[p + 1..]);
    assert input[p..][1..] == input[p + 1..];
  }

  /** How many characters are read before the lexer looks at the token of `s`: one, unless the next one
      was the end of the text and was pushed back. */
  function ReadAhead(s: string): nat
    requires s != ""
  {
    if |s| == 1 && (s[0] == '-' || s[0] == '/') then 0 else 1
  }

  lemma LexHere(s: string)
    requires Blank(s).None?
    ensures s == "" ==> Lex(s) == (End, 0) && Move(s) == 0
    ensures OpensLine(s) ==> Lex(s) == (End, |s|) && Move(s) == |s|
    ensures OpensBlock(s) ==> Lex(s) == (Error, |s|) && Move(s) == |s|
    ensures s != "" && !OpensLine(s) && !OpensBlock(s) ==> Lex(s) == Token(s) && Move(s) == TokenMove(s)
  {
    hide Token, TokenMove;
  }

  // What each loop finds, by what it saw.
  lemma {:induction false} WordLenIs(s: string, n: nat)
    requires n <= |s| && (forall k :: 0 <= k < n ==> IsWordChar(s[k])) && (n < |s| ==> !IsWordChar(s[n]))
    ensures WordLen(s) == n
  {
    if n > 0 {
      WordLenIs(s[1..], n - 1);
    }
  }

  lemma {:induction false} QuoteLenIs(s: string, q: char, n: nat)
    requires n <= |s| && q != '\n' && (forall k :: 0 <= k < n ==> s[k] != q && s[k] != '\n')
    requires n < |s| ==> s[n] == q || s[n] == '\n'
    ensures QuoteLen(s, q) == (n < |s| && s[n] == q, if n < |s| then n + 1 else n)
  {
    if n > 0 {
      QuoteLenIs(s[1..], q, n - 1);
    }
  }

  lemma NumberLenIs(input: string, at: nat)
    requires at < |input| && IsDigit(input[at])
    ensures var end := at + 1 + DigitsLen(input[at + 1..]);
            && end <= |input|
            && NumberLen(input[at..]) ==
               (if end < |input| && input[end] == '.' then end + 1 + DigitsLen(input[end + 1..]) else end) - at
  {
    hide DigitsLen;
    assert input[at..][1..] == input[at + 1..];
    var end := at + 1 + DigitsLen(input[at + 1..]);
    if end < |input| {
      assert input[at..][end - at + 1..] == input[end + 1..];
    }
  }

  lemma QuotedIs(input: string, at: nat)
    requires at < |input| && (input[at] == '`' || input[at] == '\'')
    ensures var q := QuoteLen(input[at + 1..], input[at]);
            Token(input[at..]) == (if !q.0 then Error else if input[at] == '`' then Id else Literal, q.1 + 1)
  {
    hide QuoteLen;
    assert input[at..][1..] == input[at + 1..];
  }

  lemma WordIs(input: string, at: nat)
    requires at < |input| && !IsSymbol(input[at]) && !IsDigit(input[at]) && input[at] != '`' && input[at] != '\''
    ensures var n := 1 + WordLen(input[at + 1..]);
            at + n <= |input| && Token(input[at..]) == (WordKind(input[at..at + n]), n)
  {
    hide WordLen, WordKind;
    assert input[at..][0] == input[at] && input[at..][1..] == input[at + 1..];
    var n := 1 + WordLen(input[at + 1..]);
    assert input[at..][..n] == input[at..at + n];
  }

  lemma SymbolHasNoText(s: string, lexeme: string)
    requires s != "" && IsSymbol(s[0])
    ensures TokenText(Token(s).0, lexeme) == ""
  {}

  /** Neighbouring pieces of a text. */
  lemma Joined(s: string, at: nat, a: string, b: string)
    requires at + 1 + |a| + |b| <= |s|
    requires forall k :: 0 <= k < |a| ==> a[k] == s[at + 1 + k]
    requires forall k :: 0 <= k < |b| ==> b[k] == s[at + 1 + |a| + k]
    ensures [s[at]] + [s[at]] + a + b == [s[at]] + s[at..at + 1 + |a| + |b|]
  {}

  lemma DigitIsNumber(s: string)
    requires s != "" && IsDigit(s[0])
    ensures Token(s) == (Number, NumberLen(s))
  {}

  lemma NumberText(lexeme: string)
    requires lexeme != ""
    ensures TokenText(Number, lexeme) == [lexeme[0]] + lexeme
  {}

  lemma WordText(w: string)
    requires w != "" && w[0] != '`'
    ensures !WordKind(w).Error? && TokenText(WordKind(w), w) == if WordKind(w).Id? then w else ""
  {}

  lemma QuotedText(kind: Kind, input: string, at: nat, to: nat)
    requires at + 2 <= to <= |input| && (kind.Literal? || (kind.Id? && input[at] == '`'))
    ensures TokenText(kind, input[at..to]) == input[at + 1..to - 1]
  {
    var lexeme, inner := input[at..to], input[at + 1..to - 1];
    forall k | 0 <= k < |inner|
      ensures lexeme[1..|lexeme| - 1][k] == inner[k]
    {
      assert lexeme[1..|lexeme| - 1][k] == lexeme[k + 1];
    }
  }

  class Lexer {
    const input: string
    var pos: nat
    var line: nat

    /** `yylineno` is one more than the newlines read. */
    ghost predicate Valid()
      reads this
    {
      pos <= |input| && line == 1 + Newlines(input[..pos])
    }

    constructor (input: string)
      ensures Valid() && this.input == input && pos == 0
    {
      this.input, pos, line := input, 0, 1;
    }

    /** `yygetc`. */
    method GetC() returns (c: Option<char>)
      requires Valid()
      modifies this
      ensures Valid()
      ensures if old(pos) < |input| then c == Some(input[old(pos)]) && pos == old(pos) + 1
              else c == None && pos == old(pos)
    {
      if pos >= |input| {
        return None;
      }
      assert input[..pos + 1][..pos] == input[..pos];
      c := Some(input[pos]);
      pos := pos + 1;
      if c == Some('\n') {
        line := line + 1;
      }
    }

    /** `yyungetc`: one step back, whatever was read last. */
    method UngetC()
      requires Valid()
      modifies this
      ensures Valid() && pos == if old(pos) > 0 then old(pos) - 1 else 0
    {
      if pos > 0 {
        pos := pos - 1;
        assert input[..pos + 1][..pos] == input[..pos];
        if input[pos] == '\n' {
          line := line - 1;
        }
      }
    }

    /** Reading a character and pushing it back leaves the place as it was exactly when there was a
        character to read: pushing the end of a nonempty text back repeats its last character. */
    method GetThenUnget() returns (c: Option<char>)
      requires Valid()
      modifies this
      ensures Valid() && (pos == old(pos) <==> c.Some? || input == "")
      ensures c.Some? <==> old(pos) < |input|
      ensures c == None && input != "" ==> pos == |input| - 1
    {
      c := GetC();
      UngetC();
    }

    /** To the end of the line, or of the text. */
    method SkipLine() returns (c: Option<char>)
      requires Valid()
      modifies this
      ensures Valid()
      ensures match LineLen(input[old(pos)..])
              case Some(n) => c.Some? && pos == old(pos) + n
              case None => c == None && pos == |input|
    {
      ghost var from := pos;
      c := GetC();
      while c != None && c != Some('\n')
        invariant Valid() && from <= pos
        invariant c.Some? ==> from < pos && c == Some(input[pos - 1])
        invariant c == None ==> pos == |input| && LineLen(input[from..]) == None
        invariant c.Some? ==>
                    var n := LineLen(input[pos - 1..]);
                    LineLen(input[from..]) == if n.Some? then Some(n.value + (pos - 1 - from)) else None
        decreases |input| - pos, c.Some?
      {
        assert input[pos - 1..][1..] == input[pos..];
        c := GetC();
      }
    }

    /** One turn of the loop over a block comment, with `c` read last. At the end of the text a star is
        pushed back and read again, and everything is as it was. */
    method BlockTurn(c: char) returns (next: Option<char>, closed: bool)
      requires Valid() && 0 < pos && c == input[pos - 1]
      modifies this
      ensures Valid() && closed == (c == '*' && old(pos) < |input| && input[old(pos)] == '/')
      ensures if old(pos) < |input| then next == Some(if closed then c else input[old(pos)]) && pos == old(pos) + 1
              else next == (if c == '*' then Some(c) else None) && pos == old(pos) && line == old(line)
    {
      if c == '*' {
        var behind := GetC();
        if behind == Some('/') {
          return Some(c), true;
        }
        UngetC();
      }
      next := GetC();
      closed := false;
    }

    /** To the end of a block comment; `c` is nothing when it does not end. */
    method SkipBlock() returns (c: Option<char>)
      requires Valid() && !NeverCloses(input[pos..])
      modifies this
      ensures Valid()
      ensures match CloseLen(input[old(pos)..])
              case Some(n) => c.Some? && pos == old(pos) + n
              case None => c == None && pos == |input|
    {
      hide CloseLen;
      ghost var from := pos;
      CloseNext(input[pos..]);
      c := GetC();
      var closed := false;
      while c != None && !closed
        invariant Valid() && from <= pos
        invariant c.Some? ==> from < pos && (closed || c == Some(input[pos - 1]))
        invariant c == None ==> pos == |input| && CloseLen(input[from..]) == None
        invariant closed ==> c.Some? && CloseLen(input[from..]) == Some(pos - from)
        invariant c.Some? && !closed ==> CloseLen(input[from..]) == CloseFrom(input, from, pos - 1)
        decreases |input| - pos, c.Some?, !closed
      {
        CloseStep(input, pos - 1);
        c, closed := BlockTurn(c.value);
      }
    }

    /** The same loop for at most so many turns: with enough of them it ends exactly when the comment
        does not go on to a star at the end of the text, and with no number of them otherwise. */
    method SkipBlockFor(turns: nat) returns (ended: bool)
      requires Valid()
      modifies this
      ensures Valid() && (ended ==> !NeverCloses(input[old(pos)..]))
      ensures turns > |input| - old(pos) ==> (ended <==> !NeverCloses(input[old(pos)..]))
    {
      hide CloseLen;
      ghost var from := pos;
      CloseNext(input[pos..]);
      var c := GetC();
      ended := c == None;
      var i := 0;
      while i < turns && !ended
        invariant Valid() && from <= pos && i <= turns
        invariant ended ==> !NeverCloses(input[from..])
        invariant !ended ==> from < pos && c == Some(input[pos - 1])
        invariant !ended ==> CloseLen(input[from..]) == CloseFrom(input, from, pos - 1)
        invariant !ended ==> i == pos - 1 - from || NeverCloses(input[from..])
      {
        CloseStep(input, pos - 1);
        var next, closed := BlockTurn(c.value);
        c, ended := next, closed || next == None;
        i := i + 1;
      }
    }

    /** One white space character or comment. `done` says that there was none, and then `c` is the
        first character of a token, or nothing at the end of the text or of an unending comment. */
    method SkipOne() returns (c: Option<char>, done: bool, bad: bool)
      requires Valid() && !Hangs(input[pos..])
      modifies this
      ensures Valid() && old(pos) <= pos
      ensures var s := input[old(pos)..];
              if !done then !bad && Blank(s) == Some(pos - old(pos))
              else
                && Blank(s) == None
                && (if c == None then
                      pos == |input| && (if bad then OpensBlock(s) else s == "" || OpensLine(s))
                    else
                      && !bad && s != "" && c == Some(s[0]) && !OpensLine(s) && !OpensBlock(s)
                      && pos == old(pos) + ReadAhead(s))
    {
      hide Token, LineLen, CloseLen;
      ghost var s := input[pos..];
      done, bad := false, false;
      c := GetC();
      if c == None {
        done := true;
        return;
      }
      if IsSpace(c.value) {
        return;
      }
      if c == Some('-') || c == Some('#') {
        var next := GetC();
        if c == Some('-') && next != Some('-') {
          UngetC();
          done := true;
          return;
        }
        assert if |s| == 1 then input[pos..] == "" else s[2..] == input[pos..];
        c := SkipLine();
        done := c == None;
        return;
      }
      if c == Some('/') {
        var next := GetC();
        if next == Some('*') {
          assert s[2..] == input[pos..];
          c := SkipBlock();
          done, bad := c == None, c == None;
          return;
        }
        UngetC();
      }
      done := true;
    }

    /** White space and comments; then the first character of a token and where it stands, or nothing. */
    method SkipBlanks() returns (c: Option<char>, bad: bool, ghost at: nat)
      requires Valid() && !Hangs(input[pos..])
      modifies this
      ensures Valid() && old(pos) <= pos
      ensures var s := input[old(pos)..];
              if c == None then Lex(s) == (if bad then Error else End, pos - old(pos)) && pos == old(pos) + Move(s)
              else
                && !bad && old(pos) <= at < |input| && c == Some(input[at]) && pos == at + ReadAhead(input[at..])
                && Lex(s) == Shift(at - old(pos), Token(input[at..]))
                && Move(s) == at - old(pos) + TokenMove(input[at..])
    {
      hide Token, TokenMove, Blank, Lex, Move, Hangs, ReadAhead;
      ghost var from, s := pos, input[pos..];
      var done := false;
      c, bad, at := None, false, pos;
      while !done
        invariant Valid() && from <= pos && (!done ==> !bad && at == pos && !Hangs(input[at..]))
        invariant from <= at <= |input|
        invariant Lex(s) == Shift(at - from, Lex(input[at..])) && Move(s) == at - from + Move(input[at..])
        invariant done && c == None ==>
                    pos == |input| && Lex(input[at..]) == (if bad then Error else End, pos - at)
                    && Move(input[at..]) == pos - at
        invariant done && c.Some? ==>
                    !bad && at < |input| && c == Some(input[at]) && pos == at + ReadAhead(input[at..])
                    && Lex(input[at..]) == Token(input[at..]) && Move(input[at..]) == TokenMove(input[at..])
        decreases |input| - at, !done
      {
        c, done, bad := SkipOne();
        if done {
          LexHere(input[at..]);
        } else {
          LexAfterBlank(input, at, pos - at);
          at := pos;
        }
      }
    }

    /** To the closing quote. */
    method ScanQuoted(q: char) returns (ok: bool, text: string)
      requires Valid() && q != '\n'
      modifies this
      ensures Valid() && old(pos) <= pos && (ok, pos - old(pos)) == QuoteLen(input[old(pos)..], q)
      ensures ok ==> text == input[old(pos)..pos - 1]
    {
      hide QuoteLen;
      ghost var from := pos;
      text := "";
      var c := GetC();
      while c != None && c != Some('\n') && c != Some(q)
        invariant Valid() && from + |text| <= |input| && text == input[from..from + |text|]
        invariant forall k :: from <= k < from + |text| ==> input[k] != q && input[k] != '\n'
        invariant if c == None then pos == |input| == from + |text|
                  else pos == from + |text| + 1 && c == Some(input[pos - 1])
        decreases |input| - pos, c.Some?
      {
        assert input[from..from + |text| + 1] == input[from..from + |text|] + [c.value];
        text := text + [c.value];
        c := GetC();
      }
      ok := c == Some(q);
      QuoteLenIs(input[from..], q, |text|);
    }

    /** Digits, and the character that ends them. */
    method ScanDigits() returns (c: Option<char>, text: string)
      requires Valid()
      modifies this
      ensures Valid() && old(pos) + |text| <= |input| && text == input[old(pos)..old(pos) + |text|]
      ensures |text| == DigitsLen(input[old(pos)..])
      ensures if c == None then pos == |input| == old(pos) + |text|
              else pos == old(pos) + |text| + 1 && c == Some(input[pos - 1])
    {
      hide DigitsLen;
      ghost var from := pos;
      text := "";
      c := GetC();
      while c != None && IsDigit(c.value)
        invariant Valid() && from + |text| <= |input| && text == input[from..from + |text|]
        invariant forall k :: from <= k < from + |text| ==> IsDigit(input[k])
        invariant if c == None then pos == |input| == from + |text|
                  else pos == from + |text| + 1 && c == Some(input[pos - 1])
        decreases |input| - pos, c.Some?
      {
        assert input[from..from + |text| + 1] == input[from..from + |text|] + [c.value];
        text := text + [c.value];
        c := GetC();
      }
      DigitsLenIs(input[from..], |text|);
    }

    /** What follows the digits of a number: a dot and further digits, or nothing. `c` was read last. */
    method ScanFraction(c: Option<char>) returns (text: string)
      requires Valid() && (if c == None then pos == |input| else 0 < pos && c == Some(input[pos - 1]))
      modifies this
      ensures var end := if c == None then old(pos) else old(pos) - 1;
              && Valid() && pos == end + |text|
              && text == input[end..pos]
              && |text| == if c == Some('.') then 1 + DigitsLen(input[end + 1..]) else 0
    {
      hide DigitsLen;
      text := "";
      var last := c;
      if c == Some('.') {
        ghost var dot := pos - 1;
        var end, digits := ScanDigits();
        text := ['.'] + digits;
        last := end;
        assert input[dot..dot + 1 + |digits|] == text;
      }
      if last != None {
        UngetC();
      }
    }

    /** The rest of a number whose first digit was read. */
    method ScanNumber(first: char) returns (text: string)
      requires Valid() && 0 < pos && first == input[pos - 1] && IsDigit(first)
      modifies this
      ensures Valid() && old(pos) <= pos && pos - (old(pos) - 1) == NumberLen(input[old(pos) - 1..])
      ensures text == [first] + input[old(pos) - 1..pos]
    {
      hide DigitsLen, NumberLen;
      ghost var at := pos - 1;
      NumberLenIs(input, at);
      var c, digits := ScanDigits();
      var fraction := ScanFraction(c);
      text := [first] + [first] + digits + fraction;
      Joined(input, at, digits, fraction);
    }

    /** The rest of a word whose first character was read. */
    method ScanWord(first: char) returns (text: string)
      requires Valid() && 0 < pos && first == input[pos - 1]
      modifies this
      ensures Valid() && old(pos) <= pos && pos - old(pos) == WordLen(input[old(pos)..])
      ensures text == input[old(pos) - 1..pos]
    {
      hide WordLen;
      ghost var from := pos - 1;
      text := [first];
      var c := GetC();
      while c != None && IsWordChar(c.value)
        invariant Valid() && from + 1 <= from + |text| <= |input| && text == input[from..from + |text|]
        invariant forall k :: from < k < from + |text| ==> IsWordChar(input[k])
        invariant if c == None then pos == |input| == from + |text|
                  else pos == from + |text| + 1 && c == Some(input[pos - 1])
        decreases |input| - pos, c.Some?
      {
        assert input[from..from + |text| + 1] == input[from..from + |text|] + [c.value];
        text := text + [c.value];
        c := GetC();
      }
      WordLenIs(input[from + 1..], |text| - 1);
      if c != None {
        UngetC();
      }
    }

    /** Takes the next character when it is `c`. */
    method Accept(c: char) returns (yes: bool)
      requires Valid() && 0 < pos
      modifies this
      ensures Valid() && yes == (old(pos) < |input| && input[old(pos)] == c)
      ensures pos == if yes then old(pos) + 1 else if old(pos) < |input| then old(pos) else old(pos) - 1
    {
      var next := GetC();
      yes := next == Some(c);
      if !yes {
        UngetC();
      }
    }

    /** The operator or mark that starts with `c`, which was read. */
    method ScanSymbol(c: char, ghost at: nat) returns (kind: Kind)
      requires Valid() && at < |input| && c == input[at] && pos == at + ReadAhead(input[at..]) && IsSymbol(c)
      modifies this
      ensures Valid() && kind == Token(input[at..]).0 && pos == at + TokenMove(input[at..])
    {
      ghost var s := input[at..];
      assert s[0] == c;
      if c == ',' { kind := Comma; }
      else if c == '*' { kind := Star; }
      else if c == '=' { kind := Eq; }
      else if c == '<' {
        var next := GetC();
        if next == Some('=') { kind := Le; }
        else if next == Some('>') { kind := Ne2; }
        else {
          UngetC();
          kind := Lt;
        }
      }
      else if c == '>' {
        var eq := Accept('=');
        kind := if eq then Ge else Gt;
      }
      else if c == '!' {
        var eq := Accept('=');
        kind := if eq then Ne else Error;
      }
      else if c == '(' { kind := LParen; }
      else if c == ')' { kind := RParen; }
      else if c == ';' { kind := Semicolon; }
      else if c == '.' { kind := Dot; }
      else if c == '+' { kind := Plus; }
      else if c == '-' { kind := Minus; }
      else if c == '/' { kind := Div; }
      else {
        var double := Accept('@');
        kind := if double then AtAt else Error;
      }
    }

    /** The token that starts with `c`, which was read. */
    method ScanToken(c: char, ghost at: nat) returns (kind: Kind, text: string)
      requires Valid() && at < |input| && c == input[at] && pos == at + ReadAhead(input[at..])
      modifies this
      ensures Valid() && kind == Token(input[at..]).0 && pos == at + TokenMove(input[at..])
      ensures text == if Stops(kind) then "" else TokenText(kind, input[at..at + Token(input[at..]).1])
    {
      hide QuoteLen, NumberLen, WordLen, WordKind, Token, TokenText;
      assert input[at..][0] == c;
      text := "";
      if IsSymbol(c) {
        kind := ScanSymbol(c, at);
        SymbolHasNoText(input[at..], input[at..at + Token(input[at..]).1]);
      } else if c == '`' || c == '\'' {
        QuotedIs(input, at);
        var ok, inner := ScanQuoted(c);
        kind := Error;
        if ok {
          kind := if c == '`' then Id else Literal;
          text := inner;
          QuotedText(kind, input, at, pos);
        }
      } else if IsDigit(c) {
        DigitIsNumber(input[at..]);
        kind := Number;
        text := ScanNumber(c);
        NumberText(input[at..pos]);
      } else {
        WordIs(input, at);
        var word := ScanWord(c);
        kind := WordKind(word);
        WordText(word);
        text := if kind.Id? then word else "";
      }
    }

    /** `yylex`: the next token, and nothing read but it and what stands in front of it. */
    method YyLex() returns (kind: Kind, text: string, ghost start: nat)
      requires Valid() && !Hangs(input[pos..])
      modifies this
      ensures var s := input[old(pos)..];
              && Valid() && kind == Lex(s).0 && pos == old(pos) + Move(s)
              && (Stops(kind) ||
                  var end := old(pos) + Lex(s).1;
                  old(pos) <= start < end <= |input| && text == TokenText(kind, input[start..end]))
    {
      hide Token, TokenMove, Lex, Move, Hangs, TokenText, ReadAhead;
      text := "";
      var c, bad, at := SkipBlanks();
      start := at;
      if c == None {
        kind := if bad then Error else End;
        return;
      }
      kind, text := ScanToken(c.value, at);
    }

    /** The parser's calls of `yylex`, up to the end of the text or an error. */
    method Tokens() returns (kinds: seq<Kind>)
      requires Valid() && pos == 0 && Fate(input).Ended?
      modifies this
      ensures Valid() && kinds == LexAll(input)
    {
      hide Lex, Move, Hangs;
      kinds := [];
      assert input[0..] == input;
      while true
        invariant Valid() && Fate(input[pos..]).Ended? && LexAll(input) == kinds + LexAll(input[pos..])
        decreases |input| - pos
      {
        ghost var s, at := input[pos..], pos;
        var kind, text, start := YyLex();
        assert s[pos - at..] == input[pos..];
        kinds := kinds + [kind];
        if kind.End? || kind.Error? {
          return;
        }
        EndedMoves(s);
      }
    }

    /** At most `n` of these calls. They come to what was said of the text; if that is the end or an error,
        they gave the tokens of the text. */
    method FirstCalls(n: nat) returns (kinds: seq<Kind>, ended: bool)
      requires Valid() && !After(input[pos..], n).Hung?
      modifies this
      ensures Valid() && ended == After(input[old(pos)..], n).Ended?
      ensures ended ==> kinds != [] && kinds == LexAll(input[old(pos)..])
      ensures kinds == CallKinds(input[old(pos)..], n) && (!ended ==> |kinds| == n)
    {
      hide Lex, Move, Hangs, After, Fate, LexAll, CallKinds, CallsMade;
      kinds, ended := [], false;
      ghost var s := input[pos..];
      NoCalls(s, n);
      while |kinds| < n && !ended
        invariant Valid() && |kinds| <= n && CallsMade(s, n, kinds, ended, input[pos..])
        decreases n - |kinds|, !ended
      {
        ghost var rest, at := input[pos..], pos;
        OneCall(s, n, kinds, rest);
        var kind, text, start := YyLex();
        assert rest[pos - at..] == input[pos..];
        kinds := kinds + [kind];
        ended := kind.End? || kind.Error?;
      }
      CallsAre(s, n, kinds, ended, input[pos..]);
    }
  }

  /** The first calls of at most `n` on `s` gave `kinds`, and either ended or left `rest`. */
  ghost predicate CallsMade(s: string, n: nat, kinds: seq<Kind>, ended: bool, rest: string) {
    && |kinds| <= n
    && CallKinds(s, n) == kinds + (if ended then [] else CallKinds(rest, n - |kinds|))
    && After(s, n) == (if ended then Ended else After(rest, n - |kinds|))
    && (After(s, n).Ended? ==> LexAll(s) == kinds + if ended then [] else LexAll(rest))
    && (ended ==> kinds != [])
  }

  lemma NoCalls(s: string, n: nat)
    ensures CallsMade(s, n, [], false, s)
  {
    hide After, CallKinds, LexAll;
  }

  lemma OneCall(s: string, n: nat, kinds: seq<Kind>, rest: string)
    requires |kinds| < n && CallsMade(s, n, kinds, false, rest) && !After(s, n).Hung?
    ensures !Hangs(rest)
    ensures CallsMade(s, n, kinds + [Lex(rest).0], Stops(Lex(rest).0), rest[Move(rest)..])
  {
    hide Lex, Hangs, Move, LexAll, After, CallKinds, Stops;
    var k, left, next := Lex(rest).0, n - |kinds|, rest[Move(rest)..];
    FirstKind(rest, left);
    assert CallKinds(s, n) == (kinds + [k]) + if Stops(k) then [] else CallKinds(next, left - 1);
    if After(s, n).Ended? {
      assert LexAll(s) == (kinds + [k]) + if Stops(k) then [] else LexAll(next);
    }
  }

  lemma FirstKind(s: string, n: nat)
    requires n > 0 && !After(s, n).Hung?
    ensures !Hangs(s)
    ensures var k, next := Lex(s).0, s[Move(s)..];
            && CallKinds(s, n) == [k] + (if Stops(k) then [] else CallKinds(next, n - 1))
            && After(s, n) == (if Stops(k) then Ended else After(next, n - 1))
            && (After(s, n).Ended? ==> LexAll(s) == [k] + if Stops(k) then [] else LexAll(next))
  {
    hide Lex, Hangs, Move;
    if !Stops(Lex(s).0) && After(s, n).Ended? {
      FateOfCalls(s, n);
      EndedMoves(s);
    }
  }

  lemma CallsAre(s: string, n: nat, kinds: seq<Kind>, ended: bool, rest: string)
    requires CallsMade(s, n, kinds, ended, rest) && (ended || |kinds| == n)
    ensures kinds == CallKinds(s, n) && ended == After(s, n).Ended?
    ensures ended ==> kinds != [] && kinds == LexAll(s)
  {
    hide LexAll;
  }

  /** Calls that come to an end move behind each token. */
  lemma EndedMoves(s: string)
    requires Fate(s).Ended? && !Stops(Lex(s).0)
    ensures Move(s) == Lex(s).1 > 0 && Fate(s[Move(s)..]).Ended?
  {
    hide Lex, Hangs, Move;
    MoveIs(s);
    if Lex(s).1 == |s| && Lone(Lex(s).0) {
      LastToken(s);
    }
  }

  /** A lone operator at the end of the text is found again and again. */
  lemma LastToken(s: string)
    requires !Stops(Lex(s).0) && Lex(s).1 == |s|
    ensures Fate(s) == if Lone(Lex(s).0) then Running else Ended
    ensures forall i :: !OperatorEnds("", i) && !CommentEnds("", i)
  {
    hide Token, TokenMove;
    MoveIs(s);
    if Hangs(s) {
      HangIsError(s);
    }
    var t := s[Move(s)..];
    if Lone(Lex(s).0) {
      var c := t[0];
      assert t == [c] && LoneCharacter(c);
      SingleOperator(t);
    } else {
      assert t == "";
    }
  }

  lemma SingleOperator(t: string)
    requires |t| == 1 && LoneCharacter(t[0])
    ensures Fate(t).Running?
  {
    hide Blank, Lex, Move, Hangs, Token;
    SingleToken(t);
    LexHere(t);
    HereReturns(t);
  }

  lemma SingleToken(t: string)
    requires |t| == 1 && LoneCharacter(t[0])
    ensures Blank(t).None? && !OpensLine(t) && !OpensBlock(t) && Lone(Token(t).0) && TokenMove(t) == 0
  {
    hide QuoteLen, NumberLen, WordLen, LineLen, CloseLen;
  }

  lemma HereReturns(s: string)
    requires Blank(s).None? && !OpensBlock(s)
    ensures !Hangs(s)
  {}

  lemma LexAfterBlank(input: string, at: nat, n: nat)
    requires at <= |input| && Blank(input[at..]) == Some(n)
    ensures Lex(input[at..]) == Shift(n, Lex(input[at + n..]))
    ensures Move(input[at..]) == n + Move(input[at + n..]) && Hangs(input[at..]) == Hangs(input[at + n..])
  {
    hide Blank;
    assert input[at..][n..] == input[at + n..];
  }
}
