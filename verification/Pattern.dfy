/** The `s/search/replace/` argument: splitting it at unescaped slashes. */
module Pattern {
  import Arena

  const MAX_PATTERN_LEN: nat := 8192

  // ---------------------------------------------------------------- splitting, on values

  /** One part of the text and what follows it. A backslash takes the next character with it: before
      a slash it disappears, before anything else it stays. A lone backslash at the end is lost. */
  function Split(s: seq<char>): (r: (seq<char>, seq<char>))
    ensures |r.0| + |r.1| <= |s|
  {
    if s == [] then ([], [])
    else if s[0] == '/' then ([], s[1..])
    else if s[0] != '\\' then
      var (t, rest) := Split(s[1..]);
      ([s[0]] + t, rest)
    else if |s| == 1 then ([], [])
    else
      var (t, rest) := Split(s[2..]);
      (Unescaped(s[1]) + t, rest)
  }

  /** What a backslash and the character behind it stand for. */
  function Unescaped(c: char): seq<char> { if c == '/' then [c] else ['\\', c] }

  lemma SplitPlain(c: char, s: seq<char>)
    requires c != '/' && c != '\\'
    ensures Split([c] + s) == ([c] + Split(s).0, Split(s).1)
  {
    assert ([c] + s)[1..] == s;
  }

  function Escaped(c: char): seq<char> { if c == '/' then ['\\', c] else [c] }

  lemma SplitPair(c: char, s: seq<char>)
    ensures Split(['\\', c] + s) == (Unescaped(c) + Split(s).0, Split(s).1)
  {
    assert (['\\', c] + s)[2..] == s;
  }

  lemma SplitRest(c: char, s: seq<char>)
    requires c != '\\'
    ensures Split(Escaped(c) + s) == ([c] + Split(s).0, Split(s).1)
  {
    if c == '/' {
      SplitPair(c, s);
    } else {
      SplitPlain(c, s);
    }
  }

  /** A part as the user means it: plain characters, slashes, and backslashes each followed by a
      character that is not a slash. */
  predicate Paired(t: seq<char>) {
    if t == [] then true
    else if t[0] == '\\' then |t| > 1 && t[1] != '/' && Paired(t[2..])
    else Paired(t[1..])
  }

  /** The part written so that its slashes do not end it. */
  function Escape(t: seq<char>): seq<char> {
    if t == [] then []
    else if t[0] == '\\' && |t| > 1 then ['\\', t[1]] + Escape(t[2..])
    else Escaped(t[0]) + Escape(t[1..])
  }

  lemma EscapeStep(t: seq<char>)
    ensures t == [] ==> Escape(t) == []
    ensures |t| > 1 && t[0] == '\\' ==> Escape(t) == ['\\', t[1]] + Escape(t[2..])
    ensures t != [] && t[0] != '\\' ==> Escape(t) == Escaped(t[0]) + Escape(t[1..])
  {}

  /** Splitting character by character: a slash ends the part, a backslash before a slash disappears, before
      any other character it stays with it, and at the very end it is lost. */
  lemma SplitReads(c: char, s: seq<char>)
    ensures Split([]) == ([], []) && Split(['/'] + s) == ([], s) && Split(['\\']) == ([], [])
    ensures Split(['\\', '/'] + s) == (['/'] + Split(s).0, Split(s).1)
    ensures c != '/' ==> Split(['\\', c] + s) == (['\\', c] + Split(s).0, Split(s).1)
    ensures c != '/' && c != '\\' ==> Split([c] + s) == ([c] + Split(s).0, Split(s).1)
  {
    SplitPair(c, s);
    SplitPair('/', s);
    assert (['/'] + s)[1..] == s && ([c] + s)[1..] == s;
  }

  lemma {:induction false} SplitEscaped(t: seq<char>, tail: seq<char>)
    requires Paired(t) && Split(tail).0 == []
    ensures Split(Escape(t) + tail) == (t, Split(tail).1)
  {
    hide Split, Escaped, Escape;
    EscapeStep(t);
    if t == [] {
      assert [] + tail == tail;
    } else if t[0] == '\\' {
      SplitEscaped(t[2..], tail);
      SplitPair(t[1], Escape(t[2..]) + tail);
      assert Escape(t) + tail == ['\\', t[1]] + (Escape(t[2..]) + tail);
      assert t == ['\\', t[1]] + t[2..];
    } else {
      SplitEscaped(t[1..], tail);
      SplitRest(t[0], Escape(t[1..]) + tail);
      assert Escape(t) + tail == Escaped(t[0]) + (Escape(t[1..]) + tail);
      assert t == [t[0]] + t[1..];
    }
  }

  /** Splitting undoes escaping, up to the slash that ends the part, or to the end of the text. */
  lemma SplitEscape(t: seq<char>, rest: seq<char>)
    requires Paired(t)
    ensures Split(Escape(t) + (['/'] + rest)) == (t, rest)
    ensures Split(Escape(t)) == (t, [])
  {
    hide Split, Escape;
    SplitEnds(rest);
    SplitEscaped(t, ['/'] + rest);
    SplitEscaped(t, []);
    assert Escape(t) + [] == Escape(t);
  }

  lemma {:induction false} SplitGivesPaired(s: seq<char>)
    ensures Paired(Split(s).0)
  {
    if s != [] && s[0] != '/' {
      if s[0] != '\\' {
        SplitGivesPaired(s[1..]);
        assert Split(s).0[1..] == Split(s[1..]).0;
      } else if |s| > 1 {
        SplitGivesPaired(s[2..]);
        if s[1] == '/' {
          assert Split(s).0[1..] == Split(s[2..]).0;
        } else {
          assert Split(s).0[2..] == Split(s[2..]).0;
        }
      }
    }
  }

  /** Exactly the paired texts can be written: every other one is out of reach of any argument. */
  lemma ReachableParts(t: seq<char>)
    ensures (exists s :: Split(s).0 == t) <==> Paired(t)
  {
    if Paired(t) {
      SplitEscape(t, []);
    }
    forall s | Split(s).0 == t
      ensures Paired(t)
    {
      SplitGivesPaired(s);
    }
  }

  lemma SplitEnds(s: seq<char>)
    ensures Split(['/'] + s) == ([], s)
    ensures Split([]) == ([], []) && Split(['\\']) == ([], [])
  {
    assert (['/'] + s)[1..] == s;
  }

  // ---------------------------------------------------------------- the splitter

  /** The part still to come, with or without a backslash just read. */
  function Resume(inEsc: bool, s: seq<char>): (seq<char>, seq<char>) {
    if inEsc then Split(['\\'] + s) else Split(s)
  }

  /** One turn of the splitter's loop. */
  lemma ResumeNext(inEsc: bool, c: char, tail: seq<char>)
    ensures Resume(inEsc, [c] + tail) ==
            if inEsc then (Unescaped(c) + Resume(false, tail).0, Resume(false, tail).1)
            else if c == '\\' then Resume(true, tail)
            else if c == '/' then ([], tail)
            else ([c] + Resume(false, tail).0, Resume(false, tail).1)
    ensures Resume(inEsc, []) == ([], [])
  {
    hide Split;
    SplitEnds(tail);
    if inEsc {
      SplitPair(c, tail);
      assert ['\\'] + ([c] + tail) == ['\\', c] + tail;
      assert ['\\'] + [] == ['\\'];
    } else if c != '\\' && c != '/' {
      SplitPlain(c, tail);
    }
  }

  /** `parse_re_part` on `text[arg..end]`. The output and its terminating NUL fit whenever the input
      and one more character would. */
  method ParseRePart(output: array<char>, text: seq<char>, arg: nat, end: nat) returns (next: nat, ghost n: nat)
    requires arg <= end <= |text| && end - arg < output.Length
    modifies output
    ensures arg <= next <= end && text[next..end] == Split(text[arg..end]).1
    ensures n == |Split(text[arg..end]).0| <= next - arg && output[n] == '\0'
    ensures output[..n] == Split(text[arg..end]).0
  {
    hide Split, Resume;
    ghost var all := Resume(false, text[arg..end]);
    ResumeIsSplit(text[arg..end]);
    var inEsc, p := false, 0;
    next := arg;
    while next < end
      invariant arg <= next <= end
      invariant p + (if inEsc then 1 else 0) <= next - arg
      invariant var rest := Resume(inEsc, text[next..end]); all.0 == output[..p] + rest.0 && all.1 == rest.1
    {
      var c := text[next];
      ghost var done := output[..p];
      assert text[next..end] == [c] + text[next + 1..end];
      ResumeNext(inEsc, c, text[next + 1..end]);
      next := next + 1;
      if inEsc {
        if c != '/' {
          output[p] := '\\';
          p := p + 1;
        }
        output[p] := c;
        p := p + 1;
        inEsc := false;
        assert output[..p] == done + Unescaped(c);
      } else if c == '\\' {
        inEsc := true;
      } else if c == '/' {
        break;
      } else {
        output[p] := c;
        p := p + 1;
        assert output[..p] == done + [c];
      }
    }
    ResumeNext(inEsc, ' ', []);
    output[p] := '\0';
    n := p;
  }

  lemma ResumeIsSplit(s: seq<char>)
    ensures Resume(false, s) == Split(s)
  {}

  // ---------------------------------------------------------------- the argument

  /** What stands in front of the search part is dropped: an `s`, then a slash. Long text is cut. */
  function Body(arg: seq<char>): (b: seq<char>)
    ensures |b| <= MAX_PATTERN_LEN
  {
    var a := if arg != [] && arg[0] == 's' then arg[1..] else arg;
    var b := if a != [] && a[0] == '/' then a[1..] else a;
    if |b| > MAX_PATTERN_LEN then b[..MAX_PATTERN_LEN] else b
  }

  /** The search and replacement parts of an argument. */
  function Parts(arg: seq<char>): (seq<char>, seq<char>) {
    var (search, rest) := Split(Body(arg));
    (search, Split(rest).0)
  }

  lemma {:induction false} SplitAddsNoNul(s: seq<char>)
    requires '\0' !in s
    ensures '\0' !in Split(s).0
  {
    if s != [] && s[0] != '/' && (s[0] != '\\' || |s| > 1) {
      SplitAddsNoNul(s[if s[0] == '\\' then 2 else 1..]);
    }
  }

  /** The string a filled buffer holds. */
  method ReadString(buffer: array<char>, ghost t: seq<char>) returns (r: seq<char>)
    requires |t| < buffer.Length && buffer[..|t|] == t && buffer[|t|] == '\0' && '\0' !in t
    ensures r == t
  {
    var p := Arena.At(buffer, 0);
    assert buffer[0..][..|t|] == t;
    Arena.CStrUnique(buffer[0..], |t|);
    var n := Arena.StrLen(p);
    r := buffer[..n];
  }

  /** `add_query_pattern`, up to the pattern object: a buffer of the length of the text and one more
      holds either part. */
  method AddQueryPattern(arg: seq<char>) returns (search: seq<char>, replace: seq<char>)
    requires '\0' !in arg
    ensures (search, replace) == Parts(arg)
  {
    hide Split;
    var from := 0;
    if from < |arg| && arg[from] == 's' {
      from := from + 1;
    }
    if from < |arg| && arg[from] == '/' {
      from := from + 1;
    }
    var len := |arg| - from;
    if len > MAX_PATTERN_LEN {
      len := MAX_PATTERN_LEN;
    }
    var end := from + len;
    assert arg[from..end] == Body(arg) by {
      assert arg[0..] == arg && (|arg| > 1 ==> arg[1..][1..] == arg[2..]);
      assert arg[from..][..len] == arg[from..end] && arg[from..][..|arg| - from] == arg[from..];
    }
    var buffer := new char[len + 1];
    var next, n := ParseRePart(buffer, arg, from, end);
    SplitAddsNoNul(arg[from..end]);
    search := ReadString(buffer, Split(arg[from..end]).0);
    var other := new char[len + 1];
    var last, m := ParseRePart(other, arg, next, end);
    SplitAddsNoNul(arg[next..end]);
    replace := ReadString(other, Split(arg[next..end]).0);
  }

  /** The two parts as a user writes them. */
  function Written(search: seq<char>, replace: seq<char>, rest: seq<char>): seq<char> {
    Escape(search) + (['/'] + (Escape(replace) + (['/'] + rest)))
  }

  /** What is dropped in front of `b`. */
  lemma BodyOf(b: seq<char>)
    requires |b| <= MAX_PATTERN_LEN
    ensures Body(['s'] + (['/'] + b)) == b && Body(['/'] + b) == b
    ensures b != [] && b[0] != '/' ==> Body(['s'] + b) == b && (b[0] != 's' ==> Body(b) == b)
  {
    assert (['/'] + b)[1..] == b && (['s'] + (['/'] + b))[1..] == ['/'] + b && (['s'] + b)[1..] == b;
  }

  lemma PartsOfBody(arg: seq<char>, search: seq<char>, replace: seq<char>, rest: seq<char>)
    requires Paired(search) && Paired(replace) && Body(arg) == Written(search, replace, rest)
    ensures Parts(arg) == (search, replace)
  {
    hide Split, Escape, Body;
    SplitEscape(search, Escape(replace) + (['/'] + rest));
    SplitEscape(replace, rest);
  }

  /** What is left of a text that is too long. */
  function Kept(b: seq<char>): seq<char> { if |b| > MAX_PATTERN_LEN then b[..MAX_PATTERN_LEN] else b }

  /** Behind the prefix 8192 characters count. */
  lemma KeptBody(b: seq<char>)
    ensures Body(['s'] + (['/'] + b)) == Kept(b) == if |b| > 8192 then b[..8192] else b
  {
    assert (['s'] + (['/'] + b))[1..] == ['/'] + b && (['/'] + b)[1..] == b;
  }

  /** A cut behind the replacement part leaves the last slash with less behind it, or takes it too. */
  lemma KeptWritten(search: seq<char>, replace: seq<char>, rest: seq<char>)
    requires |Escape(search)| + 1 + |Escape(replace)| <= MAX_PATTERN_LEN
    ensures || (exists less :: Kept(Written(search, replace, rest)) == Written(search, replace, less))
            || Kept(Written(search, replace, rest)) == Escape(search) + (['/'] + Escape(replace))
  {
    hide Escape;
    var core, w := Escape(search) + (['/'] + Escape(replace)), Written(search, replace, rest);
    assert w == core + (['/'] + rest);
    if |w| > MAX_PATTERN_LEN && |core| < MAX_PATTERN_LEN {
      var less := rest[..MAX_PATTERN_LEN - |core| - 1];
      assert Written(search, replace, less) == core + (['/'] + less);
      assert Kept(w) == Written(search, replace, less);
    }
  }

  /** Any two parts written as `s/search/replace/`, with their slashes escaped, come back as long as they
      and the slash between them are not cut; what stands behind them is ignored. */
  lemma RoundTrip(search: seq<char>, replace: seq<char>, rest: seq<char>)
    requires Paired(search) && Paired(replace) && |Escape(search)| + 1 + |Escape(replace)| <= MAX_PATTERN_LEN
    ensures Parts(['s'] + (['/'] + Written(search, replace, rest))) == (search, replace)
  {
    hide Escape, Split, Written, Body, Kept;
    var arg := ['s'] + (['/'] + Written(search, replace, rest));
    KeptBody(Written(search, replace, rest));
    KeptWritten(search, replace, rest);
    if exists less :: Body(arg) == Written(search, replace, less) {
      var less :| Body(arg) == Written(search, replace, less);
      PartsOfBody(arg, search, replace, less);
    } else {
      SplitEscape(search, Escape(replace));
      SplitEscape(replace, []);
    }
  }

  lemma EscapeHead(t: seq<char>)
    requires t != []
    ensures Escape(t) != [] && Escape(t)[0] == (if t[0] == '/' then '\\' else t[0])
    ensures t[0] == 's' ==> Escape(t) == ['s'] + Escape(t[1..])
    ensures Escape([]) == []
  {}

  /** Written without the `s/` in front, the two parts come back exactly when the search part starts
      with something other than an `s`, or when both are empty. */
  lemma PrefixNeeded(search: seq<char>, replace: seq<char>)
    requires Paired(search) && Paired(replace) && |Written(search, replace, [])| <= MAX_PATTERN_LEN
    ensures Parts(Written(search, replace, [])) == (search, replace)
            <==> (if search == [] then replace == [] else search[0] != 's')
  {
    hide Split, Escape, Body;
    var last := Escape(replace) + (['/'] + []);
    SplitEscape(replace, []);
    SplitEnds([]);
    if search == [] {
      EscapeHead(['s']);
      assert Written(search, replace, []) == ['/'] + last;
      BodyOf(last);
    } else {
      EscapeHead(search);
      var more := search[1..];
      if search[0] != 's' {
        BodyOf(Written(search, replace, []));
        PartsOfBody(Written(search, replace, []), search, replace, []);
      } else if more == [] {
        assert Written(search, replace, []) == ['s'] + (['/'] + last);
        BodyOf(last);
      } else {
        EscapeHead(more);
        assert Written(search, replace, []) == ['s'] + Written(more, replace, []);
        BodyOf(Written(more, replace, []));
        PartsOfBody(Written(search, replace, []), more, replace, []);
      }
    }
  }
}
