/** How a C compiler attributes physical lines to presumed files and line numbers: line control,
    section 6.10.4 of ISO/IEC 9899:2011, on top of line splicing and comment removal (section 5.1.1.2,
    phases 2 and 3). */
module LineControl {
  import opened Text

  // ---- the directive ----------------------------------------------------------------------

  predicate IsBlank(c: char) {
    c == ' ' || c == '\t' || c == '\U{0b}' || c == '\U{0c}'
  }

  function SkipBlanks(s: string): string {
    if s != "" && IsBlank(s[0]) then SkipBlanks(s[1..]) else s
  }

  function DigitRun(s: string): (k: nat)
    ensures k <= |s| && forall c <- s[..k] :: IsDigit(c)
    ensures k < |s| ==> !IsDigit(s[k])
  {
    if s != "" && IsDigit(s[0]) then
      var k := 1 + DigitRun(s[1..]);
      assert s[..k] == [s[0]] + s[1..][..k - 1];
      k
    else 0
  }

  /** The end of a string literal: the first quote that is not escaped. */
  function QuoteIndex(s: string): (k: nat)
    ensures k <= |s| && (k < |s| ==> s[k] == '"')
  {
    if s == "" || s[0] == '"' then 0
    else if s[0] == '\\' && |s| > 1 then 2 + QuoteIndex(s[2..])
    else 1 + QuoteIndex(s[1..])
  }

  datatype Target = Target(line: nat, file: Option<string>)

  /** What follows `#`, or its other spelling `%:`, at the start of a line. */
  function Hash(l: string): Option<string> {
    var a := SkipBlanks(l);
    if a != "" && a[0] == '#' then Some(a[1..])
    else if |a| > 1 && a[0] == '%' && a[1] == ':' then Some(a[2..])
    else None
  }

  /** What follows `# line` on a line that starts with it. */
  function Keyword(l: string): Option<string> {
    match Hash(l)
    case None => None
    case Some(a) =>
      var b := SkipBlanks(a);
      if |b| > 4 && b[0] == 'l' && b[1] == 'i' && b[2] == 'n' && b[3] == 'e' && IsBlank(b[4]) then Some(SkipBlanks(b[4..])) else None
  }

  /** `# line digit-sequence` with an optional string literal, and nothing else on the line. */
  function Directive(l: string): Option<Target> {
    match Keyword(l)
    case None => None
    case Some(rest) => Operands(rest)
  }

  function Operands(s: string): Option<Target> {
    var k := DigitRun(s);
    if k == 0 then None
    else
      var n := Value(s[..k]);
      var c := SkipBlanks(s[k..]);
      if c == "" then Some(Target(n, None))
      else if c[0] != '"' then None
      else
        var q := QuoteIndex(c[1..]);
        if q < |c| - 1 && SkipBlanks(c[q + 2..]) == "" then Some(Target(n, Some(c[1..q + 1])))
        else None
  }

  // ---- comments ---------------------------------------------------------------------------

  datatype Mode = InCode | InComment | InLineComment | InString | InChar

  predicate Opens(l: string, a: char, b: char) {
    |l| > 1 && l[0] == a && l[1] == b
  }

  /** A line with its comments replaced by a space, and the mode at its end. */
  function Scan(m: Mode, l: string): (string, Mode)
    decreases |l|
  {
    if l == "" then ("", m)
    else match m
      case InCode =>
        if Opens(l, '/', '*') then var r := Scan(InComment, l[2..]); (" " + r.0, r.1)
        else if Opens(l, '/', '/') then ("", InLineComment)
        else
          var r := Scan(if l[0] == '"' then InString else if l[0] == '\'' then InChar else InCode, l[1..]);
          ([l[0]] + r.0, r.1)
      case InComment =>
        if Opens(l, '*', '/') then Scan(InCode, l[2..]) else Scan(InComment, l[1..])
      case InLineComment => ("", InLineComment)
      case InString => ScanQuoted(InString, '"', l)
      case InChar => ScanQuoted(InChar, '\'', l)
  }

  function ScanQuoted(m: Mode, quote: char, l: string): (string, Mode)
    requires l != ""
    decreases |l|, 0
  {
    if l[0] == '\\' && |l| > 1 then var r := Scan(m, l[2..]); (l[..2] + r.0, r.1)
    else var r := Scan(if l[0] == quote then InCode else m, l[1..]); ([l[0]] + r.0, r.1)
  }

  /** Where a physical line starts: in which mode, with which text of its logical line behind it, and
      with which spliced lines still to be taken together with it. */
  datatype Lex = Lex(mode: Mode, text: string, raw: string)

  const FRESH := Lex(InCode, "", "")

  predicate Spliced(l: string) {
    l != "" && l[|l| - 1] == '\\'
  }

  function NextLex(x: Lex, l: string): Lex {
    if Spliced(l) then Lex(x.mode, x.text, x.raw + l[..|l| - 1])
    else
      var r := Scan(x.mode, x.raw + l);
      if r.1 == InComment then Lex(InComment, x.text + r.0, "") else FRESH
  }

  /** The directive that is complete with this physical line, for a compiler which reaches it in state `x`. */
  function DirectiveAt(x: Lex, l: string): Option<Target> {
    if Spliced(l) then None
    else
      var r := Scan(x.mode, x.raw + l);
      if r.1 == InComment then None else Directive(x.text + r.0)
  }

  /** Where a line can start that does not follow a spliced one. */
  predicate Settled(x: Lex) {
    x == FRESH || (x.mode == InComment && x.raw == "")
  }

  // ---- the reader -------------------------------------------------------------------------

  datatype Pos = Pos(file: string, line: nat, lex: Lex)

  datatype Placed = Placed(text: string, file: string, line: nat)

  function Step(p: Pos, l: string): Pos {
    match DirectiveAt(p.lex, l)
    case Some(t) => Pos(t.file.GetOr(p.file), t.line, FRESH)
    case None => Pos(p.file, p.line + 1, NextLex(p.lex, l))
  }

  /** The presumed position of every line that is not a line directive. */
  function Read(ls: seq<string>, p: Pos): seq<Placed> {
    if ls == [] then []
    else
      (if DirectiveAt(p.lex, ls[0]).Some? then [] else [Placed(ls[0], p.file, p.line)])
      + Read(ls[1..], Step(p, ls[0]))
  }

  function After(ls: seq<string>, p: Pos): Pos {
    if ls == [] then p else After(ls[1..], Step(p, ls[0]))
  }

  lemma {:induction false} ReadAppend(a: seq<string>, b: seq<string>, p: Pos)
    ensures Read(a + b, p) == Read(a, p) + Read(b, After(a, p))
    ensures After(a + b, p) == After(b, After(a, p))
  {
    if a == [] {
      assert a + b == b;
    } else {
      assert (a + b)[1..] == a[1..] + b;
      ReadAppend(a[1..], b, Step(p, a[0]));
    }
  }

  /** No line directive is reached while reading these lines. */
  predicate Quiet(ls: seq<string>, x: Lex) {
    ls == [] || (DirectiveAt(x, ls[0]).None? && Quiet(ls[1..], NextLex(x, ls[0])))
  }

  function LexAfter(ls: seq<string>, x: Lex): Lex {
    if ls == [] then x else LexAfter(ls[1..], NextLex(x, ls[0]))
  }

  function PlaceAll(ls: seq<string>, file: string, line: nat): (r: seq<Placed>)
    ensures |r| == |ls|
    ensures forall k :: 0 <= k < |ls| ==> r[k] == Placed(ls[k], file, line + k)
  {
    seq(|ls|, k requires 0 <= k < |ls| => Placed(ls[k], file, line + k))
  }

  /** Quiet lines are counted upwards from where the reader stands. */
  lemma {:induction false} ReadQuiet(ls: seq<string>, p: Pos)
    requires Quiet(ls, p.lex)
    ensures Read(ls, p) == PlaceAll(ls, p.file, p.line)
    ensures After(ls, p) == Pos(p.file, p.line + |ls|, LexAfter(ls, p.lex))
  {
    if ls != [] {
      ReadQuiet(ls[1..], Step(p, ls[0]));
    }
  }

  /** Text that may stand between markers: complete lines, no line directive, no open comment. */
  predicate Admissible(t: string) {
    t != "" && Terminated(t) && Quiet(Lines(t), FRESH) && LexAfter(Lines(t), FRESH) == FRESH
  }

  // ---- the generator's own lines ----------------------------------------------------------

  predicate PlainChar(c: char) {
    c != '/' && c != '*' && c != '"' && c != '\'' && c != '\\' && c != '\n'
  }

  predicate Plain(s: string) {
    forall c <- s :: PlainChar(c)
  }

  /** Outside a comment a `*` is as good as any other character. */
  predicate Bland(s: string) {
    forall c <- s :: PlainChar(c) || c == '*'
  }

  lemma PlainHasNoQuote(s: string)
    requires Plain(s)
    ensures '"' !in s && '\\' !in s
  {
  }

  lemma {:induction false} ScanPlain(s: string, rest: string)
    requires Bland(s)
    ensures Scan(InCode, s + rest) == (s + Scan(InCode, rest).0, Scan(InCode, rest).1)
  {
    if s == "" {
      assert s + rest == rest;
      assert s + Scan(InCode, rest).0 == Scan(InCode, rest).0;
    } else {
      assert (s + rest)[1..] == s[1..] + rest;
      ScanPlain(s[1..], rest);
      assert s[0] in s;
      var x := Scan(InCode, rest).0;
      assert [s[0]] + (s[1..] + x) == s + x;
    }
  }

  lemma {:induction false} ScanPlainQuoted(s: string)
    requires Plain(s)
    ensures Scan(InString, s + "\"") == (s + "\"", InCode)
  {
    if s == "" {
      assert s + "\"" == "\"";
      assert "\""[1..] == "" && Scan(InCode, "") == ("", InCode);
      assert "\"" + "" == "\"";
    } else {
      assert (s + "\"")[1..] == s[1..] + "\"";
      ScanPlainQuoted(s[1..]);
      assert s[0] in s;
      assert [s[0]] + (s[1..] + "\"") == s + "\"";
    }
  }

  lemma {:induction false} ScanCommentBody(s: string)
    requires Plain(s)
    ensures Scan(InComment, s + "*/") == ("", InCode)
  {
    if s == "" {
      assert s + "*/" == "*/";
    } else {
      assert (s + "*/")[1..] == s[1..] + "*/";
      ScanCommentBody(s[1..]);
      assert s[0] in s;
    }
  }

  function MarkerLine(n: nat, file: string): string {
    "#line " + Dec(n) + " \"" + file + "\""
  }

  lemma {:induction false} DigitRunOf(d: string, rest: string)
    requires forall c <- d :: IsDigit(c)
    requires rest != "" ==> !IsDigit(rest[0])
    ensures DigitRun(d + rest) == |d|
  {
    if d == "" {
      assert d + rest == rest;
    } else {
      assert (d + rest)[1..] == d[1..] + rest;
      DigitRunOf(d[1..], rest);
    }
  }

  lemma {:induction false} QuoteIndexOf(f: string)
    requires '"' !in f && '\\' !in f
    ensures QuoteIndex(f + "\"") == |f|
  {
    if f == "" {
      assert f + "\"" == "\"";
    } else {
      assert (f + "\"")[1..] == f[1..] + "\"";
      QuoteIndexOf(f[1..]);
    }
  }

  lemma OperandsOfMarker(n: nat, file: string)
    requires '"' !in file && '\\' !in file
    ensures Operands(Dec(n) + (" \"" + (file + "\""))) == Some(Target(n, Some(file)))
  {
    hide DigitRun, Value, SkipBlanks, QuoteIndex, Dec;
    var rest := " \"" + (file + "\"");
    var s := Dec(n) + rest;
    DigitRunOf(Dec(n), rest);
    assert s[..|Dec(n)|] == Dec(n) && s[|Dec(n)|..] == rest;
    ValueOfDec(n);
    BlankSkipped(file + "\"");
    QuoteIndexOf(file);
    var c := "\"" + (file + "\"");
    assert c[1..] == file + "\"" && c[1..|file| + 1] == file;
    assert c[|file| + 2..] == "" && SkipBlanks("") == "";
  }

  lemma BlankSkipped(s: string)
    ensures SkipBlanks(" \"" + s) == "\"" + s && SkipBlanks("") == ""
  {
    assert (" \"" + s)[1..] == "\"" + s;
  }

  lemma MarkerIsDirective(n: nat, file: string)
    requires '"' !in file && '\\' !in file
    ensures Directive(MarkerLine(n, file)) == Some(Target(n, Some(file)))
  {
    var l := MarkerLine(n, file);
    var rest := Dec(n) + (" \"" + (file + "\""));
    assert l == "#line " + rest;
    assert Keyword(l) == Some(rest) by {
      assert l[0] == '#' && !IsBlank('#') && SkipBlanks(l) == l;
      assert l[1] == 'l' && SkipBlanks(l[1..]) == l[1..];
      assert Hash(l) == Some(l[1..]) && l[1..][4..] == " " + rest;
      assert (" " + rest)[1..] == rest;
      assert !IsBlank(rest[0]) by { assert rest[0] == Dec(n)[0] && Dec(n)[0] in Dec(n); }
      assert SkipBlanks(rest) == rest;
      assert SkipBlanks(" " + rest) == rest;
    }
    OperandsOfMarker(n, file);
  }

  // ---- how a directive can be written -------------------------------------------------------------------------

  predicate Blanks(s: string) {
    forall c <- s :: c in " \t\U{0b}\U{0c}"
  }

  lemma {:induction false} BlanksSkipped(b: string, s: string)
    requires Blanks(b) && (s != "" ==> !IsBlank(s[0]))
    ensures SkipBlanks(b + s) == s
  {
    if b == "" {
      assert b + s == s;
    } else {
      assert b[0] in b && (b + s)[1..] == b[1..] + s;
      BlanksSkipped(b[1..], s);
    }
  }

  lemma KeywordSpelled(lead: string, mark: string, gap: string, space: string, rest: string)
    requires Blanks(lead) && Blanks(gap) && Blanks(space) && space != "" && (mark == "#" || mark == "%:")
    requires rest != "" && !IsBlank(rest[0])
    ensures Keyword(lead + (mark + (gap + ("line" + (space + rest))))) == Some(rest)
  {
    hide SkipBlanks;
    var c := "line" + (space + rest);
    BlanksSkipped(lead, mark + (gap + c));
    BlanksSkipped(gap, c);
    BlanksSkipped(space, rest);
    assert (mark + (gap + c))[|mark|..] == gap + c;
    assert c[4..] == space + rest && space[0] in space;
  }

  /** Every spelling of a line directive is one, with any blanks around its parts and either spelling of `#`;
      what it says is a matter of its operands. */
  lemma DirectiveSpelled(lead: string, mark: string, gap: string, space: string, rest: string)
    requires Blanks(lead) && Blanks(gap) && Blanks(space) && space != "" && (mark == "#" || mark == "%:")
    requires rest != "" && IsDigit(rest[0])
    ensures Directive(lead + (mark + (gap + ("line" + (space + rest))))) == Operands(rest)
  {
    hide Keyword, Operands;
    KeywordSpelled(lead, mark, gap, space, rest);
  }

  lemma BlanksAreNoDigits(b: string, s: string)
    requires Blanks(b) && (s != "" ==> !IsDigit(s[0]))
    ensures b + s != "" ==> !IsDigit((b + s)[0])
  {
    assert b != "" ==> b[0] in b;
  }

  /** The operands: a number alone, or a number and a file name. */
  lemma LineOperand(n: nat, tail: string)
    requires Blanks(tail)
    ensures Operands(Dec(n) + tail) == Some(Target(n, None))
  {
    hide DigitRun, Value, SkipBlanks, QuoteIndex, Dec;
    BlanksAreNoDigits(tail, "");
    assert tail + "" == tail;
    DigitRunOf(Dec(n), tail);
    assert (Dec(n) + tail)[..|Dec(n)|] == Dec(n) && (Dec(n) + tail)[|Dec(n)|..] == tail;
    ValueOfDec(n);
    BlanksSkipped(tail, "");
  }

  lemma FileOperand(n: nat, middle: string, file: string, tail: string)
    requires Blanks(middle) && Blanks(tail) && '"' !in file && '\\' !in file
    ensures Operands(Dec(n) + (middle + ("\"" + (file + ("\"" + tail))))) == Some(Target(n, Some(file)))
  {
    hide DigitRun, Value, SkipBlanks, QuoteIndex, Dec;
    var c := "\"" + (file + ("\"" + tail));
    BlanksAreNoDigits(middle, c);
    DigitRunOf(Dec(n), middle + c);
    assert (Dec(n) + (middle + c))[..|Dec(n)|] == Dec(n) && (Dec(n) + (middle + c))[|Dec(n)|..] == middle + c;
    ValueOfDec(n);
    BlanksSkipped(middle, c);
    QuoteIndexBehind(file, tail);
    assert c[1..] == file + ("\"" + tail) && c[1..|file| + 1] == file && c[|file| + 2..] == tail;
    BlanksSkipped(tail, "");
    assert tail + "" == tail;
  }

  lemma {:induction false} QuoteIndexBehind(f: string, s: string)
    requires '"' !in f && '\\' !in f
    ensures QuoteIndex(f + ("\"" + s)) == |f|
  {
    if f == "" {
      assert f + ("\"" + s) == "\"" + s;
    } else {
      assert (f + ("\"" + s))[1..] == f[1..] + ("\"" + s);
      QuoteIndexBehind(f[1..], s);
    }
  }

  lemma ScanMarker(n: nat, file: string)
    requires Plain(file)
    ensures var l := MarkerLine(n, file); OneLine(l) && Scan(InCode, l) == (l, InCode) && !Spliced(l)
  {
    var head, tail := "#line " + Dec(n) + " ", "\"" + (file + "\"");
    assert MarkerLine(n, file) == head + tail;
    assert forall c <- Dec(n) :: IsDigit(c);
    ScanPlain(head, tail);
    assert tail[1..] == file + "\"";
    ScanPlainQuoted(file);
    assert Scan(InCode, tail) == (tail, InCode) by {
      assert ['"'] + (file + "\"") == tail;
    }
  }

  /** A marker moves the reader to its operands and is not itself placed. */
  lemma ReadMarker(n: nat, file: string, p: Pos)
    requires Plain(file) && p.lex == FRESH
    ensures OneLine(MarkerLine(n, file))
    ensures Read([MarkerLine(n, file)], p) == []
    ensures After([MarkerLine(n, file)], p) == Pos(file, n, FRESH)
  {
    hide Scan, Directive, MarkerLine;
    var l := MarkerLine(n, file);
    ScanMarker(n, file);
    PlainHasNoQuote(file);
    MarkerIsDirective(n, file);
    assert "" + l == l;
    assert NextLex(FRESH, l) == FRESH;
    assert Step(p, l) == Pos(file, n, FRESH);
    assert [l][1..] == [];
  }

  lemma {:induction false} ScanOpenComment(l: string)
    requires '*' !in l
    ensures Scan(InComment, l) == ("", InComment)
  {
    if l != "" {
      ScanOpenComment(l[1..]);
    }
  }

  lemma {:induction false} MarkerHasNoStar(n: nat, file: string)
    requires Plain(file)
    ensures '*' !in MarkerLine(n, file)
  {
    assert forall c <- Dec(n) :: IsDigit(c);
    assert '*' !in "#line ";
  }

  /** A text that leaves a comment open swallows the marker behind it: the reader counts on in the old
      file. This is why items must close their comments. */
  lemma OpenCommentHidesMarker(t: string, n: nat, file: string, p: Pos)
    requires Terminated(t) && Quiet(Lines(t), FRESH)
    requires var x := LexAfter(Lines(t), FRESH); x.mode == InComment && x.raw == ""
    requires Plain(file) && p.lex == FRESH
    ensures var q := After(Lines(t + MarkerLine(n, file) + "\n"), p);
      q.file == p.file && q.line == p.line + |Lines(t)| + 1 && q.lex.mode == InComment
    ensures Read(Lines(t + MarkerLine(n, file) + "\n"), p)
         == PlaceAll(Lines(t), p.file, p.line) + [Placed(MarkerLine(n, file), p.file, p.line + |Lines(t)|)]
  {
    hide MarkerLine, Quiet, LexAfter, Lines, Read, After, PlaceAll, OneLine;
    var l := MarkerLine(n, file);
    ReadMarker(n, file, p);
    MarkerHasNoStar(n, file);
    ScanMarker(n, file);
    LinesOfLine(l);
    assert t + l + "\n" == t + (l + "\n");
    LinesAppend(t, l + "\n");
    ReadQuiet(Lines(t), p);
    ReadAppend(Lines(t), [l], p);
    ReadInComment(l, After(Lines(t), p));
  }

  lemma ReadInComment(l: string, p: Pos)
    requires '*' !in l && !Spliced(l) && p.lex.mode == InComment && p.lex.raw == ""
    ensures Read([l], p) == [Placed(l, p.file, p.line)]
    ensures var q := After([l], p); q.file == p.file && q.line == p.line + 1 && q.lex.mode == InComment
  {
    ScanOpenComment(l);
    assert "" + l == l && [l][1..] == [];
  }

  lemma ScanBland(l: string)
    requires Bland(l)
    ensures Scan(InCode, l) == (l, InCode) && OneLine(l) && !Spliced(l)
  {
    ScanPlain(l, "");
    assert l + "" == l && Scan(InCode, "") == ("", InCode);
    assert l != "" ==> l[|l| - 1] in l;
  }

  lemma OtherIsNoDirective(l: string)
    requires SkipBlanks(l) != "" && SkipBlanks(l)[0] != '#' && SkipBlanks(l)[0] != '%'
    ensures Directive(l) == None && l != ""
  {
  }

  /** A line without a leading `#` and without comment or quote characters is admissible. */
  lemma PlainLineAdmissible(l: string)
    requires Bland(l)
    requires SkipBlanks(l) != "" && SkipBlanks(l)[0] != '#' && SkipBlanks(l)[0] != '%'
    ensures Admissible(l + "\n")
  {
    hide Scan, Directive, SkipBlanks, Lines, Bland;
    ScanBland(l);
    OtherIsNoDirective(l);
    LinesOfLine(l);
    assert "" + l == l;
    assert NextLex(FRESH, l) == FRESH && DirectiveAt(FRESH, l) == None;
    assert [l][1..] == [];
    assert LexAfter([], FRESH) == FRESH && Quiet([], FRESH);
    assert LexAfter([l], FRESH) == FRESH && Quiet([l], FRESH);
  }

  function BannerLine(name: string): string {
    "/* " + name + " */"
  }

  lemma ScanBanner(name: string)
    requires Plain(name)
    ensures var l := BannerLine(name);
      OneLine(l) && !Spliced(l) && Scan(InCode, l) == (" ", InCode) && Scan(InComment, l) == ("", InCode)
  {
    var l, body := BannerLine(name), " " + name + " ";
    assert l[2..] == body + "*/" && l[1..][1..] == l[2..];
    ScanCommentBody(body);
    assert Opens(l, '/', '*') && " " + "" == " ";
    assert !Opens(l, '*', '/') && !Opens(l[1..], '*', '/');
  }

  /** No directive is complete when a banner closes whatever comment is open. */
  predicate Closable(x: Lex) {
    x.mode == InComment ==> Directive(x.text) == None
  }

  /** A banner is a comment by itself and closes an open one. */
  lemma BannerReads(name: string, x: Lex)
    requires Plain(name) && Settled(x)
    ensures NextLex(x, BannerLine(name)) == FRESH
    ensures DirectiveAt(x, BannerLine(name)) == None <==> Closable(x)
  {
    hide Scan, Directive, BannerLine;
    var l := BannerLine(name);
    ScanBanner(name);
    BlankIsNoDirective();
    assert "" + l == l && "" + " " == " " && x.text + "" == x.text;
  }

  lemma BlankIsNoDirective()
    ensures Directive(" ") == None
  {
    assert SkipBlanks(" ") == "";
  }
}
