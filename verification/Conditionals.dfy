/** What conditional inclusion, section 6.10.1 of ISO/IEC 9899:2011, does to a printed program: a marker in
    a skipped group is not executed. The values of the conditions are whatever the compiler finds. */
module Conditionals {
  import opened Text
  import opened LineControl
  import opened Emitter
  import opened Reading
  import opened Program
  import opened Positions

  // ---- the directives -----------------------------------------------------------------------------------

  datatype Conditional = If | Elif | Else | Endif

  predicate IsWordChar(c: char) {
    'a' <= c <= 'z' || 'A' <= c <= 'Z' || c == '_' || IsDigit(c)
  }

  predicate StartsWord(s: string, w: string) {
    |s| >= |w| && s[..|w|] == w && (|s| == |w| || !IsWordChar(s[|w|]))
  }

  /** The conditional directive that a logical line is, if any. */
  function ConditionalOf(l: string): Option<Conditional> {
    match Hash(l)
    case None => None
    case Some(a) =>
      var b := SkipBlanks(a);
      if StartsWord(b, "if") || StartsWord(b, "ifdef") || StartsWord(b, "ifndef") then Some(If)
      else if StartsWord(b, "elif") then Some(Elif)
      else if StartsWord(b, "else") then Some(Else)
      else if StartsWord(b, "endif") then Some(Endif)
      else None
  }

  lemma WordSpelled(lead: string, mark: string, gap: string, word: string, rest: string)
    requires Blanks(lead) && Blanks(gap) && (mark == "#" || mark == "%:") && word != "" && !IsBlank(word[0])
    ensures var h := Hash(lead + (mark + (gap + (word + rest)))); h.Some? && SkipBlanks(h.value) == word + rest
  {
    hide SkipBlanks;
    BlanksSkipped(lead, mark + (gap + (word + rest)));
    BlanksSkipped(gap, word + rest);
    assert (mark + (gap + (word + rest)))[|mark|..] == gap + (word + rest);
  }

  /** Each conditional directive, with any blanks around its parts and either spelling of `#`. */
  lemma ConditionalSpelled(lead: string, mark: string, gap: string, word: string, rest: string)
    requires Blanks(lead) && Blanks(gap) && (mark == "#" || mark == "%:") && (rest != "" ==> !IsWordChar(rest[0]))
    requires word in {"if", "ifdef", "ifndef", "elif", "else", "endif"}
    ensures ConditionalOf(lead + (mark + (gap + (word + rest)))) == Some(
      if word == "elif" then Elif else if word == "else" then Else else if word == "endif" then Endif else If)
  {
    hide Hash, SkipBlanks;
    WordSpelled(lead, mark, gap, word, rest);
    WordStarts(word, rest);
  }

  lemma WordStarts(word: string, rest: string)
    requires word in {"if", "ifdef", "ifndef", "elif", "else", "endif"} && (rest != "" ==> !IsWordChar(rest[0]))
    ensures forall w: string :: w in {"if", "ifdef", "ifndef", "elif", "else", "endif"} ==>
      (StartsWord(word + rest, w) <==> w == word)
  {
    forall w: string | w in {"if", "ifdef", "ifndef", "elif", "else", "endif"}
      ensures StartsWord(word + rest, w) <==> w == word
    {
      WordAgainst(word, rest, w);
    }
  }

  lemma WordAgainst(word: string, rest: string, w: string)
    requires (forall c <- word :: IsWordChar(c)) && (forall c <- w :: IsWordChar(c))
    requires rest != "" ==> !IsWordChar(rest[0])
    ensures StartsWord(word + rest, w) <==> w == word
  {
    var s := word + rest;
    assert s[..|word|] == word;
    if |w| < |word| {
      assert s[|w|] == word[|w|] && word[|w|] in word;
    } else if |word| < |w| <= |s| {
      assert s[..|w|][|word|] == rest[0] && w[|word|] in w;
    }
  }

  /** The conditional directive that is complete with this physical line. */
  function ConditionalAt(x: Lex, l: string): Option<Conditional> {
    if Spliced(l) then None
    else
      var r := Scan(x.mode, x.raw + l);
      if r.1 == InComment then None else ConditionalOf(x.text + r.0)
  }

  // ---- groups ---------------------------------------------------------------------------------------------

  /** An open group: whether its current branch is read, whether no other branch can be read any more, and
      whether the branch is the one behind `else`. */
  datatype Group = Group(on: bool, done: bool, last: bool)

  /** The values of the conditions, in the order in which they are evaluated. */
  datatype Answers = Answers(given: seq<bool>, others: bool) {
    function Next(): bool {
      if given == [] then others else given[0]
    }

    function Later(): Answers {
      if given == [] then this else Answers(given[1..], others)
    }
  }

  datatype Nest = Nest(open: seq<Group>, answers: Answers)

  predicate Kept(g: Nest) {
    forall x <- g.open :: x.on
  }

  /** In a skipped group directives are only looked at to keep track of the nesting. A directive that has
      no place where it stands is an error, and is passed over here. */
  function Enter(g: Nest, c: Conditional): Nest {
    var n := |g.open|;
    if c.If? then
      if Kept(g) then Nest(g.open + [Group(g.answers.Next(), g.answers.Next(), false)], g.answers.Later())
      else Nest(g.open + [Group(false, true, false)], g.answers)
    else if n == 0 then g
    else if c.Endif? then Nest(g.open[..n - 1], g.answers)
    else if g.open[n - 1].last then g
    else if c.Else? then Nest(g.open[..n - 1] + [Group(!g.open[n - 1].done, true, true)], g.answers)
    else if g.open[n - 1].done then Nest(g.open[..n - 1] + [Group(false, true, false)], g.answers)
    else Nest(g.open[..n - 1] + [Group(g.answers.Next(), g.answers.Next(), false)], g.answers.Later())
  }

  function NextNest(g: Nest, x: Lex, l: string): Nest {
    match ConditionalAt(x, l)
    case None => g
    case Some(c) => Enter(g, c)
  }

  function NestAfter(ls: seq<string>, x: Lex, g: Nest): Nest {
    if ls == [] then g else NestAfter(ls[1..], NextLex(x, ls[0]), NextNest(g, x, ls[0]))
  }

  // ---- the reader -----------------------------------------------------------------------------------------

  /** The presumed position of every line that is not an executed line directive. */
  function ReadKept(ls: seq<string>, p: Pos, g: Nest): seq<Placed> {
    if ls == [] then []
    else
      var next := NextNest(g, p.lex, ls[0]);
      if DirectiveAt(p.lex, ls[0]).Some? && Kept(g) then ReadKept(ls[1..], Step(p, ls[0]), next)
      else [Placed(ls[0], p.file, p.line)] + ReadKept(ls[1..], Pos(p.file, p.line + 1, NextLex(p.lex, ls[0])), next)
  }

  /** Every line directive is executed. */
  predicate NothingSkipped(ls: seq<string>, x: Lex, g: Nest) {
    ls == [] ||
    ((DirectiveAt(x, ls[0]).Some? ==> Kept(g)) && NothingSkipped(ls[1..], NextLex(x, ls[0]), NextNest(g, x, ls[0])))
  }

  lemma StepLex(p: Pos, l: string)
    ensures Step(p, l).lex == NextLex(p.lex, l)
  {
    hide Scan, Directive;
  }

  /** A skipped directive is one line more. */
  lemma {:induction false} SkippedIsLonger(ls: seq<string>, p: Pos, q: Pos, g: Nest)
    requires p.lex == q.lex
    ensures |ReadKept(ls, p, g)| >= |Read(ls, q)|
    ensures |ReadKept(ls, p, g)| == |Read(ls, q)| <==> NothingSkipped(ls, p.lex, g)
    decreases |ls|
  {
    hide DirectiveAt, NextLex, NextNest, Kept;
    if ls != [] {
      var next := NextNest(g, p.lex, ls[0]);
      StepLex(p, ls[0]);
      StepLex(q, ls[0]);
      if DirectiveAt(p.lex, ls[0]).Some? && Kept(g) {
        SkippedIsLonger(ls[1..], Step(p, ls[0]), Step(q, ls[0]), next);
      } else {
        SkippedIsLonger(ls[1..], Pos(p.file, p.line + 1, NextLex(p.lex, ls[0])), Step(q, ls[0]), next);
      }
    }
  }

  lemma {:induction false} NothingSkippedReads(ls: seq<string>, p: Pos, g: Nest)
    requires NothingSkipped(ls, p.lex, g)
    ensures ReadKept(ls, p, g) == Read(ls, p)
  {
    hide NextLex, NextNest, Kept;
    if ls != [] {
      StepLex(p, ls[0]);
      NothingSkippedReads(ls[1..], Step(p, ls[0]), NextNest(g, p.lex, ls[0]));
    }
  }

  /** Conditional inclusion makes no difference if and only if no line directive is skipped. */
  lemma SameReading(ls: seq<string>, p: Pos, g: Nest)
    ensures ReadKept(ls, p, g) == Read(ls, p) <==> NothingSkipped(ls, p.lex, g)
  {
    hide ReadKept, Read, NothingSkipped;
    SkippedIsLonger(ls, p, p, g);
    if NothingSkipped(ls, p.lex, g) {
      NothingSkippedReads(ls, p, g);
    }
  }

  // ---- where a directive can be skipped in a program ----------------------------------------------------------

  lemma {:induction false} SkippedAppend(a: seq<string>, b: seq<string>, x: Lex, g: Nest)
    ensures NothingSkipped(a + b, x, g) <==>
      NothingSkipped(a, x, g) && NothingSkipped(b, LexAfter(a, x), NestAfter(a, x, g))
  {
    hide DirectiveAt, NextLex, NextNest, Kept;
    if a == [] {
      assert a + b == b;
    } else {
      assert (a + b)[1..] == a[1..] + b;
      SkippedAppend(a[1..], b, NextLex(x, a[0]), NextNest(g, x, a[0]));
    }
  }

  lemma {:induction false} QuietSkipsNothing(ls: seq<string>, x: Lex, g: Nest)
    requires Quiet(ls, x)
    ensures NothingSkipped(ls, x, g)
  {
    hide DirectiveAt, NextLex, NextNest, Kept;
    if ls != [] {
      QuietSkipsNothing(ls[1..], NextLex(x, ls[0]), NextNest(g, x, ls[0]));
    }
  }

  lemma LineIsNotConditional(l: string)
    requires Directive(l).Some?
    ensures ConditionalOf(l) == None
  {
    var b := SkipBlanks(Hash(l).value);
    assert b[..2][1] == 'i' && "if"[1] == 'f' && b[..4][0] == 'l';
    assert |b| >= 5 ==> b[..5][0] == 'l';
    assert |b| >= 6 ==> b[..6][0] == 'l';
  }

  /** A marker is executed exactly in a kept group, and opens or closes none. */
  lemma MarkerKept(n: nat, file: string, g: Nest)
    requires Plain(file)
    ensures var ls := [MarkerLine(n, file)];
      (NothingSkipped(ls, FRESH, g) <==> Kept(g)) && LexAfter(ls, FRESH) == FRESH && NestAfter(ls, FRESH, g) == g
  {
    hide Scan, Directive, MarkerLine, ConditionalOf, Kept, Enter, Plain;
    var l := MarkerLine(n, file);
    ScanMarker(n, file);
    PlainHasNoQuote(file);
    MarkerIsDirective(n, file);
    LineIsNotConditional(l);
    assert "" + l == l && [l][1..] == [];
    assert NextLex(FRESH, l) == FRESH && NextNest(g, FRESH, l) == g && DirectiveAt(FRESH, l).Some?;
    assert NothingSkipped([], FRESH, g) && LexAfter([], FRESH) == FRESH && NestAfter([], FRESH, g) == g;
  }

  /** Every fragment begins in a kept group. */
  predicate MarkersKept(es: seq<Emission>, x: Lex, g: Nest) {
    es == [] ||
    var ls := Lines(es[0].text);
    (es[0].Body? ==> Kept(g)) && MarkersKept(es[1..], LexAfter(ls, x), NestAfter(ls, x, g))
  }

  lemma MarkedFront(e: Emission, rest: string)
    requires Written(e)
    ensures Lines(Emit(e, e.Body?, rest))
         == (if e.Body? then [MarkerLine(e.line, e.file)] else []) + (Lines(e.text) + Lines(rest))
  {
    hide Lines, MarkerLine, OneLine, Plain, EndsPlainly, IsBannerText, Terminated;
    LinesAppend(e.text, rest);
    if e.Body? {
      var l := MarkerLine(e.line, e.file);
      ScanMarker(e.line, e.file);
      LinesOfLine(l);
      assert Marker(e) + e.text + rest == l + "\n" + (e.text + rest);
      LinesAppend(l + "\n", e.text + rest) by { LineTerminated(l); }
    } else {
      assert "" + e.text + rest == e.text + rest;
      assert [] + (Lines(e.text) + Lines(rest)) == Lines(e.text) + Lines(rest);
    }
  }

  lemma {:induction false} SkippedExactly(es: seq<Emission>, x: Lex, g: Nest)
    requires (forall e <- es :: Written(e)) && Undisturbed(es, x)
    ensures NothingSkipped(Lines(Marked(es)), x, g) <==> MarkersKept(es, x, g)
  {
    hide Lines, Quiet, LexAfter, NestAfter, MarkerLine, NothingSkipped, Kept, Emit, Written;
    if es == [] {
      NothingToSkip(x, g);
    } else {
      var e, ls, rest := es[0], Lines(es[0].text), Marked(es[1..]);
      assert Written(e) && forall d <- es[1..] :: d in es;
      MarkedFront(e, rest);
      QuietSkipsNothing(ls, x, g);
      SkippedAppend(ls, Lines(rest), x, g);
      SkippedExactly(es[1..], LexAfter(ls, x), NestAfter(ls, x, g));
      if e.Body? {
        var l := MarkerLine(e.line, e.file);
        MarkerKept(e.line, e.file, g) by { PlainFile(e); }
        SkippedAppend([l], ls + Lines(rest), FRESH, g);
      } else {
        assert [] + (ls + Lines(rest)) == ls + Lines(rest);
      }
    }
  }

  lemma NothingToSkip(x: Lex, g: Nest)
    ensures NothingSkipped(Lines(Marked([])), x, g)
  {
  }

  // ---- the whole program ----------------------------------------------------------------------------------

  lemma {:induction false} QuietAppend(a: seq<string>, b: seq<string>, x: Lex)
    ensures Quiet(a + b, x) <==> Quiet(a, x) && Quiet(b, LexAfter(a, x))
    ensures LexAfter(a + b, x) == LexAfter(b, LexAfter(a, x))
  {
    hide DirectiveAt, NextLex;
    if a == [] {
      assert a + b == b;
    } else {
      assert (a + b)[1..] == a[1..] + b;
      QuietAppend(a[1..], b, NextLex(x, a[0]));
    }
  }

  /** A banner and a piece of two internal lines behind it. */
  lemma PieceUndisturbed(name: string, line: nat, a: string, b: string, x: Lex)
    requires Plain(name) && Settled(x) && Closable(x) && OwnLine(a) && OwnLine(b)
    ensures var es := [Banner(name), InternalLine(line, a + b)];
      Undisturbed(es, x) && LexOver(es, x) == FRESH && forall e <- es :: Written(e)
  {
    hide Quiet, Lines, LexAfter, Plain, Settled, Closable, Banner;
    var k := InternalLine(line, a + b);
    BannerLines(name, x);
    BannerWritten(name);
    LinesAppend(a, b);
    QuietAppend(Lines(a), Lines(b), FRESH);
    assert [Banner(name), k][1..] == [k] && [k][1..] == [];
    assert (a + b)[|a + b| - 1] == b[|b| - 1] && (a + b)[|a + b| - 2] == b[|b| - 2];
    InternalIsPlain();
    BannerIsANote(name);
    assert Undisturbed([], FRESH) && LexOver([], FRESH) == FRESH;
    assert Undisturbed([k], FRESH) && LexOver([k], FRESH) == FRESH;
  }

  lemma BannerIsANote(name: string)
    ensures Banner(name).Note?
  {
  }

  /** Some sections and the internal piece behind them. */
  lemma SectionsAndPiece(parts: seq<Part>, piece: seq<Emission>)
    requires (forall part <- parts :: Plain(part.name) && Legible(part)) && forall e <- Sections(parts) :: Written(e)
    requires var x := LexOver(Sections(parts), FRESH);
      Settled(x) && Closable(x) ==> Undisturbed(piece, x) && LexOver(piece, x) == FRESH
    ensures Undisturbed(Sections(parts) + piece, FRESH) && LexOver(Sections(parts) + piece, FRESH) == FRESH
  {
    hide Undisturbed, LexOver, Written, Plain, Legible, Sections, Settled, Closable;
    FreshIsSettled();
    SectionsLegible(parts, FRESH);
    SettledOver(Sections(parts), FRESH);
    UndisturbedAppend(Sections(parts), piece, FRESH);
  }

  /** In a legible program every fragment begins in plain code and completes no line directive. */
  lemma PiecesUndisturbed(p: Piles)
    requires LegiblePiles(p)
    ensures Undisturbed(Pieces(p), FRESH) && forall e <- Pieces(p) :: Written(e)
  {
    hide Undisturbed, LexOver, Written, Plain, Legible, Sections, Settled, Closable, OwnLine, Head, Inner, Banner;
    NamesArePlain(p);
    PlanWritten(p);
    OwnLines();
    InternalIsPlain();
    var h, i := Sections(Head(p)), Sections(Inner(p));
    var x, y := LexOver(h, FRESH), LexOver(i, FRESH);
    FreshIsSettled();
    SettledOver(h, FRESH);
    SettledOver(i, FRESH);
    PairsUndisturbed(x);
    PairsUndisturbed(y);
    SectionsAndPiece(Head(p), OpeningPiece());
    SectionsAndPiece(Inner(p), ClosingPiece());
    assert Pieces(p) == (h + OpeningPiece()) + (i + ClosingPiece());
    UndisturbedAppend(h + OpeningPiece(), i + ClosingPiece(), FRESH);
  }

  lemma PairsUndisturbed(x: Lex)
    requires Settled(x)
    ensures (forall e <- OpeningPiece() :: Written(e)) && forall e <- ClosingPiece() :: Written(e)
    ensures Closable(x) ==> Undisturbed(OpeningPiece(), x) && LexOver(OpeningPiece(), x) == FRESH
    ensures Closable(x) ==> Undisturbed(ClosingPiece(), x) && LexOver(ClosingPiece(), x) == FRESH
  {
    hide Undisturbed, LexOver, Written, Plain, Settled, Closable, OwnLine, Banner;
    OwnLines();
    InternalIsPlain();
    FreshIsSettled();
    var y := if Closable(x) then x else FRESH;
    SamePiece("main", 186, MAIN_LINE, RET_LINE);
    SamePiece("done", 201, RETURN_LINE, END_LINE);
    PieceUndisturbed("main", 186, MAIN_LINE + "\n", RET_LINE + "\n", y);
    PieceUndisturbed("done", 201, RETURN_LINE + "\n", END_LINE + "\n", y);
  }

  lemma SamePiece(name: string, line: nat, a: string, b: string)
    ensures [Banner(name), InternalLine(line, a + "\n" + b + "\n")]
         == [Banner(name), InternalLine(line, a + "\n" + (b + "\n"))]
  {
    assert a + "\n" + b + "\n" == a + "\n" + (b + "\n");
  }

  /** With conditional inclusion a legible program is read as it was meant if and only if every marker
      stands in a kept group; and where nothing is skipped, only legible programs are. */
  lemma KeptFaithful(p: Piles, start: Pos, g: Nest)
    requires start.lex == FRESH
    ensures LegiblePiles(p) ==>
      (ReadKept(Lines(Printed(p)), start, g) == Intended(Plan(p), start.file, start.line) <==>
        MarkersKept(Pieces(p), FRESH, g))
    ensures NothingSkipped(Lines(Printed(p)), FRESH, g) ==>
      (ReadKept(Lines(Printed(p)), start, g) == Intended(Plan(p), start.file, start.line) <==> LegiblePiles(p))
  {
    hide Read, ReadKept, Lines, Intended, Plan, LegiblePiles, NothingSkipped, MarkersKept, Pieces, Marked, Written,
         Undisturbed;
    PositionsFaithful(p, start);
    SameReading(Lines(Printed(p)), start, g);
    if LegiblePiles(p) {
      PiecesUndisturbed(p);
      SkippedExactly(Pieces(p), FRESH, g);
    }
  }

  // ---- whatever the conditions are ------------------------------------------------------------------------

  /** How many groups are open behind the lines: a matter of the text alone. */
  function Depth(ls: seq<string>, x: Lex, d: nat): nat {
    if ls == [] then d else Depth(ls[1..], NextLex(x, ls[0]), DepthNext(ConditionalAt(x, ls[0]), d))
  }

  function DepthNext(c: Option<Conditional>, d: nat): nat {
    if c == Some(If) then d + 1
    else if c == Some(Endif) && d > 0 then d - 1
    else d
  }

  /** No fragment begins in an open group. */
  predicate Outside(es: seq<Emission>, x: Lex, d: nat) {
    es == [] ||
    var ls := Lines(es[0].text);
    (es[0].Body? ==> d == 0) && Outside(es[1..], LexAfter(ls, x), Depth(ls, x, d))
  }

  lemma {:induction false} DepthOfNest(ls: seq<string>, x: Lex, g: Nest)
    ensures |NestAfter(ls, x, g).open| == Depth(ls, x, |g.open|)
  {
    hide NextLex, ConditionalAt, Kept;
    if ls != [] {
      DepthOfNest(ls[1..], NextLex(x, ls[0]), NextNest(g, x, ls[0]));
    }
  }

  lemma {:induction false} OutsideIsKept(es: seq<Emission>, x: Lex, g: Nest)
    requires Outside(es, x, |g.open|)
    ensures MarkersKept(es, x, g)
  {
    hide Lines, LexAfter, NestAfter, Depth;
    if es != [] {
      var ls := Lines(es[0].text);
      DepthOfNest(ls, x, g);
      OutsideIsKept(es[1..], LexAfter(ls, x), NestAfter(ls, x, g));
    }
  }

  /** With every condition false only branches behind `else` are read. */
  predicate AllFalse(g: Nest) {
    g.answers == Answers([], false) && forall x <- g.open :: x.on ==> x.last
  }

  /** With every condition true no branch behind `else` is read. */
  predicate AllTrue(g: Nest) {
    g.answers == Answers([], true) && forall x <- g.open :: x.done && (x.last ==> !x.on)
  }

  predicate SameShape(g: Nest, h: Nest) {
    |g.open| == |h.open| && forall i :: 0 <= i < |g.open| ==> g.open[i].last == h.open[i].last
  }

  lemma EnterFalse(g: Nest, c: Conditional)
    requires AllFalse(g)
    ensures AllFalse(Enter(g, c))
  {
    hide Kept;
  }

  lemma EnterTrue(g: Nest, c: Conditional)
    requires AllTrue(g)
    ensures AllTrue(Enter(g, c))
  {
    hide Kept;
    assert g.open != [] ==> g.open[|g.open| - 1] in g.open;
  }

  lemma EnterShape(g: Nest, h: Nest, c: Conditional)
    requires SameShape(g, h)
    ensures SameShape(Enter(g, c), Enter(h, c))
  {
    hide Kept;
  }

  lemma {:induction false} BothAfter(ls: seq<string>, x: Lex, g: Nest, h: Nest)
    requires AllFalse(g) && AllTrue(h) && SameShape(g, h)
    ensures AllFalse(NestAfter(ls, x, g)) && AllTrue(NestAfter(ls, x, h))
    ensures SameShape(NestAfter(ls, x, g), NestAfter(ls, x, h))
  {
    hide AllFalse, AllTrue, SameShape, Enter, ConditionalAt, NextLex;
    if ls != [] {
      match ConditionalAt(x, ls[0]) {
        case None =>
        case Some(c) =>
          EnterFalse(g, c);
          EnterTrue(h, c);
          EnterShape(g, h, c);
      }
      BothAfter(ls[1..], NextLex(x, ls[0]), NextNest(g, x, ls[0]), NextNest(h, x, ls[0]));
    }
  }

  /** In an open group something is skipped, either with every condition false or with every condition true. */
  lemma NotBothKept(g: Nest, h: Nest)
    requires AllFalse(g) && AllTrue(h) && SameShape(g, h) && g.open != []
    ensures !Kept(g) || !Kept(h)
  {
    var n := |g.open| - 1;
    assert g.open[n] in g.open && h.open[n] in h.open;
  }

  lemma {:induction false} BothKeptIsOutside(es: seq<Emission>, x: Lex, g: Nest, h: Nest)
    requires AllFalse(g) && AllTrue(h) && SameShape(g, h)
    requires MarkersKept(es, x, g) && MarkersKept(es, x, h)
    ensures Outside(es, x, |g.open|)
  {
    hide Lines, LexAfter, NestAfter, Depth, Kept, AllFalse, AllTrue, SameShape;
    if es != [] {
      var ls := Lines(es[0].text);
      if es[0].Body? && g.open != [] {
        NotBothKept(g, h);
      }
      DepthOfNest(ls, x, g);
      BothAfter(ls, x, g, h);
      BothKeptIsOutside(es[1..], LexAfter(ls, x), NestAfter(ls, x, g), NestAfter(ls, x, h));
    }
  }

  lemma NothingOpen()
    ensures var g, h := Nest([], Answers([], false)), Nest([], Answers([], true));
      AllFalse(g) && AllTrue(h) && SameShape(g, h)
  {
  }

  /** The program is read as it was meant, whatever its conditions are. */
  ghost predicate AlwaysFaithful(p: Piles, start: Pos) {
    forall a: Answers :: ReadKept(Lines(Printed(p)), start, Nest([], a)) == Intended(Plan(p), start.file, start.line)
  }

  /** A legible program is read as it was meant whatever its conditions are, if and only if no fragment
      begins in an open group. */
  lemma AlwaysFaithfulExactly(p: Piles, start: Pos)
    requires LegiblePiles(p) && start.lex == FRESH
    ensures AlwaysFaithful(p, start) <==> Outside(Pieces(p), FRESH, 0)
  {
    hide ReadKept, Lines, Intended, Plan, Printed, LegiblePiles, MarkersKept, Pieces, Outside;
    if Outside(Pieces(p), FRESH, 0) {
      forall a: Answers
        ensures ReadKept(Lines(Printed(p)), start, Nest([], a)) == Intended(Plan(p), start.file, start.line)
      {
        OutsideIsKept(Pieces(p), FRESH, Nest([], a));
        KeptFaithful(p, start, Nest([], a));
      }
    }
    if AlwaysFaithful(p, start) {
      var a, b := Answers([], false), Answers([], true);
      KeptFaithful(p, start, Nest([], a));
      KeptFaithful(p, start, Nest([], b));
      NothingOpen();
      BothKeptIsOutside(Pieces(p), FRESH, Nest([], a), Nest([], b));
    }
  }

  // ---- items that keep to themselves ------------------------------------------------------------------------

  /** An item whose printed form brings no line directive and closes its comments and its groups. */
  predicate Tame(fmt: Format, item: string) {
    var ls := Lines(Apply(fmt, item));
    Quiet(ls, FRESH) && LexAfter(ls, FRESH) == FRESH && Depth(ls, FRESH, 0) == 0
  }

  predicate TamePart(part: Part) {
    forall item <- part.items :: Tame(part.fmt, item)
  }

  predicate TameParts(parts: seq<Part>) {
    forall part <- parts :: TamePart(part)
  }

  predicate TamePiles(p: Piles) {
    TameParts(Head(p)) && TameParts(Inner(p))
  }

  /** A call behind which everything is as before. */
  predicate Neutral(e: Emission) {
    var ls := Lines(e.text);
    LexAfter(ls, FRESH) == FRESH && Depth(ls, FRESH, 0) == 0
  }

  lemma {:induction false} NeutralIsOutside(es: seq<Emission>)
    requires forall e <- es :: Neutral(e)
    ensures Outside(es, FRESH, 0)
  {
    hide Lines, LexAfter, Depth;
    if es != [] {
      assert Neutral(es[0]);
      NeutralIsOutside(es[1..]);
    }
  }

  lemma BannerNeutral(name: string)
    requires Plain(name)
    ensures Neutral(Banner(name))
  {
    hide BannerLine, Scan, ConditionalOf, NextLex, Plain, Quiet;
    var l := BannerLine(name);
    FreshIsSettled();
    BannerLines(name, FRESH);
    ScanBanner(name);
    LinesOfLine(l);
    assert "" + l == l && "" + " " == " " && [l][1..] == [];
    assert ConditionalAt(FRESH, l) == None by { BlankIsNoConditional(); }
    assert Depth([], FRESH, 0) == 0;
    assert Depth([l], FRESH, 0) == Depth([], NextLex(FRESH, l), 0);
  }

  lemma BlankIsNoConditional()
    ensures ConditionalOf(" ") == None
  {
    assert SkipBlanks(" ") == "";
  }

  lemma PieceNeutral(line: nat, a: string, b: string)
    requires Bland(a) && SkipBlanks(a) != "" && SkipBlanks(a)[0] != '#' && SkipBlanks(a)[0] != '%'
    requires Bland(b) && SkipBlanks(b) != "" && SkipBlanks(b)[0] != '#' && SkipBlanks(b)[0] != '%'
    ensures Neutral(InternalLine(line, a + "\n" + b + "\n"))
  {
    hide SkipBlanks, Scan, Bland, ConditionalOf, Lines, ConditionalAt, NextLex;
    ScanBland(a);
    ScanBland(b);
    LinesOfTwo(a, b);
    OtherIsNoConditional(a);
    OtherIsNoConditional(b);
    BlandLineConditional(a);
    BlandLineConditional(b);
    assert [a, b][1..] == [b] && [b][1..] == [];
    assert Depth([], FRESH, 0) == 0 && LexAfter([], FRESH) == FRESH;
    assert Depth([b], FRESH, 0) == 0 && LexAfter([b], FRESH) == FRESH;
  }

  lemma PiecesNeutral()
    ensures (forall e <- OpeningPiece() :: Neutral(e)) && forall e <- ClosingPiece() :: Neutral(e)
  {
    hide Neutral, Bland;
    MainIsBland();
    RetLine();
    ReturnLine();
    EndLine();
    InternalIsPlain();
    BannerNeutral("main");
    BannerNeutral("done");
    PieceNeutral(186, MAIN_LINE, RET_LINE) by { assert SkipBlanks(MAIN_LINE) == MAIN_LINE; }
    PieceNeutral(201, RETURN_LINE, END_LINE);
  }

  lemma FragmentTame(part: Part, j: nat)
    requires j < |part.items| && TamePart(part)
    ensures LegibleAt(part, j) && Neutral(Fragment(part.name, part.items, part.reverse, part.fmt, j))
  {
    hide Lines, LexAfter, Quiet, Depth, Apply;
    var k := if part.reverse then |part.items| - 1 - j else j;
    assert Tame(part.fmt, part.items[k]);
    FreshIsSettled();
  }

  lemma SectionTame(part: Part)
    requires Plain(part.name) && TamePart(part)
    ensures Legible(part) && forall e <- Section(part) :: Neutral(e)
  {
    hide TamePart, LegibleAt, Neutral, Plain, Fragment, Banner;
    BannerNeutral(part.name);
    forall j: nat | j < |part.items|
      ensures LegibleAt(part, j) && Neutral(Fragment(part.name, part.items, part.reverse, part.fmt, j))
    {
      FragmentTame(part, j);
    }
  }

  lemma {:induction false} SectionsTame(parts: seq<Part>)
    requires TameParts(parts) && forall part <- parts :: Plain(part.name)
    ensures (forall part <- parts :: Legible(part)) && forall e <- Sections(parts) :: Neutral(e)
  {
    hide TamePart, Legible, Neutral, Plain, Section;
    if parts != [] {
      assert parts[0] in parts && forall part <- parts[1..] :: part in parts;
      SectionTame(parts[0]);
      SectionsTame(parts[1..]);
      assert forall part <- parts :: part == parts[0] || part in parts[1..];
    }
  }

  /** Items that close what they open are placed as intended, whatever the conditions are. */
  lemma TameIsAlwaysFaithful(p: Piles, start: Pos)
    requires TamePiles(p) && start.lex == FRESH
    ensures LegiblePiles(p) && AlwaysFaithful(p, start)
  {
    hide AlwaysFaithful, TameParts, Neutral, Plain, Legible, Sections, Head, Inner, OpeningPiece, ClosingPiece, Outside;
    NamesArePlain(p);
    SectionsTame(Head(p));
    SectionsTame(Inner(p));
    PiecesNeutral();
    NeutralIsOutside(Pieces(p));
    AlwaysFaithfulExactly(p, start);
  }

  // ---- a group that is left open --------------------------------------------------------------------------

  lemma {:induction false} OutsideBefore(a: seq<Emission>, e: Emission, f: Emission, b: seq<Emission>, x: Lex, d: nat)
    requires Outside(a + [e, f] + b, x, d) && Undisturbed(a + [e, f] + b, x) && e.Body? && f.Body?
    ensures Depth(Lines(e.text), FRESH, 0) == 0
  {
    hide Lines, LexAfter, Depth, Quiet;
    var es := a + [e, f] + b;
    if a == [] {
      assert es[0] == e && es[1..][0] == f;
    } else {
      assert es[1..] == a[1..] + [e, f] + b;
      var ls := Lines(a[0].text);
      OutsideBefore(a[1..], e, f, b, LexAfter(ls, x), Depth(ls, x, d));
    }
  }

  lemma IfOpens(cond: string, t: string)
    requires Bland(cond) && Bland(t) && SkipBlanks(t) != "" && SkipBlanks(t)[0] != '#' && SkipBlanks(t)[0] != '%'
    ensures Depth(["#if " + cond, t], FRESH, 0) == 1
  {
    hide SkipBlanks, Scan, Bland, ConditionalOf;
    var l := "#if " + cond;
    IfIsConditional(cond);
    OtherIsNoConditional(t);
    BlandLineConditional(l);
    BlandLineConditional(t);
    assert [l, t][1..] == [t] && [t][1..] == [];
    assert Depth([], FRESH, 1) == 1;
    assert Depth([t], FRESH, 1) == 1;
  }

  lemma BlandLineConditional(l: string)
    requires Bland(l)
    ensures ConditionalAt(FRESH, l) == ConditionalOf(l) && NextLex(FRESH, l) == FRESH
  {
    hide Scan, ConditionalOf, Bland;
    ScanBland(l);
    assert "" + l == l;
  }

  lemma IfIsConditional(cond: string)
    requires Bland(cond)
    ensures ConditionalOf("#if " + cond) == Some(If) && Bland("#if " + cond)
  {
    var l := "#if " + cond;
    assert l[0] == '#' && SkipBlanks(l) == l;
    assert l[1] == 'i' && SkipBlanks(l[1..]) == l[1..];
    assert l[1..][..2] == "if" && l[1..][2] == ' ';
    assert forall c <- l :: c in "#if " || c in cond;
  }

  lemma OtherIsNoConditional(t: string)
    requires SkipBlanks(t) != "" && SkipBlanks(t)[0] != '#' && SkipBlanks(t)[0] != '%'
    ensures ConditionalOf(t) == None
  {
  }

  /** A definition that opens a group and leaves it open in front of others puts them in the wrong place
      for some values of the conditions, although it is legible. */
  lemma OpenGroupMisplaces(p: Piles, cond: string, t: string, more: seq<string>, start: Pos)
    requires Bland(cond) && Bland(t + ";") && more != [] && start.lex == FRESH
    requires SkipBlanks(t + ";") != "" && SkipBlanks(t + ";")[0] != '#' && SkipBlanks(t + ";")[0] != '%'
    requires LegiblePiles(p.(tlfs := ["#if " + cond + "\n" + t] + more))
    ensures !AlwaysFaithful(p.(tlfs := ["#if " + cond + "\n" + t] + more), start)
  {
    hide ReadKept, LegiblePiles, Outside, Undisturbed, Sections, Section, AlwaysFaithful, SkipBlanks, Bland, Lines, Depth,
         Pieces;
    var q := p.(tlfs := ["#if " + cond + "\n" + t] + more);
    AlwaysFaithfulExactly(q, start);
    PiecesUndisturbed(q);
    if Outside(Pieces(q), FRESH, 0) {
      var a, e, f, b := TwoDefinitions(q);
      OutsideBefore(a, e, f, b, FRESH, 0);
      IfLines(cond, t);
      IfOpens(cond, t + ";");
    }
  }

  lemma IfLines(cond: string, t: string)
    requires Bland(cond) && Bland(t + ";")
    ensures Lines(Apply(PLAIN, "#if " + cond + "\n" + t)) == ["#if " + cond, t + ";"]
  {
    var a, b := "#if " + cond, t + ";";
    IfIsConditional(cond);
    ScanBland(a);
    ScanBland(b);
    hide Lines, Bland;
    LinesOfTwo(a, b);
    assert Apply(PLAIN, a + "\n" + t) == a + "\n" + b + "\n";
  }

  lemma HeadEnds(p: Piles) returns (front: seq<Emission>)
    ensures Sections(Head(p)) == front + Section(Part("toplevel", p.tlfs, false, PLAIN))
  {
    hide Sections, Section;
    HeadSections(p);
    var h := Head(p);
    front := Section(h[0]) + Section(h[1]) + Section(h[2]) + Section(h[3]) + Section(h[4]);
  }

  lemma TwoFragments(items: seq<string>) returns (e: Emission, f: Emission, rest: seq<Emission>)
    requires |items| > 1
    ensures Section(Part("toplevel", items, false, PLAIN)) == [Banner("toplevel"), e, f] + rest
    ensures e.Body? && f.Body? && e.text == Apply(PLAIN, items[0])
  {
    hide FileName, Apply, Banner;
    var all := Fragments("toplevel", items, false, PLAIN);
    e, f, rest := all[0], all[1], all[2..];
    TwoFirst(all);
    assert Section(Part("toplevel", items, false, PLAIN)) == [Banner("toplevel")] + all;
    assert [Banner("toplevel")] + ([e, f] + rest) == [Banner("toplevel"), e, f] + rest;
  }

  lemma TwoFirst<T>(s: seq<T>)
    requires |s| > 1
    ensures s == [s[0], s[1]] + s[2..]
  {
  }

  /** The first two definitions among the pieces of a program. */
  lemma TwoDefinitions(p: Piles) returns (a: seq<Emission>, e: Emission, f: Emission, b: seq<Emission>)
    requires |p.tlfs| > 1
    ensures Pieces(p) == a + [e, f] + b && e.Body? && f.Body? && e.text == Apply(PLAIN, p.tlfs[0])
  {
    hide Head, Inner, Sections, Section, OpeningPiece, ClosingPiece, Apply, Banner;
    var front := HeadEnds(p);
    var rest;
    e, f, rest := TwoFragments(p.tlfs);
    a, b := front + [Banner("toplevel")], rest + OpeningPiece() + Sections(Inner(p)) + ClosingPiece();
  }
}
