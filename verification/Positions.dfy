/** Where a compiler that skips no line believes the lines of a generated program to be. */
module Positions {
  import opened Text
  import opened LineControl
  import opened Emitter
  import opened Reading
  import opened Program

  // ---- calls without the markers -----------------------------------------------------------------------------

  function LexOver(es: seq<Emission>, x: Lex): Lex {
    if es == [] then x else LexOver(es[1..], LexAfter(Lines(es[0].text), x))
  }

  /** No line directive is complete within a call, and no comment is open where a fragment begins. */
  predicate Undisturbed(es: seq<Emission>, x: Lex) {
    es == [] ||
    ((es[0].Body? ==> x == FRESH) && Quiet(Lines(es[0].text), x) && Undisturbed(es[1..], LexAfter(Lines(es[0].text), x)))
  }

  lemma {:induction false} UndisturbedAppend(a: seq<Emission>, b: seq<Emission>, x: Lex)
    ensures Undisturbed(a + b, x) <==> Undisturbed(a, x) && Undisturbed(b, LexOver(a, x))
    ensures LexOver(a + b, x) == LexOver(b, LexOver(a, x))
  {
    hide Quiet, Lines, LexAfter;
    if a == [] {
      assert a + b == b;
    } else {
      assert (a + b)[1..] == a[1..] + b;
      UndisturbedAppend(a[1..], b, LexAfter(Lines(a[0].text), x));
    }
  }

  lemma {:induction false} CalmAppend(a: seq<Emission>, b: seq<Emission>, m: Memory, x: Lex)
    ensures Calm(a + b, m, x) <==> Calm(a, m, x) && Calm(b, MemoryAfter(a, m), LexOver(a, x))
    ensures LexOver(a + b, x) == LexOver(b, LexOver(a, x))
  {
    hide Quiet, Lines, LexAfter, NeedsMarker, Remember;
    if a == [] {
      assert a + b == b;
    } else {
      assert (a + b)[1..] == a[1..] + b;
      CalmAppend(a[1..], b, Remember(m, a[0]), LexAfter(Lines(a[0].text), x));
    }
  }

  /** Behind a banner it does not matter what stood before it. */
  lemma {:induction false} TellableAppend(a: seq<Emission>, b: seq<Emission>, m: Memory, open: bool)
    requires Tellable(a, m, open) && Tellable(b, MemoryAfter(a, m), false) && (b == [] || b[0].Note?)
    ensures Tellable(a + b, m, open)
  {
    if a == [] {
      assert a + b == b;
    } else {
      assert (a + b)[1..] == a[1..] + b;
      TellableAppend(a[1..], b, Remember(m, a[0]), a[0].Body?);
    }
  }

  /** Where every fragment has a marker of its own. */
  lemma {:induction false} AlternatingCalm(es: seq<Emission>, m: Memory, x: Lex, open: bool)
    requires Alternating(es, m) && (open ==> m.prevfile.Some?)
    ensures (Calm(es, m, x) <==> Undisturbed(es, x)) && Tellable(es, m, open)
  {
    hide Quiet, Lines, LexAfter;
    if es != [] {
      AlternatingCalm(es[1..], Remember(m, es[0]), LexAfter(Lines(es[0].text), x), es[0].Body?);
    }
  }

  lemma {:induction false} SettledOver(es: seq<Emission>, x: Lex)
    requires (forall e <- es :: Written(e)) && Settled(x)
    ensures Settled(LexOver(es, x))
  {
    hide Written, Settled, Lines, LexAfter;
    if es != [] {
      SettledCall(es[0], x);
      SettledOver(es[1..], LexAfter(Lines(es[0].text), x));
    }
  }

  // ---- sections ------------------------------------------------------------------------------------------------

  /** The printed text of the j-th fragment of a section brings no line directive, and closes its comments
      unless it is the last one, behind which a banner does. */
  predicate LegibleAt(part: Part, j: nat)
    requires j < |part.items|
  {
    var ls := Lines(Fragment(part.name, part.items, part.reverse, part.fmt, j).text);
    Quiet(ls, FRESH) && if j + 1 < |part.items| then LexAfter(ls, FRESH) == FRESH else Closable(LexAfter(ls, FRESH))
  }

  predicate Legible(part: Part) {
    forall j :: 0 <= j < |part.items| ==> LegibleAt(part, j)
  }

  predicate LegibleFrom(part: Part, j: nat) {
    forall k :: j <= k < |part.items| ==> LegibleAt(part, k)
  }

  lemma {:induction false} FragmentsLegible(part: Part, j: nat, x: Lex)
    requires j < |part.items|
    ensures var es := Fragments(part.name, part.items, part.reverse, part.fmt)[j..];
      Undisturbed(es, x) && Closable(LexOver(es, x)) <==> x == FRESH && LegibleFrom(part, j)
    decreases |part.items| - j
  {
    hide Quiet, Lines, LexAfter, Closable, Fragment;
    var all := Fragments(part.name, part.items, part.reverse, part.fmt);
    var es, e := all[j..], all[j];
    assert e.Body? by { FragmentIsABody(part, j); }
    assert es[1..] == all[j + 1..];
    var y := LexAfter(Lines(e.text), x);
    if j + 1 < |part.items| {
      FragmentsLegible(part, j + 1, y);
      assert LegibleFrom(part, j) <==> LegibleAt(part, j) && LegibleFrom(part, j + 1);
    } else {
      assert es[1..] == [] && LexOver([], y) == y;
      assert LegibleFrom(part, j) <==> LegibleAt(part, j);
    }
  }

  lemma FragmentIsABody(part: Part, j: nat)
    requires j < |part.items|
    ensures Fragment(part.name, part.items, part.reverse, part.fmt, j).Body?
  {
  }

  lemma BannerLines(name: string, x: Lex)
    requires Plain(name) && Settled(x)
    ensures var ls := Lines(Banner(name).text); (Quiet(ls, x) <==> Closable(x)) && LexAfter(ls, x) == FRESH
  {
    hide BannerLine, Settled, Closable, DirectiveAt, NextLex;
    var l := BannerLine(name);
    ScanBanner(name);
    LinesOfLine(l);
    BannerReads(name, x);
    assert [l][1..] == [] && Quiet([], FRESH) && LexAfter([], FRESH) == FRESH;
    assert Quiet([l], x) <==> DirectiveAt(x, l) == None;
    assert LexAfter([l], x) == NextLex(x, l);
  }

  lemma SectionLegible(part: Part, x: Lex)
    requires Plain(part.name) && Settled(x)
    ensures Undisturbed(Section(part), x) && Closable(LexOver(Section(part), x)) <==> Closable(x) && Legible(part)
  {
    hide Quiet, Lines, LexAfter, Closable, Settled, Fragment, LegibleAt;
    if part.items != [] {
      var es := Fragments(part.name, part.items, part.reverse, part.fmt);
      assert Section(part)[1..] == es && es[0..] == es;
      BannerLines(part.name, x);
      FragmentsLegible(part, 0, FRESH);
      assert LegibleFrom(part, 0) <==> Legible(part);
    }
  }

  lemma {:induction false} SectionsLegible(parts: seq<Part>, x: Lex)
    requires (forall part <- parts :: Plain(part.name)) && Settled(x) && forall e <- Sections(parts) :: Written(e)
    ensures Undisturbed(Sections(parts), x) && Closable(LexOver(Sections(parts), x)) <==>
      Closable(x) && forall part <- parts :: Legible(part)
  {
    hide Quiet, Lines, LexAfter, Closable, Settled, Plain, Written, Legible, Section, Undisturbed, LexOver;
    if parts == [] {
      NothingDisturbed(x);
    } else {
      var a, b := Section(parts[0]), Sections(parts[1..]);
      assert parts[0] in parts && forall part <- parts[1..] :: part in parts;
      SectionLegible(parts[0], x);
      SettledOver(a, x);
      SectionsLegible(parts[1..], LexOver(a, x));
      UndisturbedAppend(a, b, x);
      assert (forall part <- parts :: Legible(part)) <==> Legible(parts[0]) && forall part <- parts[1..] :: Legible(part) by {
        assert parts == [parts[0]] + parts[1..];
      }
    }
  }

  lemma NothingDisturbed(x: Lex)
    ensures Undisturbed([], x) && LexOver([], x) == x
  {
  }

  // ---- the generator's own lines ---------------------------------------------------------------------------

  /** A line of the generator that a compiler reads as one line of code. */
  predicate OwnLine(t: string) {
    Admissible(t) && EndsPlainly(t)
  }

  lemma OwnLineOf(l: string)
    requires Bland(l) && SkipBlanks(l) != "" && SkipBlanks(l)[0] != '#' && SkipBlanks(l)[0] != '%'
    ensures OwnLine(l + "\n")
  {
    hide Admissible, SkipBlanks, Lines;
    PlainLineAdmissible(l);
    OtherIsNoDirective(l);
    assert l[|l| - 1] in l;
    assert (l + "\n")[|l| - 1] == l[|l| - 1];
  }

  lemma OwnLines()
    ensures OwnLine(MAIN_LINE + "\n") && OwnLine(RET_LINE + "\n") && OwnLine(RETURN_LINE + "\n") && OwnLine(END_LINE + "\n")
  {
    hide Bland, OwnLine;
    MainIsBland();
    RetLine();
    ReturnLine();
    EndLine();
    OwnLineOf(MAIN_LINE) by { assert SkipBlanks(MAIN_LINE) == MAIN_LINE; }
    OwnLineOf(RET_LINE);
    OwnLineOf(RETURN_LINE);
    OwnLineOf(END_LINE);
  }

  /** A banner and two internal lines: all that matters is that the banner completes no directive. */
  lemma PairCalm(name: string, line: nat, a: string, b: string, m: Memory, x: Lex)
    requires Plain(name) && OwnLine(a) && OwnLine(b) && Settled(x)
    ensures var es := Pair(name, line, a, b);
      (Calm(es, m, x) <==> Closable(x)) && LexOver(es, x) == FRESH && Tellable(es, m, false) && es != [] && es[0].Note? &&
      forall e <- es :: Written(e)
  {
    hide Quiet, Lines, LexAfter, Closable, Settled, BannerLine, Plain, EndsPlainly, Calm, LexOver, Tellable, NeedsMarker;
    var n, k, l := Banner(name), InternalLine(line, a), InternalLine(line + 1, b);
    BannerLines(name, x);
    BannerWritten(name);
    InternalIsPlain();
    SecondUnmarked(line, a, b, m);
    Alone(l, Remember(m, k), FRESH, true);
    CalmOne(k, [l], m, FRESH, false);
    CalmOne(n, [k] + [l], m, x, false);
  }

  lemma CalmOne(e: Emission, es: seq<Emission>, m: Memory, x: Lex, open: bool)
    ensures Calm([e] + es, m, x) <==>
      (NeedsMarker(m, e) ==> x == FRESH) && Quiet(Lines(e.text), x) && Calm(es, Remember(m, e), LexAfter(Lines(e.text), x))
    ensures LexOver([e] + es, x) == LexOver(es, LexAfter(Lines(e.text), x))
    ensures Tellable([e] + es, m, open) <==>
      (open && NeedsMarker(m, e) ==> m.prevfile.Some? && m.prevfile.value != e.file) && Tellable(es, Remember(m, e), e.Body?)
  {
    hide Quiet, Lines, LexAfter, NeedsMarker;
    assert ([e] + es)[1..] == es;
  }

  lemma Alone(e: Emission, m: Memory, x: Lex, open: bool)
    requires !NeedsMarker(m, e)
    ensures Calm([e], m, x) <==> Quiet(Lines(e.text), x)
    ensures LexOver([e], x) == LexAfter(Lines(e.text), x) && Tellable([e], m, open)
  {
    hide Quiet, Lines, LexAfter, NeedsMarker;
    assert [e][1..] == [];
  }

  lemma SecondUnmarked(line: nat, a: string, b: string, m: Memory)
    ensures !NeedsMarker(Remember(m, InternalLine(line, a)), InternalLine(line + 1, b))
  {
  }

  lemma BannerWritten(name: string)
    requires Plain(name)
    ensures Written(Banner(name))
  {
    var t := Banner(name).text;
    assert t == BannerLine(name) + "\n";
    assert t[|t| - 1] == '\n' && t[|t| - 2] == '/';
  }

  lemma SectionWritten(part: Part)
    requires Plain(part.name) && EndsInMark(part.fmt)
    ensures forall e <- Section(part) :: Written(e)
  {
    hide Fragment, Plain, EndsInMark, Written;
    BannerWritten(part.name);
    var es := Fragments(part.name, part.items, part.reverse, part.fmt);
    forall e <- es ensures Written(e) {
      var j :| 0 <= j < |es| && es[j] == e;
      FragmentWritten(part, j);
    }
  }

  lemma FragmentWritten(part: Part, j: nat)
    requires j < |part.items| && Plain(part.name) && EndsInMark(part.fmt)
    ensures Written(Fragment(part.name, part.items, part.reverse, part.fmt, j))
  {
    var e := Fragment(part.name, part.items, part.reverse, part.fmt, j);
    DigitsArePlain(Dec(if part.reverse then |part.items| - j else j));
    assert e.text[|e.text| - 2..] == part.fmt.post;
  }

  lemma {:induction false} SectionsWritten(parts: seq<Part>)
    requires forall part <- parts :: Plain(part.name) && EndsInMark(part.fmt)
    ensures forall e <- Sections(parts) :: Written(e)
  {
    hide Section, Plain, EndsInMark, Written;
    if parts != [] {
      assert parts[0] in parts && forall part <- parts[1..] :: part in parts;
      SectionWritten(parts[0]);
      SectionsWritten(parts[1..]);
    }
  }

  // ---- the whole program ------------------------------------------------------------------------------------

  /** What a caller can check before printing: no item completes a line directive, and within a section
      every item but the last printed one closes its comments. */
  predicate LegiblePiles(p: Piles) {
    (forall part <- Head(p) :: Legible(part)) && forall part <- Inner(p) :: Legible(part)
  }

  lemma PlanWritten(p: Piles)
    ensures forall e <- Sections(Head(p)) :: Written(e)
    ensures forall e <- Sections(Inner(p)) :: Written(e)
  {
    hide Sections, Head, Inner, Plain, EndsInMark, Written;
    NamesArePlain(p);
    PartsWellFormed(p);
    SectionsWritten(Head(p));
    SectionsWritten(Inner(p));
  }

  lemma OpeningCalm(m: Memory, x: Lex)
    requires Settled(x)
    ensures var es := Opening();
      (Calm(es, m, x) <==> Closable(x)) && LexOver(es, x) == FRESH && Tellable(es, m, false) && es != [] && es[0].Note? &&
      forall e <- es :: Written(e)
  {
    hide Calm, Closable, LexOver, Tellable, Written, OwnLine, Settled, Plain;
    OwnLines();
    InternalIsPlain();
    PairCalm("main", 186, MAIN_LINE + "\n", RET_LINE + "\n", m, x);
    assert Opening() == Pair("main", 186, MAIN_LINE + "\n", RET_LINE + "\n");
  }

  lemma ClosingCalm(m: Memory, x: Lex)
    requires Settled(x)
    ensures var es := Closing();
      (Calm(es, m, x) <==> Closable(x)) && LexOver(es, x) == FRESH && Tellable(es, m, false) && es != [] && es[0].Note? &&
      forall e <- es :: Written(e)
  {
    hide Calm, Closable, LexOver, Tellable, Written, OwnLine, Settled, Plain;
    OwnLines();
    InternalIsPlain();
    PairCalm("done", 201, RETURN_LINE + "\n", END_LINE + "\n", m, x);
    assert Closing() == Pair("done", 201, RETURN_LINE + "\n", END_LINE + "\n");
  }

  /** Some sections and the internal lines behind them. */
  lemma SectionsThenPair(parts: seq<Part>, pair: seq<Emission>, m: Memory)
    requires forall part <- parts :: Plain(part.name)
    requires (forall e <- Sections(parts) :: Written(e)) && Alternating(Sections(parts), m)
    requires var es := Sections(parts); var mid, x := MemoryAfter(es, m), LexOver(es, FRESH);
      (Settled(x) ==> (Calm(pair, mid, x) <==> Closable(x)) && LexOver(pair, x) == FRESH) &&
      Tellable(pair, mid, false) && pair != [] && pair[0].Note?
    ensures Calm(Sections(parts) + pair, m, FRESH) <==> forall part <- parts :: Legible(part)
    ensures LexOver(Sections(parts) + pair, FRESH) == FRESH && Tellable(Sections(parts) + pair, m, false)
  {
    hide Calm, Undisturbed, LexOver, Tellable, Written, Plain, Legible, Sections, Alternating, Settled;
    var es := Sections(parts);
    assert Settled(FRESH) && Closable(FRESH) by { FreshIsSettled(); }
    SettledOver(es, FRESH);
    AlternatingCalm(es, m, FRESH, false);
    SectionsLegible(parts, FRESH);
    CalmAppend(es, pair, m, FRESH);
    TellableAppend(es, pair, m, false);
  }

  lemma FreshIsSettled()
    ensures Settled(FRESH) && Closable(FRESH)
  {
  }

  /** Every item of the program lies in another file than the fragment before it. */
  lemma PlanAlternates(p: Piles, m: Memory)
    requires m.prevfile == None
    ensures Alternating(Sections(Head(p)), m)
    ensures Alternating(Sections(Inner(p)), MemoryAfter(Opening(), MemoryAfter(Sections(Head(p)), m)))
  {
    PartNames(p);
    assert Stem("internal") == "internal";
    hide Sections, Alternating, Head, Inner, Opening, MemoryAfter, Names, DistinctNames, Code, Aligned, Marked, Stem;
    SectionsAlternate(Head(p), m, {});
    OpeningMarked(MemoryAfter(Sections(Head(p)), m), {} + Names(Head(p)));
    SectionsAlternate(Inner(p), MemoryAfter(Opening(), MemoryAfter(Sections(Head(p)), m)), {"internal"});
  }

  lemma HeadCalm(p: Piles, m: Memory)
    requires Alternating(Sections(Head(p)), m)
    ensures var es := Sections(Head(p)) + Opening();
      (Calm(es, m, FRESH) <==> forall part <- Head(p) :: Legible(part)) && LexOver(es, FRESH) == FRESH &&
      Tellable(es, m, false) && forall e <- es :: Written(e)
  {
    hide *;
    var h := Sections(Head(p));
    NamesArePlain(p);
    PlanWritten(p);
    FreshIsSettled();
    SettledOver(h, FRESH);
    OpeningCalm(MemoryAfter(h, m), LexOver(h, FRESH));
    SectionsThenPair(Head(p), Opening(), m);
  }

  lemma InnerCalm(p: Piles, m: Memory)
    requires Alternating(Sections(Inner(p)), m)
    ensures var es := Sections(Inner(p)) + Closing();
      (Calm(es, m, FRESH) <==> forall part <- Inner(p) :: Legible(part)) && LexOver(es, FRESH) == FRESH &&
      Tellable(es, m, false) && forall e <- es :: Written(e)
  {
    hide *;
    var i := Sections(Inner(p));
    NamesArePlain(p);
    PlanWritten(p);
    FreshIsSettled();
    SettledOver(i, FRESH);
    ClosingCalm(MemoryAfter(i, m), LexOver(i, FRESH));
    SectionsThenPair(Inner(p), Closing(), m);
  }

  lemma PlanCalm(p: Piles, m: Memory)
    requires m.prevfile == None
    ensures (Calm(Plan(p), m, FRESH) <==> LegiblePiles(p)) && Tellable(Plan(p), m, false)
    ensures forall e <- Plan(p) :: Written(e)
  {
    hide Calm, LexOver, Tellable, Written, Legible, Sections, Alternating, Head, Inner, Opening, Closing, MemoryAfter, Plan;
    PlanAlternates(p, m);
    HeadCalm(p, m);
    InnerCalm(p, MemoryAfter(Opening(), MemoryAfter(Sections(Head(p)), m)));
    JoinHalves(Sections(Head(p)) + Opening(), Sections(Inner(p)) + Closing(), m, p);
  }

  lemma PlanHalves(p: Piles)
    ensures Plan(p) == (Sections(Head(p)) + Opening()) + (Sections(Inner(p)) + Closing())
  {
    hide Head, Inner, Sections, Opening, Closing;
  }

  lemma JoinHalves(a: seq<Emission>, b: seq<Emission>, m: Memory, p: Piles)
    requires a == Sections(Head(p)) + Opening() && b == Sections(Inner(p)) + Closing()
    requires Tellable(a, m, false) && LexOver(a, FRESH) == FRESH
    requires MemoryAfter(a, m) == MemoryAfter(Opening(), MemoryAfter(Sections(Head(p)), m)) ==>
      Tellable(b, MemoryAfter(a, m), false)
    ensures MemoryAfter(a, m) == MemoryAfter(Opening(), MemoryAfter(Sections(Head(p)), m))
    ensures Plan(p) == a + b && Tellable(Plan(p), m, false)
    ensures Calm(Plan(p), m, FRESH) <==> Calm(a, m, FRESH) && Calm(b, MemoryAfter(a, m), FRESH)
  {
    hide Calm, LexOver, Tellable, MemoryAfter, Head, Inner, Sections, Opening, Closing, Plan, Code, Bare;
    CodeAppend(Sections(Head(p)), Opening(), m);
    BannerFirst(Inner(p));
    PlanHalves(p);
    TellableAppend(a, b, m, false);
    CalmAppend(a, b, m, FRESH);
  }

  lemma {:induction false} BannerFirst(parts: seq<Part>)
    ensures var es := Sections(parts) + Closing(); es != [] && es[0].Note?
  {
    if parts != [] && parts[0].items == [] {
      BannerFirst(parts[1..]);
      assert Sections(parts) == Sections(parts[1..]);
    }
  }

  /** A compiler that skips no line attributes every physical line of the program as intended, although
      markers are missing and comments are interleaved, if and only if no item completes a line directive
      and no item but the last of its section leaves a comment open. */
  lemma PositionsFaithful(p: Piles, start: Pos)
    requires start.lex == FRESH
    ensures Read(Lines(Printed(p)), start) == Intended(Plan(p), start.file, start.line) <==> LegiblePiles(p)
  {
    hide Read, Lines, Printed, Intended, Plan, LegiblePiles, Code, Calm, Tellable, Written, Aligned;
    var m := Memory(Initial, 0, None);
    PlanPrints(p, m);
    PlanCalm(p, m);
    FreshIsSettled();
    AlignedAt(Plan(p), m, start.line);
    ReadExact(Plan(p), m, start, false);
  }

  lemma AlignedAt(es: seq<Emission>, m: Memory, at: nat)
    requires AlwaysAligned(es, m)
    ensures Aligned(es, m, at)
  {
  }

  lemma {:induction false} IntendedHasBody(es: seq<Emission>, file: string, at: nat, e: Emission, k: nat)
    requires e in es && e.Body? && k < |Lines(e.text)|
    ensures Placed(Lines(e.text)[k], e.file, e.line + k) in Intended(es, file, at)
  {
    hide Lines, Intended;
    var f, n := WantedFile(es[0], file), WantedLine(es[0], at);
    IntendedFront(es, file, at);
    if e == es[0] {
      assert PlaceAll(Lines(e.text), f, n)[k] == Placed(Lines(e.text)[k], e.file, e.line + k);
    } else {
      assert e in es[1..];
      IntendedHasBody(es[1..], f, n + |Lines(es[0].text)|, e, k);
    }
  }

  lemma IntendedFront(es: seq<Emission>, file: string, at: nat)
    requires es != []
    ensures var f, n, ls := WantedFile(es[0], file), WantedLine(es[0], at), Lines(es[0].text);
      Intended(es, file, at) == PlaceAll(ls, f, n) + Intended(es[1..], f, n + |ls|)
  {
    hide Lines, PlaceAll;
  }

  /** The k-th physical line of every item and of every internal line is attributed to its own
      pseudo-file and number. */
  lemma EveryLinePlaced(p: Piles, start: Pos, e: Emission, k: nat)
    requires LegiblePiles(p) && start.lex == FRESH
    requires e in Plan(p) && e.Body? && k < |Lines(e.text)|
    ensures Placed(Lines(e.text)[k], e.file, e.line + k) in Read(Lines(Printed(p)), start)
  {
    hide Read, Lines, Printed, Intended, Plan, LegiblePiles;
    PositionsFaithful(p, start);
    IntendedHasBody(Plan(p), start.file, start.line, e, k);
  }

  // ---- items that leave a comment open ------------------------------------------------------------------------

  /** What an item leaves behind that opens a comment and does not close it. */
  lemma OpenItem(a: string, b: string)
    requires Bland(a) && '*' !in b && '\n' !in b
    ensures var ls := Lines(Apply(PLAIN, a + "/*" + b));
      Quiet(ls, FRESH) && LexAfter(ls, FRESH) == Lex(InComment, a + " ", "")
  {
    hide Scan, Lines, Bland, Directive;
    var l := a + "/*" + b + ";";
    assert OneLine(l) by { ScanBland(a); }
    assert Apply(PLAIN, a + "/*" + b) == l + "\n";
    LinesOfLine(l);
    ScanOpening(a, b + ";");
    assert l == a + ("/*" + (b + ";")) && "" + l == l && "" + (a + " ") == a + " ";
    assert !Spliced(l) && [l][1..] == [];
    assert Quiet([], NextLex(FRESH, l)) && LexAfter([], NextLex(FRESH, l)) == NextLex(FRESH, l);
  }

  lemma ScanOpening(a: string, b: string)
    requires Bland(a) && '*' !in b
    ensures Scan(InCode, a + ("/*" + b)) == (a + " ", InComment)
  {
    hide Bland;
    var rest := "/*" + b;
    ScanPlain(a, rest);
    assert Opens(rest, '/', '*') && rest[2..] == b;
    ScanOpenComment(b);
    assert " " + "" == " ";
  }

  /** A definition that leaves a comment open in front of others puts them in the wrong place. */
  lemma OpenItemMisplaces(p: Piles, a: string, b: string, more: seq<string>, start: Pos)
    requires Bland(a) && '*' !in b && '\n' !in b && more != [] && start.lex == FRESH
    ensures var q := p.(tlfs := [a + "/*" + b] + more);
      Read(Lines(Printed(q)), start) != Intended(Plan(q), start.file, start.line)
  {
    hide Read, Lines, Printed, Intended, Plan, Quiet, LexAfter, Bland;
    var q := p.(tlfs := [a + "/*" + b] + more);
    var part := Part("toplevel", q.tlfs, false, PLAIN);
    OpenItem(a, b);
    assert !LegibleAt(part, 0);
    assert part in Head(q) by { assert Head(q)[5] == part; }
    PositionsFaithful(q, start);
  }

  lemma OpenLegibleAt(before: seq<string>, a: string, b: string)
    requires Bland(a) && '*' !in b && '\n' !in b
    ensures LegibleAt(Part("toplevel", before + [a + "/*" + b], false, PLAIN), |before|) <==> Directive(a + " ") == None
  {
    hide Lines, Quiet, LexAfter, Directive, Bland;
    OpenItem(a, b);
    assert (before + [a + "/*" + b])[|before|] == a + "/*" + b;
  }

  lemma SameLegibleAt(before: seq<string>, c: string, d: string, j: nat)
    requires j < |before|
    ensures LegibleAt(Part("toplevel", before + [c], false, PLAIN), j) <==> LegibleAt(Part("toplevel", before + [d], false, PLAIN), j)
  {
    hide Lines, Quiet, LexAfter;
  }

  /** As the last of its section the same definition does no harm, unless it starts like a line directive:
      put in the place of the last definition of a legible program, it leaves every line where it belongs
      if and only if no line directive stands in front of its comment. */
  lemma OpenLastItem(p: Piles, before: seq<string>, c: string, a: string, b: string, start: Pos)
    requires Bland(a) && '*' !in b && '\n' !in b && start.lex == FRESH
    requires LegiblePiles(p.(tlfs := before + [c]))
    ensures var q := p.(tlfs := before + [a + "/*" + b]);
      Read(Lines(Printed(q)), start) == Intended(Plan(q), start.file, start.line) <==> Directive(a + " ") == None
  {
    hide Read, Lines, Printed, Intended, Plan, LegibleAt, Directive, Bland;
    var open := a + "/*" + b;
    var r, q := p.(tlfs := before + [c]), p.(tlfs := before + [open]);
    var former, latter := Part("toplevel", r.tlfs, false, PLAIN), Part("toplevel", q.tlfs, false, PLAIN);
    PositionsFaithful(q, start);
    OpenLegibleAt(before, a, b);
    forall j: nat | j < |before| ensures LegibleAt(latter, j) {
      assert Legible(former) by { assert Head(r)[5] == former; }
      SameLegibleAt(before, c, open, j);
    }
    assert Legible(latter) <==> LegibleAt(latter, |before|);
    OtherParts(p, r.tlfs, q.tlfs);
  }

  /** The definitions of a program are legible or not by themselves. */
  lemma OtherParts(p: Piles, former: seq<string>, latter: seq<string>)
    requires LegiblePiles(p.(tlfs := former))
    ensures LegiblePiles(p.(tlfs := latter)) <==> Legible(Part("toplevel", latter, false, PLAIN))
  {
    hide Legible;
    var r, q := Head(p.(tlfs := former)), Head(p.(tlfs := latter));
    assert q[5] == Part("toplevel", latter, false, PLAIN);
    assert forall k :: 0 <= k < 5 ==> q[k] == r[k];
  }
}
