/** Reading the piles back out of a printed program. */
module Decode {
  import opened Text
  import opened LineControl
  import opened Emitter
  import opened Program

  /** The lines between one marker and the next. */
  datatype Segment = Segment(file: string, lines: seq<string>)

  predicate IsBanner(l: string) {
    |l| >= 4 && l[0] == '/' && l[1] == '*' && l[|l| - 2] == '*' && l[|l| - 1] == '/'
  }

  function TrimBanners(ls: seq<string>): seq<string> {
    if ls != [] && IsBanner(ls[|ls| - 1]) then TrimBanners(ls[..|ls| - 1]) else ls
  }

  /** The number of lines before the next line directive. */
  function Until(ls: seq<string>): (k: nat)
    ensures k <= |ls| && Clean(ls[..k])
  {
    if ls == [] || Directive(ls[0]).Some? then 0
    else
      var k := 1 + Until(ls[1..]);
      assert ls[..k][1..] == ls[1..][..k - 1];
      k
  }

  function Segments(ls: seq<string>): seq<Segment>
    decreases |ls|
  {
    if ls == [] then []
    else match Directive(ls[0])
      case None => Segments(ls[1..])
      case Some(t) =>
        var k := Until(ls[1..]);
        [Segment(t.file.GetOr(""), TrimBanners(ls[1..][..k]))] + Segments(ls[1..][k..])
  }

  function Unwrap(fmt: Format, t: string): Option<string> {
    if |t| >= |fmt.pre| + |fmt.post| && fmt.pre <= t && t[|t| - |fmt.post|..] == fmt.post
    then Some(t[|fmt.pre|..|t| - |fmt.post|]) else None
  }

  /** The items of one section, in printed order; none if a segment does not have its format. */
  function Collect(segs: seq<Segment>, name: string, fmt: Format): Option<seq<string>> {
    if segs == [] then Some([])
    else
      var rest := Collect(segs[1..], name, fmt);
      if Stem(segs[0].file) != name then rest
      else
        match (Unwrap(fmt, Unlines(segs[0].lines)), rest)
        case (Some(item), Some(items)) => Some([item] + items)
        case _ => None
  }

  function Recover(t: string): Option<Piles> {
    var segs := Segments(Lines(t));
    match (Collect(segs, "defsysinclude", INCLUDE), Collect(segs, "sysinclude", INCLUDE),
           Collect(segs, "include", INCLUDE), Collect(segs, "declarations", PLAIN),
           Collect(segs, "toplevel", PLAIN), Collect(segs, "before", INDENTED),
           Collect(segs, "statements", INDENTED), Collect(segs, "after", INDENTED))
    case (Some(a), Some(b), Some(c), Some(d), Some(e), Some(f), Some(g), Some(h)) =>
      Some(Piles(a, b, c, d, e, f, g, Reverse(h)))
    case _ => None
  }

  /** No item of these sections prints a line directive of its own. */
  predicate UndirectedParts(parts: seq<Part>) {
    forall part <- parts, item <- part.items :: Undirected(Apply(part.fmt, item))
  }

  /** What a caller can check before printing: no item brings a physical line that is a line directive. */
  predicate DirectiveFree(p: Piles) {
    UndirectedParts(Head(p)) && UndirectedParts(Inner(p))
  }

  // ---- segments of printed calls -----------------------------------------------------------------

  function BodySegments(es: seq<Emission>): seq<Segment> {
    if es == [] then []
    else (if es[0].Body? then [Segment(es[0].file, Lines(es[0].text))] else []) + BodySegments(es[1..])
  }

  /** A call that the decoder can take apart again: a banner of one line, or a fragment whose last
      line is no banner and which holds no line directive. */
  predicate Separable(e: Emission) {
    var ls := Lines(e.text);
    Terminated(e.text) && ls != [] && Clean(ls) &&
    (e.Note? ==> |ls| == 1 && IsBanner(ls[0])) &&
    (e.Body? ==> !IsBanner(ls[|ls| - 1]) && '"' !in e.file && '\\' !in e.file && OneLine(e.file))
  }

  lemma {:induction false} UntilClean(a: seq<string>, b: seq<string>)
    requires Clean(a)
    ensures Until(a + b) == |a| + Until(b) && Segments(a + b) == Segments(b)
  {
    hide Directive;
    if a == [] {
      assert a + b == b;
    } else {
      assert (a + b)[1..] == a[1..] + b;
      UntilClean(a[1..], b);
    }
  }

  lemma {:induction false} TrimTail(a: seq<string>, b: seq<string>)
    requires a != [] && !IsBanner(a[|a| - 1]) && forall l <- b :: IsBanner(l)
    ensures TrimBanners(a + b) == a
  {
    hide IsBanner;
    if b == [] {
      assert a + b == a;
    } else {
      assert b[|b| - 1] in b;
      assert (a + b)[..|a + b| - 1] == a + b[..|b| - 1];
      TrimTail(a, b[..|b| - 1]);
    }
  }

  lemma {:induction false} MarkedLines(e: Emission, rest: string)
    requires Separable(e)
    ensures Lines(Emit(e, e.Body?, rest))
         == (if e.Body? then [MarkerLine(e.line, e.file)] else []) + Lines(e.text) + Lines(rest)
  {
    hide MarkerLine, Directive, Lines, Clean, IsBanner, OneLine;
    LinesAppend(e.text, rest);
    if e.Body? {
      var l := MarkerLine(e.line, e.file);
      MarkerOneLine(e.line, e.file);
      LinesOfLine(l);
      assert Marker(e) + e.text + rest == (l + "\n") + (e.text + rest);
      LinesAppend(l + "\n", e.text + rest);
      assert [l] + (Lines(e.text) + Lines(rest)) == [l] + Lines(e.text) + Lines(rest);
    } else {
      assert "" + e.text + rest == e.text + rest;
      assert [] + Lines(e.text) + Lines(rest) == Lines(e.text) + Lines(rest);
    }
  }

  lemma MarkerOneLine(n: nat, file: string)
    requires OneLine(file)
    ensures OneLine(MarkerLine(n, file))
  {
    assert OneLine(Dec(n)) by { assert forall c <- Dec(n) :: IsDigit(c); }
  }

  /** Reading a marked text segment by segment gives back its fragments. */
  lemma {:induction false} SegmentsOfMarked(es: seq<Emission>)
    requires forall e <- es :: Separable(e)
    ensures var ls := Lines(Marked(es));
            Segments(ls) == BodySegments(es) && forall l <- ls[..Until(ls)] :: IsBanner(l)
  {
    hide MarkerLine, IsBanner, Directive, Emit, Separable, Lines, Until, Segments;
    if es != [] {
      var e, rest := es[0], Lines(Marked(es[1..]));
      assert e in es;
      SegmentsOfMarked(es[1..]);
      MarkedLines(e, Marked(es[1..]));
      SegmentsOfOne(e, rest);
    } else {
      NoSegments();
    }
  }

  lemma NoSegments()
    ensures Lines("") == [] && Segments([]) == []
  {
  }

  /** The clean lines that a segment starts with, and what is left of the text behind it. */
  lemma SegmentEnd(t: seq<string>, rest: seq<string>)
    requires Clean(t) && t != [] && !IsBanner(t[|t| - 1]) && forall b <- rest[..Until(rest)] :: IsBanner(b)
    ensures var ls := t + rest;
      TrimBanners(ls[..Until(ls)]) == t && Segments(ls[Until(ls)..]) == Segments(rest)
  {
    hide Directive, IsBanner, TrimBanners, Segments, Until, Clean;
    var u := Until(rest);
    UntilClean(t, rest);
    assert (t + rest)[..|t| + u] == t + rest[..u];
    assert (t + rest)[|t| + u..] == rest[u..];
    TrimTail(t, rest[..u]);
    DropLead(rest, u);
  }

  lemma DropLead(rest: seq<string>, u: nat)
    requires u == Until(rest)
    ensures Segments(rest[u..]) == Segments(rest)
  {
    hide Directive, TrimBanners, Segments, Clean;
    UntilClean(rest[..u], rest[u..]);
    assert rest == rest[..u] + rest[u..];
  }

  /** A marker opens a segment that holds the clean lines up to the banners before the next one. */
  lemma SegmentsAtMarker(l: string, n: nat, file: string, t: seq<string>, rest: seq<string>)
    requires Directive(l) == Some(Target(n, Some(file)))
    requires Clean(t) && t != [] && !IsBanner(t[|t| - 1]) && forall b <- rest[..Until(rest)] :: IsBanner(b)
    ensures Segments([l] + (t + rest)) == [Segment(file, t)] + Segments(rest)
    ensures Until([l] + (t + rest)) == 0
  {
    hide Directive, IsBanner, TrimBanners, Clean;
    assert ([l] + (t + rest))[1..] == t + rest;
    SegmentEnd(t, rest);
  }

  lemma SegmentsOfOne(e: Emission, rest: seq<string>)
    requires Separable(e) && forall l <- rest[..Until(rest)] :: IsBanner(l)
    ensures var ls := (if e.Body? then [MarkerLine(e.line, e.file)] else []) + Lines(e.text) + rest;
      Segments(ls) == (if e.Body? then [Segment(e.file, Lines(e.text))] else []) + Segments(rest) &&
      forall l <- ls[..Until(ls)] :: IsBanner(l)
  {
    hide Directive, IsBanner, MarkerLine, Lines, Segments;
    var t := Lines(e.text);
    if e.Body? {
      var l := MarkerLine(e.line, e.file);
      MarkerIsDirective(e.line, e.file);
      SegmentsAtMarker(l, e.line, e.file, t, rest);
      assert [l] + t + rest == [l] + (t + rest);
    } else {
      UntilClean(t, rest);
      assert [] + t + rest == t + rest;
      assert (t + rest)[..1 + Until(rest)] == t + rest[..Until(rest)];
    }
  }

  // ---- the piles in the segments -------------------------------------------------------------------

  lemma {:induction false} BodySegmentsAppend(a: seq<Emission>, b: seq<Emission>)
    ensures BodySegments(a + b) == BodySegments(a) + BodySegments(b)
  {
    hide Lines;
    if a == [] {
      assert a + b == b;
    } else {
      assert (a + b)[1..] == a[1..] + b && (a + b)[0] == a[0];
      BodySegmentsAppend(a[1..], b);
    }
  }

  function Join(a: Option<seq<string>>, b: Option<seq<string>>): Option<seq<string>> {
    if a.Some? && b.Some? then Some(a.value + b.value) else None
  }

  lemma {:induction false} CollectAppend(a: seq<Segment>, b: seq<Segment>, name: string, fmt: Format)
    ensures Collect(a + b, name, fmt) == Join(Collect(a, name, fmt), Collect(b, name, fmt))
  {
    hide Unwrap, Unlines, Stem;
    if a == [] {
      assert a + b == b;
      var c := Collect(b, name, fmt);
      assert c.Some? ==> [] + c.value == c.value;
    } else {
      assert (a + b)[1..] == a[1..] + b;
      CollectAppend(a[1..], b, name, fmt);
      var c, d := Collect(a[1..], name, fmt), Collect(b, name, fmt);
      var u := Unwrap(fmt, Unlines(a[0].lines));
      assert u.Some? && c.Some? && d.Some? ==>
        ([u.value] + c.value) + d.value == [u.value] + (c.value + d.value);
    }
  }

  lemma ApplyEnds(fmt: Format, item: string)
    requires EndsInMark(fmt)
    ensures var t := Apply(fmt, item);
      Terminated(t) && Lines(t) != [] && !IsBanner(Lines(t)[|Lines(t)| - 1]) && Unwrap(fmt, t) == Some(item)
  {
    hide Lines, IsBanner;
    var t := Apply(fmt, item);
    assert t[|t| - 2..] == fmt.post == [fmt.post[0], '\n'];
    LastLineEndsWith(t, fmt.post[0]);
    NoBanner(Lines(t)[|Lines(t)| - 1], fmt.post[0]);
    assert t[|fmt.pre|..|t| - |fmt.post|] == item;
    assert t[..|fmt.pre|] == fmt.pre;
  }

  lemma NoBanner(l: string, c: char)
    requires l != "" && l[|l| - 1] == c && c != '/'
    ensures !IsBanner(l)
  {
  }

  function PrintedItems(part: Part): seq<string> {
    if part.reverse then Reverse(part.items) else part.items
  }

  lemma CollectOne(e: Emission, es: seq<Emission>, name: string, fmt: Format)
    requires Collect(BodySegments(es), name, fmt).Some?
    ensures var rest := Collect(BodySegments(es), name, fmt).value;
      Collect(BodySegments([e] + es), name, fmt) ==
        if e.Note? || Stem(e.file) != name then Some(rest)
        else match Unwrap(fmt, Unlines(Lines(e.text)))
             case Some(item) => Some([item] + rest)
             case None => None
  {
    hide Lines, Unlines, Unwrap, Stem;
    var segs := BodySegments(es);
    assert ([e] + es)[1..] == es;
    if e.Note? {
      assert BodySegments([e] + es) == segs;
    } else {
      var seg := Segment(e.file, Lines(e.text));
      assert BodySegments([e] + es) == [seg] + segs;
      assert ([seg] + segs)[1..] == segs;
    }
  }

  lemma FragmentItem(part: Part, j: nat)
    requires j < |part.items| && EndsInMark(part.fmt)
    ensures var e := Fragment(part.name, part.items, part.reverse, part.fmt, j);
      Stem(e.file) == part.name && Unwrap(part.fmt, Unlines(Lines(e.text))) == Some(PrintedItems(part)[j])
  {
    hide Lines, Unlines, Unwrap, Stem, FileName, Apply;
    StemOfFileName(part.name, if part.reverse then |part.items| - j else j);
    ApplyEnds(part.fmt, PrintedItems(part)[j]);
    UnlinesLines(Apply(part.fmt, PrintedItems(part)[j]));
  }

  lemma {:induction false} CollectFragments(part: Part, j: nat, name: string, fmt: Format)
    requires j <= |part.items| && EndsInMark(part.fmt) && (part.name == name ==> part.fmt == fmt)
    ensures Collect(BodySegments(Fragments(part.name, part.items, part.reverse, part.fmt)[j..]), name, fmt)
         == Some(if part.name == name then PrintedItems(part)[j..] else [])
    decreases |part.items| - j
  {
    hide Lines, Unlines, Unwrap, Stem, Fragment, Collect, BodySegments;
    var es := Fragments(part.name, part.items, part.reverse, part.fmt);
    if j < |part.items| {
      CollectFragments(part, j + 1, name, fmt);
      var e := Fragment(part.name, part.items, part.reverse, part.fmt, j);
      assert es[j..] == [e] + es[j + 1..];
      CollectOne(e, es[j + 1..], name, fmt);
      FragmentItem(part, j);
      FragmentIsBody(part, j);
      assert PrintedItems(part)[j..] == [PrintedItems(part)[j]] + PrintedItems(part)[j + 1..];
    } else {
      NothingCollected(name, fmt);
      assert es[j..] == [] && PrintedItems(part)[j..] == [];
    }
  }

  lemma FragmentIsBody(part: Part, j: nat)
    requires j < |part.items|
    ensures Fragment(part.name, part.items, part.reverse, part.fmt, j).Body?
  {
  }

  lemma CollectSection(part: Part, name: string, fmt: Format)
    requires EndsInMark(part.fmt) && (part.name == name ==> part.fmt == fmt)
    ensures Collect(BodySegments(Section(part)), name, fmt)
         == Some(if part.name == name then PrintedItems(part) else [])
  {
    hide Collect, BodySegments;
    var es := Fragments(part.name, part.items, part.reverse, part.fmt);
    CollectFragments(part, 0, name, fmt);
    assert es[0..] == es && PrintedItems(part)[0..] == PrintedItems(part);
    if part.items != [] {
      CollectOne(Banner(part.name), es, name, fmt);
    } else {
      assert es == [];
    }
  }

  function ItemsOf(parts: seq<Part>, name: string): seq<string> {
    if parts == [] then []
    else (if parts[0].name == name then PrintedItems(parts[0]) else []) + ItemsOf(parts[1..], name)
  }

  lemma {:induction false} CollectSections(parts: seq<Part>, name: string, fmt: Format)
    requires forall part <- parts :: EndsInMark(part.fmt) && (part.name == name ==> part.fmt == fmt)
    ensures Collect(BodySegments(Sections(parts)), name, fmt) == Some(ItemsOf(parts, name))
  {
    hide Section, BodySegments, PrintedItems;
    if parts == [] {
      NothingCollected(name, fmt);
    } else {
      var a, b := Section(parts[0]), Sections(parts[1..]);
      assert parts[0] in parts && forall part <- parts[1..] :: part in parts;
      CollectSection(parts[0], name, fmt);
      CollectSections(parts[1..], name, fmt);
      BodySegmentsAppend(a, b);
      CollectAppend(BodySegments(a), BodySegments(b), name, fmt);
    }
  }

  lemma NothingCollected(name: string, fmt: Format)
    ensures Collect(BodySegments([]), name, fmt) == Some([])
  {
  }

  lemma CollectInternal(banner: string, line: nat, text: string, name: string, fmt: Format)
    requires name != "internal"
    ensures Collect(BodySegments([Banner(banner), InternalLine(line, text)]), name, fmt) == Some([])
  {
    var e := InternalLine(line, text);
    NothingCollected(name, fmt);
    assert Stem("internal") == "internal";
    hide Collect, BodySegments;
    CollectOne(e, [], name, fmt);
    CollectOne(Banner(banner), [e], name, fmt);
    assert [e] + [] == [e] && [Banner(banner)] + [e] == [Banner(banner), e];
  }

  lemma CollectInternals(name: string, fmt: Format)
    requires name != "internal"
    ensures Collect(BodySegments(OpeningPiece()), name, fmt) == Some([])
    ensures Collect(BodySegments(ClosingPiece()), name, fmt) == Some([])
  {
    hide Collect, BodySegments;
    CollectInternal("main", 186, MAIN_LINE + "\n" + RET_LINE + "\n", name, fmt);
    CollectInternal("done", 201, RETURN_LINE + "\n" + END_LINE + "\n", name, fmt);
  }

  lemma CollectFour(a: seq<Emission>, b: seq<Emission>, c: seq<Emission>, d: seq<Emission>, name: string, fmt: Format)
    requires Collect(BodySegments(b), name, fmt) == Some([]) == Collect(BodySegments(d), name, fmt)
    requires Collect(BodySegments(a), name, fmt).Some? && Collect(BodySegments(c), name, fmt).Some?
    ensures Collect(BodySegments(a + b + c + d), name, fmt)
         == Some(Collect(BodySegments(a), name, fmt).value + Collect(BodySegments(c), name, fmt).value)
  {
    hide Collect, BodySegments;
    BodySegmentsAppend(a, b);
    BodySegmentsAppend(a + b, c);
    BodySegmentsAppend(a + b + c, d);
    var w, x, y, z := BodySegments(a), BodySegments(b), BodySegments(c), BodySegments(d);
    CollectAppend(w, x, name, fmt);
    CollectAppend(w + x, y, name, fmt);
    CollectAppend(w + x + y, z, name, fmt);
    var i, j := Collect(w, name, fmt).value, Collect(y, name, fmt).value;
    assert i + [] + j + [] == i + j;
  }

  lemma CollectPieces(p: Piles, name: string, fmt: Format)
    requires name != "internal"
    requires forall part <- Head(p) :: EndsInMark(part.fmt) && (part.name == name ==> part.fmt == fmt)
    requires forall part <- Inner(p) :: EndsInMark(part.fmt) && (part.name == name ==> part.fmt == fmt)
    ensures Collect(BodySegments(Pieces(p)), name, fmt) == Some(ItemsOf(Head(p), name) + ItemsOf(Inner(p), name))
  {
    hide Head, Inner, ItemsOf, Collect, OpeningPiece, ClosingPiece, BodySegments, Sections;
    CollectSections(Head(p), name, fmt);
    CollectSections(Inner(p), name, fmt);
    CollectInternals(name, fmt);
    CollectFour(Sections(Head(p)), OpeningPiece(), Sections(Inner(p)), ClosingPiece(), name, fmt);
  }

  /** The items of a table of sections, by position: names are distinct, so the first match is all. */
  lemma {:induction false} ItemsAt(parts: seq<Part>, k: nat)
    requires k < |parts| && DistinctNames(parts)
    ensures ItemsOf(parts, parts[k].name) == PrintedItems(parts[k])
  {
    hide PrintedItems;
    assert DistinctNames(parts[1..]) by {
      forall i, j | 0 <= i < j < |parts[1..]| ensures parts[1..][i].name != parts[1..][j].name {
        assert parts[1..][i] == parts[i + 1] && parts[1..][j] == parts[j + 1];
      }
    }
    if k == 0 {
      ItemsAbsent(parts[1..], parts[0].name);
    } else {
      assert parts[1..][k - 1] == parts[k];
      ItemsAt(parts[1..], k - 1);
    }
  }

  lemma {:induction false} ItemsAbsent(parts: seq<Part>, name: string)
    requires forall j :: 0 <= j < |parts| ==> parts[j].name != name
    ensures ItemsOf(parts, name) == []
  {
    if parts != [] {
      assert forall j :: 0 <= j < |parts[1..]| ==> parts[1..][j] == parts[j + 1];
      ItemsAbsent(parts[1..], name);
    }
  }

  // ---- printing can be undone ------------------------------------------------------------------------

  lemma FragmentSeparable(part: Part, j: nat)
    requires j < |part.items| && EndsInMark(part.fmt) && Plain(part.name)
    requires Undirected(Apply(part.fmt, PrintedItems(part)[j]))
    ensures Separable(Fragment(part.name, part.items, part.reverse, part.fmt, j))
  {
    hide Lines, Clean, Directive, IsBanner, Plain, OneLine, FileName, EndsInMark, Reverse, Apply;
    FileIsPlain(part.name, if part.reverse then |part.items| - j else j);
    PrintedItem(part, j);
    ApplyEnds(part.fmt, PrintedItems(part)[j]);
  }

  lemma FileIsPlain(name: string, n: nat)
    requires Plain(name)
    ensures var file := FileName(name, n); Plain(file) && OneLine(file) && '"' !in file && '\\' !in file
  {
    DigitsArePlain(Dec(n));
    PlainHasNoQuote(FileName(name, n));
    PlainIsOneLine(FileName(name, n));
  }

  lemma PrintedItem(part: Part, j: nat)
    requires j < |part.items|
    ensures PrintedItems(part)[j] == part.items[if part.reverse then |part.items| - 1 - j else j]
  {
  }

  lemma PlainIsOneLine(s: string)
    requires Plain(s)
    ensures OneLine(s)
  {
  }

  lemma BannerSeparable(name: string)
    requires Plain(name)
    ensures Separable(Banner(name))
  {
    var l := "/* " + name + " */";
    assert Banner(name).text == l + "\n";
    PlainIsOneLine(name);
    LinesOfLine(l);
    assert SkipBlanks(l) == l && Directive(l) == None;
    assert [l][1..] == [];
  }

  lemma SectionSeparable(part: Part)
    requires EndsInMark(part.fmt) && Plain(part.name)
    requires forall item <- part.items :: Undirected(Apply(part.fmt, item))
    ensures forall e <- Section(part) :: Separable(e)
  {
    hide Separable, EndsInMark, Plain, Apply, Undirected, Fragment;
    BannerSeparable(part.name);
    var es := Fragments(part.name, part.items, part.reverse, part.fmt);
    forall e <- es ensures Separable(e) {
      var j :| 0 <= j < |es| && es[j] == e;
      assert PrintedItems(part)[j] in part.items;
      FragmentSeparable(part, j);
    }
  }

  lemma {:induction false} SectionsSeparable(parts: seq<Part>)
    requires UndirectedParts(parts) && forall part <- parts :: EndsInMark(part.fmt) && Plain(part.name)
    ensures forall e <- Sections(parts) :: Separable(e)
  {
    hide Separable, EndsInMark, Plain, Apply, Undirected, Section;
    if parts != [] {
      assert parts[0] in parts && forall part <- parts[1..] :: part in parts;
      SectionSeparable(parts[0]);
      SectionsSeparable(parts[1..]);
    }
  }

  lemma BlandLine(l: string)
    requires Bland(l) && SkipBlanks(l) != "" && SkipBlanks(l)[0] != '#' && SkipBlanks(l)[0] != '%'
    ensures OneLine(l) && Directive(l) == None && !IsBanner(l)
  {
    assert l[0] in l;
  }

  lemma InternalPieceSeparable(line: nat, a: string, b: string)
    requires OneLine(a) && OneLine(b) && Directive(a) == None && Directive(b) == None && !IsBanner(b)
    ensures Separable(InternalLine(line, a + "\n" + b + "\n"))
  {
    hide Directive, IsBanner, Lines, OneLine, Plain;
    var t := a + "\n" + b + "\n";
    LinesOfTwo(a, b);
    assert [a, b][1..] == [b] && [b][1..] == [];
    assert Clean([b]) && Clean([a, b]);
    InternalIsOneFile("internal");
  }

  lemma InternalIsOneFile(file: string)
    requires file == "internal"
    ensures '"' !in file && '\\' !in file && OneLine(file)
  {
    assert Plain(file);
    PlainHasNoQuote(file);
    PlainIsOneLine(file);
  }

  lemma InternalPiecesSeparable()
    ensures forall e <- OpeningPiece() :: Separable(e)
    ensures forall e <- ClosingPiece() :: Separable(e)
  {
    hide Separable, Bland, Directive, IsBanner, OneLine, Plain;
    MainIsBland();
    RetLine();
    ReturnLine();
    EndLine();
    BlandLine(MAIN_LINE);
    BlandLine(RET_LINE);
    BlandLine(RETURN_LINE);
    BlandLine(END_LINE);
    BannersSeparable();
    InternalPieceSeparable(186, MAIN_LINE, RET_LINE);
    InternalPieceSeparable(201, RETURN_LINE, END_LINE);
  }

  lemma BannersSeparable()
    ensures Separable(Banner("main")) && Separable(Banner("done"))
  {
    hide Separable, Plain, Banner;
    InternalIsPlain();
    BannerSeparable("main");
    BannerSeparable("done");
  }

  /** The segments of a printed program are its pieces, in order. */
  lemma SegmentsOfProgram(p: Piles)
    requires DirectiveFree(p)
    ensures Segments(Lines(Printed(p))) == BodySegments(Pieces(p))
  {
    hide Separable, EndsInMark, Plain, UndirectedParts, OpeningPiece, ClosingPiece, Sections, Head, Inner, Segments,
         BodySegments, Lines;
    NamesArePlain(p);
    PartsWellFormed(p);
    SectionsSeparable(Head(p));
    SectionsSeparable(Inner(p));
    InternalPiecesSeparable();
    SegmentsOfMarked(Pieces(p));
  }

  /** One section of a printed program, recovered by its name. */
  lemma CollectNamed(p: Piles, parts: seq<Part>, other: seq<Part>, k: nat)
    requires (parts == Head(p) && other == Inner(p)) || (parts == Inner(p) && other == Head(p))
    requires k < |parts|
    ensures Collect(BodySegments(Pieces(p)), parts[k].name, parts[k].fmt) == Some(PrintedItems(parts[k]))
  {
    hide Head, Inner, Collect, BodySegments, PrintedItems, Pieces, EndsInMark, Names, DistinctNames, Plain;
    PartsWellFormed(p);
    PartNames(p);
    PartsApart(p, parts, other, k);
    CollectPieces(p, parts[k].name, parts[k].fmt);
    ItemsAt(parts, k);
    ItemsAbsent(other, parts[k].name);
    var x := PrintedItems(parts[k]);
    assert x + [] == x && [] + x == x;
  }

  /** No section name is used on both sides of the opening lines. */
  lemma SidesApart(p: Piles)
    ensures forall i, j :: 0 <= i < |Head(p)| && 0 <= j < |Inner(p)| ==> Head(p)[i].name != Inner(p)[j].name
  {
    var h, i := Head(p), Inner(p);
    forall a | 0 <= a < |h| ensures h[a].name != "before" && h[a].name != "statements" && h[a].name != "after" {
      assert h[a].name[0] == 'd' || h[a].name[0] == 'i' || h[a].name[0] == 't' || h[a].name[1] == 'y';
    }
  }

  lemma SameNameSamePart(parts: seq<Part>, k: nat)
    requires k < |parts| && DistinctNames(parts)
    ensures forall part <- parts :: part.name == parts[k].name ==> part == parts[k]
  {
  }

  lemma PartsApart(p: Piles, parts: seq<Part>, other: seq<Part>, k: nat)
    requires (parts == Head(p) && other == Inner(p)) || (parts == Inner(p) && other == Head(p))
    requires k < |parts|
    ensures parts[k].name != "internal" && forall j :: 0 <= j < |other| ==> other[j].name != parts[k].name
    ensures forall part <- parts :: part.name == parts[k].name ==> part.fmt == parts[k].fmt
    ensures forall part <- other :: part.name == parts[k].name ==> part.fmt == parts[k].fmt
  {
    hide Head, Inner, DistinctNames;
    SidesApart(p);
    PartNames(p);
    assert parts[k] in parts && parts[k].name in Names(parts);
    SameNameSamePart(parts, k);
  }

  lemma RecoverPrinted(p: Piles)
    requires DirectiveFree(p)
    ensures Recover(Printed(p)) == Some(p)
  {
    SegmentsOfProgram(p);
    var h, i := Head(p), Inner(p);
    CollectNamed(p, h, i, 0);
    CollectNamed(p, h, i, 1);
    CollectNamed(p, h, i, 2);
    CollectNamed(p, h, i, 3);
    CollectNamed(p, h, i, 5);
    CollectNamed(p, i, h, 0);
    CollectNamed(p, i, h, 1);
    CollectNamed(p, i, h, 2);
    assert Reverse(Reverse(p.afts)) == p.afts;
    hide Collect, BodySegments, Segments, Lines, DirectiveFree, Pieces, Printed;
  }

  // ---- what comes out is free of directives ------------------------------------------------------------

  predicate Tidy(segs: seq<Segment>) {
    forall seg <- segs :: Clean(seg.lines) && forall l <- seg.lines :: OneLine(l)
  }

  lemma {:induction false} TrimClean(ls: seq<string>)
    requires Clean(ls) && forall l <- ls :: OneLine(l)
    ensures Clean(TrimBanners(ls)) && forall l <- TrimBanners(ls) :: OneLine(l)
  {
    hide Directive, IsBanner;
    if ls != [] && IsBanner(ls[|ls| - 1]) {
      CleanPrefix(ls, |ls| - 1);
      TrimClean(ls[..|ls| - 1]);
    }
  }

  lemma {:induction false} CleanPrefix(ls: seq<string>, k: nat)
    requires Clean(ls) && k <= |ls|
    ensures Clean(ls[..k])
  {
    hide Directive;
    if k > 0 {
      assert ls[..k][1..] == ls[1..][..k - 1];
      CleanPrefix(ls[1..], k - 1);
    }
  }

  lemma {:induction false} SegmentsTidy(ls: seq<string>)
    requires forall l <- ls :: OneLine(l)
    ensures Tidy(Segments(ls))
    decreases |ls|
  {
    hide Directive, TrimBanners, OneLine;
    if ls != [] {
      assert forall l <- ls[1..] :: l in ls;
      if Directive(ls[0]) == None {
        SegmentsTidy(ls[1..]);
      } else {
        var k := Until(ls[1..]);
        assert forall l <- ls[1..][..k] :: l in ls[1..];
        assert forall l <- ls[1..][k..] :: l in ls[1..];
        TrimClean(ls[1..][..k]);
        SegmentsTidy(ls[1..][k..]);
      }
    }
  }

  lemma UnwrapApply(fmt: Format, t: string)
    requires Unwrap(fmt, t).Some?
    ensures Apply(fmt, Unwrap(fmt, t).value) == t
  {
    var item := Unwrap(fmt, t).value;
    assert t == t[..|fmt.pre|] + t[|fmt.pre|..|t| - |fmt.post|] + t[|t| - |fmt.post|..];
  }

  lemma {:induction false} CollectedUndirected(segs: seq<Segment>, name: string, fmt: Format)
    requires Tidy(segs) && Collect(segs, name, fmt).Some?
    ensures forall item <- Collect(segs, name, fmt).value :: Undirected(Apply(fmt, item))
  {
    hide Unwrap, Apply, Stem, Unlines, Lines;
    if segs != [] {
      assert segs[0] in segs && forall seg <- segs[1..] :: seg in segs;
      CollectedUndirected(segs[1..], name, fmt);
      if Stem(segs[0].file) == name {
        var t := Unlines(segs[0].lines);
        UnwrapApply(fmt, t);
        LinesUnlines(segs[0].lines);
      }
    }
  }

  lemma RecoveredIsDirectiveFree(t: string)
    requires Recover(t).Some?
    ensures DirectiveFree(Recover(t).value)
  {
    hide Collect, Segments, Undirected, Apply, Lines, Tidy;
    var segs, q := Segments(Lines(t)), Recover(t).value;
    LinesAreLines(t);
    SegmentsTidy(Lines(t));
    CollectedUndirected(segs, "defsysinclude", INCLUDE);
    CollectedUndirected(segs, "sysinclude", INCLUDE);
    CollectedUndirected(segs, "include", INCLUDE);
    CollectedUndirected(segs, "declarations", PLAIN);
    CollectedUndirected(segs, "toplevel", PLAIN);
    CollectedUndirected(segs, "before", INDENTED);
    CollectedUndirected(segs, "statements", INDENTED);
    CollectedUndirected(segs, "after", INDENTED);
    assert forall item <- q.afts :: item in Collect(segs, "after", INDENTED).value;
  }

  /** The decoder gives back exactly the piles that were printed, for exactly the configurations in
      which no item brings a line directive of its own. */
  lemma RoundTrip(p: Piles)
    ensures Recover(Printed(p)) == Some(p) <==> DirectiveFree(p)
  {
    hide Recover, Printed, DirectiveFree;
    if DirectiveFree(p) {
      RecoverPrinted(p);
    } else if Recover(Printed(p)) == Some(p) {
      RecoveredIsDirectiveFree(Printed(p));
    }
  }

  /** Two different configurations without line directives never print the same program. */
  lemma PrintingIsInjective(p: Piles, q: Piles)
    requires DirectiveFree(p) && DirectiveFree(q) && Printed(p) == Printed(q)
    ensures p == q
  {
    hide Recover, Printed, DirectiveFree;
    RoundTrip(p);
    RoundTrip(q);
  }

  // ---- why items must not bring line directives ----------------------------------------------------------

  lemma MarkedThree(a: seq<Emission>, b: seq<Emission>, c: seq<Emission>)
    ensures Marked(a + b + c) == Marked(a) + Marked(b) + Marked(c)
  {
    MarkedAppend(a + b, c);
    MarkedAppend(a, b);
  }

  /** The statements in the middle of a program. */
  lemma StatementsWithin(p: Piles)
    ensures Printed(p) == Marked(Sections(Head(p)) + OpeningPiece() + Section(Inner(p)[0]))
                        + Marked(Section(Inner(p)[1]))
                        + Marked(Section(Inner(p)[2]) + ClosingPiece())
  {
    hide Head, Section, Sections, OpeningPiece, ClosingPiece, Marked;
    var i := Inner(p);
    InnerSections(p);
    var a, b, c := Sections(Head(p)) + OpeningPiece() + Section(i[0]), Section(i[1]), Section(i[2]) + ClosingPiece();
    assert Pieces(p) == a + b + c;
    MarkedThree(a, b, c);
  }

  lemma StatementNames()
    ensures FileName("statements", 0) == "statements_0" && FileName("statements", 1) == "statements_1"
  {
    assert Dec(0) == "0" && Dec(1) == "1";
  }

  lemma StatementsSection(x: string, rest: seq<string>)
    requires |rest| <= 1
    ensures Section(Part("statements", [x] + rest, false, INDENTED))
         == [Banner("statements"), Body(Preproc, "statements_0", 1, "\t" + x + ";\n")]
          + if rest == [] then [] else [Body(Preproc, "statements_1", 1, "\t" + rest[0] + ";\n")]
  {
    hide FileName, Banner;
    StatementNames();
  }

  /** A statement section up to its first item, and the rest. */
  lemma MarkedStatements(x: string, rest: seq<string>)
    requires |rest| <= 1
    ensures Marked(Section(Part("statements", [x] + rest, false, INDENTED)))
         == Banner("statements").text + (MarkerLine(1, "statements_0") + "\n" + ("\t" + x + ";\n")) +
            if rest == [] then "" else MarkerLine(1, "statements_1") + "\n" + ("\t" + rest[0] + ";\n")
  {
    hide MarkerLine, FileName, Section, Marked, BannerLine;
    StatementsSection(x, rest);
    var first := Body(Preproc, "statements_0", 1, "\t" + x + ";\n");
    if rest == [] {
      assert [Banner("statements"), first] + [] == [Banner("statements")] + [first] && [first] + [] == [first];
      MarkedOne(first, []);
      MarkedOne(Banner("statements"), [first]);
    } else {
      var second := Body(Preproc, "statements_1", 1, "\t" + rest[0] + ";\n");
      assert [Banner("statements"), first] + [second] == [Banner("statements")] + [first, second];
      assert [first, second] == [first] + [second] && [second] + [] == [second];
      MarkedOne(second, []);
      MarkedOne(first, [second]);
      MarkedOne(Banner("statements"), [first, second]);
    }
  }

  lemma MarkedOne(e: Emission, es: seq<Emission>)
    ensures Marked([e] + es) == (if e.Body? then Marker(e) else "") + e.text + Marked(es)
    ensures Marked([]) == ""
  {
    assert ([e] + es)[1..] == es;
  }

  /** Two statements, and a single statement that brings the marker between them along, print the same
      program: without the condition of the round trip, printing is not injective. */
  lemma SmuggledMarker(p: Piles, x: string, y: string)
    ensures Printed(p.(stms := [x, y])) == Printed(p.(stms := [x + ";\n" + MarkerLine(1, "statements_1") + "\n\t" + y]))
  {
    hide Head, Section, OpeningPiece, ClosingPiece, MarkerLine, Marked;
    var z := x + ";\n" + MarkerLine(1, "statements_1") + "\n\t" + y;
    StatementsWithin(p.(stms := [x, y]));
    StatementsWithin(p.(stms := [z]));
    HeadsEqual(p, [x, y]);
    HeadsEqual(p, [z]);
    MarkedStatements(x, [y]);
    MarkedStatements(z, []);
    assert [x] + [y] == [x, y] && [z] + [] == [z];
    assert MarkerLine(1, "statements_0") + "\n" + ("\t" + z + ";\n")
        == MarkerLine(1, "statements_0") + "\n" + ("\t" + x + ";\n") + (MarkerLine(1, "statements_1") + "\n" + ("\t" + y + ";\n"));
  }

  lemma HeadsEqual(p: Piles, stms: seq<string>)
    ensures Head(p.(stms := stms)) == Head(p)
  {
  }
}
