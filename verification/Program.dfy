/** The program that `cplr_generate_code` prints for a configuration of piles: the calls it makes,
    the text that results, and how a compiler reads that text. */
module Program {
  import opened Text
  import opened LineControl
  import opened Emitter

  /** The piles that reach the program text. */
  datatype Piles = Piles(
    defsys: seq<string>, syss: seq<string>, incs: seq<string>, tlds: seq<string>,
    tlfs: seq<string>, befs: seq<string>, stms: seq<string>, afts: seq<string>)

  /** A format that substitutes one string. */
  datatype Format = Format(pre: string, post: string)

  const INCLUDE := Format("#include <", ">\n")
  const PLAIN := Format("", ";\n")
  const INDENTED := Format("\t", ";\n")

  function Apply(fmt: Format, s: string): string {
    fmt.pre + s + fmt.post
  }

  function FileName(name: string, j: nat): string {
    name + "_" + Dec(j)
  }

  function Banner(name: string): Emission {
    Note(BannerLine(name) + "\n")
  }

  /** The j-th fragment of a section: in a reversed section both items and numbers run backwards. */
  function Fragment(name: string, items: seq<string>, reverse: bool, fmt: Format, j: nat): Emission
    requires j < |items|
  {
    if reverse then Body(Statement, FileName(name, |items| - j), 1, Apply(fmt, items[|items| - 1 - j]))
    else Body(Preproc, FileName(name, j), 1, Apply(fmt, items[j]))
  }

  function Fragments(name: string, items: seq<string>, reverse: bool, fmt: Format): seq<Emission> {
    seq(|items|, j requires 0 <= j < |items| => Fragment(name, items, reverse, fmt, j))
  }

  datatype Part = Part(name: string, items: seq<string>, reverse: bool, fmt: Format)

  function Section(part: Part): seq<Emission> {
    if part.items == [] then []
    else [Banner(part.name)] + Fragments(part.name, part.items, part.reverse, part.fmt)
  }

  function Sections(parts: seq<Part>): seq<Emission> {
    if parts == [] then [] else Section(parts[0]) + Sections(parts[1..])
  }

  function Head(p: Piles): seq<Part> {
    [Part("defsysinclude", p.defsys, false, INCLUDE),
     Part("sysinclude", p.syss, false, INCLUDE),
     Part("include", p.incs, false, INCLUDE),
     Part("declarations", p.tlds, false, PLAIN),
     Part("definition", p.tlds, false, PLAIN),
     Part("toplevel", p.tlfs, false, PLAIN)]
  }

  function Inner(p: Piles): seq<Part> {
    [Part("before", p.befs, false, INDENTED),
     Part("statements", p.stms, false, INDENTED),
     Part("after", p.afts, true, INDENTED)]
  }

  function InternalLine(line: nat, text: string): Emission {
    Body(Internal, "internal", line, text)
  }

  const MAIN_LINE := "int main(int argc, char **argv) {"
  const RET_LINE := "\tint ret = 0;"
  const RETURN_LINE := "\treturn ret;"
  const END_LINE := "}"

  function Opening(): seq<Emission> {
    [Banner("main"), InternalLine(186, MAIN_LINE + "\n"), InternalLine(187, RET_LINE + "\n")]
  }

  function Closing(): seq<Emission> {
    [Banner("done"), InternalLine(201, RETURN_LINE + "\n"), InternalLine(202, END_LINE + "\n")]
  }


  /** Every call of `cplr_emit` that one generation makes. */
  function Plan(p: Piles): seq<Emission> {
    Sections(Head(p)) + Opening() + Sections(Inner(p)) + Closing()
  }

  // ---- the printed program -------------------------------------------------------------------

  /** The text with a marker before each fragment. */
  function Marked(es: seq<Emission>): string {
    if es == [] then ""
    else Emit(es[0], es[0].Body?, Marked(es[1..]))
  }

  function OpeningPiece(): seq<Emission> {
    [Banner("main"), InternalLine(186, MAIN_LINE + "\n" + RET_LINE + "\n")]
  }

  function ClosingPiece(): seq<Emission> {
    [Banner("done"), InternalLine(201, RETURN_LINE + "\n" + END_LINE + "\n")]
  }


  /** The program as a reader would want it: one marker for every item and for each of the two
      internal pieces, and no other. */
  function Pieces(p: Piles): seq<Emission> {
    Sections(Head(p)) + OpeningPiece() + Sections(Inner(p)) + ClosingPiece()
  }

  function Printed(p: Piles): string {
    Marked(Pieces(p))
  }

  lemma {:induction false} MarkedAppend(a: seq<Emission>, b: seq<Emission>)
    ensures Marked(a + b) == Marked(a) + Marked(b)
  {
    if a == [] {
      assert a + b == b;
    } else {
      assert (a + b)[1..] == a[1..] + b;
      MarkedAppend(a[1..], b);
    }
  }

  // ---- pseudo-file names ---------------------------------------------------------------------

  function DropDigits(s: string): string {
    if s != "" && IsDigit(s[|s| - 1]) then DropDigits(s[..|s| - 1]) else s
  }

  /** The section that a pseudo-file name belongs to. */
  function Stem(file: string): string {
    var d := DropDigits(file);
    if d != "" && d[|d| - 1] == '_' then d[..|d| - 1] else d
  }

  lemma {:induction false} DropDigitRun(s: string, d: string)
    requires forall c <- d :: IsDigit(c)
    ensures DropDigits(s + d) == DropDigits(s)
  {
    if d == "" {
      assert s + d == s;
    } else {
      assert (s + d)[|s + d| - 1] == d[|d| - 1] && d[|d| - 1] in d;
      assert (s + d)[..|s + d| - 1] == s + d[..|d| - 1];
      DropDigitRun(s, d[..|d| - 1]);
    }
  }

  lemma StemOfFileName(name: string, j: nat)
    ensures Stem(FileName(name, j)) == name
  {
    DropDigitRun(name + "_", Dec(j));
    assert (name + "_")[..|name|] == name;
  }

  lemma FileNameInjective(name: string, i: nat, j: nat)
    requires FileName(name, i) == FileName(name, j)
    ensures i == j
  {
    assert FileName(name, i)[|name| + 1..] == Dec(i);
    assert FileName(name, j)[|name| + 1..] == Dec(j);
    ValueOfDec(i);
    ValueOfDec(j);
  }

  // ---- which markers are printed ---------------------------------------------------------------

  /** Every fragment lies in another file than the fragment before it. */
  predicate Alternating(es: seq<Emission>, m: Memory) {
    es == [] ||
    ((es[0].Body? ==> m.prevfile != Some(es[0].file)) && Alternating(es[1..], Remember(m, es[0])))
  }

  ghost predicate AlwaysAligned(es: seq<Emission>, m: Memory) {
    forall at: nat :: Aligned(es, m, at)
  }

  lemma {:induction false} AlternatingIsMarked(es: seq<Emission>, m: Memory)
    requires Alternating(es, m)
    ensures Code(es, m) == Marked(es) && AlwaysAligned(es, m)
  {
    if es != [] {
      AlternatingIsMarked(es[1..], Remember(m, es[0]));
      forall at: nat ensures Aligned(es, m, at) {
        assert Aligned(es[1..], Remember(m, es[0]), WantedLine(es[0], at) + |Lines(es[0].text)|);
      }
    }
  }

  lemma {:induction false} AlignedAppend(a: seq<Emission>, b: seq<Emission>, m: Memory, at: nat)
    requires Aligned(a, m, at) && AlwaysAligned(b, MemoryAfter(a, m))
    ensures Aligned(a + b, m, at)
  {
    if a == [] {
      assert a + b == b;
    } else {
      assert (a + b)[1..] == a[1..] + b;
      AlignedAppend(a[1..], b, Remember(m, a[0]), WantedLine(a[0], at) + |Lines(a[0].text)|);
    }
  }

  lemma AlwaysAlignedAppend(a: seq<Emission>, b: seq<Emission>, m: Memory)
    requires AlwaysAligned(a, m) && AlwaysAligned(b, MemoryAfter(a, m))
    ensures AlwaysAligned(a + b, m)
  {
    forall at: nat ensures Aligned(a + b, m, at) {
      AlignedAppend(a, b, m, at);
    }
  }

  /** The file of the last fragment, if any, belongs to one of these sections. */
  predicate LastIn(m: Memory, names: set<string>) {
    m.prevfile.Some? ==> Stem(m.prevfile.value) in names
  }

  lemma {:induction false} FragmentsAlternate(part: Part, j: nat, m: Memory)
    requires j <= |part.items|
    requires m.prevfile.Some? && Stem(m.prevfile.value) == part.name ==>
               j > 0 && m.prevfile.value == Fragment(part.name, part.items, part.reverse, part.fmt, j - 1).file
    ensures var es := Fragments(part.name, part.items, part.reverse, part.fmt)[j..];
            Alternating(es, m) &&
            (es != [] ==> LastIn(MemoryAfter(es, m), {part.name})) && (es == [] ==> MemoryAfter(es, m) == m)
    decreases |part.items| - j
  {
    var all := Fragments(part.name, part.items, part.reverse, part.fmt);
    if j < |part.items| {
      var e := all[j];
      var n := |part.items|;
      var i := if part.reverse then n - j else j;
      assert e.file == FileName(part.name, i);
      StemOfFileName(part.name, i);
      if m.prevfile == Some(e.file) {
        FileNameInjective(part.name, i, if part.reverse then n - (j - 1) else j - 1);
        assert false;
      }
      assert all[j..][1..] == all[j + 1..];
      FragmentsAlternate(part, j + 1, Remember(m, e));
    }
  }

  function Names(parts: seq<Part>): set<string> {
    set part <- parts :: part.name
  }

  predicate DistinctNames(parts: seq<Part>) {
    forall i, j :: 0 <= i < j < |parts| ==> parts[i].name != parts[j].name
  }

  lemma {:induction false} AlternatingAppend(a: seq<Emission>, b: seq<Emission>, m: Memory)
    requires Alternating(a, m) && Alternating(b, MemoryAfter(a, m))
    ensures Alternating(a + b, m)
  {
    if a == [] {
      assert a + b == b;
    } else {
      assert (a + b)[1..] == a[1..] + b;
      AlternatingAppend(a[1..], b, Remember(m, a[0]));
    }
  }

  lemma SectionAlternates(part: Part, m: Memory, seen: set<string>)
    requires LastIn(m, seen) && part.name !in seen
    ensures Alternating(Section(part), m) && LastIn(MemoryAfter(Section(part), m), seen + {part.name})
    ensures part.items == [] ==> MemoryAfter(Section(part), m) == m
    ensures part.items != [] ==> LastIn(MemoryAfter(Section(part), m), {part.name})
  {
    if part.items != [] {
      var es := Fragments(part.name, part.items, part.reverse, part.fmt);
      FragmentsAlternate(part, 0, m);
      assert es[0..] == es;
      assert Section(part)[1..] == es;
    }
  }

  /** The first name of a table does not come back in the rest. */
  lemma NamesOfRest(parts: seq<Part>)
    requires parts != [] && DistinctNames(parts)
    ensures Names(parts) == {parts[0].name} + Names(parts[1..])
    ensures parts[0].name !in Names(parts[1..]) && DistinctNames(parts[1..])
  {
    assert forall part <- parts[1..] :: part in parts;
    assert Names(parts) == {parts[0].name} + Names(parts[1..]) by {
      assert forall part <- parts :: part == parts[0] || part in parts[1..];
    }
    forall part <- parts[1..] ensures part.name != parts[0].name {
      var k :| 0 <= k < |parts| - 1 && parts[1..][k] == part;
      assert parts[k + 1] == part;
    }
    forall i, j | 0 <= i < j < |parts[1..]| ensures parts[1..][i].name != parts[1..][j].name {
      assert parts[1..][i] == parts[i + 1] && parts[1..][j] == parts[j + 1];
    }
  }

  lemma NothingAlternates(m: Memory)
    ensures Alternating([], m) && MemoryAfter([], m) == m && Names([]) == {}
  {
  }

  lemma {:induction false} SectionsAlternate(parts: seq<Part>, m: Memory, seen: set<string>)
    requires LastIn(m, seen) && DistinctNames(parts) && Names(parts) !! seen
    ensures Alternating(Sections(parts), m)
    ensures LastIn(MemoryAfter(Sections(parts), m), seen + Names(parts))
    ensures MemoryAfter(Sections(parts), m) == m || LastIn(MemoryAfter(Sections(parts), m), Names(parts))
  {
    hide Alternating, MemoryAfter, Names, DistinctNames, Section;
    if parts == [] {
      NothingAlternates(m);
    } else {
      var a, b := Section(parts[0]), Sections(parts[1..]);
      NamesOfRest(parts);
      SectionAlternates(parts[0], m, seen);
      SectionsAlternate(parts[1..], MemoryAfter(a, m), seen + {parts[0].name});
      CodeAppend(a, b, m);
      AlternatingAppend(a, b, m);
      assert seen + {parts[0].name} + Names(parts[1..]) == seen + Names(parts);
    }
  }

  lemma InternalLines()
    ensures Lines(MAIN_LINE + "\n") == [MAIN_LINE] && Lines(RET_LINE + "\n") == [RET_LINE]
    ensures Lines(RETURN_LINE + "\n") == [RETURN_LINE] && Lines(END_LINE + "\n") == [END_LINE]
  {
    LinesOfLine(MAIN_LINE);
    LinesOfLine(RET_LINE);
    LinesOfLine(RETURN_LINE);
    LinesOfLine(END_LINE);
  }

  /** A banner and two internal lines of consecutive numbers. */
  function Pair(name: string, line: nat, a: string, b: string): seq<Emission> {
    [Banner(name)] + ([InternalLine(line, a)] + [InternalLine(line + 1, b)])
  }

  lemma CodeOne(e: Emission, es: seq<Emission>, m: Memory)
    ensures Code([e] + es, m) == Emit(e, NeedsMarker(m, e), Code(es, Remember(m, e)))
    ensures MemoryAfter([e] + es, m) == MemoryAfter(es, Remember(m, e))
    ensures Marked([e] + es) == Emit(e, e.Body?, Marked(es))
  {
    assert ([e] + es)[1..] == es;
  }

  lemma AlignedOne(e: Emission, es: seq<Emission>, m: Memory, at: nat)
    ensures Aligned([e] + es, m, at) <==>
        (e.Body? && !NeedsMarker(m, e) ==> e.line == at) &&
        Aligned(es, Remember(m, e), WantedLine(e, at) + |Lines(e.text)|)
  {
    assert ([e] + es)[1..] == es;
  }

  /** The second line of a pair follows its first without a marker. */
  lemma PairSuppresses(line: nat, a: string, b: string, m: Memory)
    requires NeedsMarker(m, InternalLine(line, a)) && line != 0
    ensures var x, y := InternalLine(line, a), InternalLine(line + 1, b);
      Remember(m, x) == Memory(Internal, line, Some("internal")) &&
      Remember(Remember(m, x), y) == Memory(Internal, line + 1, Some("internal")) &&
      !NeedsMarker(Remember(m, x), y)
  {
  }

  lemma CodeNone(m: Memory)
    ensures Code([], m) == "" && MemoryAfter([], m) == m && Marked([]) == ""
  {
  }

  lemma NoteNeedsNone(m: Memory, text: string)
    ensures !NeedsMarker(m, Note(text)) && Remember(m, Note(text)) == m
  {
  }

  lemma EmitPair(line: nat, a: string, b: string)
    ensures Emit(InternalLine(line, a), true, Emit(InternalLine(line + 1, b), false, ""))
         == Emit(InternalLine(line, a + b), true, "")
  {
    hide MarkerLine;
    var k := Marker(InternalLine(line, a));
    assert k + a + ("" + b + "") == k + (a + b) + "";
  }

  /** One marker serves both lines of a pair. */
  lemma PairMarked(name: string, line: nat, a: string, b: string, m: Memory)
    requires NeedsMarker(m, InternalLine(line, a)) && line != 0
    ensures Code(Pair(name, line, a, b), m) == Marked([Banner(name)] + [InternalLine(line, a + b)])
    ensures MemoryAfter(Pair(name, line, a, b), m) == Memory(Internal, line + 1, Some("internal"))
  {
    hide Code, Marked, MemoryAfter, NeedsMarker, Marker, Remember, Emit;
    var n, x, y, f := Banner(name), InternalLine(line, a), InternalLine(line + 1, b), InternalLine(line, a + b);
    PairSuppresses(line, a, b, m);
    NoteNeedsNone(m, n.text);
    var mNow := Remember(m, x);
    CodeOne(n, [x] + [y], m);
    CodeOne(x, [y], m);
    assert [y] + [] == [y] && [f] + [] == [f];
    CodeOne(y, [], mNow);
    CodeNone(Remember(mNow, y));
    CodeOne(n, [f], m);
    CodeOne(f, [], m);
    EmitPair(line, a, b);
  }

  lemma PairAligned(name: string, line: nat, a: string, b: string, m: Memory)
    requires NeedsMarker(m, InternalLine(line, a)) && line != 0 && |Lines(a)| == 1
    ensures AlwaysAligned(Pair(name, line, a, b), m)
  {
    var n, x, y := Banner(name), InternalLine(line, a), InternalLine(line + 1, b);
    PairSuppresses(line, a, b, m);
    var mNow := Remember(m, x);
    assert !NeedsMarker(m, n) && Remember(m, n) == m && [y] + [] == [y];
    var end := line + 1 + |Lines(b)|;
    AlignedOne(y, [], mNow, line + 1);
    NothingAligned(Remember(mNow, y), end);
    hide Aligned, NeedsMarker, Remember, Lines;
    forall at: nat ensures Aligned(Pair(name, line, a, b), m, at) {
      AlignedOne(n, [x] + [y], m, at);
      AlignedOne(x, [y], m, at + |Lines(n.text)|);
    }
  }

  lemma NothingAligned(m: Memory, at: nat)
    ensures Aligned([], m, at)
  {
  }

  lemma OpeningMarked(m: Memory, seen: set<string>)
    requires LastIn(m, seen) && "internal" !in seen
    ensures Code(Opening(), m) == Marked(OpeningPiece()) && AlwaysAligned(Opening(), m)
    ensures MemoryAfter(Opening(), m) == Memory(Internal, 187, Some("internal"))
  {
    InternalLines();
    assert Stem("internal") == "internal";
    hide Code, Aligned, Marked, MemoryAfter, MarkerLine, Lines;
    PairMarked("main", 186, MAIN_LINE + "\n", RET_LINE + "\n", m);
    PairAligned("main", 186, MAIN_LINE + "\n", RET_LINE + "\n", m);
    assert MAIN_LINE + "\n" + RET_LINE + "\n" == MAIN_LINE + "\n" + (RET_LINE + "\n");
    assert Opening() == Pair("main", 186, MAIN_LINE + "\n", RET_LINE + "\n");
  }

  lemma ClosingMarked(m: Memory, seen: set<string>)
    requires m == Memory(Internal, 187, Some("internal")) || (LastIn(m, seen) && "internal" !in seen)
    ensures Code(Closing(), m) == Marked(ClosingPiece()) && AlwaysAligned(Closing(), m)
  {
    InternalLines();
    assert Stem("internal") == "internal";
    hide Code, Aligned, Marked, MemoryAfter, MarkerLine, Lines;
    PairMarked("done", 201, RETURN_LINE + "\n", END_LINE + "\n", m);
    PairAligned("done", 201, RETURN_LINE + "\n", END_LINE + "\n", m);
    assert RETURN_LINE + "\n" + END_LINE + "\n" == RETURN_LINE + "\n" + (END_LINE + "\n");
    assert Closing() == Pair("done", 201, RETURN_LINE + "\n", END_LINE + "\n");
  }

  lemma PartNames(p: Piles)
    ensures DistinctNames(Head(p)) && "internal" !in Names(Head(p))
    ensures DistinctNames(Inner(p)) && "internal" !in Names(Inner(p))
  {
    HeadNames(p);
    InnerNames(p);
  }

  lemma HeadNames(p: Piles)
    ensures DistinctNames(Head(p)) && "internal" !in Names(Head(p))
  {
    var h := Head(p);
    assert |h[0].name| == 13 && |h[1].name| == 10 && |h[2].name| == 7;
    assert |h[3].name| == 12 && |h[4].name| == 10 && |h[5].name| == 8;
    assert h[1].name[0] == 's' && h[4].name[0] == 'd' && h[5].name[0] == 't' && "internal"[0] == 'i';
  }

  lemma InnerNames(p: Piles)
    ensures DistinctNames(Inner(p)) && "internal" !in Names(Inner(p))
  {
    var i := Inner(p);
    assert |i[0].name| == 6 && |i[1].name| == 10 && |i[2].name| == 5;
  }

  /** Whatever state an earlier generation left behind, the emitter prints the program with one
      marker per piece, and the markers it leaves out are not missed. */
  lemma PlanPrints(p: Piles, m: Memory)
    requires m.prevfile == None
    ensures Code(Plan(p), m) == Printed(p) && AlwaysAligned(Plan(p), m)
  {
    PartNames(p);
    assert Stem("internal") == "internal";
    hide Code, Aligned, AlwaysAligned, Alternating, Marked, MemoryAfter, Head, Inner, Names, DistinctNames, Sections,
         Opening, Closing;
    var h, i := Sections(Head(p)), Sections(Inner(p));
    var m1 := MemoryAfter(h, m);
    SectionsAlternate(Head(p), m, {});
    OpeningMarked(m1, {} + Names(Head(p)));
    var m2 := MemoryAfter(Opening(), m1);
    SectionsAlternate(Inner(p), m2, {"internal"});
    ClosingMarked(MemoryAfter(i, m2), Names(Inner(p)));
    AlternatingIsMarked(h, m);
    AlternatingIsMarked(i, m2);
    PlanCode(h, i, m);
  }

  lemma PlanCode(h: seq<Emission>, i: seq<Emission>, m: Memory)
    requires var m1 := MemoryAfter(h, m); var m2 := MemoryAfter(Opening(), m1); var m3 := MemoryAfter(i, m2);
      Code(h, m) == Marked(h) && AlwaysAligned(h, m) &&
      Code(Opening(), m1) == Marked(OpeningPiece()) && AlwaysAligned(Opening(), m1) &&
      Code(i, m2) == Marked(i) && AlwaysAligned(i, m2) &&
      Code(Closing(), m3) == Marked(ClosingPiece()) && AlwaysAligned(Closing(), m3)
    ensures Code(h + Opening() + i + Closing(), m) == Marked(h + OpeningPiece() + i + ClosingPiece())
    ensures AlwaysAligned(h + Opening() + i + Closing(), m)
  {
    hide Code, Marked, Aligned, MemoryAfter, AlwaysAligned;
    CodeAppend(h, Opening(), m);
    CodeAppend(h + Opening(), i, m);
    CodeAppend(h + Opening() + i, Closing(), m);
    MarkedAppend(h, OpeningPiece());
    MarkedAppend(h + OpeningPiece(), i);
    MarkedAppend(h + OpeningPiece() + i, ClosingPiece());
    AlwaysAlignedAppend(h, Opening(), m);
    AlwaysAlignedAppend(h + Opening(), i, m);
    AlwaysAlignedAppend(h + Opening() + i, Closing(), m);
  }

  // ---- the generator's own text ------------------------------------------------------------------

  lemma DigitsArePlain(s: string)
    requires forall c <- s :: IsDigit(c)
    ensures Plain(s)
  {
  }

  lemma BlandAppend(a: string, b: string)
    requires Bland(a) && Bland(b)
    ensures Bland(a + b)
  {
  }

  lemma MainIsBland()
    ensures Bland(MAIN_LINE)
  {
    var a, b, c := "int main(", "int argc, ", "char **argv) {";
    assert Bland(a);
    assert Bland(b);
    assert Bland(c);
    hide Bland;
    BlandAppend(a, b);
    BlandAppend(a + b, c);
    assert MAIN_LINE == a + b + c;
  }

  lemma IncludeNamesArePlain()
    ensures Plain("defsysinclude") && Plain("sysinclude") && Plain("include")
    ensures Plain("declarations") && Plain("definition") && Plain("toplevel")
    ensures Plain("before") && Plain("statements") && Plain("after")
  {
    var a := "defsysinclude";
    assert Plain(a);
    assert a[3..] == "sysinclude" && a[6..] == "include";
  }

  lemma InternalIsPlain()
    ensures Plain("internal") && Plain("main") && Plain("done")
  {
  }

  lemma NamesArePlain(p: Piles)
    ensures forall part <- Head(p) :: Plain(part.name)
    ensures forall part <- Inner(p) :: Plain(part.name)
  {
    IncludeNamesArePlain();
    hide Plain;
    assert Plain("declarations") && Plain("definition") && Plain("toplevel");
    assert Plain("before") && Plain("statements") && Plain("after");
  }

  lemma RetLine()
    ensures Bland(RET_LINE) && SkipBlanks(RET_LINE) == RET_LINE[1..]
  {
  }

  lemma ReturnLine()
    ensures Bland(RETURN_LINE) && SkipBlanks(RETURN_LINE) == RETURN_LINE[1..]
  {
  }

  lemma EndLine()
    ensures Bland(END_LINE)
  {
  }

  /** The formats end a line with `;` or `>`. */
  predicate EndsInMark(fmt: Format) {
    |fmt.post| == 2 && (fmt.post[0] == ';' || fmt.post[0] == '>') && fmt.post[1] == '\n'
  }

  lemma PartsWellFormed(p: Piles)
    ensures forall part <- Head(p) :: EndsInMark(part.fmt)
    ensures forall part <- Inner(p) :: EndsInMark(part.fmt)
  {
  }

  // ---- sections one by one -----------------------------------------------------------------------

  lemma HeadSections(p: Piles)
    ensures Sections(Head(p)) == Section(Head(p)[0]) + Section(Head(p)[1]) + Section(Head(p)[2])
                               + Section(Head(p)[3]) + Section(Head(p)[4]) + Section(Head(p)[5])
  {
    hide Section;
    var h := Head(p);
    SixSections(h[0], h[1], h[2], h[3], h[4], h[5]);
  }

  lemma InnerSections(p: Piles)
    ensures Sections(Inner(p)) == Section(Inner(p)[0]) + Section(Inner(p)[1]) + Section(Inner(p)[2])
  {
    hide Section;
    var i := Inner(p);
    ThreeSections(i[0], i[1], i[2]);
  }

  lemma OneMoreSection(a: Part, parts: seq<Part>)
    ensures Sections([a] + parts) == Section(a) + Sections(parts)
  {
    assert ([a] + parts)[1..] == parts;
  }

  lemma ThreeSections(a: Part, b: Part, c: Part)
    ensures Sections([a, b, c]) == Section(a) + Section(b) + Section(c)
  {
    hide Section, Sections;
    OneMoreSection(a, [b, c]);
    OneMoreSection(b, [c]);
    OneMoreSection(c, []);
    NoSections();
    assert [a] + [b, c] == [a, b, c] && [b] + [c] == [b, c] && [c] + [] == [c];
    assert Section(c) + [] == Section(c);
  }

  lemma NoSections()
    ensures Sections([]) == []
  {
  }

  lemma SixSections(a: Part, b: Part, c: Part, d: Part, e: Part, f: Part)
    ensures Sections([a, b, c, d, e, f])
         == Section(a) + Section(b) + Section(c) + Section(d) + Section(e) + Section(f)
  {
    hide Section, Sections;
    ThreeSections(d, e, f);
    OneMoreSection(a, [b, c, d, e, f]);
    OneMoreSection(b, [c, d, e, f]);
    OneMoreSection(c, [d, e, f]);
    assert [a] + [b, c, d, e, f] == [a, b, c, d, e, f] && [b] + [c, d, e, f] == [b, c, d, e, f];
    assert [c] + [d, e, f] == [c, d, e, f];
  }
}
