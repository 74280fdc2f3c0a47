/** The printed program spelled out, and the order of its pieces. */
module Listing {
  import opened Text
  import opened LineControl
  import opened Emitter
  import opened Program
  import opened Decode

  // ---- the program as text --------------------------------------------------------------------------------

  function Mark(marks: bool, number: string, file: string): string {
    if marks then "#line " + number + " \"" + file + "\"\n" else ""
  }

  /** The items from the k-th on, each in a file of its own that is numbered from 0. */
  function Forwards(marks: bool, name: string, items: seq<string>, pre: string, post: string, k: nat): string
    requires k <= |items|
    decreases |items| - k
  {
    if k == |items| then ""
    else
      Mark(marks, "1", name + "_" + Dec(k)) + (pre + items[k] + post) + Forwards(marks, name, items, pre, post, k + 1)
  }

  /** The first k items, the latest first, each in a file of its own that is numbered down to 1. */
  function Backwards(marks: bool, name: string, items: seq<string>, pre: string, post: string, k: nat): string
    requires k <= |items|
  {
    if k == 0 then ""
    else
      Mark(marks, "1", name + "_" + Dec(k)) + (pre + items[k - 1] + post) +
      Backwards(marks, name, items, pre, post, k - 1)
  }

  function Titled(name: string, items: seq<string>, text: string): string {
    if items == [] then "" else "/* " + name + " */\n" + text
  }

  function Listed(marks: bool, name: string, items: seq<string>, pre: string, post: string): string {
    Titled(name, items, Forwards(marks, name, items, pre, post, 0))
  }

  /** Everything in front of `main`. */
  function Outer(marks: bool, defsys: seq<string>, syss: seq<string>, incs: seq<string>, tlds: seq<string>,
                 tlfs: seq<string>): string
  {
    Listed(marks, "defsysinclude", defsys, "#include <", ">\n") +
    Listed(marks, "sysinclude", syss, "#include <", ">\n") +
    Listed(marks, "include", incs, "#include <", ">\n") + Listed(marks, "declarations", tlds, "", ";\n") +
    Listed(marks, "definition", tlds, "", ";\n") + Listed(marks, "toplevel", tlfs, "", ";\n")
  }

  /** What `main` does. */
  function Inside(marks: bool, befs: seq<string>, stms: seq<string>, afts: seq<string>): string {
    Listed(marks, "before", befs, "\t", ";\n") + Listed(marks, "statements", stms, "\t", ";\n") +
    Titled("after", afts, Backwards(marks, "after", afts, "\t", ";\n", |afts|))
  }

  /** The whole program for eight piles, with or without markers. */
  function ProgramText(marks: bool, defsys: seq<string>, syss: seq<string>, incs: seq<string>, tlds: seq<string>,
                       tlfs: seq<string>, befs: seq<string>, stms: seq<string>, afts: seq<string>): string
  {
    Outer(marks, defsys, syss, incs, tlds, tlfs) +
    "/* main */\n" + Mark(marks, "186", "internal") + "int main(int argc, char **argv) {\n\tint ret = 0;\n" +
    Inside(marks, befs, stms, afts) +
    "/* done */\n" + Mark(marks, "201", "internal") + "\treturn ret;\n}\n"
  }

  // ---- the calls print this text ----------------------------------------------------------------------------

  /** The text of some calls, with a marker in front of each fragment or with none. */
  function TextOf(marks: bool, es: seq<Emission>): string {
    if es == [] then "" else Emit(es[0], marks && es[0].Body?, TextOf(marks, es[1..]))
  }

  lemma EmitAppend(e: Emission, marked: bool, s: string, t: string)
    requires marked ==> e.Body?
    ensures Emit(e, marked, s + t) == Emit(e, marked, s) + t
  {
    hide Marker;
  }

  lemma {:induction false} TextOfAppend(marks: bool, a: seq<Emission>, b: seq<Emission>)
    ensures TextOf(marks, a + b) == TextOf(marks, a) + TextOf(marks, b)
  {
    hide Marker;
    if a == [] {
      assert a + b == b;
    } else {
      assert (a + b)[1..] == a[1..] + b;
      TextOfAppend(marks, a[1..], b);
      EmitAppend(a[0], marks && a[0].Body?, TextOf(marks, a[1..]), TextOf(marks, b));
    }
  }

  lemma {:induction false} TextOfMarked(es: seq<Emission>)
    ensures TextOf(true, es) == Marked(es) && TextOf(false, es) == Bare(es)
  {
    if es != [] {
      TextOfMarked(es[1..]);
      assert "" + es[0].text + Bare(es[1..]) == es[0].text + Bare(es[1..]);
    }
  }

  lemma MarkOf(marks: bool, e: Emission)
    requires e.Body?
    ensures (if marks then Marker(e) else "") == Mark(marks, Dec(e.line), e.file)
  {
    if marks {
      assert "#line " + Dec(e.line) + " \"" + e.file + "\"" + "\n" == "#line " + Dec(e.line) + " \"" + e.file + "\"\n";
    }
  }

  lemma {:induction false} ForwardsText(marks: bool, part: Part, j: nat)
    requires j <= |part.items| && !part.reverse
    ensures TextOf(marks, Fragments(part.name, part.items, false, part.fmt)[j..])
         == Forwards(marks, part.name, part.items, part.fmt.pre, part.fmt.post, j)
    decreases |part.items| - j
  {
    hide Dec, Mark, Marker;
    var es := Fragments(part.name, part.items, false, part.fmt);
    if j < |part.items| {
      assert es[j..][1..] == es[j + 1..];
      MarkOf(marks, es[j]);
      DecOne();
      ForwardsText(marks, part, j + 1);
    }
  }

  lemma {:induction false} BackwardsText(marks: bool, part: Part, j: nat)
    requires j <= |part.items| && part.reverse
    ensures TextOf(marks, Fragments(part.name, part.items, true, part.fmt)[j..])
         == Backwards(marks, part.name, part.items, part.fmt.pre, part.fmt.post, |part.items| - j)
    decreases |part.items| - j
  {
    hide Dec, Mark, Marker;
    var es := Fragments(part.name, part.items, true, part.fmt);
    if j < |part.items| {
      assert es[j..][1..] == es[j + 1..];
      MarkOf(marks, es[j]);
      DecOne();
      BackwardsText(marks, part, j + 1);
    }
  }

  lemma DecOne()
    ensures Dec(1) == "1" && Dec(186) == "186" && Dec(201) == "201"
  {
    assert Dec(1) == "1" && Dec(2) == "2";
    assert Dec(18) == "18" && Dec(20) == "20";
  }

  lemma SectionText(marks: bool, part: Part)
    ensures var Part(name, items, reverse, fmt) := part;
      TextOf(marks, Section(part)) == Titled(name, items,
        if reverse then Backwards(marks, name, items, fmt.pre, fmt.post, |items|)
        else Forwards(marks, name, items, fmt.pre, fmt.post, 0))
  {
    hide Fragments, Forwards, Backwards, TextOf, BannerLine;
    if part.items == [] {
      NoText(marks);
    } else {
      var es := Fragments(part.name, part.items, part.reverse, part.fmt);
      assert Section(part) == [Banner(part.name)] + es && es[0..] == es;
      BannerText(marks, part.name, es);
      if part.reverse {
        BackwardsText(marks, part, 0);
      } else {
        ForwardsText(marks, part, 0);
      }
    }
  }

  lemma NoText(marks: bool)
    ensures TextOf(marks, []) == ""
  {
  }

  lemma BannerText(marks: bool, name: string, es: seq<Emission>)
    ensures TextOf(marks, [Banner(name)] + es) == "/* " + name + " */\n" + TextOf(marks, es)
  {
    hide BannerLine;
    BannerSpelled(name);
    assert ([Banner(name)] + es)[1..] == es;
    assert "" + (BannerLine(name) + "\n") == BannerLine(name) + "\n";
  }

  lemma ListedText(marks: bool, name: string, items: seq<string>, fmt: Format)
    ensures TextOf(marks, Section(Part(name, items, false, fmt))) == Listed(marks, name, items, fmt.pre, fmt.post)
  {
    hide TextOf, Section, Titled, Forwards;
    SectionText(marks, Part(name, items, false, fmt));
  }

  lemma ThreeTexts(marks: bool, a: seq<Emission>, b: seq<Emission>, c: seq<Emission>)
    ensures TextOf(marks, a + b + c) == TextOf(marks, a) + TextOf(marks, b) + TextOf(marks, c)
  {
    hide TextOf;
    TextOfAppend(marks, a, b);
    TextOfAppend(marks, a + b, c);
  }

  lemma SixTexts(marks: bool, a: seq<Emission>, b: seq<Emission>, c: seq<Emission>, d: seq<Emission>, e: seq<Emission>,
                 f: seq<Emission>)
    ensures TextOf(marks, a + b + c + d + e + f) == TextOf(marks, a) + TextOf(marks, b) + TextOf(marks, c)
         + TextOf(marks, d) + TextOf(marks, e) + TextOf(marks, f)
  {
    hide TextOf;
    ThreeTexts(marks, a, b, c);
    ThreeTexts(marks, a + b + c, d, e);
    TextOfAppend(marks, a + b + c + d + e, f);
  }

  /** The sections in front of `main`. */
  lemma HeadText(marks: bool, p: Piles)
    ensures TextOf(marks, Sections(Head(p))) == Outer(marks, p.defsys, p.syss, p.incs, p.tlds, p.tlfs)
  {
    hide Section, Sections, TextOf, Listed;
    HeadSections(p);
    var h := Head(p);
    SixTexts(marks, Section(h[0]), Section(h[1]), Section(h[2]), Section(h[3]), Section(h[4]), Section(h[5]));
    ListedText(marks, "defsysinclude", p.defsys, INCLUDE);
    ListedText(marks, "sysinclude", p.syss, INCLUDE);
    ListedText(marks, "include", p.incs, INCLUDE);
    ListedText(marks, "declarations", p.tlds, PLAIN);
    ListedText(marks, "definition", p.tlds, PLAIN);
    ListedText(marks, "toplevel", p.tlfs, PLAIN);
  }

  /** The sections inside `main`. */
  lemma InnerText(marks: bool, p: Piles)
    ensures TextOf(marks, Sections(Inner(p))) == Inside(marks, p.befs, p.stms, p.afts)
  {
    hide Section, Sections, TextOf, Listed, Titled, Forwards, Backwards;
    InnerSections(p);
    var i := Inner(p);
    ThreeTexts(marks, Section(i[0]), Section(i[1]), Section(i[2]));
    ListedText(marks, "before", p.befs, INDENTED);
    ListedText(marks, "statements", p.stms, INDENTED);
    SectionText(marks, Part("after", p.afts, true, INDENTED));
  }

  /** The two lines that open `main` and the two that close it. */
  lemma PieceText(marks: bool, name: string, line: nat, text: string)
    ensures TextOf(marks, [Banner(name), InternalLine(line, text)])
         == "/* " + name + " */\n" + Mark(marks, Dec(line), "internal") + text
  {
    hide Dec, Mark, Marker, BannerLine;
    var e := InternalLine(line, text);
    assert [Banner(name), e][1..] == [e] && [e][1..] == [];
    MarkOf(marks, e);
    assert TextOf(marks, []) == "";
    assert TextOf(marks, [e]) == Mark(marks, Dec(line), "internal") + text;
    assert "" + (BannerLine(name) + "\n") == BannerLine(name) + "\n";
    assert BannerLine(name) + "\n" == "/* " + name + " */\n" by { BannerSpelled(name); }
  }

  lemma BannerSpelled(name: string)
    ensures BannerLine(name) + "\n" == "/* " + name + " */\n"
  {
  }

  lemma PairsText(marks: bool)
    ensures TextOf(marks, OpeningPiece())
         == "/* main */\n" + Mark(marks, "186", "internal") + "int main(int argc, char **argv) {\n\tint ret = 0;\n"
    ensures TextOf(marks, ClosingPiece()) == "/* done */\n" + Mark(marks, "201", "internal") + "\treturn ret;\n}\n"
  {
    hide TextOf, Mark, Dec;
    DecOne();
    PieceText(marks, "main", 186, MAIN_LINE + "\n" + RET_LINE + "\n");
    PieceText(marks, "done", 201, RETURN_LINE + "\n" + END_LINE + "\n");
    assert "/* " + "main" + " */\n" == "/* main */\n" && "/* " + "done" + " */\n" == "/* done */\n";
    assert MAIN_LINE + "\n" + RET_LINE + "\n" == "int main(int argc, char **argv) {\n\tint ret = 0;\n";
    assert RETURN_LINE + "\n" + END_LINE + "\n" == "\treturn ret;\n}\n";
  }

  lemma PiecesText(marks: bool, p: Piles)
    ensures TextOf(marks, Pieces(p))
         == ProgramText(marks, p.defsys, p.syss, p.incs, p.tlds, p.tlfs, p.befs, p.stms, p.afts)
  {
    hide TextOf, Outer, Inside, Sections, Head, Inner, OpeningPiece, ClosingPiece, Mark;
    var h, i := Sections(Head(p)), Sections(Inner(p));
    ThreeTexts(marks, h, OpeningPiece(), i);
    TextOfAppend(marks, h + OpeningPiece() + i, ClosingPiece());
    HeadText(marks, p);
    InnerText(marks, p);
    PairsText(marks);
  }

  /** The unmarked calls and the unmarked pieces read alike. */
  lemma BarePieces(p: Piles)
    ensures Bare(Plan(p)) == Bare(Pieces(p))
  {
    hide Sections, Head, Inner, Code, MemoryAfter, Bare;
    var h, i, m := Sections(Head(p)), Sections(Inner(p)), Memory(Initial, 0, None);
    BarePairs();
    CodeAppend(h, Opening(), m);
    CodeAppend(h + Opening(), i, m);
    CodeAppend(h + Opening() + i, Closing(), m);
    CodeAppend(h, OpeningPiece(), m);
    CodeAppend(h + OpeningPiece(), i, m);
    CodeAppend(h + OpeningPiece() + i, ClosingPiece(), m);
  }

  lemma BarePair(name: string, k: nat, n: nat, line: nat, a: string, b: string)
    ensures Bare([Banner(name), InternalLine(k, a), InternalLine(n, b)])
         == Bare([Banner(name), InternalLine(line, a + b)])
  {
    var x, y, z := Banner(name), InternalLine(k, a), InternalLine(n, b);
    assert [x, y, z][1..] == [y, z] && [y, z][1..] == [z] && [z][1..] == [];
    var w := InternalLine(line, a + b);
    assert [x, w][1..] == [w] && [w][1..] == [];
    assert Bare([]) == "" && Bare([z]) == b && Bare([y, z]) == a + b && Bare([w]) == a + b;
  }

  lemma BarePairs()
    ensures Bare(Opening()) == Bare(OpeningPiece()) && Bare(Closing()) == Bare(ClosingPiece())
  {
    hide Bare, Banner;
    BarePair("main", 186, 187, 186, MAIN_LINE + "\n", RET_LINE + "\n");
    BarePair("done", 201, 202, 201, RETURN_LINE + "\n", END_LINE + "\n");
    assert MAIN_LINE + "\n" + RET_LINE + "\n" == MAIN_LINE + "\n" + (RET_LINE + "\n");
    assert RETURN_LINE + "\n" + END_LINE + "\n" == RETURN_LINE + "\n" + (END_LINE + "\n");
  }

  /** The program and its dump, letter by letter. */
  lemma PrintedText(p: Piles)
    ensures Printed(p) == ProgramText(true, p.defsys, p.syss, p.incs, p.tlds, p.tlfs, p.befs, p.stms, p.afts)
    ensures Bare(Plan(p)) == ProgramText(false, p.defsys, p.syss, p.incs, p.tlds, p.tlfs, p.befs, p.stms, p.afts)
  {
    hide TextOf, Pieces, Plan, Bare, Marked, ProgramText;
    PiecesText(true, p);
    PiecesText(false, p);
    TextOfMarked(Pieces(p));
    BarePieces(p);
  }

  // ---- which pieces there are, and in which order -----------------------------------------------------------

  /** The calls for the pseudo-files of one section. */
  function Under(es: seq<Emission>, name: string): seq<Emission> {
    if es == [] then []
    else (if es[0].Body? && Stem(es[0].file) == name then [es[0]] else []) + Under(es[1..], name)
  }

  /** Items in files that are numbered from 0, each at line 1 of its own. */
  function Numbered(name: string, items: seq<string>, pre: string, post: string): seq<Emission> {
    seq(|items|, k requires 0 <= k < |items| => Body(Preproc, name + "_" + Dec(k), 1, pre + items[k] + post))
  }

  /** Items from the last to the first, in files that are numbered down to 1. */
  function Countdown(name: string, items: seq<string>, pre: string, post: string): seq<Emission> {
    var n := |items|;
    seq(n, k requires 0 <= k < n => Body(Statement, name + "_" + Dec(n - k), 1, pre + items[n - 1 - k] + post))
  }

  lemma {:induction false} UnderAppend(a: seq<Emission>, b: seq<Emission>, name: string)
    ensures Under(a + b, name) == Under(a, name) + Under(b, name)
  {
    hide Stem;
    if a == [] {
      assert a + b == b;
    } else {
      assert (a + b)[1..] == a[1..] + b;
      UnderAppend(a[1..], b, name);
    }
  }

  lemma {:induction false} UnderAll(es: seq<Emission>, name: string)
    requires forall e <- es :: e.Body? && Stem(e.file) == name
    ensures Under(es, name) == es
  {
    hide Stem;
    if es != [] {
      assert es[0] in es;
      UnderAll(es[1..], name);
    }
  }

  lemma {:induction false} UnderNone(es: seq<Emission>, name: string)
    requires forall e <- es :: e.Body? ==> Stem(e.file) != name
    ensures Under(es, name) == []
  {
    hide Stem;
    if es != [] {
      assert es[0] in es;
      UnderNone(es[1..], name);
    }
  }

  lemma FragmentStem(part: Part, j: nat)
    requires j < |part.items|
    ensures var e := Fragment(part.name, part.items, part.reverse, part.fmt, j);
      e.Body? && Stem(e.file) == part.name && e.line == 1
  {
    hide Stem, FileName;
    StemOfFileName(part.name, if part.reverse then |part.items| - j else j);
  }

  lemma UnderSection(part: Part, name: string)
    ensures Under(Section(part), name)
         == if name == part.name then Fragments(part.name, part.items, part.reverse, part.fmt) else []
  {
    hide Stem, Fragment, Banner;
    if part.items != [] {
      var es := Fragments(part.name, part.items, part.reverse, part.fmt);
      forall e <- es ensures e.Body? && Stem(e.file) == part.name {
        var j :| 0 <= j < |es| && es[j] == e;
        FragmentStem(part, j);
      }
      UnderAppend([Banner(part.name)], es, name);
      UnderNone([Banner(part.name)], name) by { BannerHasNoFile(part.name); }
      if name == part.name {
        UnderAll(es, name);
      } else {
        UnderNone(es, name);
      }
    }
  }

  lemma BannerHasNoFile(name: string)
    ensures Banner(name).Note?
  {
  }

  lemma {:induction false} UnderAbsent(parts: seq<Part>, name: string)
    requires forall part <- parts :: part.name != name
    ensures Under(Sections(parts), name) == []
  {
    hide Section, Stem;
    if parts != [] {
      assert parts[0] in parts;
      UnderSection(parts[0], name);
      UnderAppend(Section(parts[0]), Sections(parts[1..]), name);
      UnderAbsent(parts[1..], name);
    }
  }

  lemma {:induction false} UnderSections(parts: seq<Part>, k: nat)
    requires k < |parts| && DistinctNames(parts)
    ensures Under(Sections(parts), parts[k].name)
         == Fragments(parts[k].name, parts[k].items, parts[k].reverse, parts[k].fmt)
  {
    hide Section, Stem, Fragments, DistinctNames;
    var name := parts[k].name;
    NamesOfRest(parts);
    UnderSection(parts[0], name);
    UnderAppend(Section(parts[0]), Sections(parts[1..]), name);
    if k == 0 {
      UnderAbsent(parts[1..], name);
    } else {
      assert parts[1..][k - 1] == parts[k];
      UnderSections(parts[1..], k - 1);
    }
  }

  /** The pieces of one section of the program. */
  lemma UnderPieces(p: Piles, parts: seq<Part>, other: seq<Part>, k: nat)
    requires (parts == Head(p) && other == Inner(p)) || (parts == Inner(p) && other == Head(p))
    requires k < |parts|
    ensures Under(Pieces(p), parts[k].name)
         == Fragments(parts[k].name, parts[k].items, parts[k].reverse, parts[k].fmt)
  {
    hide Head, Inner, Sections, Fragments, Stem, OpeningPiece, ClosingPiece, DistinctNames, Names;
    var name := parts[k].name;
    PartNames(p);
    PartsApart(p, parts, other, k);
    UnderSections(parts, k);
    UnderAbsent(other, name);
    InternalUnder(name);
    UnderAppend(Sections(Head(p)), OpeningPiece(), name);
    UnderAppend(Sections(Head(p)) + OpeningPiece(), Sections(Inner(p)), name);
    UnderAppend(Sections(Head(p)) + OpeningPiece() + Sections(Inner(p)), ClosingPiece(), name);
  }

  lemma PieceUnder(banner: string, line: nat, text: string, name: string)
    ensures var e := InternalLine(line, text);
      Under([Banner(banner), e], name) == if name == "internal" then [e] else []
  {
    hide Stem, Banner;
    BannerHasNoFile(banner);
    var e := InternalLine(line, text);
    InternalStem(e.file);
    assert [Banner(banner), e][1..] == [e] && [e][1..] == [];
    assert Under([], name) == [];
    assert Under([e], name) == if name == "internal" then [e] else [];
  }

  lemma InternalUnder(name: string)
    ensures name != "internal" ==> Under(OpeningPiece(), name) == [] && Under(ClosingPiece(), name) == []
    ensures name == "internal" ==> Under(OpeningPiece(), name) == [OpeningPiece()[1]]
    ensures name == "internal" ==> Under(ClosingPiece(), name) == [ClosingPiece()[1]]
  {
    hide Under, Banner;
    PieceUnder("main", 186, MAIN_LINE + "\n" + RET_LINE + "\n", name);
    PieceUnder("done", 201, RETURN_LINE + "\n" + END_LINE + "\n", name);
  }

  lemma InternalStem(s: string)
    requires s == "internal"
    ensures Stem(s) == s
  {
  }

  lemma NumberedFragments(name: string, items: seq<string>, fmt: Format)
    ensures Fragments(name, items, false, fmt) == Numbered(name, items, fmt.pre, fmt.post)
    ensures Fragments(name, items, true, fmt) == Countdown(name, items, fmt.pre, fmt.post)
  {
  }

  /** The pieces under each name are the items of its pile, each in its place and in its form; the
      declarations come twice, what is to be done afterwards comes in reverse. */
  lemma PiecesByName(p: Piles)
    ensures Under(Pieces(p), "defsysinclude") == Numbered("defsysinclude", p.defsys, "#include <", ">\n")
    ensures Under(Pieces(p), "sysinclude") == Numbered("sysinclude", p.syss, "#include <", ">\n")
    ensures Under(Pieces(p), "include") == Numbered("include", p.incs, "#include <", ">\n")
    ensures Under(Pieces(p), "declarations") == Numbered("declarations", p.tlds, "", ";\n")
    ensures Under(Pieces(p), "definition") == Numbered("definition", p.tlds, "", ";\n")
    ensures Under(Pieces(p), "toplevel") == Numbered("toplevel", p.tlfs, "", ";\n")
    ensures Under(Pieces(p), "before") == Numbered("before", p.befs, "\t", ";\n")
    ensures Under(Pieces(p), "statements") == Numbered("statements", p.stms, "\t", ";\n")
    ensures Under(Pieces(p), "after") == Countdown("after", p.afts, "\t", ";\n")
  {
    hide Under, Pieces, Fragments, Numbered, Countdown;
    var h, i := Head(p), Inner(p);
    UnderPieces(p, h, i, 0);
    UnderPieces(p, h, i, 1);
    UnderPieces(p, h, i, 2);
    UnderPieces(p, h, i, 3);
    UnderPieces(p, h, i, 4);
    UnderPieces(p, h, i, 5);
    UnderPieces(p, i, h, 0);
    UnderPieces(p, i, h, 1);
    UnderPieces(p, i, h, 2);
    NumberedFragments("defsysinclude", p.defsys, INCLUDE);
    NumberedFragments("sysinclude", p.syss, INCLUDE);
    NumberedFragments("include", p.incs, INCLUDE);
    NumberedFragments("declarations", p.tlds, PLAIN);
    NumberedFragments("definition", p.tlds, PLAIN);
    NumberedFragments("toplevel", p.tlfs, PLAIN);
    NumberedFragments("before", p.befs, INDENTED);
    NumberedFragments("statements", p.stms, INDENTED);
    NumberedFragments("after", p.afts, INDENTED);
  }

  /** The internal pieces open and close `main`. */
  lemma InternalPieces(p: Piles)
    ensures Under(Pieces(p), "internal")
         == [Body(Internal, "internal", 186, "int main(int argc, char **argv) {\n\tint ret = 0;\n"),
             Body(Internal, "internal", 201, "\treturn ret;\n}\n")]
  {
    hide Under, Head, Inner, Sections, Names, DistinctNames;
    PartNames(p);
    NotAmong(Head(p), "internal");
    NotAmong(Inner(p), "internal");
    UnderAbsent(Head(p), "internal");
    UnderAbsent(Inner(p), "internal");
    InternalUnder("internal");
    var h, i := Sections(Head(p)), Sections(Inner(p));
    UnderAppend(h, OpeningPiece(), "internal");
    UnderAppend(h + OpeningPiece(), i, "internal");
    UnderAppend(h + OpeningPiece() + i, ClosingPiece(), "internal");
    InternalTexts();
  }

  lemma NotAmong(parts: seq<Part>, name: string)
    requires name !in Names(parts)
    ensures forall part <- parts :: part.name != name
  {
  }

  lemma InternalTexts()
    ensures OpeningPiece()[1] == Body(Internal, "internal", 186, "int main(int argc, char **argv) {\n\tint ret = 0;\n")
    ensures ClosingPiece()[1] == Body(Internal, "internal", 201, "\treturn ret;\n}\n")
  {
    hide Banner;
    assert MAIN_LINE + "\n" + RET_LINE + "\n" == "int main(int argc, char **argv) {\n\tint ret = 0;\n";
    assert RETURN_LINE + "\n" + END_LINE + "\n" == "\treturn ret;\n}\n";
  }

  // ---- the order of the sections ------------------------------------------------------------------------------

  /** The place of a pseudo-file among the sections; 11 for a file that does not belong to the program. */
  function Rank(name: string, line: nat): nat {
    if name == "defsysinclude" then 0
    else if name == "sysinclude" then 1
    else if name == "include" then 2
    else if name == "declarations" then 3
    else if name == "definition" then 4
    else if name == "toplevel" then 5
    else if name == "internal" && line == 186 then 6
    else if name == "before" then 7
    else if name == "statements" then 8
    else if name == "after" then 9
    else if name == "internal" && line == 201 then 10
    else 11
  }

  predicate Within(es: seq<Emission>, lo: nat, hi: nat) {
    forall e <- es :: e.Body? ==> lo <= Rank(Stem(e.file), e.line) <= hi
  }

  /** No fragment stands in front of one that belongs before it. */
  predicate InOrder(es: seq<Emission>) {
    forall i, j :: 0 <= i < j < |es| && es[i].Body? && es[j].Body? ==>
      Rank(Stem(es[i].file), es[i].line) <= Rank(Stem(es[j].file), es[j].line)
  }

  lemma InOrderAppend(a: seq<Emission>, b: seq<Emission>, lo: nat, m: nat, n: nat, hi: nat)
    requires InOrder(a) && Within(a, lo, m) && InOrder(b) && Within(b, n, hi) && lo <= m <= n <= hi
    ensures InOrder(a + b) && Within(a + b, lo, hi)
  {
    hide Rank, Stem;
    var es := a + b;
    forall i, j | 0 <= i < j < |es| && es[i].Body? && es[j].Body?
      ensures Rank(Stem(es[i].file), es[i].line) <= Rank(Stem(es[j].file), es[j].line)
    {
      assert i < |a| ==> es[i] in a;
      assert j >= |a| ==> es[j] in b;
      if j < |a| {
        assert a[i] == es[i] && a[j] == es[j];
      } else if i >= |a| {
        assert b[i - |a|] == es[i] && b[j - |a|] == es[j];
      }
    }
  }

  lemma SectionInOrder(part: Part, r: nat)
    requires Rank(part.name, 1) == r
    ensures InOrder(Section(part)) && Within(Section(part), r, r)
  {
    hide Stem, Fragment, Banner, Rank;
    if part.items != [] {
      var es := Fragments(part.name, part.items, part.reverse, part.fmt);
      BannerHasNoFile(part.name);
      forall e <- Section(part) | e.Body? ensures Rank(Stem(e.file), e.line) == r {
        var j :| 0 <= j < |es| && es[j] == e;
        FragmentStem(part, j);
      }
    }
  }

  lemma HeadInOrder(p: Piles)
    ensures InOrder(Sections(Head(p))) && Within(Sections(Head(p)), 0, 5)
  {
    hide InOrder, Within, Section, Sections;
    HeadSections(p);
    var h := Head(p);
    SectionInOrder(h[0], 0);
    SectionInOrder(h[1], 1);
    SectionInOrder(h[2], 2);
    SectionInOrder(h[3], 3);
    SectionInOrder(h[4], 4);
    SectionInOrder(h[5], 5);
    var a := Section(h[0]);
    InOrderAppend(a, Section(h[1]), 0, 0, 1, 1);
    InOrderAppend(a + Section(h[1]), Section(h[2]), 0, 1, 2, 2);
    InOrderAppend(a + Section(h[1]) + Section(h[2]), Section(h[3]), 0, 2, 3, 3);
    InOrderAppend(a + Section(h[1]) + Section(h[2]) + Section(h[3]), Section(h[4]), 0, 3, 4, 4);
    InOrderAppend(a + Section(h[1]) + Section(h[2]) + Section(h[3]) + Section(h[4]), Section(h[5]), 0, 4, 5, 5);
  }

  lemma InnerInOrder(p: Piles)
    ensures InOrder(Sections(Inner(p))) && Within(Sections(Inner(p)), 7, 9)
  {
    hide InOrder, Within, Section, Sections;
    InnerSections(p);
    var i := Inner(p);
    SectionInOrder(i[0], 7);
    SectionInOrder(i[1], 8);
    SectionInOrder(i[2], 9);
    InOrderAppend(Section(i[0]), Section(i[1]), 7, 7, 8, 8);
    InOrderAppend(Section(i[0]) + Section(i[1]), Section(i[2]), 7, 8, 9, 9);
  }

  lemma PieceInOrder(name: string, line: nat, text: string, r: nat)
    requires Rank("internal", line) == r
    ensures var es := [Banner(name), InternalLine(line, text)]; InOrder(es) && Within(es, r, r)
  {
    hide Stem, Banner, Rank;
    BannerHasNoFile(name);
    InternalStem(InternalLine(line, text).file);
  }

  /** Every fragment in front of another one belongs before it or to the same section, and there are no
      others. */
  lemma PiecesInOrder(p: Piles)
    ensures InOrder(Pieces(p)) && forall e <- Pieces(p) :: e.Body? ==> Rank(Stem(e.file), e.line) < 11
  {
    hide InOrder, Within, Sections, Head, Inner, Banner, Rank, Stem;
    var h, i := Sections(Head(p)), Sections(Inner(p));
    HeadInOrder(p);
    InnerInOrder(p);
    InternalRanks();
    PieceInOrder("main", 186, MAIN_LINE + "\n" + RET_LINE + "\n", 6);
    PieceInOrder("done", 201, RETURN_LINE + "\n" + END_LINE + "\n", 10);
    InOrderAppend(h, OpeningPiece(), 0, 5, 6, 6);
    InOrderAppend(h + OpeningPiece(), i, 0, 6, 7, 9);
    InOrderAppend(h + OpeningPiece() + i, ClosingPiece(), 0, 9, 10, 10);
    WithinAll(Pieces(p));
  }

  lemma InternalRanks()
    ensures Rank("internal", 186) == 6 && Rank("internal", 201) == 10
  {
  }

  lemma WithinAll(es: seq<Emission>)
    requires Within(es, 0, 10)
    ensures forall e <- es :: e.Body? ==> Rank(Stem(e.file), e.line) < 11
  {
    hide Rank, Stem;
  }
}
