/** The dump of a program: at level 1 it is the program with the inserted markers struck out. */
module Dumps {
  import opened Text
  import opened LineControl
  import opened Emitter
  import opened Program
  import opened Decode

  predicate Erasable(e: Emission) {
    Terminated(e.text) && (e.Body? ==> Plain(e.file))
  }

  predicate AllUndirected(es: seq<Emission>) {
    forall e <- es :: Undirected(e.text)
  }

  lemma FragmentErasable(part: Part, j: nat)
    requires j < |part.items| && EndsInMark(part.fmt) && Plain(part.name)
    ensures var e := Fragment(part.name, part.items, part.reverse, part.fmt, j);
      Erasable(e) && e.text == Apply(part.fmt, PrintedItems(part)[j])
  {
    hide EndsInMark;
    var n := if part.reverse then |part.items| - j else j;
    assert Plain(FileName(part.name, n)) by { DigitsArePlain(Dec(n)); }
    ApplyEnds(part.fmt, PrintedItems(part)[j]);
  }

  lemma BannerErasable(name: string)
    requires Plain(name)
    ensures Erasable(Banner(name)) && Undirected(Banner(name).text)
  {
    BannerSeparable(name);
  }

  /** A section brings no line directive exactly when none of its items does. */
  lemma SectionErasable(part: Part)
    requires EndsInMark(part.fmt) && Plain(part.name)
    ensures forall e <- Section(part) :: Erasable(e)
    ensures AllUndirected(Section(part)) <==> forall item <- part.items :: Undirected(Apply(part.fmt, item))
  {
    hide Erasable, EndsInMark, Plain, Apply, Undirected, Fragment;
    BannerErasable(part.name);
    var es, xs := Fragments(part.name, part.items, part.reverse, part.fmt), PrintedItems(part);
    forall j | 0 <= j < |xs| ensures Erasable(es[j]) && es[j].text == Apply(part.fmt, xs[j]) {
      FragmentErasable(part, j);
    }
    SameItems(part);
    if part.items != [] {
      assert AllUndirected(Section(part)) <==> forall j :: 0 <= j < |xs| ==> Undirected(Apply(part.fmt, xs[j])) by {
        assert forall j :: 0 <= j < |xs| ==> es[j] in Section(part);
      }
    }
  }

  lemma SameItems(part: Part)
    ensures forall item :: item in part.items <==> item in PrintedItems(part)
  {
    var xs, ys := part.items, PrintedItems(part);
    if part.reverse {
      forall item | item in xs ensures item in ys {
        var j :| 0 <= j < |xs| && xs[j] == item;
        assert ys[|xs| - 1 - j] == item;
      }
    }
  }

  lemma {:induction false} SectionsErasable(parts: seq<Part>)
    requires forall part <- parts :: EndsInMark(part.fmt) && Plain(part.name)
    ensures forall e <- Sections(parts) :: Erasable(e)
    ensures AllUndirected(Sections(parts)) <==> UndirectedParts(parts)
  {
    hide Erasable, EndsInMark, Plain, Apply, Undirected, Section;
    if parts != [] {
      assert parts[0] in parts && forall part <- parts[1..] :: part in parts;
      SectionErasable(parts[0]);
      SectionsErasable(parts[1..]);
      assert parts == [parts[0]] + parts[1..];
    }
  }

  lemma InternalErasable(line: nat, l: string)
    requires OneLine(l) && Directive(l) == None
    ensures Erasable(InternalLine(line, l + "\n")) && Undirected(l + "\n")
  {
    hide Directive;
    LinesOfLine(l);
    assert Plain("internal");
    assert Lines(l + "\n") == [l];
    assert Clean([l]) by { assert [l][1..] == []; }
  }

  /** An internal line of plain characters. */
  lemma BlandErasable(line: nat, l: string)
    requires Bland(l) && SkipBlanks(l) != "" && SkipBlanks(l)[0] != '#' && SkipBlanks(l)[0] != '%'
    ensures Erasable(InternalLine(line, l + "\n")) && Undirected(l + "\n")
  {
    hide Bland, Directive, OneLine;
    BlandLine(l);
    InternalErasable(line, l);
  }

  lemma OpeningErasable()
    ensures forall e <- Opening() :: Erasable(e) && Undirected(e.text)
  {
    hide Erasable, Undirected, Bland;
    MainIsBland();
    RetLine();
    BlandErasable(186, MAIN_LINE);
    BlandErasable(187, RET_LINE);
    BannerErasable("main");
  }

  lemma ClosingErasable()
    ensures forall e <- Closing() :: Erasable(e) && Undirected(e.text)
  {
    hide Erasable, Undirected, Bland;
    ReturnLine();
    EndLine();
    BlandErasable(201, RETURN_LINE);
    BlandErasable(202, END_LINE);
    BannerErasable("done");
  }

  lemma PlanErasable(p: Piles)
    ensures forall e <- Plan(p) :: Erasable(e)
    ensures AllUndirected(Plan(p)) <==> DirectiveFree(p)
  {
    hide Erasable, Undirected, Sections, Head, Inner, Opening, Closing, EndsInMark, Plain, UndirectedParts;
    NamesArePlain(p);
    PartsWellFormed(p);
    SectionsErasable(Head(p));
    SectionsErasable(Inner(p));
    OpeningErasable();
    ClosingErasable();
  }

  /** Striking every line directive out of the program leaves the level-1 dump exactly when no item
      brings a line directive of its own. */
  lemma DumpErasesMarkers(p: Piles)
    ensures Erase(Lines(Printed(p))) == Lines(Bare(Plan(p))) <==> DirectiveFree(p)
  {
    hide Erase, Lines, Printed, Bare, Plan, Code, DirectiveFree;
    PlanErasable(p);
    var m := Memory(Initial, 0, None);
    PlanPrints(p, m);
    EraseCode(Plan(p), m);
  }

  /** The program is longer than the level-1 dump by the markers that were inserted. */
  lemma DumpLength(p: Piles, m: Memory)
    requires m.prevfile == None
    ensures |Printed(p)| == |Bare(Plan(p))| + MarkerChars(Plan(p), m)
  {
    hide Printed, Bare, Plan, Code, MarkerChars;
    PlanPrints(p, m);
    DumpIsShorterByMarkers(Plan(p), m);
  }
}
