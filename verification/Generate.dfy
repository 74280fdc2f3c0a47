/** The generation phase: the emitter state of a context and the loops that print its piles. */
module Generate {
  import opened Text
  import opened Lists
  import opened Piles
  import opened LineControl
  import opened Emitter
  import opened Program

  /** The piles that reach the program text. */
  function PilesOf(v: View): Program.Piles {
    Program.Piles(v[DEFSYS], v[SYSS], v[INCS], v[TLDS], v[TLFS], v[BEFS], v[STMS], v[AFTS])
  }

  /** The generation state embedded in a context. */
  class Generator {
    var g_state: GState
    var g_prevline: nat
    var g_prevfile: Option<string>
    var g_codebuf: Option<string>
    var g_dumpbuf: Option<string>
    /** The calls of the current generation, and the emitter state in which it began. */
    ghost var calls: seq<Emission>
    ghost var start: Memory

    function Mem(): Memory
      reads this
    {
      Memory(g_state, g_prevline, g_prevfile)
    }

    constructor ()
      ensures Mem() == Memory(Initial, 0, None) && g_codebuf == None && g_dumpbuf == None
    {
      g_state, g_prevline, g_prevfile := Initial, 0, None;
      g_codebuf, g_dumpbuf := None, None;
    }

    /** A generation is under way: the buffers hold what its calls so far amount to. */
    ghost predicate Open(level: nat)
      reads this
    {
      Mem() == MemoryAfter(calls, start) &&
      g_codebuf == Some(Code(calls, start)) &&
      g_dumpbuf == if level > 0 then Some(Dump(level, calls, start)) else None
    }

    /** `cplr_emit`. */
    method EmitCall(e: Emission, level: nat)
      requires Open(level)
      modifies this
      ensures Open(level) && calls == old(calls) + [e] && start == old(start)
    {
      OpenStep(e);
      hide Code, Bare, MemoryAfter, Emit;
      var needline;
      if e.Note? {
        needline := false;
      } else if g_state != e.state {
        needline := true;
      } else if g_prevfile == None || g_prevfile.value != e.file {
        needline := true;
      } else if e.state == Preproc {
        needline := false;
      } else {
        needline := g_prevline != 0 && e.line != g_prevline + 1;
      }
      if g_codebuf.Some? {
        if needline {
          g_codebuf := Some(g_codebuf.value + Marker(e));
        }
        g_codebuf := Some(g_codebuf.value + e.text);
      }
      if g_dumpbuf.Some? {
        if needline && level > 1 {
          g_dumpbuf := Some(g_dumpbuf.value + Marker(e));
        }
        g_dumpbuf := Some(g_dumpbuf.value + e.text);
      }
      if !e.Note? {
        g_state, g_prevline, g_prevfile := e.state, e.line, Some(e.file);
      }
      calls := calls + [e];
    }

    /** One more call adds its own text to each stream. */
    lemma OpenStep(e: Emission)
      ensures var m := MemoryAfter(calls, start);
        Code(calls + [e], start) ==
          (if NeedsMarker(m, e) then Code(calls, start) + Marker(e) else Code(calls, start)) + e.text &&
        Bare(calls + [e]) == Bare(calls) + e.text && MemoryAfter(calls + [e], start) == Remember(m, e)
    {
      hide NeedsMarker, Remember, MarkerLine, Emit;
      var m := MemoryAfter(calls, start);
      CodeAppend(calls, [e], start);
      CodeOne(e, [], m);
      CodeNone(Remember(m, e));
      assert [e] + [] == [e] && Bare([e]) == e.text by { assert [e][1..] == [] && e.text + "" == e.text; }
      EmitAlone(e, NeedsMarker(m, e), Code(calls, start));
    }

    /** The body of either loop of `cplr_generate_section`. */
    method EmitItem(name: string, i: nat, reverse: bool, fmt: Format, item: string, level: nat, ghost e: Emission)
      requires Open(level)
      requires e == if reverse then Body(Statement, FileName(name, i), 1, Apply(fmt, item))
                    else Body(Preproc, FileName(name, i), 1, Apply(fmt, item))
      modifies this
      ensures Open(level) && start == old(start) && calls == old(calls) + [e]
    {
      hide Open, Apply, FileName;
      var fn := FileName(name, i);
      if reverse {
        EmitCall(Body(Statement, fn, 1, Apply(fmt, item)), level);
      } else {
        EmitCall(Body(Preproc, fn, 1, Apply(fmt, item)), level);
      }
    }

    /** `cplr_generate_section`, over the list in one direction or the other. */
    method GenerateSection(name: string, list: List, reverse: bool, fmt: Format, level: nat)
      requires list.Valid() && Open(level)
      modifies this
      ensures Open(level) && start == old(start)
      ensures calls == old(calls) + ([Banner(name)] + Fragments(name, list.Contents(), reverse, fmt))
    {
      hide Open, List.Valid, Fragments, Fragment, Apply, FileName, List.Contents, Banner, Reverse;
      ghost var all := Fragments(name, list.Contents(), reverse, fmt);
      FragmentCount(name, list.Contents(), reverse, fmt);
      EmitCall(Banner(name), level);
      var items := list.Listing(reverse);
      var i := if reverse then |items| else 0;
      ghost var base := calls;
      var j := 0;
      while j < |items|
        invariant j <= |items| == |all| && i == if reverse then |items| - j else j
        invariant Open(level) && start == old(start)
        invariant calls == base + all[..j]
      {
        NextFragment(name, list.Contents(), reverse, fmt, j);
        Longer(base, all[..j], all[j]);
        EmitItem(name, i, reverse, fmt, items[j], level, all[j]);
        i := if reverse then i - 1 else i + 1;
        j := j + 1;
      }
      assert all[..j] == all;
      assert old(calls) + [Banner(name)] + all == old(calls) + ([Banner(name)] + all);
    }

    /** `if(!l_empty(...)) cplr_generate_section(...)`. */
    method GeneratePart(name: string, ps: PileSet, k: nat, reverse: bool, fmt: Format, level: nat)
      requires ps.Valid() && this !in ps.Repr() && k < COUNT && Open(level)
      modifies this
      ensures ps.Valid() && |ps.view| == COUNT && Open(level) && start == old(start)
      ensures calls == old(calls) + Section(Part(name, ps.view[k], reverse, fmt))
    {
      hide PileSet.Valid, Open, Fragments, List.Valid, List.Contents;
      ps.PileIsOk(k);
      var list := ps.piles[k];
      list.Counted();
      if list.c != 0 {
        GenerateSection(name, list, reverse, fmt, level);
      } else {
        assert old(calls) + [] == calls;
      }
    }

    /** The sections before `main`. */
    method GenerateHead(ps: PileSet, level: nat)
      requires ps.Valid() && this !in ps.Repr() && Open(level)
      modifies this
      ensures ps.Valid() && |ps.view| == COUNT && Open(level) && start == old(start)
      ensures calls == old(calls) + Sections(Head(PilesOf(ps.view)))
    {
      hide PileSet.Valid, Open, Section, Sections;
      GeneratePart("defsysinclude", ps, DEFSYS, false, INCLUDE, level);
      GeneratePart("sysinclude", ps, SYSS, false, INCLUDE, level);
      GeneratePart("include", ps, INCS, false, INCLUDE, level);
      GeneratePart("declarations", ps, TLDS, false, PLAIN, level);
      GeneratePart("definition", ps, TLDS, false, PLAIN, level);
      GeneratePart("toplevel", ps, TLFS, false, PLAIN, level);
      HeadSections(PilesOf(ps.view));
    }

    /** The sections inside `main`. */
    method GenerateInner(ps: PileSet, level: nat)
      requires ps.Valid() && this !in ps.Repr() && Open(level)
      modifies this
      ensures ps.Valid() && |ps.view| == COUNT && Open(level) && start == old(start)
      ensures calls == old(calls) + Sections(Inner(PilesOf(ps.view)))
    {
      hide PileSet.Valid, Open, Section, Sections;
      GeneratePart("before", ps, BEFS, false, INDENTED, level);
      GeneratePart("statements", ps, STMS, false, INDENTED, level);
      GeneratePart("after", ps, AFTS, true, INDENTED, level);
      InnerSections(PilesOf(ps.view));
    }

    /** A banner and two internal lines. */
    method EmitPair(name: string, line: nat, a: string, b: string, level: nat)
      requires Open(level)
      modifies this
      ensures Open(level) && start == old(start) && calls == old(calls) + Pair(name, line, a, b)
    {
      hide Open;
      EmitCall(Banner(name), level);
      EmitCall(InternalLine(line, a), level);
      EmitCall(InternalLine(line + 1, b), level);
    }

    /** `cplr_generate_code`. */
    method GenerateCode(ps: PileSet, level: nat)
      requires ps.Valid() && this !in ps.Repr() && Open(level) && calls == []
      modifies this
      ensures ps.Valid() && |ps.view| == COUNT && Open(level) && start == old(start) && calls == Plan(PilesOf(ps.view))
    {
      hide PileSet.Valid, Open, Sections;
      GenerateHead(ps, level);
      EmitPair("main", 186, MAIN_LINE + "\n", RET_LINE + "\n", level);
      GenerateInner(ps, level);
      EmitPair("done", 201, RETURN_LINE + "\n", END_LINE + "\n", level);
      PlanPairs(PilesOf(ps.view));
    }

    /** `cplr_generate`: whatever earlier generations left in the emitter, the code buffer is the program
        of the piles, and the dump is the program itself or its unmarked form. */
    method Generate(ps: PileSet, level: nat)
      requires ps.Valid() && this !in ps.Repr() && g_prevfile == None
      modifies this
      ensures ps.Valid() && |ps.view| == COUNT && g_prevfile == None && g_codebuf == Some(Printed(PilesOf(ps.view)))
      ensures g_dumpbuf == if level == 0 then None
                           else Some(if level > 1 then Printed(PilesOf(ps.view)) else Bare(Plan(PilesOf(ps.view))))
    {
      hide PileSet.Valid, Plan, Printed;
      g_codebuf, g_dumpbuf := Some(""), if level > 0 then Some("") else None;
      calls, start := [], Mem();
      GenerateCode(ps, level);
      PlanPrints(PilesOf(ps.view), start);
      if g_prevfile.Some? {
        g_prevfile := None;
      }
    }
  }

  lemma EmitAlone(e: Emission, marked: bool, before: string)
    requires marked ==> e.Body?
    ensures before + Emit(e, marked, "") == (if marked then before + Marker(e) else before) + e.text
  {
    hide MarkerLine;
    if marked {
      assert before + (Marker(e) + e.text + "") == before + Marker(e) + e.text;
    } else {
      assert before + ("" + e.text + "") == before + e.text;
    }
  }

  lemma PlanPairs(p: Program.Piles)
    ensures Plan(p) == [] + Sections(Head(p)) + Pair("main", 186, MAIN_LINE + "\n", RET_LINE + "\n")
                     + Sections(Inner(p)) + Pair("done", 201, RETURN_LINE + "\n", END_LINE + "\n")
  {
    hide Sections;
    assert Opening() == Pair("main", 186, MAIN_LINE + "\n", RET_LINE + "\n");
    assert Closing() == Pair("done", 201, RETURN_LINE + "\n", END_LINE + "\n");
    assert [] + Sections(Head(p)) == Sections(Head(p));
  }

  lemma Longer(base: seq<Emission>, done: seq<Emission>, e: Emission)
    ensures base + done + [e] == base + (done + [e])
  {
  }

  lemma FragmentCount(name: string, items: seq<string>, reverse: bool, fmt: Format)
    ensures |Fragments(name, items, reverse, fmt)| == |items|
  {
  }

  /** The j-th fragment in terms of the j-th item in printed order. */
  lemma NextFragment(name: string, items: seq<string>, reverse: bool, fmt: Format, j: nat)
    requires j < |items|
    ensures var all := Fragments(name, items, reverse, fmt);
      |all| == |items| && all[..j + 1] == all[..j] + [all[j]] &&
      all[j] == if reverse then Body(Statement, FileName(name, |items| - j), 1, Apply(fmt, Reverse(items)[j]))
                else Body(Preproc, FileName(name, j), 1, Apply(fmt, items[j]))
  {
    hide FileName, Apply;
  }
}
