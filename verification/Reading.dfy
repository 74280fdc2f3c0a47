/** Exactly when a compiler reads what the emitter prints as it was meant. */
module Reading {
  import opened Text
  import opened LineControl
  import opened Emitter

  ghost predicate IsBannerText(t: string) {
    exists name :: Plain(name) && t == BannerLine(name) + "\n"
  }

  /** Complete lines, the last of which can be taken neither for a marker nor for a splice. */
  predicate EndsPlainly(t: string) {
    |t| > 1 && t[|t| - 1] == '\n' && t[|t| - 2] != '\n' && t[|t| - 2] != '"' && t[|t| - 2] != '\\'
  }

  ghost predicate Written(e: Emission) {
    EndsPlainly(e.text) && Terminated(e.text) && (if e.Body? then Plain(e.file) else IsBannerText(e.text))
  }

  predicate PlainEnd(l: string) {
    l != "" && l[|l| - 1] != '"' && l[|l| - 1] != '\\'
  }

  lemma LastLine(t: string)
    requires EndsPlainly(t)
    ensures Lines(t) != [] && PlainEnd(Lines(t)[|Lines(t)| - 1])
  {
    LastLineEndsWith(t, t[|t| - 2]);
  }

  /** Behind an unspliced line nothing is pending but a comment. */
  lemma {:induction false} SettledAfter(ls: seq<string>, x: Lex)
    requires ls != [] && !Spliced(ls[|ls| - 1])
    ensures Settled(LexAfter(ls, x))
  {
    if |ls| > 1 {
      SettledAfter(ls[1..], NextLex(x, ls[0]));
    } else {
      assert ls[1..] == [];
    }
  }

  /** A line directive among the lines is missing from what is read. */
  lemma {:induction false} ReadIsShorter(ls: seq<string>, p: Pos)
    ensures |Read(ls, p)| <= |ls| && (|Read(ls, p)| == |ls| ==> Quiet(ls, p.lex))
  {
    hide DirectiveAt, NextLex;
    if ls != [] {
      ReadIsShorter(ls[1..], Step(p, ls[0]));
    }
  }

  /** Nothing of a call's text is read twice, and its marker at most once. */
  lemma ReadEmit(e: Emission, marked: bool, rest: string, p: Pos)
    requires Terminated(e.text) && (marked ==> e.Body? && Plain(e.file))
    ensures var a := if marked then Read([MarkerLine(e.line, e.file)], p) else [];
      var q := if marked then After([MarkerLine(e.line, e.file)], p) else p;
      var ls := Lines(e.text);
      Read(Lines(Emit(e, marked, rest)), p) == a + Read(ls, q) + Read(Lines(rest), After(ls, q))
  {
    hide Read, After, Lines, MarkerLine, Plain, Terminated;
    var ls := Lines(e.text);
    LinesAppend(e.text, rest);
    var q := if marked then After([MarkerLine(e.line, e.file)], p) else p;
    ReadAppend(ls, Lines(rest), q);
    if marked {
      var l := MarkerLine(e.line, e.file);
      ScanMarker(e.line, e.file);
      LinesOfLine(l);
      assert Marker(e) + e.text + rest == l + "\n" + (e.text + rest);
      LineTerminated(l);
      LinesAppend(l + "\n", e.text + rest);
      ReadAppend([l], ls + Lines(rest), p);
    } else {
      assert "" + e.text + rest == e.text + rest;
    }
  }

  lemma MarkerAtMostOnce(n: nat, file: string, p: Pos)
    ensures var l := MarkerLine(n, file);
      !PlainEnd(l) && (Read([l], p) == [] || Read([l], p) == [Placed(l, p.file, p.line)])
  {
    hide DirectiveAt;
    var l := MarkerLine(n, file);
    assert [l][1..] == [];
  }

  // ---- a reader that has lost a line never catches up -------------------------------------------------------

  /** A non-empty run of positions that ends with the last line of some call. */
  predicate Owed(owed: seq<Placed>) {
    owed != [] && PlainEnd(owed[|owed| - 1].text)
  }

  /** What is still owed after some lines were read out of order: at least one line, and the last of the call. */
  lemma StillOwed(owed: seq<Placed>, a: seq<Placed>, b: seq<Placed>, r: seq<Placed>, ls: seq<Placed>, i: seq<Placed>)
    returns (more: seq<Placed>)
    requires Owed(owed) && Owed(ls) && |b| <= |ls| && a + b + r == owed + (ls + i)
    requires |a| <= 1 && (a != [] ==> !PlainEnd(a[0].text))
    ensures Owed(more) && r == more + i
  {
    var k := |a| + |b|;
    var all := owed + ls;
    assert owed + (ls + i) == all + i;
    if a != [] {
      assert a[0] == (a + b + r)[0] == (owed + (ls + i))[0] == owed[0];
      assert |owed| > 1;
    }
    assert k < |all|;
    more := all[k..];
    assert r == (a + b + r)[k..] == (all + i)[k..] == more + i;
  }

  lemma OwedLines(t: string, file: string, line: nat)
    requires EndsPlainly(t)
    ensures Owed(PlaceAll(Lines(t), file, line))
  {
    LastLine(t);
  }

  lemma {:induction false} NeverCatchesUp(es: seq<Emission>, m: Memory, p: Pos, owed: seq<Placed>, file: string, at: nat)
    requires (forall e <- es :: Written(e)) && Owed(owed)
    ensures Read(Lines(Code(es, m)), p) != owed + Intended(es, file, at)
  {
    hide Read, After, Lines, MarkerLine, EndsPlainly, PlainEnd, PlaceAll, Emit, NeedsMarker, Remember, Owed, IsBannerText, Terminated;
    if es == [] {
      NothingRead(m, Pos(file, at, p.lex));
      NothingToRead(m, p);
      OwedSomething(owed);
    } else if Read(Lines(Code(es, m)), p) == owed + Intended(es, file, at) {
      var e, marked := es[0], NeedsMarker(m, es[0]);
      var rest, f, n, ls := Code(es[1..], Remember(m, e)), WantedFile(e, file), WantedLine(e, at), Lines(e.text);
      assert Written(e);
      ReadEmit(e, marked, rest, p);
      var a, q := [], p;
      if marked {
        a, q := Read([MarkerLine(e.line, e.file)], p), After([MarkerLine(e.line, e.file)], p);
        MarkerAtMostOnce(e.line, e.file, p);
      }
      ReadIsShorter(ls, q);
      OwedLines(e.text, f, n);
      var more := StillOwed(owed, a, Read(ls, q), Read(Lines(rest), After(ls, q)), PlaceAll(ls, f, n),
        Intended(es[1..], f, n + |ls|));
      NeverCatchesUp(es[1..], Remember(m, e), After(ls, q), more, f, n + |ls|);
    }
  }

  lemma OwedSomething(owed: seq<Placed>)
    requires Owed(owed)
    ensures owed != []
  {
  }

  lemma NothingToRead(m: Memory, p: Pos)
    ensures Read(Lines(Code([], m)), p) == [] && forall f, n :: Intended([], f, n) == []
  {
  }

  // ---- the exact condition -----------------------------------------------------------------------------------

  /** No line directive is complete within a call, and no comment is open where a marker stands. */
  predicate Calm(es: seq<Emission>, m: Memory, x: Lex) {
    es == [] ||
    ((NeedsMarker(m, es[0]) ==> x == FRESH) && Quiet(Lines(es[0].text), x) &&
     Calm(es[1..], Remember(m, es[0]), LexAfter(Lines(es[0].text), x)))
  }

  /** A marker that does not stand behind a banner changes the file. */
  predicate Tellable(es: seq<Emission>, m: Memory, open: bool) {
    es == [] ||
    ((open && NeedsMarker(m, es[0]) ==> m.prevfile.Some? && m.prevfile.value != es[0].file) &&
     Tellable(es[1..], Remember(m, es[0]), es[0].Body?))
  }

  lemma SettledCall(e: Emission, x: Lex)
    requires Written(e) && Settled(x)
    ensures Settled(LexAfter(Lines(e.text), x)) && (LexAfter(Lines(e.text), x) != FRESH ==> e.Body?)
  {
    hide Scan, Directive, BannerLine, Settled, NextLex;
    LastLine(e.text);
    SettledAfter(Lines(e.text), x);
    if e.Note? {
      var name :| Plain(name) && e.text == BannerLine(name) + "\n";
      ScanBanner(name);
      LinesOfLine(BannerLine(name));
      BannerReads(name, x);
      assert [BannerLine(name)][1..] == [];
    }
  }

  /** A swallowed marker is read in the old file, so the call behind it is not. */
  lemma Swallowed(e: Emission, es: seq<Emission>, m: Memory, p: Pos)
    requires Written(e) && NeedsMarker(m, e) && Settled(p.lex) && p.lex != FRESH && p.file != e.file
    ensures Read(Lines(Code([e] + es, m)), p) != Intended([e] + es, p.file, p.line)
  {
    hide Lines, EndsPlainly, MarkerLine, Plain, Emit, Remember, Read, After;
    assert ([e] + es)[1..] == es;
    var l, rest := MarkerLine(e.line, e.file), Code(es, Remember(m, e));
    ReadEmit(e, true, rest, p);
    ScanMarker(e.line, e.file);
    MarkerHasNoStar(e.line, e.file);
    ReadInComment(l, p);
    LastLine(e.text);
    assert Intended([e] + es, p.file, p.line)[0].file == e.file;
  }

  /** A call that drops a line is never made good. */
  lemma NotQuiet(e: Emission, marked: bool, es: seq<Emission>, m: Memory, p: Pos, q: Pos, file: string, at: nat)
    requires Written(e) && (forall x <- es :: Written(x)) && (marked ==> e.Body?)
    requires q == (if marked then After([MarkerLine(e.line, e.file)], p) else p) && !Quiet(Lines(e.text), q.lex)
    requires marked ==> Read([MarkerLine(e.line, e.file)], p) == []
    ensures var ls := Lines(e.text);
      Read(Lines(Emit(e, marked, Code(es, m))), p) != PlaceAll(ls, file, at) + Intended(es, file, at + |ls|)
  {
    hide Lines, EndsPlainly, MarkerLine, Plain, Emit, Read, After, Quiet, PlaceAll, PlainEnd, Terminated, IsBannerText;
    var ls, rest := Lines(e.text), Code(es, m);
    var whole, i := PlaceAll(ls, file, at), Intended(es, file, at + |ls|);
    ReadEmit(e, marked, rest, p);
    ReadIsShorter(ls, q);
    if Read(Lines(Emit(e, marked, rest)), p) == whole + i {
      var b, r := Read(ls, q), Read(Lines(rest), After(ls, q));
      OwedLines(e.text, file, at);
      assert [] + b == b;
      var more := LeftOver(whole, b, r, i);
      NeverCatchesUp(es, m, After(ls, q), more, file, at + |ls|);
    }
  }

  lemma LeftOver(whole: seq<Placed>, b: seq<Placed>, r: seq<Placed>, i: seq<Placed>) returns (more: seq<Placed>)
    requires Owed(whole) && |b| < |whole| && b + r == whole + i
    ensures Owed(more) && r == more + i
  {
    more := whole[|b|..];
    assert r == (b + r)[|b|..] == (whole + i)[|b|..] == more + i;
  }

  /** A call without a line directive is read in place, from wherever the reader stands. */
  lemma QuietCall(e: Emission, marked: bool, rest: string, p: Pos, q: Pos)
    requires Written(e) && (marked ==> e.Body? && p.lex == FRESH)
    requires q == (if marked then Pos(e.file, e.line, FRESH) else p) && Quiet(Lines(e.text), q.lex)
    ensures var ls := Lines(e.text);
      Read(Lines(Emit(e, marked, rest)), p)
        == PlaceAll(ls, q.file, q.line) + Read(Lines(rest), Pos(q.file, q.line + |ls|, LexAfter(ls, q.lex)))
  {
    hide Lines, EndsPlainly, MarkerLine, Plain, Emit, Read, After, Quiet, LexAfter, PlaceAll, IsBannerText, Terminated;
    ReadEmit(e, marked, rest, p);
    if marked {
      ReadMarker(e.line, e.file, p);
    }
    ReadQuiet(Lines(e.text), q);
    assert [] + PlaceAll(Lines(e.text), q.file, q.line) == PlaceAll(Lines(e.text), q.file, q.line);
  }

  /** One call: either it is read in place and so is what follows, or the whole is not. */
  lemma ExactStep(e: Emission, es: seq<Emission>, m: Memory, p: Pos)
    requires Written(e) && (forall x <- es :: Written(x)) && Settled(p.lex)
    requires (m.prevfile.Some? ==> m.prevfile.value == p.file) && (NeedsMarker(m, e) ==> p.lex == FRESH)
    ensures var f, n := WantedFile(e, p.file), WantedLine(e, p.line);
      var ls := Lines(e.text);
      Read(Lines(Code([e] + es, m)), p) == Intended([e] + es, p.file, p.line) <==>
        (e.Body? && !NeedsMarker(m, e) ==> e.line == p.line) && Quiet(ls, p.lex) &&
        Read(Lines(Code(es, Remember(m, e))), Pos(f, n + |ls|, LexAfter(ls, p.lex))) == Intended(es, f, n + |ls|)
  {
    hide Lines, EndsPlainly, MarkerLine, Plain, Emit, Read, After, Quiet, LexAfter, PlaceAll, IsBannerText, NeedsMarker,
         Remember, Terminated, Settled, Code, Intended, Written, PlainEnd;
    var marked, ls, rest := NeedsMarker(m, e), Lines(e.text), Code(es, Remember(m, e));
    var f, n := WantedFile(e, p.file), WantedLine(e, p.line);
    Unfold(e, es, m, p);
    if e.Body? && !marked {
      SuppressedIsSameFile(m, e);
    }
    var q := if marked then Pos(e.file, e.line, FRESH) else p;
    if Quiet(ls, p.lex) {
      QuietCall(e, marked, rest, p, q);
      WrittenHasLines(e);
      PlacedSplit(ls, f, q.line, n, Read(Lines(rest), Pos(f, q.line + |ls|, LexAfter(ls, p.lex))), Intended(es, f, n + |ls|));
    } else {
      if marked {
        ReadMarker(e.line, e.file, p) by { PlainFile(e); }
      }
      NotQuiet(e, marked, es, Remember(m, e), p, q, f, n);
    }
  }

  lemma PlainFile(e: Emission)
    requires Written(e) && e.Body?
    ensures Plain(e.file)
  {
  }

  lemma WrittenHasLines(e: Emission)
    requires Written(e)
    ensures Lines(e.text) != []
  {
    LastLine(e.text);
  }

  /** For every sequence of calls: the stream is read as intended if and only if the suppressed markers
      would have named the line reached anyway, no line directive is complete within a call, and no
      comment is open where a marker stands. */
  lemma {:induction false} ReadExact(es: seq<Emission>, m: Memory, p: Pos, open: bool)
    requires (forall e <- es :: Written(e)) && Tellable(es, m, open) && Settled(p.lex) && (p.lex != FRESH ==> open)
    requires m.prevfile.Some? ==> m.prevfile.value == p.file
    ensures Read(Lines(Code(es, m)), p) == Intended(es, p.file, p.line) <==> Aligned(es, m, p.line) && Calm(es, m, p.lex)
  {
    hide Read, Lines, NeedsMarker, PlaceAll, Emit, Quiet, Settled, Code, Intended, LexAfter, Written;
    if es == [] {
      NothingRead(m, p);
      NothingToRead(m, p);
    } else {
      var e := es[0];
      assert es == [e] + es[1..] && Written(e);
      if NeedsMarker(m, e) && p.lex != FRESH {
        Swallowed(e, es[1..], m, p);
      } else {
        var ls := Lines(e.text);
        ExactStep(e, es[1..], m, p);
        SettledCall(e, p.lex);
        ReadExact(es[1..], Remember(m, e),
          Pos(WantedFile(e, p.file), WantedLine(e, p.line) + |ls|, LexAfter(ls, p.lex)), e.Body?);
      }
    }
  }
}
