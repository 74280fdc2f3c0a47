/** `cplr_emit`: printing fragments of the program and leaving out the `#line` markers that a
    compiler does not need. */
module Emitter {
  import opened Text
  import opened LineControl

  datatype GState = Initial | CommentState | Internal | Preproc | Toplevel | Statement

  /** One call of `cplr_emit`: a comment, or a fragment of state `state` at `line` of `file`. */
  datatype Emission =
    | Note(text: string)
    | Body(state: GState, file: string, line: nat, text: string)

  /** What `cplr_emit` remembers between calls. */
  datatype Memory = Memory(state: GState, prevline: nat, prevfile: Option<string>)

  predicate NeedsMarker(m: Memory, e: Emission): (b: bool)
    ensures b ==> e.Body?
  {
    e.Body? &&
    if m.state != e.state then true
    else if m.prevfile == None || m.prevfile.value != e.file then true
    else if e.state == Preproc then false
    else m.prevline != 0 && e.line != m.prevline + 1
  }

  function Remember(m: Memory, e: Emission): Memory {
    if e.Note? then m else Memory(e.state, e.line, Some(e.file))
  }

  function Marker(e: Emission): string
    requires e.Body?
  {
    MarkerLine(e.line, e.file) + "\n"
  }

  /** What one call writes, in front of what follows. */
  function Emit(e: Emission, marked: bool, rest: string): string
    requires marked ==> e.Body?
  {
    (if marked then Marker(e) else "") + e.text + rest
  }

  /** The code stream of a sequence of calls. */
  function Code(es: seq<Emission>, m: Memory): string {
    if es == [] then ""
    else Emit(es[0], NeedsMarker(m, es[0]), Code(es[1..], Remember(m, es[0])))
  }

  /** The dump stream at level 1: the same calls without any marker. */
  function Bare(es: seq<Emission>): string {
    if es == [] then "" else es[0].text + Bare(es[1..])
  }

  function Dump(level: nat, es: seq<Emission>, m: Memory): string {
    if level > 1 then Code(es, m) else Bare(es)
  }

  function MemoryAfter(es: seq<Emission>, m: Memory): Memory {
    if es == [] then m else MemoryAfter(es[1..], Remember(m, es[0]))
  }

  lemma {:induction false} CodeAppend(a: seq<Emission>, b: seq<Emission>, m: Memory)
    ensures Code(a + b, m) == Code(a, m) + Code(b, MemoryAfter(a, m))
    ensures Bare(a + b) == Bare(a) + Bare(b)
    ensures MemoryAfter(a + b, m) == MemoryAfter(b, MemoryAfter(a, m))
  {
    if a == [] {
      assert a + b == b;
    } else {
      assert (a + b)[1..] == a[1..] + b;
      CodeAppend(a[1..], b, Remember(m, a[0]));
    }
  }

  // ---- when the omitted markers are not missed ---------------------------------------------

  predicate Readable(e: Emission) {
    Admissible(e.text) && (e.Body? ==> Plain(e.file))
  }

  /** Every omitted marker would have named the line that counting has reached anyway.
      `at` is the presumed line of the next physical line. */
  predicate Aligned(es: seq<Emission>, m: Memory, at: nat) {
    es == [] ||
    ((es[0].Body? && !NeedsMarker(m, es[0]) ==> es[0].line == at) &&
     Aligned(es[1..], Remember(m, es[0]), WantedLine(es[0], at) + |Lines(es[0].text)|))
  }

  /** The intended attribution: a fragment's lines count up from its own position, a comment's from
      wherever the fragment before it ended. */
  function Intended(es: seq<Emission>, file: string, at: nat): seq<Placed> {
    if es == [] then []
    else
      var (f, n) := (WantedFile(es[0], file), WantedLine(es[0], at));
      PlaceAll(Lines(es[0].text), f, n) + Intended(es[1..], f, n + |Lines(es[0].text)|)
  }

  /** A compiler counts admissible text upwards and is back in plain code after it. */
  lemma ReadText(t: string, rest: string, p: Pos)
    requires Admissible(t) && p.lex == FRESH
    ensures Read(Lines(t + rest), p)
         == PlaceAll(Lines(t), p.file, p.line) + Read(Lines(rest), Pos(p.file, p.line + |Lines(t)|, FRESH))
  {
    LinesAppend(t, rest);
    ReadAppend(Lines(t), Lines(rest), p);
    ReadQuiet(Lines(t), p);
  }

  lemma ReadAfterMarker(n: nat, file: string, rest: string, p: Pos)
    requires Plain(file) && p.lex == FRESH
    ensures Read(Lines(MarkerLine(n, file) + "\n" + rest), p) == Read(Lines(rest), Pos(file, n, FRESH))
  {
    var l := MarkerLine(n, file);
    ReadMarker(n, file, p);
    LinesOfLine(l);
    LinesAppend(l + "\n", rest);
    ReadAppend([l], Lines(rest), p);
  }

  /** Where the compiler stands when it reaches the text of the call. */
  function Reached(marked: bool, e: Emission, p: Pos): Pos
    requires marked ==> e.Body?
  {
    if marked then Pos(e.file, e.line, FRESH) else p
  }

  lemma ReadEmission(e: Emission, marked: bool, rest: string, p: Pos)
    requires Readable(e) && p.lex == FRESH && (marked ==> e.Body?)
    ensures var q := Reached(marked, e, p);
            Read(Lines(Emit(e, marked, rest)), p)
              == PlaceAll(Lines(e.text), q.file, q.line)
                 + Read(Lines(rest), Pos(q.file, q.line + |Lines(e.text)|, FRESH))
  {
    hide Read, Lines, Admissible, MarkerLine, PlaceAll;
    ReadText(e.text, rest, Reached(marked, e, p));
    if marked {
      assert Marker(e) + e.text + rest == Marker(e) + (e.text + rest);
      ReadAfterMarker(e.line, e.file, e.text + rest, p);
    } else {
      assert "" + e.text + rest == e.text + rest;
    }
  }

  lemma HasLines(t: string)
    requires Admissible(t)
    ensures Lines(t) != []
  {
  }

  lemma SuppressedIsSameFile(m: Memory, e: Emission)
    requires e.Body? && !NeedsMarker(m, e)
    ensures m.prevfile == Some(e.file)
  {
  }

  /** Behind a fragment of one line the marker of the next one of its kind is left out exactly when it would
      name the position that counting has reached anyway; for items, which count from 1 in files of their
      own, exactly when the file stays the same; and never when the kind changes. */
  lemma MarkerWhenNeeded(d: Emission, e: Emission, m: Memory)
    requires d.Body? && e.Body? && d.line > 0 && |Lines(d.text)| == 1
    ensures var n := Remember(m, d);
      if d.state != e.state then NeedsMarker(n, e)
      else if d.state == Preproc then NeedsMarker(n, e) <==> d.file != e.file
      else NeedsMarker(n, e) <==> (e.file, e.line) != (d.file, d.line + |Lines(d.text)|)
    ensures m.prevfile == None ==> NeedsMarker(m, e)
  {
    hide Lines;
  }

  lemma NothingRead(m: Memory, p: Pos)
    ensures Read(Lines(Code([], m)), p) == Intended([], p.file, p.line)
  {
  }

  lemma PlacedSplit(ls: seq<string>, file: string, a: nat, b: nat, c: seq<Placed>, d: seq<Placed>)
    requires ls != []
    ensures PlaceAll(ls, file, a) + c == PlaceAll(ls, file, b) + d <==> a == b && c == d
  {
    SplitEqual(PlaceAll(ls, file, a), c, PlaceAll(ls, file, b), d);
    assert PlaceAll(ls, file, a)[0].line == a && PlaceAll(ls, file, b)[0].line == b;
  }

  /** The presumed line that the call asks for: a comment takes what comes. */
  function WantedLine(e: Emission, at: nat): nat {
    if e.Body? then e.line else at
  }

  function WantedFile(e: Emission, file: string): string {
    if e.Body? then e.file else file
  }

  lemma Unfold(e: Emission, es: seq<Emission>, m: Memory, p: Pos)
    ensures Code([e] + es, m) == Emit(e, NeedsMarker(m, e), Code(es, Remember(m, e)))
    ensures var f, n, ls := WantedFile(e, p.file), WantedLine(e, p.line), Lines(e.text);
      Intended([e] + es, p.file, p.line) == PlaceAll(ls, f, n) + Intended(es, f, n + |ls|)
  {
    hide Lines, Emit, PlaceAll, NeedsMarker, Remember;
    assert ([e] + es)[1..] == es;
  }

  /** One call is read as intended and so is what follows it, or the whole is not. */
  lemma LosslessStep(e: Emission, es: seq<Emission>, m: Memory, p: Pos)
    requires Readable(e)
    requires p.lex == FRESH && (m.prevfile.Some? ==> m.prevfile.value == p.file)
    ensures var f := WantedFile(e, p.file);
            var next := WantedLine(e, p.line) + |Lines(e.text)|;
            Read(Lines(Code([e] + es, m)), p) == Intended([e] + es, p.file, p.line) <==>
              (e.Body? && !NeedsMarker(m, e) ==> e.line == p.line) &&
              Read(Lines(Code(es, Remember(m, e))), Pos(f, next, FRESH)) == Intended(es, f, next)
  {
    hide Read, Lines, Admissible, MarkerLine, PlaceAll, Emit, NeedsMarker, Plain, Remember, Code, Intended;
    var rest, marked := Code(es, Remember(m, e)), NeedsMarker(m, e);
    var f, n, ls := WantedFile(e, p.file), WantedLine(e, p.line), Lines(e.text);
    Unfold(e, es, m, p);
    HasLines(e.text);
    ReadEmission(e, marked, rest, p);
    if e.Body? && !marked {
      SuppressedIsSameFile(m, e);
    }
    var q := Reached(marked, e, p);
    PlacedSplit(ls, f, q.line, n, Read(Lines(rest), Pos(f, q.line + |ls|, FRESH)), Intended(es, f, n + |ls|));
  }

  /** Leaving markers out is lossless exactly for aligned sequences of calls. */
  lemma {:induction false} SuppressionLossless(es: seq<Emission>, m: Memory, p: Pos)
    requires forall e <- es :: Readable(e)
    requires p.lex == FRESH && (m.prevfile.Some? ==> m.prevfile.value == p.file)
    ensures Read(Lines(Code(es, m)), p) == Intended(es, p.file, p.line) <==> Aligned(es, m, p.line)
  {
    hide Read, Lines, Readable, NeedsMarker, PlaceAll, Emit;
    if es == [] {
      NothingRead(m, p);
    } else {
      assert Readable(es[0]);
      var e := es[0];
      assert es == [e] + es[1..];
      LosslessStep(e, es[1..], m, p);
      SuppressionLossless(es[1..], Remember(m, e),
        Pos(WantedFile(e, p.file), WantedLine(e, p.line) + |Lines(e.text)|, FRESH));
    }
  }

  // ---- the dump stream -----------------------------------------------------------------------

  /** No physical line of the text is a line directive by itself. */
  predicate Undirected(t: string) {
    Clean(Lines(t))
  }

  predicate Clean(ls: seq<string>) {
    ls == [] || (Directive(ls[0]) == None && Clean(ls[1..]))
  }

  function Erase(ls: seq<string>): seq<string> {
    if ls == [] then []
    else (if Directive(ls[0]).Some? then [] else [ls[0]]) + Erase(ls[1..])
  }

  lemma {:induction false} EraseAppend(a: seq<string>, b: seq<string>)
    ensures Erase(a + b) == Erase(a) + Erase(b)
  {
    if a == [] {
      assert a + b == b;
    } else {
      assert (a + b)[1..] == a[1..] + b;
      EraseAppend(a[1..], b);
    }
  }

  lemma {:induction false} EraseShrinks(ls: seq<string>)
    ensures |Erase(ls)| <= |ls|
    ensures |Erase(ls)| == |ls| <==> Clean(ls)
    ensures Clean(ls) ==> Erase(ls) == ls
  {
    hide Directive;
    if ls != [] {
      EraseShrinks(ls[1..]);
      assert [ls[0]] + ls[1..] == ls;
      assert Erase(ls) == if Directive(ls[0]).Some? then Erase(ls[1..]) else [ls[0]] + Erase(ls[1..]);
    }
  }

  /** The program with every line directive struck out, as a length and as a text: it is the level-1
      dump exactly when no fragment brings a line directive of its own. */
  lemma {:induction false} EraseCode(es: seq<Emission>, m: Memory)
    requires forall e <- es :: Terminated(e.text) && (e.Body? ==> Plain(e.file))
    ensures |Erase(Lines(Code(es, m)))| <= |Lines(Bare(es))|
    ensures Erase(Lines(Code(es, m))) == Lines(Bare(es)) <==> forall e <- es :: Undirected(e.text)
    ensures |Erase(Lines(Code(es, m)))| == |Lines(Bare(es))| <==> forall e <- es :: Undirected(e.text)
  {
    hide Directive, Terminated, Plain, MarkerLine, Emit, NeedsMarker;
    if es != [] {
      var e, rest := es[0], Code(es[1..], Remember(m, es[0]));
      var ls := Lines(e.text);
      EraseCode(es[1..], Remember(m, es[0]));
      EraseShrinks(ls);
      LinesAppend(e.text, Bare(es[1..]));
      EraseEmission(e, NeedsMarker(m, e), rest);
      assert forall d :: d in es <==> d == e || d in es[1..];
      if |Erase(ls)| == |ls| {
        SplitEqual(Erase(ls), Erase(Lines(rest)), ls, Lines(Bare(es[1..])));
      }
    }
  }

  lemma EraseMarker(n: nat, file: string, rest: string)
    requires Plain(file)
    ensures Erase(Lines(MarkerLine(n, file) + "\n" + rest)) == Erase(Lines(rest))
  {
    hide Directive, MarkerLine, Plain, Lines, Read, After, Quiet;
    var l := MarkerLine(n, file);
    ReadMarker(n, file, Pos("", 1, FRESH));
    PlainHasNoQuote(file);
    MarkerIsDirective(n, file);
    LinesOfLine(l);
    LinesAppend(l + "\n", rest);
    EraseAppend([l], Lines(rest));
    assert Erase([l]) == [];
  }

  lemma EraseEmission(e: Emission, marked: bool, rest: string)
    requires Terminated(e.text) && (e.Body? ==> Plain(e.file)) && (marked ==> e.Body?)
    ensures Erase(Lines(Emit(e, marked, rest))) == Erase(Lines(e.text)) + Erase(Lines(rest))
  {
    hide Directive, MarkerLine, Plain, Lines, Erase;
    LinesAppend(e.text, rest);
    EraseAppend(Lines(e.text), Lines(rest));
    if marked {
      assert Marker(e) + e.text + rest == Marker(e) + (e.text + rest);
      EraseMarker(e.line, e.file, e.text + rest);
    } else {
      assert "" + e.text + rest == e.text + rest;
    }
  }

  /** The markers that a run inserts, counted in characters. */
  function MarkerChars(es: seq<Emission>, m: Memory): nat {
    if es == [] then 0
    else (if NeedsMarker(m, es[0]) then |Marker(es[0])| else 0) + MarkerChars(es[1..], Remember(m, es[0]))
  }

  lemma {:induction false} DumpIsShorterByMarkers(es: seq<Emission>, m: Memory)
    ensures |Code(es, m)| == |Bare(es)| + MarkerChars(es, m)
  {
    if es != [] {
      DumpIsShorterByMarkers(es[1..], Remember(m, es[0]));
    }
  }
}
