/** What the programs of a session mean: where a compiler believes their lines to be, and what can be read
    back from them, in terms of the typed lines. */
module Meanings {
  import opened Text
  import opened LineControl
  import opened Emitter
  import opened Program
  import opened Positions
  import opened Conditionals
  import opened Decode
  import opened Dumps
  import opened Piles
  import opened Flat
  import opened SessionForm

  /** The piles that the j-th event of a session is about. */
  ghost function WantedAt(base: View, lines: seq<string>, log: seq<Event>, j: nat): Program.Piles
    requires j < |log| && Told(base, lines, log)
  {
    assert Tells(base, lines, log[..j], log[j]);
    Wanted(base, lines[..log[j].at], LoadTime(log[..j]))
  }

  lemma ToldAt(base: View, lines: seq<string>, log: seq<Event>, j: nat)
    requires j < |log| && Told(base, lines, log)
    ensures log[j].what.DidGenerate? ==> log[j].what.code == Printed(WantedAt(base, lines, log, j))
    ensures log[j].what.DidDump? ==> log[j].what.text == Bare(Plan(WantedAt(base, lines, log, j)))
  {
    hide Printed, Bare, Plan, Wanted;
    assert Tells(base, lines, log[..j], log[j]);
  }

  /** Over every session, each generated program is read as it was meant if and only if the lines typed so
      far leave legible piles, it can be decoded to these piles if and only if they bring no line directive,
      and a legible one is read so whatever its conditions are if and only if no fragment begins in an open
      group. */
  lemma EveryProgramMeans(s: State, lines: seq<string>, env: nat -> Env, j: nat, start: Pos)
    requires Fresh(s) && start.lex == FRESH
    requires var log := Session(s, lines, env).state.log; j < |log| && log[j].what.DidGenerate?
    ensures Told(s.view, lines, Session(s, lines, env).state.log)
    ensures var log := Session(s, lines, env).state.log;
      var code, w := log[j].what.code, WantedAt(s.view, lines, log, j);
      (Read(Lines(code), start) == Intended(Plan(w), start.file, start.line) <==> LegiblePiles(w)) &&
      (Recover(code) == Some(w) <==> DirectiveFree(w)) &&
      (LegiblePiles(w) ==>
        ((forall a: Answers :: ReadKept(Lines(code), start, Nest([], a)) == Intended(Plan(w), start.file, start.line))
          <==> Outside(Pieces(w), FRESH, 0)))
  {
    hide Told, Session, Fresh, WantedAt, Read, Lines, Intended, Plan, LegiblePiles, Recover, Printed, DirectiveFree, ReadKept,
         Outside, Pieces;
    EveryProgramIsTold(s, lines, env);
    var log := Session(s, lines, env).state.log;
    var w := WantedAt(s.view, lines, log, j);
    ToldAt(s.view, lines, log, j);
    PositionsFaithful(w, start);
    RoundTrip(w);
    if LegiblePiles(w) {
      AlwaysFaithfulExactly(w, start);
    }
  }

  /** Over every session, a dump is the program without its line directives if and only if the lines bring
      none. */
  lemma EveryDumpMeans(s: State, lines: seq<string>, env: nat -> Env, j: nat)
    requires Fresh(s)
    requires var log := Session(s, lines, env).state.log; j < |log| && log[j].what.DidDump?
    ensures Told(s.view, lines, Session(s, lines, env).state.log)
    ensures var log := Session(s, lines, env).state.log;
      var text, w := log[j].what.text, WantedAt(s.view, lines, log, j);
      Lines(text) == Erase(Lines(Printed(w))) <==> DirectiveFree(w)
  {
    hide Told, Session, Fresh, WantedAt, Lines, Plan, Printed, DirectiveFree, Erase, Bare;
    EveryProgramIsTold(s, lines, env);
    var log := Session(s, lines, env).state.log;
    ToldAt(s.view, lines, log, j);
    DumpErasesMarkers(WantedAt(s.view, lines, log, j));
  }

  /** Equal programs come from equal piles, in whatever sessions they were generated. */
  lemma SameProgramSamePiles(s: State, lines: seq<string>, env: nat -> Env, j: nat,
                             t: State, others: seq<string>, world: nat -> Env, k: nat)
    requires Fresh(s) && Fresh(t)
    requires var log := Session(s, lines, env).state.log; j < |log| && log[j].what.DidGenerate?
    requires var log := Session(t, others, world).state.log; k < |log| && log[k].what.DidGenerate?
    requires Session(s, lines, env).state.log[j].what.code == Session(t, others, world).state.log[k].what.code
    ensures Told(s.view, lines, Session(s, lines, env).state.log) && Told(t.view, others, Session(t, others, world).state.log)
    ensures var v := WantedAt(s.view, lines, Session(s, lines, env).state.log, j);
      var w := WantedAt(t.view, others, Session(t, others, world).state.log, k);
      DirectiveFree(v) && DirectiveFree(w) ==> v == w
  {
    hide Told, Session, Fresh, WantedAt, Printed, DirectiveFree;
    EveryProgramIsTold(s, lines, env);
    EveryProgramIsTold(t, others, world);
    ToldAt(s.view, lines, Session(s, lines, env).state.log, j);
    ToldAt(t.view, others, Session(t, others, world).state.log, k);
    var v := WantedAt(s.view, lines, Session(s, lines, env).state.log, j);
    var w := WantedAt(t.view, others, Session(t, others, world).state.log, k);
    if DirectiveFree(v) && DirectiveFree(w) {
      PrintingIsInjective(v, w);
    }
  }

  // ---- what a user can watch ------------------------------------------------------------------------------

  /** How the items of a printed pile are printed. */
  function FormatOf(k: nat): Format {
    if k == DEFSYS || k == SYSS || k == INCS then INCLUDE
    else if k == TLDS || k == TLFS then PLAIN
    else INDENTED
  }

  predicate TamePile(k: nat, items: seq<string>) {
    forall item <- items :: Tame(FormatOf(k), item)
  }

  predicate TameView(v: View) {
    forall k :: 0 <= k < COUNT && IsPrinted(k) ==> TamePile(k, v[k])
  }

  predicate TameLine(line: string) {
    forall k :: 0 <= k < COUNT && IsPrinted(k) ==> TamePile(k, Item(line, k))
  }

  lemma {:induction false} TameItems(k: nat, lines: seq<string>)
    requires k < COUNT && IsPrinted(k) && forall l <- lines :: TameLine(l)
    ensures TamePile(k, Items(k, lines))
  {
    hide Item, Tame, FormatOf;
    if lines != [] {
      var n := |lines| - 1;
      assert forall l <- lines[..n] :: l in lines;
      TameItems(k, lines[..n]);
      assert lines[n] in lines;
    }
  }

  lemma TameAppend(k: nat, a: seq<string>, b: seq<string>)
    requires TamePile(k, a) && TamePile(k, b)
    ensures TamePile(k, a + b)
  {
    hide Tame;
  }

  lemma TamePileAfter(base: View, lines: seq<string>, load: Option<nat>, k: nat)
    requires k < COUNT && IsPrinted(k) && (load.Some? ==> load.value <= |lines|)
    requires TameView(base) && forall l <- lines :: TameLine(l)
    ensures TamePile(k, base[k]) && TamePile(k, base[k] + Items(k, lines)) && TamePile(k, PileAfter(base, lines, load, k))
  {
    hide TamePile, TameLine, Items;
    TameItems(k, lines);
    TameAppend(k, base[k], Items(k, lines));
    if load.Some? {
      assert forall l <- lines[load.value..] :: l in lines;
      TameItems(k, lines[load.value..]);
    }
  }

  lemma PartOfPile(part: Part, k: nat)
    requires TamePile(k, part.items) && part.fmt == FormatOf(k)
    ensures TamePart(part)
  {
    hide Tame;
  }

  lemma TameByPile(p: Program.Piles)
    requires TamePile(DEFSYS, p.defsys) && TamePile(SYSS, p.syss) && TamePile(INCS, p.incs) && TamePile(TLDS, p.tlds)
    requires TamePile(TLFS, p.tlfs) && TamePile(BEFS, p.befs) && TamePile(STMS, p.stms) && TamePile(AFTS, p.afts)
    ensures TamePiles(p)
  {
    hide Tame, TamePart, TamePile;
    PartOfPile(Part("defsysinclude", p.defsys, false, INCLUDE), DEFSYS);
    PartOfPile(Part("sysinclude", p.syss, false, INCLUDE), SYSS);
    PartOfPile(Part("include", p.incs, false, INCLUDE), INCS);
    PartOfPile(Part("declarations", p.tlds, false, PLAIN), TLDS);
    PartOfPile(Part("definition", p.tlds, false, PLAIN), TLDS);
    PartOfPile(Part("toplevel", p.tlfs, false, PLAIN), TLFS);
    PartOfPile(Part("before", p.befs, false, INDENTED), BEFS);
    PartOfPile(Part("statements", p.stms, false, INDENTED), STMS);
    PartOfPile(Part("after", p.afts, true, INDENTED), AFTS);
  }

  lemma TamePilesWanted(base: View, lines: seq<string>, load: Option<nat>)
    requires (load.Some? ==> load.value <= |lines|) && TameView(base) && forall l <- lines :: TameLine(l)
    ensures TamePiles(Wanted(base, lines, load))
  {
    hide Tame, TamePile, TameView, TameLine, Items, PileAfter, TamePiles;
    TamePileAfter(base, lines, load, DEFSYS);
    TamePileAfter(base, lines, load, SYSS);
    TamePileAfter(base, lines, load, INCS);
    TamePileAfter(base, lines, load, TLDS);
    TamePileAfter(base, lines, load, TLFS);
    TamePileAfter(base, lines, load, BEFS);
    TamePileAfter(base, lines, load, STMS);
    TamePileAfter(base, lines, load, AFTS);
    TameByPile(Wanted(base, lines, load));
  }

  /** A session that starts with tame items and into which only tame ones are typed generates only programs
      whose every line is placed as intended, whatever the compiler answers. */
  lemma TameSession(s: State, lines: seq<string>, env: nat -> Env, j: nat, start: Pos)
    requires Fresh(s) && start.lex == FRESH && TameView(s.view) && forall l <- lines :: TameLine(l)
    requires var log := Session(s, lines, env).state.log; j < |log| && log[j].what.DidGenerate?
    ensures Told(s.view, lines, Session(s, lines, env).state.log)
    ensures var log := Session(s, lines, env).state.log;
      var code, w := log[j].what.code, WantedAt(s.view, lines, log, j);
      forall a: Answers :: ReadKept(Lines(code), start, Nest([], a)) == Intended(Plan(w), start.file, start.line)
  {
    hide Session, Fresh, TameView, TameLine, TamePiles, Wanted, LegiblePiles, Printed, Plan, Bare, Lines, ReadKept, Intended;
    EveryProgramIsTold(s, lines, env);
    var log := Session(s, lines, env).state.log;
    assert Tells(s.view, lines, log[..j], log[j]);
    var typed := lines[..log[j].at];
    assert forall l <- typed :: l in lines;
    TamePilesWanted(s.view, typed, LoadTime(log[..j]));
    TameIsAlwaysFaithful(WantedAt(s.view, lines, log, j), start);
  }
}
