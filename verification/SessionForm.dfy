/** A session in closed form: what every generated program holds, in terms of the typed lines alone. */
module SessionForm {
  import opened Text
  import opened Piles
  import opened Package
  import opened Emitter
  import opened Program
  import opened Generate
  import opened Flat

  // ---- the program of a line ----------------------------------------------------------------------------

  /** What a line puts on a pile. */
  function Item(line: string, k: nat): seq<string> {
    match Classify(TrimLine(line))
    case Add(p, t) => if p == k then [t] else []
    case AddAndRun(t) => if k == STMS then [t] else []
    case _ => []
  }

  /** What a sequence of lines puts on a pile, in order. */
  function Items(k: nat, lines: seq<string>): seq<string> {
    if lines == [] then [] else Items(k, lines[..|lines| - 1]) + Item(lines[|lines| - 1], k)
  }

  /** The time of the latest load, which is also the number of lines read by then. */
  function LoadTime(log: seq<Event>): Option<nat> {
    if log == [] then None
    else if log[|log| - 1].what == DidLoad then Some(log[|log| - 1].at)
    else LoadTime(log[..|log| - 1])
  }

  /** A pile after the given lines: declarations are kept for good, volatile items since the last load,
      and what the command line put there until the first load. */
  function PileAfter(base: View, lines: seq<string>, load: Option<nat>, k: nat): seq<string>
    requires k < COUNT && (load.Some? ==> load.value <= |lines|)
  {
    if Volatile(k) then
      match load
      case None => base[k] + Items(k, lines)
      case Some(n) => Items(k, lines[n..])
    else if k == TLDS then base[k] + Items(k, lines)
    else base[k]
  }

  function Wanted(base: View, lines: seq<string>, load: Option<nat>): Program.Piles
    requires load.Some? ==> load.value <= |lines|
  {
    Program.Piles(
      base[DEFSYS], base[SYSS], base[INCS], base[TLDS] + Items(TLDS, lines),
      PileAfter(base, lines, load, TLFS), PileAfter(base, lines, load, BEFS),
      PileAfter(base, lines, load, STMS), PileAfter(base, lines, load, AFTS))
  }

  /** A generated or dumped text is the program of the lines read so far, and no other. */
  predicate Tells(base: View, lines: seq<string>, before: seq<Event>, e: Event) {
    var load := LoadTime(before);
    e.at <= |lines| && (load.Some? ==> load.value <= e.at) &&
    match e.what
    case DidGenerate(code) => code == Printed(Wanted(base, lines[..e.at], load))
    case DidDump(text) => text == Bare(Plan(Wanted(base, lines[..e.at], load)))
    case _ => true
  }

  predicate Told(base: View, lines: seq<string>, log: seq<Event>) {
    forall j :: 0 <= j < |log| ==> Tells(base, lines, log[..j], log[j])
  }

  /** The piles that are printed. */
  predicate IsPrinted(k: nat) {
    k == DEFSYS || k == SYSS || k == INCS || k == TLDS || k == TLFS || k == BEFS || k == STMS || k == AFTS
  }

  predicate Shows(v: View, base: View, lines: seq<string>, load: Option<nat>) {
    (load.Some? ==> load.value <= |lines|) &&
    forall k :: 0 <= k < COUNT && IsPrinted(k) ==> v[k] == PileAfter(base, lines, load, k)
  }

  /** A loaded context is about to be chained: its volatile piles do not count any more. */
  function Effective(s: State): View {
    if Loaded in s.flag then Kept(s.view) else s.view
  }

  predicate Good(s: State, base: View, lines: seq<string>) {
    Told(base, lines, s.log) && Shows(Effective(s), base, lines, LoadTime(s.log))
  }

  lemma ShowsWanted(v: View, base: View, lines: seq<string>, load: Option<nat>)
    requires Shows(v, base, lines, load)
    ensures PilesOf(v) == Wanted(base, lines, load)
  {
    assert IsPrinted(DEFSYS) && IsPrinted(SYSS) && IsPrinted(INCS) && IsPrinted(TLDS);
    assert IsPrinted(TLFS) && IsPrinted(BEFS) && IsPrinted(STMS) && IsPrinted(AFTS);
  }

  lemma LogOne(log: seq<Event>, e: Event)
    ensures LoadTime(log + [e]) == if e.what == DidLoad then Some(e.at) else LoadTime(log)
  {
    assert (log + [e])[..|log|] == log;
  }

  /** One more event is told when it is true by itself. */
  lemma ToldOne(base: View, lines: seq<string>, log: seq<Event>, e: Event)
    requires Told(base, lines, log) && Tells(base, lines, log, e)
    ensures Told(base, lines, log + [e])
  {
    hide Tells;
    var l := log + [e];
    forall j | 0 <= j < |l| ensures Tells(base, lines, l[..j], l[j]) {
      assert l[..j] == log[..j];
      assert j == |log| ==> log[..j] == log;
    }
  }

  /** More lines leave earlier events true. */
  lemma ToldLater(base: View, lines: seq<string>, more: seq<string>, log: seq<Event>)
    requires Told(base, lines, log)
    ensures Told(base, lines + more, log)
  {
    hide Printed, Wanted, Bare, Plan;
    forall j | 0 <= j < |log| ensures Tells(base, lines + more, log[..j], log[j]) {
      assert Tells(base, lines, log[..j], log[j]);
      assert (lines + more)[..log[j].at] == lines[..log[j].at];
    }
  }

  // ---- packages touch no printed pile ----------------------------------------------------------------------

  predicate OffPrint(ps: seq<Push>) {
    forall p <- ps :: p.pile == DEFS || p.pile == INCDIRS || p.pile == LIBDIRS || p.pile == LIBS
  }

  lemma {:induction false} ParsedOffPrint(ts: seq<Token>)
    ensures OffPrint(ParseTokens(ts).pushes)
  {
    if ts != [] {
      ParsedOffPrint(ts[1..]);
    }
  }

  lemma {:induction false} PushAllOffPrint(v: View, ps: seq<Push>, k: nat)
    requires OffPrint(ps) && k < COUNT && k != DEFS && k != INCDIRS && k != LIBDIRS && k != LIBS
    ensures PushAll(v, ps)[k] == v[k]
  {
    if ps != [] {
      var n := |ps| - 1;
      assert forall p <- ps[..n] :: p in ps;
      assert ps[n] in ps;
      PushAllOffPrint(v, ps[..n], k);
    }
  }

  /** What a list of packages pushes, whatever is on the piles, and whether all of them were accepted. */
  function Contribution(names: seq<string>, env: Env): (seq<Push>, bool) {
    if names == [] then ([], true)
    else match env.package(names[0])
      case None => ([], false)
      case Some(s) =>
        var p := Parse(CPrefix(s));
        if !p.ok then (p.pushes, false)
        else var (rest, ok) := Contribution(names[1..], env); (p.pushes + rest, ok)
  }

  lemma {:induction false} PushAllAppend(v: View, a: seq<Push>, b: seq<Push>)
    ensures PushAll(v, a + b) == PushAll(PushAll(v, a), b)
  {
    if b == [] {
      assert a + b == a;
    } else {
      var n := |b| - 1;
      assert (a + b)[..|a + b| - 1] == a + b[..n];
      PushAllAppend(v, a, b[..n]);
    }
  }

  lemma {:induction false} PackagesContribute(v: View, names: seq<string>, env: Env)
    ensures var c := Contribution(names, env); var p := Packages(v, names, env);
      p.view == PushAll(v, c.0) && p.ok == c.1 && OffPrint(c.0)
    decreases names
  {
    hide Parse, OffPrint;
    NothingPushed(v);
    if names != [] {
      match env.package(names[0]) {
        case None =>
        case Some(s) =>
          var p := Parse(CPrefix(s));
          ParseOffPrint(CPrefix(s));
          if p.ok {
            PackagesContribute(PushAll(v, p.pushes), names[1..], env);
            PushAllAppend(v, p.pushes, Contribution(names[1..], env).0);
            OffPrintAppend(p.pushes, Contribution(names[1..], env).0);
          }
      }
    }
  }

  lemma ParseOffPrint(s: string)
    ensures OffPrint(Parse(s).pushes)
  {
    ParsedOffPrint(Tokens(s));
  }

  lemma OffPrintAppend(a: seq<Push>, b: seq<Push>)
    requires OffPrint(a) && OffPrint(b)
    ensures OffPrint(a + b)
  {
  }

  lemma NothingPushed(v: View)
    ensures PushAll(v, []) == v && OffPrint([])
  {
  }

  /** A preparation, successful or not, leaves every pile but the four package piles alone. */
  lemma PrepareKeeps(v: View, out: bool, env: Env, k: nat)
    requires k < COUNT && k != DEFS && k != INCDIRS && k != LIBDIRS && k != LIBS
    ensures Prepare(v, out, env).view[k] == v[k]
  {
    hide OffPrint, Packages, Contribution, Offer, Paths, Options;
    PackagesContribute(v, v[PKGS], env);
    PushAllOffPrint(v, Contribution(v[PKGS], env).0, k);
  }

  // ---- every step keeps the closed form ---------------------------------------------------------------------

  lemma {:induction false} MoreItems(k: nat, lines: seq<string>, line: string)
    ensures Items(k, lines + [line]) == Items(k, lines) + Item(line, k)
  {
    assert (lines + [line])[..|lines + [line]| - 1] == lines;
  }

  /** One more line extends a pile by its own items. */
  lemma PileGrows(base: View, lines: seq<string>, line: string, load: Option<nat>, k: nat)
    requires k < COUNT && (load.Some? ==> load.value <= |lines|)
    ensures PileAfter(base, lines + [line], load, k)
         == PileAfter(base, lines, load, k) + if Volatile(k) || k == TLDS then Item(line, k) else []
  {
    hide Item;
    MoreItems(k, lines, line);
    if load.Some? {
      assert (lines + [line])[load.value..] == lines[load.value..] + [line];
      MoreItems(k, lines[load.value..], line);
    }
    assert base[k] + Items(k, lines) + Item(line, k) == base[k] + (Items(k, lines) + Item(line, k));
  }

  /** A step that generates, dumps or loads nothing. */
  lemma LogQuietly(s: State, t: State, base: View, lines: seq<string>, what: What)
    requires Good(s, base, lines) && Effective(t) == Effective(s) && t.log == s.log + [Event(|lines|, s.Index(), what)]
    requires what.DidPrepare? || what.DidCompile? || what.DidExecute?
    ensures Good(t, base, lines)
  {
    hide Wanted, Printed, Bare, Plan;
    LogOne(s.log, Event(|lines|, s.Index(), what));
    ToldOne(base, lines, s.log, Event(|lines|, s.Index(), what));
  }

  /** Loading empties what counts of the volatile piles. */
  lemma LogLoad(s: State, t: State, base: View, lines: seq<string>)
    requires Good(s, base, lines) && Loaded !in s.flag && Loaded in t.flag && t.view == s.view
    requires t.log == s.log + [Event(|lines|, s.Index(), DidLoad)]
    ensures Good(t, base, lines)
  {
    hide Wanted, Printed, Bare, Plan;
    var e := Event(|lines|, s.Index(), DidLoad);
    LogOne(s.log, e);
    ToldOne(base, lines, s.log, e);
    forall k | 0 <= k < COUNT && IsPrinted(k) ensures Kept(s.view)[k] == PileAfter(base, lines, Some(|lines|), k) {
      assert lines[|lines|..] == [];
      assert s.view[k] == PileAfter(base, lines, LoadTime(s.log), k);
    }
  }

  /** The program that is generated or dumped is the one that is wanted. */
  lemma LogText(s: State, t: State, base: View, lines: seq<string>, what: What)
    requires Good(s, base, lines) && Loaded !in s.flag && Loaded !in t.flag && t.view == s.view
    requires t.log == s.log + [Event(|lines|, s.Index(), what)]
    requires what == DidGenerate(Printed(PilesOf(s.view))) || what == DidDump(Bare(Plan(PilesOf(s.view))))
    ensures Good(t, base, lines)
  {
    hide Wanted, Printed, Bare, Plan;
    var e := Event(|lines|, s.Index(), what);
    LogOne(s.log, e);
    ShowsWanted(s.view, base, lines, LoadTime(s.log));
    assert lines[..|lines|] == lines;
    ToldOne(base, lines, s.log, e);
  }

  lemma ExecuteGood(s: State, env: Env, base: View, lines: seq<string>)
    requires Good(s, base, lines)
    ensures Good(Execute(s, env, |lines|).0, base, lines)
  {
    hide Good, Kept;
    if NoRun !in s.flag {
      LogQuietly(s, s.(flag := s.flag + {Executed}).Logged(|lines|, DidExecute), base, lines, DidExecute);
      LogQuietly(s, s.(flag := s.flag + {Executed, Finished}).Logged(|lines|, DidExecute), base, lines, DidExecute);
      assert s.flag + {Executed} + {Finished} == s.flag + {Executed, Finished};
    }
  }

  lemma OtherTables(s: State, base: View, lines: seq<string>, tables: seq<set<string>>)
    requires Good(s, base, lines) && tables != []
    ensures Good(s.(tables := tables), base, lines)
  {
  }

  lemma CompileGood(s: State, env: Env, base: View, lines: seq<string>)
    requires Good(s, base, lines) && Loaded !in s.flag
    ensures Good(Compile(s, env, |lines|).0, base, lines)
  {
    hide Good, Kept, Carried;
    var i := s.Index();
    var own := s.tables[i] + env.defines;
    if !env.compiles {
      OtherTables(s, base, lines, s.tables[i := own]);
    } else {
      var names := own + if i > 0 then Carried(s.tables[i - 1]) else {};
      var s0 := s.(tables := s.tables[i := names]);
      OtherTables(s, base, lines, s.tables[i := names]);
      var s1 := s0.(flag := s.flag + {Compiled}).Logged(|lines|, DidCompile);
      LogQuietly(s0, s1, base, lines, DidCompile);
      if !s.out {
        LogLoad(s1, s1.(flag := s1.flag + {Loaded}).Logged(|lines|, DidLoad), base, lines);
      }
    }
  }

  lemma BuildGood(s: State, env: Env, base: View, lines: seq<string>)
    requires Good(s, base, lines) && Loaded !in s.flag
    ensures Good(Build(s, env, |lines|).0, base, lines)
  {
    hide Good, Kept, Compile, Execute, Printed, PilesOf;
    if Compiled in s.flag {
      ExecuteGood(s, env, base, lines);
    } else {
      var what := DidGenerate(Printed(PilesOf(s.view)));
      var s1 := s.(flag := s.flag + {Generated}).Logged(|lines|, what);
      LogText(s, s1, base, lines, what);
      CompileGood(s1, env, base, lines);
      ExecuteGood(Compile(s1, env, |lines|).0, env, base, lines);
    }
  }

  /** A view that differs in unprinted piles only. */
  lemma OtherPiles(s: State, v: View, base: View, lines: seq<string>)
    requires Good(s, base, lines) && Loaded !in s.flag && forall k :: 0 <= k < COUNT && IsPrinted(k) ==> v[k] == s.view[k]
    ensures Good(s.(view := v), base, lines)
  {
  }

  lemma RunGood(s: State, env: Env, base: View, lines: seq<string>)
    requires Good(s, base, lines) && Loaded !in s.flag
    ensures Good(Run(s, env, |lines|).0, base, lines)
  {
    hide Good, Kept, Prepare, Build;
    if Prepared in s.flag {
      BuildGood(s, env, base, lines);
    } else {
      var p := Prepare(s.view, s.out, env);
      forall k | 0 <= k < COUNT && IsPrinted(k) ensures p.view[k] == s.view[k] {
        PrepareKeeps(s.view, s.out, env, k);
      }
      OtherPiles(s, p.view, base, lines);
      var what := DidPrepare(p.calls, p.ok);
      var s1 := s.(view := p.view, flag := s.flag + {Prepared}).Logged(|lines|, what);
      LogQuietly(s.(view := p.view), s1, base, lines, what);
      if p.ok {
        BuildGood(s1, env, base, lines);
      }
    }
  }

  /** What reading one more line does to the piles is exactly what its prefix says. */
  lemma PushGood(s: State, base: View, lines: seq<string>, line: string)
    requires Good(s, base, lines) && Loaded !in s.flag
    ensures var i := Classify(TrimLine(line)); var more := lines + [line];
      match i
      case Add(k, t) => Good(s.(view := Pushed(s.view, k, t)), base, more)
      case AddAndRun(t) => Good(s.(view := Pushed(s.view, STMS, t)), base, more)
      case _ => Good(s, base, more)
  {
    hide Tells, TrimLine, Told, PileAfter;
    var i := Classify(TrimLine(line));
    var load := LoadTime(s.log);
    ToldLater(base, lines, [line], s.log);
    var v: View := match i
      case Add(k, t) => Pushed(s.view, k, t)
      case AddAndRun(t) => Pushed(s.view, STMS, t)
      case _ => s.view;
    assert i.Add? ==> i.pile == TLDS || Volatile(i.pile);
    forall k | 0 <= k < COUNT && IsPrinted(k) ensures v[k] == PileAfter(base, lines + [line], load, k) {
      PileGrows(base, lines, line, load, k);
      assert s.view[k] == PileAfter(base, lines, load, k);
      assert v[k] == s.view[k] + Item(line, k);
    }
    assert Shows(v, base, lines + [line], load);
  }

  lemma CommandGood(s: State, line: string, env: Env, base: View, lines: seq<string>)
    requires Good(s, base, lines) && Loaded !in s.flag
    ensures Good(Command(s, line, env, |lines| + 1).0, base, lines + [line])
  {
    hide Good, Run, TrimLine, Classify, Pushed, Printed, Bare, Plan, PilesOf;
    var more := lines + [line];
    PushGood(s, base, lines, line);
    match Classify(TrimLine(line)) {
      case Nothing =>
      case Inner(rest) =>
        var what := DidDump(Bare(Plan(PilesOf(s.view))));
        LogText(s, s.(flag := s.flag + {Generated}).Logged(|more|, what), base, more, what);
      case Add(k, t) =>
      case AddAndRun(t) => RunGood(s.(view := Pushed(s.view, STMS, t)), env, base, more);
      case JustRun => RunGood(s, env, base, more);
    }
  }

  lemma TurnGood(s: State, line: string, env: Env, base: View, lines: seq<string>)
    requires Good(s, base, lines)
    ensures Good(Turn(s, line, env, |lines| + 1).0, base, lines + [line])
  {
    hide Good, Command, Chain, TrimLine, Classify;
    var s1 := if Loaded in s.flag then Chain(s) else s;
    if Loaded in s.flag {
      ChainGood(s, base, lines);
    }
    if line != "" {
      CommandGood(s1, line, env, base, lines);
    } else {
      EmptyLine();
      PushGood(s1, base, lines, line);
    }
  }

  lemma ChainGood(s: State, base: View, lines: seq<string>)
    requires Good(s, base, lines) && Loaded in s.flag
    ensures Good(Chain(s), base, lines) && Loaded !in Chain(s).flag
  {
  }

  lemma EmptyLine()
    ensures Classify(TrimLine("")) == Nothing
  {
  }

  lemma {:induction false} InteractGood(s: State, lines: seq<string>, env: nat -> Env, base: View)
    requires Good(s, base, [])
    ensures var p := Interact(s, lines, env);
      Told(base, lines, p.state.log) && (p.ret == 0 ==> Good(p.state, base, lines))
  {
    hide Turn, Tells, Effective, Shows;
    if lines != [] {
      var n := |lines|;
      InteractGood(s, lines[..n - 1], env, base);
      var p := Interact(s, lines[..n - 1], env);
      assert lines[..n - 1] + [lines[n - 1]] == lines;
      if p.ret != 0 {
        ToldLater(base, lines[..n - 1], [lines[n - 1]], p.state.log);
      } else {
        TurnGood(p.state, lines[n - 1], env(n), base, lines[..n - 1]);
      }
    }
  }

  lemma BeginGood(s: State, env: nat -> Env)
    requires Fresh(s)
    ensures Good(Begin(s, env).state, s.view, [])
  {
    assert Good(s, s.view, []) by {
      forall k | 0 <= k < COUNT && IsPrinted(k) ensures s.view[k] == PileAfter(s.view, [], None, k) {
        assert s.view[k] + [] == s.view[k];
      }
    }
    hide Good, Run;
    RunGood(s, env(0), s.view, []);
  }

  lemma GoodIsTold(s: State, base: View)
    requires Good(s, base, [])
    ensures Told(base, [], s.log)
  {
  }

  /** Over every session, whatever is typed and however the world answers, every program that is
      generated, and every dump, holds the fixed includes, the declarations of all lines so far (emitted
      twice), and the volatile items typed since the latest load. */
  lemma EveryProgramIsTold(s: State, lines: seq<string>, env: nat -> Env)
    requires Fresh(s)
    ensures Told(s.view, lines, Session(s, lines, env).state.log)
  {
    hide Good, Told, Interact, Begin;
    BeginGood(s, env);
    InteractGood(Begin(s, env).state, lines, env, s.view);
    GoodIsTold(Begin(s, env).state, s.view);
    ToldLater(s.view, [], lines, Begin(s, env).state.log);
    assert [] + lines == lines;
  }
}
