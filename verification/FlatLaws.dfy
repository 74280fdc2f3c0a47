/** What holds of every session, whatever is typed and however the world answers. */
module FlatLaws {
  import opened Piles
  import opened Package
  import opened Emitter
  import opened Program
  import opened Generate
  import opened Flat

  // ---- lifecycle -----------------------------------------------------------------------------------------

  datatype Phase = Preparing | Compiling | Loading | Executing | Other

  function PhaseOf(w: What): Phase {
    match w
    case DidPrepare(_, _) => Preparing
    case DidCompile => Compiling
    case DidLoad => Loading
    case DidExecute => Executing
    case _ => Other
  }

  function FlagOf(p: Phase): Flag
    requires p != Other
  {
    match p
    case Preparing => Prepared
    case Compiling => Compiled
    case Loading => Loaded
    case Executing => Executed
  }

  /** The flags of a context, with an output file or without, tell its phases in order. */
  predicate Ordered(flag: set<Flag>, out: bool) {
    (Finished in flag ==> Executed in flag) && (Executed in flag ==> Compiled in flag) &&
    (Compiled in flag ==> Prepared in flag) && (Loaded in flag <==> Compiled in flag && !out) &&
    (out ==> NoRun in flag)
  }

  predicate Lifecycle(s: State) {
    Ordered(s.flag, s.out)
  }

  predicate Noted(s: State, e: Event) {
    e.ctx <= s.Index() && (e.ctx == s.Index() && PhaseOf(e.what) != Other ==> FlagOf(PhaseOf(e.what)) in s.flag)
  }

  /** No context has gone through the same phase twice. */
  predicate OncePerContext(log: seq<Event>) {
    forall i, j :: 0 <= i < j < |log| && log[i].ctx == log[j].ctx && PhaseOf(log[i].what) == PhaseOf(log[j].what) ==>
      PhaseOf(log[j].what) == Other
  }

  predicate Once(s: State) {
    OncePerContext(s.log) && forall i :: 0 <= i < |s.log| ==> Noted(s, s.log[i])
  }

  /** Entering a phase whose flag is not set yet keeps the log free of repetitions. */
  lemma EnterPhase(s: State, flag: set<Flag>, at: nat, what: What)
    requires Once(s) && s.flag <= flag
    requires PhaseOf(what) != Other ==> FlagOf(PhaseOf(what)) !in s.flag && FlagOf(PhaseOf(what)) in flag
    ensures Once(s.(flag := flag).Logged(at, what))
  {
    var t := s.(flag := flag).Logged(at, what);
    forall i | 0 <= i < |t.log| ensures Noted(t, t.log[i]) {
      assert i < |s.log| ==> Noted(s, s.log[i]);
    }
    forall i, j | 0 <= i < j < |t.log| && t.log[i].ctx == t.log[j].ctx && PhaseOf(t.log[i].what) == PhaseOf(t.log[j].what)
      ensures PhaseOf(t.log[j].what) == Other
    {
      assert Noted(s, s.log[i]);
    }
  }

  lemma MoreFlags(s: State, flag: set<Flag>)
    requires Once(s) && s.flag <= flag
    ensures Once(s.(flag := flag))
  {
    forall i | 0 <= i < |s.log| ensures Noted(s.(flag := flag), s.log[i]) {
      assert Noted(s, s.log[i]);
    }
  }

  lemma OtherFields(s: State, view: View, tables: seq<set<string>>)
    requires Once(s) && |tables| == |s.tables|
    ensures Once(s.(view := view, tables := tables))
  {
    var t := s.(view := view, tables := tables);
    forall i | 0 <= i < |t.log| ensures Noted(t, t.log[i]) {
      assert Noted(s, s.log[i]);
    }
  }

  predicate Sane(s: State) {
    Lifecycle(s) && Once(s)
  }

  lemma ExecuteSane(s: State, env: Env, at: nat)
    requires Sane(s) && ((Executed !in s.flag && Compiled in s.flag) || NoRun in s.flag)
    ensures Sane(Execute(s, env, at).0)
  {
    if NoRun !in s.flag {
      EnterPhase(s, s.flag + {Executed}, at, DidExecute);
      var s1 := s.(flag := s.flag + {Executed}).Logged(at, DidExecute);
      MoreFlags(s1, s1.flag + {Finished});
    }
  }

  lemma CompileSane(s: State, env: Env, at: nat)
    requires Sane(s) && Prepared in s.flag && Compiled !in s.flag
    ensures var (t, bad) := Compile(s, env, at);
      Sane(t) && t.flag - {Compiled, Loaded} == s.flag - {Compiled, Loaded} && (bad == 0 ==> Compiled in t.flag)
  {
    var i := s.Index();
    var own := s.tables[i] + env.defines;
    if !env.compiles {
      OtherFields(s, s.view, s.tables[i := own]);
    } else {
      var tables := s.tables[i := own + if i > 0 then Carried(s.tables[i - 1]) else {}];
      var s0 := s.(tables := tables);
      OtherFields(s, s.view, tables);
      EnterPhase(s0, s.flag + {Compiled}, at, DidCompile);
      var s1 := s0.(flag := s.flag + {Compiled}).Logged(at, DidCompile);
      if !s.out {
        EnterPhase(s1, s1.flag + {Loaded}, at, DidLoad);
      }
    }
  }

  lemma BuildSane(s: State, env: Env, at: nat)
    requires Sane(s) && Prepared in s.flag && Loaded !in s.flag
    ensures Sane(Build(s, env, at).0)
  {
    hide Once, Printed, PilesOf;
    if Compiled in s.flag {
      ExecuteSane(s, env, at);
    } else {
      var what := DidGenerate(Printed(PilesOf(s.view)));
      EnterPhase(s, s.flag + {Generated}, at, what);
      var s1 := s.(flag := s.flag + {Generated}).Logged(at, what);
      CompileSane(s1, env, at);
      if Compile(s1, env, at).1 == 0 {
        ExecuteSane(Compile(s1, env, at).0, env, at);
      }
    }
  }

  lemma RunSane(s: State, env: Env, at: nat)
    requires Sane(s) && Loaded !in s.flag
    ensures Sane(Run(s, env, at).0)
  {
    hide Once, Build, Prepare;
    if Prepared in s.flag {
      BuildSane(s, env, at);
    } else {
      var p := Prepare(s.view, s.out, env);
      var s0 := s.(view := p.view);
      OtherFields(s, p.view, s.tables);
      EnterPhase(s0, s.flag + {Prepared}, at, DidPrepare(p.calls, p.ok));
      if p.ok {
        BuildSane(s0.(flag := s.flag + {Prepared}).Logged(at, DidPrepare(p.calls, p.ok)), env, at);
      }
    }
  }

  lemma ChainSane(s: State)
    requires Sane(s) && Loaded in s.flag
    ensures Sane(Chain(s)) && Loaded !in Chain(s).flag
  {
    var t := Chain(s);
    forall i | 0 <= i < |t.log| ensures Noted(t, t.log[i]) {
      assert Noted(s, s.log[i]);
    }
  }

  lemma CommandSane(s: State, line: string, env: Env, at: nat)
    requires Sane(s) && Loaded !in s.flag
    ensures Sane(Command(s, line, env, at).0)
  {
    hide Once, Run, Printed, PilesOf, Plan, Bare, TrimLine, Classify;
    match Classify(TrimLine(line)) {
      case Nothing =>
      case Inner(rest) =>
        EnterPhase(s, s.flag + {Generated}, at, DidDump(Bare(Plan(PilesOf(s.view)))));
      case Add(k, t) => OtherFields(s, Pushed(s.view, k, t), s.tables);
      case AddAndRun(t) =>
        OtherFields(s, Pushed(s.view, STMS, t), s.tables);
        RunSane(s.(view := Pushed(s.view, STMS, t)), env, at);
      case JustRun => RunSane(s, env, at);
    }
  }

  lemma TurnSane(s: State, line: string, env: Env, at: nat)
    requires Sane(s)
    ensures Sane(Turn(s, line, env, at).0)
  {
    hide Sane, Command, Chain;
    var s1 := if Loaded in s.flag then Chain(s) else s;
    if Loaded in s.flag {
      ChainSane(s);
    }
    if line != "" {
      CommandSane(s1, line, env, at);
    }
  }

  lemma {:induction false} InteractSane(s: State, lines: seq<string>, env: nat -> Env)
    requires Sane(s)
    ensures Sane(Interact(s, lines, env).state)
  {
    hide Sane, Turn;
    if lines != [] {
      var n := |lines|;
      InteractSane(s, lines[..n - 1], env);
      TurnSane(Interact(s, lines[..n - 1], env).state, lines[n - 1], env(n), n);
    }
  }

  lemma BeginSane(s: State, env: nat -> Env)
    requires Fresh(s)
    ensures Sane(Begin(s, env).state)
  {
    RunSane(s, env(0), 0);
  }

  /** In every reachable state the phase flags are in order, LOADED means compiled to memory, and over
      the whole session every context is prepared, compiled, loaded and executed at most once. */
  lemma PhasesInOrderAndOnce(s: State, lines: seq<string>, env: nat -> Env)
    requires Fresh(s)
    ensures Lifecycle(Session(s, lines, env).state) && OncePerContext(Session(s, lines, env).state.log)
  {
    BeginSane(s, env);
    InteractSane(Begin(s, env).state, lines, env);
  }

  // ---- when a run gets how far -----------------------------------------------------------------------------

  function Kinds(log: seq<Event>): seq<Phase> {
    seq(|log|, i requires 0 <= i < |log| => PhaseOf(log[i].what))
  }

  /** The preparation that a run needs has been made already or succeeds now. */
  predicate Ready(s: State, env: Env) {
    Prepared in s.flag || Prepare(s.view, s.out, env).ok
  }

  lemma KindsMore(log: seq<Event>, a: seq<Event>, b: seq<Event>)
    ensures Kinds((log + a + b)[|log|..]) == Kinds(a) + Kinds(b)
  {
    assert (log + a + b)[|log|..] == a + b;
  }

  /** What happens behind a preparation when the program has not been compiled yet. */
  function StepsBehind(s: State, env: Env): seq<Phase> {
    if !env.compiles then [Other]
    else [Other, Compiling] + (if s.out then [] else [Loading]) + if NoRun in s.flag then [] else [Executing]
  }

  lemma CompileReaches(s: State, env: Env, at: nat)
    requires Loaded !in s.flag
    ensures var t, i := Compile(s, env, at).0, s.Index();
      (Loaded in t.flag <==> env.compiles && !s.out) &&
      (forall f :: f != Compiled && f != Loaded ==> (f in t.flag <==> f in s.flag)) &&
      |t.tables| == |s.tables| && (Compile(s, env, at).1 == 0 ==> env.compiles) &&
      (env.compiles && Compile(s, env, at).1 != 0 ==> s.out) &&
      t.log == s.log + if !env.compiles then []
                       else [Event(at, i, DidCompile)] + if s.out then [] else [Event(at, i, DidLoad)]
  {
    hide Carried;
  }

  lemma ExecuteReaches(s: State, env: Env, at: nat)
    ensures var t := Execute(s, env, at).0;
      t.log == s.log + (if NoRun in s.flag then [] else [Event(at, s.Index(), DidExecute)]) &&
      forall f :: f != Executed && f != Finished ==> (f in t.flag <==> f in s.flag)
  {
  }

  lemma BuildReaches(s: State, env: Env, at: nat)
    requires Compiled !in s.flag && Loaded !in s.flag && (s.out ==> NoRun in s.flag)
    ensures var t := Build(s, env, at).0;
      (Loaded in t.flag <==> env.compiles && !s.out) && Generated in t.flag && s.log <= t.log &&
      Kinds(t.log[|s.log|..]) == StepsBehind(s, env)
  {
    hide Printed, PilesOf, Compile, Execute, StepsBehind, Kinds, PhaseOf;
    var i, what := s.Index(), DidGenerate(Printed(PilesOf(s.view)));
    var s1 := s.(flag := s.flag + {Generated}).Logged(at, what);
    CompileReaches(s1, env, at);
    var (s2, bad) := Compile(s1, env, at);
    ExecuteReaches(s2, env, at);
    var t := Build(s, env, at).0;
    var c := if !env.compiles then [] else [Event(at, i, DidCompile)] + if s.out then [] else [Event(at, i, DidLoad)];
    var e := if bad != 0 || NoRun in s.flag then [] else [Event(at, i, DidExecute)];
    assert t.log == s.log + ([Event(at, i, what)] + c) + e;
    KindsMore(s.log, [Event(at, i, what)] + c, e);
    KindsOfSteps(s, env, at, i, what, c, e);
  }

  lemma KindsOfSteps(s: State, env: Env, at: nat, i: nat, what: What, c: seq<Event>, e: seq<Event>)
    requires what.DidGenerate?
    requires c == if !env.compiles then [] else [Event(at, i, DidCompile)] + if s.out then [] else [Event(at, i, DidLoad)]
    requires e == if !env.compiles || NoRun in s.flag then [] else [Event(at, i, DidExecute)]
    ensures Kinds([Event(at, i, what)] + c) + Kinds(e) == StepsBehind(s, env)
  {
  }

  /** A run of a context that is not loaded generates and compiles exactly when its preparation is behind
      it and it has not been compiled to a file before, loads exactly when the program compiles to memory,
      and only then executes. */
  lemma RunReaches(s: State, env: Env, at: nat)
    requires Lifecycle(s) && Loaded !in s.flag
    ensures var t := Run(s, env, at).0;
      (Loaded in t.flag <==> !s.out && Ready(s, env) && env.compiles) &&
      (Generated in t.flag <==> Generated in s.flag || (Compiled !in s.flag && Ready(s, env))) &&
      s.log <= t.log && Kinds(t.log[|s.log|..]) ==
        (if Prepared in s.flag then [] else [Preparing]) +
        if Compiled in s.flag || !Ready(s, env) then [] else StepsBehind(s, env)
  {
    hide Prepare, Build, StepsBehind;
    if Compiled in s.flag {
      CompiledRuns(s, env, at);
    } else if Prepared in s.flag {
      BuildReaches(s, env, at);
    } else {
      var p := Prepare(s.view, s.out, env);
      var e := Event(at, s.Index(), DidPrepare(p.calls, p.ok));
      var s1 := s.(view := p.view, flag := s.flag + {Prepared}).Logged(at, DidPrepare(p.calls, p.ok));
      if p.ok {
        BuildReaches(s1, env, at);
        SameSteps(s, s1, env);
        var t := Build(s1, env, at).0;
        var more := t.log[|s1.log|..];
        assert t.log == s.log + [e] + more;
        KindsMore(s.log, [e], more);
      } else {
        assert s1.log == s.log + [e] + [];
        KindsMore(s.log, [e], []);
      }
    }
  }

  lemma SameSteps(s: State, t: State, env: Env)
    requires s.out == t.out && (NoRun in s.flag <==> NoRun in t.flag)
    ensures StepsBehind(s, env) == StepsBehind(t, env)
  {
  }

  /** What has been compiled to a file is neither run nor compiled again. */
  lemma CompiledRuns(s: State, env: Env, at: nat)
    requires Lifecycle(s) && Loaded !in s.flag && Compiled in s.flag
    ensures Run(s, env, at) == (s, 0)
  {
  }

  /** A run never touches the flags of the command line. */
  lemma RunKeepsOptions(s: State, env: Env, at: nat)
    ensures forall f :: f !in PHASES && f != Generated ==> (f in Run(s, env, at).0.flag <==> f in s.flag)
  {
    hide Prepare, Build;
    if Prepared in s.flag {
      BuildKeepsOptions(s, env, at);
    } else {
      var p := Prepare(s.view, s.out, env);
      BuildKeepsOptions(s.(view := p.view, flag := s.flag + {Prepared}).Logged(at, DidPrepare(p.calls, p.ok)), env, at);
    }
  }

  lemma BuildKeepsOptions(s: State, env: Env, at: nat)
    ensures forall f :: f !in PHASES && f != Generated ==> (f in Build(s, env, at).0.flag <==> f in s.flag)
  {
    hide Printed, PilesOf, Compile, Execute;
    var s1 := s.(flag := s.flag + {Generated}).Logged(at, DidGenerate(Printed(PilesOf(s.view))));
    CompileKeepsOptions(s1, env, at);
    ExecuteReaches(s, env, at);
    ExecuteReaches(Compile(s1, env, at).0, env, at);
  }

  lemma CompileKeepsOptions(s: State, env: Env, at: nat)
    ensures forall f :: f !in PHASES ==> (f in Compile(s, env, at).0.flag <==> f in s.flag)
  {
    hide Carried;
  }

  // ---- symbols ---------------------------------------------------------------------------------------------

  /** Every name of an earlier context that passes the filter is known in each later loaded context. */
  predicate Visible(s: State) {
    forall i, j :: 0 <= i < j < |s.tables| && (j < s.Index() || Loaded in s.flag) ==> Carried(s.tables[i]) <= s.tables[j]
  }

  lemma CompileVisible(s: State, env: Env, at: nat)
    requires Visible(s) && Loaded !in s.flag
    requires forall i :: 0 <= i < s.Index() ==> Carried(s.tables[i]) <= Carried(s.tables[s.Index() - 1])
    ensures var t := Compile(s, env, at).0; Visible(t) && |t.tables| == |s.tables| && t.tables[..s.Index()] == s.tables[..s.Index()]
  {
    var t, z := Compile(s, env, at).0, s.Index();
    forall i, j | 0 <= i < j < |t.tables| && (j < z || Loaded in t.flag) ensures Carried(t.tables[i]) <= t.tables[j] {
      assert t.tables[i] == s.tables[i];
      if j == z {
        assert Carried(s.tables[i]) <= Carried(s.tables[z - 1]) <= t.tables[z];
      }
    }
  }

  /** Carrying over from the direct predecessor carries over from all: what passes once passes again. */
  lemma CarriedThrough(s: State)
    requires Visible(s)
    ensures forall i :: 0 <= i < s.Index() ==> Carried(s.tables[i]) <= Carried(s.tables[s.Index() - 1])
  {
    var z := s.Index();
    forall i | 0 <= i < z ensures Carried(s.tables[i]) <= Carried(s.tables[z - 1]) {
      if i < z - 1 {
        assert Carried(s.tables[i]) <= s.tables[z - 1];
      }
    }
  }

  lemma BuildVisible(s: State, env: Env, at: nat)
    requires Visible(s) && Loaded !in s.flag
    ensures Visible(Build(s, env, at).0)
  {
    hide Printed, PilesOf, Compile, Carried;
    if Compiled !in s.flag {
      var s1 := s.(flag := s.flag + {Generated}).Logged(at, DidGenerate(Printed(PilesOf(s.view))));
      CarriedThrough(s1);
      CompileVisible(s1, env, at);
      var (s2, bad) := Compile(s1, env, at);
      ExecuteVisible(s2, env, at);
    } else {
      ExecuteVisible(s, env, at);
    }
  }

  lemma ExecuteVisible(s: State, env: Env, at: nat)
    requires Visible(s)
    ensures Visible(Execute(s, env, at).0)
  {
  }

  lemma RunVisible(s: State, env: Env, at: nat)
    requires Visible(s) && Loaded !in s.flag
    ensures Visible(Run(s, env, at).0)
  {
    hide Prepare, Build, Carried;
    if Prepared in s.flag {
      BuildVisible(s, env, at);
    } else {
      var p := Prepare(s.view, s.out, env);
      var s1 := s.(view := p.view, flag := s.flag + {Prepared}).Logged(at, DidPrepare(p.calls, p.ok));
      if p.ok {
        BuildVisible(s1, env, at);
      }
    }
  }

  lemma TurnVisible(s: State, line: string, env: Env, at: nat)
    requires Visible(s) && Lifecycle(s)
    ensures Visible(Turn(s, line, env, at).0)
  {
    hide Run, Printed, PilesOf, Plan, Bare, TrimLine, Classify;
    var s1 := if Loaded in s.flag then Chain(s) else s;
    assert Visible(s1) by {
      forall i, j | 0 <= i < j < |s1.tables| && j < s1.Index() ensures Carried(s1.tables[i]) <= s1.tables[j] {
        assert s1.tables[i] == s.tables[i] && s1.tables[j] == s.tables[j];
      }
    }
    match Classify(TrimLine(line)) {
      case Nothing =>
      case Inner(rest) =>
      case Add(k, t) =>
      case AddAndRun(t) => RunVisible(s1.(view := Pushed(s1.view, STMS, t)), env, at);
      case JustRun => RunVisible(s1, env, at);
    }
  }

  lemma {:induction false} InteractVisible(s: State, lines: seq<string>, env: nat -> Env)
    requires Visible(s) && Sane(s)
    ensures Visible(Interact(s, lines, env).state)
  {
    hide Once, Visible, Turn;
    if lines != [] {
      var n := |lines|;
      InteractVisible(s, lines[..n - 1], env);
      InteractSane(s, lines[..n - 1], env);
      TurnVisible(Interact(s, lines[..n - 1], env).state, lines[n - 1], env(n), n);
    }
  }

  /** Symbol visibility is transitive over the whole session, although each compilation copies from its
      direct predecessor only. */
  lemma SymbolsStayVisible(s: State, lines: seq<string>, env: nat -> Env)
    requires Fresh(s)
    ensures Visible(Session(s, lines, env).state)
  {
    BeginSane(s, env);
    RunVisible(s, env(0), 0);
    InteractVisible(Begin(s, env).state, lines, env);
  }
}
