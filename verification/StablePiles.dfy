/** What packages do to the stable piles of a chain: every preparation appends the same flags once more,
    so the settings that reach the compiler never change. */
module StablePiles {
  import opened Text
  import opened Piles
  import opened Package
  import opened Compiler
  import opened Emitter
  import opened Program
  import opened Generate
  import opened Flat
  import opened SessionForm

  /** What a list of appends leaves on one pile. */
  function OnPile(ps: seq<Push>, k: nat): seq<string> {
    if ps == [] then []
    else
      var n := |ps| - 1;
      OnPile(ps[..n], k) + if ps[n].pile == k then [ps[n].text] else []
  }

  function Repeat(xs: seq<string>, n: nat): seq<string> {
    if n == 0 then [] else Repeat(xs, n - 1) + xs
  }

  /** How many preparations there were. */
  function Prepares(log: seq<Event>): nat {
    if log == [] then 0
    else Prepares(log[..|log| - 1]) + if log[|log| - 1].what.DidPrepare? then 1 else 0
  }

  /** The calls that set options and paths; the output type and the source files are left aside. */
  function Settings(calls: seq<Call>): set<Call> {
    set c <- calls | !c.SetOutput? && !c.AddFile?
  }

  /** The settings of a successful preparation of the base context. */
  function Expected(base: View, env: Env): set<Call> {
    var p := Packages(base, base[PKGS], env);
    Settings([SetOptions("-Wall")] + p.calls + Options(p.view) + Paths(p.view))
  }

  /** The packages answer as they did at the start, and the compiler takes its output type. */
  predicate SameWorld(names: seq<string>, env: Env, first: Env) {
    (forall n <- names :: env.package(n) == first.package(n)) && forall m :: env.accepts([], SetOutput(m))
  }

  predicate Steady(s: State, base: View, env: Env) {
    Copies(s.view, base, Contribution(base[PKGS], env).0, Prepares(s.log)) &&
    forall e <- s.log :: e.what.DidPrepare? && e.what.ok ==> Settings(e.what.calls) == Expected(base, env)
  }

  lemma {:induction false} PushAllOnPile(v: View, ps: seq<Push>, k: nat)
    requires k < COUNT
    ensures PushAll(v, ps)[k] == v[k] + OnPile(ps, k)
  {
    if ps != [] {
      PushAllOnPile(v, ps[..|ps| - 1], k);
    }
  }

  lemma {:induction false} NothingOnPile(ps: seq<Push>, k: nat)
    requires OffPrint(ps) && k != DEFS && k != INCDIRS && k != LIBDIRS && k != LIBS
    ensures OnPile(ps, k) == []
  {
    if ps != [] {
      assert ps[|ps| - 1] in ps;
      NothingOnPile(ps[..|ps| - 1], k);
    }
  }

  lemma {:induction false} RepeatNothing(n: nat)
    ensures Repeat([], n) == []
  {
    if n > 0 {
      RepeatNothing(n - 1);
    }
  }

  /** Copies after the first bring in nothing new. */
  lemma {:induction false} RepeatMembers(xs: seq<string>, n: nat)
    requires n > 0
    ensures forall x :: x in Repeat(xs, n) <==> x in xs
  {
    if n > 1 {
      RepeatMembers(xs, n - 1);
    } else {
      assert Repeat(xs, 1) == Repeat(xs, 0) + xs == xs;
    }
  }

  /** The calls of the package loop depend on the packages alone. */
  lemma {:induction false} SamePackages(v: View, w: View, names: seq<string>, env: Env, first: Env)
    requires SameWorld(names, env, first)
    ensures Packages(v, names, env).calls == Packages(w, names, first).calls
    ensures Contribution(names, env) == Contribution(names, first)
    decreases names
  {
    if names != [] {
      assert names[0] in names && forall n <- names[1..] :: n in names;
      match env.package(names[0]) {
        case None =>
        case Some(t) =>
          var ps := Parse(CPrefix(t)).pushes;
          SamePackages(PushAll(v, ps), PushAll(w, ps), names[1..], env, first);
      }
    }
  }

  /** Two views with the same members on the piles that become settings. */
  ghost predicate Alike(v: View, w: View) {
    forall k: nat :: k == DEFDEF || k == DEFS || k == SYSDIRS || k == INCDIRS || k == LIBDIRS || k == LIBS ==>
      forall x :: x in v[k] <==> x in w[k]
  }

  lemma CallsWithin(f: string -> Call, xs: seq<string>, ys: seq<string>)
    requires forall x <- xs :: x in ys
    ensures forall c <- Calls(f, xs) :: c in Calls(f, ys)
  {
    forall i | 0 <= i < |xs| ensures Calls(f, xs)[i] in Calls(f, ys) {
      assert xs[i] in xs;
      var j :| 0 <= j < |ys| && ys[j] == xs[i];
      assert Calls(f, ys)[j] == f(ys[j]);
    }
  }

  lemma OptionsAlike(v: View, w: View)
    requires Alike(v, w)
    ensures Settings(Options(v) + Paths(v)) <= Settings(Options(w) + Paths(w))
  {
    CallsWithin(s => SetOptions(s), v[DEFDEF], w[DEFDEF]);
    CallsWithin(s => SetOptions(s), v[DEFS], w[DEFS]);
    CallsWithin(s => AddSysInclude(s), v[SYSDIRS], w[SYSDIRS]);
    CallsWithin(s => AddInclude(s), v[INCDIRS], w[INCDIRS]);
    CallsWithin(s => AddLibraryPath(s), v[LIBDIRS], w[LIBDIRS]);
    CallsWithin(s => AddLibrary(s), v[LIBS], w[LIBS]);
    FilesAreFiles(v[SRCS]);
  }

  lemma FilesAreFiles(xs: seq<string>)
    ensures forall c <- Calls(s => AddFile(s), xs) :: c.AddFile?
  {
  }

  // ---- one preparation ------------------------------------------------------------------------------------

  predicate Stable(k: nat) {
    k < COUNT && k != TLDS && !Volatile(k)
  }

  /** Every stable pile holds the user's items and then n copies of what the packages push. */
  predicate Copies(v: View, base: View, ps: seq<Push>, n: nat) {
    forall k :: 0 <= k < COUNT && Stable(k) ==> v[k] == base[k] + Repeat(OnPile(ps, k), n)
  }

  lemma OneMoreCopy(v: View, base: View, ps: seq<Push>, n: nat)
    requires Copies(v, base, ps, n)
    ensures Copies(PushAll(v, ps), base, ps, n + 1)
  {
    hide PushAll, OnPile, Stable;
    var w := PushAll(v, ps);
    forall k: nat | Stable(k) && k < COUNT ensures w[k] == base[k] + Repeat(OnPile(ps, k), n + 1) {
      PushAllOnPile(v, ps, k);
      assert base[k] + Repeat(OnPile(ps, k), n) + OnPile(ps, k) == base[k] + (Repeat(OnPile(ps, k), n) + OnPile(ps, k));
    }
  }

  /** Copies of the packages' flags do not change what is on a pile, only how often. */
  lemma CopiesAlike(v: View, w: View, base: View, ps: seq<Push>, n: nat, m: nat)
    requires Copies(v, base, ps, n + 1) && Copies(w, base, ps, m + 1)
    ensures Alike(v, w)
  {
    hide OnPile, Repeat;
    forall k: nat | Stable(k) ensures forall x :: x in v[k] <==> x in w[k] {
      RepeatMembers(OnPile(ps, k), n + 1);
      RepeatMembers(OnPile(ps, k), m + 1);
    }
  }

  lemma PackagePileStays(v: View, base: View, ps: seq<Push>, n: nat)
    requires Copies(v, base, ps, n) && OffPrint(ps)
    ensures v[PKGS] == base[PKGS]
  {
    NothingOnPile(ps, PKGS);
    RepeatNothing(n);
    assert Stable(PKGS);
  }

  lemma NoCopies(base: View, ps: seq<Push>)
    ensures Copies(base, base, ps, 0)
  {
    forall k | 0 <= k < COUNT && Stable(k) ensures base[k] == base[k] + Repeat(OnPile(ps, k), 0) {
    }
  }

  lemma SettingsOf(a: seq<Call>, b: seq<Call>, c: seq<Call>, d: seq<Call>)
    ensures Settings(a + b + c + d) == Settings(a + b) + Settings(c + d)
  {
  }

  lemma PrepareSteady(v: View, out: bool, env: Env, base: View, first: Env, n: nat)
    requires SameWorld(base[PKGS], env, first) && Contribution(base[PKGS], first).1
    requires Copies(v, base, Contribution(base[PKGS], first).0, n)
    ensures var p := Prepare(v, out, env);
      Copies(p.view, base, Contribution(base[PKGS], first).0, n + 1) &&
      (p.ok ==> Settings(p.calls) == Expected(base, first))
  {
    hide Copies, Packages, OffPrint, Alike, Options, Paths, Contribution, PushAll, Settings;
    var names := base[PKGS];
    var ps := Contribution(names, first).0;
    PackagesContribute(v, names, env);
    PackagesContribute(base, names, first);
    PackagePileStays(v, base, ps, n);
    SamePackages(v, base, names, env, first);
    OneMoreCopy(v, base, ps, n);
    NoCopies(base, ps);
    OneMoreCopy(base, base, ps, 0);
    var q, e := Packages(v, names, env), Packages(base, names, first);
    CopiesAlike(q.view, e.view, base, ps, n, 0);
    CopiesAlike(e.view, q.view, base, ps, 0, n);
    OptionsAlike(q.view, e.view);
    OptionsAlike(e.view, q.view);
    assert env.accepts([], SetOutput(!out));
    var p := Prepare(v, out, env);
    if p.ok {
      SettingsOf([SetOptions("-Wall")], e.calls, Options(e.view), Paths(e.view));
      SettingsOf([SetOptions("-Wall")], q.calls, Options(q.view), Paths(q.view));
      SettingsOutput(out, q.calls, Options(q.view) + Paths(q.view));
      assert [SetOutput(!out), SetOptions("-Wall")] + q.calls + Options(q.view) + Paths(q.view)
          == [SetOutput(!out), SetOptions("-Wall")] + q.calls + (Options(q.view) + Paths(q.view));
    }
  }

  lemma SettingsOutput(out: bool, a: seq<Call>, b: seq<Call>)
    ensures Settings([SetOutput(!out), SetOptions("-Wall")] + a + b) == Settings([SetOptions("-Wall")] + a) + Settings(b)
  {
    var l := [SetOutput(!out), SetOptions("-Wall")] + a + b;
    assert [SetOutput(!out), SetOptions("-Wall")] == [SetOutput(!out)] + [SetOptions("-Wall")];
    assert l == [SetOutput(!out)] + ([SetOptions("-Wall")] + a) + b;
  }

  // ---- over a session ---------------------------------------------------------------------------------------

  lemma {:induction false} PreparesMore(log: seq<Event>, e: Event)
    ensures Prepares(log + [e]) == Prepares(log) + if e.what.DidPrepare? then 1 else 0
  {
    assert (log + [e])[..|log + [e]| - 1] == log;
  }

  /** Anything but a preparation leaves the stable piles and their history alone. */
  lemma LogSteady(s: State, t: State, base: View, env: Env, e: Event)
    requires Steady(s, base, env) && t.view == s.view && t.log == s.log + [e] && !e.what.DidPrepare?
    ensures Steady(t, base, env)
  {
    hide Copies, Contribution, Expected, Settings;
    PreparesMore(s.log, e);
  }

  lemma ExecuteSteady(s: State, now: Env, at: nat, base: View, env: Env)
    requires Steady(s, base, env)
    ensures Steady(Execute(s, now, at).0, base, env)
  {
    hide Steady;
    if NoRun !in s.flag {
      LogSteady(s, Execute(s, now, at).0, base, env, Event(at, s.Index(), DidExecute));
    }
  }

  lemma SameHistory(s: State, t: State, base: View, env: Env)
    requires Steady(s, base, env) && t.view == s.view && t.log == s.log
    ensures Steady(t, base, env)
  {
  }

  lemma CompileSteady(s: State, now: Env, at: nat, base: View, env: Env)
    requires Steady(s, base, env)
    ensures Steady(Compile(s, now, at).0, base, env)
  {
    hide Steady, Carried;
    var t := Compile(s, now, at).0;
    if !now.compiles {
      SameHistory(s, t, base, env);
    } else {
      var s1 := s.Logged(at, DidCompile);
      LogSteady(s, s1, base, env, Event(at, s.Index(), DidCompile));
      if !s.out {
        LogSteady(s1, t, base, env, Event(at, s.Index(), DidLoad));
      } else {
        SameHistory(s1, t, base, env);
      }
    }
  }

  lemma BuildSteady(s: State, now: Env, at: nat, base: View, env: Env)
    requires Steady(s, base, env)
    ensures Steady(Build(s, now, at).0, base, env)
  {
    hide Steady, Compile, Execute, Printed, PilesOf;
    if Compiled in s.flag {
      ExecuteSteady(s, now, at, base, env);
    } else {
      var what := DidGenerate(Printed(PilesOf(s.view)));
      var s1 := s.(flag := s.flag + {Generated}).Logged(at, what);
      LogSteady(s, s1, base, env, Event(at, s.Index(), what));
      CompileSteady(s1, now, at, base, env);
      ExecuteSteady(Compile(s1, now, at).0, now, at, base, env);
    }
  }

  /** The user's packages are well formed and the world does not change. */
  predicate Settled(base: View, now: Env, env: Env) {
    SameWorld(base[PKGS], now, env) && Contribution(base[PKGS], env).1
  }

  lemma LogPrepare(s: State, v: View, flag: set<Flag>, at: nat, calls: seq<Call>, ok: bool, base: View, env: Env)
    requires Steady(s, base, env) && (ok ==> Settings(calls) == Expected(base, env))
    requires Copies(v, base, Contribution(base[PKGS], env).0, Prepares(s.log) + 1)
    ensures Steady(s.(view := v, flag := flag).Logged(at, DidPrepare(calls, ok)), base, env)
  {
    hide Copies, Contribution, Expected, Settings;
    PreparesMore(s.log, Event(at, s.Index(), DidPrepare(calls, ok)));
  }

  lemma SteadyCopies(s: State, base: View, env: Env)
    requires Steady(s, base, env)
    ensures Copies(s.view, base, Contribution(base[PKGS], env).0, Prepares(s.log))
  {
  }

  lemma RunSteady(s: State, now: Env, at: nat, base: View, env: Env)
    requires Steady(s, base, env) && Settled(base, now, env)
    ensures Steady(Run(s, now, at).0, base, env)
  {
    hide Steady, Prepare, Build, Copies, Contribution, Expected, Settings;
    if Prepared in s.flag {
      BuildSteady(s, now, at, base, env);
    } else {
      var p := Prepare(s.view, s.out, now);
      SteadyCopies(s, base, env);
      PrepareSteady(s.view, s.out, now, base, env, Prepares(s.log));
      LogPrepare(s, p.view, s.flag + {Prepared}, at, p.calls, p.ok, base, env);
      if p.ok {
        BuildSteady(s.(view := p.view, flag := s.flag + {Prepared}).Logged(at, DidPrepare(p.calls, p.ok)),
          now, at, base, env);
      }
    }
  }

  /** Chaining and typing lines never touch a stable pile. */
  lemma OtherPilesSteady(s: State, t: State, base: View, env: Env)
    requires Steady(s, base, env) && t.log == s.log
    requires forall k :: 0 <= k < COUNT && Stable(k) ==> t.view[k] == s.view[k]
    ensures Steady(t, base, env)
  {
  }

  lemma ClassifyUnstable(line: string)
    ensures Classify(line).Add? ==> !Stable(Classify(line).pile)
  {
  }

  lemma CommandSteady(s: State, line: string, now: Env, at: nat, base: View, env: Env)
    requires Steady(s, base, env) && Settled(base, now, env)
    ensures Steady(Command(s, line, now, at).0, base, env)
  {
    hide Steady, Run, Settled, TrimLine, Classify, Printed, PilesOf, Plan, Bare;
    ClassifyUnstable(TrimLine(line));
    match Classify(TrimLine(line)) {
      case Nothing =>
      case Inner(rest) =>
        var what := DidDump(Bare(Plan(PilesOf(s.view))));
        LogSteady(s, s.(flag := s.flag + {Generated}).Logged(at, what), base, env, Event(at, s.Index(), what));
      case Add(k, t) => OtherPilesSteady(s, s.(view := Pushed(s.view, k, t)), base, env);
      case AddAndRun(t) =>
        OtherPilesSteady(s, s.(view := Pushed(s.view, STMS, t)), base, env);
        RunSteady(s.(view := Pushed(s.view, STMS, t)), now, at, base, env);
      case JustRun => RunSteady(s, now, at, base, env);
    }
  }

  lemma TurnSteady(s: State, line: string, now: Env, at: nat, base: View, env: Env)
    requires Steady(s, base, env) && Settled(base, now, env)
    ensures Steady(Turn(s, line, now, at).0, base, env)
  {
    hide Steady, Command, Settled;
    OtherPilesSteady(s, Chain(s), base, env);
    var s1 := if Loaded in s.flag then Chain(s) else s;
    if line != "" {
      CommandSteady(s1, line, now, at, base, env);
    }
  }

  lemma {:induction false} InteractSteady(s: State, lines: seq<string>, env: nat -> Env, base: View)
    requires Steady(s, base, env(0)) && forall n :: 0 <= n <= |lines| ==> Settled(base, env(n), env(0))
    ensures Steady(Interact(s, lines, env).state, base, env(0))
  {
    hide Steady, Turn, Settled;
    if lines != [] {
      var n := |lines|;
      InteractSteady(s, lines[..n - 1], env, base);
      TurnSteady(Interact(s, lines[..n - 1], env).state, lines[n - 1], env(n), n, base, env(0));
    }
  }

  /** With well-formed packages that answer the same all along: after the n-th preparation of a session
      each of the stable piles holds the user's items followed by n copies of the packages' flags, and
      every preparation that succeeds hands the compiler the same set of settings. */
  lemma PackagesAccumulate(s: State, lines: seq<string>, env: nat -> Env)
    requires Fresh(s) && forall n :: 0 <= n <= |lines| ==> Settled(s.view, env(n), env(0))
    ensures var t := Session(s, lines, env).state;
      Copies(t.view, s.view, Contribution(s.view[PKGS], env(0)).0, Prepares(t.log))
    ensures var log := Session(s, lines, env).state.log; forall i, j ::
      0 <= i < |log| && 0 <= j < |log| && log[i].what.DidPrepare? && log[i].what.ok && log[j].what.DidPrepare? && log[j].what.ok ==>
        Settings(log[i].what.calls) == Settings(log[j].what.calls)
  {
    hide Settled, Interact, Copies, Contribution, Run, Settings, Expected;
    NoCopies(s.view, Contribution(s.view[PKGS], env(0)).0);
    RunSteady(s, env(0), 0, s.view, env(0));
    InteractSteady(Begin(s, env).state, lines, env, s.view);
  }
}
