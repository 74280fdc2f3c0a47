/** What the history of a session tells of every context in it, not of the newest one alone. */
module Histories {
  import opened Text
  import opened Piles
  import opened Package
  import opened Emitter
  import opened Program
  import opened Generate
  import opened Flat
  import opened FlatLaws

  predicate Seen(log: seq<Event>, ctx: nat, p: Phase) {
    exists i :: 0 <= i < |log| && log[i].ctx == ctx && PhaseOf(log[i].what) == p
  }

  /** A phase flag of the current context is set exactly when the phase has been entered. */
  predicate Tied(s: State) {
    (Prepared in s.flag <==> Seen(s.log, s.Index(), Preparing)) &&
    (Compiled in s.flag <==> Seen(s.log, s.Index(), Compiling)) &&
    (Loaded in s.flag <==> Seen(s.log, s.Index(), Loading)) &&
    (Executed in s.flag <==> Seen(s.log, s.Index(), Executing))
  }

  /** A phase is entered behind the one it needs, in the same context. */
  predicate Due(before: seq<Event>, e: Event) {
    match PhaseOf(e.what)
    case Compiling => Seen(before, e.ctx, Preparing)
    case Loading => Seen(before, e.ctx, Compiling)
    case Executing => Seen(before, e.ctx, Compiling)
    case _ => true
  }

  predicate InOrder(log: seq<Event>) {
    forall i :: 0 <= i < |log| ==> Due(log[..i], log[i])
  }

  /** Every context but the newest has been loaded. */
  predicate TailOnly(s: State) {
    (forall c :: 0 <= c < s.Index() ==> Seen(s.log, c, Loading)) && forall e <- s.log :: e.ctx <= s.Index()
  }

  predicate Chronicle(s: State) {
    Tied(s) && InOrder(s.log) && TailOnly(s)
  }

  lemma SeenMore(log: seq<Event>, e: Event, ctx: nat, p: Phase)
    ensures Seen(log + [e], ctx, p) <==> Seen(log, ctx, p) || (e.ctx == ctx && PhaseOf(e.what) == p)
  {
    var l := log + [e];
    if Seen(log, ctx, p) {
      var i :| 0 <= i < |log| && log[i].ctx == ctx && PhaseOf(log[i].what) == p;
      assert l[i] == log[i];
    }
    if e.ctx == ctx && PhaseOf(e.what) == p {
      assert l[|log|] == e;
    }
  }

  lemma InOrderMore(log: seq<Event>, e: Event)
    requires InOrder(log) && Due(log, e)
    ensures InOrder(log + [e])
  {
    hide Due;
    var l := log + [e];
    forall i | 0 <= i < |l| ensures Due(l[..i], l[i]) {
      assert l[..i] == log[..i];
      assert i == |log| ==> log[..i] == log;
    }
  }

  /** One more event of the current context, and its flag with it. */
  lemma Entered(s: State, t: State, at: nat, what: What)
    requires Chronicle(s) && |t.tables| == |s.tables| && t.log == s.log + [Event(at, s.Index(), what)]
    requires var p := PhaseOf(what);
      (Prepared in t.flag <==> Prepared in s.flag || p == Preparing) &&
      (Compiled in t.flag <==> Compiled in s.flag || p == Compiling) &&
      (Loaded in t.flag <==> Loaded in s.flag || p == Loading) &&
      (Executed in t.flag <==> Executed in s.flag || p == Executing) &&
      (p == Compiling ==> Prepared in s.flag) && (p == Loading || p == Executing ==> Compiled in s.flag)
    ensures Chronicle(t)
  {
    hide Seen, InOrder;
    var e, i := Event(at, s.Index(), what), s.Index();
    SeenMore(s.log, e, i, Preparing);
    SeenMore(s.log, e, i, Compiling);
    SeenMore(s.log, e, i, Loading);
    SeenMore(s.log, e, i, Executing);
    InOrderMore(s.log, e);
    forall c | 0 <= c < i ensures Seen(t.log, c, Loading) {
      SeenMore(s.log, e, c, Loading);
    }
  }

  lemma Unentered(s: State, t: State)
    requires Chronicle(s) && |t.tables| == |s.tables| && t.log == s.log
    requires (Prepared in t.flag <==> Prepared in s.flag) && (Compiled in t.flag <==> Compiled in s.flag)
    requires (Loaded in t.flag <==> Loaded in s.flag) && (Executed in t.flag <==> Executed in s.flag)
    ensures Chronicle(t)
  {
    hide Seen, InOrder;
  }

  lemma ExecuteTold(s: State, env: Env, at: nat)
    requires Chronicle(s) && (NoRun !in s.flag ==> Compiled in s.flag)
    ensures Chronicle(Execute(s, env, at).0)
  {
    hide Chronicle;
    if NoRun !in s.flag {
      Entered(s, Execute(s, env, at).0, at, DidExecute);
    }
  }

  lemma CompileTold(s: State, env: Env, at: nat)
    requires Chronicle(s) && Prepared in s.flag
    ensures var r := Compile(s, env, at); Chronicle(r.0) && (r.1 == 0 ==> Compiled in r.0.flag)
  {
    hide Chronicle, Carried;
    var t := Compile(s, env, at).0;
    if !env.compiles {
      Unentered(s, t);
    } else {
      var s1 := s.(flag := s.flag + {Compiled}).Logged(at, DidCompile);
      Entered(s, s1, at, DidCompile);
      if s.out {
        Unentered(s1, t);
      } else {
        Entered(s1, t, at, DidLoad);
      }
    }
  }

  lemma BuildTold(s: State, env: Env, at: nat)
    requires Chronicle(s) && Prepared in s.flag
    ensures Chronicle(Build(s, env, at).0)
  {
    hide Chronicle, Printed, PilesOf, Compile, Execute;
    if Compiled in s.flag {
      ExecuteTold(s, env, at);
    } else {
      var what := DidGenerate(Printed(PilesOf(s.view)));
      var s1 := s.(flag := s.flag + {Generated}).Logged(at, what);
      Entered(s, s1, at, what);
      CompileTold(s1, env, at);
      if Compile(s1, env, at).1 == 0 {
        ExecuteTold(Compile(s1, env, at).0, env, at);
      }
    }
  }

  lemma RunTold(s: State, env: Env, at: nat)
    requires Chronicle(s)
    ensures Chronicle(Run(s, env, at).0)
  {
    hide Chronicle, Prepare, Build;
    if Prepared in s.flag {
      BuildTold(s, env, at);
    } else {
      var p := Prepare(s.view, s.out, env);
      var what := DidPrepare(p.calls, p.ok);
      var s1 := s.(view := p.view, flag := s.flag + {Prepared}).Logged(at, what);
      Entered(s, s1, at, what);
      if p.ok {
        BuildTold(s1, env, at);
      }
    }
  }

  lemma ChainTold(s: State)
    requires Chronicle(s) && Loaded in s.flag
    ensures Chronicle(Chain(s))
  {
    var t := Chain(s);
    assert forall e <- s.log :: e.ctx != t.Index();
    assert forall p :: !Seen(t.log, t.Index(), p);
  }

  lemma CommandTold(s: State, line: string, env: Env, at: nat)
    requires Chronicle(s)
    ensures Chronicle(Command(s, line, env, at).0)
  {
    hide Chronicle, Run, Printed, PilesOf, Plan, Bare, TrimLine, Classify;
    match Classify(TrimLine(line)) {
      case Nothing =>
      case Inner(rest) =>
        var what := DidDump(Bare(Plan(PilesOf(s.view))));
        Entered(s, s.(flag := s.flag + {Generated}).Logged(at, what), at, what);
      case Add(k, t) => Unentered(s, s.(view := Pushed(s.view, k, t)));
      case AddAndRun(t) =>
        Unentered(s, s.(view := Pushed(s.view, STMS, t)));
        RunTold(s.(view := Pushed(s.view, STMS, t)), env, at);
      case JustRun => RunTold(s, env, at);
    }
  }

  lemma {:induction false} InteractTold(s: State, lines: seq<string>, env: nat -> Env)
    requires Chronicle(s)
    ensures Chronicle(Interact(s, lines, env).state)
  {
    hide Chronicle, Command, Chain;
    if lines != [] {
      var n := |lines|;
      InteractTold(s, lines[..n - 1], env);
      var t := Interact(s, lines[..n - 1], env).state;
      if Loaded in t.flag {
        ChainTold(t);
      }
      CommandTold(if Loaded in t.flag then Chain(t) else t, lines[n - 1], env(n), n);
    }
  }

  lemma SessionTold(s: State, lines: seq<string>, env: nat -> Env)
    requires Fresh(s)
    ensures Chronicle(Session(s, lines, env).state)
  {
    assert Chronicle(s);
    RunTold(s, env(0), 0);
    InteractTold(Begin(s, env).state, lines, env);
  }

  /** Over every session, in every context and not in the newest alone: nothing is compiled before it is
      prepared nor loaded or executed before it is compiled, the flags of the newest context say which
      phases it has entered, and all others have been loaded. */
  lemma EveryContextInOrder(s: State, lines: seq<string>, env: nat -> Env)
    requires Fresh(s)
    ensures var t := Session(s, lines, env).state; InOrder(t.log) && Tied(t) && TailOnly(t)
  {
    hide Tied, InOrder, TailOnly, Session;
    SessionTold(s, lines, env);
  }

  // ---- programs behind a refused preparation ----------------------------------------------------------------

  /** What came of the preparation of a context, if it had one. */
  function Outcome(log: seq<Event>, ctx: nat): Option<bool> {
    if log == [] then None
    else
      var e := log[|log| - 1];
      if e.ctx == ctx && e.what.DidPrepare? then Some(e.what.ok) else Outcome(log[..|log| - 1], ctx)
  }

  predicate Generates(log: seq<Event>, from: nat) {
    exists i :: from <= i < |log| && log[i].what.DidGenerate?
  }

  /** The context that the next line finds: a loaded one is chained first. */
  function Current(s: State): State {
    if Loaded in s.flag then Chain(s) else s
  }

  lemma OutcomeMore(log: seq<Event>, e: Event, ctx: nat)
    ensures Outcome(log + [e], ctx) == if e.ctx == ctx && e.what.DidPrepare? then Some(e.what.ok) else Outcome(log, ctx)
  {
    assert (log + [e])[..|log|] == log;
  }

  lemma {:induction false} OutcomeKept(log: seq<Event>, more: seq<Event>, ctx: nat)
    requires forall e <- more :: !e.what.DidPrepare?
    ensures Outcome(log + more, ctx) == Outcome(log, ctx)
  {
    if more == [] {
      assert log + more == log;
    } else {
      var n := |more| - 1;
      assert log + more == log + more[..n] + [more[n]];
      OutcomeMore(log + more[..n], more[n], ctx);
      OutcomeKept(log, more[..n], ctx);
    }
  }

  lemma {:induction false} OutcomeSeen(log: seq<Event>, ctx: nat)
    ensures Outcome(log, ctx).Some? ==> Seen(log, ctx, Preparing)
  {
    if log != [] {
      var n := |log| - 1;
      OutcomeSeen(log[..n], ctx);
      assert log == log[..n] + [log[n]];
      SeenMore(log[..n], log[n], ctx, Preparing);
    }
  }

  /** What a run does behind its preparation: it generates exactly when nothing has been compiled yet. */
  lemma BuildGenerates(s: State, env: Env, at: nat)
    ensures var t := Build(s, env, at).0;
      s.log <= t.log && (forall i :: |s.log| <= i < |t.log| ==> !t.log[i].what.DidPrepare?) &&
      (Generates(t.log, |s.log|) <==> Compiled !in s.flag)
  {
    hide Printed, PilesOf, Carried;
    var t := Build(s, env, at).0;
    if Compiled !in s.flag {
      assert t.log[|s.log|].what.DidGenerate? by { GeneratesFirst(s, env, at); }
    }
  }

  lemma GeneratesFirst(s: State, env: Env, at: nat)
    requires Compiled !in s.flag
    ensures var t := Build(s, env, at).0; |t.log| > |s.log| && t.log[|s.log|].what == DidGenerate(Printed(PilesOf(s.view)))
  {
    hide Printed, PilesOf, Carried;
  }

  lemma RunGenerates(s: State, env: Env, at: nat)
    requires Prepared !in s.flag ==> Outcome(s.log, s.Index()) == None
    ensures var t := Run(s, env, at).0;
      Generates(t.log, |s.log|) && Outcome(t.log, s.Index()) == Some(false) <==>
      Prepared in s.flag && Compiled !in s.flag && Outcome(s.log, s.Index()) == Some(false)
  {
    hide Build, Prepare, Outcome;
    var t := Run(s, env, at).0;
    if Prepared in s.flag {
      BuildGenerates(s, env, at);
      assert t.log == s.log + t.log[|s.log|..];
      OutcomeKept(s.log, t.log[|s.log|..], s.Index());
    } else {
      var p := Prepare(s.view, s.out, env);
      var e := Event(at, s.Index(), DidPrepare(p.calls, p.ok));
      var s1 := s.(view := p.view, flag := s.flag + {Prepared}).Logged(at, DidPrepare(p.calls, p.ok));
      OutcomeMore(s.log, e, s.Index());
      if p.ok {
        BuildGenerates(s1, env, at);
        assert t.log == s1.log + t.log[|s1.log|..];
        OutcomeKept(s1.log, t.log[|s1.log|..], s.Index());
      }
    }
  }

  /** Over every session, and whatever is on the piles of the context that the next line finds: a run of
      it generates a program behind a refused preparation if and only if the context's one preparation was
      made by an earlier line, was refused, and nothing has been compiled since. */
  lemma RefusedPreparation(s: State, lines: seq<string>, env: nat -> Env, view: View, now: Env, at: nat)
    requires Fresh(s)
    ensures var c := Current(Session(s, lines, env).state);
      var t := Run(c.(view := view), now, at).0;
      Generates(t.log, |c.log|) && Outcome(t.log, c.Index()) == Some(false) <==>
      Prepared in c.flag && Compiled !in c.flag && Outcome(c.log, c.Index()) == Some(false)
  {
    hide Run, Session, Chronicle, Outcome, Generates;
    var u := Session(s, lines, env).state;
    SessionTold(s, lines, env);
    if Loaded in u.flag {
      ChainTold(u);
    }
    var c := Current(u);
    OutcomeSeen(c.log, c.Index());
    NotSeen(c);
    RunGenerates(c.(view := view), now, at);
  }

  lemma NotSeen(s: State)
    requires Chronicle(s)
    ensures Prepared !in s.flag ==> !Seen(s.log, s.Index(), Preparing)
  {
    hide Seen;
  }

  /** It does happen: with a package that is never found, the first statement is refused, and the second
      one is compiled and loaded by a compiler that never heard of it. */
  lemma RefusedThenLoaded(s: State, a: string, b: string, env: nat -> Env)
    requires Fresh(s) && Interactive in s.flag && !s.out && Empty(s.view) && s.view[PKGS] != []
    requires Classify(TrimLine(a)).AddAndRun? && Classify(TrimLine(b)).AddAndRun?
    requires env(1).package(s.view[PKGS][0]) == None && env(2).compiles
    ensures var t := Session(s, [a, b], env).state; Loaded in t.flag && Outcome(t.log, 0) == Some(false)
  {
    hide Classify, TrimLine, Printed, PilesOf, Outcome, Begin;
    var x, y := Classify(TrimLine(a)).text, Classify(TrimLine(b)).text;
    NothingFirst(s, env);
    TwoLines(s, a, b, env);
    EmptyLineIsNothing(a);
    EmptyLineIsNothing(b);
    FirstRefused(s.(view := Pushed(s.view, STMS, x)), env(1), 1);
    var s1 := Turn(s, a, env(1), 1).0;
    SecondLoaded(s1.(view := Pushed(s1.view, STMS, y)), env(2), 2);
  }

  lemma NothingFirst(s: State, env: nat -> Env)
    requires Empty(s.view)
    ensures Begin(s, env) == Progress(s, 0)
  {
  }

  lemma EmptyLineIsNothing(line: string)
    requires Classify(TrimLine(line)).AddAndRun?
    ensures line != ""
  {
  }

  lemma TwoLines(s: State, a: string, b: string, env: nat -> Env)
    requires Turn(s, a, env(1), 1).1 == 0
    ensures Interact(s, [a, b], env).state == Turn(Turn(s, a, env(1), 1).0, b, env(2), 2).0
  {
    hide Turn;
    assert [a, b][..1] == [a] && [a][..0] == [];
    assert Interact(s, [], env) == Progress(s, 0);
    assert Interact(s, [a], env) == Progress(Turn(s, a, env(1), 1).0, 0);
  }

  lemma FirstRefused(s: State, env: Env, at: nat)
    requires Fresh(s) && s.view[PKGS] != [] && env.package(s.view[PKGS][0]) == None
    ensures var t := Run(s, env, at).0;
      Prepared in t.flag && Compiled !in t.flag && Loaded !in t.flag && t.out == s.out && |t.tables| == 1 &&
      Outcome(t.log, 0) == Some(false)
  {
    var t := Run(s, env, at).0;
    OutcomeMore(s.log, t.log[|s.log|], 0);
    assert t.log == s.log + [t.log[|s.log|]];
  }

  lemma SecondLoaded(s: State, env: Env, at: nat)
    requires Prepared in s.flag && Compiled !in s.flag && Loaded !in s.flag && !s.out && env.compiles
    requires |s.tables| == 1 && Outcome(s.log, 0) == Some(false)
    ensures var t := Run(s, env, at).0; Loaded in t.flag && Outcome(t.log, 0) == Some(false)
  {
    hide Build;
    BuildGenerates(s, env, at);
    var t := Run(s, env, at).0;
    assert t.log == s.log + t.log[|s.log|..];
    OutcomeKept(s.log, t.log[|s.log|..], 0);
    BuildLoads(s, env, at);
  }

  lemma BuildLoads(s: State, env: Env, at: nat)
    requires Compiled !in s.flag && !s.out && env.compiles
    ensures Loaded in Build(s, env, at).0.flag
  {
    hide Printed, PilesOf, Carried;
  }
}
