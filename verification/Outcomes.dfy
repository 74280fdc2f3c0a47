/** How a run, a dialogue and the whole program end. */
module Outcomes {
  import opened Piles
  import Tokeniser
  import opened Emitter
  import opened Program
  import opened Generate
  import opened Flat
  import opened FlatLaws
  import opened Prefixes

  // ---- one run ----------------------------------------------------------------------------------------------------

  predicate Ran(log: seq<Event>) {
    exists e <- log :: e.what.DidExecute?
  }

  /** Everything in front of the execution succeeds. */
  predicate Builds(s: State, env: Env) {
    (Prepared in s.flag || Prepare(s.view, s.out, env).ok) &&
    (Compiled in s.flag || (env.compiles && (s.out ==> env.writes)))
  }

  lemma ExecuteOutcome(s: State, env: Env, at: nat)
    ensures var r := Execute(s, env, at); var t := r.0;
      s.log <= t.log && (Ran(t.log[|s.log|..]) <==> NoRun !in s.flag) && r.1 == (if NoRun in s.flag then 0 else env.result) &&
      (Executed in t.flag <==> Executed in s.flag || NoRun !in s.flag) &&
      (Finished in t.flag <==> Finished in s.flag || (NoRun !in s.flag && Fork !in s.flag))
  {
    if NoRun !in s.flag {
      var e := Event(at, s.Index(), DidExecute);
      assert (s.log + [e])[|s.log|..] == [e] && e in [e];
    }
  }

  lemma RanBehind(log: seq<Event>, more: seq<Event>, all: seq<Event>)
    requires log + more <= all && forall e <- more :: !e.what.DidExecute?
    ensures log <= all && (Ran(all[|log|..]) <==> Ran(all[|log + more|..]))
  {
    assert all[|log|..] == more + all[|log + more|..];
  }

  lemma CompileOutcome(s: State, env: Env, at: nat)
    ensures var r := Compile(s, env, at); var t := r.0;
      r.1 == (if env.compiles && (s.out ==> env.writes) then 0 else 1) && s.log <= t.log &&
      (forall e <- t.log[|s.log|..] :: !e.what.DidExecute?) &&
      (forall f :: f !in {Compiled, Loaded} ==> (f in t.flag <==> f in s.flag))
  {
    hide Carried;
  }

  lemma BuildOutcome(s: State, env: Env, at: nat)
    requires Prepared in s.flag
    ensures var r := Build(s, env, at); var t := r.0; var ran := NoRun !in s.flag && Builds(s, env);
      s.log <= t.log && (Ran(t.log[|s.log|..]) <==> ran) &&
      r.1 == (if ran then env.result else if Builds(s, env) then 0 else 1) &&
      (Executed in t.flag <==> Executed in s.flag || ran) &&
      (Finished in t.flag <==> Finished in s.flag || (ran && Fork !in s.flag))
  {
    hide Compile, Execute, Printed, PilesOf, Ran, Prepare;
    if Compiled in s.flag {
      ExecuteOutcome(s, env, at);
    } else {
      var e := Event(at, s.Index(), DidGenerate(Printed(PilesOf(s.view))));
      var s1 := s.(flag := s.flag + {Generated}, log := s.log + [e]);
      CompileOutcome(s1, env, at);
      var (s2, bad) := Compile(s1, env, at);
      var more := [e] + s2.log[|s1.log|..];
      assert s.log + more == s2.log;
      if bad == 0 {
        ExecuteOutcome(s2, env, at);
        RanBehind(s.log, more, Execute(s2, env, at).0.log);
      } else {
        RanBehind(s.log, more, s2.log);
        NothingRan(s2.log);
      }
    }
  }

  lemma NothingRan(log: seq<Event>)
    ensures !Ran(log[|log|..])
  {
  }

  /** The outcome of a run: the program's own result when it is executed; otherwise 0 exactly when all that
      is asked for has succeeded. It is executed when everything in front of it succeeds, unless that is not
      asked for; then the context is EXECUTED, and FINISHED unless in a process of its own. */
  lemma RunOutcome(s: State, env: Env, at: nat)
    ensures var r := Run(s, env, at); var t := r.0; var ran := NoRun !in s.flag && Builds(s, env);
      s.log <= t.log && (Ran(t.log[|s.log|..]) <==> ran) &&
      r.1 == (if ran then env.result else if Builds(s, env) then 0 else 1) &&
      (Executed in t.flag <==> Executed in s.flag || ran) &&
      (Finished in t.flag <==> Finished in s.flag || (ran && Fork !in s.flag))
  {
    hide Build, Prepare, Ran;
    if Prepared in s.flag {
      BuildOutcome(s, env, at);
    } else {
      var p := Prepare(s.view, s.out, env);
      var e := Event(at, s.Index(), DidPrepare(p.calls, p.ok));
      var s1 := s.(view := p.view, flag := s.flag + {Prepared}, log := s.log + [e]);
      if p.ok {
        BuildOutcome(s1, env, at);
        RanBehind(s.log, [e], Build(s1, env, at).0.log);
      } else {
        RanBehind(s.log, [e], s1.log);
        NothingRan(s1.log);
      }
    }
  }

  // ---- the command line ---------------------------------------------------------------------------------------------

  /** Something that a run would need to see: a source file, a definition, a statement, or something to do
      before or after. */
  predicate SomethingToDo(v: View) {
    exists k :: k in {SRCS, TLFS, STMS, BEFS, AFTS} && v[k] != []
  }

  /** The command line is run when it leaves something to do, be it a single statement, and only then. */
  lemma FirstRun(s: State, env: nat -> Env)
    ensures Begin(s, env) ==
      if SomethingToDo(s.view) then Progress(Run(s, env(0), 0).0, Run(s, env(0), 0).1) else Progress(s, 0)
  {
    hide Run, Empty, SomethingToDo;
    EmptyMeansNothing(s.view);
  }

  lemma EmptyMeansNothing(v: View)
    ensures Empty(v) <==> !SomethingToDo(v)
  {
    if !Empty(v) {
      assert SRCS in {SRCS, TLFS, STMS, BEFS, AFTS} && TLFS in {SRCS, TLFS, STMS, BEFS, AFTS};
      assert STMS in {SRCS, TLFS, STMS, BEFS, AFTS} && BEFS in {SRCS, TLFS, STMS, BEFS, AFTS};
      assert AFTS in {SRCS, TLFS, STMS, BEFS, AFTS};
    }
  }

  // ---- the dialogue ---------------------------------------------------------------------------------------------------

  /** A line that ends the dialogue. */
  predicate Quits(line: string) {
    var t := Stripped(line);
    t != "" && t[0] == '\\' && var f := Tokeniser.Fields(t[1..]); f != [] && f[0] == "q"
  }

  lemma TurnReply(s: State, line: string, env: Env, at: nat)
    requires Interactive in s.flag
    ensures Turn(s, line, env, at).1 == (if Quits(line) then 1 else 0) && Interactive in Turn(s, line, env, at).0.flag
  {
    hide Run, Tokeniser.Fields, TrimLine, Stripped, Printed, PilesOf, Plan, Bare;
    StrippedIsTrimmed(line);
    EmptyStripped();
    var s1 := if Loaded in s.flag then Chain(s) else s;
    RunKeepsOptions(s1, env, at);
    RunKeepsOptions(s1.(view := Pushed(s1.view, STMS, Stripped(line))), env, at);
  }

  lemma EmptyStripped()
    ensures Stripped("") == ""
  {
  }

  /** A dialogue ends with the first line that quits, and what is typed behind it does not matter. */
  lemma {:induction false} DialogueEnds(s: State, lines: seq<string>, env: nat -> Env)
    requires Interactive in s.flag
    ensures var p := Interact(s, lines, env);
      Interactive in p.state.flag && p.ret == if exists l <- lines :: Quits(l) then 1 else 0
  {
    hide Turn, Quits;
    if lines != [] {
      var n := |lines|;
      var p := Interact(s, lines[..n - 1], env);
      DialogueEnds(s, lines[..n - 1], env);
      assert forall l :: l in lines <==> l in lines[..n - 1] || l == lines[n - 1];
      if p.ret == 0 {
        TurnReply(p.state, lines[n - 1], env(n), n);
      }
    }
  }

  /** The exit code: that of the command line's run, if there is one; without anything to do, 0 behind a
      dialogue and 1 without. A dialogue itself never fails. */
  lemma ExitCodes(s: State, lines: seq<string>, env: nat -> Env)
    requires Fresh(s)
    ensures ExitCode(s, lines, env) ==
      if SomethingToDo(s.view) then Run(s, env(0), 0).1 else if Interactive in s.flag then 0 else 1
  {
    hide Run, Interact, SomethingToDo, Empty;
    FirstRun(s, env);
    EmptyMeansNothing(s.view);
    RunKeepsOptions(s, env(0), 0);
    if Interactive in s.flag {
      DialogueEnds(Begin(s, env).state, lines, env);
    }
  }

  /** One statement on the command line: when everything in front of it succeeds, the exit code is the result
      of the program. */
  lemma OneShot(s: State, lines: seq<string>, env: nat -> Env)
    requires Fresh(s) && s.view[STMS] != [] && NoRun !in s.flag && Builds(s, env(0))
    ensures ExitCode(s, lines, env) == env(0).result
  {
    hide Run, Session, Builds;
    ExitCodes(s, lines, env);
    RunOutcome(s, env(0), 0);
    assert STMS in {SRCS, TLFS, STMS, BEFS, AFTS};
  }
}
