/** Where the names that a context knows come from, over a whole session. */
module Symbols {
  import opened Piles
  import opened Emitter
  import opened Program
  import opened Generate
  import opened Flat
  import opened Names
  import opened FlatLaws

  /** A compilation that was started in context j defined the name. */
  ghost predicate OwnName(log: seq<Event>, env: nat -> Env, j: nat, name: string) {
    exists e <- log :: e.what.DidGenerate? && e.ctx == j && name in env(e.at).defines
  }

  /** Every name was defined by the context itself or is taken over from the one before it. */
  ghost predicate Sourced(s: State, env: nat -> Env) {
    forall j: nat, name: string :: j < |s.tables| && name in s.tables[j] ==>
      OwnName(s.log, env, j, name) || (j > 0 && name in s.tables[j - 1] && !Reserved(name))
  }

  /** Every context knows what its compilations defined. */
  ghost predicate Holds(s: State, env: nat -> Env) {
    forall e <- s.log :: e.what.DidCompile? ==> e.ctx < |s.tables| && env(e.at).defines <= s.tables[e.ctx]
  }

  ghost predicate Accounted(s: State, env: nat -> Env) {
    Sourced(s, env) && Holds(s, env)
  }

  lemma OwnLater(log: seq<Event>, more: seq<Event>, env: nat -> Env, j: nat, name: string)
    requires OwnName(log, env, j, name)
    ensures OwnName(log + more, env, j, name)
  {
    var e :| e in log && e.what.DidGenerate? && e.ctx == j && name in env(e.at).defines;
    assert e in log + more;
  }

  /** A step that compiles nothing. */
  lemma QuietStep(s: State, t: State, more: seq<Event>, env: nat -> Env)
    requires Accounted(s, env) && t.tables == s.tables && t.log == s.log + more
    requires forall e <- more :: !e.what.DidCompile?
    ensures Accounted(t, env)
  {
    forall j: nat, name: string | j < |t.tables| && name in t.tables[j]
      ensures OwnName(t.log, env, j, name) || (j > 0 && name in t.tables[j - 1] && !Reserved(name))
    {
      if OwnName(s.log, env, j, name) {
        OwnLater(s.log, more, env, j, name);
      }
    }
  }

  lemma ChainStep(s: State, env: nat -> Env)
    requires Accounted(s, env)
    ensures Accounted(Chain(s), env)
  {
    var t := Chain(s);
    forall j: nat, name: string | j < |t.tables| && name in t.tables[j]
      ensures OwnName(t.log, env, j, name) || (j > 0 && name in t.tables[j - 1] && !Reserved(name))
    {
      assert j < |s.tables| && t.tables[j] == s.tables[j];
      assert j > 0 ==> t.tables[j - 1] == s.tables[j - 1];
    }
  }

  /** The current context learns names of its own and names that are taken over. */
  lemma TableStep(s: State, t: State, own: set<string>, taken: set<string>, env: nat -> Env)
    requires Accounted(s, env) && t.log == s.log && t.tables == s.tables[s.Index() := s.tables[s.Index()] + own + taken]
    requires forall name <- own :: OwnName(s.log, env, s.Index(), name)
    requires forall name <- taken :: s.Index() > 0 && name in s.tables[s.Index() - 1] && !Reserved(name)
    ensures Accounted(t, env)
  {
    hide OwnName, Reserved;
  }

  lemma CompileStep(s: State, env: nat -> Env, at: nat)
    requires Accounted(s, env) && exists e <- s.log :: e.what.DidGenerate? && e.ctx == s.Index() && e.at == at
    ensures Accounted(Compile(s, env(at), at).0, env)
  {
    hide Accounted, Reserved;
    var i, w := s.Index(), env(at);
    forall name <- w.defines ensures OwnName(s.log, env, i, name) {
    }
    if !w.compiles {
      var t := s.(tables := s.tables[i := s.tables[i] + w.defines]);
      assert s.tables[i] + w.defines + {} == s.tables[i] + w.defines;
      TableStep(s, t, w.defines, {}, env);
    } else {
      var taken := if i > 0 then Carried(s.tables[i - 1]) else {};
      forall name <- taken ensures i > 0 && name in s.tables[i - 1] && !Reserved(name) {
        ReservedStays(name);
      }
      var t := s.(tables := s.tables[i := s.tables[i] + w.defines + taken]);
      TableStep(s, t, w.defines, taken, env);
      var c := Event(at, i, DidCompile);
      CompiledStep(t, t.(flag := s.flag + {Compiled}, log := s.log + [c]), c, env);
      var u := t.(flag := s.flag + {Compiled}, log := s.log + [c]);
      QuietStep(u, u.(flag := u.flag + {Loaded}).Logged(at, DidLoad), [Event(at, i, DidLoad)], env);
    }
  }

  lemma CompiledStep(s: State, t: State, e: Event, env: nat -> Env)
    requires Accounted(s, env) && t.tables == s.tables && t.log == s.log + [e]
    requires e.what.DidCompile? && e.ctx < |s.tables| && env(e.at).defines <= s.tables[e.ctx]
    ensures Accounted(t, env)
  {
    forall j: nat, name: string | j < |t.tables| && name in t.tables[j]
      ensures OwnName(t.log, env, j, name) || (j > 0 && name in t.tables[j - 1] && !Reserved(name))
    {
      if OwnName(s.log, env, j, name) {
        OwnLater(s.log, [e], env, j, name);
      }
    }
  }

  lemma ExecuteStep(s: State, env: nat -> Env, at: nat)
    requires Accounted(s, env)
    ensures Accounted(Execute(s, env(at), at).0, env)
  {
    hide Accounted;
    if NoRun !in s.flag {
      QuietStep(s, Execute(s, env(at), at).0, [Event(at, s.Index(), DidExecute)], env);
    }
  }

  lemma BuildStep(s: State, env: nat -> Env, at: nat)
    requires Accounted(s, env)
    ensures Accounted(Build(s, env(at), at).0, env)
  {
    hide Accounted, Compile, Execute, Printed, PilesOf;
    if Compiled in s.flag {
      ExecuteStep(s, env, at);
    } else {
      var e := Event(at, s.Index(), DidGenerate(Printed(PilesOf(s.view))));
      var s1 := s.(flag := s.flag + {Generated}, log := s.log + [e]);
      QuietStep(s, s1, [e], env);
      assert e in s1.log;
      CompileStep(s1, env, at);
      ExecuteStep(Compile(s1, env(at), at).0, env, at);
    }
  }

  lemma RunStep(s: State, env: nat -> Env, at: nat)
    requires Accounted(s, env)
    ensures Accounted(Run(s, env(at), at).0, env)
  {
    hide Accounted, Prepare, Build;
    if Prepared in s.flag {
      BuildStep(s, env, at);
    } else {
      var p := Prepare(s.view, s.out, env(at));
      var e := Event(at, s.Index(), DidPrepare(p.calls, p.ok));
      var s1 := s.(view := p.view, flag := s.flag + {Prepared}).Logged(at, DidPrepare(p.calls, p.ok));
      QuietStep(s, s1, [e], env);
      BuildStep(s1, env, at);
    }
  }

  lemma TurnStep(s: State, line: string, env: nat -> Env, at: nat)
    requires Accounted(s, env)
    ensures Accounted(Turn(s, line, env(at), at).0, env)
  {
    hide Accounted, Run, Printed, PilesOf, Plan, Bare, TrimLine, Classify, Chain;
    var s1 := if Loaded in s.flag then Chain(s) else s;
    ChainStep(s, env);
    match Classify(TrimLine(line)) {
      case Nothing =>
      case Inner(rest) =>
        var what := DidDump(Bare(Plan(PilesOf(s1.view))));
        QuietStep(s1, s1.(flag := s1.flag + {Generated}).Logged(at, what), [Event(at, s1.Index(), what)], env);
      case Add(k, t) =>
        QuietStep(s1, s1.(view := Pushed(s1.view, k, t)), [], env);
      case AddAndRun(t) =>
        QuietStep(s1, s1.(view := Pushed(s1.view, STMS, t)), [], env);
        RunStep(s1.(view := Pushed(s1.view, STMS, t)), env, at);
      case JustRun =>
        RunStep(s1, env, at);
    }
  }

  lemma {:induction false} InteractStep(s: State, lines: seq<string>, env: nat -> Env)
    requires Accounted(s, env)
    ensures Accounted(Interact(s, lines, env).state, env)
  {
    hide Accounted, Turn;
    if lines != [] {
      var n := |lines|;
      InteractStep(s, lines[..n - 1], env);
      TurnStep(Interact(s, lines[..n - 1], env).state, lines[n - 1], env, n);
    }
  }

  lemma SessionStep(s: State, lines: seq<string>, env: nat -> Env)
    requires Fresh(s)
    ensures Accounted(Session(s, lines, env).state, env)
  {
    hide Run, Interact;
    assert Accounted(s, env);
    hide Accounted;
    RunStep(s, env, 0);
    InteractStep(Begin(s, env).state, lines, env);
  }

  /** Over every session: a name that is not reserved stays known in every later loaded context; a context
      knows what its own compilations defined, all of what those defined that succeeded, and beyond that
      only names of the context before it, never a reserved one. */
  lemma NamesOfSession(s: State, lines: seq<string>, env: nat -> Env)
    requires Fresh(s)
    ensures var t := Session(s, lines, env).state;
      (forall i: nat, j: nat, name: string ::
        (i < j < |t.tables| && (j < |t.tables| - 1 || Loaded in t.flag) && name in t.tables[i] && !Reserved(name)) ==>
          name in t.tables[j]) &&
      (forall j: nat, name: string :: j < |t.tables| && name in t.tables[j] ==>
        OwnName(t.log, env, j, name) || (j > 0 && name in t.tables[j - 1] && !Reserved(name))) &&
      forall e <- t.log :: e.what.DidCompile? ==> e.ctx < |t.tables| && env(e.at).defines <= t.tables[e.ctx]
  {
    hide Session, OwnName, Reserved, Passes;
    var t := Session(s, lines, env).state;
    SessionStep(s, lines, env);
    SymbolsStayVisible(s, lines, env);
    forall i: nat, j: nat, name: string | i < j < |t.tables| && (j < |t.tables| - 1 || Loaded in t.flag) &&
      name in t.tables[i] && !Reserved(name) ensures name in t.tables[j]
    {
      ReservedStays(name);
      assert name in Carried(t.tables[i]);
    }
  }
}
