/** What a preparation tells the compiler, and in which order. */
module Handover {
  import opened Text
  import opened Piles
  import opened Compiler
  import opened Package
  import opened Emitter
  import opened Program
  import opened Generate
  import opened Flat
  import opened SessionForm

  // ---- calls of one kind ------------------------------------------------------------------------------------

  function Setting(c: Call): Option<string> {
    if c.SetOptions? then Some(c.text) else None
  }

  function SysInclude(c: Call): Option<string> {
    if c.AddSysInclude? then Some(c.path) else None
  }

  function Include(c: Call): Option<string> {
    if c.AddInclude? then Some(c.path) else None
  }

  function LibraryPath(c: Call): Option<string> {
    if c.AddLibraryPath? then Some(c.path) else None
  }

  function Library(c: Call): Option<string> {
    if c.AddLibrary? then Some(c.name) else None
  }

  function File(c: Call): Option<string> {
    if c.AddFile? then Some(c.path) else None
  }

  /** The texts that were handed over by calls of one kind, in order. */
  function Picked(calls: seq<Call>, kind: Call -> Option<string>): seq<string> {
    if calls == [] then []
    else (match kind(calls[0]) case Some(t) => [t] case None => []) + Picked(calls[1..], kind)
  }

  lemma {:induction false} PickedAppend(a: seq<Call>, b: seq<Call>, kind: Call -> Option<string>)
    ensures Picked(a + b, kind) == Picked(a, kind) + Picked(b, kind)
  {
    if a == [] {
      assert a + b == b;
    } else {
      assert (a + b)[1..] == a[1..] + b;
      PickedAppend(a[1..], b, kind);
    }
  }

  lemma {:induction false} PickedAll(f: string -> Call, texts: seq<string>, kind: Call -> Option<string>)
    requires forall t: string :: kind(f(t)) == Some(t)
    ensures Picked(Calls(f, texts), kind) == texts
  {
    if texts != [] {
      assert Calls(f, texts)[1..] == Calls(f, texts[1..]);
      PickedAll(f, texts[1..], kind);
    }
  }

  lemma {:induction false} PickedNone(calls: seq<Call>, kind: Call -> Option<string>)
    requires forall c <- calls :: kind(c) == None
    ensures Picked(calls, kind) == []
  {
    if calls != [] {
      assert calls[0] in calls;
      PickedNone(calls[1..], kind);
    }
  }

  // ---- the order ------------------------------------------------------------------------------------------------

  function Stage(c: Call): nat {
    match c
    case SetOutput(_) => 0
    case SetOptions(_) => 1
    case AddSysInclude(_) => 2
    case AddInclude(_) => 3
    case AddLibraryPath(_) => 4
    case AddLibrary(_) => 5
    case AddFile(_) => 6
  }

  predicate Staged(calls: seq<Call>) {
    forall i, j :: 0 <= i < j < |calls| ==> Stage(calls[i]) <= Stage(calls[j])
  }

  predicate OfStage(calls: seq<Call>, lo: nat, hi: nat) {
    forall c <- calls :: lo <= Stage(c) <= hi
  }

  lemma StagedAppend(a: seq<Call>, b: seq<Call>, lo: nat, m: nat, n: nat, hi: nat)
    requires Staged(a) && OfStage(a, lo, m) && Staged(b) && OfStage(b, n, hi) && lo <= m <= n <= hi
    ensures Staged(a + b) && OfStage(a + b, lo, hi)
  {
    hide Stage;
    var all := a + b;
    forall i, j | 0 <= i < j < |all| ensures Stage(all[i]) <= Stage(all[j]) {
      assert all[i] in all && all[j] in all;
      if i < |a| <= j {
        assert all[i] in a && all[j] in b;
      }
    }
  }

  lemma OneStage(calls: seq<Call>, n: nat)
    requires forall c <- calls :: Stage(c) == n
    ensures Staged(calls) && OfStage(calls, n, n)
  {
    hide Stage;
  }

  // ---- what a successful preparation hands over -------------------------------------------------------------------

  lemma PickedCalls(f: string -> Call, texts: seq<string>, kind: Call -> Option<string>, chosen: bool)
    requires forall t: string :: kind(f(t)) == if chosen then Some(t) else None
    ensures Picked(Calls(f, texts), kind) == if chosen then texts else []
  {
    if chosen {
      PickedAll(f, texts, kind);
    } else {
      PickedNone(Calls(f, texts), kind);
    }
  }

  lemma OneCallMore(f: string -> Call, texts: seq<string>, t: string)
    ensures Calls(f, texts) + [f(t)] == Calls(f, texts + [t])
  {
  }

  lemma FivePicked(a: seq<Call>, b: seq<Call>, c: seq<Call>, d: seq<Call>, e: seq<Call>, kind: Call -> Option<string>)
    ensures Picked(a + b + c + d + e, kind)
         == Picked(a, kind) + Picked(b, kind) + Picked(c, kind) + Picked(d, kind) + Picked(e, kind)
  {
    hide Picked;
    PickedAppend(a, b, kind);
    PickedAppend(a + b, c, kind);
    PickedAppend(a + b + c, d, kind);
    PickedAppend(a + b + c + d, e, kind);
  }

  lemma PathsPicked(v: View, kind: Call -> Option<string>, y1: bool, y2: bool, y3: bool, y4: bool, y5: bool)
    requires forall t: string :: kind(AddSysInclude(t)) == if y1 then Some(t) else None
    requires forall t: string :: kind(AddInclude(t)) == if y2 then Some(t) else None
    requires forall t: string :: kind(AddLibraryPath(t)) == if y3 then Some(t) else None
    requires forall t: string :: kind(AddLibrary(t)) == if y4 then Some(t) else None
    requires forall t: string :: kind(AddFile(t)) == if y5 then Some(t) else None
    ensures Picked(Paths(v), kind) == (if y1 then v[SYSDIRS] else []) + (if y2 then v[INCDIRS] + ["."] else [])
      + (if y3 then v[LIBDIRS] + ["."] else []) + (if y4 then v[LIBS] else []) + (if y5 then v[SRCS] else [])
  {
    hide Picked, Calls;
    OneCallMore(s => AddInclude(s), v[INCDIRS], ".");
    OneCallMore(s => AddLibraryPath(s), v[LIBDIRS], ".");
    var a, b := Calls(s => AddSysInclude(s), v[SYSDIRS]), Calls(s => AddInclude(s), v[INCDIRS] + ["."]);
    var c, d := Calls(s => AddLibraryPath(s), v[LIBDIRS] + ["."]), Calls(s => AddLibrary(s), v[LIBS]);
    var e := Calls(s => AddFile(s), v[SRCS]);
    FivePicked(a, b, c, d, e, kind);
    PickedCalls(s => AddSysInclude(s), v[SYSDIRS], kind, y1);
    PickedCalls(s => AddInclude(s), v[INCDIRS] + ["."], kind, y2);
    PickedCalls(s => AddLibraryPath(s), v[LIBDIRS] + ["."], kind, y3);
    PickedCalls(s => AddLibrary(s), v[LIBS], kind, y4);
    PickedCalls(s => AddFile(s), v[SRCS], kind, y5);
  }

  lemma OptionsPicked(v: View, kind: Call -> Option<string>, chosen: bool)
    requires forall t: string :: kind(SetOptions(t)) == if chosen then Some(t) else None
    ensures Picked(Options(v), kind) == if chosen then v[DEFDEF] + v[DEFS] else []
  {
    hide Picked, Calls;
    PickedAppend(Calls(s => SetOptions(s), v[DEFDEF]), Calls(s => SetOptions(s), v[DEFS]), kind);
    PickedCalls(s => SetOptions(s), v[DEFDEF], kind, chosen);
    PickedCalls(s => SetOptions(s), v[DEFS], kind, chosen);
  }

  /** What the packages of a list are told as options: each its whole output, and then one option for each
      request for threads. */
  function PackageOptions(names: seq<string>, env: Env): seq<string> {
    if names == [] then []
    else match env.package(names[0])
      case None => []
      case Some(s) =>
        var p := Parse(CPrefix(s));
        [CPrefix(s)] + seq(p.pthreads, i => "-pthread") + if p.ok then PackageOptions(names[1..], env) else []
  }

  lemma ThreadsPicked(n: nat, kind: Call -> Option<string>, chosen: bool)
    requires forall t: string :: kind(SetOptions(t)) == if chosen then Some(t) else None
    ensures Picked(Threads(n), kind) == if chosen then seq(n, i => "-pthread") else []
  {
    var texts := seq(n, i => "-pthread");
    assert Calls(s => SetOptions(s), texts) == Threads(n);
    PickedCalls(s => SetOptions(s), texts, kind, chosen);
  }

  lemma {:induction false} PackagesPicked(v: View, names: seq<string>, env: Env, kind: Call -> Option<string>,
                                          chosen: bool)
    requires forall t: string :: kind(SetOptions(t)) == if chosen then Some(t) else None
    ensures Picked(Packages(v, names, env).calls, kind) == if chosen then PackageOptions(names, env) else []
    ensures forall c <- Packages(v, names, env).calls :: c.SetOptions?
    decreases names
  {
    hide Parse, PushAll;
    if names != [] {
      match env.package(names[0]) {
        case None =>
        case Some(s) =>
          var p := Parse(CPrefix(s));
          var u := PushAll(v, p.pushes);
          var a, b := [SetOptions(CPrefix(s))], Threads(p.pthreads);
          OnePicked(CPrefix(s), kind, chosen);
          ThreadsPicked(p.pthreads, kind, chosen);
          PickedAppend(a, b, kind);
          if p.ok {
            PackagesPicked(u, names[1..], env, kind, chosen);
            PickedAppend(a + b, Packages(u, names[1..], env).calls, kind);
          }
      }
    }
  }

  lemma OnePicked(t: string, kind: Call -> Option<string>, chosen: bool)
    requires forall t: string :: kind(SetOptions(t)) == if chosen then Some(t) else None
    ensures Picked([SetOptions(t)], kind) == if chosen then [t] else []
  {
    assert [SetOptions(t)][1..] == [];
  }

  lemma PreparedParts(v: View, out: bool, env: Env)
    requires Prepare(v, out, env).ok
    ensures var p, q := Prepare(v, out, env), Packages(v, v[PKGS], env);
      q.ok && p.view == q.view &&
      p.calls == [SetOutput(!out)] + [SetOptions("-Wall")] + q.calls + Options(q.view) + Paths(q.view)
  {
    hide Packages, Options, Paths, Offer;
  }

  lemma SumPicked(a: seq<string>, b: seq<string>, c: seq<string>, chosen: bool)
    ensures [] + (if chosen then a else []) + (if chosen then b else []) + (if chosen then c else [])
         == if chosen then a + b + c else []
  {
  }

  /** The calls of one kind. */
  lemma PreparedPicked(v: View, out: bool, env: Env, kind: Call -> Option<string>, y0: bool, y1: bool, y2: bool,
                       y3: bool, y4: bool, y5: bool)
    requires Prepare(v, out, env).ok
    requires forall b: bool :: kind(SetOutput(b)) == None
    requires forall t: string :: kind(SetOptions(t)) == if y0 then Some(t) else None
    requires forall t: string :: kind(AddSysInclude(t)) == if y1 then Some(t) else None
    requires forall t: string :: kind(AddInclude(t)) == if y2 then Some(t) else None
    requires forall t: string :: kind(AddLibraryPath(t)) == if y3 then Some(t) else None
    requires forall t: string :: kind(AddLibrary(t)) == if y4 then Some(t) else None
    requires forall t: string :: kind(AddFile(t)) == if y5 then Some(t) else None
    ensures var p := Prepare(v, out, env); var w := p.view;
      Picked(p.calls, kind) == (if y0 then ["-Wall"] + PackageOptions(v[PKGS], env) + (w[DEFDEF] + w[DEFS]) else []) +
        ((if y1 then w[SYSDIRS] else []) + (if y2 then w[INCDIRS] + ["."] else [])
          + (if y3 then w[LIBDIRS] + ["."] else []) + (if y4 then w[LIBS] else []) + (if y5 then w[SRCS] else []))
  {
    hide Picked, Packages, Options, Paths, Prepare, PackageOptions;
    PreparedParts(v, out, env);
    var q := Packages(v, v[PKGS], env);
    FivePicked([SetOutput(!out)], [SetOptions("-Wall")], q.calls, Options(q.view), Paths(q.view), kind);
    PickedNone([SetOutput(!out)], kind);
    OnePicked("-Wall", kind, y0);
    PackagesPicked(v, v[PKGS], env, kind, y0);
    OptionsPicked(q.view, kind, y0);
    SumPicked(["-Wall"], PackageOptions(v[PKGS], env), q.view[DEFDEF] + q.view[DEFS], y0);
    PathsPicked(q.view, kind, y1, y2, y3, y4, y5);
  }

  /** Over every successful preparation: each pile reaches the compiler whole, in order and once, by calls of
      its own kind; the current directory comes behind the include paths and the library paths. */
  lemma HandedOver(v: View, out: bool, env: Env)
    requires Prepare(v, out, env).ok
    ensures var p := Prepare(v, out, env); var w := p.view;
      Picked(p.calls, Setting) == ["-Wall"] + PackageOptions(v[PKGS], env) + v[DEFDEF] + w[DEFS] &&
      Picked(p.calls, SysInclude) == v[SYSDIRS] &&
      Picked(p.calls, Include) == w[INCDIRS] + ["."] &&
      Picked(p.calls, LibraryPath) == w[LIBDIRS] + ["."] &&
      Picked(p.calls, Library) == w[LIBS] &&
      Picked(p.calls, File) == v[SRCS]
  {
    hide Picked, Prepare, PackageOptions;
    PrepareKeeps(v, out, env, DEFDEF);
    PrepareKeeps(v, out, env, SYSDIRS);
    PrepareKeeps(v, out, env, SRCS);
    PreparedPicked(v, out, env, Setting, true, false, false, false, false, false);
    PreparedPicked(v, out, env, SysInclude, false, true, false, false, false, false);
    PreparedPicked(v, out, env, Include, false, false, true, false, false, false);
    PreparedPicked(v, out, env, LibraryPath, false, false, false, true, false, false);
    PreparedPicked(v, out, env, Library, false, false, false, false, true, false);
    PreparedPicked(v, out, env, File, false, false, false, false, false, true);
  }

  lemma PathsStaged(v: View)
    ensures Staged(Paths(v)) && OfStage(Paths(v), 2, 6)
  {
    hide Staged, OfStage;
    var a, b := Calls(s => AddSysInclude(s), v[SYSDIRS]), Calls(s => AddInclude(s), v[INCDIRS]) + [AddInclude(".")];
    var c, d := Calls(s => AddLibraryPath(s), v[LIBDIRS]) + [AddLibraryPath(".")], Calls(s => AddLibrary(s), v[LIBS]);
    var e := Calls(s => AddFile(s), v[SRCS]);
    OneStage(a, 2);
    OneStage(b, 3);
    OneStage(c, 4);
    OneStage(d, 5);
    OneStage(e, 6);
    StagedAppend(a, b, 2, 2, 3, 3);
    StagedAppend(a + b, c, 2, 3, 4, 4);
    StagedAppend(a + b + c, d, 2, 4, 5, 5);
    StagedAppend(a + b + c + d, e, 2, 5, 6, 6);
  }

  lemma SettingsStaged(v: View, names: seq<string>, env: Env)
    ensures var q := Packages(v, names, env); var b := [SetOptions("-Wall")] + q.calls + Options(q.view);
      Staged(b) && OfStage(b, 1, 1)
  {
    hide Staged, OfStage, Packages;
    var q := Packages(v, names, env);
    PackagesPicked(v, names, env, Setting, true);
    OneStage([SetOptions("-Wall")] + q.calls + Options(q.view), 1);
  }

  /** The order: the kind of output, options, system include paths, include paths, library paths, libraries,
      files. */
  lemma HandedOverInOrder(v: View, out: bool, env: Env)
    requires Prepare(v, out, env).ok
    ensures var p := Prepare(v, out, env);
      Staged(p.calls) && p.calls != [] && p.calls[0] == SetOutput(!out) && forall c <- p.calls[1..] :: !c.SetOutput?
  {
    hide Staged, OfStage, Packages, Paths, Options, Prepare;
    PreparedParts(v, out, env);
    var q := Packages(v, v[PKGS], env);
    var a, b, c := [SetOutput(!out)], [SetOptions("-Wall")] + q.calls + Options(q.view), Paths(q.view);
    OneStage(a, 0);
    SettingsStaged(v, v[PKGS], env);
    PathsStaged(q.view);
    StagedAppend(b, c, 1, 1, 2, 6);
    StagedAppend(a, b + c, 0, 0, 1, 6);
    assert Prepare(v, out, env).calls == a + (b + c);
    assert (a + (b + c))[1..] == b + c;
    NoOutput(b + c);
  }

  lemma NoOutput(calls: seq<Call>)
    requires OfStage(calls, 1, 6)
    ensures forall c <- calls :: !c.SetOutput?
  {
  }

  // ---- what an unsuccessful one has handed over ---------------------------------------------------------------------

  /** A compiler that takes whatever it is offered. */
  function Willing(env: Env): Env {
    env.(accepts := (before, c) => true)
  }

  lemma {:induction false} WillingOffer(before: seq<Call>, calls: seq<Call>, env: Env)
    ensures Offer(before, calls, Willing(env)) == (calls, true)
    decreases calls
  {
    if calls != [] {
      WillingOffer(before + [calls[0]], calls[1..], env);
    }
  }

  lemma {:induction false} WillingPackages(v: View, names: seq<string>, env: Env)
    ensures Packages(v, names, Willing(env)) == Packages(v, names, env)
    decreases names
  {
    hide Parse, PushAll;
    if names != [] && env.package(names[0]).Some? {
      var p := Parse(CPrefix(env.package(names[0]).value));
      WillingPackages(PushAll(v, p.pushes), names[1..], env);
    }
  }

  /** Calls that the compiler may refuse. */
  predicate Refusable(c: Call) {
    !c.SetOptions?
  }

  /** Every refusable call but the last was taken; the last one was unless the whole failed. */
  predicate Taken(before: seq<Call>, calls: seq<Call>, ok: bool, env: Env) {
    forall i :: 0 <= i < |calls| && Refusable(calls[i]) && (ok || i < |calls| - 1) ==>
      env.accepts(before + calls[..i], calls[i])
  }

  predicate LastRefused(before: seq<Call>, calls: seq<Call>, env: Env) {
    calls != [] && Refusable(calls[|calls| - 1]) && !env.accepts(before + calls[..|calls| - 1], calls[|calls| - 1])
  }

  lemma TakenFront(before: seq<Call>, c: Call, rest: seq<Call>, ok: bool, env: Env)
    requires env.accepts(before, c) && Taken(before + [c], rest, ok, env)
    ensures Taken(before, [c] + rest, ok, env)
  {
    var all := [c] + rest;
    forall i | 0 <= i < |all| && Refusable(all[i]) && (ok || i < |all| - 1)
      ensures env.accepts(before + all[..i], all[i])
    {
      if i == 0 {
        assert before + all[..0] == before;
      } else {
        assert before + all[..i] == before + [c] + rest[..i - 1] && all[i] == rest[i - 1];
      }
    }
  }

  lemma RefusedFront(before: seq<Call>, c: Call, rest: seq<Call>, env: Env)
    requires LastRefused(before + [c], rest, env)
    ensures LastRefused(before, [c] + rest, env)
  {
    var all := [c] + rest;
    assert before + all[..|all| - 1] == before + [c] + rest[..|rest| - 1];
  }

  lemma {:induction false} OfferTaken(before: seq<Call>, calls: seq<Call>, env: Env)
    requires forall c <- calls :: Refusable(c)
    ensures var o := Offer(before, calls, env);
      Taken(before, o.0, o.1, env) && (!o.1 ==> LastRefused(before, o.0, env))
    decreases calls
  {
    hide Taken, LastRefused, Refusable;
    if calls == [] {
      NothingTaken(before, env);
    } else if env.accepts(before, calls[0]) {
      var r := Offer(before + [calls[0]], calls[1..], env);
      assert forall c <- calls[1..] :: c in calls;
      OfferTaken(before + [calls[0]], calls[1..], env);
      TakenFront(before, calls[0], r.0, r.1, env);
      if !r.1 {
        RefusedFront(before, calls[0], r.0, env);
      }
    } else {
      assert calls[0] in calls && calls[..1] == [calls[0]];
      OneRefused(before, calls[0], env);
    }
  }

  lemma NothingTaken(before: seq<Call>, env: Env)
    ensures Taken(before, [], true, env)
  {
  }

  lemma OneRefused(before: seq<Call>, c: Call, env: Env)
    requires Refusable(c) && !env.accepts(before, c)
    ensures Taken(before, [c], false, env) && LastRefused(before, [c], env)
  {
    assert before + [c][..0] == before;
  }

  lemma TakenBehind(front: seq<Call>, calls: seq<Call>, ok: bool, env: Env)
    requires Taken(front, calls, ok, env) && Taken([], front, true, env)
    ensures Taken([], front + calls, ok, env)
  {
    var all := front + calls;
    forall i | 0 <= i < |all| && Refusable(all[i]) && (ok || i < |all| - 1) ensures env.accepts([] + all[..i], all[i]) {
      if i < |front| {
        assert all[..i] == front[..i];
        assert [] + front[..i] == front[..i] && all[i] == front[i];
      } else {
        assert [] + all[..i] == front + calls[..i - |front|] && all[i] == calls[i - |front|];
      }
    }
  }

  lemma RefusedBehind(front: seq<Call>, calls: seq<Call>, env: Env)
    requires LastRefused(front, calls, env)
    ensures LastRefused([], front + calls, env)
  {
    var all := front + calls;
    assert [] + all[..|all| - 1] == front + calls[..|calls| - 1];
  }

  lemma SettingsTaken(out: bool, more: seq<Call>, env: Env)
    requires env.accepts([], SetOutput(!out)) && forall c <- more :: c.SetOptions?
    ensures Taken([], [SetOutput(!out)] + more, true, env)
  {
    var all := [SetOutput(!out)] + more;
    assert [] + all[..0] == [];
    forall i | 0 < i < |all| ensures !Refusable(all[i]) {
      assert all[i] == more[i - 1];
    }
  }

  lemma PathsRefusable(v: View)
    ensures forall c <- Paths(v) :: Refusable(c)
  {
  }

  lemma NotRefused(calls: seq<Call>, env: Env)
    requires Taken([], calls, true, env)
    ensures !LastRefused([], calls, env)
  {
  }

  /** What is handed over behind the packages. */
  lemma PathsUntil(front: seq<Call>, v: View, env: Env)
    requires Taken([], front, true, env)
    ensures var o := Offer(front, Paths(v), env);
      Taken([], front + o.0, o.1, env) && (!o.1 <==> LastRefused([], front + o.0, env)) && o.0 <= Paths(v)
  {
    hide Paths, Offer, Taken, LastRefused;
    PathsRefusable(v);
    OfferTaken(front, Paths(v), env);
    var o := Offer(front, Paths(v), env);
    TakenBehind(front, o.0, o.1, env);
    if o.1 {
      NotRefused(front + o.0, env);
    } else {
      RefusedBehind(front, o.0, env);
    }
  }

  /** What is handed over in front of the paths. */
  function Settings(v: View, out: bool, env: Env): seq<Call> {
    [SetOutput(!out), SetOptions("-Wall")] + Packages(v, v[PKGS], env).calls
  }

  lemma SettingsTold(v: View, out: bool, env: Env)
    requires env.accepts([], SetOutput(!out))
    ensures var q := Packages(v, v[PKGS], env);
      Taken([], Settings(v, out, env), true, env) && Taken([], Settings(v, out, env) + Options(q.view), true, env)
  {
    hide Packages, Options, Taken, Settings;
    var q := Packages(v, v[PKGS], env);
    PackagesPicked(v, v[PKGS], env, Setting, true);
    OptionsAreSettings(q.view);
    var more := [SetOptions("-Wall")] + q.calls;
    assert forall c <- more :: c.SetOptions?;
    SettingsTaken(out, more, env);
    SettingsTaken(out, more + Options(q.view), env);
    SettingsFront(v, out, env);
    Associative([SetOutput(!out)], more, Options(q.view));
  }

  lemma Associative(a: seq<Call>, b: seq<Call>, c: seq<Call>)
    ensures a + b + c == a + (b + c)
  {
  }

  lemma SettingsFront(v: View, out: bool, env: Env)
    ensures Settings(v, out, env) == [SetOutput(!out)] + ([SetOptions("-Wall")] + Packages(v, v[PKGS], env).calls)
  {
    hide Packages;
  }

  lemma PrepareCases(v: View, out: bool, env: Env)
    ensures var p, q := Prepare(v, out, env), Packages(v, v[PKGS], env);
      var front := Settings(v, out, env) + Options(q.view);
      p == if !env.accepts([], SetOutput(!out)) then Prep(v, [SetOutput(!out)], false)
        else if !q.ok then Prep(q.view, Settings(v, out, env), false)
        else Prep(q.view, front + Offer(front, Paths(q.view), env).0, Offer(front, Paths(q.view), env).1)
  {
    hide Packages, Options, Paths, Offer;
  }

  /** A willing compiler gets everything. */
  lemma WillingPrepare(v: View, out: bool, env: Env)
    ensures var p, q := Prepare(v, out, Willing(env)), Packages(v, v[PKGS], env);
      p.calls == if q.ok then Settings(v, out, env) + Options(q.view) + Paths(q.view) else Settings(v, out, env)
  {
    hide Packages, Options, Paths, Offer, Prepare;
    WillingPackages(v, v[PKGS], env);
    PrepareCases(v, out, Willing(env));
    var w := Packages(v, v[PKGS], env).view;
    WillingOffer(Settings(v, out, env) + Options(w), Paths(w), env);
  }

  /** Every preparation: each call that may be refused was taken, unless it was the last; a preparation
      fails exactly when its last call was refused or a package was missing or not understood; and what it
      has handed over is the beginning of what a willing compiler would have been given. */
  lemma HandedOverUntil(v: View, out: bool, env: Env)
    ensures var p := Prepare(v, out, env);
      Taken([], p.calls, p.ok, env) &&
      (!p.ok <==>
        LastRefused([], p.calls, env) || (env.accepts([], SetOutput(!out)) && !Packages(v, v[PKGS], env).ok)) &&
      p.calls <= Prepare(v, out, Willing(env)).calls
  {
    hide Packages, Paths, Options, Offer, Taken, LastRefused, Prepare, Settings;
    var q := Packages(v, v[PKGS], env);
    PrepareCases(v, out, env);
    WillingPrepare(v, out, env);
    if !env.accepts([], SetOutput(!out)) {
      OneRefused([], SetOutput(!out), env);
      OutputFirst(v, out, env);
    } else {
      SettingsTold(v, out, env);
      if q.ok {
        PathsUntil(Settings(v, out, env) + Options(q.view), q.view, env);
      } else {
        TakenStays(Settings(v, out, env), env);
      }
    }
  }

  lemma TakenStays(calls: seq<Call>, env: Env)
    requires Taken([], calls, true, env)
    ensures Taken([], calls, false, env)
  {
  }

  lemma OutputFirst(v: View, out: bool, env: Env)
    ensures [SetOutput(!out)] <= Settings(v, out, env)
  {
  }

  lemma OptionsAreSettings(v: View)
    ensures forall c <- Options(v) :: c.SetOptions?
  {
  }

  // ---- source files over a session --------------------------------------------------------------------------

  /** Source files are there for the first context only. */
  predicate FilesLeft(s: State, files: seq<string>) {
    s.view[SRCS] == if |s.tables| == 1 then files else []
  }

  predicate FilesGiven(log: seq<Event>, files: seq<string>) {
    forall e <- log :: e.what.DidPrepare? && e.what.ok ==>
      Picked(e.what.calls, File) == if e.ctx == 0 then files else []
  }

  predicate FilesOk(s: State, files: seq<string>) {
    FilesLeft(s, files) && FilesGiven(s.log, files)
  }

  /** A step without a preparation that leaves the source files alone. */
  lemma NothingGiven(s: State, t: State, more: seq<Event>, files: seq<string>)
    requires FilesOk(s, files) && t.view[SRCS] == s.view[SRCS] && |t.tables| == |s.tables| && t.log == s.log + more
    requires forall e <- more :: !e.what.DidPrepare?
    ensures FilesOk(t, files)
  {
  }

  lemma BuildFiles(s: State, env: Env, at: nat, files: seq<string>)
    requires FilesOk(s, files)
    ensures FilesOk(Build(s, env, at).0, files)
  {
    hide FilesOk, Printed, PilesOf, Compile, Execute;
    var t := Build(s, env, at).0;
    BuildQuietly(s, env, at);
    assert t.log == s.log + t.log[|s.log|..];
    NothingGiven(s, t, t.log[|s.log|..], files);
  }

  lemma BuildQuietly(s: State, env: Env, at: nat)
    ensures var t := Build(s, env, at).0;
      s.log <= t.log && t.view == s.view && |t.tables| == |s.tables| &&
      forall e <- t.log[|s.log|..] :: !e.what.DidPrepare?
  {
    hide Printed, PilesOf, Compile, Execute;
    if Compiled in s.flag {
      ExecuteQuietly(s, env, at);
    } else {
      var s1 := s.(flag := s.flag + {Generated}).Logged(at, DidGenerate(Printed(PilesOf(s.view))));
      CompileQuietly(s1, env, at);
      var s2 := Compile(s1, env, at).0;
      ExecuteQuietly(s2, env, at);
      LaterQuietly(s.log, s1.log, s2.log);
      LaterQuietly(s.log, s2.log, Execute(s2, env, at).0.log);
    }
  }

  lemma ExecuteQuietly(s: State, env: Env, at: nat)
    ensures var t := Execute(s, env, at).0;
      s.log <= t.log && t.view == s.view && |t.tables| == |s.tables| &&
      forall e <- t.log[|s.log|..] :: !e.what.DidPrepare?
  {
  }

  lemma CompileQuietly(s: State, env: Env, at: nat)
    ensures var t := Compile(s, env, at).0;
      s.log <= t.log && t.view == s.view && |t.tables| == |s.tables| &&
      forall e <- t.log[|s.log|..] :: !e.what.DidPrepare?
  {
    hide Carried;
  }

  lemma LaterQuietly(a: seq<Event>, b: seq<Event>, c: seq<Event>)
    requires a <= b <= c
    requires (forall e <- b[|a|..] :: !e.what.DidPrepare?) && forall e <- c[|b|..] :: !e.what.DidPrepare?
    ensures forall e <- c[|a|..] :: !e.what.DidPrepare?
  {
    assert c[|a|..] == b[|a|..] + c[|b|..];
  }

  lemma RunFiles(s: State, env: Env, at: nat, files: seq<string>)
    requires FilesOk(s, files)
    ensures FilesOk(Run(s, env, at).0, files)
  {
    hide Build, Prepare, Picked;
    if Prepared in s.flag {
      BuildFiles(s, env, at, files);
    } else {
      var p := Prepare(s.view, s.out, env);
      PrepareKeeps(s.view, s.out, env, SRCS);
      if p.ok {
        HandedOver(s.view, s.out, env);
      }
      var s1 := s.(view := p.view, flag := s.flag + {Prepared}).Logged(at, DidPrepare(p.calls, p.ok));
      assert FilesOk(s1, files);
      BuildFiles(s1, env, at, files);
    }
  }

  lemma TurnFiles(s: State, line: string, env: Env, at: nat, files: seq<string>)
    requires FilesOk(s, files)
    ensures FilesOk(Turn(s, line, env, at).0, files)
  {
    hide Run, Printed, PilesOf, Plan, Bare, TrimLine, Picked, FilesGiven;
    var s1 := if Loaded in s.flag then Chain(s) else s;
    assert FilesOk(s1, files);
    match Classify(TrimLine(line)) {
      case Nothing =>
      case Inner(rest) =>
        var what := DidDump(Bare(Plan(PilesOf(s1.view))));
        NothingGiven(s1, s1.(flag := s1.flag + {Generated}).Logged(at, what), [Event(at, s1.Index(), what)], files);
      case Add(k, t) =>
      case AddAndRun(t) => RunFiles(s1.(view := Pushed(s1.view, STMS, t)), env, at, files);
      case JustRun => RunFiles(s1, env, at, files);
    }
  }

  lemma {:induction false} InteractFiles(s: State, lines: seq<string>, env: nat -> Env, files: seq<string>)
    requires FilesOk(s, files)
    ensures FilesOk(Interact(s, lines, env).state, files)
  {
    hide FilesOk, Turn;
    if lines != [] {
      var n := |lines|;
      InteractFiles(s, lines[..n - 1], env, files);
      TurnFiles(Interact(s, lines[..n - 1], env).state, lines[n - 1], env(n), n, files);
    }
  }

  /** Over every session: the source files of the command line are handed over, all and in order, by every
      successful preparation of the first context, and by no other. */
  lemma FilesOfSession(s: State, lines: seq<string>, env: nat -> Env)
    requires Fresh(s)
    ensures forall e <- Session(s, lines, env).state.log :: e.what.DidPrepare? && e.what.ok ==>
      Picked(e.what.calls, File) == if e.ctx == 0 then s.view[SRCS] else []
  {
    hide Run, Interact, Picked;
    RunFiles(s, env(0), 0, s.view[SRCS]);
    InteractFiles(Begin(s, env).state, lines, env, s.view[SRCS]);
  }
}
