/** The preparation of a context: the order in which its piles reach the compiler. */
module Preparing {
  import opened Text
  import opened Lists
  import opened Piles
  import opened Package
  import opened Compiler
  import opened Flat

  /** A call whose refusal is an error. */
  method Ask(tcc: TCC, c: Call, env: Env) returns (ok: bool)
    modifies tcc`calls
    ensures tcc.calls == old(tcc.calls) + [c] && ok == env.accepts(old(tcc.calls), c)
  {
    ok := env.accepts(tcc.calls, c);
    tcc.Tell(c);
  }

  lemma {:induction false} OfferAppend(before: seq<Call>, a: seq<Call>, b: seq<Call>, env: Env)
    ensures Offer(before, a + b, env) ==
      if Offer(before, a, env).1 then (a + Offer(before + a, b, env).0, Offer(before + a, b, env).1)
      else Offer(before, a, env)
    decreases a
  {
    if a == [] {
      assert a + b == b && before + a == before && a + Offer(before, b, env).0 == Offer(before, b, env).0;
    } else {
      assert (a + b)[1..] == a[1..] + b && (a + b)[0] == a[0] && (a + b)[..1] == a[..1];
      OfferAppend(before + [a[0]], a[1..], b, env);
      assert before + [a[0]] + a[1..] == before + a;
      var r := Offer(before + a, b, env);
      assert [a[0]] + (a[1..] + r.0) == a + r.0;
    }
  }

  lemma {:induction false} OfferSnoc(before: seq<Call>, a: seq<Call>, c: Call, env: Env)
    requires Offer(before, a, env).1
    ensures Offer(before, a + [c], env) == (a + [c], env.accepts(before + a, c))
  {
    OfferAppend(before, a, [c], env);
    assert Offer(before + a, [c], env) == ([c], env.accepts(before + a, c)) by {
      assert [c][1..] == [] && [c] + [] == [c] && [c][..1] == [c];
    }
  }

  /** `L_FORWARD` over a pile whose items are only told to the compiler. */
  method TellAll(tcc: TCC, list: List, f: string -> Call)
    requires list.Valid()
    modifies tcc`calls
    ensures tcc.calls == old(tcc.calls) + Calls(f, list.Contents())
  {
    hide List.Valid;
    var items := list.Listing(false);
    var i := 0;
    while i < |items|
      invariant i <= |items| && tcc.calls == old(tcc.calls) + Calls(f, items[..i])
    {
      CallsSnoc(f, items, i);
      tcc.Tell(f(items[i]));
      i := i + 1;
    }
    assert items[..i] == items;
  }

  lemma CallsSnoc(f: string -> Call, items: seq<string>, i: nat)
    requires i < |items|
    ensures Calls(f, items[..i + 1]) == Calls(f, items[..i]) + [f(items[i])]
  {
  }

  /** `L_FORWARD` over a pile whose items the compiler may refuse: the first refusal leaves the loop. */
  method AskAll(tcc: TCC, list: List, f: string -> Call, env: Env) returns (ok: bool)
    requires list.Valid()
    modifies tcc`calls
    ensures var o := Offer(old(tcc.calls), Calls(f, list.Contents()), env);
      tcc.calls == old(tcc.calls) + o.0 && ok == o.1
  {
    hide List.Valid, Calls, Offer;
    var items := list.Listing(false);
    ghost var before, all := tcc.calls, Calls(f, items);
    AskNothing(before, f, env);
    var i := 0;
    while i < |items|
      invariant i <= |items| && Offer(before, Calls(f, items[..i]), env).1
      invariant tcc.calls == old(tcc.calls) + Calls(f, items[..i])
    {
      CallsSnoc(f, items, i);
      CallsSplit(f, items, i + 1);
      OfferSnoc(before, Calls(f, items[..i]), f(items[i]), env);
      OfferAppend(before, Calls(f, items[..i + 1]), Calls(f, items[i + 1..]), env);
      ok := Ask(tcc, f(items[i]), env);
      if !ok {
        return;
      }
      i := i + 1;
    }
    assert items[..i] == items;
    ok := true;
    OfferAllOf(before, all, env);
  }

  lemma AskNothing(before: seq<Call>, f: string -> Call, env: Env)
    ensures Calls(f, []) == [] && Offer(before, [], env) == ([], true)
  {
  }

  lemma OfferAllOf(before: seq<Call>, all: seq<Call>, env: Env)
    requires Offer(before, all, env).1
    ensures Offer(before, all, env).0 == all
  {
  }

  lemma CallsSplit(f: string -> Call, items: seq<string>, i: nat)
    requires i <= |items|
    ensures Calls(f, items) == Calls(f, items[..i]) + Calls(f, items[i..])
  {
  }

  /** Telling the compiler something leaves the piles alone. */
  method TellBeside(tcc: TCC, c: Call, ghost mem: Ledger, ghost ps: PileSet)
    requires ps.Backed(mem) && tcc !in ps.Repr()
    modifies tcc`calls
    ensures ps.Backed(mem) && tcc !in ps.Repr() && tcc.calls == old(tcc.calls) + [c]
    ensures ps.Repr() == old(ps.Repr()) && ps.Cells() == old(ps.Cells())
  {
    tcc.Tell(c);
  }

  // ---- packages --------------------------------------------------------------------------------------------

  /** `cplr_pkgconfig_prepare`: the whole answer goes to the compiler before it is parsed onto the piles. */
  method PkgconfigPrepare(mem: Ledger, ps: PileSet, tcc: TCC, name: string, env: Env) returns (ret: int)
    requires ps.Backed(mem) && tcc !in ps.Repr()
    modifies ps.Repr(), mem, tcc`calls
    ensures ps.Backed(mem) && tcc !in ps.Repr() && |old(ps.view)| == COUNT
    ensures var p := Packages(old(ps.view), [name], env);
      |ps.view| == COUNT && ps.view == p.view && tcc.calls == old(tcc.calls) + p.calls && ret == if p.ok then 0 else 1
    ensures old(ps.Cells()) <= ps.Cells() && fresh(ps.Repr() - old(ps.Repr()))
    ensures mem.live - ps.Cells() == old(mem.live - ps.Cells()) && mem.freed == old(mem.freed)
  {
    assert |ps.view| == COUNT && tcc as object != ps && tcc as object != mem;
    hide *;
    OnePackage(ps.view, name, env);
    if env.package(name) == None {
      ret := 1;
      return;
    }
    var s := CPrefix(env.package(name).value);
    ghost var before := tcc.calls;
    TellBeside(tcc, SetOptions(s), mem, ps);
    ret := PkgconfigAdd(mem, ps, tcc, s);
    assert before + [SetOptions(s)] + Threads(Parse(s).pthreads) == before + ([SetOptions(s)] + Threads(Parse(s).pthreads));
  }

  lemma OnePackage(v: View, name: string, env: Env)
    ensures Packages(v, [name], env) ==
      match env.package(name)
      case None => Prep(v, [], false)
      case Some(s) =>
        var p := Parse(CPrefix(s));
        Prep(PushAll(v, p.pushes), [SetOptions(CPrefix(s))] + Threads(p.pthreads), p.ok)
  {
    hide Parse, PushAll, Threads;
    match env.package(name) {
      case None =>
      case Some(s) =>
        var p := Parse(CPrefix(s));
        var here := Prep(PushAll(v, p.pushes), [SetOptions(CPrefix(s))] + Threads(p.pthreads), p.ok);
        assert [name][1..] == [] && Packages(here.view, [], env) == Prep(here.view, [], true);
        assert here.calls + [] == here.calls;
    }
  }

  lemma {:induction false} PackagesAppend(v: View, a: seq<string>, b: seq<string>, env: Env)
    ensures var p := Packages(v, a, env); var q := Packages(p.view, b, env);
      Packages(v, a + b, env) == if p.ok then Prep(q.view, p.calls + q.calls, q.ok) else p
    decreases a
  {
    hide Parse, PushAll, Threads;
    if a == [] {
      assert a + b == b;
      var q := Packages(v, b, env);
      assert [] + q.calls == q.calls;
    } else {
      assert (a + b)[1..] == a[1..] + b && (a + b)[0] == a[0];
      match env.package(a[0]) {
        case None =>
        case Some(s) =>
          var pushes := Parse(CPrefix(s)).pushes;
          PackagesAppend(PushAll(v, pushes), a[1..], b, env);
          var r := Packages(PushAll(v, pushes), a[1..], env);
          var q := Packages(r.view, b, env);
          var c := [SetOptions(CPrefix(s))] + Threads(Parse(CPrefix(s)).pthreads);
          assert c + (r.calls + q.calls) == c + r.calls + q.calls;
      }
    }
  }

  /** The loop over the package pile. Only other piles grow meanwhile. */
  method PackageLoop(mem: Ledger, ps: PileSet, tcc: TCC, names: seq<string>, env: Env) returns (ok: bool)
    requires |ps.view| == COUNT && ps.Backed(mem) && tcc !in ps.Repr()
    modifies ps.Repr(), mem, tcc`calls
    ensures ps.Backed(mem) && tcc !in ps.Repr() && |old(ps.view)| == COUNT
    ensures var p := Packages(old(ps.view), names, env);
      ps.view == p.view && tcc.calls == old(tcc.calls) + p.calls && ok == p.ok
    ensures old(ps.Cells()) <= ps.Cells() && fresh(ps.Repr() - old(ps.Repr()))
    ensures mem.live - ps.Cells() == old(mem.live - ps.Cells()) && mem.freed == old(mem.freed)
  {
    hide PileSet.Shape, PileSet.PileOk, PileSet.Cells, Packages;
    ghost var got := Prep(ps.view, [], true);
    NoPackages(ps.view, env);
    assert names[..0] == [] && tcc.calls + [] == tcc.calls;
    var i := 0;
    while i < |names|
      invariant i <= |names| && |ps.view| == COUNT && ps.Backed(mem) && tcc !in ps.Repr()
      invariant got.ok && Packages(old(ps.view), names[..i], env) == got
      invariant ps.view == got.view && tcc.calls == old(tcc.calls) + got.calls
      invariant old(ps.Cells()) <= ps.Cells() && fresh(ps.Repr() - old(ps.Repr()))
      invariant mem.live - ps.Cells() == old(mem.live - ps.Cells()) && mem.freed == old(mem.freed)
    {
      NextPackage(old(ps.view), names, i, env, got);
      ghost var more := Packages(got.view, [names[i]], env);
      var ret := PkgconfigPrepare(mem, ps, tcc, names[i], env);
      assert old(tcc.calls) + (got.calls + more.calls) == old(tcc.calls) + got.calls + more.calls;
      got := Prep(more.view, got.calls + more.calls, more.ok);
      if ret != 0 {
        ok := false;
        return;
      }
      i := i + 1;
    }
    assert names[..i] == names;
    ok := true;
  }

  lemma NextPackage(v: View, names: seq<string>, i: nat, env: Env, got: Prep)
    requires i < |names| && got == Packages(v, names[..i], env) && got.ok
    ensures var p := Packages(got.view, [names[i]], env); var q := Prep(p.view, got.calls + p.calls, p.ok);
      Packages(v, names[..i + 1], env) == q && (!p.ok ==> Packages(v, names, env) == q)
  {
    hide Packages;
    PackagesAppend(v, names[..i], [names[i]], env);
    assert names[..i] + [names[i]] == names[..i + 1];
    PackagesAppend(v, names[..i + 1], names[i + 1..], env);
    assert names[..i + 1] + names[i + 1..] == names;
  }

  lemma NoPackages(v: View, env: Env)
    ensures Packages(v, [], env) == Prep(v, [], true)
  {
  }

  /** The items of one pile, in order. */
  method PileItems(ghost mem: Ledger, ps: PileSet, k: nat) returns (items: seq<string>)
    requires ps.Backed(mem) && k < COUNT
    ensures ps.Backed(mem) && |ps.view| == COUNT && items == ps.view[k]
  {
    ps.PileIsOk(k);
    items := ps.piles[k].Listing(false);
  }

  // ---- the whole preparation ---------------------------------------------------------------------------------

  method TellPile(ghost mem: Ledger, ps: PileSet, tcc: TCC, k: nat, f: string -> Call)
    requires ps.Backed(mem) && tcc !in ps.Repr() && k < COUNT
    modifies tcc`calls
    ensures ps.Backed(mem) && tcc !in ps.Repr() && |ps.view| == COUNT
    ensures ps.Repr() == old(ps.Repr()) && ps.Cells() == old(ps.Cells())
    ensures tcc.calls == old(tcc.calls) + Calls(f, ps.view[k])
  {
    ps.PileIsOk(k);
    TellAll(tcc, ps.piles[k], f);
  }

  method AskBeside(ghost mem: Ledger, ps: PileSet, tcc: TCC, c: Call, env: Env) returns (ok: bool)
    requires ps.Backed(mem) && tcc !in ps.Repr()
    modifies tcc`calls
    ensures ps.Backed(mem) && tcc !in ps.Repr()
    ensures ps.Repr() == old(ps.Repr()) && ps.Cells() == old(ps.Cells())
    ensures tcc.calls == old(tcc.calls) + [c] && ok == env.accepts(old(tcc.calls), c)
    ensures Offer(old(tcc.calls), [c], env) == ([c], ok)
  {
    OfferSnoc(tcc.calls, [], c, env);
    assert [] + [c] == [c] && tcc.calls + [] == tcc.calls;
    ok := Ask(tcc, c, env);
  }

  /** What is still to be offered after some of the calls were taken. */
  ghost predicate Offering(before: seq<Call>, all: seq<Call>, done: seq<Call>, rest: seq<Call>, env: Env) {
    var r := Offer(before + done, rest, env);
    Offer(before, all, env) == (done + r.0, r.1)
  }

  lemma OfferStep(before: seq<Call>, all: seq<Call>, done: seq<Call>, a: seq<Call>, rest: seq<Call>, env: Env)
    requires Offering(before, all, done, a + rest, env)
    ensures var r := Offer(before + done, a, env);
      if r.1 then r.0 == a && Offering(before, all, done + a, rest, env)
      else Offer(before, all, env) == (done + r.0, false)
  {
    hide Offer;
    OfferAppend(before + done, a, rest, env);
    if Offer(before + done, a, env).1 {
      OfferAllOf(before + done, a, env);
      assert before + done + a == before + (done + a);
      var r := Offer(before + (done + a), rest, env);
      assert done + (a + r.0) == done + a + r.0;
    }
  }

  /** The calls so far were taken in order, and `rest` is still to be offered. */
  ghost predicate Asked(tcc: TCC, before: seq<Call>, all: seq<Call>, rest: seq<Call>, env: Env)
    reads tcc
  {
    exists done :: tcc.calls == before + done && Offering(before, all, done, rest, env)
  }

  /** One of the calls was refused. */
  ghost predicate Refused(tcc: TCC, before: seq<Call>, all: seq<Call>, env: Env)
    reads tcc
  {
    !Offer(before, all, env).1 && tcc.calls == before + Offer(before, all, env).0
  }

  lemma AskedStep(tcc: TCC, before: seq<Call>, all: seq<Call>, a: seq<Call>, rest: seq<Call>, env: Env, done: seq<Call>)
    requires Offering(before, all, done, a + rest, env)
    requires tcc.calls == before + done + Offer(before + done, a, env).0
    ensures if Offer(before + done, a, env).1 then Asked(tcc, before, all, rest, env) else Refused(tcc, before, all, env)
  {
    hide Offer, Offering;
    OfferStep(before, all, done, a, rest, env);
    assert tcc.calls == before + (done + Offer(before + done, a, env).0);
  }

  lemma AskedAll(tcc: TCC, before: seq<Call>, all: seq<Call>, env: Env, ok: bool)
    requires if ok then Asked(tcc, before, all, [], env) else Refused(tcc, before, all, env)
    ensures tcc.calls == before + Offer(before, all, env).0 && ok == Offer(before, all, env).1
  {
    if ok {
      var done :| tcc.calls == before + done && Offering(before, all, done, [], env);
      assert done + [] == done;
    }
  }

  lemma AskedNothing(tcc: TCC, all: seq<Call>, env: Env)
    ensures Asked(tcc, tcc.calls, all, all, env)
  {
    assert tcc.calls + [] == tcc.calls;
    assert [] + Offer(tcc.calls, all, env).0 == Offer(tcc.calls, all, env).0;
    assert tcc.calls == tcc.calls + [] && Offering(tcc.calls, all, [], all, env);
  }

  method AskPile(ghost mem: Ledger, ps: PileSet, tcc: TCC, k: nat, f: string -> Call, env: Env,
                 ghost before: seq<Call>, ghost all: seq<Call>, ghost rest: seq<Call>) returns (ok: bool)
    requires ps.Backed(mem) && tcc !in ps.Repr() && k < COUNT && |ps.view| == COUNT
    requires Asked(tcc, before, all, Calls(f, ps.view[k]) + rest, env)
    modifies tcc`calls
    ensures ps.Backed(mem) && tcc !in ps.Repr() && ps.Repr() == old(ps.Repr()) && ps.Cells() == old(ps.Cells())
    ensures if ok then Asked(tcc, before, all, rest, env) else Refused(tcc, before, all, env)
  {
    hide PileSet.Shape, PileSet.PileOk, Offer, Calls, Offering;
    ps.PileIsOk(k);
    ghost var a := Calls(f, ps.view[k]);
    ghost var done :| tcc.calls == before + done && Offering(before, all, done, a + rest, env);
    ok := AskAll(tcc, ps.piles[k], f, env);
    AskedStep(tcc, before, all, a, rest, env, done);
  }

  method AskHere(ghost mem: Ledger, ps: PileSet, tcc: TCC, c: Call, env: Env,
                 ghost before: seq<Call>, ghost all: seq<Call>, ghost rest: seq<Call>) returns (ok: bool)
    requires ps.Backed(mem) && tcc !in ps.Repr()
    requires Asked(tcc, before, all, [c] + rest, env)
    modifies tcc`calls
    ensures ps.Backed(mem) && tcc !in ps.Repr() && ps.Repr() == old(ps.Repr()) && ps.Cells() == old(ps.Cells())
    ensures if ok then Asked(tcc, before, all, rest, env) else Refused(tcc, before, all, env)
  {
    hide PileSet.Backed, PileSet.Valid, PileSet.Repr, Offer, Offering;
    ghost var done :| tcc.calls == before + done && Offering(before, all, done, [c] + rest, env);
    ok := AskBeside(mem, ps, tcc, c, env);
    AskedStep(tcc, before, all, [c], rest, env, done);
  }

  /** Include and library paths, libraries and files. */
  method AskPaths(ghost mem: Ledger, ps: PileSet, tcc: TCC, env: Env) returns (ok: bool)
    requires ps.Backed(mem) && tcc !in ps.Repr() && |ps.view| == COUNT
    modifies tcc`calls
    ensures ps.Backed(mem) && tcc !in ps.Repr() && ps.Repr() == old(ps.Repr()) && ps.Cells() == old(ps.Cells())
    ensures var o := Offer(old(tcc.calls), Paths(ps.view), env); tcc.calls == old(tcc.calls) + o.0 && ok == o.1
  {
    hide PileSet.Backed, PileSet.Repr, PileSet.Valid, PileSet.Cells, Offer, Calls, Asked, Refused;
    ghost var v: View := ps.view;
    ghost var all, before := Paths(v), tcc.calls;
    ghost var r7: seq<Call> := [];
    ghost var r6 := Calls(s => AddFile(s), v[SRCS]) + r7;
    ghost var r5 := Calls(s => AddLibrary(s), v[LIBS]) + r6;
    ghost var r4 := [AddLibraryPath(".")] + r5;
    ghost var r3 := Calls(s => AddLibraryPath(s), v[LIBDIRS]) + r4;
    ghost var r2 := [AddInclude(".")] + r3;
    ghost var r1 := Calls(s => AddInclude(s), v[INCDIRS]) + r2;
    Associate(Calls(s => AddSysInclude(s), v[SYSDIRS]), Calls(s => AddInclude(s), v[INCDIRS]), [AddInclude(".")],
      Calls(s => AddLibraryPath(s), v[LIBDIRS]), [AddLibraryPath(".")], Calls(s => AddLibrary(s), v[LIBS]),
      Calls(s => AddFile(s), v[SRCS]));
    AskedNothing(tcc, all, env);
    ok := AskPile(mem, ps, tcc, SYSDIRS, s => AddSysInclude(s), env, before, all, r1);
    if ok { ok := AskPile(mem, ps, tcc, INCDIRS, s => AddInclude(s), env, before, all, r2); }
    if ok { ok := AskHere(mem, ps, tcc, AddInclude("."), env, before, all, r3); }
    if ok { ok := AskPile(mem, ps, tcc, LIBDIRS, s => AddLibraryPath(s), env, before, all, r4); }
    if ok { ok := AskHere(mem, ps, tcc, AddLibraryPath("."), env, before, all, r5); }
    if ok { ok := AskPile(mem, ps, tcc, LIBS, s => AddLibrary(s), env, before, all, r6); }
    if ok { ok := AskPile(mem, ps, tcc, SRCS, s => AddFile(s), env, before, all, r7); }
    AskedAll(tcc, before, all, env, ok);
  }

  lemma Associate(a: seq<Call>, b: seq<Call>, c: seq<Call>, d: seq<Call>, e: seq<Call>, f: seq<Call>, g: seq<Call>)
    ensures a + (b + c) + (d + e) + f + g == a + (b + (c + (d + (e + (f + (g + []))))))
  {
  }

  method TccPrepare(mem: Ledger, ps: PileSet, tcc: TCC, out: bool, env: Env) returns (ret: int)
    requires ps.Backed(mem) && tcc !in ps.Repr() && tcc.calls == [] && |ps.view| == COUNT
    modifies ps.Repr(), mem, tcc`calls
    ensures ps.Backed(mem) && tcc !in ps.Repr()
    ensures var p := Prepare(old(ps.view), out, env); ps.view == p.view && tcc.calls == p.calls && ret == if p.ok then 0 else 1
    ensures old(ps.Cells()) <= ps.Cells() && fresh(ps.Repr() - old(ps.Repr()))
    ensures mem.live - ps.Cells() == old(mem.live - ps.Cells()) && mem.freed == old(mem.freed)
  {
    hide PileSet.Shape, PileSet.PileOk, PileSet.Cells, Packages, Offer, Calls, Paths;
    ret := 1;
    var names := PileItems(mem, ps, PKGS);
    var ok := AskBeside(mem, ps, tcc, SetOutput(!out), env);
    if !ok { return; }
    TellBeside(tcc, SetOptions("-Wall"), mem, ps);
    assert tcc.calls == [SetOutput(!out), SetOptions("-Wall")];
    ok := PackageLoop(mem, ps, tcc, names, env);
    if !ok { return; }
    ghost var calls := tcc.calls;
    TellPile(mem, ps, tcc, DEFDEF, s => SetOptions(s));
    TellPile(mem, ps, tcc, DEFS, s => SetOptions(s));
    assert tcc.calls == calls + Options(ps.view);
    ok := AskPaths(mem, ps, tcc, env);
    if !ok { return; }
    ret := 0;
  }
}
