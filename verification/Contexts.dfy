/** A context of the piler: its phase flags, its place in the chain, its compiler and its piles. */
module Contexts {
  import opened Text
  import opened Lists
  import opened Piles
  import opened Compiler
  import opened Emitter
  import opened Program
  import opened Generate
  import opened Flat
  import opened Names
  import opened Preparing

  /** An acyclic line: next and prev are inverse, the index is the distance from the base, and all
      share the same first. */
  ghost predicate Linked(all: seq<Context>)
    reads (set c <- all)`c_index, (set c <- all)`c_first, (set c <- all)`c_prev, (set c <- all)`c_next
  {
    forall i :: 0 <= i < |all| ==>
      all[i].c_index == i && all[i].c_first == all[0] &&
      all[i].c_prev == (if i == 0 then null else all[i - 1]) &&
      all[i].c_next == (if i + 1 < |all| then all[i + 1] else null)
  }

  /** What has happened, written down as it happens. */
  class Journal {
    ghost var log: seq<Event>

    constructor ()
      ensures log == []
    {
      log := [];
    }

    ghost method Note(at: nat, ctx: nat, what: What)
      modifies this
      ensures log == old(log) + [Event(at, ctx, what)]
    {
      log := log + [Event(at, ctx, what)];
    }
  }

  lemma AllGrown(theirs: set<object>, live: set<object>, theirsNow: set<object>, liveNow: set<object>)
    requires theirs == {} && theirsNow <= liveNow && live - theirs == liveNow - theirsNow
    ensures liveNow == live + theirsNow
  {
    assert liveNow == (liveNow - theirsNow) + theirsNow && live - theirs == live;
  }

  lemma BothParts(live: set<object>, own: set<object>, theirs: set<object>)
    ensures live - (own + theirs) == (live - theirs) - own
  {
  }

  /** `cplr_tcc_redefsym_cb` */
  method RedefineSymbol(tcc: TCC, name: string)
    modifies tcc`names
    ensures tcc.names == old(tcc.names) + if Passes(name) then {name} else {}
    ensures tcc.names == old(tcc.names) + if Reserved(name) then {} else {name}
  {
    ReservedStays(name);
    hide Reserved;
    if "_" <= name {
      return;
    }
    if name == "main" {
      return;
    }
    if name == "exit" {
      return;
    }
    if name == "atexit" {
      return;
    }
    if name == "on_exit" {
      return;
    }
    if "tcc_" <= name {
      return;
    }
    if |name| >= 4 && name[|name| - 4..] == "@plt" {
      return;
    }
    tcc.Define({name});
  }

  /** `tcc_list_symbols`, in whatever order, with the callback above. */
  method RedefineSymbols(prev: TCC, tcc: TCC)
    requires prev != tcc
    modifies tcc`names
    ensures tcc.names == old(tcc.names) + Carried(prev.names)
  {
    hide Passes;
    var todo := prev.names;
    while todo != {}
      invariant todo <= prev.names && tcc.names == old(tcc.names) + Carried(prev.names - todo)
      decreases |todo|
    {
      var name :| name in todo;
      RedefineSymbol(tcc, name);
      todo := todo - {name};
    }
    assert prev.names - todo == prev.names;
  }

  lemma LastTable(earlier: seq<set<string>>, a: set<string>, b: set<string>)
    ensures (earlier + [a])[|earlier| := b] == earlier + [b]
    ensures earlier != [] ==> (earlier + [a])[|earlier| - 1] == earlier[|earlier| - 1]
  {
  }

  class Context {
    var flag: set<Flag>
    var dump: nat
    var out: Option<string>
    var c_index: nat
    var c_first: Context
    var c_prev: Context?
    var c_next: Context?
    var tcc: TCC?
    const ps: PileSet
    const gen: Generator

    /** The context record itself and its compiler. */
    ghost function Own(): set<object>
      reads this`tcc
    {
      {this} + if tcc == null then {} else {tcc}
    }

    /** Every allocation that this context has to give back. */
    ghost function Cells(): set<object>
      reads this`tcc, ps
    {
      Own() + ps.Cells()
    }

    ghost function Frame(): set<object>
      reads this`tcc, ps
    {
      Own() + {gen} + ps.Repr()
    }

    /** A well-formed context, apart from the ledger and the journal. */
    ghost predicate Ok(mem: Ledger, j: Journal)
      reads this`tcc, gen`g_prevfile, ps, ps.Repr()
    {
      ps.Valid() && |ps.view| == COUNT && Own() !! ps.Repr() && gen !in ps.Repr() && gen.g_prevfile == None &&
      mem !in Own() + ps.Repr() && j !in Own() + ps.Repr()
    }

    /** A compiler exists exactly from the preparation on. */
    ghost predicate HasCompiler()
      reads this`tcc, this`flag
    {
      tcc != null <==> Prepared in flag
    }

    lemma Opened(mem: Ledger, j: Journal)
      requires Ok(mem, j)
      ensures ps.Valid() && |ps.view| == COUNT && gen.g_prevfile == None
      ensures Own() !! ps.Repr() && gen !in ps.Repr() && mem !in Own() + ps.Repr() && j !in Own() + ps.Repr()
      ensures this in Own() && (tcc != null ==> tcc in Own()) && ps.Cells() <= ps.Repr() && ps in ps.Repr()
      ensures Frame() == Own() + {gen} + ps.Repr() && Cells() == Own() + ps.Cells() && Cells() <= Frame()
    {
    }

    lemma IsOk(mem: Ledger, j: Journal)
      requires ps.Valid() && |ps.view| == COUNT && gen.g_prevfile == None
      requires Own() !! ps.Repr() && gen !in ps.Repr() && mem !in Own() + ps.Repr() && j !in Own() + ps.Repr()
      ensures Ok(mem, j)
    {
    }

    lemma IsBacked(mem: Ledger, j: Journal)
      requires Ok(mem, j) && Cells() <= mem.live
      ensures ps.Backed(mem)
    {
    }

    lemma IsNew()
      requires tcc == null
      ensures Own() == {this}
    {
    }

    lemma IsAll()
      ensures Frame() == Own() + {gen} + ps.Repr() && Cells() == Own() + ps.Cells()
    {
    }

    /** The names that its compiler knows. */
    ghost function Table(): set<string>
      reads this`tcc, tcc
    {
      if tcc == null then {} else tcc.names
    }

    /** The context is the next one behind contexts with the given tables. */
    ghost predicate Follows(earlier: seq<set<string>>, others: set<object>)
      reads this`c_index, this`c_prev,
            (if c_prev == null then {} else {c_prev})`tcc, (if c_prev == null then {} else {c_prev})`flag,
            (if c_prev == null || c_prev.tcc == null then {} else {c_prev.tcc})`names
    {
      c_index == |earlier| && (c_prev == null <==> earlier == []) &&
      (c_prev != null ==>
        c_prev in others && Loaded in c_prev.flag &&
        c_prev.tcc != null && c_prev.tcc in others && c_prev.tcc.names == earlier[c_index - 1])
    }

    /** The context as the newest of a chain with the given tables and history. */
    ghost function Abs(earlier: seq<set<string>>, log: seq<Event>): Condition
      requires |ps.view| == COUNT
      reads this, tcc, ps`view
    {
      State(ps.view, flag, out.Some?, earlier + [Table()], log)
    }

    /** `cplr_new` */
    constructor (mem: Ledger)
      modifies mem
      ensures fresh(Own() + {gen} + ps.Repr()) && ps.Valid() && |ps.view| == COUNT && gen.g_prevfile == None
      ensures Own() !! ps.Repr() && gen !in ps.Repr() && ps.view == NOTHING && ps.Cells() == {}
      ensures flag == {} && dump == 0 && out == None && tcc == null
      ensures c_index == 0 && c_first == this && c_prev == null && c_next == null
      ensures gen.Mem() == Memory(Initial, 0, None) && gen.g_codebuf == None && gen.g_dumpbuf == None
      ensures mem.live == old(mem.live) + {this} && mem.freed == old(mem.freed)
    {
      ps := new PileSet();
      gen := new Generator();
      flag, dump, out, tcc := {}, 0, None, null;
      c_index, c_first, c_prev, c_next := 0, this, null, null;
      new;
      mem.Track(this);
    }

    /** `cplr_clone`: equal piles in fresh memory, and nothing that was compiled or generated. */
    method Clone(mem: Ledger, ghost j: Journal, ghost world: set<object>) returns (r: Context)
      requires Ok(mem, j) && Cells() <= mem.live && Frame() <= world
      modifies mem
      ensures Ok(mem, j) && r.Ok(mem, j) && fresh(r.Frame()) && r.Frame() !! world
      ensures r.flag == flag && r.dump == dump && r.ps.view == ps.view
      ensures r.gen.Mem() == Memory(Initial, 0, None) && r.gen.g_codebuf == None && r.gen.g_dumpbuf == None
      ensures r.out == None && r.tcc == null && r.c_index == 0 && r.c_first == r && r.c_prev == null && r.c_next == null
      ensures mem.live == old(mem.live) + r.Cells() && mem.freed == old(mem.freed)
    {
      hide PileSet.PileOk, PileSet.Shape, PileSet.Cells, Ok, Cells, Frame, Own;
      Opened(mem, j);
      r := new Context(mem);
      r.flag, r.dump := flag, dump;
      r.IsNew();
      ghost var live, theirs := mem.live, r.ps.Cells();
      ps.Clone(mem, r.ps);
      AllGrown(theirs, live, r.ps.Cells(), mem.live);
      IsOk(mem, j);
      r.IsOk(mem, j);
      r.IsAll();
      assert old(mem.live) + {r} + r.ps.Cells() == old(mem.live) + ({r} + r.ps.Cells());
    }

    /** The end of `cplr_chain`: the volatile piles go back to the allocator. */
    method Shed(mem: Ledger, ghost j: Journal)
      requires Ok(mem, j) && Cells() <= mem.live
      modifies ps.Repr(), mem
      ensures Ok(mem, j) && Cells() <= mem.live && |old(ps.view)| == COUNT && ps.view == Kept(old(ps.view))
      ensures Frame() <= old(Frame()) && Cells() <= old(Cells())
      ensures mem.live - Cells() == old(mem.live - Cells()) && old(mem.freed) <= mem.freed
    {
      hide PileSet.PileOk, PileSet.Shape, PileSet.Cells, Ok, Cells, Frame, Own;
      Opened(mem, j);
      IsBacked(mem, j);
      ghost var live, theirs := mem.live, ps.Cells();
      ps.ClearVolatile(mem);
      StillLive(Own(), theirs, live, ps.Cells(), mem.live);
      IsOk(mem, j);
      IsAll();
      BothParts(live, Own(), theirs);
      BothParts(mem.live, Own(), ps.Cells());
    }

    /** The first part of `cplr_chain`: a clone is linked behind this context and its phase flags are cleared. */
    method Extend(mem: Ledger, ghost j: Journal, ghost world: set<object>) returns (n: Context)
      requires Ok(mem, j) && Cells() <= mem.live && Frame() <= world
      modifies this`c_next, mem
      ensures Ok(mem, j) && n.Ok(mem, j) && n.tcc == null && fresh(n.Frame()) && n.Frame() !! world
      ensures n.flag == flag - PHASES && n.dump == dump && n.out == None && n.ps.view == ps.view
      ensures n.c_index == c_index + 1 && n.c_first == c_first && n.c_prev == this && n.c_next == null && c_next == n
      ensures mem.live == old(mem.live) + n.Cells() && mem.freed == old(mem.freed)
    {
      hide Ok, Cells, Frame, Own, PileSet.Repr, PileSet.Valid, PileSet.Cells;
      n := Clone(mem, j, world);
      Opened(mem, j);
      n.Opened(mem, j);
      n.c_index := c_index + 1;
      n.c_first := c_first;
      n.c_prev := this;
      c_next := n;
      n.flag := n.flag - {Prepared, Compiled, Loaded, Executed, Finished};
    }

    /** `cplr_chain`: a new context behind this one, with the stable piles only. */
    method Chain(mem: Ledger, ghost j: Journal, ghost world: set<object>) returns (n: Context)
      requires Ok(mem, j) && Cells() <= mem.live && Frame() <= world
      modifies this`c_next, mem
      ensures Ok(mem, j) && n.Ok(mem, j) && n.HasCompiler() && fresh(n.Frame()) && n.Frame() !! world
      ensures n.flag == flag - PHASES && n.dump == dump && n.out == None && n.ps.view == Kept(ps.view) && n.Table() == {}
      ensures n.c_index == c_index + 1 && n.c_first == c_first && n.c_prev == this && n.c_next == null && c_next == n
      ensures mem.live == old(mem.live) + n.Cells() && old(mem.freed) <= mem.freed
    {
      hide Ok, Cells, Frame, Own, PileSet.Repr, PileSet.Valid, PileSet.Cells, Kept;
      n := Extend(mem, j, world);
      Opened(mem, j);
      n.Opened(mem, j);
      n.Shed(mem, j);
    }

    /** `cplr_free`: the compiler, the piles and the record itself are given back. */
    method Free(mem: Ledger, ghost j: Journal)
      requires Ok(mem, j) && Cells() <= mem.live
      modifies this`tcc, this`out, gen, ps.Repr(), mem
      ensures mem.live == old(mem.live) - old(Cells()) && old(mem.freed + Cells()) <= mem.freed
    {
      hide PileSet.PileOk, PileSet.Shape, PileSet.Cells;
      if tcc != null {
        mem.Release(tcc);
        tcc := null;
      }
      out := None;
      gen.g_codebuf, gen.g_dumpbuf := None, None;
      ps.ClearAll(mem);
      mem.Release(this);
    }

    // ---- the phases of a run ------------------------------------------------------------------------------

    /** `l_append_str_owned(..., strdup(...))` on one of the piles. */
    method Push(mem: Ledger, ghost j: Journal, k: nat, text: string, ghost others: set<object>)
      requires Ok(mem, j) && Cells() <= mem.live && Frame() !! others && k < COUNT
      modifies ps.Repr(), mem
      ensures Ok(mem, j) && Cells() <= mem.live && Frame() !! others
      ensures fresh(Frame() - old(Frame())) && fresh(ps.Repr() - old(ps.Repr()))
      ensures |old(ps.view)| == COUNT && ps.view == Pushed(old(ps.view), k, text)
      ensures mem.live - Cells() == old(mem.live - Cells()) && old(mem.freed) <= mem.freed
    {
      hide PileSet.PileOk, PileSet.Shape, PileSet.Cells, Ok, Cells, Frame, Own, Pushed;
      Opened(mem, j);
      IsBacked(mem, j);
      ghost var live, theirs := mem.live, ps.Cells();
      ps.Push(mem, k, text);
      Settled(mem, j, others, live, theirs);
      IsAll();
    }

    /** Accounts again after the piles alone have changed. */
    lemma Settled(mem: Ledger, j: Journal, others: set<object>, live: set<object>, theirs: set<object>)
      requires ps.Backed(mem) && |ps.view| == COUNT && gen.g_prevfile == None
      requires Own() !! ps.Repr() && gen !in ps.Repr() && j !in Own() + ps.Repr() && mem !in Own()
      requires Own() <= live && Own() !! theirs && mem.live - ps.Cells() == live - theirs
      requires others !! Own() + {gen} + ps.Repr()
      ensures Ok(mem, j) && Cells() <= mem.live && Frame() !! others
      ensures mem.live - Cells() == live - (Own() + theirs)
    {
      StillLive(Own(), theirs, live, ps.Cells(), mem.live);
      BothParts(live, Own(), theirs);
      BothParts(mem.live, Own(), ps.Cells());
    }

    /** `cplr_prepare`: PREPARED is set whatever came of it. */
    method Prepare(mem: Ledger, j: Journal, env: Env, at: nat, ghost others: set<object>) returns (ret: int)
      requires Ok(mem, j) && Cells() <= mem.live && Frame() !! others && tcc == null
      modifies this`tcc, this`flag, ps.Repr(), mem, j
      ensures Ok(mem, j) && Cells() <= mem.live && Frame() !! others && fresh(Frame() - old(Frame()))
      ensures mem.live - Cells() == old(mem.live - Cells()) && old(mem.freed) <= mem.freed
      ensures tcc != null && fresh(tcc) && tcc.names == {} && flag == old(flag) + {Prepared}
      ensures |old(ps.view)| == COUNT
      ensures var p := Flat.Prepare(old(ps.view), out.Some?, env);
        ps.view == p.view && tcc.calls == p.calls && ret == (if p.ok then 0 else 1) &&
        j.log == old(j.log) + [Event(at, c_index, DidPrepare(p.calls, p.ok))]
    {
      hide PileSet.Valid, PileSet.PileOk, PileSet.Shape, PileSet.Cells, Ok, Cells, Frame, Own, Flat.Prepare;
      Opened(mem, j);
      IsBacked(mem, j);
      IsNew();
      ghost var live, theirs := mem.live, ps.Cells();
      var t := new TCC();
      mem.Track(t);
      tcc := t;
      ret := TccPrepare(mem, ps, t, out.Some?, env);
      flag := flag + {Prepared};
      j.Note(at, c_index, DidPrepare(tcc.calls, ret == 0));
      IsCompiling();
      assert ps.Repr() !! others && ps.Backed(mem);
      Settled(mem, j, others, live + {t}, theirs);
      IsAll();
      assert live + {t} - ({this, t} + theirs) == live - ({this} + theirs);
    }

    lemma IsCompiling()
      requires tcc != null
      ensures Own() == {this, tcc}
    {
    }

    /** A phase is entered: its flag is set, and that is written down. */
    method Enter(ghost mem: Ledger, j: Journal, ghost at: nat, f: Flag, ghost what: What)
      requires Ok(mem, j)
      modifies this`flag, j
      ensures Ok(mem, j) && flag == old(flag) + {f} && j.log == old(j.log) + [Event(at, c_index, what)]
    {
      flag := flag + {f};
      j.Note(at, c_index, what);
    }

    /** The names of a compilation, whether it succeeds or not. */
    method Learn(ghost mem: Ledger, ghost j: Journal, more: set<string>)
      requires Ok(mem, j) && tcc != null
      modifies tcc`names
      ensures Ok(mem, j) && tcc.names == old(tcc.names) + more
    {
      tcc.Define(more);
    }

    /** The symbols of the previous context that pass the filter. */
    method CarryOver(ghost mem: Ledger, ghost j: Journal)
      requires Ok(mem, j) && tcc != null && c_prev != null && c_prev.tcc != null && c_prev.tcc != tcc
      modifies tcc`names
      ensures Ok(mem, j) && tcc.names == old(tcc.names) + Carried(c_prev.tcc.names)
    {
      hide Carried;
      RedefineSymbols(c_prev.tcc, tcc);
    }

    /** `cplr_tcc_compile` */
    method Compile(ghost mem: Ledger, j: Journal, env: Env, at: nat, ghost earlier: seq<set<string>>,
                   ghost others: set<object>) returns (ret: int)
      requires Ok(mem, j) && Frame() !! others && tcc != null && gen.g_codebuf.Some? && Follows(earlier, others)
      modifies this`flag, tcc`names, j
      ensures Ok(mem, j) && Follows(earlier, others) && |ps.view| == COUNT && old(flag) <= flag
      ensures (Abs(earlier, j.log), ret) == Flat.Compile(old(Abs(earlier, j.log)), env, at)
    {
      hide Ok, Frame, Own, Carried, PileSet.Valid, PileSet.Repr, PileSet.Cells;
      Opened(mem, j);
      ghost var names := tcc.names;
      LastTable(earlier, names, names + env.defines);
      Learn(mem, j, env.defines);
      if !env.compiles {
        return 1;
      }
      Enter(mem, j, at, Compiled, DidCompile);
      if c_prev != null && c_prev.tcc != null {
        CarryOver(mem, j);
      }
      LastTable(earlier, names, tcc.names);
      assert names + env.defines + {} == names + env.defines;
      if out == None {
        Enter(mem, j, at, Loaded, DidLoad);
      } else if !env.writes {
        return 1;
      }
      ret := 0;
    }

    /** `cplr_generate`, and what it leaves in the buffers. */
    method Generate(ghost mem: Ledger, ghost j: Journal, level: nat)
      requires Ok(mem, j)
      modifies this`flag, gen
      ensures Ok(mem, j) && |ps.view| == COUNT && flag == old(flag) + {Generated}
      ensures gen.g_codebuf == Some(Printed(PilesOf(ps.view)))
      ensures gen.g_dumpbuf == if level == 0 then None
                               else Some(if level > 1 then Printed(PilesOf(ps.view)) else Bare(Plan(PilesOf(ps.view))))
    {
      hide Printed, Bare, Plan;
      gen.Generate(ps, level);
      flag := flag + {Generated};
    }

    /** `cplr_execute`, unless running is switched off. */
    method Execute(ghost mem: Ledger, j: Journal, env: Env, at: nat, ghost earlier: seq<set<string>>) returns (ret: int)
      requires Ok(mem, j) && |ps.view| == COUNT
      modifies this`flag, j
      ensures Ok(mem, j) && |ps.view| == COUNT && old(flag) <= flag
      ensures |earlier| == c_index ==> (Abs(earlier, j.log), ret) == Flat.Execute(old(Abs(earlier, j.log)), env, at)
    {
      hide Ok;
      ret := 0;
      if NoRun !in flag {
        Enter(mem, j, at, Executed, DidExecute);
        ret := env.result;
        if Fork !in flag {
          SetFlag(mem, j, Finished);
        }
      }
    }

    method SetFlag(ghost mem: Ledger, ghost j: Journal, f: Flag)
      requires Ok(mem, j)
      modifies this`flag
      ensures Ok(mem, j) && flag == old(flag) + {f}
    {
      flag := flag + {f};
    }

    /** `cplr_run` behind the preparation: the program of the current piles is what gets compiled. */
    method Build(ghost mem: Ledger, j: Journal, env: Env, at: nat, ghost earlier: seq<set<string>>,
                 ghost others: set<object>) returns (ret: int)
      requires Ok(mem, j) && Frame() !! others && tcc != null && Follows(earlier, others)
      modifies this`flag, tcc`names, gen, j
      ensures Ok(mem, j) && |ps.view| == COUNT && Follows(earlier, others) && old(flag) <= flag
      ensures (Abs(earlier, j.log), ret) == Flat.Build(old(Abs(earlier, j.log)), env, at)
    {
      hide Ok, Frame, Flat.Execute, Flat.Compile, Printed, PilesOf;
      Opened(mem, j);
      if Compiled !in flag {
        Generate(mem, j, dump);
        j.Note(at, c_index, DidGenerate(gen.g_codebuf.value));
        ret := Compile(mem, j, env, at, earlier, others);
        if ret != 0 {
          ret := 1;
          return;
        }
      }
      ret := Execute(mem, j, env, at, earlier);
    }

    /** `cplr_run` */
    method Run(mem: Ledger, j: Journal, env: Env, at: nat, ghost earlier: seq<set<string>>,
               ghost others: set<object>) returns (ret: int)
      requires Ok(mem, j) && Cells() <= mem.live && Frame() !! others && HasCompiler() && Follows(earlier, others)
      modifies this`flag, this`tcc, (if tcc == null then {} else {tcc})`names, gen, ps.Repr(), mem, j
      ensures Ok(mem, j) && Cells() <= mem.live && Frame() !! others && HasCompiler() && Follows(earlier, others)
      ensures fresh(Frame() - old(Frame()))
      ensures mem.live - Cells() == old(mem.live - Cells()) && old(mem.freed) <= mem.freed
      ensures |old(ps.view)| == COUNT && |ps.view| == COUNT
      ensures (Abs(earlier, j.log), ret) == Flat.Run(old(Abs(earlier, j.log)), env, at)
    {
      hide Ok, Frame, Cells, Flat.Build, Flat.Prepare;
      Opened(mem, j);
      if Prepared !in flag {
        ret := Prepare(mem, j, env, at, others);
        if ret != 0 {
          return;
        }
      }
      ret := Build(mem, j, env, at, earlier, others);
    }

    // ---- commands --------------------------------------------------------------------------------------------

    /** `cplr_find_syms`: the walk back ends after two steps at most, and finds nothing only when no
        context has been loaded. */
    method FindSyms(ghost earlier: seq<set<string>>, ghost others: set<object>) returns (res: TCC?, ghost steps: nat)
      requires Follows(earlier, others) && (Loaded in flag ==> tcc != null)
      ensures res == if Loaded in flag then tcc else if c_prev != null then c_prev.tcc else null
      ensures steps <= 2 && (res == null <==> Loaded !in flag && earlier == [])
    {
      res, steps := null, 0;
      var c: Context? := this;
      while c != null
        invariant steps <= 2 && c == if steps == 0 then this else if steps == 1 then c_prev else null
        invariant steps >= 1 ==> Loaded !in flag
        invariant steps == 2 ==> c_prev == null
        invariant res == null
        decreases 2 - steps
      {
        if Loaded in c.flag {
          res := c.tcc;
          steps := steps + 1;
          break;
        }
        c := c.c_prev;
        steps := steps + 1;
      }
    }
  }
}
