/** What a typed line does to the current context. */
module Commands {
  import opened Text
  import opened Lists
  import opened Piles
  import opened Package
  import opened Emitter
  import opened Program
  import opened Generate
  import opened Tokeniser
  import opened Flat
  import opened Contexts

  lemma LinkAt(all: seq<Context>, i: nat)
    requires i < |all| && Linked(all)
    ensures all[i].c_next == (if i + 1 < |all| then all[i + 1] else null)
    ensures all[i].c_prev == (if i == 0 then null else all[i - 1])
    ensures all[i].c_index == i && all[i].c_first == all[0]
  {
  }

  /** The walk of `cmd_list` and `cmd_stat`: every context once, from the base to the newest. */
  method WalkForward(c: Context, ghost all: seq<Context>) returns (seen: seq<Context>)
    requires all != [] && Linked(all) && c in all
    ensures seen == all
  {
    seen := [];
    var cur: Context? := c.c_first;
    while cur != null
      invariant |seen| <= |all| && seen == all[..|seen|]
      invariant cur == if |seen| < |all| then all[|seen|] else null
      decreases |all| - |seen|
    {
      LinkAt(all, |seen|);
      seen := seen + [cur];
      cur := cur.c_next;
    }
  }

  /** The texts that `cmd_list` prints: the contexts that have something volatile. */
  method CmdList(c: Context, ghost all: seq<Context>) returns (listed: seq<nat>)
    requires all != [] && Linked(all) && c in all && forall i :: 0 <= i < |all| ==> all[i].ps.Valid() && |all[i].ps.view| == COUNT
    ensures forall i, k :: 0 <= i < k < |listed| ==> listed[i] < listed[k]
    ensures forall n: nat :: n in listed <==> n < |all| && !Empty(all[n].ps.view)
  {
    hide Empty;
    listed := [];
    ghost var at := 0;
    var cur: Context? := c.c_first;
    while cur != null
      invariant 0 <= at <= |all| && cur == if at < |all| then all[at] else null
      invariant forall i, k :: 0 <= i < k < |listed| ==> listed[i] < listed[k]
      invariant forall n <- listed :: n < at
      invariant forall n: nat :: n in listed <==> n < at && !Empty(all[n].ps.view)
      decreases |all| - at
    {
      LinkAt(all, at);
      var empty := IsEmpty(cur.ps);
      assert forall i :: 0 <= i < |listed| ==> listed[i] in listed;
      if !empty {
        listed := listed + [cur.c_index];
      }
      cur := cur.c_next;
      at := at + 1;
    }
  }

  /** `cplr_empty` */
  predicate IsEmpty(ps: PileSet): (e: bool)
    requires ps.Valid()
    reads ps, ps.Repr()
    ensures |ps.view| == COUNT && e == Empty(ps.view)
  {
    NothingPiled(ps);
    ps.piles[SRCS].c == 0 && ps.piles[TLFS].c == 0 && ps.piles[STMS].c == 0 && ps.piles[BEFS].c == 0 &&
    ps.piles[AFTS].c == 0
  }

  lemma NothingPiled(ps: PileSet)
    requires ps.Valid()
    ensures |ps.piles| == COUNT && |ps.view| == COUNT && forall k :: 0 <= k < COUNT ==> ps.piles[k] in ps.Repr()
    ensures forall k :: 0 <= k < COUNT ==> (ps.piles[k].c == 0 <==> ps.view[k] == [])
  {
    hide PileSet.PileOk, PileSet.Valid;
    ps.ViewSize();
    ps.PileIsOk(0);
    forall k | 0 <= k < COUNT
      ensures k < |ps.piles| && ps.piles[k] in ps.Repr() && (ps.piles[k].c == 0 <==> ps.view[k] == [])
    {
      ps.PileIsOk(k);
      NoItems(ps.piles[k]);
    }
  }

  lemma NoItems(l: List)
    requires l.Valid()
    ensures l.c == 0 <==> l.Contents() == []
  {
    assert |l.Contents()| == l.c;
  }

  /** The skipping of initial white space. */
  method SkipInitial(line: string, ghost c: Context, ghost scratch: Ledger, ghost all: seq<Context>) returns (rest: string)
    requires CText(line) && Walkable(all, c, scratch)
    ensures rest == TrimLine(line) && CText(rest) && Walkable(all, c, scratch) && c.Frame() == old(c.Frame())
  {
    hide PileSet.Valid, Linked;
    var i := 0;
    while i < |line| && Skipped(line[i])
      invariant i <= |line| && TrimLine(line[i..]) == TrimLine(line)
    {
      assert line[i..][1..] == line[i + 1..];
      i := i + 1;
    }
    rest := line[i..];
  }

  /** `cmd_dump`: a generation with the dump level set for its duration. */
  method CmdDump(c: Context, ghost mem: Ledger, j: Journal, at: nat)
    requires c.Ok(mem, j)
    modifies c`flag, c`dump, c.gen, j
    ensures c.Ok(mem, j) && |c.ps.view| == COUNT && c.dump == old(c.dump) && c.flag == old(c.flag) + {Generated}
    ensures j.log == old(j.log) + [Event(at, c.c_index, DidDump(Bare(Plan(PilesOf(c.ps.view)))))]
  {
    hide Bare, Plan, PilesOf, Printed;
    var save := c.dump;
    c.dump := 1;
    c.Generate(mem, j, c.dump);
    j.Note(at, c.c_index, DidDump(c.gen.g_dumpbuf.value));
    c.dump := save;
  }

  /** What `cmd_list` and `cmd_stat` walk over. */
  ghost predicate Walkable(all: seq<Context>, c: Context, scratch: Ledger)
    reads (set c <- all)`c_index, (set c <- all)`c_first, (set c <- all)`c_prev, (set c <- all)`c_next
    reads set c <- all :: c.ps, set c, o | c in all && o in c.ps.Repr() :: o
  {
    all != [] && Linked(all) && c in all &&
    forall i :: 0 <= i < |all| ==> all[i].ps.Valid() && |all[i].ps.view| == COUNT && scratch !in all[i].ps.Repr()
  }

  /** The command that is named, if it is known. */
  method Dispatch(c: Context, ghost mem: Ledger, j: Journal, ghost scratch: Ledger, cmd: string, at: nat, ret0: int,
                  ghost earlier: seq<set<string>>, ghost others: set<object>, ghost all: seq<Context>)
    returns (ret: int)
    requires c.Ok(mem, j) && c.Follows(earlier, others) && c.HasCompiler() && Loaded !in c.flag
    requires Walkable(all, c, scratch)
    modifies c`flag, c`dump, c.gen, j
    ensures c.Ok(mem, j) && |c.ps.view| == COUNT && c.HasCompiler() && c.dump == old(c.dump)
    ensures c.flag == old(c.flag) + if cmd == "d" then {Generated} else {}
    ensures j.log == old(j.log) + if cmd == "d" then [Event(at, c.c_index, DidDump(Bare(Plan(PilesOf(c.ps.view)))))] else []
    ensures ret == if cmd !in KNOWN then ret0 else if cmd == "q" then 1 else 0
  {
    hide Context.Ok, Context.Frame, Bare, Plan, PilesOf, Printed;
    c.Opened(mem, j);
    ret := 0;
    if cmd == "l" {
      var listed := CmdList(c, all);
    } else if cmd == "y" {
      var syms, steps := c.FindSyms(earlier, others);
    } else if cmd == "d" {
      CmdDump(c, mem, j, at);
    } else if cmd == "s" {
      var seen := WalkForward(c, all);
    } else if cmd == "q" {
      ret := 1;
    } else if cmd != "o" && cmd != "?" {
      ret := ret0;
    }
  }

  /** `cplr_command_internal`: the tokens of the line select a command by the first of them. */
  method CommandInternal(c: Context, ghost mem: Ledger, j: Journal, scratch: Ledger, line: string, at: nat,
                         ghost earlier: seq<set<string>>, ghost others: set<object>, ghost all: seq<Context>)
    returns (ret: int)
    requires c.Ok(mem, j) && c.Follows(earlier, others) && c.HasCompiler() && Loaded !in c.flag
    requires CText(line) && Walkable(all, c, scratch) && scratch !in c.Frame()
    modifies c`flag, c`dump, c.gen, j, scratch
    ensures c.Ok(mem, j) && |c.ps.view| == COUNT && c.HasCompiler() && c.Follows(earlier, others)
    ensures c.Frame() == old(c.Frame()) && c.Cells() == old(c.Cells())
    ensures c.dump == old(c.dump) && old(c.flag) <= c.flag
    ensures |scratch.live| == |old(scratch.live)| + LostByBoth(line)
    ensures (c.Abs(earlier, j.log), ret) == Internally(old(c.Abs(earlier, j.log)), line, at)
  {
    hide Context.Ok, Context.Frame, Context.Own, Walkable, Fields, Bare, Plan, PilesOf;
    c.Opened(mem, j);
    ret := if Interactive in c.flag then 0 else 1;
    var cmd := Arguments(c, mem, j, scratch, line, all);
    if cmd != None {
      ret := Dispatch(c, mem, j, scratch, cmd.value, at, ret, earlier, others, all);
    }
    assert old(j.log) + [] == old(j.log) && old(c.flag) + {} == old(c.flag);
  }

  /** The tokeniser works beside the contexts. */
  method Arguments(ghost c: Context, ghost mem: Ledger, ghost j: Journal, scratch: Ledger, line: string,
                   ghost all: seq<Context>) returns (cmd: Option<string>)
    requires c.Ok(mem, j) && Walkable(all, c, scratch) && CText(line)
    modifies scratch
    ensures c.Ok(mem, j) && Walkable(all, c, scratch)
    ensures cmd == if Fields(line) == [] then None else Some(Fields(line)[0])
    ensures |scratch.live| == |old(scratch.live)| + LostByBoth(line)
  {
    hide Fields, PileSet.PileOk, PileSet.Shape, LostByBoth;
    ghost var lost;
    cmd, lost := CommandName(scratch, line);
  }

  /** A line goes onto one of the piles. */
  method Pile(c: Context, mem: Ledger, ghost j: Journal, k: nat, text: string,
              ghost earlier: seq<set<string>>, ghost others: set<object>)
    requires c.Ok(mem, j) && c.Cells() <= mem.live && c.Frame() !! others && c.Follows(earlier, others) && k < COUNT
    modifies c.ps.Repr(), mem
    ensures c.Ok(mem, j) && c.Cells() <= mem.live && c.Frame() !! others && c.Follows(earlier, others)
    ensures c.HasCompiler() == old(c.HasCompiler()) && |c.ps.view| == COUNT
    ensures fresh(c.Frame() - old(c.Frame())) && fresh(c.ps.Repr() - old(c.ps.Repr()))
    ensures mem.live - c.Cells() == old(mem.live - c.Cells()) && old(mem.freed) <= mem.freed
    ensures var s := old(c.Abs(earlier, j.log)); c.Abs(earlier, j.log) == s.(view := Pushed(s.view, k, text))
  {
    hide Context.Ok, Context.Frame, Context.Cells, Context.Own, Pushed;
    c.Opened(mem, j);
    c.Push(mem, j, k, text, others);
    c.Opened(mem, j);
  }

  /** The switch of `cplr_command`: the first character of the trimmed line decides. */
  method Handle(c: Context, mem: Ledger, j: Journal, scratch: Ledger, rest: string, env: Env, at: nat,
                 ghost earlier: seq<set<string>>, ghost others: set<object>, ghost all: seq<Context>)
    returns (ret: int)
    requires c.Ok(mem, j) && c.Cells() <= mem.live && c.Frame() !! others && c.Follows(earlier, others)
    requires c.HasCompiler() && Loaded !in c.flag
    requires CText(rest) && TrimLine(rest) == rest && Walkable(all, c, scratch) && scratch in others && scratch != mem
    modifies c`flag, c`tcc, c`dump, (if c.tcc == null then {} else {c.tcc})`names, c.gen, c.ps.Repr(), mem, j, scratch
    ensures c.Ok(mem, j) && c.Cells() <= mem.live && c.Frame() !! others && c.Follows(earlier, others)
    ensures c.HasCompiler() && |c.ps.view| == COUNT && |old(c.ps.view)| == COUNT && fresh(c.Frame() - old(c.Frame()))
    ensures mem.live - c.Cells() == old(mem.live - c.Cells()) && old(mem.freed) <= mem.freed
    ensures |scratch.live| == |old(scratch.live)| + Leak(rest)
    ensures (c.Abs(earlier, j.log), ret) == Flat.Command(old(c.Abs(earlier, j.log)), rest, env, at)
  {
    hide Context.Ok, Context.Frame, Context.Cells, Context.Own, Context.Follows, Context.HasCompiler, Context.Abs,
         Walkable, Pushed, TrimLine, Flat.Run, Internally;
    c.Opened(mem, j);
    ret := 0;
    if |rest| == 0 || rest[0] == '?' || rest[0] == '!' {
      return;
    }
    if rest[0] == '\\' {
      ret := CommandInternal(c, mem, j, scratch, rest[1..], at, earlier, others, all);
      return;
    }
    if rest[0] == '@' {
      Pile(c, mem, j, TLDS, rest[1..], earlier, others);
      return;
    }
    if rest[0] == '^' {
      Pile(c, mem, j, TLFS, rest[1..], earlier, others);
      return;
    }
    if rest[0] == '<' {
      Pile(c, mem, j, BEFS, rest[1..], earlier, others);
      return;
    }
    if rest[0] == '>' {
      Pile(c, mem, j, AFTS, rest[1..], earlier, others);
      return;
    }
    if rest[0] != '.' {
      Pile(c, mem, j, STMS, rest, earlier, others);
    } else if |rest| > 1 {
      Pile(c, mem, j, STMS, rest[1..], earlier, others);
      return;
    }
    ghost var before, between := old(c.Frame()), c.Frame();
    label piled:
    var res := c.Run(mem, j, env, at, earlier, others);
    forall o: object | o in c.Frame() && o !in before ensures fresh(o) {
      if o in between {
        assert o in between - before;
      } else {
        assert o in c.Frame() - between;
        assert !old@piled(allocated(o));
      }
    }
  }

  /** `cplr_command`: the first character of the trimmed line decides; a failed run is no failure. */
  method Command(c: Context, mem: Ledger, j: Journal, scratch: Ledger, line: string, env: Env, at: nat,
                 ghost earlier: seq<set<string>>, ghost others: set<object>, ghost all: seq<Context>)
    returns (ret: int)
    requires c.Ok(mem, j) && c.Cells() <= mem.live && c.Frame() !! others && c.Follows(earlier, others)
    requires c.HasCompiler() && Loaded !in c.flag
    requires CText(line) && Walkable(all, c, scratch) && scratch in others && scratch != mem
    modifies c`flag, c`tcc, c`dump, (if c.tcc == null then {} else {c.tcc})`names, c.gen, c.ps.Repr(), mem, j, scratch
    ensures c.Ok(mem, j) && c.Cells() <= mem.live && c.Frame() !! others && c.Follows(earlier, others)
    ensures c.HasCompiler() && |c.ps.view| == COUNT && |old(c.ps.view)| == COUNT && fresh(c.Frame() - old(c.Frame()))
    ensures mem.live - c.Cells() == old(mem.live - c.Cells()) && old(mem.freed) <= mem.freed
    ensures |scratch.live| == |old(scratch.live)| + Leak(line)
    ensures (c.Abs(earlier, j.log), ret) == Flat.Command(old(c.Abs(earlier, j.log)), line, env, at)
  {
    hide Context.Ok, Context.Frame, Context.Cells, Context.Own, Context.Follows, Context.HasCompiler,
         Walkable, TrimLine, Flat.Command;
    c.Opened(mem, j);
    Trimmed(c.Abs(earlier, j.log), line, env, at);
    var rest := SkipInitial(line, c, scratch, all);
    label trimmed:
    ret := Handle(c, mem, j, scratch, rest, env, at, earlier, others, all);
    forall o: object | o in c.Frame() && o !in old(c.Frame()) ensures fresh(o) {
      assert o in c.Frame() - old(c.Frame()) && !old@trimmed(allocated(o));
    }
  }

  lemma {:induction false} TrimTwice(line: string)
    ensures TrimLine(TrimLine(line)) == TrimLine(line)
  {
    if line != "" && Skipped(line[0]) {
      TrimTwice(line[1..]);
    }
  }

  lemma Trimmed(s: State, line: string, env: Env, at: nat)
    ensures TrimLine(TrimLine(line)) == TrimLine(line)
    ensures Flat.Command(s, TrimLine(line), env, at) == Flat.Command(s, line, env, at)
  {
    hide TrimLine, Classify, Flat.Run, Internally;
    TrimTwice(line);
  }
}
