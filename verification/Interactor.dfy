/** The interactive session on the heap: a growing chain of contexts that refines the flat session. */
module Interactor {
  import opened Text
  import opened Lists
  import opened Piles
  import opened Package
  import opened Emitter
  import opened Program
  import opened Generate
  import opened Flat
  import opened FlatLaws
  import opened Contexts
  import opened Commands

  /** What is known of a context that has been chained: it does not change any more. */
  datatype Seal = Seal(frame: set<object>, cells: set<object>, table: set<string>, flag: set<Flag>)

  ghost predicate Sealed(c: Context, seal: Seal, mem: Ledger, j: Journal)
    reads c`tcc, c`flag, c`out, c.gen`g_prevfile, c.ps, c.ps.Repr(), (if c.tcc == null then {} else {c.tcc})`names
  {
    c.Ok(mem, j) && c.Frame() == seal.frame && c.Cells() == seal.cells &&
    Loaded in c.flag && c.flag == seal.flag && FlatLaws.Ordered(c.flag, c.out.Some?) &&
    c.tcc != null && c.tcc.names == seal.table
  }

  ghost function Frames(seals: seq<Seal>): set<object> {
    set i, o | 0 <= i < |seals| && o in seals[i].frame :: o
  }

  ghost function AllCells(seals: seq<Seal>): set<object> {
    set i, o | 0 <= i < |seals| && o in seals[i].cells :: o
  }

  ghost function Tables(seals: seq<Seal>): seq<set<string>> {
    seq(|seals|, i requires 0 <= i < |seals| => seals[i].table)
  }

  lemma OneMoreSeal(seals: seq<Seal>, s: Seal)
    ensures Frames(seals + [s]) == Frames(seals) + s.frame
    ensures AllCells(seals + [s]) == AllCells(seals) + s.cells
    ensures Tables(seals + [s]) == Tables(seals) + [s.table]
  {
    var more := seals + [s];
    forall o | o in Frames(seals) + s.frame ensures o in Frames(more) {
      if o in s.frame {
        assert o in more[|seals|].frame;
      } else {
        var i :| 0 <= i < |seals| && o in seals[i].frame;
        assert more[i] == seals[i];
      }
    }
    forall o | o in AllCells(seals) + s.cells ensures o in AllCells(more) {
      if o in s.cells {
        assert o in more[|seals|].cells;
      } else {
        var i :| 0 <= i < |seals| && o in seals[i].cells;
        assert more[i] == seals[i];
      }
    }
  }

  /** Frames do not overlap, and cells lie within their frames. */
  ghost predicate Apart(seals: seq<Seal>) {
    (forall i, k :: 0 <= i < k < |seals| ==> seals[i].frame !! seals[k].frame) &&
    forall i :: 0 <= i < |seals| ==> seals[i].cells <= seals[i].frame
  }

  lemma ApartMore(seals: seq<Seal>, s: Seal)
    requires Apart(seals) && s.frame !! Frames(seals) && s.cells <= s.frame
    ensures Apart(seals + [s])
  {
    var more := seals + [s];
    forall i, k | 0 <= i < k < |more| ensures more[i].frame !! more[k].frame {
      if k == |seals| {
        assert forall o <- seals[i].frame :: o in Frames(seals);
      }
    }
  }

  lemma CellsInFrames(seals: seq<Seal>)
    requires Apart(seals)
    ensures AllCells(seals) <= Frames(seals)
  {
  }

  /** The chained contexts, oldest first. */
  ghost predicate Past(past: seq<Context>, seals: seq<Seal>, mem: Ledger, j: Journal)
    reads *
  {
    |past| == |seals| && forall i :: 0 <= i < |past| ==> Sealed(past[i], seals[i], mem, j)
  }

  /** Whatever leaves the frames alone leaves the chained contexts alone. */
  lemma PastWithin(past: seq<Context>, seals: seq<Seal>, mem: Ledger, j: Journal)
    requires Past(past, seals, mem, j)
    ensures |past| == |seals|
    ensures forall i :: 0 <= i < |past| ==>
      past[i] in Frames(seals) && past[i].gen in Frames(seals) && past[i].ps in Frames(seals) &&
      past[i].ps.Repr() <= Frames(seals) && past[i].tcc != null && past[i].tcc in Frames(seals)
    ensures mem !in Frames(seals) && j !in Frames(seals)
  {
    hide Context.Ok, Context.Frame, Context.Own, PileSet.Repr;
    forall i | 0 <= i < |past|
      ensures past[i] in Frames(seals) && past[i].gen in Frames(seals) && past[i].ps in Frames(seals) &&
        past[i].ps.Repr() <= Frames(seals) && past[i].tcc != null && past[i].tcc in Frames(seals) &&
        mem !in seals[i].frame && j !in seals[i].frame
    {
      assert Sealed(past[i], seals[i], mem, j);
      past[i].Opened(mem, j);
      assert seals[i].frame <= Frames(seals);
    }
  }

  /** The chain with the current context at its end. */
  ghost predicate Live(past: seq<Context>, seals: seq<Seal>, c: Context, mem: Ledger, j: Journal, scratch: Ledger)
    reads *
  {
    Past(past, seals, mem, j) && Apart(seals) && Linked(past + [c]) && c.Ok(mem, j) && c.HasCompiler() &&
    c.Frame() !! Frames(seals) + {scratch} && scratch !in Frames(seals) && scratch != mem &&
    c.Cells() + AllCells(seals) <= mem.live
  }

  /** What is allocated outside the session. */
  ghost function Outside(seals: seq<Seal>, c: Context, mem: Ledger): set<object>
    reads c`tcc, c.ps, mem
  {
    mem.live - (c.Cells() + AllCells(seals))
  }

  lemma LinkBack(past: seq<Context>, c: Context)
    requires Linked(past + [c])
    ensures c.c_index == |past| && c.c_next == null && c.c_prev == (if past == [] then null else past[|past| - 1])
    ensures c.c_first == if past == [] then c else past[0]
  {
    var all := past + [c];
    LinkAt(all, |past|);
    assert all[|past|] == c;
    assert past != [] ==> all[|past| - 1] == past[|past| - 1];
  }

  lemma PastAt(past: seq<Context>, seals: seq<Seal>, i: nat, mem: Ledger, j: Journal)
    requires i < |past| && Past(past, seals, mem, j)
    ensures |seals| == |past| && past[i].Ok(mem, j) && Loaded in past[i].flag && past[i].tcc != null
    ensures past[i].flag == seals[i].flag && FlatLaws.Ordered(past[i].flag, past[i].out.Some?)
    ensures past[i].tcc.names == seals[i].table && past[i].Frame() == seals[i].frame && past[i].Cells() == seals[i].cells
  {
    hide Context.Ok, Context.Frame, Context.Cells;
    assert Sealed(past[i], seals[i], mem, j);
  }

  /** The current context follows the chained ones. */
  lemma LiveFollows(past: seq<Context>, seals: seq<Seal>, c: Context, mem: Ledger, j: Journal, scratch: Ledger)
    requires Live(past, seals, c, mem, j, scratch)
    ensures c.Follows(Tables(seals), Frames(seals) + {scratch})
  {
    hide Context.Ok, Context.Frame, Context.Own, Context.Cells, Context.HasCompiler, Past, Sealed, Linked, Frames, Apart;
    LinkBack(past, c);
    PastWithin(past, seals, mem, j);
    if past != [] {
      PastAt(past, seals, |past| - 1, mem, j);
    }
  }

  lemma LiveWalkable(past: seq<Context>, seals: seq<Seal>, c: Context, mem: Ledger, j: Journal, scratch: Ledger)
    requires Live(past, seals, c, mem, j, scratch)
    ensures Walkable(past + [c], c, scratch)
  {
    hide Context.Ok, Context.Frame, Context.Own, Context.Cells, Context.HasCompiler, Past, Sealed, Linked, Frames, Apart,
         PileSet.Valid, PileSet.Repr;
    var all := past + [c];
    PastWithin(past, seals, mem, j);
    c.Opened(mem, j);
    assert all[|past|] == c && scratch !in c.ps.Repr();
    forall i | 0 <= i < |all| ensures all[i].ps.Valid() && |all[i].ps.view| == COUNT && scratch !in all[i].ps.Repr() {
      if i < |past| {
        PastAt(past, seals, i, mem, j);
        past[i].Opened(mem, j);
      }
    }
  }

  // ---- chaining ----------------------------------------------------------------------------------------------

  /** The chained contexts, seen from the current one behind them. */
  ghost predicate Before(past: seq<Context>, c: Context)
    reads (set x <- past)`c_index, (set x <- past)`c_first, (set x <- past)`c_prev, (set x <- past)`c_next
  {
    forall i :: 0 <= i < |past| ==> (
      past[i] != c && past[i].c_index == i && past[i].c_first == past[0] &&
      past[i].c_prev == (if i == 0 then null else past[i - 1]) &&
      past[i].c_next == (if i + 1 < |past| then past[i + 1] else c))
  }

  lemma LinkParts(past: seq<Context>, c: Context)
    requires Linked(past + [c])
    ensures Before(past, c)
  {
    hide Linked;
    var all := past + [c];
    forall i | 0 <= i < |past|
      ensures past[i] != c && past[i].c_index == i && past[i].c_first == past[0]
      ensures past[i].c_prev == (if i == 0 then null else past[i - 1])
      ensures past[i].c_next == (if i + 1 < |past| then past[i + 1] else c)
    {
      LinkAt(all, i);
      LinkAt(all, |past|);
      assert all[i] == past[i] && all[0] == past[0] && all[|past|] == c;
      assert i > 0 ==> all[i - 1] == past[i - 1];
      assert all[i + 1] == if i + 1 < |past| then past[i + 1] else c;
    }
  }

  lemma BeforeAt(past: seq<Context>, c: Context, i: nat)
    requires i < |past| && Before(past, c)
    ensures past[i].c_index == i && past[i].c_first == past[0]
    ensures past[i].c_prev == (if i == 0 then null else past[i - 1])
    ensures past[i].c_next == (if i + 1 < |past| then past[i + 1] else c)
  {
  }

  lemma IsLinked(all: seq<Context>)
    requires forall i :: 0 <= i < |all| ==> all[i].c_index == i && all[i].c_first == all[0]
    requires forall i :: 0 <= i < |all| ==> all[i].c_prev == (if i == 0 then null else all[i - 1])
    requires forall i :: 0 <= i < |all| ==> all[i].c_next == (if i + 1 < |all| then all[i + 1] else null)
    ensures Linked(all)
  {
  }

  lemma PastMore(past: seq<Context>, seals: seq<Seal>, c: Context, s: Seal, mem: Ledger, j: Journal)
    requires Past(past, seals, mem, j) && c.Ok(mem, j) && c.Frame() == s.frame && c.Cells() == s.cells
    requires Loaded in c.flag && c.flag == s.flag && FlatLaws.Ordered(c.flag, c.out.Some?)
    requires c.tcc != null && c.tcc.names == s.table
    ensures Past(past + [c], seals + [s], mem, j)
  {
    hide Context.Ok, Context.Frame, Context.Cells;
    forall i | 0 <= i < |past + [c]| ensures Sealed((past + [c])[i], (seals + [s])[i], mem, j) {
      if i < |past| {
        assert Sealed(past[i], seals[i], mem, j);
      }
    }
  }

  /** The new end of the line. */
  lemma LinkMore(past: seq<Context>, c: Context, n: Context)
    requires Before(past, c)
    requires c.c_index == |past| && c.c_first == (if past == [] then c else past[0])
    requires c.c_prev == (if past == [] then null else past[|past| - 1]) && c.c_next == n
    requires n.c_index == |past| + 1 && n.c_first == c.c_first && n.c_prev == c && n.c_next == null
    ensures Linked(past + [c] + [n])
  {
    hide Before, Linked;
    var all, k := past + [c] + [n], |past|;
    assert all[k] == c && all[k + 1] == n && all[0] == if past == [] then c else past[0];
    forall i | 0 <= i < |all|
      ensures all[i].c_index == i && all[i].c_first == all[0]
      ensures all[i].c_prev == (if i == 0 then null else all[i - 1])
      ensures all[i].c_next == (if i + 1 < |all| then all[i + 1] else null)
    {
      if i < k {
        BeforeAt(past, c, i);
        assert all[i] == past[i] && all[i + 1] == (if i + 1 < k then past[i + 1] else c);
        assert i > 0 ==> all[i - 1] == past[i - 1];
      } else if i == k {
        assert k > 0 ==> all[k - 1] == past[k - 1];
      }
    }
    IsLinked(all);
  }

  lemma OutsideGrown(live: set<object>, more: set<object>, own: set<object>, past: set<object>)
    requires more !! live
    ensures (live + more) - (more + (past + own)) == live - (own + past)
  {
  }

  /** Chaining leaves the contexts that were chained before alone. */
  method ChainBeside(c: Context, mem: Ledger, ghost j: Journal, ghost past: seq<Context>, ghost seals: seq<Seal>,
                     ghost world: set<object>) returns (n: Context)
    requires Past(past, seals, mem, j) && Before(past, c) && c.Ok(mem, j) && c.Cells() <= mem.live && c.Frame() <= world
    requires Frames(seals) <= world && c !in Frames(seals)
    modifies c`c_next, mem
    ensures Past(past, seals, mem, j) && Before(past, c)
    ensures c.Ok(mem, j) && n.Ok(mem, j) && n.HasCompiler() && n.Frame() !! world && fresh(n.Frame())
    ensures n.flag == c.flag - PHASES && n.out == None && n.ps.view == Kept(c.ps.view) && n.Table() == {}
    ensures n.c_index == c.c_index + 1 && n.c_first == c.c_first && n.c_prev == c && n.c_next == null && c.c_next == n
    ensures c.Frame() == old(c.Frame()) && c.Cells() == old(c.Cells())
    ensures mem.live == old(mem.live) + n.Cells() && old(mem.freed) <= mem.freed
  {
    hide Context.Ok, Context.Frame, Context.Own, Context.Cells, PileSet.Valid, PileSet.Repr, Sealed, Frames, Kept;
    PastWithin(past, seals, mem, j);
    assert forall i :: 0 <= i < |past| ==> past[i].ps.Repr() <= world;
    n := c.Chain(mem, j, world);
  }

  /** The loaded context is sealed and a new one takes its place: `cplr_chain` in the loop. */
  method ChainOn(c: Context, mem: Ledger, ghost j: Journal, ghost scratch: Ledger,
                 ghost past: seq<Context>, ghost seals: seq<Seal>)
    returns (n: Context, ghost pastNow: seq<Context>, ghost sealsNow: seq<Seal>)
    requires Live(past, seals, c, mem, j, scratch) && Loaded in c.flag && FlatLaws.Ordered(c.flag, c.out.Some?)
    modifies c`c_next, mem
    ensures Live(pastNow, sealsNow, n, mem, j, scratch) && pastNow == past + [c] && Loaded !in n.flag
    ensures |c.ps.view| == COUNT && |n.ps.view| == COUNT
    ensures fresh(n.Frame()) && Frames(sealsNow) == Frames(seals) + old(c.Frame())
    ensures n.Abs(Tables(sealsNow), j.log) == Flat.Chain(old(c.Abs(Tables(seals), j.log)))
    ensures Outside(sealsNow, n, mem) == old(Outside(seals, c, mem)) && old(mem.freed) <= mem.freed
  {
    hide Context.Ok, Context.Frame, Context.Own, Context.Cells, PileSet.Valid, PileSet.Repr, Frames, AllCells, Tables,
         Apart, Past, Before, Linked, Kept;
    c.Opened(mem, j);
    PastWithin(past, seals, mem, j);
    LinkBack(past, c);
    ghost var s := Seal(c.Frame(), c.Cells(), c.tcc.names, c.flag);
    pastNow, sealsNow := past + [c], seals + [s];
    OneMoreSeal(seals, s);
    LinkParts(past, c);
    ghost var live := mem.live;
    n := ChainBeside(c, mem, j, past, seals, Frames(sealsNow) + {scratch} + live);
    n.Opened(mem, j);
    ApartMore(seals, s);
    LinkMore(past, c, n);
    PastMore(past, seals, c, s, mem, j);
    OutsideGrown(live, n.Cells(), s.cells, AllCells(seals));
  }

  // ---- one line --------------------------------------------------------------------------------------------

  /** A command works on the current context and leaves the chained ones alone. */
  method CommandBeside(c: Context, mem: Ledger, j: Journal, scratch: Ledger, line: string, env: Env, at: nat,
                       ghost past: seq<Context>, ghost seals: seq<Seal>, ghost others: set<object>)
    returns (ret: int)
    requires Past(past, seals, mem, j) && Linked(past + [c]) && Walkable(past + [c], c, scratch)
    requires c.Ok(mem, j) && c.Cells() <= mem.live && c.Frame() !! others && c.Follows(Tables(seals), others)
    requires c.HasCompiler() && Loaded !in c.flag && CText(line)
    requires others == Frames(seals) + {scratch} && scratch != mem && scratch !in Frames(seals)
    modifies c`flag, c`tcc, c`dump, (if c.tcc == null then {} else {c.tcc})`names, c.gen, c.ps.Repr(), mem, j, scratch
    ensures Past(past, seals, mem, j) && Linked(past + [c])
    ensures c.Ok(mem, j) && c.Cells() <= mem.live && c.Frame() !! others
    ensures c.HasCompiler() && |c.ps.view| == COUNT && |old(c.ps.view)| == COUNT && fresh(c.Frame() - old(c.Frame()))
    ensures mem.live - c.Cells() == old(mem.live - c.Cells()) && old(mem.freed) <= mem.freed
    ensures |scratch.live| == |old(scratch.live)| + Leak(line)
    ensures (c.Abs(Tables(seals), j.log), ret) == Flat.Command(old(c.Abs(Tables(seals), j.log)), line, env, at)
  {
    hide Context.Ok, Context.Frame, Context.Own, Context.Cells, Context.Follows, Context.HasCompiler, Context.Abs,
         PileSet.Valid, PileSet.Repr, Sealed, Frames, Walkable, Flat.Command, Tables, CText, Linked;
    PastWithin(past, seals, mem, j);
    c.Opened(mem, j);
    assert forall i :: 0 <= i < |past| ==> past[i].ps.Repr() <= others && past[i] in others;
    assert c !in others && c.gen !in others && (c.tcc != null ==> c.tcc !in others) && c.ps.Repr() !! others;
    ret := Commands.Command(c, mem, j, scratch, line, env, at, Tables(seals), others, past + [c]);
  }

  /** A command changes the current context's share of the ledger only. */
  lemma OutsideKept(live: set<object>, own: set<object>, liveNow: set<object>, ownNow: set<object>, past: set<object>)
    requires live - own == liveNow - ownNow && own + past <= live && own !! past && ownNow <= liveNow
    ensures live - (own + past) == liveNow - (ownNow + past) && ownNow + past <= liveNow
  {
    assert live - (own + past) == (live - own) - past;
    assert liveNow - (ownNow + past) == (liveNow - ownNow) - past;
    assert past <= live - own;
  }

  method TypedLine(c: Context, mem: Ledger, j: Journal, scratch: Ledger, line: string, env: Env, at: nat,
                   ghost past: seq<Context>, ghost seals: seq<Seal>) returns (ret: int)
    requires Live(past, seals, c, mem, j, scratch) && Loaded !in c.flag && CText(line)
    modifies c`flag, c`tcc, c`dump, (if c.tcc == null then {} else {c.tcc})`names, c.gen, c.ps.Repr(), mem, j, scratch
    ensures Live(past, seals, c, mem, j, scratch) && |c.ps.view| == COUNT && |old(c.ps.view)| == COUNT
    ensures fresh(c.Frame() - old(c.Frame()))
    ensures |scratch.live| == |old(scratch.live)| + Leak(line)
    ensures (c.Abs(Tables(seals), j.log), ret) == Flat.Command(old(c.Abs(Tables(seals), j.log)), line, env, at)
    ensures Outside(seals, c, mem) == old(Outside(seals, c, mem)) && old(mem.freed) <= mem.freed
  {
    hide Context.Ok, Context.Frame, Context.Own, Context.Cells, Context.Follows, Context.HasCompiler, Context.Abs,
         PileSet.Valid, PileSet.Repr, Past, Apart, Linked, Frames, AllCells, Walkable, Flat.Command, Tables, CText;
    LiveFollows(past, seals, c, mem, j, scratch);
    LiveWalkable(past, seals, c, mem, j, scratch);
    CellsInFrames(seals);
    c.Opened(mem, j);
    ghost var live, own := mem.live, c.Cells();
    ret := CommandBeside(c, mem, j, scratch, line, env, at, past, seals, Frames(seals) + {scratch});
    c.Opened(mem, j);
    OutsideKept(live, own, mem.live, c.Cells(), AllCells(seals));
  }

  lemma NothingTyped()
    ensures Leak("") == 0
  {
  }

  /** One turn of the loop: a loaded context is chained, then the line is handled. */
  method Turn(c: Context, mem: Ledger, j: Journal, scratch: Ledger, line: string, env: Env, at: nat,
              ghost past: seq<Context>, ghost seals: seq<Seal>)
    returns (n: Context, ret: int, ghost pastNow: seq<Context>, ghost sealsNow: seq<Seal>)
    requires Live(past, seals, c, mem, j, scratch) && FlatLaws.Ordered(c.flag, c.out.Some?) && CText(line)
    modifies c.Frame(), mem, j, scratch
    ensures Live(pastNow, sealsNow, n, mem, j, scratch) && past + [c] <= pastNow + [n]
    ensures fresh(n.Frame() - old(c.Frame())) && fresh(Frames(sealsNow) - Frames(seals) - old(c.Frame()))
    ensures |n.ps.view| == COUNT && |old(c.ps.view)| == COUNT
    ensures |scratch.live| == |old(scratch.live)| + Leak(line)
    ensures (n.Abs(Tables(sealsNow), j.log), ret) == Flat.Turn(old(c.Abs(Tables(seals), j.log)), line, env, at)
    ensures Outside(sealsNow, n, mem) == old(Outside(seals, c, mem)) && old(mem.freed) <= mem.freed
  {
    hide Context.Ok, Context.Frame, Context.Own, Context.Cells, PileSet.Valid, PileSet.Repr, Past, Apart, Linked,
         Frames, AllCells, Flat.Command, Flat.Chain, Tables, CText;
    c.Opened(mem, j);
    n, pastNow, sealsNow, ret := c, past, seals, 0;
    if Loaded in c.flag {
      n, pastNow, sealsNow := ChainOn(c, mem, j, scratch, past, seals);
      n.Opened(mem, j);
    }
    if |line| == 0 {
      NothingTyped();
      return;
    }
    ghost var between := n.Frame();
    label chained:
    ret := TypedLine(n, mem, j, scratch, line, env, at, pastNow, sealsNow);
    forall o: object | o in n.Frame() && o !in old(c.Frame()) ensures fresh(o) {
      if o !in between {
        assert o in n.Frame() - between && !old@chained(allocated(o));
      }
    }
  }

  // ---- teardown ----------------------------------------------------------------------------------------------

  /** The first k contexts are still in place, each with its own share of the memory. */
  ghost predicate Held(all: seq<Context>, shares: seq<Seal>, k: nat, mem: Ledger, j: Journal)
    reads *
  {
    k <= |all| == |shares| && forall i :: 0 <= i < k ==>
      all[i].Ok(mem, j) && all[i].Frame() == shares[i].frame && all[i].Cells() == shares[i].cells &&
      all[i].c_prev == (if i == 0 then null else all[i - 1])
  }

  lemma HeldAt(all: seq<Context>, shares: seq<Seal>, k: nat, i: nat, mem: Ledger, j: Journal)
    requires Held(all, shares, k, mem, j) && i < k
    ensures all[i].Ok(mem, j) && all[i].Frame() == shares[i].frame && all[i].Cells() == shares[i].cells
    ensures all[i].c_prev == (if i == 0 then null else all[i - 1])
    ensures all[i] in shares[i].frame && all[i].ps.Repr() <= shares[i].frame && all[i].ps in shares[i].frame
    ensures all[i].gen in shares[i].frame && (all[i].tcc != null ==> all[i].tcc in shares[i].frame)
    ensures mem !in shares[i].frame && |all| == |shares|
  {
    hide Context.Ok, Context.Frame, Context.Cells, Context.Own, PileSet.Repr;
    all[i].Opened(mem, j);
  }

  /** One `cplr_free` of the teardown: the newest context goes, the others stay as they are. */
  method FreeNewest(c: Context, mem: Ledger, ghost j: Journal, ghost all: seq<Context>, ghost shares: seq<Seal>, ghost k: nat)
    requires 0 < k && Held(all, shares, k, mem, j) && Apart(shares) && c == all[k - 1] && shares[k - 1].cells <= mem.live
    modifies shares[k - 1].frame, mem
    ensures Held(all, shares, k - 1, mem, j)
    ensures mem.live == old(mem.live) - shares[k - 1].cells && old(mem.freed) + shares[k - 1].cells <= mem.freed
  {
    hide Context.Ok, Context.Frame, Context.Cells, Context.Own, PileSet.Repr, PileSet.Valid;
    HeldAt(all, shares, k, k - 1, mem, j);
    forall i | 0 <= i < k - 1
      ensures all[i].ps.Repr() <= shares[i].frame && shares[i].frame !! shares[k - 1].frame && mem !in shares[i].frame
      ensures all[i] in shares[i].frame && all[i].gen in shares[i].frame && all[i].ps in shares[i].frame
      ensures all[i].tcc != null ==> all[i].tcc in shares[i].frame
    {
      HeldAt(all, shares, k, i, mem, j);
    }
    c.Free(mem, j);
  }

  lemma LastShare(shares: seq<Seal>, k: nat)
    requires 0 < k <= |shares| && Apart(shares)
    ensures AllCells(shares[..k]) == AllCells(shares[..k - 1]) + shares[k - 1].cells
    ensures AllCells(shares[..k - 1]) !! shares[k - 1].cells
    ensures 1 < k ==> shares[0].frame !! shares[k - 1].frame
  {
    assert shares[..k - 1] + [shares[k - 1]] == shares[..k];
    OneMoreSeal(shares[..k - 1], shares[k - 1]);
  }

  lemma FirstShare(shares: seq<Seal>)
    requires shares != []
    ensures AllCells(shares[..1]) == shares[0].cells
  {
    assert shares[..1][0] == shares[0];
  }

  /** The teardown loop: from the newest back to the base, every context but the base is freed, once. */
  method Teardown(b: Context, newest: Context, mem: Ledger, ghost j: Journal, ghost all: seq<Context>, ghost shares: seq<Seal>)
    requires all != [] && Held(all, shares, |all|, mem, j) && Apart(shares) && b == all[0] && newest == all[|all| - 1]
    requires AllCells(shares) <= mem.live
    modifies Frames(shares), mem
    ensures b.Ok(mem, j) && b.Cells() == shares[0].cells <= mem.live
    ensures b.Frame() == shares[0].frame
    ensures mem.live - b.Cells() == old(mem.live) - AllCells(shares)
    ensures AllCells(shares) <= mem.freed + shares[0].cells && old(mem.freed) <= mem.freed
  {
    hide Context.Ok, Context.Frame, Context.Cells, Held, Apart, AllCells;
    ghost var k := |all|;
    assert shares[..k] == shares by { HeldAt(all, shares, k, 0, mem, j); }
    var c := newest;
    while c != b
      invariant 0 < k <= |all| == |shares| && c == all[k - 1] && Held(all, shares, k, mem, j)
      invariant AllCells(shares[..k]) <= mem.live
      invariant mem.live - AllCells(shares[..k]) == old(mem.live) - AllCells(shares)
      invariant AllCells(shares) <= mem.freed + AllCells(shares[..k]) && old(mem.freed) <= mem.freed
      decreases k
    {
      HeldAt(all, shares, k, k - 1, mem, j);
      LastShare(shares, k);
      assert shares[k - 1].frame <= Frames(shares);
      var p := c.c_prev;
      FreeNewest(c, mem, j, all, shares, k);
      c := p;
      k := k - 1;
    }
    Alone(all, shares, k, mem, j);
    FirstShare(shares);
    HeldAt(all, shares, k, 0, mem, j);
  }

  lemma Alone(all: seq<Context>, shares: seq<Seal>, k: nat, mem: Ledger, j: Journal)
    requires 0 < k <= |all| && Held(all, shares, k, mem, j) && Apart(shares) && all[k - 1] == all[0]
    ensures k == 1
  {
    hide Context.Ok, Context.Frame, Context.Cells;
    HeldAt(all, shares, k, 0, mem, j);
    HeldAt(all, shares, k, k - 1, mem, j);
  }

  // ---- the loop ------------------------------------------------------------------------------------------------

  /** The shares of all contexts, the current one last. */
  ghost function Shares(seals: seq<Seal>, c: Context): seq<Seal>
    reads c`tcc, c`flag, c.ps
  {
    seals + [Seal(c.Frame(), c.Cells(), {}, c.flag)]
  }

  lemma LiveHeld(past: seq<Context>, seals: seq<Seal>, c: Context, mem: Ledger, j: Journal, scratch: Ledger)
    requires Live(past, seals, c, mem, j, scratch)
    ensures var all, shares := past + [c], Shares(seals, c);
      Held(all, shares, |all|, mem, j) && Apart(shares) && AllCells(shares) == AllCells(seals) + c.Cells() <= mem.live &&
      Frames(shares) == Frames(seals) + c.Frame() && j !in Frames(shares) && scratch !in Frames(shares) &&
      shares[0].frame <= Frames(shares)
  {
    hide Context.Ok, Context.Frame, Context.Own, Context.Cells, Context.HasCompiler, Past, Apart, Linked, Frames, AllCells,
         PileSet.Repr;
    var all, s := past + [c], Seal(c.Frame(), c.Cells(), {}, c.flag);
    c.Opened(mem, j);
    PastWithin(past, seals, mem, j);
    ApartMore(seals, s);
    OneMoreSeal(seals, s);
    FrameOf(seals + [s], 0);
    LiveCount(past, seals, c, mem, j, scratch);
    var shares := seals + [s];
    assert |all| == |shares| && all[|past|] == c && shares[|past|] == s;
    forall i | 0 <= i < |all|
      ensures all[i].Ok(mem, j) && all[i].Frame() == shares[i].frame && all[i].Cells() == shares[i].cells
      ensures all[i].c_prev == (if i == 0 then null else all[i - 1])
    {
      LinkAt(all, i);
      if i < |past| {
        PastAt(past, seals, i, mem, j);
        assert all[i] == past[i] && shares[i] == seals[i];
      }
    }
    IsHeld(all, shares, mem, j);
  }

  lemma FrameOf(seals: seq<Seal>, i: nat)
    requires i < |seals|
    ensures seals[i].frame <= Frames(seals)
  {
  }

  lemma IsHeld(all: seq<Context>, shares: seq<Seal>, mem: Ledger, j: Journal)
    requires |all| == |shares|
    requires forall i :: 0 <= i < |all| ==>
      all[i].Ok(mem, j) && all[i].Frame() == shares[i].frame && all[i].Cells() == shares[i].cells
    requires forall i :: 0 <= i < |all| ==> all[i].c_prev == (if i == 0 then null else all[i - 1])
    ensures Held(all, shares, |all|, mem, j)
  {
    hide Context.Ok, Context.Frame, Context.Cells;
  }

  lemma LiveCount(past: seq<Context>, seals: seq<Seal>, c: Context, mem: Ledger, j: Journal, scratch: Ledger)
    requires Live(past, seals, c, mem, j, scratch)
    ensures |past| == |seals|
  {
  }

  /** The first reply that is not zero ends the session. */
  lemma {:induction false} InteractStops(s: State, lines: seq<string>, k: nat, env: nat -> Env)
    requires k <= |lines| && Flat.Interact(s, lines[..k], env).ret != 0
    ensures Flat.Interact(s, lines, env) == Flat.Interact(s, lines[..k], env)
    ensures Leaked(s, lines, env) == Leaked(s, lines[..k], env)
  {
    hide Flat.Turn;
    if k < |lines| {
      var n := |lines| - 1;
      assert lines[..n][..k] == lines[..k];
      InteractStops(s, lines[..n], k, env);
    } else {
      assert lines[..k] == lines;
    }
  }

  /** One more line of the flat session. */
  lemma InteractNext(s: State, lines: seq<string>, i: nat, env: nat -> Env, t: State)
    requires i < |lines| && Flat.Interact(s, lines[..i], env) == Progress(t, 0)
    ensures var r := Flat.Turn(t, lines[i], env(i + 1), i + 1);
      Flat.Interact(s, lines[..i + 1], env) == Progress(r.0, r.1)
  {
    hide Flat.Turn;
    assert lines[..i + 1][..i] == lines[..i];
  }

  lemma LeakedNext(s: State, lines: seq<string>, i: nat, env: nat -> Env)
    requires i < |lines| && Flat.Interact(s, lines[..i], env).ret == 0
    ensures Leaked(s, lines[..i + 1], env) == Leaked(s, lines[..i], env) + Leak(lines[i])
  {
    hide Flat.Turn, Leak;
    assert lines[..i + 1][..i] == lines[..i];
  }

  lemma SaneAt(s: State, lines: seq<string>, i: nat, env: nat -> Env, t: State)
    requires Sane(s) && i <= |lines| && Flat.Interact(s, lines[..i], env) == Progress(t, 0)
    ensures Lifecycle(t)
  {
    InteractSane(s, lines[..i], env);
  }

  /** How far the loop has come: the chain is live, shows the flat state, and stands where it began. */
  ghost predicate Reached(past: seq<Context>, seals: seq<Seal>, c: Context, b: Context, mem: Ledger, j: Journal,
                          scratch: Ledger, s: State, lines: seq<string>, env: nat -> Env, outside: set<object>)
    reads *
  {
    Live(past, seals, c, mem, j, scratch) && |c.ps.view| == COUNT && (past + [c])[0] == b &&
    Flat.Interact(s, lines, env) == Progress(c.Abs(Tables(seals), j.log), 0) && Outside(seals, c, mem) == outside
  }

  /** One round of the loop. */
  method Round(c: Context, ghost b: Context, mem: Ledger, j: Journal, scratch: Ledger, lines: seq<string>, i: nat,
               env: nat -> Env, ghost past: seq<Context>, ghost seals: seq<Seal>, ghost s: State, ghost outside: set<object>)
    returns (n: Context, ret: int, ghost pastNow: seq<Context>, ghost sealsNow: seq<Seal>)
    requires i < |lines| && CText(lines[i]) && Sane(s)
    requires Reached(past, seals, c, b, mem, j, scratch, s, lines[..i], env, outside)
    modifies c.Frame(), mem, j, scratch
    ensures Live(pastNow, sealsNow, n, mem, j, scratch) && (pastNow + [n])[0] == b && Outside(sealsNow, n, mem) == outside
    ensures fresh(n.Frame() - old(c.Frame())) && fresh(Frames(sealsNow) - Frames(seals) - old(c.Frame()))
    ensures ret == 0 ==> Reached(pastNow, sealsNow, n, b, mem, j, scratch, s, lines[..i + 1], env, outside)
    ensures |scratch.live| == |old(scratch.live)| + Leak(lines[i])
    ensures |n.ps.view| == COUNT && Flat.Interact(s, lines[..i + 1], env) == Progress(n.Abs(Tables(sealsNow), j.log), ret)
    ensures old(mem.freed) <= mem.freed
  {
    hide Context.Ok, Context.Frame, Context.Own, Context.Cells, Live, Flat.Turn, Flat.Interact, Tables, Outside, CText, Sane,
         Frames;
    ghost var t: State := c.Abs(Tables(seals), j.log);
    SaneAt(s, lines, i, env, t);
    InteractNext(s, lines, i, env, t);
    n, ret, pastNow, sealsNow := Turn(c, mem, j, scratch, lines[i], env(i + 1), i + 1, past, seals);
  }

  lemma NoSeals(c: Context, mem: Ledger)
    ensures Frames([]) == {} && AllCells([]) == {} && Tables([]) == [] && Outside([], c, mem) == mem.live - c.Cells()
  {
  }

  /** `cplr_interact` up to its label `out`: lines are handled until one of them asks for an end. */
  method Loop(b: Context, mem: Ledger, j: Journal, scratch: Ledger, lines: seq<string>, env: nat -> Env)
    returns (c: Context, ret: int, ghost past: seq<Context>, ghost seals: seq<Seal>)
    requires Live([], [], b, mem, j, scratch) && |b.ps.view| == COUNT && Sane(b.Abs([], j.log))
    requires forall i :: 0 <= i < |lines| ==> CText(lines[i])
    modifies b.Frame(), mem, j, scratch
    ensures Live(past, seals, c, mem, j, scratch) && (past + [c])[0] == b
    ensures Outside(seals, c, mem) == old(mem.live - b.Cells()) && old(mem.freed) <= mem.freed
    ensures fresh(c.Frame() - old(b.Frame())) && fresh(Frames(seals) - old(b.Frame()))
    ensures |scratch.live| == |old(scratch.live)| + Leaked(old(b.Abs([], j.log)), lines, env)
    ensures forall x <- past + [c] :: FlatLaws.Ordered(x.flag, x.out.Some?)
    ensures |c.ps.view| == COUNT && var p := Flat.Interact(old(b.Abs([], j.log)), lines, env);
      c.Abs(Tables(seals), j.log) == p.state && ret == if p.ret >= 1 then p.ret - 1 else p.ret
  {
    hide Context.Ok, Context.Frame, Context.Own, Context.Cells, Live, Flat.Turn, Flat.Interact, Tables,
         Outside, CText, Sane, Frames, AllCells, Leaked, Leak, FlatLaws.Ordered;
    ghost var s: State, outside, f := b.Abs([], j.log), mem.live - b.Cells(), b.Frame();
    NoSeals(b, mem);
    NoLines(s, env);
    c, ret, past, seals := b, 0, [], [];
    assert lines[..0] == [];
    var i := 0;
    while i < |lines|
      invariant i <= |lines| && ret == 0
      invariant Reached(past, seals, c, b, mem, j, scratch, s, lines[..i], env, outside)
      invariant |scratch.live| == |old(scratch.live)| + Leaked(s, lines[..i], env)
      invariant fresh(c.Frame() - f) && fresh(Frames(seals) - f) && old(mem.freed) <= mem.freed
    {
      ghost var mine, theirs := c.Frame(), Frames(seals);
      LeakedNext(s, lines, i, env);
      label round:
      c, ret, past, seals := Round(c, b, mem, j, scratch, lines, i, env, past, seals, s, outside);
      forall o: object | o in c.Frame() + Frames(seals) && o !in f ensures fresh(o) {
        if o in mine {
          assert o in mine - f;
        } else if o in theirs {
          assert o in theirs - f;
        } else {
          assert o in c.Frame() - mine || o in Frames(seals) - theirs - mine;
          assert !old@round(allocated(o));
        }
      }
      assert fresh(c.Frame() - f) && fresh(Frames(seals) - f);
      i := i + 1;
      if ret != 0 {
        InteractStops(s, lines, i, env);
        AllOrdered(past, seals, c, mem, j, scratch, s, lines, env);
        if ret >= 1 {
          ret := ret - 1;
        }
        return;
      }
    }
    assert lines[..i] == lines;
    AllOrdered(past, seals, c, mem, j, scratch, s, lines, env);
  }

  /** The flags of every context of the chain tell its phases in order, those of the newest as well. */
  lemma AllOrdered(past: seq<Context>, seals: seq<Seal>, c: Context, mem: Ledger, j: Journal, scratch: Ledger,
                   s: State, lines: seq<string>, env: nat -> Env)
    requires Live(past, seals, c, mem, j, scratch) && |c.ps.view| == COUNT && Sane(s)
    requires Flat.Interact(s, lines, env).state == c.Abs(Tables(seals), j.log)
    ensures forall x <- past + [c] :: FlatLaws.Ordered(x.flag, x.out.Some?)
  {
    hide Context.Ok, Context.Frame, Context.Own, Context.Cells, FlatLaws.Ordered, FlatLaws.Once, Linked, Apart, Frames, AllCells;
    InteractSane(s, lines, env);
    forall x <- past + [c] ensures FlatLaws.Ordered(x.flag, x.out.Some?) {
      if x in past {
        var i :| 0 <= i < |past| && past[i] == x;
        PastAt(past, seals, i, mem, j);
      }
    }
  }

  lemma NoLines(s: State, env: nat -> Env)
    ensures Flat.Interact(s, [], env) == Progress(s, 0) && Leaked(s, [], env) == 0
  {
  }

  /** `cplr_interact`: the replies and the history of the flat session, and afterwards the base alone
      is left of the whole chain. */
  method Interact(b: Context, mem: Ledger, j: Journal, scratch: Ledger, lines: seq<string>, env: nat -> Env)
    returns (ret: int)
    requires Live([], [], b, mem, j, scratch) && |b.ps.view| == COUNT && Sane(b.Abs([], j.log))
    requires forall i :: 0 <= i < |lines| ==> CText(lines[i])
    modifies b.Frame(), mem, j, scratch
    ensures b.Ok(mem, j) && b.Cells() <= mem.live && fresh(b.Frame() - old(b.Frame())) && scratch !in b.Frame()
    ensures mem.live - b.Cells() == old(mem.live - b.Cells()) && old(mem.freed) <= mem.freed
    ensures |scratch.live| == |old(scratch.live)| + Leaked(old(b.Abs([], j.log)), lines, env)
    ensures var p := Flat.Interact(old(b.Abs([], j.log)), lines, env);
      j.log == p.state.log && ret == if p.ret >= 1 then p.ret - 1 else p.ret
  {
    hide Context.Ok, Context.Frame, Context.Own, Context.Cells, Live, Held, Apart, Flat.Interact, CText, Sane,
         Frames, AllCells, Shares, Leaked;
    LiveOpen(b, mem, j, scratch);
    var c;
    ghost var past, seals;
    c, ret, past, seals := Loop(b, mem, j, scratch, lines, env);
    LiveHeld(past, seals, c, mem, j, scratch);
    ghost var shares := Shares(seals, c);
    assert fresh(Frames(shares) - old(b.Frame()));
    Teardown(b, c, mem, j, past + [c], shares);
  }

  // ---- the whole program -----------------------------------------------------------------------------------------

  /** `cplr_new` in `main`: a session that has not begun. */
  method Start(mem: Ledger, j: Journal, scratch: Ledger) returns (b: Context)
    requires scratch != mem && j.log == []
    modifies mem
    ensures fresh(b.Frame()) && Live([], [], b, mem, j, scratch)
    ensures b.ps.view == NOTHING && |b.ps.view| == COUNT && Fresh(b.Abs([], j.log))
    ensures mem.live == old(mem.live) + {b} && b.Cells() == {b}
  {
    hide PileSet.Valid, PileSet.Repr, PileSet.Cells;
    b := new Context(mem);
    b.IsNew();
    b.IsOk(mem, j);
    b.IsAll();
    NoSeals(b, mem);
  }

  /** `main`: what the command line piled up is run first. */
  method RunFirst(b: Context, mem: Ledger, j: Journal, scratch: Ledger, env: nat -> Env) returns (ret: int)
    requires Live([], [], b, mem, j, scratch) && |b.ps.view| == COUNT
    modifies b`flag, b`tcc, (if b.tcc == null then {} else {b.tcc})`names, b.gen, b.ps.Repr(), mem, j
    ensures Live([], [], b, mem, j, scratch) && |b.ps.view| == COUNT && |old(b.ps.view)| == COUNT
    ensures fresh(b.Frame() - old(b.Frame()))
    ensures mem.live - b.Cells() == old(mem.live - b.Cells()) && old(mem.freed) <= mem.freed
    ensures Progress(b.Abs([], j.log), ret) == Begin(old(b.Abs([], j.log)), env)
  {
    hide Context.Ok, Context.Frame, Context.Own, Context.Cells, Flat.Run, PileSet.Repr, Frames, AllCells, Empty;
    b.Opened(mem, j);
    NoSeals(b, mem);
    ret := 0;
    if !IsEmpty(b.ps) {
      LiveFollows([], [], b, mem, j, scratch);
      ret := b.Run(mem, j, env(0), 0, [], {scratch});
    }
  }

  lemma BeginKeepsOptions(s: State, env: nat -> Env)
    ensures Interactive in Begin(s, env).state.flag <==> Interactive in s.flag
  {
    hide Flat.Run;
    RunKeepsOptions(s, env(0), 0);
    assert Interactive !in PHASES;
  }

  /** `main` from the options on: the history and the exit code are those of the flat session, and every
      context, compiler, node and owned string is given back. The tokeniser's own ledger grows by two copies
      of each internal command line that holds a token. */
  method WholeProgram(b: Context, mem: Ledger, j: Journal, scratch: Ledger, lines: seq<string>, env: nat -> Env) returns (ret: int)
    requires Live([], [], b, mem, j, scratch) && |b.ps.view| == COUNT && Fresh(b.Abs([], j.log))
    requires forall i :: 0 <= i < |lines| ==> CText(lines[i])
    modifies b.Frame(), mem, j, scratch
    ensures mem.live == old(mem.live - b.Cells()) && old(mem.freed) <= mem.freed && |old(b.ps.view)| == COUNT
    ensures j.log == Flat.Session(old(b.Abs([], j.log)), lines, env).state.log
    ensures ret == ExitCode(old(b.Abs([], j.log)), lines, env)
    ensures |scratch.live| == |old(scratch.live)| + SessionLeak(old(b.Abs([], j.log)), lines, env)
  {
    hide Context.Ok, Context.Frame, Context.Own, Context.Cells, Flat.Interact, PileSet.Repr, Begin, Empty, Sane, CText, Live, Leaked;
    ghost var s: State := b.Abs([], j.log);
    LiveOpen(b, mem, j, scratch);
    BeginSane(s, env);
    BeginKeepsOptions(s, env);
    BeginEmpty(s, env);
    b.Opened(mem, j);
    var nothing := IsEmpty(b.ps);
    ret := RunFirst(b, mem, j, scratch, env);
    LiveOpen(b, mem, j, scratch);
    if ret == 0 {
      if Interactive in b.flag {
        ret := Interact(b, mem, j, scratch, lines, env);
        b.Opened(mem, j);
      } else if nothing {
        ret := 1;
      }
    }
    b.Free(mem, j);
  }

  lemma BeginEmpty(s: State, env: nat -> Env)
    ensures Empty(s.view) ==> Begin(s, env) == Progress(s, 0)
  {
  }

  lemma LiveOpen(b: Context, mem: Ledger, j: Journal, scratch: Ledger)
    requires Live([], [], b, mem, j, scratch)
    ensures b.Ok(mem, j) && b.Cells() <= mem.live && j !in b.ps.Repr() && scratch !in b.Frame() && scratch != mem
    ensures b.ps.Repr() <= b.Frame() && b in b.Frame() && b.gen in b.Frame() && (b.tcc != null ==> b.tcc in b.Frame())
  {
    hide Context.Ok, Context.Frame, Context.Own, Context.Cells, PileSet.Repr;
    b.Opened(mem, j);
  }
}
