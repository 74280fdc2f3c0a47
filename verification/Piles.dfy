/** The sixteen piles of a context: separate owning lists, seen as one table of texts. */
module Piles {
  import opened Lists

  // In the order in which a context is cloned.
  const DEFDEF: nat := 0
  const DEFSYS: nat := 1
  const SYSDIRS: nat := 2
  const INCDIRS: nat := 3
  const LIBDIRS: nat := 4
  const DEFS: nat := 5
  const SYSS: nat := 6
  const INCS: nat := 7
  const LIBS: nat := 8
  const PKGS: nat := 9
  const SRCS: nat := 10
  const TLDS: nat := 11
  const TLFS: nat := 12
  const STMS: nat := 13
  const BEFS: nat := 14
  const AFTS: nat := 15

  const COUNT: nat := 16

  /** The texts on every pile. */
  type View = v: seq<seq<string>> | |v| == 16 witness seq(16, i => [])

  /** The piles that `cplr_chain` clears. */
  predicate Volatile(k: nat) {
    k == SRCS || k == TLFS || k == STMS || k == BEFS || k == AFTS
  }

  function Pushed(v: View, k: nat, text: string): View
    requires k < COUNT
  {
    v[k := v[k] + [text]]
  }

  function Kept(v: View): View {
    seq(16, k requires 0 <= k < 16 => if Volatile(k) then [] else v[k])
  }

  lemma KeptByClearing(v: View)
    ensures v[SRCS := []][TLFS := []][STMS := []][BEFS := []][AFTS := []] == Kept(v)
  {
  }

  const NOTHING: View := seq(16, k => [])

  ghost function Union(parts: seq<set<object>>): set<object> {
    set i, o | 0 <= i < |parts| && o in parts[i] :: o
  }

  ghost predicate Disjoint(parts: seq<set<object>>) {
    forall i, j :: 0 <= i < j < |parts| ==> parts[i] !! parts[j]
  }

  /** Replacing one part of a disjoint family replaces exactly its share of the union. */
  lemma UnionUpdate(parts: seq<set<object>>, k: nat, p: set<object>)
    requires k < |parts| && Disjoint(parts)
    ensures Union(parts[k := p]) == (Union(parts) - parts[k]) + p
    ensures parts[k] <= Union(parts) && (p !! (Union(parts) - parts[k]) ==> Disjoint(parts[k := p]))
  {
    var ps := parts[k := p];
    forall o | o in Union(ps) ensures o in (Union(parts) - parts[k]) + p {
      var i :| 0 <= i < |ps| && o in ps[i];
      assert i != k ==> parts[i] == ps[i];
    }
    forall o | o in (Union(parts) - parts[k]) + p ensures o in Union(ps) {
      if o in p {
        assert o in ps[k];
      } else {
        var i :| 0 <= i < |parts| && o in parts[i];
        assert ps[i] == parts[i];
      }
    }
  }

  /** A change that is confined to one part of the ledger leaves another part live. */
  lemma StillLive(mine: set<object>, theirs: set<object>, live: set<object>, theirsNow: set<object>, liveNow: set<object>)
    requires mine <= live && mine !! theirs && live - theirs == liveNow - theirsNow
    ensures mine <= liveNow
  {
    assert mine <= live - theirs;
  }

  /** A share that grew by new allocations and by a string that nothing else accounted for. */
  lemma OneMore(share: set<object>, own: set<object>, more: set<object>, s: object, repr: set<object>)
    requires share == own + more + {s} && more !! repr && s !in repr
    ensures share <= own + (more + {s}) && (more + {s}) !! repr
  {
  }

  lemma EmptyList(l: List)
    requires l.Valid() && l.nodes == []
    ensures l.Contents() == [] && l.Cells() == {}
  {
  }

  class PileSet {
    const piles: seq<List>
    ghost var view: seq<seq<string>>
    ghost var parts: seq<set<object>>

    /** Every allocation that the piles account for. */
    ghost function Cells(): set<object>
      reads this
    {
      Union(parts)
    }

    ghost function Heads(): set<object> {
      set l <- piles :: l
    }

    ghost function Repr(): set<object>
      reads this
    {
      {this} + Heads() + Cells()
    }

    /** The k-th pile is a well-formed list that accounts for its own part and shows its own view. */
    ghost predicate PileOk(k: nat)
      requires k < |piles| && |piles| == |view| == |parts|
      reads this, piles[k], parts[k]
    {
      (forall n <- piles[k].nodes :: n in parts[k]) &&
      piles[k].Valid() && piles[k].Contents() == view[k] && piles[k].Cells() == parts[k]
    }

    ghost predicate Shape()
      reads this
    {
      |piles| == |view| == |parts| == 16 &&
      (forall i, j :: 0 <= i < j < 16 ==> piles[i] != piles[j]) &&
      Disjoint(parts) && Cells() !! Heads() && this !in Cells()
    }

    ghost predicate Valid()
      reads this, Repr()
    {
      Shape() && forall k :: 0 <= k < 16 ==> (assert piles[k] in piles && parts[k] <= Cells(); PileOk(k))
    }

    lemma ViewSize()
      requires Valid()
      ensures |view| == COUNT
    {
    }

    lemma PileIsOk(k: nat)
      requires Valid() && k < 16
      ensures Shape() && |view| == 16
      ensures piles[k].Valid() && piles[k].Contents() == view[k] && piles[k].Cells() == parts[k] <= Cells()
      ensures piles[k] in Heads() && (piles[k].l != null ==> piles[k].l in parts[k])
      ensures forall i :: 0 <= i < |piles[k].nodes| ==> piles[k].nodes[i] in parts[k]
    {
      assert PileOk(k) && piles[k] in piles;
    }

    /** The other piles are left alone by whatever happens to the k-th list. */
    lemma OthersApart(k: nat)
      requires Valid() && k < 16
      ensures forall j :: 0 <= j < 16 && j != k ==>
        PileOk(j) && piles[j] != piles[k] && piles[j] !in parts[k] && piles[k] !in parts[j] && parts[j] !! parts[k]
    {
      forall j | 0 <= j < 16 && j != k
        ensures PileOk(j) && piles[j] != piles[k] && piles[j] !in parts[k] && piles[k] !in parts[j] && parts[j] !! parts[k]
      {
        assert piles[j] in piles && piles[k] in piles && parts[k] <= Cells() && parts[j] <= Cells();
      }
    }

    /** A fresh set of empty piles. */
    constructor ()
      ensures Valid() && view == NOTHING && Cells() == {} && fresh(Repr())
    {
      var ls: seq<List> := [];
      while |ls| < 16
        invariant |ls| <= 16 && forall i, j :: 0 <= i < j < |ls| ==> ls[i] != ls[j]
        invariant forall l <- ls :: fresh(l) && l.Valid() && l.nodes == [] && l.Contents() == []
      {
        var l := new List();
        ls := ls + [l];
      }
      piles := ls;
      view := NOTHING;
      parts := seq(16, k => {});
      new;
      forall k | 0 <= k < 16 ensures PileOk(k) {
        assert piles[k] in ls && parts[k] == {} && view[k] == [];
      }
    }

    /** The piles and the allocator ledger they are accounted in. */
    ghost predicate Backed(mem: Ledger)
      reads this, Repr(), mem
    {
      Valid() && mem !in Repr() && Cells() <= mem.live
    }

    /** `l_append_str_owned`: the pile takes over a heap string that nothing else accounts for. */
    method PushOwned(mem: Ledger, k: nat, s: CString)
      requires Backed(mem) && k < 16 && s in mem.live && s !in Repr()
      modifies Repr(), mem
      ensures Backed(mem) && view == Pushed(old(view), k, s.text)
      ensures old(Cells()) + {s} <= Cells() && fresh(Repr() - old(Repr()) - {s})
      ensures mem.live - Cells() == old(mem.live - Cells()) - {s} && mem.freed == old(mem.freed)
    {
      PileIsOk(k);
      OthersApart(k);
      hide PileOk, Union, Disjoint, List.Valid, Shape, Valid, List.Cells, List.Contents;
      ghost var repr, own := Repr(), parts[k];
      ghost var more := piles[k].AppendStrOwned(mem, s);
      assert more !! repr && Repr() == repr;
      OneMore(piles[k].Cells(), own, more, s, repr);
      Account(k, more + {s});
    }

    /** An append of a fresh copy of a text. */
    method Push(mem: Ledger, k: nat, text: string)
      requires Backed(mem) && k < 16
      modifies Repr(), mem
      ensures Backed(mem) && view == Pushed(old(view), k, text)
      ensures old(Cells()) <= Cells() && fresh(Repr() - old(Repr()))
      ensures mem.live - Cells() == old(mem.live - Cells()) && mem.freed == old(mem.freed)
    {
      hide Valid, Pushed;
      var s := StrDup(mem, text);
      PushOwned(mem, k, s);
    }

    /** `l_append_str_static`: the pile borrows a text. */
    method PushStatic(mem: Ledger, k: nat, s: CString)
      requires Backed(mem) && k < 16
      modifies Repr(), mem
      ensures Backed(mem) && view == Pushed(old(view), k, s.text)
      ensures old(Cells()) <= Cells() && fresh(Repr() - old(Repr()))
      ensures mem.live - Cells() == old(mem.live - Cells()) && mem.freed == old(mem.freed)
    {
      PileIsOk(k);
      OthersApart(k);
      hide PileOk, Union, Disjoint, List.Valid, Shape, Valid, List.Cells, List.Contents;
      ghost var more := piles[k].AppendStrStatic(mem, s);
      Account(k, more);
    }

    /** `l_clear` on one pile. */
    method ClearPile(mem: Ledger, k: nat)
      requires Backed(mem) && k < 16
      modifies Repr(), mem
      ensures Backed(mem) && view == old(view)[k := []] && Cells() <= old(Cells()) && Repr() <= old(Repr())
      ensures mem.live - Cells() == old(mem.live - Cells())
      ensures old(mem.freed) + (old(Cells()) - Cells()) <= mem.freed
    {
      PileIsOk(k);
      OthersApart(k);
      hide PileOk, Union, Disjoint, List.Valid, Shape, Valid, List.Cells, List.Contents;
      piles[k].Clear(mem);
      assert piles[k].Contents() == [] && piles[k].Cells() == {} by { EmptyList(piles[k]); }
      Account(k, {});
    }

    /** The end of `cplr_chain`: the volatile piles are cleared. */
    method ClearVolatile(mem: Ledger)
      requires Backed(mem)
      modifies Repr(), mem
      ensures Backed(mem) && view == Kept(old(view)) && Cells() <= old(Cells()) && Repr() <= old(Repr())
      ensures mem.live - Cells() == old(mem.live - Cells())
      ensures old(mem.freed) + (old(Cells()) - Cells()) <= mem.freed
    {
      KeptByClearing(view) by { assert |view| == 16; }
      hide Valid, Cells, Repr, Kept;
      ClearPile(mem, SRCS);
      ClearPile(mem, TLFS);
      ClearPile(mem, STMS);
      ClearPile(mem, BEFS);
      ClearPile(mem, AFTS);
    }

    /** The sixteen `l_clear` calls of `cplr_free`. */
    method ClearAll(mem: Ledger)
      requires Backed(mem)
      modifies Repr(), mem
      ensures Backed(mem) && view == NOTHING && Cells() == {}
      ensures mem.live == old(mem.live - Cells()) && old(mem.freed + Cells()) <= mem.freed
    {
      var k := 0;
      while k < 16
        invariant k <= 16 && Backed(mem) && Cells() <= old(Cells()) && Repr() <= old(Repr())
        invariant forall j :: 0 <= j < k ==> view[j] == []
        invariant mem.live - Cells() == old(mem.live - Cells())
        invariant old(mem.freed) + (old(Cells()) - Cells()) <= mem.freed
      {
        ClearPile(mem, k);
        k := k + 1;
      }
      NothingLeft();
    }

    /** Empty piles account for nothing. */
    lemma NothingLeft()
      requires Valid() && forall k :: 0 <= k < 16 ==> view[k] == []
      ensures view == NOTHING && Cells() == {}
    {
      forall k | 0 <= k < 16 ensures parts[k] == {} {
        PileIsOk(k);
        assert |piles[k].vals| == 0;
      }
    }

    /** The sixteen `l_clone` calls of `cplr_clone`, onto the empty piles of a new context. */
    method Clone(mem: Ledger, r: PileSet)
      requires Backed(mem) && r.Backed(mem) && r.view == NOTHING && Repr() !! r.Repr()
      modifies r.Repr(), mem
      ensures Backed(mem) && r.Backed(mem) && r.view == view && fresh(r.Repr() - old(r.Repr()))
      ensures old(r.Cells()) <= r.Cells()
      ensures mem.live - r.Cells() == old(mem.live - r.Cells()) && mem.freed == old(mem.freed)
    {
      var k := 0;
      while k < 16
        invariant k <= 16 && Backed(mem) && r.Backed(mem) && Repr() !! r.Repr()
        invariant fresh(r.Repr() - old(r.Repr())) && old(r.Cells()) <= r.Cells()
        invariant forall j :: 0 <= j < 16 ==> r.view[j] == if j < k then view[j] else []
        invariant mem.live - r.Cells() == old(mem.live - r.Cells()) && mem.freed == old(mem.freed)
      {
        ghost var live, theirs := mem.live, r.Cells();
        CloneOne(mem, r, k);
        StillLive(Cells(), theirs, live, r.Cells(), mem.live);
        k := k + 1;
      }
    }

    method CloneOne(mem: Ledger, r: PileSet, k: nat)
      requires Valid() && r.Backed(mem) && k < 16 && r.view[k] == [] && Repr() !! r.Repr() && mem !in Repr()
      modifies r.Repr(), mem
      ensures r.Backed(mem) && r.view == old(r.view)[k := view[k]]
      ensures old(r.Cells()) <= r.Cells() && fresh(r.Repr() - old(r.Repr()))
      ensures mem.live - r.Cells() == old(mem.live - r.Cells()) && mem.freed == old(mem.freed)
    {
      PileIsOk(k);
      r.PileIsOk(k);
      r.OthersApart(k);
      hide PileOk, Union, Disjoint, List.Valid, Shape, Valid, List.Cells, List.Contents;
      piles[k].Clone(mem, r.piles[k]);
      r.Account(k, r.piles[k].Cells());
    }

    /** After an operation on one list only: its new contents and allocations are taken into the table. */
    ghost method Account(k: nat, more: set<object>)
      requires k < 16 && Shape() && piles[k].Valid() && forall j :: 0 <= j < 16 && j != k ==> PileOk(j)
      requires piles[k].Cells() <= parts[k] + more && more !! Repr()
      modifies this
      ensures Valid() && view == old(view)[k := piles[k].Contents()]
      ensures Cells() == (old(Cells()) - old(parts)[k]) + piles[k].Cells()
    {
      hide Union, CellsOf, Sound, Chained, Texts;
      UnionUpdate(parts, k, piles[k].Cells());
      assert piles[k].Cells() !! Cells() - parts[k] by {
        assert forall j :: 0 <= j < 16 && j != k ==> parts[j] !! parts[k];
      }
      NodesAreCells(piles[k].nodes, piles[k].vals);
      view := view[k := piles[k].Contents()];
      parts := parts[k := piles[k].Cells()];
      forall j | 0 <= j < 16 ensures PileOk(j) {
        assert j != k ==> old(PileOk(j));
      }
    }
  }
}
