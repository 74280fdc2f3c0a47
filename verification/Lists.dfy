/** Owning doubly linked lists of tagged values, and the allocator ledger they are accounted in. */
module Lists {
  import opened Text

  // ---- memory ------------------------------------------------------------------------------------

  /** A character array that is never written after its creation: a heap copy or a static literal. */
  class CString {
    const text: string

    constructor (text: string)
      ensures this.text == text
    {
      this.text := text;
    }
  }

  /** What `malloc` has handed out and not taken back, and everything that was given back. */
  class Ledger {
    ghost var live: set<object>
    ghost var freed: set<object>

    constructor ()
      ensures live == {} && freed == {}
    {
      live, freed := {}, {};
    }

    /** An allocation enters the ledger. */
    ghost method Track(o: object)
      requires o !in live && o !in freed
      modifies this
      ensures live == old(live) + {o} && freed == old(freed)
    {
      live := live + {o};
    }

    /** `free`: only something live may be given back, so nothing is given back twice. */
    ghost method Release(o: object)
      requires o in live
      modifies this
      ensures live == old(live) - {o} && freed == old(freed) + {o}
    {
      live, freed := live - {o}, freed + {o};
    }
  }

  method StrDup(mem: Ledger, text: string) returns (s: CString)
    modifies mem
    ensures fresh(s) && s.text == text
    ensures mem.live == old(mem.live) + {s} && mem.freed == old(mem.freed)
  {
    s := new CString(text);
    mem.Track(s);
  }

  // ---- values --------------------------------------------------------------------------------------

  const VT_CHAR: bv32 := 3
  const VTF_POINTER: bv32 := 0x1_0000
  const VTF_ARRAYZ: bv32 := 0x7_0000
  const VTM_OWNED: bv32 := 0x100_0000
  const VTM_STATIC: bv32 := 0x200_0000
  const VTEQ_MASK: bv32 := 0xFF_FFFF
  const VT_STRING: bv32 := VT_CHAR | VTF_ARRAYZ

  datatype Value = Value(vtype: bv32, str: CString?)

  const CLEARED := Value(0, null)

  predicate HasType(v: Value, t: bv32) {
    v.vtype & VTEQ_MASK == t & VTEQ_MASK
  }

  /** The test of `value_clear`: a pointer that this value has to give back. */
  predicate Owns(v: Value) {
    v.vtype & VTF_POINTER != 0 && v.vtype & VTM_OWNED != 0
  }

  predicate IsString(v: Value) {
    HasType(v, VT_STRING) && v.str != null
  }

  function Owned(v: Value): set<object> {
    if Owns(v) && v.str != null then {v.str} else {}
  }

  function StringOwned(s: CString): (v: Value)
    ensures IsString(v) && Owns(v) && v.str == s
  {
    Value(VT_STRING | VTM_OWNED, s)
  }

  function StringStatic(s: CString): (v: Value)
    ensures IsString(v) && !Owns(v) && v.str == s
  {
    Value(VT_STRING | VTM_STATIC, s)
  }

  /** Setting the ownership bit changes neither the type nor the pointer flag. */
  lemma OwnedBitKeepsType(t: bv32)
    requires t & VTEQ_MASK == VT_STRING & VTEQ_MASK
    ensures (t | VTM_OWNED) & VTEQ_MASK == VT_STRING & VTEQ_MASK
    ensures (t | VTM_OWNED) & VTF_POINTER != 0 && (t | VTM_OWNED) & VTM_OWNED != 0
  {
  }

  /** `value_clone` on a string: whatever the original's storage, the copy owns a fresh one. */
  method CloneValue(mem: Ledger, src: Value) returns (dst: Value)
    requires IsString(src)
    modifies mem
    ensures IsString(dst) && Owns(dst) && fresh(dst.str) && dst.str.text == src.str.text
    ensures mem.live == old(mem.live) + Owned(dst) && mem.freed == old(mem.freed)
  {
    dst := src;
    OwnedBitKeepsType(src.vtype);
    var s := StrDup(mem, src.str.text);
    dst := Value(dst.vtype | VTM_OWNED, s);
  }

  // ---- nodes and lists ------------------------------------------------------------------------------

  class Node {
    var h: List?
    var n: Node?
    var p: Node?
    var v: Value

    /** A zeroed node. */
    constructor (mem: Ledger)
      modifies mem
      ensures h == null && n == null && p == null && v == CLEARED
      ensures mem.live == old(mem.live) + {this} && mem.freed == old(mem.freed)
    {
      h, n, p, v := null, null, null, CLEARED;
      new;
      mem.Track(this);
    }

    /** `value_clear` on the node's value. */
    method ClearValue(mem: Ledger)
      requires Owned(v) <= mem.live
      modifies this`v, mem
      ensures v == CLEARED
      ensures mem.live == old(mem.live) - old(Owned(v)) && mem.freed == old(mem.freed) + old(Owned(v))
    {
      if Owns(v) && v.str != null {
        mem.Release(v.str);
      }
      v := CLEARED;
    }
  }

  /** The allocations that the first |nodes| nodes of a list are accountable for. */
  ghost function CellsOf(nodes: seq<Node>, vals: seq<Value>): set<object> {
    if nodes == [] || |nodes| != |vals| then {}
    else
      var k := |nodes| - 1;
      CellsOf(nodes[..k], vals[..k]) + {nodes[k]} + Owned(vals[k])
  }

  /** No allocation is accounted for twice. */
  ghost predicate Separate(nodes: seq<Node>, vals: seq<Value>)
    requires |nodes| == |vals|
  {
    nodes == [] ||
    (var k := |nodes| - 1;
     Separate(nodes[..k], vals[..k]) &&
     nodes[k] !in CellsOf(nodes[..k], vals[..k]) && nodes[k] !in Owned(vals[k]) &&
     Owned(vals[k]) !! CellsOf(nodes[..k], vals[..k]))
  }

  ghost function TextOf(v: Value): string {
    if v.str == null then "" else v.str.text
  }

  ghost function Texts(vals: seq<Value>): (r: seq<string>)
    ensures |r| == |vals|
  {
    seq(|vals|, i requires 0 <= i < |vals| => TextOf(vals[i]))
  }

  /** What the nodes of a list and their values promise apart from the links. */
  ghost predicate Sound(nodes: seq<Node>, vals: seq<Value>): (b: bool)
    ensures b ==> |nodes| == |vals|
  {
    |nodes| == |vals| &&
    (forall i, j :: 0 <= i < j < |nodes| ==> nodes[i] != nodes[j]) &&
    (forall v <- vals :: IsString(v)) &&
    Separate(nodes, vals)
  }

  lemma SoundNothing()
    ensures Sound([], []) && Texts([]) == [] && CellsOf([], []) == {}
  {
  }

  /** The values copied so far carry the texts of the originals. */
  ghost predicate Copied(vs: seq<Value>, vals: seq<Value>) {
    |vs| <= |vals| && forall i :: 0 <= i < |vs| ==> TextOf(vs[i]) == TextOf(vals[i])
  }

  lemma CopiedStep(vs: seq<Value>, vals: seq<Value>, v: Value)
    requires Copied(vs, vals) && |vs| < |vals| && TextOf(v) == TextOf(vals[|vs|])
    ensures Copied(vs + [v], vals)
  {
  }

  lemma CopiedAll(vs: seq<Value>, vals: seq<Value>)
    requires Copied(vs, vals) && |vs| == |vals|
    ensures Texts(vs) == Texts(vals)
  {
  }

  lemma SoundSeparate(nodes: seq<Node>, vals: seq<Value>)
    requires Sound(nodes, vals)
    ensures Separate(nodes, vals)
  {
  }

  lemma NodesDiffer(nodes: seq<Node>, vals: seq<Value>)
    requires Sound(nodes, vals)
    ensures forall i, j :: 0 <= i < j < |nodes| ==> nodes[i] != nodes[j]
  {
  }

  lemma {:induction false} NodesAreCells(nodes: seq<Node>, vals: seq<Value>)
    requires |nodes| == |vals|
    ensures forall n <- nodes :: n in CellsOf(nodes, vals)
  {
    if nodes != [] {
      var k := |nodes| - 1;
      NodesAreCells(nodes[..k], vals[..k]);
      assert forall n <- nodes :: n in nodes[..k] || n == nodes[k];
    }
  }

  lemma SoundAppend(nodes: seq<Node>, vals: seq<Value>, x: Node, v: Value)
    requires Sound(nodes, vals) && IsString(v)
    requires x !in CellsOf(nodes, vals) && x !in Owned(v) && Owned(v) !! CellsOf(nodes, vals)
    ensures x !in nodes && Sound(nodes + [x], vals + [v])
    ensures CellsOf(nodes + [x], vals + [v]) == CellsOf(nodes, vals) + {x} + Owned(v)
    ensures Texts(vals + [v]) == Texts(vals) + [v.str.text]
  {
    hide Separate, CellsOf, Texts, IsString, Owned;
    NodesAreCells(nodes, vals);
    SeparateAppend(nodes, vals, x, v);
    TextsAppend(vals, v);
    assert forall u <- vals + [v] :: u in vals || u == v;
  }

  lemma SeparateAppend(nodes: seq<Node>, vals: seq<Value>, x: Node, v: Value)
    requires |nodes| == |vals| && Separate(nodes, vals)
    requires x !in CellsOf(nodes, vals) && x !in Owned(v) && Owned(v) !! CellsOf(nodes, vals)
    ensures Separate(nodes + [x], vals + [v])
    ensures CellsOf(nodes + [x], vals + [v]) == CellsOf(nodes, vals) + {x} + Owned(v)
  {
    assert (nodes + [x])[..|nodes|] == nodes && (vals + [v])[..|vals|] == vals;
    hide Owned;
  }

  lemma TextsAppend(vals: seq<Value>, v: Value)
    requires IsString(v)
    ensures Texts(vals + [v]) == Texts(vals) + [v.str.text]
  {
  }

  /** The node at position i, or the end of the list on either side. */
  ghost function Nth(nodes: seq<Node>, i: int): Node? {
    if 0 <= i < |nodes| then nodes[i] else null
  }

  ghost predicate LinkedAt(nodes: seq<Node>, vals: seq<Value>, owner: List, i: nat)
    requires i < |nodes| == |vals|
    reads nodes[i]
  {
    var x := nodes[i];
    x.h == owner && x.n == Nth(nodes, i + 1) && x.p == Nth(nodes, i - 1) && x.v == vals[i]
  }

  ghost predicate Chained(nodes: seq<Node>, vals: seq<Value>, owner: List)
    requires |nodes| == |vals|
    reads nodes
  {
    forall i :: 0 <= i < |nodes| ==> LinkedAt(nodes, vals, owner, i)
  }

  /** The k-th node adds allocations that no other node of the list accounts for. */
  lemma {:induction false} CellsStep(nodes: seq<Node>, vals: seq<Value>, k: nat)
    requires |nodes| == |vals| && k < |nodes| && Separate(nodes, vals)
    ensures CellsOf(nodes[..k + 1], vals[..k + 1]) == CellsOf(nodes[..k], vals[..k]) + {nodes[k]} + Owned(vals[k])
    ensures nodes[k] !in CellsOf(nodes[..k], vals[..k]) && nodes[k] !in Owned(vals[k])
    ensures Owned(vals[k]) !! CellsOf(nodes[..k], vals[..k])
    ensures CellsOf(nodes[..k + 1], vals[..k + 1]) <= CellsOf(nodes, vals)
  {
    var z := |nodes| - 1;
    assert nodes[..k + 1][..k] == nodes[..k] && vals[..k + 1][..k] == vals[..k];
    if k < z {
      assert nodes[..z][..k] == nodes[..k] && vals[..z][..k] == vals[..k];
      assert nodes[..z][..k + 1] == nodes[..k + 1] && vals[..z][..k + 1] == vals[..k + 1];
      CellsStep(nodes[..z], vals[..z], k);
    } else {
      assert nodes[..k + 1] == nodes && vals[..k + 1] == vals;
    }
  }

  /** The state of `l_clone` between two nodes. */
  ghost predicate Copying(ns: seq<Node>, vs: seq<Value>, vals: seq<Value>, first: Node?, last: Node?, owner: List): (b: bool)
    reads ns
    ensures b ==> |ns| == |vs|
  {
    Sound(ns, vs) && Chained(ns, vs, owner) && Copied(vs, vals) && first == Nth(ns, 0) && last == Nth(ns, |ns| - 1)
  }

  lemma CopyingParts(ns: seq<Node>, vs: seq<Value>, vals: seq<Value>, first: Node?, last: Node?, owner: List)
    requires Copying(ns, vs, vals, first, last, owner)
    ensures Sound(ns, vs) && ChainedFrom(ns, vs, owner, 0) && Copied(vs, vals)
    ensures first == Nth(ns, 0) && last == Nth(ns, |ns| - 1)
  {
    hide Sound, Copied;
  }

  lemma CopyingMade(ns: seq<Node>, vs: seq<Value>, vals: seq<Value>, first: Node?, last: Node?, owner: List)
    requires Sound(ns, vs) && ChainedFrom(ns, vs, owner, 0) && Copied(vs, vals)
    requires first == Nth(ns, 0) && last == Nth(ns, |ns| - 1)
    ensures Copying(ns, vs, vals, first, last, owner)
  {
    hide Sound, Copied;
  }

  lemma CopyingLast(ns: seq<Node>, vs: seq<Value>, vals: seq<Value>, first: Node?, last: Node?, owner: List)
    requires Copying(ns, vs, vals, first, last, owner)
    ensures last != null ==> last in CellsOf(ns, vs)
  {
    NodesAreCells(ns, vs);
  }

  lemma ChainedThroughout(nodes: seq<Node>, vals: seq<Value>, owner: List)
    requires |nodes| == |vals|
    ensures Chained(nodes, vals, owner) <==> ChainedFrom(nodes, vals, owner, 0)
  {
  }

  lemma NothingChained(owner: List)
    ensures Chained([], [], owner)
  {
  }

  lemma LinkOf(nodes: seq<Node>, vals: seq<Value>, owner: List, k: nat)
    requires k < |nodes| && Sound(nodes, vals) && Chained(nodes, vals, owner)
    ensures nodes[k].n == Nth(nodes, k + 1) && nodes[k].p == Nth(nodes, k - 1)
    ensures nodes[k].v == vals[k] && IsString(vals[k])
    ensures forall i :: 0 <= i < |nodes| && i != k ==> nodes[i] != nodes[k]
  {
    assert LinkedAt(nodes, vals, owner, k) && vals[k] in vals;
  }

  ghost predicate ChainedFrom(nodes: seq<Node>, vals: seq<Value>, owner: List, k: nat)
    requires |nodes| == |vals|
    reads nodes
  {
    forall i :: k <= i < |nodes| ==> LinkedAt(nodes, vals, owner, i)
  }

  lemma EndsAppend(nodes: seq<Node>, x: Node)
    ensures Nth(nodes + [x], 0) == (if nodes == [] then x else Nth(nodes, 0)) && Nth(nodes + [x], |nodes|) == x
    ensures nodes == [] <==> Nth(nodes, 0) == null
    ensures Nth(nodes, |nodes| - 1) == if nodes == [] then null else nodes[|nodes| - 1]
  {
  }

  lemma LastLink(nodes: seq<Node>, vals: seq<Value>, owner: List)
    requires |nodes| == |vals| && Chained(nodes, vals, owner)
    ensures forall i :: 0 <= i < |nodes| ==> LinkedAt(nodes, vals, owner, i)
    ensures var k := |nodes| - 1; nodes != [] ==>
      nodes[k].h == owner && nodes[k].p == Nth(nodes, k - 1) && nodes[k].v == vals[k]
  {
    assert nodes != [] ==> LinkedAt(nodes, vals, owner, |nodes| - 1);
  }

  /** The links behind which a node was put: all but the last are as they were. */
  lemma ChainedAppend(nodes: seq<Node>, vals: seq<Value>, x: Node, owner: List)
    requires |nodes| == |vals| && forall i :: 0 <= i < |nodes| - 1 ==> LinkedAt(nodes, vals, owner, i)
    requires var k := |nodes| - 1; nodes != [] ==>
      nodes[k].h == owner && nodes[k].n == x && nodes[k].p == Nth(nodes, k - 1) && nodes[k].v == vals[k]
    requires x.h == owner && x.n == null && x.p == Nth(nodes, |nodes| - 1)
    ensures Chained(nodes + [x], vals + [x.v], owner)
  {
    forall i | 0 <= i <= |nodes| ensures LinkedAt(nodes + [x], vals + [x.v], owner, i) {
      if i < |nodes| - 1 {
        assert LinkedAt(nodes, vals, owner, i);
      }
    }
  }

  class List {
    var c: nat
    var f: Node?
    var l: Node?
    ghost var nodes: seq<Node>
    ghost var vals: seq<Value>

    ghost predicate Valid()
      reads this, nodes
    {
      Sound(nodes, vals) && Chained(nodes, vals, this) &&
      c == |nodes| && f == Nth(nodes, 0) && l == Nth(nodes, |nodes| - 1)
    }

    ghost function Contents(): seq<string>
      reads this
    {
      Texts(vals)
    }

    ghost function Cells(): set<object>
      reads this
    {
      CellsOf(nodes, vals)
    }

    lemma Counted()
      requires Valid()
      ensures c == |Contents()|
    {
    }

    /** `l_init`. */
    constructor ()
      ensures Valid() && Contents() == [] && nodes == []
    {
      c, f, l := 0, null, null;
      nodes, vals := [], [];
    }

    /** `l_append`. */
    method Append(x: Node)
      requires Valid() && x.n == null && x.p == null && IsString(x.v)
      requires x !in Cells() && x !in Owned(x.v) && Owned(x.v) !! Cells()
      modifies this, x, if l == null then {} else {l}
      ensures Valid() && nodes == old(nodes) + [x] && vals == old(vals) + [old(x.v)]
      ensures Contents() == old(Contents()) + [old(x.v).str.text]
      ensures Cells() == old(Cells()) + {x} + Owned(old(x.v))
    {
      hide Sound, IsString, Texts, CellsOf, Owned, Separate, TextOf, Chained, LinkedAt, Nth;
      ghost var ns, vs, last := nodes, vals, l;
      SoundAppend(ns, vs, x, x.v);
      NodesDiffer(ns, vs);
      EndsAppend(ns, x);
      LastLink(ns, vs, this);
      x.h := this;
      if l != null {
        x.p := l;
        l.n := x;
      }
      if f == null {
        f := x;
      }
      l := x;
      c := c + 1;
      nodes, vals := ns + [x], vs + [x.v];
      forall i | 0 <= i < |ns| - 1 ensures LinkedAt(ns, vs, this, i) {
        assert old(LinkedAt(ns, vs, this, i)) && ns[i] != last && ns[i] != x;
      }
      ChainedAppend(ns, vs, x, this);
    }

    /** `l_append_str_owned`: the list takes over a heap string. */
    method AppendStrOwned(mem: Ledger, s: CString) returns (ghost more: set<object>)
      requires Valid() && Cells() <= mem.live && s in mem.live && s !in Cells()
      modifies this, mem, if l == null then {} else {l}
      ensures Valid() && Contents() == old(Contents()) + [s.text]
      ensures Cells() == old(Cells()) + more + {s} && fresh(more)
      ensures mem.live == old(mem.live) + more && mem.freed == old(mem.freed)
    {
      hide Owns, IsString, Sound, Chained, CellsOf, Texts, Separate, StringOwned;
      var x := new Node(mem);
      x.ClearValue(mem);
      x.v := StringOwned(s);
      Append(x);
      more := {x};
    }

    /** `l_append_str_static`: the list borrows a string that it will never release. */
    method AppendStrStatic(mem: Ledger, s: CString) returns (ghost more: set<object>)
      requires Valid() && Cells() <= mem.live
      modifies this, mem, if l == null then {} else {l}
      ensures Valid() && Contents() == old(Contents()) + [s.text]
      ensures Cells() == old(Cells()) + more && fresh(more) && s !in more
      ensures mem.live == old(mem.live) + more && mem.freed == old(mem.freed)
    {
      hide Owns, IsString, Sound, Chained, CellsOf, Texts, Separate, StringStatic;
      var x := new Node(mem);
      x.ClearValue(mem);
      x.v := StringStatic(s);
      Append(x);
      more := {x};
    }

    /** A fresh node of `dst` behind `prev` that holds a copy of the value of `src`. */
    static method LinkCopy(mem: Ledger, src: Node, ghost ns: seq<Node>, ghost vs: seq<Value>, prev: Node?, dst: List)
      returns (copy: Node)
      requires IsString(src.v) && src !in ns && |ns| == |vs| && prev == Nth(ns, |ns| - 1)
      requires forall i, j :: 0 <= i < j < |ns| ==> ns[i] != ns[j]
      requires ChainedFrom(ns, vs, dst, 0)
      modifies mem, if prev == null then {} else {prev}
      ensures fresh(copy) && IsString(copy.v) && TextOf(copy.v) == TextOf(src.v) && src.n == old(src.n)
      ensures ChainedFrom(ns + [copy], vs + [copy.v], dst, 0)
      ensures fresh(Owned(copy.v)) && copy !in Owned(copy.v)
      ensures mem.live == old(mem.live) + ({copy} + Owned(copy.v)) && mem.freed == old(mem.freed)
    {
      hide Owns;
      copy := new Node(mem);
      copy.h := dst;
      copy.p := prev;
      if prev != null {
        prev.n := copy;
      }
      copy.v := CloneValue(mem, src.v);
      forall i | 0 <= i <= |ns| ensures LinkedAt(ns + [copy], vs + [copy.v], dst, i) {
        if i < |ns| {
          assert old(LinkedAt(ns, vs, dst, i));
        }
      }
    }

    /** The body of the loop of `l_clone`: a fresh copy of `src` behind the copies made so far. */
    static method CloneNode(mem: Ledger, src: Node, ghost ns: seq<Node>, ghost vs: seq<Value>,
                            ghost vals: seq<Value>, first: Node?, prev: Node?, dst: List)
      returns (firstNow: Node?, copy: Node, ghost nsNow: seq<Node>, ghost vsNow: seq<Value>, ghost more: set<object>)
      requires Copying(ns, vs, vals, first, prev, dst) && |ns| < |vals| && vals[|ns|] == src.v && IsString(src.v)
      requires src !in CellsOf(ns, vs) && CellsOf(ns, vs) <= mem.live
      modifies mem, if prev == null then {} else {prev}
      ensures Copying(nsNow, vsNow, vals, firstNow, copy, dst)
      ensures |nsNow| == |ns| + 1 && src.n == old(src.n)
      ensures CellsOf(nsNow, vsNow) == CellsOf(ns, vs) + more && fresh(more)
      ensures mem.live == old(mem.live) + more && mem.freed == old(mem.freed)
    {
      hide Copying, Sound, CellsOf, Copied, TextOf, Owned, IsString, Chained, ChainedFrom, Texts;
      CopyingParts(ns, vs, vals, first, prev, dst);
      NodesDiffer(ns, vs);
      NodesAreCells(ns, vs);
      copy := LinkCopy(mem, src, ns, vs, prev, dst);
      firstNow := first;
      if first == null {
        firstNow := copy;
      }
      nsNow, vsNow, more := ns + [copy], vs + [copy.v], {copy} + Owned(copy.v);
      CopiedStep(vs, vals, copy.v);
      SoundAppend(ns, vs, copy, copy.v);
      CopyingMade(nsNow, vsNow, vals, firstNow, copy, dst);
    }

    /** The loop of `l_clone`. */
    method CloneNodes(mem: Ledger, dst: List)
      returns (first: Node?, copy: Node?, ghost ns: seq<Node>, ghost vs: seq<Value>)
      requires Valid()
      modifies mem
      ensures Copying(ns, vs, vals, first, copy, dst) && |ns| == |nodes|
      ensures fresh(CellsOf(ns, vs))
      ensures mem.live == old(mem.live) + CellsOf(ns, vs) && mem.freed == old(mem.freed)
    {
      ghost var cells, more: set<object> := {}, {};
      first, copy, ns, vs := null, null, [], [];
      var src := f;
      SoundNothing();
      assert Chained([], [], dst) && Copied([], vals);
      assert Copying(ns, vs, vals, first, copy, dst);
      hide Sound, CellsOf, IsString, Chained, Copying;
      while src != null
        invariant Copying(ns, vs, vals, first, copy, dst) && |ns| <= |nodes| && src == Nth(nodes, |ns|)
        invariant cells == CellsOf(ns, vs) && fresh(cells)
        invariant mem.live == old(mem.live) + cells && mem.freed == old(mem.freed)
        decreases |nodes| - |ns|
      {
        LinkOf(nodes, vals, this, |ns|);
        CopyingLast(ns, vs, vals, first, copy, dst);
        first, copy, ns, vs, more := CloneNode(mem, src, ns, vs, vals, first, copy, dst);
        cells := cells + more;
        src := src.n;
      }
    }

    /** `l_clone`: every value is copied into a fresh node with a fresh string of its own. */
    method Clone(mem: Ledger, dst: List)
      requires Valid() && dst != this
      modifies dst, mem
      ensures dst.Valid() && dst.Contents() == Contents()
      ensures fresh(dst.Cells())
      ensures mem.live == old(mem.live) + dst.Cells() && mem.freed == old(mem.freed)
    {
      ghost var ns, vs;
      var first, copy;
      first, copy, ns, vs := CloneNodes(mem, dst);
      CopiedAll(vs, vals);
      hide Sound, CellsOf, Chained, Copied;
      Install(dst, ns, vs, c, first, copy);
    }

    /** Filling in a head whose nodes are already linked. */
    static method Install(dst: List, ghost ns: seq<Node>, ghost vs: seq<Value>, c: nat, first: Node?, last: Node?)
      requires Sound(ns, vs) && Chained(ns, vs, dst)
      requires c == |ns| && first == Nth(ns, 0) && last == Nth(ns, |ns| - 1)
      modifies dst
      ensures dst.Valid() && dst.nodes == ns && dst.vals == vs
    {
      hide Sound, CellsOf;
      dst.c, dst.f, dst.l := c, first, last;
      dst.nodes, dst.vals := ns, vs;
      forall i | 0 <= i < |ns| ensures LinkedAt(ns, vs, dst, i) {
        assert old(LinkedAt(ns, vs, dst, i));
      }
    }

    /** The body of the loop of `l_clear`: the node is left before it is released. */
    static method ClearNode(mem: Ledger, n: Node, ghost ns: seq<Node>, ghost vs: seq<Value>, owner: List, ghost k: nat)
      returns (next: Node?)
      requires Sound(ns, vs) && ChainedFrom(ns, vs, owner, k) && n == Nth(ns, k)
      requires {n} + Owned(vs[k]) <= mem.live && n !in Owned(vs[k])
      modifies n`v, mem
      ensures next == Nth(ns, k + 1) && ChainedFrom(ns, vs, owner, k + 1)
      ensures mem.live == old(mem.live) - ({n} + Owned(vs[k])) && mem.freed == old(mem.freed) + ({n} + Owned(vs[k]))
    {
      NodesDiffer(ns, vs);
      hide Sound, Owned;
      assert LinkedAt(ns, vs, owner, k);
      next := n.n;
      n.ClearValue(mem);
      mem.Release(n);
      forall i | k + 1 <= i < |ns| ensures LinkedAt(ns, vs, owner, i) {
        assert old(LinkedAt(ns, vs, owner, i));
      }
    }

    /** `l_clear`: every node is released, and with it the string it owns. */
    method Clear(mem: Ledger)
      requires Valid() && Cells() <= mem.live
      modifies this, nodes, mem
      ensures Valid() && nodes == [] && Contents() == []
      ensures mem.live == old(mem.live) - old(Cells()) && mem.freed == old(mem.freed) + old(Cells())
    {
      hide Sound, CellsOf, Texts, Separate, Owned, ChainedFrom, Chained;
      ghost var ns, vs := nodes, vals;
      ghost var k, gone: set<object> := 0, {};
      var n := f;
      SoundNothing();
      SoundSeparate(ns, vs);
      ChainedThroughout(ns, vs, this);
      assert ns[..0] == [] && vs[..0] == [];
      while n != null
        invariant nodes == ns && vals == vs && k <= |ns| && n == Nth(ns, k)
        invariant ChainedFrom(ns, vs, this, k)
        invariant gone == CellsOf(ns[..k], vs[..k])
        invariant mem.live == old(mem.live) - gone && mem.freed == old(mem.freed) + gone
        decreases |ns| - k
      {
        CellsStep(ns, vs, k);
        n := ClearNode(mem, n, ns, vs, this, k);
        gone := gone + ({ns[k]} + Owned(vs[k]));
        k := k + 1;
      }
      assert ns[..k] == ns && vs[..k] == vs;
      c, f, l := 0, null, null;
      nodes, vals := [], [];
      NothingChained(this);
    }

    /** The loop macros: the texts of a list in one direction or the other. */
    method Listing(reverse: bool) returns (r: seq<string>)
      requires Valid()
      ensures r == if reverse then Reverse(Contents()) else Contents()
    {
      r := [];
      hide Sound;
      if reverse {
        var n := l;
        while n != null
          invariant |r| <= |nodes| && n == Nth(nodes, |nodes| - 1 - |r|)
          invariant r == Reverse(Contents())[..|r|]
          decreases |nodes| - |r|
        {
          LinkOf(nodes, vals, this, |nodes| - 1 - |r|);
          r := r + [n.v.str.text];
          n := n.p;
        }
      } else {
        var n := f;
        while n != null
          invariant |r| <= |nodes| && n == Nth(nodes, |r|)
          invariant r == Contents()[..|r|]
          decreases |nodes| - |r|
        {
          LinkOf(nodes, vals, this, |r|);
          r := r + [n.v.str.text];
          n := n.n;
        }
      }
    }
  }
}
