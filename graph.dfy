/** The runtime's graph nodes and the primitives that rewrite a node in
    place. */
module Graph {
  import opened Tags
  import opened Machine

  /** One pointer-sized word of a node. The runtime reinterprets the same
      word as a successor pointer (`SUCC_0`/`SUCC_1`), as unboxed data
      (`DATA(root, int64_t)`, `DATA(root, char)`, `DATA(root, vtable*)`) or,
      for nodes of arity three or more, as a pointer to a pooled successor
      array. Each constructor is one of these readings. */
  datatype Slot =
    | Null
    | Ref(node: Node)
    | Int(i: int)
    | Chr(c: CChar)
    | Code(vt: Vt)
    | Args(arr: array<Slot>)

  /** A graph node: tag, vtable, auxiliary word and two successor words.
      Nodes are rewritten in place. */
  class Node {
    var tag: int
    var vt: Vt
    var aux: nat
    var slot0: Slot
    var slot1: Slot

    constructor (tag: int, vt: Vt, aux: nat, slot0: Slot, slot1: Slot)
      ensures this.tag == tag && this.vt == vt && this.aux == aux
      ensures this.slot0 == slot0 && this.slot1 == slot1
    {
      this.tag, this.vt, this.aux := tag, vt, aux;
      this.slot0, this.slot1 := slot0, slot1;
    }
  }

  /** Whether a vtable belongs to a data constructor (its nodes carry a tag
      of CTOR or above). */
  predicate IsCtorVt(v: Vt) {
    v.CharVt? || v.Int64Vt? || v.FloatVt? || v.SuccessVt? || v.TrueVt? ||
    v.FalseVt? || v.ConsVt? || v.NilVt? || v.LtVt? || v.EqVt? || v.GtVt? ||
    v.UnitVt? || v.Ctor?
  }

  /** The agreement between a node's tag and its vtable that every rewrite
      primitive leaves behind: the failure, forward and choice vtables go
      with their reserved tags, function vtables with OPER and constructor
      vtables with a constructor tag. A partial application carries the
      arity of the partially applied function as its tag. */
  predicate Coherent(tag: int, vt: Vt) {
    match vt
    case FailedVt => tag == FAIL
    case FwdVt => tag == FWD
    case ChoiceVt => tag == CHOICE
    case Oper(_) => tag == OPER
    case Entry(_, _) => tag == OPER
    case ApplyVt => tag == OPER
    case PartialSpineVt => tag >= 0
    case _ => tag >= CTOR
  }

  /** For a coherent node, testing the tag and testing the vtable are
      interchangeable for the reserved kinds: the scheduler tests tags,
      `Cy_SkipFwd` and the string decoder test vtables. */
  lemma CoherentTagMatchesVt(tag: int, vt: Vt)
    requires Coherent(tag, vt)
    ensures vt.FwdVt? ==> tag == FWD
    ensures vt.FailedVt? ==> tag == FAIL
    ensures vt.ChoiceVt? ==> tag == CHOICE
    ensures IsCtorVt(vt) ==> tag >= CTOR && !IsSpecial(tag)
  {
  }

  /** A chain of forwarding nodes: every node but the last has the Fwd
      vtable and points at the next through slot 0; the last one is not a
      forwarding node. */
  ghost predicate FwdChain(chain: seq<Node>)
    reads set i | 0 <= i < |chain| :: chain[i]
  {
    && |chain| >= 1
    && (forall i :: 0 <= i < |chain| - 1 ==>
          chain[i].vt.FwdVt? && chain[i].slot0 == Ref(chain[i + 1]))
    && !chain[|chain| - 1].vt.FwdVt?
  }

  /** Two forwarding chains that start at the same node are the same chain:
      the node `Cy_SkipFwd` returns is determined by the graph. */
  lemma {:induction false} FwdChainUnique(c: seq<Node>, d: seq<Node>)
    requires FwdChain(c) && FwdChain(d) && c[0] == d[0]
    ensures c == d
  {
    if |c| > 1 {
      assert c[0].vt.FwdVt?;
      assert |d| > 1;
      assert FwdChain(c[1..]) && FwdChain(d[1..]);
      FwdChainUnique(c[1..], d[1..]);
      assert c == [c[0]] + c[1..];
      assert d == [d[0]] + d[1..];
    } else {
      assert |d| == 1;
    }
  }

  /** `Cy_SkipFwd`: follows slot 0 while the node is a forwarding node and
      returns the first node that is not. The ghost `chain` is the path the
      loop walks; a cyclic forwarding chain, on which the runtime does not
      return, has none. */
  method SkipFwd(root: Node, ghost chain: seq<Node>) returns (r: Node)
    requires FwdChain(chain) && chain[0] == root
    ensures r == chain[|chain| - 1]
    ensures !r.vt.FwdVt?
    ensures !root.vt.FwdVt? ==> r == root
  {
    r := root;
    ghost var k := 0;
    while r.vt.FwdVt?
      invariant 0 <= k < |chain| && r == chain[k]
      decreases |chain| - k
    {
      assert k < |chain| - 1;
      assert chain[k].slot0 == Ref(chain[k + 1]);
      r := r.slot0.node;
      k := k + 1;
    }
  }

  // ---- In-place rewrites of the root ----
  // The vtable's `destroy` hook that several primitives call first releases
  // a pooled successor array; it is not modelled (see README).

  /** `CyPrelude_failed`: the root becomes a failure. */
  method Failed(root: Node)
    modifies root
    ensures root.vt == FailedVt && root.tag == FAIL
    ensures Coherent(root.tag, root.vt)
    ensures root.aux == old(root.aux) && root.slot0 == old(root.slot0) && root.slot1 == old(root.slot1)
  {
    root.vt := FailedVt;
    root.tag := FAIL;
  }

  /** `CyPrelude_success`: the root becomes `Success`, the first constructor
      of its type. */
  method Success(root: Node)
    modifies root
    ensures root.vt == SuccessVt && root.tag == CTOR
    ensures Coherent(root.tag, root.vt)
    ensures root.aux == old(root.aux) && root.slot0 == old(root.slot0) && root.slot1 == old(root.slot1)
  {
    root.vt := SuccessVt;
    root.tag := CTOR;
  }

  /** `CyPrelude_true`: the root becomes `True`, the second constructor of
      `Bool`. */
  method SetTrue(root: Node)
    modifies root
    ensures root.vt == TrueVt && root.tag == CTOR + 1
    ensures Coherent(root.tag, root.vt)
    ensures root.aux == old(root.aux) && root.slot0 == old(root.slot0) && root.slot1 == old(root.slot1)
  {
    root.vt := TrueVt;
    root.tag := 1;
  }

  /** `CyPrelude_false`: the root becomes `False`, the first constructor of
      `Bool`. */
  method SetFalse(root: Node)
    modifies root
    ensures root.vt == FalseVt && root.tag == CTOR
    ensures Coherent(root.tag, root.vt)
    ensures root.aux == old(root.aux) && root.slot0 == old(root.slot0) && root.slot1 == old(root.slot1)
  {
    root.vt := FalseVt;
    root.tag := 0;
  }

  /** `CyPrelude_eq`: the root becomes `EQ`, the second constructor of
      `Ordering`. */
  method SetEq(root: Node)
    modifies root
    ensures root.vt == EqVt && root.tag == CTOR + 1
    ensures Coherent(root.tag, root.vt)
    ensures root.aux == old(root.aux) && root.slot0 == old(root.slot0) && root.slot1 == old(root.slot1)
  {
    root.vt := EqVt;
    root.tag := 1;
  }

  /** `==` on `Success`: the type has one value, so the comparison is
      `True`. */
  method SuccessEquals(root: Node)
    modifies root
    ensures root.vt == TrueVt && root.tag == CTOR + 1
    ensures root.aux == old(root.aux) && root.slot0 == old(root.slot0) && root.slot1 == old(root.slot1)
  {
    SetTrue(root);
  }

  /** `compare` on `Success`: always `EQ`. */
  method SuccessCompare(root: Node)
    modifies root
    ensures root.vt == EqVt && root.tag == CTOR + 1
    ensures root.aux == old(root.aux) && root.slot0 == old(root.slot0) && root.slot1 == old(root.slot1)
  {
    SetEq(root);
  }

  /** Turns the root into a forwarding node to its slot-0 successor. This is
      the whole effect of `CyPrelude_return`, `$!` and `$!!` once their
      argument has been normalised (the normalisation is outside the
      model). */
  method Forward(root: Node)
    modifies root
    ensures root.vt == FwdVt && root.tag == FWD
    ensures Coherent(root.tag, root.vt)
    ensures root.aux == old(root.aux) && root.slot0 == old(root.slot0) && root.slot1 == old(root.slot1)
  {
    root.vt := FwdVt;
    root.tag := FWD;
  }

  /** `CyPrelude_return`: `return x` forwards to `x`. */
  method Return(root: Node)
    modifies root
    ensures root.vt == FwdVt && root.tag == FWD
    ensures root.aux == old(root.aux) && root.slot0 == old(root.slot0) && root.slot1 == old(root.slot1)
  {
    Forward(root);
  }

  /** `$!` (and `$!!`): after head-normalising (normalising) the argument,
      the application forwards to slot 0. */
  method DollarBang(root: Node)
    modifies root
    ensures root.vt == FwdVt && root.tag == FWD
    ensures root.aux == old(root.aux) && root.slot0 == old(root.slot0) && root.slot1 == old(root.slot1)
  {
    Forward(root);
  }

  /** `>>=`: once the first argument (the IO action) is normalised, the node
      becomes an application of the second argument to the first: the vtable
      becomes `apply`, the tag stays OPER and the two successors swap. */
  method Bind(root: Node)
    requires root.tag == OPER
    modifies root
    ensures root.vt == ApplyVt && root.tag == OPER
    ensures Coherent(root.tag, root.vt)
    ensures root.slot0 == old(root.slot1) && root.slot1 == old(root.slot0)
    ensures root.aux == old(root.aux)
  {
    root.vt := ApplyVt;
    root.slot0, root.slot1 := root.slot1, root.slot0;
  }

  /** `prim_isChar`: whether the (normalised) argument in slot 0 is a `Char`
      node decides between `True` (CTOR+1) and `False` (CTOR). */
  method IsChar(root: Node)
    requires root.slot0.Ref?
    modifies root
    ensures old(root.slot0.node.vt).CharVt? ==> root.vt == TrueVt && root.tag == CTOR + 1
    ensures !old(root.slot0.node.vt).CharVt? ==> root.vt == FalseVt && root.tag == CTOR
    ensures Coherent(root.tag, root.vt)
    ensures root.aux == old(root.aux) && root.slot0 == old(root.slot0) && root.slot1 == old(root.slot1)
  {
    var arg := root.slot0.node;
    if arg.vt.CharVt? {
      root.vt := TrueVt;
      root.tag := CTOR + 1;
    } else {
      root.vt := FalseVt;
      root.tag := CTOR;
    }
  }
}
