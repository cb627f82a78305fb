/** The Int and Char primitives of the prelude as in-place rewrites of the
    root node. Each reads the data of its (already normalised) arguments,
    slot 0 (`lhs`/`arg`) and slot 1 (`rhs`), and rewrites the root to the
    result. Normalising the arguments is outside the model. */
module Prelude {
  import opened Machine
  import opened Tags
  import opened Graph
  import opened IntOps

  /** Slot `s` holds a pointer to a node whose data word is an integer. */
  predicate IntArg(s: Slot)
    reads if s.Ref? then {s.node} else {}
  {
    s.Ref? && s.node.slot0.Int?
  }

  /** Slot `s` holds a pointer to a node whose data word is a character. */
  predicate CharArg(s: Slot)
    reads if s.Ref? then {s.node} else {}
  {
    s.Ref? && s.node.slot0.Chr?
  }

  /** `+ - * div mod quot rem` on Int: the root becomes an Int64 node holding
      the result in its data word; slot 1 is left as it was. */
  method IntBinary(root: Node, op: BinOp)
    requires IntArg(root.slot0) && IntArg(root.slot1)
    requires Defined(op, root.slot0.node.slot0.i, root.slot1.node.slot0.i)
    modifies root
    ensures root.vt == Int64Vt && root.tag == CTOR
    ensures root.slot0 == Int(Compute(op, old(root.slot0.node.slot0.i), old(root.slot1.node.slot0.i)))
    ensures InInt64(root.slot0.i)
    ensures root.slot1 == old(root.slot1) && root.aux == old(root.aux)
  {
    var x := root.slot0.node.slot0.i;
    var y := root.slot1.node.slot0.i;
    ComputeInRange(op, x, y);
    root.vt := Int64Vt;
    root.tag := CTOR;
    root.slot0 := Int(Compute(op, x, y));
  }

  /** `ord`: the root becomes the Int holding the character's code; the
      second word is cleared. */
  method OrdNode(root: Node)
    requires CharArg(root.slot0)
    modifies root
    ensures root.vt == Int64Vt && root.tag == CTOR
    ensures root.slot0 == Int(Ord(old(root.slot0.node.slot0.c)))
    ensures root.slot1 == Null && root.aux == old(root.aux)
  {
    var c := root.slot0.node.slot0.c;
    root.vt := Int64Vt;
    root.tag := CTOR;
    root.slot0 := Int(Ord(c));
    root.slot1 := Null;
  }

  /** `chr`: the root becomes the Char holding the low byte of the
      integer; the second word is cleared. */
  method ChrNode(root: Node)
    requires IntArg(root.slot0)
    modifies root
    ensures root.vt == CharVt && root.tag == CTOR
    ensures root.slot0 == Chr(IntOps.Chr(old(root.slot0.node.slot0.i)))
    ensures root.slot1 == Null && root.aux == old(root.aux)
  {
    var i := root.slot0.node.slot0.i;
    root.vt := CharVt;
    root.tag := CTOR;
    root.slot0 := Chr(IntOps.Chr(i));
    root.slot1 := Null;
  }

  /** Rewrites the root to `True` or `False` according to `equal`. */
  method RewriteBool(root: Node, equal: bool)
    modifies root
    ensures root.vt == (if equal then TrueVt else FalseVt)
    ensures root.tag == (if equal then 1 else 0)
    ensures Coherent(root.tag, root.vt)
    ensures root.aux == old(root.aux) && root.slot0 == old(root.slot0) && root.slot1 == old(root.slot1)
  {
    root.vt := if equal then TrueVt else FalseVt;
    root.tag := if equal then 1 else 0;
  }

  /** `==` on Char: True (tag 1) iff the two characters are equal, else
      False (tag 0). */
  method CharEq(root: Node)
    requires CharArg(root.slot0) && CharArg(root.slot1)
    modifies root
    ensures root.tag == EqTag(old(root.slot0.node.slot0.c) as int, old(root.slot1.node.slot0.c) as int)
    ensures root.vt.TrueVt? <==> old(root.slot0.node.slot0.c) == old(root.slot1.node.slot0.c)
    ensures root.vt.TrueVt? || root.vt.FalseVt?
    ensures root.aux == old(root.aux) && root.slot0 == old(root.slot0) && root.slot1 == old(root.slot1)
  {
    var x, y := root.slot0.node.slot0.c, root.slot1.node.slot0.c;
    RewriteBool(root, x == y);
  }

  /** `==` on Int: True (tag 1) iff the two integers are equal, else False. */
  method IntEq(root: Node)
    requires IntArg(root.slot0) && IntArg(root.slot1)
    modifies root
    ensures root.tag == EqTag(old(root.slot0.node.slot0.i), old(root.slot1.node.slot0.i))
    ensures root.vt.TrueVt? <==> old(root.slot0.node.slot0.i) == old(root.slot1.node.slot0.i)
    ensures root.vt.TrueVt? || root.vt.FalseVt?
    ensures root.aux == old(root.aux) && root.slot0 == old(root.slot0) && root.slot1 == old(root.slot1)
  {
    var x, y := root.slot0.node.slot0.i, root.slot1.node.slot0.i;
    RewriteBool(root, x == y);
  }

  /** The `Ordering` vtable that goes with a compare tag. */
  function OrderingVt(tag: int): (r: Vt) {
    if tag == 0 then LtVt else if tag == 2 then GtVt else EqVt
  }

  /** Rewrites the root to LT, EQ or GT by comparing `x` with `y`. */
  method RewriteOrdering(root: Node, x: int, y: int)
    modifies root
    ensures root.tag == CompareTag(x, y)
    ensures root.vt == OrderingVt(CompareTag(x, y))
    ensures Coherent(root.tag, root.vt)
    ensures root.aux == old(root.aux) && root.slot0 == old(root.slot0) && root.slot1 == old(root.slot1)
  {
    if x < y {
      root.vt := LtVt;
      root.tag := 0;
    } else if y < x {
      root.vt := GtVt;
      root.tag := 2;
    } else {
      root.vt := EqVt;
      root.tag := 1;
    }
  }

  /** `compare` on Char (signed characters): LT, EQ or GT. */
  method CharCompare(root: Node)
    requires CharArg(root.slot0) && CharArg(root.slot1)
    modifies root
    ensures root.tag == CompareTag(old(root.slot0.node.slot0.c) as int, old(root.slot1.node.slot0.c) as int)
    ensures root.vt == OrderingVt(root.tag)
    ensures root.aux == old(root.aux) && root.slot0 == old(root.slot0) && root.slot1 == old(root.slot1)
  {
    var x, y := root.slot0.node.slot0.c, root.slot1.node.slot0.c;
    RewriteOrdering(root, x as int, y as int);
  }

  /** `compare` on Int: LT, EQ or GT. */
  method IntCompare(root: Node)
    requires IntArg(root.slot0) && IntArg(root.slot1)
    modifies root
    ensures root.tag == CompareTag(old(root.slot0.node.slot0.i), old(root.slot1.node.slot0.i))
    ensures root.vt == OrderingVt(root.tag)
    ensures root.aux == old(root.aux) && root.slot0 == old(root.slot0) && root.slot1 == old(root.slot1)
  {
    var x, y := root.slot0.node.slot0.i, root.slot1.node.slot0.i;
    RewriteOrdering(root, x, y);
  }
}
