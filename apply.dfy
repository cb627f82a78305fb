/** `CyPrelude_apply`: applying a partial application to one more argument.

    A partial application of an n-ary function to k < n arguments is a
    left spine of nodes: the node at depth i holds the spine below it in
    slot 0 and an argument in slot 1, and the bottom node holds the
    function's vtable in its data word. Its tag is the arity n and its aux
    word the number of arguments still missing. */
module ApplySpine {
  import opened Tags
  import opened Graph

  /** One more than the largest arity the successor-array pools serve. */
  const ARITY_BOUND: nat := 50

  /** `spine[0..n]` is an application spine of depth n: each node points to
      the next through slot 0 and the last one holds a vtable. */
  ghost predicate Spine(spine: seq<Node>, n: nat)
    reads set i | 0 <= i < |spine| :: spine[i]
  {
    && |spine| == n + 1
    && (forall i :: 0 <= i < n ==> spine[i].slot0 == Ref(spine[i + 1]))
    && spine[n].slot0.Code?
  }

  /** The arguments of a depth-n spine in application order: the deepest
      node's slot 1 first, the root's slot 1 last. */
  ghost function SpineArgs(spine: seq<Node>, n: nat): (args: seq<Slot>)
    requires |spine| >= n
    reads set i | 0 <= i < |spine| :: spine[i]
    ensures |args| == n
    ensures forall j :: 0 <= j < n ==> args[j] == spine[n - 1 - j].slot1
  {
    seq(n, j requires 0 <= j < n reads set i | 0 <= i < |spine| :: spine[i] => spine[n - 1 - j].slot1)
  }

  datatype Outcome =
    | Complete        // the call is saturated and became an OPER node
    | Partial         // still missing arguments
    | NullaryApplied  // the runtime asserts: an argument applied to a nullary function

  /** `CyPrelude_apply(root)` where slot 0 of the root is the (already
      head-normalised) partial application `arg` and slot 1 the new argument.

      - When `arg` still misses more than one argument, the root becomes a
        partial application itself: same arity tag, one fewer missing.
      - When this is the last missing argument, the root becomes the
        saturated call: tag OPER, the function's vtable, and the n
        arguments in order — inline in the two slots for n <= 2, in a fresh
        successor array for n >= 3. */
  method Apply(root: Node, ghost spine: seq<Node>) returns (out: Outcome)
    requires root.slot0.Ref? && root.slot0.node.aux >= 1
    requires root.slot0.node.aux == 1 ==> 0 <= root.slot0.node.tag < ARITY_BOUND
    requires root.slot0.node.aux == 1 && root.slot0.node.tag >= 1 ==>
               Spine(spine, root.slot0.node.tag) && spine[0] == root
    modifies root
    ensures old(root.slot0.node.aux) != 1 ==>
              && out == Partial
              && root.vt == PartialSpineVt && root.tag == old(root.slot0.node.tag)
              && root.aux == old(root.slot0.node.aux) - 1 && root.aux >= 1
              && root.slot0 == old(root.slot0) && root.slot1 == old(root.slot1)
    ensures old(root.slot0.node.aux) == 1 && old(root.slot0.node.tag) == 0 ==>
              && out == NullaryApplied
              && root.vt == old(root.vt) && root.tag == old(root.tag) && root.aux == old(root.aux)
              && root.slot0 == old(root.slot0) && root.slot1 == old(root.slot1)
    ensures old(root.slot0.node.aux) == 1 && old(root.slot0.node.tag) >= 1 ==>
              && out == Complete
              && root.tag == OPER && root.aux == old(root.aux)
              && root.vt == old(spine[|spine| - 1].slot0.vt)
    ensures old(root.slot0.node.aux) == 1 && old(root.slot0.node.tag) == 1 ==>
              [root.slot0] == old(SpineArgs(spine, 1)) && root.slot1 == old(root.slot1)
    ensures old(root.slot0.node.aux) == 1 && old(root.slot0.node.tag) == 2 ==>
              [root.slot0, root.slot1] == old(SpineArgs(spine, 2))
    ensures old(root.slot0.node.aux) == 1 && old(root.slot0.node.tag) >= 3 ==>
              && root.slot0.Args? && fresh(root.slot0.arr)
              && root.slot0.arr[..] == old(SpineArgs(spine, root.slot0.node.tag))
              && root.slot1 == Null
  {
    var arg := root.slot0.node;
    var rem := arg.aux;
    if rem == 1 {
      var n := arg.tag;
      if n == 0 {
        out := NullaryApplied;
      } else if n == 1 {
        root.vt := arg.slot0.vt;
        root.tag := OPER;
        root.slot0 := root.slot1;
        out := Complete;
      } else if n == 2 {
        assert spine[1] == arg && spine[2] == arg.slot0.node;
        root.vt := arg.slot0.node.slot0.vt;
        root.tag := OPER;
        root.slot0 := arg.slot1;
        out := Complete;
      } else {
        ghost var args0 := SpineArgs(spine, n);
        var args := new Slot[n];
        var pos: int := n - 1;
        var current := root;
        for i := 0 to n
          invariant current == spine[i] && pos == n - 1 - i
          invariant forall j :: n - i <= j < n ==> args[j] == args0[j]
          invariant root.aux == old(root.aux) && root.slot1 == old(root.slot1)
          invariant Spine(spine, n) && SpineArgs(spine, n) == args0
        {
          assert spine[i].slot0 == Ref(spine[i + 1]);
          args[pos] := current.slot1;
          pos := pos - 1;
          current := current.slot0.node;
        }
        assert args[..] == args0;
        root.vt := current.slot0.vt;
        root.tag := OPER;
        root.slot0 := Args(args);
        root.slot1 := Null;
        out := Complete;
      }
    } else {
      root.vt := PartialSpineVt;
      root.tag := arg.tag;
      root.aux := rem - 1;
      out := Partial;
    }
  }
}
