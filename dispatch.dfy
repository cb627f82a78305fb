/** How `==`, `compare` and `show` find the step function for their first
    argument, and what they do when that argument is a forwarding node, an
    unevaluated function application or a choice. */
module Dispatch {
  import opened Tags
  import opened Graph

  /** `CyPrelude_==`, `CyPrelude_compare`, `CyPrelude_show`: the root takes
      the `m` entry of its first argument's vtable as its own vtable, so that
      the next step runs the type-specific implementation. Nothing else
      changes. */
  method Redispatch(root: Node, m: Method)
    requires root.slot0.Ref?
    modifies root
    ensures root.vt == MethodOf(old(root.slot0.node.vt), m)
    ensures root.tag == old(root.tag) && root.aux == old(root.aux)
    ensures root.slot0 == old(root.slot0) && root.slot1 == old(root.slot1)
  {
    root.vt := MethodOf(root.slot0.node.vt, m);
  }

  /** `==.fwd`, `compare.fwd`, `show.fwd`: the first argument is a
      forwarding node. The root's slot 0 is redirected to the node it
      forwards to (one hop), and the root re-dispatches on that node. */
  method FwdRedispatch(root: Node, m: Method)
    requires root.slot0.Ref? && root.slot0.node.slot0.Ref?
    modifies root
    ensures root.slot0 == old(root.slot0.node.slot0)
    ensures root.vt == MethodOf(old(root.slot0.node.slot0.node.vt), m)
    ensures root.tag == old(root.tag) && root.aux == old(root.aux) && root.slot1 == old(root.slot1)
  {
    var target := root.slot0.node.slot0;
    root.slot0 := target;
    root.vt := MethodOf(target.node.vt, m);
  }

  /** `==.oper`, `compare.oper`, `show.oper`: the first argument is an
      unevaluated application. The runtime head-normalises it with its `H`
      step and then re-dispatches on its new vtable; `H` is outside the
      model, so the argument is taken as already in head form. */
  method OperRedispatch(root: Node, m: Method)
    requires root.slot0.Ref?
    modifies root
    ensures root.vt == MethodOf(old(root.slot0.node.vt), m)
    ensures root.tag == old(root.tag) && root.aux == old(root.aux)
    ensures root.slot0 == old(root.slot0) && root.slot1 == old(root.slot1)
  {
    Redispatch(root, m);
  }

  /** `==.choice`, `compare.choice`, `show.choice` (pull-tab): the first
      argument is a choice `l ?_id r`. The root `op(l ? r, y)` becomes the
      choice `op(l, y) ?_id op(r, y)`: two fresh OPER nodes whose slot 0 are
      the alternatives and whose slot 1 is the same, shared second argument
      `y` (aliased, not copied), and the new choice keeps the pulled choice's
      id. Both new nodes take the `m` entry of the LEFT alternative's
      vtable, as the runtime does. The fresh nodes' aux word is not
      initialised by the runtime and is left unspecified. */
  method PullTab(root: Node, m: Method) returns (lhs: Node, rhs: Node)
    requires root.slot0.Ref? && root.slot0.node.slot0.Ref?
    modifies root
    ensures fresh(lhs) && fresh(rhs) && lhs != rhs
    ensures root.vt == ChoiceVt && root.tag == CHOICE
    ensures Coherent(root.tag, root.vt)
    ensures root.aux == old(root.slot0.node.aux)
    ensures root.slot0 == Ref(lhs) && root.slot1 == Ref(rhs)
    ensures lhs.tag == OPER && rhs.tag == OPER
    ensures lhs.vt == MethodOf(old(root.slot0.node.slot0.node.vt), m) && rhs.vt == lhs.vt
    ensures lhs.slot0 == old(root.slot0.node.slot0) && rhs.slot0 == old(root.slot0.node.slot1)
    ensures lhs.slot1 == old(root.slot1) && rhs.slot1 == old(root.slot1)
  {
    var arg0 := root.slot0.node;
    var vt := MethodOf(arg0.slot0.node.vt, m);
    lhs := new Node(OPER, vt, 0, arg0.slot0, root.slot1);
    rhs := new Node(OPER, vt, 0, arg0.slot1, root.slot1);
    root.vt := ChoiceVt;
    root.tag := CHOICE;
    root.aux := arg0.aux;
    root.slot0 := Ref(lhs);
    root.slot1 := Ref(rhs);
  }
}
