/** The node allocator's free list, the `NODE_ALLOC` retry protocol and the
    explicit stack of garbage-collection roots.

    The pool's collector (`NodePool::collect`) is not part of this model:
    each call of it is represented by the free list it leaves behind, which
    the caller supplies. */
module Memory {
  import opened Graph

  datatype Option<T> = None | Some(value: T)

  /** The free list the allocator pops from after a run of collections:
      the current list when it is non-empty, otherwise the result of the
      first collection that leaves a non-empty list, and empty when none of
      the given collections does. */
  function Available(free: seq<Node>, sweeps: seq<seq<Node>>): seq<Node>
    decreases |sweeps|
  {
    if free != [] || sweeps == [] then free
    else Available(sweeps[0], sweeps[1..])
  }

  /** How many collections the allocator runs before it can pop. */
  function Collections(free: seq<Node>, sweeps: seq<seq<Node>>): (k: nat)
    ensures k <= |sweeps|
    ensures free != [] ==> k == 0
    decreases |sweeps|
  {
    if free != [] || sweeps == [] then 0
    else 1 + Collections(sweeps[0], sweeps[1..])
  }

  /** The allocator fails only when the free list is empty and every
      collection tried leaves it empty; otherwise it succeeds after exactly
      the collections needed, and what it pops from is the list that the
      last of them left. */
  lemma {:induction false} AvailableSpec(free: seq<Node>, sweeps: seq<seq<Node>>)
    ensures Available(free, sweeps) == [] <==>
              free == [] && forall i :: 0 <= i < |sweeps| ==> sweeps[i] == []
    ensures Available(free, sweeps) != [] && Collections(free, sweeps) > 0 ==>
              Available(free, sweeps) == sweeps[Collections(free, sweeps) - 1]
    ensures forall i :: 0 <= i < Collections(free, sweeps) - 1 ==> sweeps[i] == []
    decreases |sweeps|
  {
    if free != [] || sweeps == [] {
    } else {
      AvailableSpec(sweeps[0], sweeps[1..]);
      var k := Collections(sweeps[0], sweeps[1..]);
      assert Collections(free, sweeps) == 1 + k;
      forall i | 1 <= i < |sweeps|
        ensures sweeps[i] == sweeps[1..][i - 1]
      {
      }
    }
  }

  /** The node pool: a free list of reusable nodes and the stack of roots
      the collector traces from (`CyMem_Roots`). */
  class Pool {
    var free: seq<Node>
    var roots: seq<Node>

    constructor (free: seq<Node>)
      ensures this.free == free && roots == []
    {
      this.free := free;
      roots := [];
    }

    /** `CyMem_PushRoot`. */
    method PushRoot(p: Node)
      modifies this
      ensures roots == old(roots) + [p] && free == old(free)
    {
      roots := roots + [p];
    }

    /** `CyMem_PopRoot`: removes the most recently pushed root. Popping an
        empty stack is undefined in the runtime and excluded here. */
    method PopRoot()
      requires roots != []
      modifies this
      ensures roots == old(roots)[..|old(roots)| - 1] && free == old(free)
    {
      roots := roots[..|roots| - 1];
    }

    /** One run of the collector: it rebuilds the free list (`reclaimed`)
        and leaves the roots alone. */
    method Collect(reclaimed: seq<Node>)
      modifies this
      ensures free == reclaimed && roots == old(roots)
    {
      free := reclaimed;
    }

    /** `NODE_ALLOC`: pops the head of the free list; when the list is
        empty, runs the collector and tries again. `sweeps` are the free
        lists the successive collections leave; the runtime retries without
        bound, and `None` says that every collection supplied here left the
        list empty. */
    method Alloc(sweeps: seq<seq<Node>>) returns (r: Option<Node>, collected: nat)
      modifies this
      ensures collected == Collections(old(free), sweeps)
      ensures Available(old(free), sweeps) == [] ==> r == None && free == []
      ensures Available(old(free), sweeps) != [] ==>
                && r == Some(Available(old(free), sweeps)[0])
                && free == Available(old(free), sweeps)[1..]
      ensures roots == old(roots)
    {
      collected := 0;
      while free == [] && collected < |sweeps|
        invariant collected <= |sweeps|
        invariant Available(free, sweeps[collected..]) == Available(old(free), sweeps)
        invariant Collections(old(free), sweeps) ==
                    collected + Collections(free, sweeps[collected..])
        invariant roots == old(roots)
        decreases |sweeps| - collected
      {
        assert sweeps[collected..][1..] == sweeps[collected + 1..];
        Collect(sweeps[collected]);
        collected := collected + 1;
      }
      if free == [] {
        r := None;
      } else {
        r := Some(free[0]);
        free := free[1..];
      }
    }
  }

  /** With a non-empty free list the allocator takes its head without
      collecting; with an empty one it never hands out a node that the
      collections did not supply. */
  lemma {:induction false} AllocFromFreeList(free: seq<Node>, sweeps: seq<seq<Node>>)
    ensures free != [] ==> Available(free, sweeps) == free && Collections(free, sweeps) == 0
    ensures free == [] && Available(free, sweeps) != [] ==>
              exists i :: 0 <= i < |sweeps| && Available(free, sweeps) == sweeps[i]
  {
    if free == [] && Available(free, sweeps) != [] {
      AvailableSpec(free, sweeps);
      var k := Collections(free, sweeps);
      assert Available(free, sweeps) == sweeps[k - 1];
    }
  }
}
