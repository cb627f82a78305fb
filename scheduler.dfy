/** `Cy_Eval`: the Fair Scheme work queue.

    The queue holds the expressions still to be evaluated. The node at the
    front is normalised and then dispatched on its tag: a failure is
    dropped, a forwarding node is replaced in place by its target, a choice
    is split into its two alternatives at the back of the queue, a function
    (OPER) is reported and dropped, and a value is yielded and dropped.

    The normalisation step (`vptr->N`) is compiled code outside the model.
    The graph the scheduler reads is the graph those steps produce, so the
    model records each call of `N` as a `Normalize` event and leaves the
    nodes as they are. `yield` and the diagnostic printed for a function are
    events of the same trace. */
module Scheduler {
  import opened Tags
  import opened Graph
  import Memory

  datatype Event =
    | Normalize(node: Node)   // `expr->vptr->N(expr)`
    | Yield(node: Node)       // `yield(expr)`
    | Diagnose(node: Node)    // "Normalized expression yields a function!"

  datatype State = State(queue: seq<Node>, trace: seq<Event>)

  /** `g` is a closed graph for the scheduler: the successors of every
      forwarding and choice node in it are nodes of `g`. */
  ghost predicate ClosedGraph(g: set<Node>)
    reads g
  {
    forall n :: n in g ==>
      && (n.tag == FWD ==> n.slot0.Ref? && n.slot0.node in g)
      && (n.tag == CHOICE ==> n.slot0.Ref? && n.slot0.node in g && n.slot1.Ref? && n.slot1.node in g)
  }

  ghost predicate InGraph(g: set<Node>, q: seq<Node>) {
    forall i :: 0 <= i < |q| ==> q[i] in g
  }

  /** The queue after an entry has been removed or split: the new front (if
      any) is normalised at the top of the next round. */
  function Advance(q: seq<Node>, trace: seq<Event>): State {
    State(q, if q == [] then trace else trace + [Normalize(q[0])])
  }

  /** The state in which `Cy_Eval(root, yield)` enters its loop. */
  function Start(root: Node): State {
    State([root], [Normalize(root)])
  }

  /** One dispatch on the tag of the front node. An empty queue is final. */
  ghost function Step(g: set<Node>, s: State): (t: State)
    requires ClosedGraph(g) && InGraph(g, s.queue)
    reads g
    ensures InGraph(g, t.queue)
  {
    if s.queue == [] then s
    else
      var e := s.queue[0];
      var rest := s.queue[1..];
      if e.tag == FAIL then Advance(rest, s.trace)
      else if e.tag == FWD then State([e.slot0.node] + rest, s.trace)
      else if e.tag == CHOICE then Advance(rest + [e.slot0.node, e.slot1.node], s.trace)
      else if e.tag == OPER then Advance(rest, s.trace + [Diagnose(e)])
      else Advance(rest, s.trace + [Yield(e)])
  }

  /** `k` dispatches from `s`. */
  ghost function Run(g: set<Node>, s: State, k: nat): (t: State)
    requires ClosedGraph(g) && InGraph(g, s.queue)
    reads g
    ensures InGraph(g, t.queue)
  {
    if k == 0 then s else Step(g, Run(g, s, k - 1))
  }

  /** `Cy_Eval`. The root is pushed on the collector's root stack for the
      duration of the evaluation. The runtime loops until the queue is
      empty, which on a cyclic forwarding chain or an infinite stream of
      choices is never; `fuel` bounds the number of dispatches, and the
      result reports how many were made. */
  method Eval(mem: Memory.Pool, root: Node, ghost g: set<Node>, fuel: nat)
      returns (queue: seq<Node>, trace: seq<Event>, steps: nat)
    requires ClosedGraph(g) && root in g
    modifies mem
    ensures State(queue, trace) == Run(g, Start(root), steps)
    ensures steps <= fuel && (queue == [] || steps == fuel)
    ensures mem.roots == old(mem.roots) && mem.free == old(mem.free)
  {
    mem.PushRoot(root);
    queue := [root];
    trace := [Normalize(root)];
    steps := 0;
    while queue != [] && steps < fuel
      invariant steps <= fuel && InGraph(g, queue)
      invariant State(queue, trace) == Run(g, Start(root), steps)
      invariant mem.roots == old(mem.roots) + [root] && mem.free == old(mem.free)
      decreases fuel - steps
    {
      var expr := queue[0];
      if expr.tag == FAIL {
        queue := queue[1..];
      } else if expr.tag == FWD {
        // computation.front() = expr = SUCC_0(expr); goto redo;
        queue := [expr.slot0.node] + queue[1..];
      } else if expr.tag == CHOICE {
        // push_back(SUCC_0), splice the front to the end, back() = SUCC_1
        queue := queue + [expr.slot0.node];
        queue := queue[1..] + [queue[0]];
        queue := queue[..|queue| - 1] + [expr.slot1.node];
      } else if expr.tag == OPER {
        trace := trace + [Diagnose(expr)];
        queue := queue[1..];
      } else {
        trace := trace + [Yield(expr)];
        queue := queue[1..];
      }
      if expr.tag != FWD && queue != [] {
        trace := trace + [Normalize(queue[0])];
      }
      steps := steps + 1;
    }
    mem.PopRoot();
    assert mem.roots == old(mem.roots);
  }

  // ---- One dispatch ----

  /** CHOICE fork: `[c] + rest` becomes `rest + [c.slot0, c.slot1]`, the left
      alternative ahead of the right one. */
  lemma ChoiceFork(g: set<Node>, s: State)
    requires ClosedGraph(g) && InGraph(g, s.queue)
    requires s.queue != [] && s.queue[0].tag == CHOICE
    ensures Step(g, s).queue ==
              s.queue[1..] + [s.queue[0].slot0.node, s.queue[0].slot1.node]
    ensures Step(g, s).trace == s.trace + [Normalize(Step(g, s).queue[0])]
  {
  }

  /** FWD follow: the front entry is replaced in place by the node its slot 0
      points to and dispatched again, without another normalisation. */
  lemma FwdFollow(g: set<Node>, s: State)
    requires ClosedGraph(g) && InGraph(g, s.queue)
    requires s.queue != [] && s.queue[0].tag == FWD
    ensures Step(g, s).queue == [s.queue[0].slot0.node] + s.queue[1..]
    ensures |Step(g, s).queue| == |s.queue| && Step(g, s).trace == s.trace
  {
  }

  /** Terminal outcomes: FAIL, OPER and every other non-special tag remove
      exactly the front entry; only a constructor is yielded (once), OPER
      is reported, FAIL produces no event. */
  lemma Terminal(g: set<Node>, s: State)
    requires ClosedGraph(g) && InGraph(g, s.queue)
    requires s.queue != [] && s.queue[0].tag != FWD && s.queue[0].tag != CHOICE
    ensures Step(g, s).queue == s.queue[1..]
    ensures var out := if s.queue[0].tag == FAIL then []
                       else if s.queue[0].tag == OPER then [Diagnose(s.queue[0])]
                       else [Yield(s.queue[0])];
            Step(g, s).trace == Advance(s.queue[1..], s.trace + out).trace
  {
  }

  /** Every entry behind the front keeps its relative order: a dispatch
      moves it one place forward, or leaves it where it is when the front
      was a forwarding node. No entry is dropped except the front. */
  lemma OrderPreserved(g: set<Node>, s: State)
    requires ClosedGraph(g) && InGraph(g, s.queue) && s.queue != []
    ensures s.queue[0].tag == FWD ==> Step(g, s).queue[1..] == s.queue[1..]
    ensures s.queue[0].tag != FWD ==> Step(g, s).queue[..|s.queue| - 1] == s.queue[1..]
  {
  }

  // ---- Whole runs ----

  /** The loop ends only when the queue is empty, and from then on nothing
      changes. */
  lemma {:induction false} RunStable(g: set<Node>, s: State, k: nat, m: nat)
    requires ClosedGraph(g) && InGraph(g, s.queue)
    requires Run(g, s, k).queue == []
    ensures Run(g, s, k + m) == Run(g, s, k)
    decreases m
  {
    if m > 0 {
      RunStable(g, s, k, m - 1);
      assert Run(g, s, k + m) == Step(g, Run(g, s, k + m - 1));
    }
  }

  /** Events are never withdrawn: a longer run extends the trace of a
      shorter one. In particular a yielded value stays yielded. */
  lemma {:induction false} TraceGrows(g: set<Node>, s: State, k: nat, m: nat)
    requires ClosedGraph(g) && InGraph(g, s.queue)
    ensures Run(g, s, k).trace <= Run(g, s, k + m).trace
    decreases m
  {
    if m > 0 {
      TraceGrows(g, s, k, m - 1);
      var t := Run(g, s, k + m - 1);
      assert Run(g, s, k + m) == Step(g, t);
      assert t.trace <= Step(g, t).trace;
    }
  }

  /** Every value the evaluation yields is a node whose tag is none of the
      four reserved ones, and every reported node is a function. */
  ghost predicate SoundEvents(g: set<Node>, trace: seq<Event>)
    reads g
  {
    forall i :: 0 <= i < |trace| ==>
      trace[i].node in g &&
      (trace[i].Yield? ==> !IsSpecial(trace[i].node.tag)) &&
      (trace[i].Diagnose? ==> trace[i].node.tag == OPER)
  }

  lemma {:induction false} RunSound(g: set<Node>, root: Node, k: nat)
    requires ClosedGraph(g) && root in g
    ensures SoundEvents(g, Run(g, Start(root), k).trace)
  {
    if k > 0 {
      RunSound(g, root, k - 1);
      var t := Run(g, Start(root), k - 1);
      assert Run(g, Start(root), k) == Step(g, t);
    }
  }

  /** While the entries ahead of position `p` are not forwarding nodes, the
      part of the original queue from the current front onwards stays at
      the head of the queue: each dispatch removes the front and appends at
      the back only. */
  lemma {:induction false} QueueSuffixAhead(g: set<Node>, s: State, p: nat, k: nat)
    requires ClosedGraph(g) && InGraph(g, s.queue)
    requires p < |s.queue| && k <= p
    requires forall i :: 0 <= i < p ==> s.queue[i].tag != FWD
    ensures s.queue[k..] <= Run(g, s, k).queue
    decreases k
  {
    if k > 0 {
      QueueSuffixAhead(g, s, p, k - 1);
      var t := Run(g, s, k - 1);
      assert s.queue[k - 1..] == [s.queue[k - 1]] + s.queue[k..];
      assert t.queue[0] == s.queue[k - 1];
      OrderPreserved(g, t);
      assert s.queue[k..] <= t.queue[1..];
      assert Run(g, s, k) == Step(g, t);
    }
  }

  /** Fairness of the queue: an entry at position `p` reaches the front
      after exactly `p` dispatches when no entry ahead of it is a forwarding
      node, however many choices those dispatches split. */
  lemma Fairness(g: set<Node>, s: State, p: nat)
    requires ClosedGraph(g) && InGraph(g, s.queue)
    requires p < |s.queue|
    requires forall i :: 0 <= i < p ==> s.queue[i].tag != FWD
    ensures Run(g, s, p).queue != [] && Run(g, s, p).queue[0] == s.queue[p]
  {
    QueueSuffixAhead(g, s, p, p);
  }

  /** Queue length: a choice adds one entry, a forwarding node none, and
      every other dispatch removes one. */
  lemma QueueLength(g: set<Node>, s: State)
    requires ClosedGraph(g) && InGraph(g, s.queue) && s.queue != []
    ensures |Step(g, s).queue| ==
              if s.queue[0].tag == CHOICE then |s.queue| + 1
              else if s.queue[0].tag == FWD then |s.queue|
              else |s.queue| - 1
  {
  }
}
