/** The compiler's symbol tables and the node initialisation that compiled
    code performs when it builds an expression. */
module SymbolTables {
  import opened Tags
  import opened Graph

  /** What a node symbol describes: a function or a constructor of a
      datatype. */
  datatype Decl =
    | FunctionDecl(name: string)
    | ConstructorDecl(name: string)

  /** `NodeSTab`: the declaration, the vtable of its nodes and the tag they
      carry. */
  datatype NodeSTab = NodeSTab(source: Decl, vtable: Vt, tag: int)

  /** `ModuleSTab`: the node symbols of one module by qualified name (the
      module's IR and runtime headers are outside the model). */
  datatype ModuleSTab = ModuleSTab(nodes: map<string, NodeSTab>)

  // ---- The tag convention ----

  /** `tag == OPER` marks a function and a tag of CTOR or above a
      constructor. */
  predicate WellTagged(s: NodeSTab) {
    && (s.tag == OPER <==> s.source.FunctionDecl?)
    && (s.source.ConstructorDecl? ==> s.tag >= CTOR)
  }

  /** The symbols the compiler makes for the constructors of one datatype:
      tags count up from CTOR in declaration order. */
  function DatatypeSymbols(ctors: seq<string>): (syms: seq<NodeSTab>)
    ensures |syms| == |ctors|
    ensures forall i :: 0 <= i < |syms| ==>
              syms[i].source == ConstructorDecl(ctors[i]) && syms[i].vtable == Ctor(ctors[i])
    ensures forall i :: 0 <= i < |syms| ==> WellTagged(syms[i])
    ensures |syms| > 0 ==> syms[0].tag == CTOR
    ensures forall i :: 0 < i < |syms| ==> syms[i].tag == syms[i - 1].tag + 1
    ensures forall i, j :: 0 <= i < j < |syms| ==> syms[i].tag < syms[j].tag
  {
    seq(|ctors|, i requires 0 <= i < |ctors| => NodeSTab(ConstructorDecl(ctors[i]), Ctor(ctors[i]), CTOR + i))
  }

  /** The symbol the compiler makes for a function. */
  function FunctionSymbol(name: string): NodeSTab {
    NodeSTab(FunctionDecl(name), Oper(name), OPER)
  }

  /** Every symbol the compiler makes follows the convention; the
      constructors of one datatype have distinct, consecutive tags, so the
      case-dispatch jump table finds constructor `i` at slot `4 + i`, after
      the four special labels. */
  lemma {:induction false} SymbolsWellTagged(ctors: seq<string>, name: string)
    ensures WellTagged(FunctionSymbol(name))
    ensures forall i :: 0 <= i < |ctors| ==> WellTagged(DatatypeSymbols(ctors)[i])
    ensures forall i :: 0 <= i < |ctors| ==> JumpSlot(DatatypeSymbols(ctors)[i].tag) == 4 + i
    ensures forall i, j :: 0 <= i < j < |ctors| ==>
              DatatypeSymbols(ctors)[j].tag == DatatypeSymbols(ctors)[i].tag + (j - i)
  {
    var syms := DatatypeSymbols(ctors);
    forall i | 0 <= i < |ctors|
      ensures WellTagged(syms[i]) && JumpSlot(syms[i].tag) == 4 + i
    {
      assert syms[i].tag == CTOR + i;
    }
  }

  // ---- LibrarySTab::merge_from ----

  /** The union of two module tables in which the first one's entries win:
      what `merge_from` leaves in its receiver. */
  function Merge(into: map<string, ModuleSTab>, from: map<string, ModuleSTab>): (r: map<string, ModuleSTab>)
  {
    map k | k in into.Keys + from.Keys :: if k in into then into[k] else from[k]
  }

  /** Existing entries are never overwritten, new ones are added, and the
      key set is the union. */
  lemma MergeSpec(into: map<string, ModuleSTab>, from: map<string, ModuleSTab>)
    ensures Merge(into, from).Keys == into.Keys + from.Keys
    ensures forall k :: k in into ==> Merge(into, from)[k] == into[k]
    ensures forall k :: k in from && k !in into ==> Merge(into, from)[k] == from[k]
  {
  }

  /** Merging into an empty table gives the argument's table, so the
      receiver's two branches agree; merging the same table again changes
      nothing. */
  lemma MergeLaws(into: map<string, ModuleSTab>, from: map<string, ModuleSTab>)
    ensures Merge(map[], from) == from
    ensures Merge(Merge(into, from), from) == Merge(into, from)
    ensures Merge(into, map[]) == into
  {
  }

  /** `LibrarySTab`: the module symbol tables of a program, by module
      name. */
  class LibrarySTab {
    var modules: map<string, ModuleSTab>

    constructor (modules: map<string, ModuleSTab>)
      ensures this.modules == modules
    {
      this.modules := modules;
    }

    /** `merge_from(arg)`: an empty receiver takes over the argument's table
        (by move assignment); otherwise each of the argument's entries is
        emplaced, which adds it only when its key is new, and the argument
        is cleared. Returns the receiver. The moved-from table of the first
        branch is modelled as empty. Merging a table into itself clears it,
        since the final `clear()` then empties the receiver. */
    method MergeFrom(arg: LibrarySTab) returns (r: LibrarySTab)
      modifies this, arg
      ensures r == this
      ensures arg.modules == map[]
      ensures arg != this ==> modules == Merge(old(modules), old(arg.modules))
      ensures arg == this ==> modules == map[]
    {
      if modules == map[] {
        modules := arg.modules;
        MergeLaws(map[], arg.modules);
      } else {
        var src := arg.modules;
        var rest := src.Keys;
        while rest != {}
          invariant rest <= src.Keys
          invariant modules.Keys == old(modules).Keys + (src.Keys - rest)
          invariant forall k :: k in modules ==>
                      modules[k] == if k in old(modules) then old(modules)[k] else src[k]
          invariant arg != this ==> arg.modules == src
          decreases rest
        {
          var k :| k in rest;
          if k !in modules {
            modules := modules[k := src[k]];
          }
          rest := rest - {k};
        }
      }
      arg.modules := map[];
      r := this;
    }
  }

  // ---- node_init ----

  /** The runtime's `next_choice_id` counter. */
  class ChoiceIds {
    var next: nat

    constructor ()
      ensures next == 0
    {
      next := 0;
    }
  }

  /** `node_init`, as the code it emits behaves: the node takes the
      symbol's vtable and tag, and a choice node also takes the next choice
      id, which is then incremented. Only choices touch `aux`. */
  method NodeInit(n: Node, stab: NodeSTab, ids: ChoiceIds)
    modifies n, ids
    ensures n.vt == stab.vtable && n.tag == stab.tag
    ensures stab.tag == CHOICE ==> n.aux == old(ids.next) && ids.next == old(ids.next) + 1
    ensures stab.tag != CHOICE ==> n.aux == old(n.aux) && ids.next == old(ids.next)
    ensures n.slot0 == old(n.slot0) && n.slot1 == old(n.slot1)
  {
    n.vt := stab.vtable;
    n.tag := stab.tag;
    if stab.tag == CHOICE {
      n.aux := ids.next;
      ids.next := ids.next + 1;
    }
  }

  /** A driver that calls `NodeInit` once for each of a sequence of distinct
      choice nodes, as the compiler does once per node it emits: the ids
      handed out are `next, next + 1, ...` in order, so successive choices
      get distinct, increasing ids. */
  method InitChoices(ns: seq<Node>, stab: NodeSTab, ids: ChoiceIds)
    requires stab.tag == CHOICE
    requires forall i, j :: 0 <= i < j < |ns| ==> ns[i] != ns[j]
    modifies set i | 0 <= i < |ns| :: ns[i]
    modifies ids
    ensures ids.next == old(ids.next) + |ns|
    ensures forall i :: 0 <= i < |ns| ==> ns[i].aux == old(ids.next) + i && ns[i].tag == CHOICE
    ensures forall i, j :: 0 <= i < j < |ns| ==> ns[i].aux < ns[j].aux
  {
    for k := 0 to |ns|
      invariant ids.next == old(ids.next) + k
      invariant forall i :: 0 <= i < k ==> ns[i].aux == old(ids.next) + i && ns[i].tag == CHOICE
    {
      NodeInit(ns[k], stab, ids);
    }
  }
}
