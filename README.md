# Sprite-3 runtime core, modelled in Dafny

Sprite-3 compiles Curry programs to LLVM. At run time each expression is a
graph of nodes. A node has:

- a tag: FAIL = -4, FWD = -3, CHOICE = -2, OPER = -1, or a constructor
  index counting up from CTOR = 0;
- a vtable, with the step functions `N` (normalise) and `H`
  (head-normalise), plus `equals`, `compare`, `show` and `label`;
- an auxiliary word (`aux`), which holds a choice id or the number of
  missing arguments;
- two words (`slot0`, `slot1`), which hold successor pointers or unboxed
  data.

Primitives rewrite a node in place. `Cy_Eval` runs the Fair Scheme work
queue: it normalises the front expression and, depending on its tag:

- drops it (FAIL);
- replaces it by its target (FWD);
- splits it into its two alternatives at the back of the queue (CHOICE);
- reports it and drops it (OPER);
- otherwise yields it as a value.

Each module covers one part of the runtime:

- `Machine`: machine value domains (`int64_t`, signed 8-bit `char`,
  `size_t`, C++ truncating `/` and `%`, narrowing casts, `strlen`).
- `Tags`: tags and vtable identities.
- `Graph`: nodes as mutable objects, `Cy_SkipFwd`, and the primitives that
  rewrite the root.
- `IntOps`: the values of the integer and character primitives.
- `Prelude`: the Int/Char primitives as node rewrites.
- `Dispatch`: `==`/`compare`/`show` dispatch, including `.fwd`, `.oper`
  and the `.choice` pull-tab.
- `ApplySpine`: `CyPrelude_apply`.
- `Memory`: the node free list, `NODE_ALLOC` and the root stack.
- `Scheduler`: `Cy_Eval`.
- `Strings`: C-string ↔ Curry-string conversion, `prim_label` and
  `prim_char_repr`.
- `Repr`: `Cy_Repr` as a pure string function.
- `CopyOnWrite`: `Shared<T>`.
- `Constraints`: `ConstraintStore`, `Cy_EvalFrame` and
  `Cy_ComputationFrame`.
- `SymbolTables`: the compiler's `NodeSTab`/`LibrarySTab`, `merge_from` and
  `node_init`.

Calls to the vtable step functions `N` and `H` are compiled code, and they
are outside the model. `normalize1.def`, `normalize2.def` and
`normalize_apply.def` are not part of this model. Each primitive therefore
receives arguments that are already normalised. `Cy_Eval` works on the
graph those steps produce and records each call of `N` as an event.
Labels come from vtables outside the model, so they are parameters.

## Model

| member | source | states |
|---|---|---|
| Machine.CDivision | runtime/sprite-rt/C/main.cpp:421-442 | C++ `x / y` and `x % y` recombine to `x`. The remainder is 0 or has the dividend's sign, and it is smaller than the divisor in magnitude. |
| Machine.ToCChar | runtime/sprite-rt/C/main.cpp:467-475 | `static_cast<char>` keeps the value modulo 256. |
| Machine.ToCCharOfChar | runtime/sprite-rt/C/main.cpp:456-475 | Narrowing a widened `char` gives it back. |
| Machine.ToCCharRoundTrip | runtime/sprite-rt/C/main.cpp:467-475 | Narrowing and widening an integer is the identity exactly on the `char` range. |
| Machine.Strlen | runtime/sprite-rt/C/main.cpp:567 | `strlen`: the index of the first NUL, with no NUL before it. |
| IntOps.FloorDivision | runtime/sprite-rt/C/main.cpp:391-419 | `div` and `mod` recombine to `x`. `mod` is 0 or has the divisor's sign, and it is smaller than the divisor. |
| IntOps.TruncDivision | runtime/sprite-rt/C/main.cpp:420-442 | `quot` and `rem` recombine to `x`. `rem` is 0 or has the dividend's sign. |
| IntOps.FloorDivIsFloor | runtime/sprite-rt/C/main.cpp:391-419 | `div` equals an independent floor-division definition, and `mod` is the remainder that goes with it. For a positive divisor they are Euclidean `/` and `%`. |
| IntOps.ComputeInRange | runtime/sprite-rt/C/main.cpp:354-442 | Whenever an Int primitive is defined (no overflow, no division by zero), its result fits in `int64_t`. |
| IntOps.QuotientsInRange | runtime/sprite-rt/C/main.cpp:391-430 | Except for `INT64_MIN / -1`, the truncating and the floor quotients fit in `int64_t`. |
| IntOps.CompareTrichotomy | runtime/sprite-rt/C/main.cpp:781-828 | `compare` yields exactly one of LT (0), EQ (1) or GT (2), decided by `<`, `==` and `>`. |
| IntOps.CompareAntisymmetric | runtime/sprite-rt/C/main.cpp:781-828 | Swapping the operands of `compare` swaps LT and GT. |
| IntOps.EqAgreesWithCompare | runtime/sprite-rt/C/main.cpp:743-765 | `==` yields True (1) exactly when `compare` yields EQ. It is symmetric and boolean. |
| IntOps.OrdChrRoundTrip | runtime/sprite-rt/C/main.cpp:455-475 | `chr (ord c) == c`. `ord (chr i) == i` iff `i` is in the `char` range; otherwise `chr` keeps `i` modulo 256. |
| Tags.JumpSlot | lib/compiler.cpp:160-206 | The jump table index `tag + 4` puts exactly the four special tags in slots 0..3 and the constructors from slot 4 on. |
| Graph.CoherentTagMatchesVt | runtime/sprite-rt/C/main.cpp:96-161 | On a node whose tag agrees with its vtable, testing the vtable (as `Cy_SkipFwd` and the decoder do) and testing the tag (as `Cy_Eval` does) agree. Constructor vtables carry non-special tags. |
| Graph.FwdChainUnique | runtime/sprite-rt/C/main.cpp:96-101 | Two forwarding chains from the same node coincide, so the node `Cy_SkipFwd` reaches is determined by the graph. |
| Graph.SkipFwd | runtime/sprite-rt/C/main.cpp:96-101 | Returns the end of the forwarding chain from `root`, which is not a forwarding node. A non-forwarding root is returned unchanged. |
| Graph.Failed | runtime/sprite-rt/C/main.cpp:103-108 | The root becomes a failure, with tag FAIL. The other words are unchanged. |
| Graph.Success | runtime/sprite-rt/C/main.cpp:110-115 | The root becomes `Success`, with tag CTOR. |
| Graph.Bind | runtime/sprite-rt/C/main.cpp:118-126 | `>>=` becomes an `apply` node with its successors swapped and tag OPER. |
| Graph.Return | runtime/sprite-rt/C/main.cpp:128-132 | `return x` becomes a forwarding node to `x`, with its words unchanged. |
| Graph.SetTrue | runtime/sprite-rt/C/main.cpp:143-148 | The root becomes `True`, with tag CTOR+1. |
| Graph.SetFalse | runtime/sprite-rt/C/main.cpp:150-155 | The root becomes `False`, with tag CTOR. |
| Graph.SetEq | runtime/sprite-rt/C/main.cpp:157-162 | The root becomes `EQ`, with tag CTOR+1. |
| Graph.SuccessEquals | runtime/sprite-rt/C/main.cpp:689-694 | `==` on `Success` is `True`. |
| Graph.SuccessCompare | runtime/sprite-rt/C/main.cpp:696-701 | `compare` on `Success` is `EQ`. |
| Graph.Forward | runtime/sprite-rt/C/main.cpp:128-132 | The root becomes a FWD node whose target is its slot 0. |
| Graph.DollarBang | runtime/sprite-rt/C/main.cpp:316-335 | `$!` and `$!!` become a FWD node to their slot 0, with the other words unchanged. Reading `normalize1.def` (not part of this model) as normalising the first successor in place, slot 0 holds `SUCC_0`, the first operand of the application. |
| Graph.IsChar | runtime/sprite-rt/C/main.cpp:292-305 | `True` (tag CTOR+1) iff the argument's vtable is `Char`, otherwise `False` (tag CTOR). |
| Prelude.IntBinary | runtime/sprite-rt/C/main.cpp:354-442 | The root becomes an Int64 node holding the value of `+ - * div mod quot rem` on the two arguments, which fits in 64 bits. Slot 1 is untouched. |
| Prelude.OrdNode | runtime/sprite-rt/C/main.cpp:455-464 | The root becomes the Int holding the sign-extended character code, and slot 1 is cleared. |
| Prelude.ChrNode | runtime/sprite-rt/C/main.cpp:466-475 | The root becomes the Char holding the narrowed integer, and slot 1 is cleared. |
| Prelude.RewriteBool | runtime/sprite-rt/C/main.cpp:743-765 | The root becomes True (tag 1) or False (tag 0) according to the outcome. |
| Prelude.CharEq | runtime/sprite-rt/C/main.cpp:743-753 | True iff the two characters are equal, with the `==` tag. |
| Prelude.IntEq | runtime/sprite-rt/C/main.cpp:755-765 | True iff the two integers are equal, with the `==` tag. |
| Prelude.RewriteOrdering | runtime/sprite-rt/C/main.cpp:781-828 | The root becomes LT/EQ/GT with the tag that `compare` assigns. |
| Prelude.CharCompare | runtime/sprite-rt/C/main.cpp:781-804 | LT/EQ/GT by the signed order of the characters. |
| Prelude.IntCompare | runtime/sprite-rt/C/main.cpp:806-828 | LT/EQ/GT by the order of the integers. |
| Dispatch.Redispatch | runtime/sprite-rt/C/main.cpp:530-538 | `==`/`compare`/`show` take the matching entry of the first argument's vtable. Nothing else changes. |
| Dispatch.FwdRedispatch | runtime/sprite-rt/C/main.cpp:572-597 | A forwarding first argument is skipped by one hop in slot 0, and dispatch uses its target's vtable. |
| Dispatch.OperRedispatch | runtime/sprite-rt/C/main.cpp:662-687 | An operation first argument is dispatched on its vtable after head normalisation. |
| Dispatch.PullTab | runtime/sprite-rt/C/main.cpp:599-660 | `op(l ?_id r, y)` becomes the choice `op(l, y) ?_id op(r, y)`: two fresh distinct OPER nodes share `y`, and the choice keeps the id. |
| ApplySpine.Apply | runtime/sprite-rt/C/main.cpp:477-528 | A partial application missing more than one argument stays partial, with one fewer missing. Otherwise the call is saturated with tag OPER and the function's vtable. Its arguments are in application order: inline for arity 1 or 2, in a fresh array for arity 3 and up. |
| Memory.AvailableSpec | runtime/sprite-rt/C/main.cpp:18-27 | Allocation finds nothing iff the free list and every collection's result are empty. Otherwise it pops from the list left by the last needed collection. |
| Memory.AllocFromFreeList | runtime/sprite-rt/C/main.cpp:18-27 | A non-empty free list is used without collecting. With an empty one, any node handed out comes from a collection. |
| Memory.Pool.Alloc | runtime/sprite-rt/C/main.cpp:18-27 | `NODE_ALLOC` pops the free list's head, collecting and retrying while the list is empty. It leaves the roots alone. |
| Memory.Pool.PushRoot | runtime/sprite-rt/C/main.cpp:86 | Pushes onto the root stack. |
| Memory.Pool.PopRoot | runtime/sprite-rt/C/main.cpp:87 | Pops the most recently pushed root. |
| Memory.Pool.Collect | runtime/sprite-rt/C/main.cpp:88 | A collection rebuilds the free list and leaves the roots alone. |
| Scheduler.Eval | runtime/sprite-rt/C/main.cpp:242-277 | The queue and trace after `steps` dispatches are those of the step relation from `[root]`. The loop stops only on an empty queue or when the fuel is spent. The root stack and free list are restored; this holds because `N` is outside the model and allocates nothing here (see Left out). |
| Scheduler.ChoiceFork | runtime/sprite-rt/C/main.cpp:258-264 | A choice at the front is replaced at the back by its left, then its right alternative, and the new front is normalised. |
| Scheduler.FwdFollow | runtime/sprite-rt/C/main.cpp:255-257 | A forwarding front is replaced in place by its target without a new normalisation. |
| Scheduler.Terminal | runtime/sprite-rt/C/main.cpp:252-275 | FAIL, OPER and values drop exactly the front. OPER is reported, a value is yielded once, and FAIL produces no event. |
| Scheduler.OrderPreserved | runtime/sprite-rt/C/main.cpp:243-277 | Entries behind the front keep their relative order and none is dropped. |
| Scheduler.QueueSuffixAhead | runtime/sprite-rt/C/main.cpp:243-277 | While no entry ahead of position `p` is a forwarding node, the original queue from the current front onwards stays at the head of the queue. |
| Scheduler.Fairness | runtime/sprite-rt/C/main.cpp:243-277 | An entry at position `p` reaches the front after exactly `p` dispatches when no entry ahead of it is a forwarding node, however many choices are split meanwhile. |
| Scheduler.QueueLength | runtime/sprite-rt/C/main.cpp:243-277 | A choice adds one entry, a forwarding node none, and every other dispatch removes one. |
| Scheduler.RunStable | runtime/sprite-rt/C/main.cpp:247 | Once the queue is empty nothing changes, so the loop ends there. |
| Scheduler.TraceGrows | runtime/sprite-rt/C/main.cpp:243-277 | Events are never withdrawn: a longer run extends the trace. |
| Scheduler.RunSound | runtime/sprite-rt/C/main.cpp:243-277 | Every yielded node has a non-special tag, every reported node is OPER, and every event's node is in the graph. |
| Strings.CStringToCyString | runtime/sprite-rt/C/main.cpp:186-215 | Rewrites `root` into the Curry string of the first `min(strlen(str), max)` characters. The cells after `root` and the Char nodes are fresh, the cells are pairwise distinct, the Char nodes are pairwise distinct and distinct from every cell, and the final Nil is returned. |
| Strings.EncodeLoop | runtime/sprite-rt/C/main.cpp:195-210 | The encoder's `while` loop. It stops at the NUL or after `max` characters. It leaves one Cons cell per character, each pointing at its own Char node, and a last cell still to be terminated. All cells and Char nodes are pairwise distinct and fresh except `root`. |
| Strings.EncodeRound | runtime/sprite-rt/C/main.cpp:197-209 | One loop iteration. It adds the next character, a fresh Char node and a fresh next cell to the encoder's state. |
| Strings.EncodeNil | runtime/sprite-rt/C/main.cpp:211-213 | Terminating the last cell with Nil turns the state into a Curry string spelling exactly the characters consumed. |
| Strings.PushChar | runtime/sprite-rt/C/main.cpp:195-208 | One encoder round: a fresh Char node holding `c`, and the cell becomes a Cons cell pointing at it and at a fresh next cell. |
| Strings.CyStringToCString | runtime/sprite-rt/C/main.cpp:217-229 | Outputs the characters of the Curry string in order, skipping forwarding nodes. |
| Strings.DecodeRound | runtime/sprite-rt/C/main.cpp:219-227 | One decoder iteration. A forwarding node is followed through slot 0 and emits nothing. A cell emits its character and is followed through slot 1. Either way, the output so far plus the rest of the path decodes to the same text. |
| Strings.EncodedDecodes | runtime/sprite-rt/C/main.cpp:186-229 | Every encoder layout is a path the decoder accepts, and it decodes to the encoded text. |
| Strings.DecodedSuffix | runtime/sprite-rt/C/main.cpp:217-229 | Decoding from cell `k` of an encoded layout gives the text from position `k` on. |
| Strings.RoundTrip | runtime/sprite-rt/C/main.cpp:186-229 | Decoding the encoding of a C string gives back its first `min(strlen, max)` characters. |
| Strings.PrimLabel | runtime/sprite-rt/C/main.cpp:540-545 | The root becomes the Curry string of the argument's label. |
| Strings.CharReprOfQuotedLabel | runtime/sprite-rt/C/main.cpp:547-570 | For a label `'body'`, `prim_char_repr` gives `body`, except `'` for a single quote and `\"` for a double quote. |
| Strings.StrlenPrefix | runtime/sprite-rt/C/main.cpp:565-568 | The length of a C string is the length of the text before its first NUL. |
| Strings.PrimCharRepr | runtime/sprite-rt/C/main.cpp:547-570 | The root becomes the Curry string of the character's representation inside a double-quoted string, including the `size_t` wrap of `len-1`. |
| Repr.ReprInner | runtime/sprite-rt/C/main.cpp:166-182 | An inner term is parenthesised exactly when it has successors. A leaf is its label. |
| Repr.ReprParens | runtime/sprite-rt/C/main.cpp:166-182 | With parenthesis-free labels, each parenthesis occurs once per wrapped subterm. |
| Repr.ReprSuccsParens | runtime/sprite-rt/C/main.cpp:175-179 | The same count for the list of successors. |
| Repr.ReprBalanced | runtime/sprite-rt/C/main.cpp:166-182 | Opening and closing parentheses balance. |
| CopyOnWrite.Shared.constructor | runtime/sprite-rt/C/computation_frame.hpp:21-25 | A new holder of a fresh, unshared payload. |
| CopyOnWrite.Shared.Copy | runtime/sprite-rt/C/computation_frame.hpp:27-29 | A copy shares the payload, which counts one more holder. |
| CopyOnWrite.Shared.Write | runtime/sprite-rt/C/computation_frame.hpp:41-47 | A shared payload is copied and released by this holder. After writing, this holder's payload is unique and its value unchanged, and the old payload keeps its value. |
| CopyOnWrite.Shared.GcWrite | runtime/sprite-rt/C/computation_frame.hpp:50-51 | The collector gets the payload itself, without a copy. |
| CopyOnWrite.WriteAliased | runtime/sprite-rt/C/computation_frame.hpp:39-47 | Writing through one of two holders of a payload leaves the other reading the old value. Both end up unique. |
| CopyOnWrite.WriteUnique | runtime/sprite-rt/C/computation_frame.hpp:41-46 | A unique holder writes in place. |
| Constraints.AddVarBuckets | runtime/sprite-rt/C/computation_frame.hpp:97-112 | A normal binding is appended under both variables, a lazy one only under the first. A shared bucket receives both, forward first. |
| Constraints.AddVarOthersUnchanged | runtime/sprite-rt/C/computation_frame.hpp:97-112 | No other bucket changes or appears. |
| Constraints.AddVarKeepsSymmetric | runtime/sprite-rt/C/computation_frame.hpp:107-112 | Every normal binding's reverse is recorded: `add_var_constraints` preserves this. |
| Constraints.GrowsBucket | runtime/sprite-rt/C/computation_frame.hpp:97-103 | No bucket loses a binding. |
| Constraints.BucketOrigin | runtime/sprite-rt/C/computation_frame.hpp:97-103 | Any binding other than the new ones was already present. |
| Constraints.AddChoiceRelates | runtime/sprite-rt/C/computation_frame.hpp:126-142 | Afterwards each id is recorded for the other, and exactly that was added. |
| Constraints.AddChoiceIdempotent | runtime/sprite-rt/C/computation_frame.hpp:126-142 | Adding the same choice constraint twice changes nothing. |
| Constraints.AddChoiceCommutes | runtime/sprite-rt/C/computation_frame.hpp:126-130 | The order of the two ids does not matter. |
| Constraints.OneChoiceOthers | runtime/sprite-rt/C/computation_frame.hpp:134-142 | One insertion leaves every other key as it was. |
| Constraints.AddChoiceOthersUnchanged | runtime/sprite-rt/C/computation_frame.hpp:126-142 | Other choices' sets are unchanged. |
| Constraints.AddChoiceKeepsSymmetric | runtime/sprite-rt/C/computation_frame.hpp:114-130 | `eq_choice` stays symmetric. |
| Constraints.ForkedStoresIndependent | runtime/sprite-rt/C/computation_frame.hpp:97-142 | Of two stores sharing their maps, adding variable and choice constraints to one changes only that one; the other keeps reading its old maps, and the two no longer share. |
| Constraints.ConstraintStore.constructor | runtime/sprite-rt/C/computation_frame.hpp:71-124 | A store with two fresh, separate, empty maps. |
| Constraints.ConstraintStore.AddVarConstraints | runtime/sprite-rt/C/computation_frame.hpp:107-112 | `eq_var` becomes the map after the binding(s). A shared map is copied first: the store then holds a fresh map and the old one keeps its value for its other holders. `eq_choice` is untouched. |
| Constraints.ConstraintStore.AddOneVarConstraint | runtime/sprite-rt/C/computation_frame.hpp:97-103 | Appends one binding to the bucket of the first variable's aux word. A shared map is copied first and the old one keeps its value. |
| Constraints.ConstraintStore.AddChoiceConstraints | runtime/sprite-rt/C/computation_frame.hpp:126-130 | `eq_choice` records the equivalence in both directions. A shared map is copied first and the old one keeps its value. `eq_var` is untouched. |
| Constraints.ConstraintStore.AddOneChoiceConstraint | runtime/sprite-rt/C/computation_frame.hpp:134-142 | Inserts `b` into the set of `a`, creating the set on first use. A shared map is copied first and the old one keeps its value. |
| Constraints.EvalFrame.constructor | runtime/sprite-rt/C/computation_frame.hpp:146-156 | A frame for `e` with a fresh empty store and a time allotment of 1. |
| Constraints.EvalFrame.WithStore | runtime/sprite-rt/C/computation_frame.hpp:158-162 | A frame for `e` that takes over the given store. |
| Constraints.ComputationFrame.constructor | runtime/sprite-rt/C/computation_frame.hpp:171-175 | A frame holding the work queue and the link to the next computation. |
| SymbolTables.DatatypeSymbols | lib/compiler.cpp:457-522 | Each constructor gets its own vtable and a well-formed constructor tag. The tags start at CTOR and rise by one per constructor in declaration order, so they are strictly increasing and distinct. |
| SymbolTables.SymbolsWellTagged | include/sprite/compiler.hpp:52-54 | Functions get tag OPER and constructors a tag of CTOR or above. Constructor tags are consecutive and land in jump-table slot 4 + i. |
| SymbolTables.MergeSpec | include/sprite/compiler.hpp:100-111 | Merging keeps existing entries, adds new ones, and the key set is the union. |
| SymbolTables.MergeLaws | include/sprite/compiler.hpp:100-111 | Merging into an empty table (the move branch) gives the argument. Merging the same table again, or an empty one, changes nothing. |
| SymbolTables.LibrarySTab.MergeFrom | include/sprite/compiler.hpp:100-111 | The receiver holds the merge of both tables, the argument is emptied, and the receiver is returned. A self-merge empties the table. |
| SymbolTables.ChoiceIds.constructor | runtime/sprite-rt/C/main.cpp:84 | The choice-id counter starts at 0. |
| SymbolTables.NodeInit | include/sprite/compiler.hpp:156-172 | The node takes the symbol's vtable and tag. A choice also takes the next id, and the counter advances. Nothing else changes. |
| SymbolTables.InitChoices | include/sprite/compiler.hpp:156-172 | A driver over `node_init`, called once per node: successive choices get consecutive, strictly increasing, distinct ids. |

## Left out

- `N` and `H` (the vtable step functions), `normalize1.def`, `normalize2.def` and `normalize_apply.def` are compiled code that is not part of this model. Primitives take their arguments as already normalised. `Cy_Eval` records `N` only as an event, and `.oper` takes `H` as done.
- `char` is taken to be signed (-128..127), as on the x86-64 targets the runtime is built for. Where `char` is unsigned, `ord` (main.cpp:455-464) and `compare` on characters (main.cpp:781-804) give different results for bytes of 128 and above; that reading is not modelled.
- Graph.SkipFwd: requires a finite forwarding chain. On a cyclic chain `Cy_SkipFwd` loops forever; such a graph has no `chain` and is outside the precondition.
- Scheduler.Eval: the root stack and free list are shown unchanged only because `N` is outside the model. The runtime's `N` allocates nodes (and may collect) during the loop.
- Scheduler.Fairness: a forwarding entry ahead of `p` is replaced in place without leaving the front, so it delays `p` by the length of its chain. The lemma covers queues with no forwarding entry ahead of `p` only.
- Scheduler.Eval: the runtime loops without bound. The model is bounded by `fuel` and reports the number of dispatches made, so a non-terminating evaluation (a cyclic forwarding chain, infinitely many choices) is a prefix of its run.
- `yield` and the diagnostic printed for an OPER result are events of a trace, not calls or output.
- `Cy_Normalize` is only the push/pop bracket around `N`, which `Eval` shows for the root stack.
- The vtables' `destroy` hook (called by several rewrite primitives and by the encoder) releases pooled successor arrays. It is not modelled.
- `Cy_ArrayAllocTyped`/`Cy_ArrayDealloc` and the successor-array pools: `Apply` allocates its argument array with `new`.
- Dispatch.PullTab and Strings.CStringToCyString allocate with `new` instead of `NODE_ALLOC` (modelled separately as Memory.Pool.Alloc). Retries after a collection are therefore not shown inside them.
- Memory.Pool.Alloc: `NodePool::collect` is not part of this model. Each collection is represented by the free list it leaves, supplied by the caller. The runtime retries without bound, while the model gives up when the supplied collections are exhausted.
- Memory.Pool.PopRoot: popping an empty root stack is undefined behaviour in the runtime and is excluded by a precondition.
- The free list is a sequence of nodes, not an intrusive linked list through the nodes' first word.
- Tag and vtable labels, and the `.Char_repr` label table in `sprite_ascii_tables.hpp` (not part of this model), are inputs: `PrimLabel` and `PrimCharRepr` take the label as a parameter.
- Strings.PrimLabel: requires the label to be shorter than `SIZE_MAX`, as every C string is.
- Strings.PrimCharRepr: requires a non-empty label (the runtime's labels are single-quoted), so that skipping its first character stays within the string.
- Strings.CyStringToCString: the output stream is the returned sequence. A cyclic or ill-formed list, on which the runtime loops or crashes, has no `path` and is outside the precondition.
- Repr: `Cy_Repr` walks the graph through the vtables' `succ` and `label`. The model works on the finite term they unfold to, so cyclic graphs (on which the runtime does not terminate) are not covered. Output goes to a string instead of a `FILE*`.
- ApplySpine.Apply: requires the partial application to miss at least one argument (an `aux` of 0 would wrap around in `aux_t`) and its arity to be below `SPRITE_ARITY_BOUND`. The runtime's `assert` for a nullary function is the outcome `NullaryApplied`, with the node unchanged.
- Prelude.IntBinary: signed overflow, division by zero and `INT64_MIN / -1` are undefined behaviour in C++, and they are excluded by `Defined` instead of being given a wrap-around value.
- Floats (`negateFloat`, `==.Float`, `compare.Float`), `putChar`, `error`, `ensureNotFree`, `$##`, `Cy_FPrint`, the `show` primitives and the IO/`show.Success` stubs are left out: they are floating point, I/O or process exit.
- CopyOnWrite.Shared: the holder count is stored in the payload. It is not tied to the set of all holders in the heap, and the assignment operators (which redirect a holder) and release at destruction are not modelled.
- Constraints.ConstraintStore: the per-variable and per-choice buckets, which the runtime keeps in `Shared` cells of their own, are plain values of the maps.
- Constraints.EvalFrame: holds the store directly instead of through a `Shared<ConstraintStore>`. `Fingerprint` is not part of this model, so the frame has no fingerprint.
- Constraints.ComputationFrame: `computation` is a sequence of frames (the `std::list` is modelled by value), and the global list `Cy_GlobalComputations` is not modelled.
- SymbolTables.LibrarySTab.MergeFrom: the argument's table after the move in the empty-receiver branch is unspecified in C++ and is modelled as empty. `ModuleSTab`'s LLVM module and headers are left out.
- SymbolTables.NodeInit: `next_choice_id` is an unbounded counter; the wrap-around of `aux_t` is not modelled. The IR the compiler emits is modelled by its effect on the node.
