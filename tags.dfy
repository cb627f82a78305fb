/** Node tags and vtable identities.

    The four special tags come first, in the order of the jump table that
    compiled case dispatch indexes with `tag + 4`; constructor tags start at
    CTOR and are numbered consecutively within one datatype. */
module Tags {

  const FAIL: int := -4
  const FWD: int := -3
  const CHOICE: int := -2
  const OPER: int := -1
  const CTOR: int := 0

  /** True when `tag` is one of the four reserved tags. */
  predicate IsSpecial(tag: int) {
    tag == FAIL || tag == FWD || tag == CHOICE || tag == OPER
  }

  /** The slot of the case-dispatch jump table a tag selects: the special
      labels FAIL, FWD, CHOICE, OPER occupy slots 0..3 and the constructors
      of the inspected datatype follow. */
  function JumpSlot(tag: int): (slot: int)
    ensures IsSpecial(tag) <==> 0 <= slot < 4
    ensures tag >= CTOR <==> slot >= 4
  {
    tag + 4
  }

  /** The three comparison-like entries that every vtable provides and that
      the prelude's `==`, `compare` and `show` dispatch through. */
  datatype Method = Equals | Compare | Show

  /** Vtable identities. The runtime compares vtable addresses, so a vtable
      is modelled by which symbol it belongs to. `Ctor` and `Oper` stand for
      the vtables the compiler emits for a program's constructors and
      functions; `Entry(m, v)` is the vtable stored in entry `m` of vtable
      `v` (the step function implementing `==`, `compare` or `show` for nodes
      whose vtable is `v`). */
  datatype Vt =
    | CharVt | ChoiceVt | FailedVt | FwdVt | Int64Vt | FloatVt | SuccessVt
    | PartialSpineVt | TrueVt | FalseVt | ConsVt | NilVt | LtVt | EqVt
    | GtVt | UnitVt | ApplyVt
    | Ctor(ctorName: string)
    | Oper(funName: string)
    | Entry(m: Method, of: Vt)

  /** `vptr->equals`, `vptr->compare`, `vptr->show`. */
  function MethodOf(v: Vt, m: Method): (r: Vt) {
    Entry(m, v)
  }
}
