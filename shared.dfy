/** `Shared<T>`: a copy-on-write cell.

    A holder points to a reference-counted payload. Reading never copies;
    writing through a holder copies the payload first when another holder
    points to it, so that every other holder keeps seeing the old value. */
module CopyOnWrite {

  /** The object a `std::shared_ptr` manages together with its use count:
      the number of holders pointing to it. */
  class Payload<T> {
    var value: T
    var holders: nat

    constructor (value: T)
      ensures this.value == value && holders == 1
    {
      this.value := value;
      holders := 1;
    }
  }

  class Shared<T> {
    var data: Payload<T>

    /** A live holder is one of the holders its payload counts. */
    ghost predicate Valid()
      reads this, data
    {
      data.holders >= 1
    }

    /** `Shared(args...)`: a holder of a new payload that nobody else
        holds. */
    constructor (value: T)
      ensures Valid() && fresh(data) && data.value == value && data.holders == 1
    {
      data := new Payload(value);
    }

    /** The copy constructor: the new holder shares the argument's payload,
        which now counts one more holder. */
    constructor Copy(other: Shared<T>)
      modifies other.data
      ensures Valid() && data == other.data
      ensures data.holders == old(other.data.holders) + 1 && data.value == old(other.data.value)
    {
      data := other.data;
      new;
      data.holders := data.holders + 1;
    }

    /** `read()` and `operator->`: the payload's value. */
    function Read(): T
      reads this, data
    {
      data.value
    }

    /** `needs_copy()`: whether the payload has another holder. */
    predicate NeedsCopy()
      reads this, data
    {
      data.holders != 1
    }

    /** `write()`: when the payload has other holders, this holder leaves
        it (one holder fewer) and takes a fresh copy of its own; either way
        it returns the storage that now belongs to this holder alone. The
        old payload keeps its value, so the other holders read what they read
        before. */
    method Write() returns (p: Payload<T>)
      requires Valid()
      modifies this, data
      ensures Valid() && p == data && data.holders == 1 && data.value == old(data.value)
      ensures !old(NeedsCopy()) ==> data == old(data)
      ensures old(NeedsCopy()) ==>
                && fresh(data)
                && old(data).holders == old(data.holders) - 1
                && old(data).value == old(data.value)
    {
      if data.holders != 1 {
        data.holders := data.holders - 1;
        data := new Payload(data.value);
      }
      p := data;
    }

    /** `gc_write()`: the collector writes the storage in place, without
        copying, whoever else holds it. */
    method GcWrite() returns (p: Payload<T>)
      ensures p == data
    {
      p := data;
    }
  }

  /** Writing through one of two holders of the same payload leaves the
      other holder reading the old value, and the writer reading the new
      one. */
  method WriteAliased<T>(a: Shared<T>, b: Shared<T>, v: T)
    requires a != b && a.data == b.data && a.data.holders == 2
    modifies a, a.data
    ensures a.Read() == v && b.Read() == old(b.Read())
    ensures !a.NeedsCopy() && !b.NeedsCopy() && a.data != b.data
  {
    var p := a.Write();
    p.value := v;
  }

  /** Writing through the only holder of a payload updates it in place. */
  method WriteUnique<T>(a: Shared<T>, v: T)
    requires a.Valid() && !a.NeedsCopy()
    modifies a, a.data
    ensures a.data == old(a.data) && a.Read() == v && !a.NeedsCopy()
  {
    var p := a.Write();
    p.value := v;
  }
}
