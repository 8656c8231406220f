/**
 * The process-wide product name (libproduct/src/lib.rs): `GLOBAL_PRODUCT_NAME`
 * is a `OnceLock<ProductName>`, written by `ProductName::set_global` and read
 * by `ProductName::global`. The model is sequential: one cell that can be
 * written once, plus a ghost record of every name that was offered to it.
 */
module Registry {
  import opened Wrappers
  import opened Product

  /** The error `set_global` reports once the cell is taken. */
  const ALREADY_SET := "Product name has already been set"

  /** What a set-once cell holds after the given writes, in order: the first one, if any. */
  function Stored(writes: seq<ProductName>): (r: Option<ProductName>)
    ensures r.None? <==> writes == []
    ensures r.Some? ==> r.value == writes[0]
  {
    if writes == [] then None else Some(writes[0])
  }

  /** Later writes never change what the cell holds. */
  lemma StoredIgnoresLaterWrites(writes: seq<ProductName>, later: seq<ProductName>)
    requires writes != []
    ensures Stored(writes + later) == Stored(writes)
  {
    assert (writes + later)[0] == writes[0];
  }

  /** `GLOBAL_PRODUCT_NAME`. */
  class GlobalProductName {
    var cell: Option<ProductName>
    /** Every name passed to `set_global`, successful or not, in call order. */
    ghost var writes: seq<ProductName>

    ghost predicate Valid()
      reads this
    {
      cell == Stored(writes)
    }

    /** `OnceLock::new()`: empty. */
    constructor ()
      ensures Valid() && cell == None && writes == []
    {
      cell := None;
      writes := [];
    }

    /**
     * `ProductName::set_global`: stores `name` when the cell is empty; otherwise
     * fails with `ALREADY_SET` and keeps what was stored.
     */
    method SetGlobal(name: ProductName) returns (r: Result<(), string>)
      requires Valid()
      modifies this
      ensures Valid()
      ensures writes == old(writes) + [name]
      ensures r.Ok? <==> old(cell).None?
      ensures r.Ok? ==> cell == Some(name)
      ensures r.Err? ==> r.error == ALREADY_SET && cell == old(cell)
    {
      if cell.None? {
        cell := Some(name);
        r := Ok(());
      } else {
        r := Err(ALREADY_SET);
      }
      writes := writes + [name];
      if old(writes) != [] {
        StoredIgnoresLaterWrites(old(writes), [name]);
      }
    }

    /** `ProductName::global`: nothing before the first successful set, the first stored name afterwards. */
    method Global() returns (r: Option<ProductName>)
      requires Valid()
      ensures r == cell
      ensures r.None? <==> writes == []
      ensures r.Some? ==> r.value == writes[0]
    {
      r := cell;
    }
  }
}
