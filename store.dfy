/**
 * The receipt store: the process-wide table from receipt identifier to
 * points, with the two operations the service offers on it, submitting a
 * receipt and looking up its points.  The fresh identifier is an input,
 * since it comes from a random UUID.
 */
module Store {
  import opened Wrappers
  import opened Receipts
  import opened Scorer

  class ReceiptStore {
    /** The table: identifier to points. */
    var entries: map<string, int>

    /** Every stored score came from a validated receipt, so none is
        negative. */
    ghost predicate Valid()
      reads this
    {
      forall id :: id in entries ==> entries[id] >= 0
    }

    constructor ()
      ensures Valid() && entries == map[]
    {
      entries := map[];
    }

    /** Submitting a receipt: an invalid one is rejected with
        `InvalidInput` before anything is scored or stored; a valid one is
        scored, its points are stored under the fresh identifier and that
        identifier is returned. */
    method ProcessReceipt(raw: RawReceipt, freshId: string) returns (res: Result<string, Error>)
      requires Valid()
      modifies this
      ensures Valid()
      ensures ValidateReceipt(raw).Err? ==> res == Err(InvalidInput) && entries == old(entries)
      ensures ValidateReceipt(raw).Ok? ==>
        res == Ok(freshId) && entries == old(entries)[freshId := Points(ValidateReceipt(raw).value)]
    {
      match ValidateReceipt(raw)
      case Err(e) =>
        res := Err(e);
      case Ok(receipt) =>
        var points := ComputePoints(receipt);
        PointsNonNegative(receipt);
        entries := entries[freshId := points];
        res := Ok(freshId);
    }

    /** Looking up points: the stored points of a known identifier, or
        `NotFound` for an unknown one. */
    method GetPoints(id: string) returns (res: Result<int, Error>)
      requires Valid()
      ensures id in entries ==> res == Ok(entries[id])
      ensures id !in entries ==> res == Err(NotFound)
      ensures res.Ok? ==> res.value >= 0
    {
      if id !in entries {
        return Err(NotFound);
      }
      return Ok(entries[id]);
    }
  }

  /** Submitting a receipt and then looking up its identifier gives its
      points when it was valid; every other identifier still gives what it
      gave before. */
  method ProcessThenGet(store: ReceiptStore, raw: RawReceipt, freshId: string, other: string)
    returns (mine: Result<int, Error>, theirs: Result<int, Error>)
    requires store.Valid()
    requires other != freshId
    modifies store
    ensures store.Valid()
    ensures ValidateReceipt(raw).Ok? ==>
      mine == Ok(Points(ValidateReceipt(raw).value)) && mine.value >= 0
    ensures theirs == if other in old(store.entries) then Ok(old(store.entries)[other]) else Err(NotFound)
  {
    var id := store.ProcessReceipt(raw, freshId);
    mine := store.GetPoints(freshId);
    theirs := store.GetPoints(other);
    if ValidateReceipt(raw).Ok? {
      PointsNonNegative(ValidateReceipt(raw).value);
    }
  }

  /** An invalid receipt leaves the store as it was, so its would-be
      identifier stays unknown if it was unknown. */
  method RejectThenGet(store: ReceiptStore, raw: RawReceipt, freshId: string)
    returns (res: Result<int, Error>)
    requires store.Valid()
    requires ValidateReceipt(raw).Err?
    requires freshId !in store.entries
    modifies store
    ensures store.entries == old(store.entries)
    ensures res == Err(NotFound)
  {
    var id := store.ProcessReceipt(raw, freshId);
    res := store.GetPoints(freshId);
  }
}
