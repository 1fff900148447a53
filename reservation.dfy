/**
 * What `fulfillment_reserve` does to the ledger and returns: first-fit lookup
 * of a stocked row for the SKU at the store (store compared case-insensitively),
 * a one-unit decrement of that row, a pickup code and ETA on success, and a
 * 409 slot-unavailable outcome with two alternative times otherwise.
 */
module Reservation {
  import opened Optional
  import opened Text
  import opened Inventory

  /** A point in time, in seconds. The clock is read by the caller and passed in. */
  type Instant = int

  /** One hexadecimal digit of a random identifier. */
  type Nibble = n: int | 0 <= n < 16

  const Hour := 3600
  const EtaDelay := 2 * Hour
  const FirstAlternativeDelay := 24 * Hour
  const SecondAlternativeDelay := 48 * Hour
  const CodeLength := 6
  const HexDigits := "0123456789ABCDEF"

  const StatusOk := 200
  const StatusConflict := 409

  datatype Outcome = Reserved(pickupCode: string, eta: Instant) | SlotUnavailable(alternatives: seq<Instant>)
  {
    /** The HTTP status the handler answers with: a conflict when no slot was found. */
    function Status(): (code: int)
      ensures code == StatusConflict <==> SlotUnavailable?
    {
      if Reserved? then StatusOk else StatusConflict
    }
  }

  /** The row is for `sku`, at `store` up to case, and has stock. */
  predicate Fits(r: InventoryRecord, sku: string, store: string)
  {
    r.sku == sku && Lower(r.store) == Lower(store) && r.qty > 0
  }

  /** The row is for `sku` at `store` up to case, stocked or not. */
  predicate Serves(r: InventoryRecord, sku: string, store: string)
  {
    r.sku == sku && Lower(r.store) == Lower(store)
  }

  /** The position of the first fitting row, if any. */
  function FirstFit(rows: seq<InventoryRecord>, sku: string, store: string): (r: Option<nat>)
    ensures r.Some? ==> r.value < |rows| && Fits(rows[r.value], sku, store)
    ensures r.Some? ==> forall j :: 0 <= j < r.value ==> !Fits(rows[j], sku, store)
    ensures r.None? ==> forall j :: 0 <= j < |rows| ==> !Fits(rows[j], sku, store)
  {
    if rows == [] then None
    else if Fits(rows[0], sku, store) then Some(0)
    else
      match FirstFit(rows[1..], sku, store)
      case None => None
      case Some(k) => Some(k + 1)
  }

  /** One unit less, never below zero. */
  function TakeOne(r: InventoryRecord): (r': InventoryRecord)
    ensures r'.sku == r.sku && r'.store == r.store && r'.size == r.size
    ensures r.qty > 0 ==> r'.qty == r.qty - 1
    ensures r.qty == 0 ==> r'.qty == 0
  {
    r.(qty := if r.qty - 1 < 0 then 0 else r.qty - 1)
  }

  /** The ledger after one reservation attempt for `sku` at `store`. */
  function AfterReserve(rows: seq<InventoryRecord>, sku: string, store: string): seq<InventoryRecord>
  {
    match FirstFit(rows, sku, store)
    case None => rows
    case Some(i) => rows[i := TakeOne(rows[i])]
  }

  /** The units on the ledger for `sku` at `store` (store compared up to case). */
  function Available(rows: seq<InventoryRecord>, sku: string, store: string): nat
  {
    if rows == [] then 0
    else (if Serves(rows[0], sku, store) then rows[0].qty else 0) + Available(rows[1..], sku, store)
  }

  /** The pickup code: the first six digits of the identifier, upper-case. */
  function PickupCode(id: seq<Nibble>): (code: string)
    requires |id| >= CodeLength
    ensures |code| == CodeLength
    ensures forall k :: 0 <= k < CodeLength ==> code[k] in HexDigits && HexValue(code[k]) == id[k]
  {
    seq(CodeLength, k requires 0 <= k < CodeLength => HexDigits[id[k]])
  }

  /** The value of an upper-case hexadecimal digit. */
  function HexValue(c: char): int
  {
    if '0' <= c <= '9' then c as int - '0' as int
    else if 'A' <= c <= 'F' then c as int - 'A' as int + 10
    else -1
  }

  /** The two suggested times: one day and two days from now. */
  function Alternatives(now: Instant): (alts: seq<Instant>)
    ensures |alts| == 2 && alts[0] - now == 24 * Hour && alts[1] - now == 48 * Hour
  {
    [now + FirstAlternativeDelay, now + SecondAlternativeDelay]
  }

  /** No row fits exactly when the store holds no units of the SKU. */
  lemma {:induction false} NoFitIffNoStock(rows: seq<InventoryRecord>, sku: string, store: string)
    ensures FirstFit(rows, sku, store).None? <==> Available(rows, sku, store) == 0
  {
    if rows != [] {
      NoFitIffNoStock(rows[1..], sku, store);
    }
  }

  /**
   * A successful reservation takes exactly one unit from the (sku, store)
   * pair it served and leaves the stock of every other pair alone.
   */
  lemma {:induction false} ReserveTakesOne(rows: seq<InventoryRecord>, sku: string, store: string, sku': string, store': string)
    requires FirstFit(rows, sku, store).Some?
    ensures Available(AfterReserve(rows, sku, store), sku, store) == Available(rows, sku, store) - 1
    ensures sku' != sku || Lower(store') != Lower(store) ==>
      Available(AfterReserve(rows, sku, store), sku', store') == Available(rows, sku', store')
  {
    var i := FirstFit(rows, sku, store).value;
    TakeOneAvailable(rows, i, sku, store);
    TakeOneAvailable(rows, i, sku', store');
  }

  lemma {:induction false} TakeOneAvailable(rows: seq<InventoryRecord>, i: nat, sku: string, store: string)
    requires i < |rows| && rows[i].qty > 0
    ensures Available(rows[i := TakeOne(rows[i])], sku, store) ==
      Available(rows, sku, store) - (if Serves(rows[i], sku, store) then 1 else 0)
  {
    var rows' := rows[i := TakeOne(rows[i])];
    if i > 0 {
      assert rows'[1..] == rows[1..][i - 1 := TakeOne(rows[i])];
      TakeOneAvailable(rows[1..], i - 1, sku, store);
    } else {
      assert rows'[1..] == rows[1..];
    }
  }

  /** `n` reservation attempts in a row for the same SKU and store: the successes and the final ledger. */
  function Drain(rows: seq<InventoryRecord>, sku: string, store: string, n: nat): (nat, seq<InventoryRecord>)
    decreases n
  {
    if n == 0 then (0, rows)
    else
      var rest := Drain(AfterReserve(rows, sku, store), sku, store, n - 1);
      ((if FirstFit(rows, sku, store).Some? then 1 else 0) + rest.0, rest.1)
  }

  /**
   * Repeated reservations succeed exactly min(n, stock) times and take one
   * unit per success: the ledger can never hand out more units than it holds.
   */
  lemma {:induction false} DrainSucceedsUpToStock(rows: seq<InventoryRecord>, sku: string, store: string, n: nat)
    ensures Drain(rows, sku, store, n).0 == if n < Available(rows, sku, store) then n else Available(rows, sku, store)
    ensures Available(Drain(rows, sku, store, n).1, sku, store) == Available(rows, sku, store) - Drain(rows, sku, store, n).0
    decreases n
  {
    if n > 0 {
      NoFitIffNoStock(rows, sku, store);
      if FirstFit(rows, sku, store).Some? {
        ReserveTakesOne(rows, sku, store, sku, store);
      }
      DrainSucceedsUpToStock(AfterReserve(rows, sku, store), sku, store, n - 1);
    }
  }

  /** A store holding a single unit can be reserved once; the next attempt finds nothing. */
  lemma SingleUnitReservedOnce(rows: seq<InventoryRecord>, sku: string, store: string)
    requires Available(rows, sku, store) == 1
    ensures FirstFit(rows, sku, store).Some?
    ensures FirstFit(AfterReserve(rows, sku, store), sku, store).None?
  {
    NoFitIffNoStock(rows, sku, store);
    ReserveTakesOne(rows, sku, store, sku, store);
    NoFitIffNoStock(AfterReserve(rows, sku, store), sku, store);
  }
}
