/** Food order lines, rooms and the checkout bill.

    All amounts are whole rupees. The source keeps them in `float`/`double`;
    every constant is integral, so the integers here agree with the source
    while each line price stays within 2^24 rupees (beyond that the source's
    `float` rounds). */
module Billing {

  /** One guest's free-text details; the source does not validate them. */
  datatype Guest = Guest(name: string, contact: string, gender: string)

  /** Unit prices of the menu items 1..4: Sandwich, Pasta, Noodles, Coke. */
  const Prices: seq<int> := [50, 60, 70, 30]

  /** Flat room charges: every double room, every single room. */
  const DoubleRoomCharge: int := 4000
  const SingleRoomCharge: int := 2200

  /** Item ids index the menu from 1; any other id makes the price lookup fail. */
  predicate ValidItem(itemId: int) {
    1 <= itemId <= |Prices|
  }

  /** An order line. `price` is captured when the line is created and never
      recomputed. The quantity is not validated by the source: it may be zero
      or negative, and so may the price. */
  datatype Food = Food(itemId: int, quantity: int, price: int)

  /** The `Food` constructor: the line total is quantity times the unit price. */
  function NewFood(itemId: int, quantity: int): (f: Food)
    requires ValidItem(itemId)
    ensures f.itemId == itemId && f.quantity == quantity
    ensures f.price == quantity * Prices[itemId - 1]
    ensures quantity >= 0 ==> 30 * quantity <= f.price <= 70 * quantity
    ensures quantity == 0 <==> f.price == 0
  {
    Food(itemId, quantity, quantity * Prices[itemId - 1])
  }

  /** A booked room: a single room has one guest, a double room two; both
      carry their food orders in the order they were placed. */
  datatype Room =
    | Single(guest1: Guest, orders: seq<Food>)
    | Double(guest1: Guest, guest2: Guest, orders: seq<Food>)
  {
    /** The flat charge depends only on single versus double. */
    function Charge(): (c: int)
      ensures c == SingleRoomCharge <==> Single?
      ensures c == DoubleRoomCharge <==> Double?
    {
      match this
      case Single(_, _) => SingleRoomCharge
      case Double(_, _, _) => DoubleRoomCharge
    }

    /** Appends one order line; guests, kind and earlier lines are kept. */
    function AddFood(f: Food): (r: Room)
      ensures r.orders == orders + [f]
      ensures |r.orders| == |orders| + 1
      ensures forall i :: 0 <= i < |orders| ==> r.orders[i] == orders[i]
      ensures r.Single? == Single? && r.guest1 == guest1
      ensures Double? ==> r.guest2 == guest2
    {
      this.(orders := orders + [f])
    }

    /** The amount due at checkout: the flat charge plus every line's
        captured price, summed in insertion order. */
    function Bill(): (b: int)
      ensures b == Charge() + TotalFromFront(orders)
    {
      TotalIsSumOfPrices(orders);
      Charge() + Total(orders)
    }
  }

  /** Sum of the line prices, accumulated from the first line to the last. */
  function Total(lines: seq<Food>): int
  {
    if lines == [] then 0 else Total(lines[..|lines| - 1]) + lines[|lines| - 1].price
  }

  /** One pair of console answers to "Select item" and "Enter quantity". */
  datatype FoodRequest = FoodRequest(itemId: int, quantity: int)

  /** The order lines that a sequence of (item, quantity) requests creates. */
  function Foods(requests: seq<FoodRequest>): (fs: seq<Food>)
    requires forall k :: 0 <= k < |requests| ==> ValidItem(requests[k].itemId)
    ensures |fs| == |requests|
    ensures forall k :: 0 <= k < |requests| ==> fs[k] == NewFood(requests[k].itemId, requests[k].quantity)
  {
    if requests == [] then []
    else
      var n := |requests| - 1;
      Foods(requests[..n]) + [NewFood(requests[n].itemId, requests[n].quantity)]
  }

  /** The accumulation in the bill printer: start from the room charge and
      add each line's captured price, in insertion order. */
  method PrintBill(room: Room) returns (total: int)
    ensures total == room.Bill()
  {
    total := room.Charge();
    var i := 0;
    while i < |room.orders|
      invariant 0 <= i <= |room.orders|
      invariant total == room.Charge() + Total(room.orders[..i])
    {
      assert room.orders[..i + 1][..i] == room.orders[..i];
      total := total + room.orders[i].price;
      i := i + 1;
    }
    assert room.orders[..i] == room.orders;
  }

  lemma {:induction false} TotalAppend(a: seq<Food>, b: seq<Food>)
    ensures Total(a + b) == Total(a) + Total(b)
    decreases |b|
  {
    if b == [] {
      assert a + b == a;
    } else {
      var n := |b| - 1;
      assert (a + b)[..|a + b| - 1] == a + b[..n];
      TotalAppend(a, b[..n]);
    }
  }

  /** Total does not depend on which end the sum starts from: it equals the
      sum taken from the first line onwards (a reference definition). */
  function TotalFromFront(lines: seq<Food>): int
  {
    if lines == [] then 0 else lines[0].price + TotalFromFront(lines[1..])
  }

  lemma {:induction false} TotalIsSumOfPrices(lines: seq<Food>)
    ensures Total(lines) == TotalFromFront(lines)
  {
    if lines != [] {
      assert lines == [lines[0]] + lines[1..];
      TotalAppend([lines[0]], lines[1..]);
      assert [lines[0]][..0] == [];
      TotalIsSumOfPrices(lines[1..]);
    }
  }

  /** With no orders the bill is exactly the room charge. */
  lemma {:induction false} BillWithoutOrders(room: Room)
    requires room.orders == []
    ensures room.Bill() == room.Charge()
  {
  }

  /** Each added line raises the bill by exactly its captured price. */
  lemma {:induction false} BillAfterAddFood(room: Room, f: Food)
    ensures room.AddFood(f).Bill() == room.Bill() + f.price
  {
    assert room.AddFood(f).orders[..|room.orders|] == room.orders;
  }

  /** Adding several lines raises the bill by their total. */
  lemma {:induction false} BillAfterOrders(room: Room, fs: seq<Food>)
    ensures room.(orders := room.orders + fs).Bill() == room.Bill() + Total(fs)
  {
    TotalAppend(room.orders, fs);
  }

  /** With non-negative quantities no line lowers the bill below the charge. */
  lemma {:induction false} TotalOfNonNegativeQuantities(requests: seq<FoodRequest>)
    requires forall i :: 0 <= i < |requests| ==> ValidItem(requests[i].itemId) && requests[i].quantity >= 0
    ensures 0 <= Total(Foods(requests))
  {
    if requests != [] {
      var n := |requests| - 1;
      assert Foods(requests)[..n] == Foods(requests[..n]);
      TotalOfNonNegativeQuantities(requests[..n]);
    }
  }

  /** The worked example: a single room with two plates of pasta owes 2320. */
  lemma {:induction false} SingleRoomWithTwoPasta(g: Guest)
    ensures Single(g, [NewFood(2, 2)]).Bill() == 2320
  {
    assert [NewFood(2, 2)][..0] == [];
  }
}
