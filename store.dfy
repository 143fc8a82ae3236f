/** The room inventory as a value: four fixed-length slot lists, one per room
    type, and the booking protocol as state transitions on it. The class in
    module HotelManager updates arrays in place and is specified by these
    functions. */
module Store {
  import opened Billing

  datatype Option<T> = None | Some(value: T)

  /** A slot is vacant (`None`, the source's `null`) or holds a booked room. */
  type Slot = Option<Room>

  /** The four slot lists, indexed by room type minus one:
      1 luxury double, 2 deluxe double, 3 luxury single, 4 deluxe single. */
  type Inventory = seq<seq<Slot>>

  /** Outcome of a booking attempt, one per message the console prints. */
  datatype BookOutcome = Booked | InvalidType | NotAvailable

  predicate ValidType(t: int) {
    1 <= t <= 4
  }

  /** Fixed number of slots of each room type. */
  function Capacity(t: int): nat
    requires ValidType(t)
  {
    if t == 1 || t == 3 then 10 else 20
  }

  /** Types 1 and 2 are double rooms, 3 and 4 single rooms. */
  predicate IsDoubleType(t: int) {
    t == 1 || t == 2
  }

  /** Indicator of a vacant slot. */
  function VacancyIndicator(x: Slot): nat {
    if x.None? then 1 else 0
  }

  /** Number of vacant slots in a list (the source's `availableRooms`). */
  function Vacancies(s: seq<Slot>): (n: nat)
    ensures n <= |s|
  {
    if s == [] then 0 else Vacancies(s[..|s| - 1]) + VacancyIndicator(s[|s| - 1])
  }

  /** The indices of the vacant slots: an independent view of the count. */
  function VacantIndices(s: seq<Slot>): set<int> {
    set i | 0 <= i < |s| && s[i].None?
  }

  lemma {:induction false} VacanciesCountsVacantIndices(s: seq<Slot>)
    ensures Vacancies(s) == |VacantIndices(s)|
  {
    if s != [] {
      var n := |s| - 1;
      VacanciesCountsVacantIndices(s[..n]);
      var rest := VacantIndices(s[..n]);
      assert n !in rest;
      if s[n].None? {
        assert VacantIndices(s) == rest + {n};
      } else {
        assert VacantIndices(s) == rest;
      }
    }
  }

  /** Every slot is vacant exactly when the count equals the list length. */
  lemma {:induction false} AllVacantIff(s: seq<Slot>)
    ensures Vacancies(s) == |s| <==> forall i :: 0 <= i < |s| ==> s[i].None?
  {
    if s != [] {
      var n := |s| - 1;
      AllVacantIff(s[..n]);
      assert forall i :: 0 <= i < n ==> s[..n][i] == s[i];
    }
  }

  /** Overwriting one slot changes the count by the difference of the two
      indicators: occupying a vacant slot lowers it by one, vacating an
      occupied slot raises it by one, replacing a room keeps it. */
  lemma {:induction false} VacanciesAfterUpdate(s: seq<Slot>, i: int, x: Slot)
    requires 0 <= i < |s|
    ensures Vacancies(s[i := x]) == Vacancies(s) - VacancyIndicator(s[i]) + VacancyIndicator(x)
  {
    var n := |s| - 1;
    if i == n {
      assert s[i := x][..n] == s[..n];
    } else {
      assert s[i := x][..n] == s[..n][i := x];
      VacanciesAfterUpdate(s[..n], i, x);
    }
  }

  /** A list of `n` vacant slots. */
  function VacantList(n: nat): (s: seq<Slot>)
    ensures |s| == n && forall i :: 0 <= i < n ==> s[i].None?
  {
    seq(n, _ => None)
  }

  /** The store a fresh `Hotel` starts with, and what loading falls back to. */
  function Initial(): (inv: Inventory)
    ensures WellFormed(inv)
    ensures forall t :: ValidType(t) ==> Vacancies(inv[t - 1]) == Capacity(t)
  {
    var inv := [VacantList(10), VacantList(20), VacantList(10), VacantList(20)];
    AllVacantIff(inv[0]);
    AllVacantIff(inv[1]);
    AllVacantIff(inv[2]);
    AllVacantIff(inv[3]);
    inv
  }

  /** Occupied slots of double types hold double rooms and those of single
      types single rooms. */
  predicate KindsMatch(inv: Inventory)
    requires |inv| == 4
  {
    forall k, i :: 0 <= k < 4 && 0 <= i < |inv[k]| && inv[k][i].Some? ==>
      (inv[k][i].value.Double? <==> IsDoubleType(k + 1))
  }

  /** Four lists of the fixed capacities whose rooms have the right kind. */
  predicate WellFormed(inv: Inventory) {
    && |inv| == 4
    && (forall k :: 0 <= k < 4 ==> |inv[k]| == Capacity(k + 1))
    && KindsMatch(inv)
  }

  predicate IsVacant(inv: Inventory, t: int, i: int)
    requires |inv| == 4
  {
    ValidType(t) && 0 <= i < |inv[t - 1]| && inv[t - 1][i].None?
  }

  predicate IsOccupied(inv: Inventory, t: int, i: int)
    requires |inv| == 4
  {
    ValidType(t) && 0 <= i < |inv[t - 1]| && inv[t - 1][i].Some?
  }

  /** Overwrites slot `i` of type `t`. */
  function Put(inv: Inventory, t: int, i: int, x: Slot): (r: Inventory)
    requires |inv| == 4 && ValidType(t) && 0 <= i < |inv[t - 1]|
    ensures |r| == 4
    ensures forall k :: 0 <= k < 4 ==> |r[k]| == |inv[k]|
    ensures r[t - 1][i] == x
    ensures forall k, j :: 0 <= k < 4 && 0 <= j < |inv[k]| && (k != t - 1 || j != i) ==> r[k][j] == inv[k][j]
    ensures forall k :: 0 <= k < 4 && k != t - 1 ==> r[k] == inv[k]
    ensures Vacancies(r[t - 1]) == Vacancies(inv[t - 1]) - VacancyIndicator(inv[t - 1][i]) + VacancyIndicator(x)
  {
    VacanciesAfterUpdate(inv[t - 1], i, x);
    inv[t - 1 := inv[t - 1][i := x]]
  }

  /** The room a booking of type `t` creates: a double room holding both
      guests for types 1 and 2, a single room for the first guest otherwise
      (the second guest is then ignored). */
  function NewRoom(t: int, first: Guest, second: Guest): (r: Room)
    ensures r.orders == [] && r.guest1 == first
    ensures r.Double? <==> IsDoubleType(t)
    ensures r.Double? ==> r.guest2 == second
  {
    if IsDoubleType(t) then Double(first, second, []) else Single(first, [])
  }

  /** The charge follows the room kind only: deluxe rooms are billed at the
      luxury rate. */
  lemma {:induction false} ChargeByType(t: int, first: Guest, second: Guest)
    requires ValidType(t)
    ensures NewRoom(t, first, second).Charge() == if IsDoubleType(t) then DoubleRoomCharge else SingleRoomCharge
    ensures NewRoom(2, first, second).Bill() == NewRoom(1, first, second).Bill() == DoubleRoomCharge
    ensures NewRoom(4, first, second).Bill() == NewRoom(3, first, second).Bill() == SingleRoomCharge
  {
  }

  /** The booking step: an unknown type is rejected first, then a slot index
      out of range or an occupied slot; otherwise the vacant slot receives a
      new room with no orders. */
  function BookStep(inv: Inventory, t: int, i: int, first: Guest, second: Guest): (r: (BookOutcome, Inventory))
    requires WellFormed(inv)
    ensures WellFormed(r.1)
    ensures r.0 == InvalidType <==> !ValidType(t)
    ensures r.0 == Booked <==> IsVacant(inv, t, i)
    ensures r.0 != Booked ==> r.1 == inv
    ensures r.0 == Booked ==> r.1 == Put(inv, t, i, Some(NewRoom(t, first, second)))
    ensures r.0 == Booked ==> IsOccupied(r.1, t, i) && Vacancies(r.1[t - 1]) == Vacancies(inv[t - 1]) - 1
  {
    if !ValidType(t) then (InvalidType, inv)
    else if i < 0 || i >= |inv[t - 1]| || inv[t - 1][i].Some? then (NotAvailable, inv)
    else (Booked, Put(inv, t, i, Some(NewRoom(t, first, second))))
  }

  /** The food-ordering step: an unknown type, an index out of range or a
      vacant slot changes nothing, and the requests are then never looked at;
      otherwise each requested line is appended to the room's orders, in
      request order. */
  function OrderStep(inv: Inventory, t: int, i: int, requests: seq<FoodRequest>): (r: (bool, Inventory))
    requires WellFormed(inv)
    requires IsOccupied(inv, t, i) ==> forall j :: 0 <= j < |requests| ==> ValidItem(requests[j].itemId)
    ensures WellFormed(r.1)
    ensures r.0 <==> IsOccupied(inv, t, i)
    ensures !r.0 ==> r.1 == inv
    ensures r.0 ==> r.1 == Put(inv, t, i, Some(inv[t - 1][i].value.(orders := inv[t - 1][i].value.orders + Foods(requests))))
    ensures forall k :: 0 <= k < 4 ==> Vacancies(r.1[k]) == Vacancies(inv[k])
  {
    if !IsOccupied(inv, t, i) then (false, inv)
    else
      var room := inv[t - 1][i].value;
      (true, Put(inv, t, i, Some(room.(orders := room.orders + Foods(requests)))))
  }

  /** The checkout step: on an occupied slot the room's bill is returned and
      the slot becomes vacant; otherwise nothing changes. */
  function CheckoutStep(inv: Inventory, t: int, i: int): (r: (Option<int>, Inventory))
    requires WellFormed(inv)
    ensures WellFormed(r.1)
    ensures r.0.Some? <==> IsOccupied(inv, t, i)
    ensures r.0.None? ==> r.1 == inv
    ensures r.0.Some? ==> r.0.value == inv[t - 1][i].value.Bill()
    ensures r.0.Some? ==> r.1 == Put(inv, t, i, None)
    ensures r.0.Some? ==> IsVacant(r.1, t, i) && Vacancies(r.1[t - 1]) == Vacancies(inv[t - 1]) + 1
  {
    if !IsOccupied(inv, t, i) then (None, inv)
    else (Some(inv[t - 1][i].value.Bill()), Put(inv, t, i, None))
  }

  /** Booking a vacant slot and checking it straight out bills the flat
      charge of the room type and restores the inventory. */
  lemma {:induction false} BookThenCheckout(inv: Inventory, t: int, i: int, first: Guest, second: Guest)
    requires WellFormed(inv) && IsVacant(inv, t, i)
    ensures var booked := BookStep(inv, t, i, first, second).1;
            CheckoutStep(booked, t, i) == (Some(if IsDoubleType(t) then DoubleRoomCharge else SingleRoomCharge), inv)
  {
    var booked := BookStep(inv, t, i, first, second).1;
    assert booked[t - 1][i := None] == inv[t - 1];
    assert booked[t - 1 := inv[t - 1]] == inv;
  }

  /** Ordering on an occupied slot and then checking out bills the earlier
      amount plus the total of the new lines. */
  lemma {:induction false} OrderThenCheckout(inv: Inventory, t: int, i: int, requests: seq<FoodRequest>)
    requires WellFormed(inv) && IsOccupied(inv, t, i)
    requires forall j :: 0 <= j < |requests| ==> ValidItem(requests[j].itemId)
    ensures var ordered := OrderStep(inv, t, i, requests).1;
            CheckoutStep(ordered, t, i).0 == Some(inv[t - 1][i].value.Bill() + Total(Foods(requests)))
  {
    BillAfterOrders(inv[t - 1][i].value, Foods(requests));
  }

  /** Every room found in a well-formed inventory is charged by its type. */
  lemma {:induction false} ChargeOfOccupied(inv: Inventory, t: int, i: int)
    requires WellFormed(inv) && IsOccupied(inv, t, i)
    ensures inv[t - 1][i].value.Charge() == if IsDoubleType(t) then DoubleRoomCharge else SingleRoomCharge
  {
    assert inv[t - 1][i].value.Double? <==> IsDoubleType(t - 1 + 1);
  }
}
