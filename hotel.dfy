/** The hotel's four slot lists as arrays updated in place, and the booking,
    food-ordering and checkout operations of the console with their prompts
    and messages stripped. Each operation is specified by the corresponding
    step function of module Store on the abstract view `State()`. */
module HotelManager {
  import opened Billing
  import opened Store

  /** The source's `availableRooms`: the number of vacant slots in a list. */
  function AvailableRooms(rooms: array<Slot>): (n: nat)
    reads rooms
    ensures n <= rooms.Length
    ensures n == |VacantIndices(rooms[..])|
    ensures n == rooms.Length <==> forall i :: 0 <= i < rooms.Length ==> rooms[i].None?
  {
    VacanciesCountsVacantIndices(rooms[..]);
    AllVacantIff(rooms[..]);
    Vacancies(rooms[..])
  }

  class Hotel {
    /** Luxury double (type 1), deluxe double (2), luxury single (3) and
        deluxe single (4). The lists are never replaced, only their slots. */
    const luxuryDouble: array<Slot>
    const deluxeDouble: array<Slot>
    const luxurySingle: array<Slot>
    const deluxeSingle: array<Slot>

    /** The contents of the four lists, in type order. */
    function State(): (inv: Inventory)
      reads luxuryDouble, deluxeDouble, luxurySingle, deluxeSingle
      ensures |inv| == 4
    {
      [luxuryDouble[..], deluxeDouble[..], luxurySingle[..], deluxeSingle[..]]
    }

    /** The four lists are distinct objects with the fixed capacities, and
        each holds rooms of its own kind. */
    ghost predicate Valid()
      reads luxuryDouble, deluxeDouble, luxurySingle, deluxeSingle
    {
      && luxuryDouble != deluxeDouble && luxuryDouble != luxurySingle && luxuryDouble != deluxeSingle
      && deluxeDouble != luxurySingle && deluxeDouble != deluxeSingle
      && luxurySingle != deluxeSingle
      && WellFormed(State())
    }

    /** A fresh hotel, the state loading falls back to: every slot vacant. */
    constructor ()
      ensures Valid()
      ensures fresh(luxuryDouble) && fresh(deluxeDouble) && fresh(luxurySingle) && fresh(deluxeSingle)
      ensures State() == Initial()
      ensures forall t :: ValidType(t) ==> AvailableRooms(RoomList(t)) == Capacity(t)
    {
      luxuryDouble := new Slot[10](_ => None);
      deluxeDouble := new Slot[20](_ => None);
      luxurySingle := new Slot[10](_ => None);
      deluxeSingle := new Slot[20](_ => None);
      new;
      assert luxuryDouble[..] == VacantList(10) && luxurySingle[..] == VacantList(10);
      assert deluxeDouble[..] == VacantList(20) && deluxeSingle[..] == VacantList(20);
    }

    /** The source's `getRoomList`: the hotel's own list of a room type 1..4
        (the array its callers then update), and `null` for any other type. */
    function RoomList(t: int): (list: array?<Slot>)
      reads luxuryDouble, deluxeDouble, luxurySingle, deluxeSingle
      ensures list != null <==> ValidType(t)
      ensures list != null ==> list[..] == State()[t - 1]
      ensures list != null && Valid() ==> list.Length == Capacity(t)
      ensures t == 1 ==> list == luxuryDouble
      ensures t == 2 ==> list == deluxeDouble
      ensures t == 3 ==> list == luxurySingle
      ensures t == 4 ==> list == deluxeSingle
    {
      match t
      case 1 => luxuryDouble
      case 2 => deluxeDouble
      case 3 => luxurySingle
      case 4 => deluxeSingle
      case _ => null
    }

    /** Distinct types name distinct lists. */
    lemma {:induction false} RoomListsDistinct(t: int, u: int)
      requires Valid() && ValidType(t) && ValidType(u) && t != u
      ensures RoomList(t) != RoomList(u)
    {
    }

    /** The source's `bookRoom`: `roomNum` is the slot index (the number the
        guest typed, minus one); the second guest is used for double types
        only. */
    method Book(roomType: int, roomNum: int, first: Guest, second: Guest) returns (outcome: BookOutcome)
      requires Valid()
      modifies luxuryDouble, deluxeDouble, luxurySingle, deluxeSingle
      ensures Valid()
      ensures (outcome, State()) == BookStep(old(State()), roomType, roomNum, first, second)
    {
      var list := RoomList(roomType);
      if list == null {
        return InvalidType;
      }
      if roomNum < 0 || roomNum >= list.Length || list[roomNum] != None {
        return NotAvailable;
      }
      ghost var before := State();
      list[roomNum] := Some(NewRoom(roomType, first, second));
      assert State() == before[roomType - 1 := list[..]];
      outcome := Booked;
    }

    /** The source's `orderFood`: after the room is found, each request of
        the order dialogue (at least one) becomes a line appended to the
        room's orders. When the room is not found the dialogue never runs,
        so the requests are unconstrained and ignored. */
    method OrderFood(roomType: int, roomNum: int, requests: seq<FoodRequest>) returns (found: bool)
      requires Valid()
      requires IsOccupied(State(), roomType, roomNum) ==>
        |requests| > 0 && forall j :: 0 <= j < |requests| ==> ValidItem(requests[j].itemId)
      modifies luxuryDouble, deluxeDouble, luxurySingle, deluxeSingle
      ensures Valid()
      ensures (found, State()) == OrderStep(old(State()), roomType, roomNum, requests)
    {
      var list := RoomList(roomType);
      if list == null || roomNum < 0 || roomNum >= list.Length || list[roomNum] == None {
        return false;
      }
      ghost var before := State();
      ghost var room := list[roomNum].value;
      assert room.(orders := room.orders + Foods(requests[..0])) == room;
      var i := 0;
      while i < |requests|
        invariant 0 <= i <= |requests|
        invariant list[..] == old(list[..])[roomNum := Some(room.(orders := room.orders + Foods(requests[..i])))]
        invariant State() == before[roomType - 1 := list[..]]
        modifies list
      {
        var current := list[roomNum].value;
        assert requests[..i + 1][..i] == requests[..i];
        assert room.orders + Foods(requests[..i + 1]) == room.orders + Foods(requests[..i]) + [NewFood(requests[i].itemId, requests[i].quantity)];
        ghost var mid := State();
        list[roomNum] := Some(current.AddFood(NewFood(requests[i].itemId, requests[i].quantity)));
        assert State() == mid[roomType - 1 := list[..]];
        i := i + 1;
      }
      assert requests[..i] == requests;
      found := true;
    }

    /** The source's `checkout`: bill the room found, then vacate its slot. */
    method Checkout(roomType: int, roomNum: int) returns (bill: Option<int>)
      requires Valid()
      modifies luxuryDouble, deluxeDouble, luxurySingle, deluxeSingle
      ensures Valid()
      ensures (bill, State()) == CheckoutStep(old(State()), roomType, roomNum)
    {
      var list := RoomList(roomType);
      if list == null || roomNum < 0 || roomNum >= list.Length || list[roomNum] == None {
        return None;
      }
      ghost var before := State();
      var total := PrintBill(list[roomNum].value);
      list[roomNum] := None;
      assert State() == before[roomType - 1 := list[..]];
      bill := Some(total);
    }
  }
}
