# Hotel room inventory and billing

A Dafny model of the room-inventory and billing logic of a console hotel
management program (`HotelSystem.java`). The hotel has four fixed lists of
room slots: luxury double (type 1, 10 slots), deluxe double (type 2, 20),
luxury single (type 3, 10) and deluxe single (type 4, 20). A slot is vacant
or holds a booked room. A room can be booked into a vacant slot. Food orders
can be added to an occupied room. At checkout the bill is printed and the
slot is vacated. The bill is the room's flat charge plus the price of every
food line, each price captured when the line was created.

The project has three modules:

- `Billing` (`billing.dfy`): guests, the menu prices, food lines
  (`NewFood`), the `Room` datatype (`Single` or `Double`, each carrying its
  orders) with its charge, `AddFood` and `Bill`. `PrintBill` is the
  accumulation loop of the bill printer, proved equal to `Bill`.
- `Store` (`store.dfy`): the four slot lists as a value (`Inventory`, a
  sequence of four slot sequences), the vacancy count and its properties,
  and the booking protocol as pure step functions `BookStep`, `OrderStep`
  and `CheckoutStep`, with lemmas about what they do in sequence.
- `HotelManager` (`hotel.dfy`): class `Hotel`, whose four lists are arrays
  whose slots are updated in place. It has the source's type-to-list lookup
  (`RoomList`) and the operations `Book`, `OrderFood` and `Checkout`, with
  the console prompts stripped. Each method's postcondition equates its
  result and the new contents of the four arrays with the matching step
  function applied to the old contents. `AvailableRooms` is the vacancy
  count of one list.

Modelling choices:

- Amounts are integers (rupees). The source never checks the quantity, so a
  zero or negative quantity gives a zero or negative line price, and the
  model keeps that (`int`, not `nat`).
- The slot index passed to the operations is the number typed at the
  console minus one; the subtraction belongs to input parsing.
- The order dialogue of `orderFood` is a `while (true)` loop that reads an
  item and a quantity, adds the line, and only then asks whether to order
  more (`HotelSystem.java:200-208`). So once the room has been found it
  reads at least one (item, quantity) pair. `OrderFood` receives those pairs
  as a sequence of `FoodRequest`s, required to be non-empty and to name
  valid items only when the room is found; otherwise they are ignored.
- `Room` is a value. The source mutates the room object stored in the list
  in place (`addFood`), and the model stores the extended room back into the
  same slot. No other reference to a booked room exists, so nothing can
  observe the difference.
- The feature menu (`HotelSystem.java:127-133`) advertises rates the code
  never charges: 3000 for a deluxe double and 1200 for a deluxe single. The
  code charges 4000 for every double room and 2200 for every single room
  (`HotelSystem.java:63-66`, `HotelSystem.java:82-85`). The model follows
  the code; `Store.ChargeByType` states this.
- The program checks neither the item id nor the quantity. An item id
  outside 1..4 makes the price lookup throw, which the model makes a
  precondition of `NewFood`.
- The program never reads a second guest for a single room; `Store.NewRoom`
  ignores the second guest for types 3 and 4.
- The bill is computed only during checkout.
- Booking reports three outcomes, matching the three messages the program
  prints: invalid room type, room not available, booked.

## Model

| member | source | states |
|---|---|---|
| `Billing.NewFood` | HotelSystem.java:4-16 | a food line keeps its item and quantity and captures price = quantity × unit price from the menu [50, 60, 70, 30]; for non-negative quantities the price lies between 30 and 70 per unit, and it is zero exactly when the quantity is zero |
| `Billing.Room.Charge` | HotelSystem.java:58-86 | the flat charge is 2200 exactly for single rooms and 4000 exactly for double rooms |
| `Billing.Room.AddFood` | HotelSystem.java:38-40 | the new line is appended at the end; earlier lines keep their positions and values, the length grows by one, and the guests and room kind are unchanged |
| `Billing.Foods` | HotelSystem.java:200-208 | the requests of one order dialogue give one line each, in request order, each built by the food constructor |
| `Billing.PrintBill` | HotelSystem.java:42-55 | the accumulated total (room charge, then each line's captured price in insertion order) equals the room's bill |
| `Billing.Room.Bill` | HotelSystem.java:42-55 | the amount due is the room charge plus the total of the captured line prices, summed from the first line in insertion order |
| `Billing.TotalAppend` | HotelSystem.java:49-52 | the line total of a concatenation is the sum of the line totals of the parts |
| `Billing.TotalIsSumOfPrices` | HotelSystem.java:49-52 | the total accumulated from the last line backward equals the sum taken from the first line forward |
| `Billing.BillWithoutOrders` | HotelSystem.java:42-45 | with no orders the bill is exactly the room charge |
| `Billing.BillAfterAddFood` | HotelSystem.java:38-51 | adding one line raises the bill by exactly that line's captured price |
| `Billing.BillAfterOrders` | HotelSystem.java:38-55 | adding a sequence of lines raises the bill by their total |
| `Billing.TotalOfNonNegativeQuantities` | HotelSystem.java:12-16 | lines ordered with non-negative quantities have a non-negative total |
| `Billing.SingleRoomWithTwoPasta` | HotelSystem.java:12-16 | a single room with one line of two pastas is billed 2200 + 2 × 60 = 2320 |
| `Store.Vacancies` | HotelSystem.java:226-228 | the vacancy count of a list never exceeds its length |
| `Store.VacanciesCountsVacantIndices` | HotelSystem.java:226-228 | the vacancy count equals the number of indices whose slot is vacant |
| `Store.AllVacantIff` | HotelSystem.java:226-228 | the count equals the list length if and only if every slot is vacant |
| `Store.VacanciesAfterUpdate` | HotelSystem.java:180-182 | overwriting one slot changes the count by the difference of the two vacancy indicators: occupying lowers it by one, vacating raises it by one, replacing one room by another keeps it |
| `Store.Initial` | HotelSystem.java:88-93 | the initial inventory has lists of 10, 20, 10 and 20 slots, each holding rooms of its own kind, and every list's vacancy count equals its capacity |
| `Store.NewRoom` | HotelSystem.java:173-183 | types 1 and 2 create a double room holding both guests, other types a single room holding the first guest; the new room has no orders |
| `Store.ChargeByType` | HotelSystem.java:63-85 | a room booked as type 1 or 2 is charged 4000 and one booked as type 3 or 4 is charged 2200, so deluxe rooms cost the same as luxury rooms |
| `Store.BookStep` | HotelSystem.java:149-185 | an unknown type is rejected first; booking succeeds if and only if the index is in range and the slot is vacant; on failure nothing changes; on success only that slot changes, to a new room with no orders, it becomes occupied, and the list's vacancy count drops by one; the inventory stays well formed |
| `Store.OrderStep` | HotelSystem.java:188-209 | ordering succeeds if and only if the type is known, the index is in range and the slot is occupied; on failure nothing changes; on success only that slot changes, its room gaining the requested lines at the end of its orders; no vacancy count changes |
| `Store.CheckoutStep` | HotelSystem.java:211-224 | checkout succeeds if and only if the type is known, the index is in range and the slot is occupied; on success it returns that room's bill and only that slot changes, to vacant, raising the vacancy count by one; on failure nothing changes |
| `Store.BookThenCheckout` | HotelSystem.java:143-224 | booking a vacant slot and checking it out straight away bills 4000 for a double type or 2200 for a single type and restores the inventory exactly |
| `Store.OrderThenCheckout` | HotelSystem.java:188-224 | after an order on an occupied slot, checkout bills the previous bill plus the total of the new lines |
| `Store.ChargeOfOccupied` | HotelSystem.java:173-183 | in a well-formed inventory every room in a double list is charged 4000 and every room in a single list 2200 |
| `HotelManager.AvailableRooms` | HotelSystem.java:226-228 | the number of vacant slots of a list: at most its length, equal to the number of vacant indices, and equal to the length if and only if every slot is vacant |
| `HotelManager.Hotel.constructor` | HotelSystem.java:88-93 | a fresh hotel has fresh lists equal to the initial inventory, and each list's vacancy count equals its capacity |
| `HotelManager.Hotel.RoomList` | HotelSystem.java:230-237 | type 1 gives the hotel's own luxury-double array, 2 its deluxe-double, 3 its luxury-single and 4 its deluxe-single array, so callers update the hotel's lists in place; any other type gives null; the list given holds that type's slots and has that type's capacity |
| `HotelManager.Hotel.RoomListsDistinct` | HotelSystem.java:230-237 | different room types name different lists |
| `HotelManager.Hotel.Book` | HotelSystem.java:143-186 | the outcome and the new contents of the four lists are those of `Store.BookStep` on the old contents; the hotel stays valid |
| `HotelManager.Hotel.OrderFood` | HotelSystem.java:188-209 | whether the room was found and the new contents of the four lists are those of `Store.OrderStep` on the old contents; the hotel stays valid |
| `HotelManager.Hotel.Checkout` | HotelSystem.java:211-224 | the bill returned (none when the room is not found) and the new contents of the four lists are those of `Store.CheckoutStep` on the old contents; the hotel stays valid |

## Left out

- Console input and output: the menu loop of `main`, the `getIntInput` retry loop, the listing of vacant room numbers while booking, `displayRoomFeatures`, and all printed text. This includes `Food.toString` and the item names, and the bill's line-by-line printout. `checkAvailability` only prints `AvailableRooms` of each of the four lists.
- Persistence: `loadHotelData` and `saveHotelData` use Java object serialization, whose format is not part of this model. The constructor models the fresh hotel used when loading fails.
- Floating point: prices are `float` and totals `double` in the source, printed with two decimals. The model uses exact integers. They agree while every value stays exactly representable, which holds for all but extreme quantities (beyond about 2^24 rupees per line).
- The out-of-bounds exception for an item id outside 1..4 is a precondition of `NewFood`, not an error path. `HotelManager.Hotel.OrderFood` therefore requires every requested item id to be valid when the room is found (when it is not, the requests are never read). In the source, a bad id in a later request of the dialogue leaves the earlier lines added and then ends the program.
- The 32-bit integer range of the console's answers: they enter arithmetic only in the `- 1` of the slot number and of the item id (`HotelSystem.java:15`), and in the quantity's `float` product (see Floating point above). At the smallest int each `- 1` wraps to the largest int, which is rejected as out of range or fails the price lookup just as the unwrapped value would, so the outcome is the same.
