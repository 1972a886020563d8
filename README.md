# Supermarket checkout simulation in Dafny

This project models the three classes of a small PHP simulation of supermarket checkouts.

- **Supermarket** owns a row of cashboxes and drives the simulation. Its `calculateModel` checks the working hours. It then ticks once per second from `work_start * 3600` to `work_end * 3600` inclusive and returns the text it printed.
  - Each tick first takes a snapshot of every cashbox on the hour.
  - It then may bring a new customer, who is routed to a cashbox by `getEligibleCashbox`.
  - Finally it lets every cashbox that is not closed do its work.
- **Cashbox** is CLOSED, OPENED or STANDBY. It keeps a queue of customers and serves the first customer in BUYS state, who leaves after `goods * check_time + pay_time` seconds. When its queue runs empty it waits in STANDBY, and it closes after `off_time` idle seconds.
- **Customer** holds a goods count, a state (SHOPPING, QUEUE, BUYS), its cashbox and the second its service started.

The project has two layers.

- **Value model.**
  - Module `QueueModel` (`queue_model.dfy`) describes customers and cashboxes as values: `Buyer` and `Till`. What each Cashbox/Customer operation does is a function on these values.
  - Module `DriverModel` (`driver_model.dfy`) covers the driver: the settings (`Config`), their validation, routing, the state change of one tick (`Next`: the arrival and the work; the snapshot taken first belongs to `Transcript`), a run of ticks (`Fold`), the text it prints (`Transcript`), and `calculateModel` as a whole (`Calculate`).
  - Module `DriverProperties` (`driver_properties.dfy`) proves what a whole run promises, and the scenarios of the repository's PHPUnit tests.
- **Objects.**
  - Module `Checkout` (`checkout.dfy`) has the classes `Customer` and `Cashbox`. They live in one module because each refers to the other.
  - Module `Market` (`supermarket.dfy`) has the class `Supermarket`.
  - Their methods update fields in place. Each method is proved to leave the objects exactly as the value model says, e.g. `View() == Work(old(View()), settings, tm)` for `doWork`, and `Outcome(r, Views()) == Calculate(old(Views()), config, d)` for `calculateModel`.
  - A ghost `Repr` set and `Valid()` predicates keep the queues apart. Every queued customer points back at its own cashbox, and the cashboxes are numbered by position, so no customer stands in two queues.

Modules `Text` (decimal rendering of a number, counting a character) and `Wrappers` (`Option`, `Result`) are helpers.

The code is followed where its behaviour is surprising:

- `addCustomer` on a STANDBY cashbox clears the idle timestamp to `null`, but leaves the state STANDBY. PHP reads `$tm - null` as `$tm`. So at any second `tm >= off_time`, the `doWork` of the same tick closes the cashbox with its new customer still in the queue (`QueueModel.StandbyArrivalIsClosedOn`). At an earlier second that `doWork` does not close it.
- `close()` does not reset the idle timestamp.
- The message for `work_start > work_end` is kept word for word, although it states the opposite condition.
- `getEligibleCashbox` with no cashbox at all calls `open()` on `null`. The model reports this as the failure `NoCashbox`.
- A zero `new_customer_interval` makes `%` throw. The model reports this as `ModuloByZero`.
- A missing `max_goods` or one below 1 makes the arrival throw `CustomerException` in the middle of the run. The model reports this as `CustomerError`.
- An exception ends `calculateModel`, and the text printed so far is lost.

## Model

| member | source | states |
|---|---|---|
| QueueModel.NullAsZero | src/Cashbox.php:102 | PHP arithmetic on a null timestamp reads it as 0; no contract, the body is the definition (used by `ShouldClose` and `Due`, whose properties are in `StandbyClosesExactly` and `ReleaseExactlyWhenDue`) |
| QueueModel.NewBuyer | src/Customer.php:35-39 | a new customer is SHOPPING, has the given goods count and no service start |
| QueueModel.FirstBuyerFrom | src/Cashbox.php:163-164 | the scan finds the first BUYS customer from a position on, and finds none exactly when nobody from there is in BUYS |
| QueueModel.IsFree | src/Cashbox.php:65-75 | a queue is free exactly when no customer in it is in BUYS |
| QueueModel.Uniform | src/Customer.php:105 | the draw lies in `[lo, hi]`, and every value of the range is reached by some draw |
| QueueModel.NewCustomer | src/Customer.php:96-108 | a missing `max_goods` and one below 1 fail with their own messages; otherwise a SHOPPING customer with 1 to `max_goods` goods |
| QueueModel.StartServe | src/Customer.php:64-70 | the customer becomes BUYS from `tm` exactly when the queue is free; otherwise nothing changes, and no other customer changes |
| QueueModel.Open | src/Cashbox.php:88-93 | a CLOSED cashbox becomes OPENED; a cashbox that is not CLOSED is left as it is; only the state may change |
| QueueModel.OpenIdempotent | src/Cashbox.php:88-93 | opening twice is opening once |
| QueueModel.AddCustomer | src/Cashbox.php:115-124 | the customer is appended and the queue before it is unchanged; in STANDBY the idle timestamp is cleared and the state stays STANDBY |
| QueueModel.ClosedMessage | src/Customer.php:50 | the CustomerException message for a closed cashbox, naming its number; no contract, the body is the definition (`Assign` states when it is raised) |
| QueueModel.Assign | src/Customer.php:47-59 | a CLOSED cashbox refuses with the message naming it; otherwise the customer, now QUEUE, is appended and the state is kept |
| QueueModel.Release | src/Cashbox.php:129-144 | one customer leaves; an emptied queue makes the cashbox STANDBY from `tm`; otherwise state and timestamp are kept |
| QueueModel.Work | src/Cashbox.php:146-174 | a CLOSED cashbox is unchanged; a STANDBY one whose idle time ran out only closes; at most one customer leaves |
| QueueModel.Render | src/Cashbox.php:180-189 | printState reads back: the digits before `:` parse to the number, and what follows is `X` exactly when CLOSED, otherwise digits that parse to the queue length |
| QueueModel.ShouldClose | src/Cashbox.php:100-103 | the test of the private close(): STANDBY and `tm - standby_start >= off_time`, a null timestamp read as 0; no contract, the body is the definition (its properties are in `StandbyClosesExactly`) |
| QueueModel.Due | src/Cashbox.php:165-168 | the release test of doWork: `tm - buyStart >= goods * check_time + pay_time`; no contract, the body is the definition (its properties are in `ReleaseExactlyWhenDue`) |
| QueueModel.RenderHasNoLineBreak | src/Cashbox.php:180-189 | a cashbox's printState has no line break |
| QueueModel.ReleaseFrontKeepsHeadServing | src/Cashbox.php:129-144 | releasing the served head of a settled queue makes the second customer the head, served from `tm`, and leaves everyone behind it exactly as before and in order |
| QueueModel.WorkKeepsHeadServing | src/Cashbox.php:146-174 | doWork keeps a settled queue settled (head in BUYS, the rest in QUEUE); the queue is either unchanged or has lost its front, the second customer now served from `tm` and the rest exactly as before |
| QueueModel.WorkKeepsSingleServer | src/Cashbox.php:139-142 | if only the head may be in BUYS before doWork, the same holds after it |
| QueueModel.Join | src/Supermarket.php:125-126 | assign then startServe: the queue grows by the new customer at the back and is otherwise unchanged; number and state are kept |
| QueueModel.JoinKeepsHeadServing | src/Customer.php:64-70 | a newcomer is served at once, from the second it joins, exactly when the queue it joins was empty, and the queue stays settled |
| QueueModel.ReleaseExactlyWhenDue | src/Cashbox.php:163-172 | the served head leaves exactly when `tm - buyStart >= goods * check_time + pay_time`; a head not yet due leaves the cashbox unchanged |
| QueueModel.StandbyClosesExactly | src/Cashbox.php:98-109 | a STANDBY cashbox closes exactly when `tm - standby_start >= off_time`, and closing serves nobody |
| QueueModel.StandbyArrivalIsClosedOn | src/Cashbox.php:115-124 | as written, a customer who joins a STANDBY cashbox at a second `tm >= off_time` is left in the queue of a cashbox that the doWork of the same second closes |
| QueueModel.ServiceLastsExactly | src/Cashbox.php:165-169 | a head served from second `b` stays through the doWork calls at `b` to `b + D - 1` and leaves at `b + D`, where `D` is its service time |
| QueueModel.StandbyLastsExactly | src/Cashbox.php:100-104 | an idle cashbox emptied at `b` stays open until `b + off_time - 1` and closes at `b + off_time` |
| Checkout.Customer.constructor | src/Customer.php:35-39 | the new object is a SHOPPING customer with the given goods and no cashbox |
| Checkout.Customer.GetNewCustomer | src/Customer.php:96-108 | fails exactly as `NewCustomer`; otherwise returns a fresh customer without a cashbox, whose value is the one `NewCustomer` makes |
| Checkout.Customer.AssignToCashbox | src/Customer.php:47-59 | a CLOSED cashbox is refused and nothing changes; otherwise the customer is QUEUE, records the cashbox, is appended to its queue, and the result is true |
| Checkout.Customer.StartServe | src/Customer.php:64-70 | BUYS from `tm` if the cashbox is free before the call; otherwise unchanged |
| Checkout.Cashbox.constructor | src/Cashbox.php:39-43 | a CLOSED cashbox with the given number and settings and an empty queue |
| Checkout.Cashbox.IsFree | src/Cashbox.php:65-75 | true exactly when no queued customer is in BUYS |
| Checkout.Cashbox.QueueLength | src/Cashbox.php:80-83 | the number of customers in the queue |
| Checkout.Cashbox.PrintState | src/Cashbox.php:180-189 | `<id>:X` when CLOSED, `<id>:<queue length>` otherwise |
| Checkout.Cashbox.Open | src/Cashbox.php:88-93 | the cashbox becomes the value `QueueModel.Open` gives |
| Checkout.Cashbox.Close | src/Cashbox.php:98-109 | returns whether the STANDBY idle time ran out, and then (only then) the cashbox is CLOSED |
| Checkout.Cashbox.AddCustomer | src/Cashbox.php:115-124 | the customer object is appended to the queue, and the cashbox becomes the value `QueueModel.AddCustomer` gives |
| Checkout.Cashbox.Unset | src/Cashbox.php:131 | the customer at `key` leaves the queue; the others keep their order, state and timestamp unchanged |
| Checkout.Cashbox.FreeCustomer | src/Cashbox.php:129-144 | the customer object at `key` leaves, and the cashbox becomes `Release` of its old value |
| Checkout.Cashbox.DoWork | src/Cashbox.php:146-174 | the cashbox becomes `Work` of its old value; its queue of customer objects is unchanged or has lost exactly the first BUYS customer, the others keeping their order |
| DriverModel.Validate | src/Supermarket.php:53-67 | the five checks in source order, each failure with its own message; success exactly when both hours are present and `0 <= work_start <= work_end` |
| DriverModel.Initial | src/Supermarket.php:33-42 | `cashbox_quantity` cashboxes (none if it is negative), numbered from 0, CLOSED, empty, no timestamp |
| DriverModel.FirstClosedIn | src/Supermarket.php:144-146 | the scan's `$closedCashbox` after the first `n` cashboxes: a position below `n`; the body is the definition, and `FirstClosedInFinds` states what it finds |
| DriverModel.FirstClosedInFinds | src/Supermarket.php:144-146 | the scan remembers the first CLOSED cashbox, and finds none exactly when none is CLOSED |
| DriverModel.BestOpenIn | src/Supermarket.php:148-158 | the scan's `$eligibleCashbox` after the first `n` cashboxes: a position below `n`, replaced only by a strictly shorter open queue; `BestOpenInFinds` states what it finds |
| DriverModel.BestOpenInFinds | src/Supermarket.php:148-158 | the candidate is OPENED or STANDBY, every earlier open queue is strictly longer, every later one is at least as long; none exactly when nothing is open |
| DriverModel.Route | src/Supermarket.php:162-174 | a cashbox is handed out exactly when there is one |
| DriverModel.RouteToOpen | src/Supermarket.php:148-158 | an open cashbox handed out has a shortest open queue, strictly shorter than every earlier open one, and is below the threshold unless no cashbox is CLOSED |
| DriverModel.RouteToClosed | src/Supermarket.php:162-172 | a CLOSED cashbox is handed out only when it is the first CLOSED one and every open queue has reached `open_cashbox_queue_size` |
| DriverModel.RouteTieBreak | src/Supermarket.php:154 | of two open cashboxes with equal queues, the later one is never chosen |
| DriverModel.ArrivalPercent | src/Supermarket.php:122 | `customer_probability_map[hour] * 100`, a missing hour read as 0; no contract, the body is the definition (`Arrival` states how the roll is compared with it) |
| DriverModel.Arrival | src/Supermarket.php:117-129 | a zero `new_customer_interval` fails with `ModuloByZero`; at a second that is not a multiple of it nobody arrives; at a multiple, a roll of at most the hour's percentage admits a customer (`Admit`) and a higher roll brings nobody |
| DriverModel.Admit | src/Supermarket.php:123-126 | getNewCustomer then placement; keeps the number of cashboxes; what it does is stated by `AdmitJoinsRoutedTill` |
| DriverModel.Placement | src/Supermarket.php:124-126 | route, open, assign, startServe; keeps the number of cashboxes; what it does is stated by `PlacementJoinsRoutedTill` |
| DriverModel.AdmitJoinsRoutedTill | src/Supermarket.php:123-126 | an admission fails only with the getNewCustomer error or for no cashbox; otherwise the routed cashbox, opened, gains the new customer by `Join` and no other changes |
| DriverModel.PlacementJoinsRoutedTill | src/Supermarket.php:124-126 | placing a customer fails only when there is no cashbox; otherwise only the routed cashbox changes, by `Join` after `Open` |
| DriverModel.ArrivalNeverRefused | src/Supermarket.php:125 | the CustomerException for a closed cashbox never escapes an arrival |
| DriverModel.Process | src/Supermarket.php:177-185 | processCashboxes: doWork on each cashbox that is not CLOSED; keeps the number of cashboxes, and `ProcessWorksEveryTill` states the rest |
| DriverModel.ProcessWorksEveryTill | src/Supermarket.php:177-185 | skipping CLOSED cashboxes equals calling doWork on every cashbox, in index order |
| DriverModel.Cells | src/Supermarket.php:103-105 | each cashbox's printState followed by the column separator (two spaces, a bar, two spaces), in index order; no contract, the body is the definition (`CellsHaveNoLineBreak` states its property) |
| DriverModel.CellsHaveNoLineBreak | src/Supermarket.php:103-105 | the cells of a snapshot hold no line break |
| DriverModel.Snapshot | src/Supermarket.php:97-110 | the supermarket's printState: empty exactly off the hour; on the hour, one line ending in a line break with no other line break |
| DriverModel.SnapshotLines | src/Supermarket.php:97-110 | a snapshot is exactly one line on the hour and empty at any other second |
| DriverModel.Next | src/Supermarket.php:84-88 | the arrival comes first and the work second: a successful second is `Process` of what `Arrival` left, and a second fails exactly when its arrival throws, with the same failure |
| DriverModel.Fold | src/Supermarket.php:69-76 | the ticks of seconds `start` to `end - 1` in order, stopping at the first throw; keeps the number of cashboxes, and `FoldStep` and `FoldStopsAtFailure` state the rest |
| DriverModel.Transcript | src/Supermarket.php:72-74 | `$res .= $this->tick($i)`: the snapshots of the run's seconds in order, each of the cashboxes as they stand before that second; no contract, the body is the definition (`TickExtendsText` and `TranscriptLines` state its properties) |
| DriverModel.TranscriptLines | src/Supermarket.php:72-74 | the text of a run has one line per second of the run on the hour |
| DriverModel.TickExtendsRun | src/Supermarket.php:79-91 | a tick that ends as `Next` says extends the run by its second |
| DriverModel.FoldStep | src/Supermarket.php:72-74 | one more second: a failed run stays as it is; otherwise the tick fails, keeping the cashboxes, or moves them on |
| DriverModel.TickExtendsText | src/Supermarket.php:73 | appending the snapshot of the current cashboxes extends the text by that second |
| DriverModel.FoldStopsAtFailure | src/Supermarket.php:72-76 | after a second has thrown, later seconds change nothing |
| DriverModel.RunStops | src/Supermarket.php:72-76 | where the loop stops, by a throw or at the last second, it has computed the run to the end |
| DriverModel.Day | src/Supermarket.php:69-76 | the loop over the working hours: keeps the number of cashboxes, and throws exactly when a second of the run throws; `DayStops` ties it to the loop |
| DriverModel.DayStops | src/Supermarket.php:69-76 | where the loop stops, its result and cashboxes are those of the day over the working hours |
| DriverModel.Calculate | src/Supermarket.php:53-67 | a failed check returns its SupermarketException, no tick runs and the cashboxes are unchanged |
| DriverProperties.HourMarksOfWindow | src/Supermarket.php:69-72 | the seconds from `work_start * 3600` to `work_end * 3600` hold `work_end - work_start + 1` full hours |
| DriverProperties.CalculateLineCount | src/Supermarket.php:69-76 | a run that returns text has passed the checks and printed exactly `work_end - work_start + 1` lines |
| DriverProperties.ArrivalKeepsHeadServing | src/Supermarket.php:123-126 | an arrival keeps every queue settled |
| DriverProperties.ProcessKeepsHeadServing | src/Supermarket.php:177-185 | processCashboxes keeps every queue settled |
| DriverProperties.NextKeepsHeadServing | src/Supermarket.php:84-88 | a tick keeps every queue settled |
| DriverProperties.ArrivalBringsCustomer | src/Supermarket.php:119-126 | a roll within the hour's percentage at a multiple of the interval, with a valid `max_goods` and a cashbox, brings a customer: the routed cashbox is open (OPENED if it was CLOSED) and one longer, the others unchanged |
| DriverProperties.TickReleasesDueHead | src/Supermarket.php:84-88 | in a tick, an OPENED settled cashbox the arrival left alone releases its due head, and the next customer takes its place |
| DriverProperties.RunKeepsHeadServing | src/Supermarket.php:72-74 | a run from settled queues ends with settled queues |
| DriverProperties.CalculateKeepsHeadServing | src/Supermarket.php:49-77 | from freshly built cashboxes, calculateModel leaves every queue settled: a non-empty queue has its head in BUYS and everyone behind it in QUEUE |
| DriverProperties.ValidationScenarios | tests/SupermarketTest.php:12-134 | the five test configurations fail with the five expected messages |
| DriverProperties.SingleSecondArrival | tests/SupermarketTest.php:140-160 | in the one-cashbox test, the arrival at 28800 never throws, and a roll of at most 10 opens the closed cashbox with the one new customer in its queue |
| DriverProperties.SingleSecondSnapshot | tests/SupermarketTest.php:140-160 | the snapshot of that test at 28800 is `Час 8: 0:X  \|  ` and a line break |
| DriverProperties.SingleSecondRun | tests/SupermarketTest.php:140-160 | whatever the draws, that run returns exactly that one line |
| Text.NatToString | src/Cashbox.php:182 | PHP's conversion of a non-negative integer to a string; no contract, the body is the definition (`ParseNatToString` and `NatToStringInjective` state its properties) |
| Text.ParseNatToString | src/Cashbox.php:182 | the decimal rendering of a number reads back as the number |
| Text.NatToStringInjective | src/Cashbox.php:182 | different numbers render differently |
| Market.Supermarket.constructor | src/Supermarket.php:33-42 | the cashboxes are fresh objects whose values are `Initial(cashbox_quantity)` |
| Market.Supermarket.PrintState | src/Supermarket.php:97-110 | the text is the snapshot of the current cashboxes |
| Market.Supermarket.Scan | src/Supermarket.php:143-159 | the loop finds the first CLOSED cashbox and the best open one |
| Market.Supermarket.OpenAt | src/Supermarket.php:170 | only that cashbox changes, as `Open` says |
| Market.Supermarket.GetEligibleCashbox | src/Supermarket.php:134-175 | hands out the cashbox `Route` picks, after opening it if it was CLOSED; with no cashbox it is the `NoCashbox` failure and nothing changes |
| Market.Supermarket.AssignAt | src/Supermarket.php:125 | the new customer joins the back of that cashbox's queue, which becomes `Assign` of its old value |
| Market.Supermarket.ServeAt | src/Supermarket.php:126 | startServe on the back customer: that queue becomes `StartServe` of its old value, and nothing else changes |
| Market.Supermarket.JoinAt | src/Supermarket.php:125-126 | that cashbox becomes `Join` of its old value; no other cashbox changes |
| Market.Supermarket.Place | src/Supermarket.php:124-126 | the cashboxes change as `Placement` says, and it fails exactly when `Placement` does |
| Market.Supermarket.Arrive | src/Supermarket.php:123-126 | the cashboxes change as `Admit` says; a throw leaves them as they were |
| Market.Supermarket.GenerateNewCustomer | src/Supermarket.php:117-129 | the cashboxes change as `Arrival` says; a throw leaves them as they were |
| Market.Supermarket.WorkAt | src/Supermarket.php:182 | only that cashbox changes, as `Work` says |
| Market.Supermarket.ProcessCashboxes | src/Supermarket.php:177-185 | the cashboxes become `Process` of their old values |
| Market.Supermarket.Tick | src/Supermarket.php:79-91 | returns the snapshot taken before the arrival; the cashboxes change as `Next` says, or stay as they were when it throws |
| Market.Supermarket.TickOfRun | src/Supermarket.php:72-74 | a tick of the loop moves the objects and the text one second along the run |
| Market.Supermarket.DayEnds | src/Supermarket.php:72-76 | where the loop stops, the result and cashboxes are those of the day |
| Market.Supermarket.RunDay | src/Supermarket.php:69-76 | the loop returns the text or the throw of the day, and leaves the cashboxes as the day does |
| Market.Supermarket.CalculateModel | src/Supermarket.php:49-77 | the result and the cashboxes are those `Calculate` gives for the cashboxes it started from |

## Left out

- The random draws (`mt_rand` in `generateNewCustomer` and `getNewCustomer`) are a parameter `Draws`: one arrival roll and one goods draw per second, each a natural number. Their distribution is not modelled. `Uniform` reduces a draw into the range.
- The arrival probability `customer_probability_map[hour] * 100` is a float in PHP. It is an integer percentage per hour here, and a missing hour is 0 (PHP `null * 100`). Float rounding in the comparison is not modelled.
- `SupermarketException` and `CustomerException` are not part of this model. A failure is the datatype `Failure`, carrying the message.
- `PHP_EOL` is `"\n"`. `round($tm / 3600)` is integer division, since the header is printed only when `tm` is a multiple of 3600.
- The PHPUnit harness in tests/SupermarketTest.php is not modelled. Its configurations and expected messages are restated as lemmas in `DriverProperties`.
- Settings keys other than `work_start`, `work_end` and `max_goods` are assumed present and integer-valued, as are `new Supermarket(null)` and loosely typed values. PHP would read a missing key as `null` with a notice. A missing `new_customer_interval` behaves like 0 (`ModuloByZero`).
- PHP integers are 64-bit. The model uses unbounded integers, so overflow of second counts or service times is not modelled.
- The accessors `getState`, `getId`, `getBuyStartTime` and `getGoodsCount` are plain field reads in the classes. `Customer.goods` is a constant, so the goods count never changes.
- After `unset`, PHP leaves a hole in the queue's keys. The queue is a `seq` with the element removed, which keeps the same iteration order.
- Customer identity: the value model compares customers by value, so two customers with equal goods, state and start time cannot be told apart there. The order of the customer objects themselves is stated by `Checkout.Cashbox.FreeCustomer` and `Checkout.Cashbox.DoWork`.
