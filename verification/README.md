# Order booking and the components that mirror it

A model of an order management system's booking pipeline, and proofs about it.
An order's events are appended to a versioned log under a per-order lock, its
row and its position are written in the same transaction, and what was committed
is then published twice: on an in-process bus, and through an outbox to Kafka.
Around that sit the order engine, which turns what venues report into bookings;
the mark router, which decides whose quote prices an instrument; two mirrors that
must agree with something simple (market data subscriptions with the held set, UI
notices with the bus); the pre-trade risk check; first-login provisioning; and
the form that edits a broker credential.

Quantities, prices and times are reals. Concurrency is a state machine over the
statements that interleave: a run is a sequence of steps, each with its guard, and
what a database, a broker or a channel provides appears as the guard of a step or
as a choice the step leaves open (a send that fails, an ack that is lost). Results
about runs are for every run. Code that changes state in place is a class or a
method proved against the functions the machines use.

| file | what it models |
|---|---|
| `orders.dfy`, `lifecycle.dfy`, `positions.dfy` | what a command on an order decides; the whole aggregate with replace, suspend, release and expire; what a fill does to a position |
| `booking.dfy`, `booking_safety.dfy`, `booking_history.dfy`, `booking_outcome.dfy` | any number of transactions, statement by statement; that log and row agree; who wrote what, and when positions are exact; what comes of a command |
| `position_writes.dfy`, `booking_positions.dfy`, `transfers.dfy` | the position rows under bookings and allocation transfers; that bookings are such writers; what a transfer does to holdings |
| `event_store.dfy`, `execution.dfy` | the append under the stream lock; the retry loop around one report |
| `outbox.dfy` | delivering a batch and draining both queues, alone |
| `outbox_orders.dfy`, `outbox_positions.dfy` | the Kafka bridge against concurrent appenders and position writers |
| `order_engine.dfy`, `reconcile.dfy` | booking from cumulative and terminal states; one reconcile per connection |
| `mark_router.dfy` | ranked sources, failover on silence, the mark store and the price lane |
| `market_data.dfy`, `held_set.dfy` | the gateway's interests and one re-read; the loop against commits and a bounded lane |
| `live_updates.dfy`, `event_bus.dfy` | conflation of events into notices; what a commit publishes |
| `risk.dfy`, `risk_protocol.dfy` | the pre-trade checks; the position limit under concurrency |
| `auth_api.dfy`, `provisioning.dfy` | slugs and free codes; logins that interleave |
| `credentials.dfy` | redaction, the merge of a form, and their round trip |

`dafny verify dfyconfig.toml` checks everything.

## Where the code does less than its documentation says

Each of these is kept as the code has it. Where an entry names an exact condition
it is proved for all inputs or all runs, and where it names a failing case that case
is proved to be one.

- A position's `SELECT ... FOR UPDATE` locks nothing while the row is absent
  (src/positions.rs:129-152), so of two first writes of one position, both starting
  from flat, the second overwrites the first. The engine books one report at a time,
  and by itself it keeps every position exact (`PositionWrites.BookingsAloneAreExact`),
  but an allocation transfer writes positions beside it (src/handlers.rs:834-878): a
  transfer that finds no row for the client and commits after the client's first fill
  loses that fill (`PositionWrites.TransferLosesAFill`). Exact condition over all runs:
  `PositionWrites.PositionsAreFoldsIff`, and for bookings alone
  `BookingHistory.PositionsAreFoldsIff`.
- A transfer's caller is said to check that no more is given than is held
  (src/positions.rs:193-195); the handler caps the splits at what the order filled
  (src/handlers.rs:802-819), whatever other orders have done to the position since. A
  split given from a holding on the other side of the order adds to both: a transfer
  leaves what giver and takers hold between them unchanged exactly when each split is
  given from the order's side (`Transfers.TransferConservesIff`,
  `GivesFromItsSideIff`); within the documented bound it does
  (`WithinHoldingConserves`). Failing case: `TransferCreatesHoldings`.
- A local cancel updates status and version but not the open quantity
  (src/order_entry.rs:1093-1103), so the row of a locally cancelled order is the
  fold of its log in everything else. Exact condition: `BookingSafety.LogAndRowAgree`;
  failing run: `BookingHistory.LocalCancelLeavesTheRow`.
- Booked quantity follows the most a venue reported to within 1e-9, and is equal
  to it, over all sequences of cumulative and terminal states, exactly when each new
  maximum tops the last by more than that, claims no more than was ordered, is priced
  and comes before any close (`OrderEngine.BookedIsMaximumIff`; `SliverIsNotBooked`).
- The booked notional is the reported one exactly when each state that is booked has
  the average of what was booked before it, if anything was, or is worth more than
  that and more than 1e-9 was booked: an increment whose price would not be positive, or that tops next
  to nothing, is priced at the venue's average (src/recon_orders.rs:334-343;
  `OrderEngine.BookedNotionalIsTakenIff`; failing case: `FallingNotionalIsLost`).
- A cancel or reject that reports more executed than is booked, but no average, closes
  the order and loses the difference: the missing fill is refused for its price and
  nothing books on a closed order. Connectors report an average of 0 whenever the
  venue gives none (crates/gateway/src/connectors/alpaca/adapter.rs:399-400,
  okx/adapter.rs:329, coinbase/adapter.rs:282). Exact condition, for every close:
  `OrderEngine.CloseEndsAtMaximumIff`; failing case, on every order with a unit open:
  `UnpricedCloseLosesTheFill`.
- A terminal cancel whose missing fill completes the order closes it as filled,
  and the cancel is not booked (`OrderEngine.CloseBooksFillFirst` says when;
  `CompletingCancelEndsFilled`).
- A reconcile task removes its slot when its loop ends and its guard removes the
  slot again when dropped (src/order_engine.rs:119, 159). A request in between loses
  its slot to the drop: slots and tasks agree exactly when that never happens
  (`Reconcile.SlotsTrackTasksIff`). A connection has one task at most exactly when no
  request then finds the slot gone beside a task (`OneReconcileIff`; failing run:
  `WindowBreaksIt`). And every request has a run to come exactly when no drop takes a
  slot whose flag was raised since the last run started (`EveryRequestIsServedIff`;
  failing run: `DropLosesARequest`).
- The risk check reads position and working quantity in two statements
  (src/risk_engine.rs:154-179), and a fill that commits between them is counted in
  neither; and an order accepted against an offsetting one leaves the band when that
  one is cancelled. A commit is off by what fills and transfers moved between its two
  reads, and by the cancels and transfers after them, all while it holds the limit
  row; fills after the reads do not count, and other submits and limit edits wait for
  that row. Exact condition over all runs: `RiskProtocol.AlwaysInBandIff`; failing
  runs: `FillBetweenReadsBreaksTheBand`, `CancelBreaksTheBand`.
- The reducing gate is documented as letting through only orders that shrink the
  holding (src/domain/orders/risk.rs:40-46). It looks at the side alone. Exact
  condition: `Risk.ReducingShrinksIff`; failing case: `ReducingCanGrow`.
- A replace down to what is already filled leaves an order open that no fill can
  complete or close (src/domain/orders/aggregate.rs:101-136, 353-369). Exact condition
  over all runs: `Lifecycle.OpenForNothingIff`; such a run: `AmendedToFilledStaysOpen`.
- The best-ranked source still ticking need not own the mark: a worse one takes it if
  it ticks first after the owner's silence. With two sources it cannot happen
  (`MarkRouter.TwoSourcesAreBest`). Exact condition over all streams:
  `MarkRouter.AlwaysBestIff`; failing stream: `MiddleSourceIsPassedOver`.
- A login's insert can fail on a code that was free at its probe and taken since.
  The upsert's conflict target is the subject alone (src/auth_api.rs:110-122), so that
  this includes two first logins of one subject, which the code says it makes
  idempotent (src/auth_api.rs:95-99): both find no row in the way, and the second
  insert meets the first's code. Exact condition over all runs:
  `Provisioning.CodeRaceIff`; failing runs, for one subject as for two:
  `SecondInsertFails`. What does hold is that all logins that resolve agree
  (`OnePrincipalPerSubject`).
- A read of the held set that fails while the gateway is out of step, the news of it
  already drained, leaves the loop waiting with only its timer to come
  (src/market_data.rs:54-79). Exact condition over all runs: `HeldSet.AlwaysInStepIff`;
  failing run: `FailedReadLosesTheNews`.

## Model

| member | source | states |
|---|---|---|
| Orders.DecideKeepsSound | src/domain/orders/aggregate.rs:47-320 | every submit, route, cancel and execution report that is accepted takes a sound order to a sound one, one version on, moving exactly the filled quantity and its notional; a closed order accepts nothing |
| Lifecycle.CommandKeepsCoherent | src/domain/orders/aggregate.rs:47-447 | so does every command there is: replace, suspend, release and expire included, an accepted command keeps quantities, average, status and remembered status in step |
| Lifecycle.AcceptedIff | src/domain/orders/aggregate.rs:101-180 | replace, suspend, release and expire: exactly when each is accepted, the error of each that is not, and the order it leaves |
| Lifecycle.PlainCommands | src/domain/orders/aggregate.rs:397-445 | the engine's commands do to the order what they do without the rest; a fill keeps what a suspension would resume to, anything else forgets it |
| Lifecycle.LogsAreCoherent | src/domain/orders/aggregate.rs:47-447 | whatever commands an order accepts, its log folds to a coherent order whose version counts the events |
| Lifecycle.ReleaseUndoesSuspend | src/domain/orders/lifecycle.rs:47-139 | in every run a release comes straight after the suspension it ends and gives the order back as it was before, versions aside |
| Lifecycle.OpenForNothingIff | src/domain/orders/aggregate.rs:101-136 | in every run an order is live with nothing to fill exactly when a replace brought it down to what was filled and nothing that touches the quantity or closes it was accepted since |
| Lifecycle.OpenForNothingBooksNothing | src/domain/orders/aggregate.rs:224-253 | such an order refuses every fill |
| Lifecycle.AmendedToFilledStaysOpen | src/domain/orders/aggregate.rs:353-369 | a run that ends live, partially filled, with nothing to fill |
| Positions.FillConserves | src/positions.rs:29-69 | opening, adding, reducing, closing or flipping, a fill changes the holding by its signed quantity and cost less profit by the cash paid |
| Positions.FillIsAverageCost | src/positions.rs:29-69 | a fill leads to the one position that moves the holding by what was traded, conserves cash, and keeps the cost of what stays, prices what is opened at the fill, and books profit on what is closed alone |
| Positions.FillsConserve | src/positions.rs:29-69 | over any sequence of fills, holding is net bought and cost less realized profit is cash paid |
| Positions.FlatProfitIsCash | src/positions.rs:29-69 | whenever the fills net to nothing, realized profit is the cash taken in |
| Positions.GivesUpAtCost | src/positions.rs:70-82 | giving up no more than is held takes exactly that off the holding, on either side, keeps the cost of what is left, and books no profit |
| Positions.StaleFlatIsExact | src/positions.rs:180-190 | booking over a stale flat read is right exactly when the row is flat with nothing realized |
| EventStore.OrderEventStore.AppendEventsInTx | src/event_store.rs:148-219 | appends all events on the expected version, versions counting on and positions rising past the sequence, or refuses and changes nothing; other orders untouched |
| EventStore.OrderEventStore.InsertAll | src/event_store.rs:173-212 | the insert loop extends this order's stream by exactly the new records |
| BookingSafety.StepKeepsInv | src/execution.rs:65-256 | every statement of every transaction keeps log, row, locks and what each transaction knows consistent |
| BookingSafety.RunKeepsInv | src/execution.rs:65-256 | so does every run |
| BookingSafety.LogAndRowAgree | src/execution.rs:141-242 | in every run versions are 1..n, the row is at n, and it is the fold of the log exactly when the last event is not a local cancel |
| BookingSafety.UnmatchedUpdateIsRefused | src/execution.rs:169-190 | a transaction whose guarded update matched no row is refused by the append's version check and cannot commit |
| BookingSafety.ClosedIsFinal | src/execution.rs:105-109 | no step, however early its transaction read, changes the row or log of a closed order |
| BookingOutcome.DecidedIff | src/execution.rs:87-160 | a command is decided exactly when its order is there and open and takes it -- a fill at a price, of no more than is left; a route of an order not yet routed -- and into the one event it stands for; which of the others are skipped and which fail |
| BookingOutcome.LoneCall | src/execution.rs:65-256 | from any point of any run with no transaction open, a call gets through: booked, queued, its position written and announced where its order takes it, and nothing changed where not |
| BookingOutcome.OutrunCall | src/execution.rs:41-63 | an append the log has outrun writes nothing: a report or a route tries again, five times in all, and a local cancel fails |
| BookingOutcome.LostAnswer | src/execution.rs:234-256 | a commit whose answer is lost writes what it would have and is never announced |
| BookingOutcome.CreationRecords | src/order_entry.rs:719-819 | a new order begins as it was submitted, at version 1, or refused or routed with it, at version 2 |
| BookingOutcome.CreatableIff | src/domain/orders/lifecycle.rs:79-96 | an order not there can be created for any quantity above nothing, alone, with a route or with a refusal |
| BookingOutcome.GivenUpCall | src/execution.rs:41-63 | a call given up before it commits leaves nothing behind, its locks included |
| BookingHistory.RunKeepsHistory | src/execution.rs:192-256 | every run keeps the account of who wrote, booked, queued and published what |
| BookingHistory.OneBookingPerCall | src/execution.rs:41-63 | a call has at most one entry in all logs whatever its retries, exactly one of its own command if it reports success, none while open, skipped or in conflict |
| BookingHistory.CommittedIsBookedQueuedPublished | src/execution.rs:192-256 | each committed fill is booked on its position exactly once, each committed event queued exactly once, and the bus carries only what was committed |
| BookingHistory.AnnouncedOnce | src/execution.rs:236-256 | each committed event is announced on the bus at most once, and only after its call committed |
| BookingHistory.LocalCancelLeavesTheRow | src/order_entry.rs:1093-1103 | a run after which a locally cancelled order's row is not the fold of its log |
| BookingHistory.FoldedIff | src/positions.rs:180-190 | what one fill adds to a loaded position is what the fold adds exactly when the load was not stale, or stale over nothing |
| BookingHistory.CommitExactIff | src/positions.rs:128-190 | a committing fill leaves its position the fold of what was booked exactly when its row was read, is still absent, or is flat with nothing realized; no other position moves |
| BookingHistory.PositionsAreFoldsIff | src/execution.rs:192-212 | in every run of bookings each position is at every point the fold of the fills booked on it exactly when no commit puts a fill that started from an absent row over a row that holds anything |
| BookingHistory.StepExactIff | src/execution.rs:192-212 | the same of one step of any kind |
| BookingHistory.PositionsAreFolds | src/execution.rs:192-212 | where no fill is written over a row its transaction read as absent, the fold holds and first fills come alone |
| BookingHistory.OneBookerIsExact | src/order_engine.rs:166-190 | bookings one at a time never write over a row they read as absent |
| BookingHistory.StaleFirstFillLosesAFill | src/positions.rs:128-152 | were two reports booked at once, as by two processes on one database, the second first fill of a position would overwrite the first |
| PositionWrites.StepKeepsInv | src/positions.rs:128-209 | bookings and transfers, load by load and upsert by upsert, keep row locks exclusive and each row a transaction wrote the fold of its own moves on what it started from |
| PositionWrites.StaleTradesIff | src/positions.rs:128-209 | fills put on a flat start in place of a position come out right exactly when it is flat with nothing realized |
| PositionWrites.RowExactIff | src/positions.rs:196-209 | a commit leaves a row it wrote the fold of all moves on it exactly when it found the row, or the row is still absent or flat with nothing realized |
| PositionWrites.PositionsAreFoldsIff | src/handlers.rs:834-878 | in every run of bookings and transfers each position is at every point the fold of the fills and transfers committed on it exactly when no commit puts moves that started from an absent row over a row that holds anything |
| PositionWrites.BookingsAloneAreExact | src/order_engine.rs:166-190 | the engine's bookings, one at a time and without transfers, keep every position exact |
| PositionWrites.TransferLosesAFill | src/handlers.rs:834-878 | a run of one booker and a transfer beside it that loses a client's first fill |
| Transfers.TransferConservesIff | src/handlers.rs:834-863 | a transfer that commits on the rows it found leaves giver and takers holding between them what they held exactly when each split is given from a holding on the order's side |
| Transfers.GivesFromItsSideIff | src/positions.rs:196-209 | which is so exactly when the giver holds at least all but the last split of a bought block, or is short more than all but the last of a sold one |
| Transfers.WithinHoldingConserves | src/positions.rs:192-195 | giving no more than is held on the order's side creates nothing and takes exactly what is given off the giver |
| Transfers.TransferCreatesHoldings | src/handlers.rs:802-819 | a block of ten bought and fifteen sold since, allocated: five short become fifteen long |
| Transfers.LoneWriterCommits | src/positions.rs:180-209 | a booking or a transfer left to itself commits and leaves every position as its legs make it, one after the other |
| BookingPositions.BookingsAreWriters | src/execution.rs:192-212 | on the position table every run of booking transactions is a run of such writers |
| BookingPositions.ExactAlike | src/execution.rs:192-212 | and a position is the fold of the fills booked on it in the one exactly when it is in the other |
| BookingPositions.FilledOrderHasPosition | src/handlers.rs:834-878 | in every run an order with a filled quantity has its position's row, so a transfer finds and locks the row it takes from |
| Execution.ProcessExecutionReport | src/execution.rs:41-63 | the first attempt that is not outrun books the report where the order it reads is there, open and takes it, with exactly the event, row and position that follow from the row and the report, and skips it otherwise; five outrun attempts write nothing |
| Execution.BookedAtOnce | src/execution.rs:41-63 | with nobody else at work a report is booked exactly when its order takes it |
| Execution.EachConflictIsACommit | src/execution.rs:41-63 | each outrun attempt was outrun by a commit on its order: a report that gives up saw at least five |
| Execution.CleanCommitAddsOne | src/execution.rs:41-63 | the attempt that commits adds the report's one event to its order's log and nothing to any other |
| Outbox.Deliver | src/kafka_outbox.rs:215-226 | sends in order, stops at the first refusal, reports exactly the items whose records all went out, and sends only a proper part of the refused one |
| Outbox.TopicsGetTheirStreams | src/kafka_outbox.rs:157-203 | delivered whole, the orders topic gets every payload and the fills topic exactly the fills, keyed by order, and the positions topic the three numbers of each changed position that has a row, keyed by position; each in queue order |
| Outbox.OutboxDb.FetchBatch | src/kafka_outbox.rs:281-293 | at most a batch of the oldest rows, position changes only when no event is queued, empty only when both queues are |
| Outbox.OutboxDb.Ack | src/kafka_outbox.rs:129-135 | deletes exactly the events with the given ids, wherever they are in the queue, and says how many |
| Outbox.OutboxDb.AckPositions | src/kafka_outbox.rs:120-126 | deletes exactly the changes with the given ids, and says how many |
| Outbox.OutboxDb.DrainBatch | src/kafka_outbox.rs:280-308 | one batch: what left the queue is what was delivered, order events before position changes |
| Outbox.OutboxDb.Drain | src/kafka_outbox.rs:273-309 | terminates; published counts the rows removed, oldest first; a failure names the first row left; a sink that refuses nothing leaves both queues empty |
| OutboxOrders.StepKeepsInv | src/kafka_outbox.rs:280-308 | every step of appenders and bridge keeps an event's delivery behind that of its lower versions |
| OutboxOrders.FetchedBehind | src/kafka_outbox.rs:53-82 | a batch of the oldest rows holds, ahead of each event, every lower version still queued |
| OutboxOrders.BatchFillsUp | src/kafka_outbox.rs:53-82 | a batch takes the whole queue, or five hundred of it |
| OutboxOrders.SentInVersionOrder | src/kafka_outbox.rs:215-309 | in every run with failed sends, failed acks, rollbacks and restarts, a record is sent only after all records of all lower versions were accepted: first sends are gap-free and in version order |
| OutboxOrders.NothingIsLost | src/kafka_outbox.rs:297-302 | a committed event is queued or all its records were accepted |
| OutboxOrders.CommitKeepsOpen | src/event_store.rs:163-171 | the lock held to commit makes each open append the only one on its order, on top of all of it |
| OutboxOrders.GlobalOrderIsNotKept | src/event_bus.rs:5-11 | a run in which a lower global position of another order is sent later |
| OutboxOrders.QueueDrains | src/kafka_outbox.rs:273-309 | from any point of any run a bridge left alone with a broker that accepts empties the queue: every record of every queued event once, oldest first |
| OutboxOrders.LoneAppend | src/event_store.rs:148-219 | an append left to itself puts its events at the end of the log at positions that count on, and each of them in the queue |
| OutboxOrders.UndoneLeavesNothing | src/kafka_outbox.rs:297-305 | an append rolled back leaves the order free and nothing else behind but the positions it took; an ack that fails leaves the queue as it was |
| OutboxPositions.StepKeepsInv | src/kafka_outbox.rs:84-126 | every write, fetch, send, ack and restart keeps each live position covered |
| OutboxPositions.AckKeepsCovered | src/kafka_outbox.rs:120-126 | deleting delivered changes leaves a key with a change pending or its current row on the topic |
| OutboxPositions.BatchFillsUp | src/kafka_outbox.rs:84-118 | a batch takes the whole queue, or five hundred of it |
| OutboxPositions.TopicCatchesUp | src/kafka_outbox.rs:189-203 | at every state each live position has a queued change or the last record that reached the broker for its key is the row as it is |
| OutboxPositions.QueueDrains | src/kafka_outbox.rs:84-126 | from any point of any run a bridge left alone sends each queued change once, oldest first, as its row is, and then every live position is on the topic as it is |
| OutboxPositions.TwoWritesOneRow | src/kafka_outbox.rs:84-126 | a run of two writes of one position, drained: the later row, twice |
| OrderEngine.BookedOrder.ApplyExec | src/order_engine.rs:166-190 | books the planned reports one after the other, each against the state the last one left |
| OrderEngine.FillBooksAsReported | src/order_engine.rs:40-45 | a fill with its own execution books exactly what it says, or nothing |
| OrderEngine.AckRoutes | src/order_engine.rs:166-175 | an acknowledgement routes an order not yet routed and changes no other |
| OrderEngine.ClosesAtVenue | src/order_engine.rs:76-77 | a cancel at the venue books the one cancel and a reject the one reject with the venue's reason; what was filled is left alone |
| OrderEngine.IncrementTotals | src/recon_orders.rs:334-343 | the increment's price makes the totals agree exactly when the average did not move or a known total is topped by one worth more |
| OrderEngine.UpdateBooksMissing | src/order_engine.rs:46-74 | any update of a live order books all that is missing, or nothing when at most 1e-9 is, more than was ordered is claimed, or there is no price; its notional is the reported one exactly when prices agree |
| OrderEngine.BookedIsMostTaken | src/order_engine.rs:35-81 | over every sequence of cumulative and terminal states, repeated, stale, unpriced, overfilled and past any close, booked quantity is the most that was taken, and the order is closed exactly by a close or by being filled whole |
| OrderEngine.BookedTracksMostReported | src/order_engine.rs:35-81 | booked quantity is never above the most reported and never more than 1e-9 below a state that could be booked when it came |
| OrderEngine.BookedIsMaximumIff | src/recon_orders.rs:325-328 | over every such sequence booked equals the running maximum throughout exactly when each new maximum tops the last by more than 1e-9, claims no more than was ordered, is priced and comes before any close |
| OrderEngine.BookedNotionalIsTakenIff | src/recon_orders.rs:334-343 | over every such sequence booked quantity times average is throughout the notional of the state taken for it exactly when each state taken has the average of what was booked, if anything was, or is worth more than it with more than 1e-9 booked |
| OrderEngine.TakenIsFirstReported | src/recon_orders.rs:325-343 | where each new maximum is taken, what was taken is what first reached the maximum, quantity and notional |
| OrderEngine.ReplayBooksNothing | src/order_engine.rs:31-34 | after any run of events of any kind, any earlier cumulative or terminal state books nothing |
| OrderEngine.ClosedBooksNothing | src/execution.rs:105-109 | no event of any kind books on a closed order |
| OrderEngine.CloseBooksFillFirst | src/order_engine.rs:53-75 | a terminal cancel or reject books the missing fill, if it can be booked, before the close; one that completes the order closes it as filled |
| OrderEngine.CloseEndsAtMaximumIff | src/order_engine.rs:53-75 | a close ends at the larger of booked and executed exactly when nothing more was executed or the missing fill can be booked; nothing books after it |
| OrderEngine.UnpricedCloseLosesTheFill | src/domain/orders/aggregate.rs:224-253 | on every live order with a unit open, a cancel that reports one more unit and no average loses that unit |
| OrderEngine.CompletingCancelEndsFilled | src/order_engine.rs:53-75 | a cancel whose missing fill completes the order ends it filled, unbooked itself |
| OrderEngine.SliverIsNotBooked | src/recon_orders.rs:325-328 | a report within 1e-9 above the booked quantity leaves it below the maximum |
| OrderEngine.FallingNotionalIsLost | src/recon_orders.rs:334-343 | a new maximum worth less than what is booked is booked at the wrong notional |
| Reconcile.ReconcileSlots.Request | src/order_engine.rs:99-110 | a request spawns exactly when no task holds the slot, and otherwise raises its flag |
| Reconcile.ReconcileSlots.EndRun | src/order_engine.rs:112-123 | a finished run goes again exactly when its flag is up, and otherwise gives the slot up |
| Reconcile.ConsistentIff | src/order_engine.rs:95-162 | every step keeps one reconcile per connection and slots in step with tasks, except exactly the drop of a guard whose slot was retaken |
| Reconcile.SlotsTrackTasksIff | src/order_engine.rs:95-162 | over every schedule of requests, ends, panics and drops a connection has a slot exactly while it has a task, and one task at most, exactly when no drop takes a retaken slot |
| Reconcile.OneReconcileIff | src/order_engine.rs:95-162 | over every schedule a connection has one task at most exactly when no request finds its slot gone while a task is there |
| Reconcile.EveryRequestIsServed | src/order_engine.rs:102-123 | where no slot is retaken, every request is followed by a run that starts after it unless a panic ends it, and requests during a run fold into one rerun |
| Reconcile.EveryRequestIsServedIff | src/order_engine.rs:102-162 | over every schedule each request has a run to come until one starts after it, or a panic ends it, exactly when no drop takes a slot whose flag was raised since the last run started with no run about to |
| Reconcile.RunsAreAskedFor | src/order_engine.rs:102-123 | in every schedule runs made, about to be made and flagged are no more than the requests there were |
| Reconcile.LoneTaskEnds | src/order_engine.rs:111-124 | a task left to itself runs, runs once more exactly if its flag is up at the end, and goes with its slot, every request so far served |
| Reconcile.ConnectionsAreApart | src/order_engine.rs:96-98 | a step on one connection changes nothing of another |
| Reconcile.WindowBreaksIt | src/order_engine.rs:119-159 | a schedule with two reconciles of one connection running at once |
| Reconcile.DropLosesARequest | src/order_engine.rs:119-159 | a schedule whose last request has no run to come |
| MarkRouter.SwitchBudget | src/mark_router.rs:116-175 | each failover takes ten seconds off the clock and allows one promotion per better rank |
| MarkRouter.SwitchesAreBounded | src/mark_router.rs:116-175 | an instrument's owner changes fewer times than ten-second windows times ranks |
| MarkRouter.OwnerIsUnseated | src/mark_router.rs:116-175 | the owner's clock is its latest tick, and since it took over no better rank ticked and no other source ticked after ten seconds of its silence |
| MarkRouter.SwitchesAreJustified | src/mark_router.rs:139-173 | failovers come after ten seconds of silence and to no better rank, promotions always to a better one, and nothing else changes the owner |
| MarkRouter.AlwaysBestIff | src/mark_router.rs:139-173 | in every stream the owner is throughout the best source heard in the last ten seconds exactly when no failover goes past a better one |
| MarkRouter.TwoSourcesAreBest | src/mark_router.rs:139-173 | with two sources it always is |
| MarkRouter.MiddleSourceIsPassedOver | src/mark_router.rs:154-173 | a stream of three sources in which it is not |
| MarkRouter.UsableMid | src/mark_router.rs:177-189 | a quote is usable exactly when its sides do not cross, the bid is not negative and the point halfway between is above zero |
| MarkRouter.UnrankedIsLast | src/mark_router.rs:39-41 | a source the policy does not rank takes an instrument from a ranked one that is not silent only where that rank is beyond a thousand, and a ranked one below that takes it back |
| MarkRouter.Router.Accept | src/mark_router.rs:116-175 | takes a quote exactly when the one-instrument rule does |
| MarkRouter.Router.ClassOf | src/mark_router.rs:191-207 | the cached class, else the instrument's class, then cached; nothing, and nothing cached, when the lookup fails |
| MarkRouter.Router.Run | src/mark_router.rs:51-109 | whichever class lookups fail: owners as the rule has them of the quotes that were heard, price lane exactly the accepted ones in order, store each instrument's latest accepted quote |
| MarkRouter.AllHeard | src/mark_router.rs:191-207 | a database that always answers loses no quote |
| MarkRouter.InstrumentsAreApart | src/mark_router.rs:116-131 | interleaving other instruments changes no owner |
| MarkRouter.RoutedOwnerIsUnseated | src/mark_router.rs:71-102 | in every routed stream each owner is unseated since it took over, ranks being fixed by policy and class |
| MarketData.Diff | src/market_data.rs:45-50 | subscribes exactly what is held and was not sent, unsubscribes exactly what was sent and is not held |
| MarketData.MdHandle.Subscribe | crates/gateway/src/md/mod.rs:51-59 | adds exactly this owner's interests; what is watched is what somebody wants |
| MarketData.MdHandle.Unsubscribe | crates/gateway/src/md/mod.rs:63-71 | removes exactly this owner's interests |
| MarketData.MdHandle.UnsubscribeOwner | crates/gateway/src/md/mod.rs:74-80 | removes all of one owner's interests and nobody else's |
| MarketData.HeldLoop.Reread | src/market_data.rs:54-74 | after a good read the gateway holds exactly the held set for this owner, after a failed one what it held; other owners never notice |
| HeldSet.StepKeepsInv | src/market_data.rs:54-122 | every commit, publish, lag, read and drain keeps the gateway equal to what was sent, and a stale wait announced |
| HeldSet.WaitingMeansInStep | src/market_data.rs:93-122 | while the loop waits after a good read the gateway holds exactly the held set, unless a commit is unpublished or a change or lag unread |
| HeldSet.AlwaysInStepIff | src/market_data.rs:54-122 | over every run the loop never waits out of step with nothing but the timer to come exactly when no read fails that finds the sets apart with the news of it already drained |
| HeldSet.FailedReadLosesTheNews | src/market_data.rs:73-79 | a run with such a read |
| HeldSet.LoopCatchesUp | src/market_data.rs:54-79 | from any point of any run the loop left alone comes to wait with the gateway holding exactly the held set for it and every other owner's interests as they were |
| HeldSet.NewsWakesTheLoop | src/market_data.rs:102-122 | a position change or a lag on the lane wakes the waiting loop whatever comes before it, and one re-read answers all there is |
| HeldSet.CommitsAreHeard | src/execution.rs:242-254 | a commit that is published wakes the waiting loop for a read of what it left held |
| HeldSet.OtherEventsPassBy | src/market_data.rs:93-100 | any other order event leaves the loop waiting and everything as it was |
| HeldSet.LaneKeepsTheLast | src/event_bus.rs:25 | the lane holds the last 1024 of what was sent and has lagged exactly if there was more |
| LiveUpdates.Conflator.TakeFast | src/live_updates.rs:70-81 | gives the pending notices, a resync covering the others, and clears them |
| LiveUpdates.Conflator.TakeMarks | src/live_updates.rs:84-91 | gives the moved ids once, ascending, and clears them |
| LiveUpdates.Pump | src/live_updates.rs:110-153 | answers every input with what its window holds and sends those answers in order, cut off only where the socket ends |
| LiveUpdates.EveryEventIsCovered | src/live_updates.rs:56-81 | each order-lane event is covered by the first fast flush after it |
| LiveUpdates.EveryMarkIsCovered | src/live_updates.rs:84-91 | each mark is in the first marks notice after it, which carries only ids that moved since the one before, ascending |
| LiveUpdates.FlushesOnlyNews | src/live_updates.rs:70-91 | a flush sends something exactly when something is new |
| EventBus.Bus.PublishAppended | src/event_bus.rs:80-88 | one event per committed event with a position, in append order |
| EventBus.Bus.PublishTransfer | src/event_bus.rs:92-102 | announces every portfolio touched exactly once |
| EventBus.GiverComesFirst | src/event_bus.rs:92-102 | the giving portfolio first |
| Risk.FirstViolationIff | src/domain/orders/risk.rs:28-113 | a submit is rejected exactly when its scope is configured and it violates something of it, and then for the first thing it violates, the gate first |
| Risk.AcceptedIsWithin | src/risk_engine.rs:76-104 | an accepted order keeps its quantity and worth, and the projected quantity and its worth, within every limit that is set |
| Risk.LooserAcceptsMore | src/domain/orders/risk.rs:28-113 | loosening any limit, or the gate, refuses no order that was accepted |
| Risk.SmallerIsAccepted | src/domain/orders/risk.rs:58-113 | where an order adds to the exposure, any smaller one at its price is accepted with it |
| Risk.ReducingShrinksIff | src/domain/orders/risk.rs:28-56 | an order the reducing gate accepts shrinks the holding exactly when it is for less than twice the holding |
| Risk.ReducingCanGrow | src/domain/orders/risk.rs:40-46 | the gate lets through an order that leaves a larger holding |
| RiskProtocol.StepKeepsInv | src/risk_engine.rs:107-180 | every step keeps checks serial, and what each check read short by the fills it missed and over by what was cancelled since |
| RiskProtocol.BandIff | src/risk_engine.rs:154-179 | inside the band every step of submits, fills, cancels, transfers and limit edits stays inside exactly when it fits in the room there is |
| RiskProtocol.AlwaysInBandIff | src/risk_engine.rs:120-179 | over every run a scope that starts in its band is there throughout exactly when each step fits; a commit fits unless what its check missed exceeds the room it left |
| RiskProtocol.SubmitsAndFillsStayInBand | src/risk_engine.rs:120-179 | concurrent submits and fills, none of them between a check's two reads, never leave the band |
| RiskProtocol.LoneSubmit | src/risk_engine.rs:107-180 | from any point with no check under way, a submit left to itself is checked against what the scope holds and has open, and goes on the book exactly when it passes |
| RiskProtocol.AbortFreesTheRow | src/order_entry.rs:719-819 | a submit given up leaves the scope as it was and its row free for the next |
| RiskProtocol.WhatMovesTheScope | src/execution.rs:141-242 | a fill moves what it fills from open to held, a cancel takes away what is open, a transfer moves the holding alone |
| RiskProtocol.ChecksAreSerial | src/risk_engine.rs:121-137 | at most one check of a scope is under way |
| RiskProtocol.FillBetweenReadsBreaksTheBand | src/risk_engine.rs:154-179 | a run that ends at fifteen against a limit of ten |
| RiskProtocol.CancelBreaksTheBand | src/risk_engine.rs:154-179 | a run with a cancelled sale that ends at twenty against a limit of ten |
| AuthApi.Slugify | src/auth_api.rs:648-661 | the buffer ends as the text's words joined by hyphens |
| AuthApi.SlugForm | src/auth_api.rs:646-661 | slugs are lower-case runs joined by single hyphens, a text is its own slug exactly when it has that form, and slugging is idempotent |
| AuthApi.SlugGrows | src/auth_api.rs:646-661 | a slug is made word by word: a word after separators adds a hyphen, if anything comes before it, and itself in lower case; separators at an end add nothing |
| AuthApi.CandidatesDiffer | src/auth_api.rs:630-643 | candidates are pairwise distinct |
| AuthApi.TakenCandidates | src/auth_api.rs:632-643 | as many taken candidates, as many taken codes |
| AuthApi.GenerateUniqueCode | src/auth_api.rs:626-644 | terminates within one probe more than there are codes, at the first free code of base, base-2, base-3 |
| Provisioning.StepKeepsInv | src/auth_api.rs:56-132 | every step keeps subjects and codes unique and resolved logins right |
| Provisioning.LocalPartEnds | src/auth_api.rs:86-92 | the seed taken from an address is what comes before its first at-sign |
| Provisioning.SeedOf | src/auth_api.rs:86-92 | the seed is an address's part before its first at-sign where there is one, else the display name, else the subject |
| Provisioning.OnePrincipalPerSubject | src/auth_api.rs:95-131 | however logins interleave, all that resolve a subject name one principal and one code |
| Provisioning.OthersAreUntouched | src/auth_api.rs:101-116 | from any point of a run on, rows that are not active humans are never changed, and of those only the display name, rows created during the run included |
| Provisioning.OnlyInsertsCreate | src/auth_api.rs:79-116 | in every run a new row comes only from an administrator, or from the insert of a login that satisfies the claim, found its subject free, and takes the first free of the codes made from its seed |
| Provisioning.ClaimIsTheGate | src/auth_api.rs:68-84 | in every run a login that does not satisfy the claim gets no further than the gate, unless its own lookup found the row it resolved to; one that does is never rejected |
| Provisioning.LoneLogin | src/auth_api.rs:61-132 | from any point of any run a login with nothing else going on ends: resolved to the active human with its subject, or rejected for its claim, or refused for a row of another kind, or resolved to a new active human under the first free code |
| Provisioning.LateSubject | src/auth_api.rs:95-131 | an insert that finds its subject's row in the way and its code free looks again and ends with that row |
| Provisioning.CodeRaceIff | src/auth_api.rs:93-122 | in every run a login has failed on its code exactly when the code was free at its probe and taken at its insert, by its own subject or another |
| Provisioning.SecondInsertFails | src/auth_api.rs:95-122 | for any two subjects, the same one included, a run of two first logins in which the second fails so |
| Credentials.ViewTellsNoMore | src/credentials.rs:68-82 | the view depends on the clear fields and the tails alone |
| Credentials.WithheldStaysWithheld | src/credentials.rs:35-99 | only a field in the clear carries a value; a hint is at most the last four characters of a longer text |
| Credentials.ParseBroker | src/credentials_api.rs:134-163 | each field submitted or else kept, or the error of the first field that is neither |
| Credentials.FieldBecomes | src/credentials_api.rs:74-163 | each field of a form: read as its type, kept, defaulted, or the error it is, in terms of the text and of what is stored |
| Credentials.PortParses | src/credentials_api.rs:103-111 | a port prints and parses back exactly up to 65535 |
| Credentials.PortIsReadIff | src/credentials_api.rs:103-111 | a text is read as a port exactly when it writes a number up to 65535, after zeros or a plus sign |
| Credentials.FieldRoundTrip | src/credentials_api.rs:92-128 | a field shown and sent back merges to what was stored exactly when that is of its type |
| Credentials.RoundTripIff | src/credentials_api.rs:130-163 | submitting the redacted view back unchanged gives the same credential up to flag defaults exactly when every field is stored as its type |
| Credentials.EveryConnectorRoundTrips | src/credentials.rs:62-82 | so for each of the six connectors' tables, which agree and are found by code and kind |
| Credentials.WhatIsAskedAndShown | src/credentials.rs:62-82 | what each of the six connectors asks for, of which type, and what of it is shown |
| Credentials.SecretsDoNotShow | src/credentials.rs:68-82 | credentials that agree on host, port, comp ids, flag and the tail of a long key look alike |
| Credentials.FieldIsLastSubmitted | src/credentials_api.rs:45-54 | after any run of successful edits each field is its last non-empty submission, else what was stored, else a flag's default |

## Left out

- DecideKeepsSound: over the commands code paths issue; suspend, release, replace and expire are in Lifecycle, and no transaction of Booking issues them. A limit order's price is not a column of the model, so the submit check on it is left out.
- ClosedIsFinal: stated per step from any consistent state, and so for every state a run reaches; the columns no decision reads (client id, account, limit price, external id) are not modelled.
- AnnouncedOnce: at most once and only what committed; nothing orders two calls' publishes against each other.
- TransferLegs: a transfer's limit to what is still unallocated, and its checks before the transaction, are not modelled.
- The boot-time rebuild of an empty position table (src/positions.rs:211-260).
- StaleFirstFillLosesAFill: the engine books one report at a time, so one process does not make this run; TransferLosesAFill is the run it can make.
- The outage log, the bridge's timers and retry pauses: logging and waiting.
- Drain: no insert, ack failure or database error comes between its statements; those are in OutboxOrders and OutboxPositions.
- Two bridges at once: the outbox results are for the one bridge a process runs.
- UpdateBooksMissing: between reading the booked state and applying the reports no other writer books on the order, and a read of the booked state that fails, which books nothing, is left out; execution ids, which no decision reads, are fixed strings.
- Router.Run: log lines and the marks' wall-clock stamps are not modelled.
- WaitingMeansInStep: a change nobody announces, such as an instrument's status, counts as a commit that is never published; the once-a-minute timer covers it.
- Pump: which of several ready inputs the select takes is any order of the input stream; keep-alive and the upgrade check are one branch each.
- AlwaysInBandIff: the scope of one portfolio and instrument; strategy portfolios use a different check.
- GenerateUniqueCode: the set of taken codes is fixed while it probes; Provisioning probes it as it changes.
- CodeRaceIff: an insert meets the table's unique indexes in the order they are declared, which is the order PostgreSQL checks them in; one that waits for another's uncommitted row is a step after that commit.
- Provisioning with admin edits to existing rows: creations are included, edits are not.
- ParseBroker: field names, codes and kinds are enumerations with a case for anything else; the feed credential has one hidden field.
- HTTP handlers, sessions, cryptography, connector protocols, symbology and rounding of floats.
