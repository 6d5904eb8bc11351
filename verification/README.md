# Verified model of the repair-shop backend

The backend runs a repair shop: budgets become service orders, orders compete for stock, work is executed against
reservations and withdrawals, invoices are paid and orders delivered. Around that stand rotating refresh sessions, two
in-memory limiters, an audit trail with duration reports, and a hand-written OTLP encoder. This project models those
parts in Dafny and proves what they keep.

`dafny verify dfyconfig.toml` checks everything.

## How it is built

* **One state, one step per service call.** `Schema` holds the tables; `Workshop` has one pure step per service call and
  the transition system over them (`Call`, `Next`, `Run`). A call that raises leaves the tables as they were, because
  the session commits only at its end. Tables are sequences and a row's id is its index; rows are never deleted.
* **The code's own form.** `InventoryService`, `ExecutionService`, `BudgetService`, `OrderEntity`, `History`, `Billing`,
  `Sessions`, `RateLimit`, `Lockout` and `Protobuf` hold classes and loops that change state as the source does, each
  proved equal to the step it implements. What the source promises is proved about the steps.
* **Allocation.** `Greedy` and `AgeQueue` are the pure first-come first-served rule; `Reservations`, `Purchases` and
  `Inventory` carry it to the rows; `Fairness` states what a reconcile gives to whom.
* **Runs.** `Lifecycle`, `Safety`, `Stock`, `Statuses`, `Execution`, `Finishing`, `Families`, `Decisions`, `RowLives` and
  `Deliveries` prove invariants over every call and every run of the whole system.
* **Single calls.** `Decisions`, `Outcomes`, `Execution` and `Deliveries` say for each call exactly when it goes through,
  what it changes and why it is refused, in terms of statuses, quantities and rows rather than of the steps' own helpers.
* **The states that fail.** `Witnesses` holds literal runs.
* **The rest.** `Money` and `Text` (float sums, cents, stripping), `OrderEntity` and `History` (audit trail and time reports), `Sessions` and `Client` (token families and
  the browser that refreshes them), `RateLimit` and `Lockout`, `Protobuf`, `Utf8` and `Canary` (the codec).

## What the proofs found

Each failure is shown on a run from the empty tables (`Witnesses`) and bounded by the exact condition under which it happens.

* **An executing order can be stranded.** Reconciling it, receiving goods for one of its requests, or sending a revision
  of its budget releases its reservations (src/application/services/inventory_service.py:64-72,
  src/application/services/budget_approval_service.py:61-64). If anything remains to be taken out, the order can never be
  finished by any run of calls: `Witnesses.ReconciledWhileExecuting`, `Finishing.StrandedByCallIff`,
  `Finishing.CanFinishIffIntact`.
* **Sending a revision of a ready order makes its status wrong.** The reservations go, "Aguardando início" stays:
  `Witnesses.RevisionSentWhileReady`; `Statuses.EveryCallExactIff` gives the exact condition, together with the override
  to a wrong waiting status.
* **Only a downward stock correction can oversell.** `Witnesses.CorrectedBelowReserved`; `Stock.EveryCallKeepsInStockIff`
  says exactly when it does.
* **A float total can make an order impossible to invoice.** Totals are float sums, and converting one to money refuses
  more than two decimals. Three units at 1.10 come to 3.3000000000000003, and the finished order gets no invoice:
  `Witnesses.RefusedForItsTotal`. So does a unit price of 10.999, which every earlier call accepts:
  `Witnesses.RefusedForItsPrice`. `Deliveries.InvoiceIff` is the exact condition; `Deliveries.InvoiceNeedsWholeCents` shows
  that the one-cent comparison of the total with the lines, by contrast, refuses nothing.
* **A reused request id erases an action from the audit trail.** The order changes, no row is written and no duration is
  reported: `Witnesses.SecondRequestLost`, `History.AllIsRecordedIff`, `History.ReusedRequestLeavesNoTrace`.
* **A dropped product can stay on order.** Sending a revision cancels the order's open requests; if the order, or another
  one in the queue of the product, is reconciled before the revision is approved, the request is reopened and then left:
  `Witnesses.DroppedProductStaysOnOrder`, `Fairness.DroppedProducts`.
* **No purchase request is ever "Pedido".** Four queries look for that status and no call sets it:
  `RowLives.EveryRunTells`.
* **Two branches never fire** from reachable states: appending the order to its own product queue
  (`Inventory.RequestedIsQueued`), and the failed stock decrement inside a fulfilment where nothing is oversold
  (`Stock.FulfillNeedsOnlyItsReservation`). The encoder's size error cannot occur either (`Canary.BuildSucceedsIff`).

Read from the source, and built into the model: a decision link presented a second time is answered, and the reconcile on
that path (src/application/services/budget_approval_service.py:133-144) is not followed by a commit, so the step leaves the
tables alone (`Decisions.UsedLinkAnswers`).

## Model

| member | source | states |
|---|---|---|
| `Greedy.ShareClosedForm` | src/application/services/inventory_service.py:107-117 | the loop that hands `min(required, remaining)` to one order after the other gives place k exactly what the demands ahead of it leave of the supply, up to its own demand |
| `Greedy.ShareTotal` | src/application/services/inventory_service.py:107-117 | the loop hands out the smaller of supply and total demand |
| `Greedy.ShortageBlocksTheRest` | src/application/services/inventory_service.py:107-117 | one place served short means nothing for any place behind it |
| `Greedy.ShareMonotone` | src/application/services/inventory_service.py:107-117 | more supply lowers no share |
| `Greedy.ShareOfPrefix` | src/application/services/inventory_service.py:107-117 | demands joining at the back change no share ahead of them |
| `AgeQueue.AgeOrderIsUnique` | src/infrastructure/persistence/inventory_repository.py:351-382 | the order by creation time and id leaves no choice: two age-ordered queues with the same members are equal |
| `AgeQueue.QueueFrame` | src/infrastructure/persistence/inventory_repository.py:351-382 | the queue of a product depends on who waits for it and on ages only |
| `AgeQueue.YoungestJoinsLast` | src/infrastructure/persistence/inventory_repository.py:351-382 | an order younger than all others joins the queue at its end and moves nobody |
| `Reservations.QtyIsFirst` | src/infrastructure/persistence/inventory_repository.py:42-57 | with at most one active reservation per order and product, the first row found carries all the order holds |
| `Reservations.SetReservationEffect` | src/application/services/inventory_service.py:118-136 | bringing one order to its share leaves one active row per key, every other sum unchanged, and does nothing when the share is held already |
| `Reservations.ReserveAllGives` | src/application/services/inventory_service.py:107-136 | after the loop each order of the queue holds its share |
| `Reservations.ReserveAllKeeps` | src/application/services/inventory_service.py:107-136 | the loop changes no sum over orders outside the queue and no other product |
| `Reservations.ReleaseEffect` | src/application/services/inventory_service.py:282-294 | a release leaves the order nothing outside the products kept and touches nobody else |
| `Reservations.ConsumeHeld` | src/infrastructure/persistence/execution_repository.py:175-197 | taking units out of a reservation lowers exactly the sums that count its order and product, by exactly those units |
| `Purchases.BackorderAllUnits` | src/application/services/inventory_service.py:253-280 | after the loop each order of the queue has exactly its missing units on order and no other key moved |
| `Purchases.SetBackorderEffect` | src/application/services/inventory_service.py:253-280 | cancelling, rewriting or opening one request keeps at most one open request per order and product |
| `Purchases.CancelAllUnits` | src/infrastructure/persistence/inventory_repository.py:187-204 | cancelling an order's pending requests leaves it nothing on order and every other order as it was |
| `Inventory.AllocateProductsSettle` | src/application/services/inventory_service.py:76-87 | products do not disturb each other: after all queues are served, each product is settled as of the start |
| `Inventory.RequestedIsQueued` | src/application/services/inventory_service.py:97-105 | an order being reconciled is always in the queue of each of its products already, so the branch that appends it never fires |
| `Inventory.ShortIsNotCovered` | src/application/services/inventory_service.py:143-176 | the shortage test over the lines is false exactly when the order holds everything it asks for |
| `Fairness.FirstComeFirstServed` | src/application/services/inventory_service.py:61-141 | after a reconcile, every order queued for one of the products holds exactly what it asks for or what the stock, less the units held outside the queue and less all demands ahead, leaves for it; reserved plus on order equals required |
| `Fairness.NothingLiesFree` | src/application/services/inventory_service.py:90-141 | after a reconcile, if any order queued for a product holds less than it asks for, nothing of that product in stock is unreserved |
| `Fairness.NobodyIsServedPastAShortage` | src/application/services/inventory_service.py:90-141 | fully served orders form a prefix: behind an order left short, everyone holds nothing |
| `Fairness.TotalAfterReconcile` | src/application/services/inventory_service.py:90-141 | total reserved after a reconcile is what was held outside the queue plus the smaller of total demand and what the stock leaves beside it; it fits in the stock exactly when the outside reservations do |
| `Fairness.ReservedWithinScope` | src/application/services/inventory_service.py:61-141 | a reconcile never leaves an order with more than it asks for |
| `Fairness.OthersKeepTheirs` | src/application/services/inventory_service.py:61-141 | orders outside the two waiting statuses, and products the order does not name, keep every unit reserved and on order |
| `Fairness.DroppedProducts` | src/application/services/inventory_service.py:282-294 | a product the order no longer names is released; the purchase request opened for it stays open |
| `Witnesses.DroppedProductStaysOnOrder` | src/application/services/inventory_service.py:282-294 | a run in which a revision drops a product after a reconcile reopened its purchase request ends with an order that asks for no product and has three units on order |
| `Fairness.ReconcileStatuses` | src/application/services/inventory_service.py:143-176 | after a reconcile the order and everyone whose reservation could have changed have the exact waiting status, and an exact status elsewhere stays exact |
| `Fairness.ReconcileIdempotent` | src/application/services/inventory_service.py:61-88 | reconciling twice is reconciling once, down to the last row |
| `Fairness.MoreStockNeverHurts` | src/application/services/inventory_service.py:90-141 | with more stock no order of the queue ends with less |
| `Fairness.YoungerOrderNeverHurts` | src/application/services/inventory_service.py:90-141 | with one more, youngest order no older order ends with less or more |
| `InventoryService.RequiredByProduct` | src/application/services/inventory_service.py:324-331 | the dictionary filled in the loop has exactly the products named, each with its summed quantity |
| `InventoryService.TurnIsGreedy` | src/application/services/inventory_service.py:107-117 | carrying `remaining` through the loop is the greedy rule at every turn |
| `InventoryService.Database.ReconcileBackorder` | src/application/services/inventory_service.py:253-280 | the lookup-and-branch code is the specified change of one request |
| `InventoryService.Database.Reserve` | src/application/services/inventory_service.py:118-136 | the lookup-and-branch code is the specified change of one reservation |
| `InventoryService.Database.ServeQueue` | src/application/services/inventory_service.py:107-141 | the loop over the queue leaves reservations and requests as specified, shares by the greedy rule |
| `InventoryService.Database.ReconcileProductQueue` | src/application/services/inventory_service.py:90-141 | queue, supply and loop together are the specified allocation of one product |
| `InventoryService.Database.RefreshQueueStatuses` | src/application/services/inventory_service.py:143-176 | the loop over candidates sets exactly the specified statuses and never attempts a move the workflow forbids |
| `InventoryService.Database.SetReservationStatus` | src/infrastructure/persistence/inventory_repository.py:384-405 | a waiting order is moved to the other waiting status and nothing else changes; a missing order and any other move are refused |
| `InventoryService.Database.ReconcileForServiceOrder` | src/application/services/inventory_service.py:61-88 | the service call is the specified step, including the missing order and the order that is not waiting |
| `InventoryService.Database.RegisterReceipt` | src/application/services/inventory_service.py:379-393 | the service call is the specified step, including unknown, invalid and closed requests |
| `Lifecycle.EveryCallStepsOrders` | src/domain/service_order/entity.py:73-121 | whatever is called, each order moves along at most two edges of the matrix (or between correctable statuses for the override), at most one order appears, and scope changes only while revisable |
| `Lifecycle.ScopeFrozenOnceBegun` | src/domain/service_order/entity.py:115-121 | in every run, once execution has begun lines, total, vehicle and budget never change and the order only goes forward |
| `OrderEntity.PerformLeavesATrace` | src/domain/service_order/entity.py:131-427 | every action appends at most one entry, from the old status to the new, with its stamp and a measured kind when the status changes; no entry, no change |
| `OrderEntity.EntryToExecution` | src/domain/service_order/entity.py:340-360 | execution is entered from "Aguardando início" only, and what has begun never goes back |
| `OrderEntity.MovesFollowTheTable` | src/domain/service_order/entity.py:73-110 | a move goes through exactly along one of the eleven edges, a named move exactly from its statuses, a start only with a mechanic; it changes the status alone and is logged under its own kind, without a reason |
| `OrderEntity.OtherActionsFollowTheTable` | src/domain/service_order/entity.py:250-288 | a revision is taken exactly before execution and logged as an approval exactly when one was awaited; an override exactly with a reason and between two different correctable statuses, its reason logged; a queue entry exactly while ready |
| `OrderEntity.AssignmentsAreLogged` | src/domain/service_order/entity.py:161-222 | the mechanic is recorded without surrounding blanks; a first one and a change are logged under their own kinds, a change with its reason, the same one again not at all |
| `OrderEntity.OrderCallsAreActions` | src/domain/service_order/entity.py:161-427 | each committed order call changes its row exactly as the entity's guarded method would |
| `OrderEntity.RevisingIsAnAction` | src/infrastructure/budget_approval.py:211-251 | applying an approved revision changes the row as the entity's method would |
| `OrderEntity.RefreshIsAnAction` | src/application/services/inventory_service.py:143-176 | no status set by a reconcile is one the entity would refuse |
| `OrderEntity.ServiceOrder.TransitionTo` | src/domain/service_order/entity.py:131-159 | the method moves along one edge and appends its entry, or refuses and changes nothing |
| `OrderEntity.ServiceOrder.AssignMechanic` | src/domain/service_order/entity.py:161-222 | the method's branches are the specified assignment; a refusal changes nothing |
| `OrderEntity.ServiceOrder.ApplyBudgetRevision` | src/domain/service_order/entity.py:254-265 | the method is the specified action; a refusal changes nothing |
| `OrderEntity.ServiceOrder.OverrideStatus` | src/domain/service_order/entity.py:384-411 | the method is the specified action; a refusal changes nothing |
| `OrderEntity.ServiceOrder.StartExecution` | src/domain/service_order/entity.py:340-360 | the method is the specified action; a refusal changes nothing |
| `Safety.EveryCallKeepsSound` | src/application/services/execution_service.py:100-151 | every service call keeps: one active reservation and one open request per key, rows that refer to rows, and for each order the quantities its phase allows |
| `Safety.EveryRunIsSound` | src/application/services/execution_service.py:100-303 | that invariant holds in every reachable state |
| `Safety.PendingMeansExecuting` | src/application/services/execution_service.py:262-303 | a pending withdrawal always belongs to an order in execution |
| `RowLives.EveryCallStepsRows` | src/infrastructure/persistence/inventory_repository.py:187-204 | in every call only a fulfilment uses a reservation up and only a receipt closes a request as received, its own; whatever else ends is released or cancelled, and what has ended never changes |
| `RowLives.EndedForGood` | src/infrastructure/persistence/inventory_repository.py:187-204 | a reservation that is no longer active and a request that is closed stay as they are over any run |
| `RowLives.EveryRunTells` | src/domain/inventory/entity.py:74-93 | in every reachable state a request is received exactly when it has a receipt, and has only one; a consumed reservation's product was taken out for its order; no request is ever in the status "Pedido" |
| `RowLives.ReceiptDoes` | src/application/services/inventory_service.py:379-393 | goods are received exactly for an open request in a positive quantity: the receipt is filed, the request closed, the stock raised by that quantity |
| `Outcomes.CorrectionDoes` | src/infrastructure/persistence/product_repository.py:70-88 | a correction goes through exactly when it leaves no less than nothing, and changes that product's stock alone |
| `Outcomes.ProductDoes` | src/domain/product/entity.py:18-71 | a product is added with any stock that is not negative, and nothing else changes |
| `Outcomes.PurchaseForOrderDoes` | src/application/services/inventory_service.py:333-371 | a purchase for an order adds to what is on order for it and changes no other quantity; it is refused exactly when nothing would be left on order, or product or order is missing |
| `Outcomes.PurchaseForStockDoes` | src/application/services/inventory_service.py:333-371 | a purchase for no order files a request of its own and puts nothing on order for any |
| `Outcomes.ReconcileElsewhere` | src/application/services/inventory_service.py:64-72 | reconciling an order that does not wait takes all it holds and has on order, whatever its status, and nothing from anyone else |
| `Outcomes.EveryRefusalSaysWhy` | src/infrastructure/budget_approval.py:188-209 | in every sound state a call is answered "not found" exactly when it names what does not exist, and "conflict" exactly when it would give a vehicle a second undelivered order, buys for an order that does not exist, or reuses a payment key for another payment |
| `Stock.EveryCallKeepsInStockIff` | src/infrastructure/persistence/product_repository.py:70-88 | for every call and product, active reservations stay within the stock if and only if the call is not a correction that leaves less than is reserved |
| `Witnesses.CorrectedBelowReserved` | src/infrastructure/persistence/product_repository.py:70-88 | a run reserves three of ten, writes off eight, and ends oversold |
| `Stock.NeverOversold` | src/application/services/inventory_service.py:107-136 | over every run whose downward corrections leave what is reserved, no product is ever reserved beyond its stock |
| `Stock.FulfillNeedsOnlyItsReservation` | src/application/services/execution_service.py:285-303 | where the bound holds the guarded stock decrement never fails: a withdrawal is fulfilled if and only if it is pending and its order holds enough |
| `Stock.EveryCallBalances` | src/infrastructure/persistence/execution_repository.py:127-142 | every call conserves each product: stock moves by receipts, fulfilled withdrawals and corrections only |
| `Stock.StockIsAccountedFor` | src/infrastructure/persistence/execution_repository.py:127-142 | over every run, stock equals what there was plus received minus taken out plus corrections |
| `Statuses.EveryCallExactIff` | src/application/services/inventory_service.py:143-176 | after any call every waiting order is "Aguardando início" exactly when fully covered, if and only if the call is neither sending a revision of a ready order with products nor an override to the wrong waiting status |
| `Statuses.EveryRunIsExact` | src/application/services/inventory_service.py:143-176 | in every run without those two calls, every state reached has exact statuses |
| `Statuses.SendExactIff` | src/application/services/budget_approval_service.py:61-64 | sending a revision keeps statuses exact if and only if the order is not ready to start or asks for no product |
| `Witnesses.RevisionSentWhileReady` | src/application/services/budget_approval_service.py:61-64 | a run that sends a revision of a ready order ends with a status that is not exact |
| `Statuses.ReadyMeansStartable` | src/application/services/execution_service.py:100-123 | where statuses are exact a start succeeds if and only if the order is "Aguardando início" and has a mechanic: the stock check never refuses |
| `Execution.EntersFullyReserved` | src/application/services/execution_service.py:100-123 | only a start puts an order into execution, and then each product is reserved in exactly the required quantity |
| `Execution.RequestIff` | src/domain/execution/entity.py:53-75 | a withdrawal is asked for exactly for an executing order, in a positive quantity, and within what the scope leaves after all that was asked before |
| `Execution.AnySplitGoesThrough` | src/application/services/execution_service.py:262-283 | any split of what is left into positive parts is accepted part by part, each part filed as its own pending withdrawal |
| `Execution.FinishIff` | src/domain/execution/entity.py:104-132 | an order can be finished if and only if it is in execution and each product was taken out in full |
| `Outcomes.AssignmentDoes` | src/domain/service_order/entity.py:161-222 | exactly when a mechanic can be named or changed, and what it does to the order: the first one on a new order sends it to diagnosis, nothing else moves |
| `Outcomes.StartDoes` | src/application/services/execution_service.py:100-123 | an order is started exactly when it is ready, has a mechanic and holds every product in full; only its status changes |
| `Outcomes.FulfilmentDoes` | src/application/services/execution_service.py:285-303 | a fulfilment takes its units out of the stock and out of its order's reservation, marks the withdrawal, and changes no other quantity |
| `Outcomes.FinishDoes` | src/application/services/execution_service.py:137-151 | a finished order holds nothing and no other order loses a unit |
| `Execution.ExecutionIsExact` | src/application/services/execution_service.py:125-151 | in every reachable state withdrawals of an executing order stay within its scope; a finished one has had exactly its scope taken out, nothing pending, nothing reserved |
| `Execution.ExecutingUnits` | src/application/services/execution_service.py:285-303 | while an order executes, reserved plus taken of each product changes only when a call releases the reservations |
| `Execution.OnlyFinishLeaves` | src/application/services/execution_service.py:137-151 | an order leaves execution by being finished and in no other way |
| `Finishing.IntactOrStranded` | src/application/services/execution_service.py:285-303 | an executing order holds, product by product, what is still to be taken, or else falls short of it |
| `Finishing.StrandedByCallIff` | src/application/services/inventory_service.py:64-72 | an executing order loses reservations it still needs if and only if it is reconciled, receives goods for one of its requests, or a revision of it is sent, while something remains to be taken |
| `Finishing.StrandedForever` | src/application/services/inventory_service.py:64-72 | such an order stays in execution and short in every later run whatsoever |
| `Witnesses.ReconciledWhileExecuting` | src/application/services/inventory_service.py:64-72 | a run that opens, staffs, starts and reconciles an order ends with it executing and holding nothing; no later run finishes it |
| `Finishing.IntactCanFinish` | src/application/services/execution_service.py:262-303 | an order that has lost nothing can be finished: a run of requests, fulfilments and a finish is constructed |
| `Finishing.CanFinishIffIntact` | src/application/services/execution_service.py:125-151 | some run finishes an executing order if and only if none of its reservations has been released early |
| `ExecutionService.Executor.Start` | src/application/services/execution_service.py:100-123 | the service method with its check over the lines is the specified step |
| `ExecutionService.Executor.RequestStockWithdrawal` | src/application/services/execution_service.py:262-283 | the service method with its sum over earlier withdrawals is the specified step |
| `ExecutionService.Executor.Fulfill` | src/application/services/execution_service.py:285-303 | the service method is the specified step, each refusal included |
| `ExecutionService.Executor.Finish` | src/application/services/execution_service.py:137-151 | the service method with its check over the lines is the specified step |
| `ExecutionService.Executor.FulfilledQuantity` | src/infrastructure/persistence/execution_repository.py:95-109 | the loop sums exactly the fulfilled units of the order and product |
| `ExecutionService.Executor.FullyReserved` | src/application/services/execution_service.py:100-123 | the loop finds a shortage exactly when the specification sees one |
| `ExecutionService.Executor.FullyTaken` | src/domain/execution/entity.py:104-132 | the loop accepts exactly when no product is untaken |
| `Withdrawals.NonePending` | src/domain/execution/entity.py:53-75 | all that was asked has been taken if and only if no withdrawal of that order and product is pending |
| `Revisions.FindOrderForBudget` | src/infrastructure/budget_approval.py:280-302 | the upward walk with a visited set ends on any data, cyclic or not, with the order of the first budget upwards that has one, or with none when no budget upwards does |
| `Revisions.RootBudgetId` | src/infrastructure/budget_approval.py:304-318 | the upward walk ends on any data, at a budget without a link or at the first one met twice; where links lead to older budgets that is the family's original |
| `Revisions.ListRevisionFamily` | src/infrastructure/persistence/budget_repository.py:75-112 | walk up then breadth-first down ends on any data, cycles included, with exactly the budgets connected to the start |
| `Revisions.SameFamilyFromEveryMember` | src/infrastructure/persistence/budget_repository.py:75-112 | every member of a family leads to the same family |
| `Revisions.FamilySharesRoot` | src/infrastructure/persistence/budget_repository.py:75-112 | in the data the services build, a family is exactly the budgets with the same root |
| `Revisions.TreeGrows` | src/application/services/budget_service.py:60-82 | adding a revision numbered above its whole family keeps numbers unique and growing along links |
| `Revisions.SearchFindsFamilyOrder` | src/infrastructure/budget_approval.py:280-302 | from any revision the search finds the order hanging on the family's root |
| `Families.RevisionKeepsTree` | src/application/services/budget_service.py:60-82 | a created revision joins its family with a number above all of it |
| `Families.NewOrderIsFree` | src/infrastructure/budget_approval.py:124-209 | a new order hangs on a family that had none and a vehicle without an undelivered order |
| `Families.EveryCallKeepsFamilies` | src/infrastructure/budget_approval.py:124-251 | every call keeps one order per family and one undelivered order per vehicle |
| `Families.EveryRunKeepsFamilies` | src/infrastructure/budget_approval.py:124-251 | in every reachable state: one order per family, on its root; one undelivered order per vehicle; unique growing revision numbers |
| `Families.RevisionsShareTheirOrder` | src/infrastructure/budget_approval.py:280-318 | in every reachable state all revisions of a family lead to the same order, the only one of the family |
| `Decisions.FreshDecisionIff` | src/application/services/budget_approval_service.py:128-169 | a customer's decision on an unused link goes through exactly when the link is alive, the budget is sent and the order can follow: an approval needs lines and a revisable order, or a vehicle free for a new one; a rejection needs the order, if any, to await approval |
| `Decisions.StaffApprovalIff` | src/application/services/budget_approval_service.py:108-126 | an approval by staff goes through exactly for a sent, undecided budget with lines whose order can follow, whatever became of the link |
| `Decisions.DecisionIsFiled` | src/domain/budget/entity.py:302-337 | a committed decision on an unused link leaves the budget used, with exactly the status decided, and every other budget as it was |
| `Decisions.UsedLinkAnswers` | src/application/services/budget_approval_service.py:132-145 | a link presented again is answered without any change for the same decision and refused for the other |
| `Decisions.EveryCallStepsBudgets` | src/domain/budget/entity.py:118-125 | every call takes each budget at most one move along its life, changes lines and totals of drafts only, uses a link up exactly by a decision, and clones revisions from approved budgets only |
| `Decisions.DecidedForGood` | src/domain/budget/entity.py:118-125 | a decided or superseded budget keeps status, lines and total in every later run |
| `Decisions.RejectedForGood` | src/application/services/budget_approval_service.py:128-169 | in every reachable state a rejected budget has not been and will never be approved, no revision was ever cloned from it, and its link is answered for a rejection and refused for an approval |
| `Decisions.ApprovalDoes` | src/infrastructure/budget_approval.py:211-251 | an approval gives the family's order the budget's scope, or opens an order on the family's root for the budget's vehicle; the order waits, and others move at most between the two waiting statuses |
| `Decisions.RejectionDoes` | src/infrastructure/budget_approval.py:253-262 | a rejection sends the family's order back to diagnosis, and it gives up all it holds and has on order; nobody else loses anything |
| `Decisions.SendingIff` | src/domain/budget/entity.py:277-297 | a budget can be sent exactly as a draft or again while its link is unused |
| `Decisions.SendingDoes` | src/application/services/budget_approval_service.py:53-79 | sending files the new expiry, moves the family's order from diagnosis to approval, and takes from it all it holds and has on order, whatever its status |
| `Decisions.DraftingDoes` | src/domain/budget/entity.py:270-275 | lines and total of a budget change exactly while it is a draft, and only to products that exist; a new budget is an empty draft with no family |
| `Decisions.RevisionDoes` | src/domain/budget/entity.py:346-383 | a revision is made exactly where the family has an approved member: an unsent copy of the highest approved one, numbered one above the highest of the family |
| `Decisions.OverrideDoes` | src/domain/service_order/entity.py:384-411 | the override needs a reason and two different correctable statuses; it sets the status, and out of "Aguardando aprovação" supersedes exactly the sent member of the family with the highest number |
| `BudgetService.Budgeting.ApprovedSource` | src/application/services/budget_service.py:60-72 | the scan of the family finds the approved member with the highest number |
| `BudgetService.Budgeting.HighestRevision` | src/application/services/budget_service.py:73-76 | the scan of the family finds its highest number |
| `BudgetService.Budgeting.CreateRevision` | src/application/services/budget_service.py:60-82 | the service method is the specified step |
| `BudgetService.Budgeting.ApplyApprovedRevision` | src/infrastructure/budget_approval.py:124-251 | opening or revising the order and reconciling it is the specified step, conflicts and refusals included |
| `BudgetService.Budgeting.Approve` | src/application/services/budget_approval_service.py:108-126 | the service method is the specified step |
| `BudgetService.Budgeting.Decide` | src/application/services/budget_approval_service.py:128-169 | the service method is the specified step for both decisions, a link used before included; a failure after the mark rolls the mark back |
| `BudgetService.Budgeting.Send` | src/application/services/budget_approval_service.py:53-100 | the service method is the specified step: reservations are released whatever the order's status |
| `Billing.SettleKeepsSound` | src/domain/billing/entity.py:69-108 | whatever is sent, payments stay positive with distinct keys and at most the amount in sum, the status says how far they go, and at most the one payment asked for is added |
| `Billing.SubmitKeepsSound` | src/api/routers/invoices.py:49-75 | whatever reaches the payments route, the invoice stays sound, keeps amount and payments, and gains at most the one payment sent |
| `Billing.RetryIsAnswered` | src/api/routers/invoices.py:49-75 | once a key is on an invoice, sending it again to the route, with any blanks around it, never changes the invoice; it is answered if and only if amount and means are the stored ones and the route accepts them |
| `Billing.RetryChangesNothing` | src/application/services/invoice_service.py:47-83 | the same of the service method alone, which no route hands a padded key: handed one, it refuses |
| `Billing.SubmitIff` | src/api/routers/invoices.py:49-75 | the route takes a payment exactly when amount and cleaned key are in bounds and either the key is on the invoice with the same amount and means, or it is new and the amount at most what is still open, the last cent included |
| `Billing.SubmitAdds` | src/domain/billing/entity.py:69-108 | an accepted payment under a new key is appended as sent, and the invoice becomes paid exactly when nothing is left; a repeated key leaves the invoice as it is |
| `Deliveries.PaymentIff` | src/application/services/invoice_service.py:47-83 | in a sound state a payment goes through exactly when amount and key are in bounds, the invoice exists, and it is a repetition of a payment under its key or a new one within the balance |
| `Deliveries.PaymentDoes` | src/application/services/invoice_service.py:143-155 | the payment that closes the balance delivers a finished order, no other payment delivers one, and a repetition changes nothing |
| `Deliveries.DeliveryIff` | src/application/services/invoice_service.py:109-121 | an order is delivered by hand exactly when it is finished and its invoice paid in full |
| `Billing.InvoiceEntity.GetTotalPaid` | src/domain/billing/entity.py:59-63 | the loop adds up the payments, or takes the amount of an old invoice paid without payment rows |
| `Billing.InvoiceEntity.Record` | src/domain/billing/entity.py:69-108 | the method is the specified rule; a refusal changes nothing |
| `Deliveries.EveryCallKeepsBilling` | src/application/services/invoice_service.py:47-155 | every call keeps every invoice sound and every delivered order paid in full |
| `Deliveries.EveryRunKeepsBilling` | src/application/services/invoice_service.py:109-155 | in every reachable state invoices are sound and an order is "Entregue" only with its invoice paid in full |
| `Money.AmountIsExact` | src/domain/billing/rules.py:9-18 | lines convert to cents if and only if every unit price is in whole cents, and then the amount is exactly their sum |
| `Money.ConvertsToItsCents` | src/domain/billing/entity.py:12-19 | an amount converts exactly when it is some number of cents, and to that number |
| `Money.FloatTotalIsClose` | src/domain/budget/entity.py:270-275 | whatever the roundings of prices, products and partial sums to doubles, the recorded total differs from the exact sum by at most eight units of relative rounding per line |
| `Money.CloseWithinACent` | src/domain/billing/rules.py:20-25 | where prices and such a total are in whole cents, and roundings cannot add up to two cents, the total is at most one cent off the lines |
| `Deliveries.EveryCallKeepsScopes` | src/application/services/budget_approval_service.py:182-186 | no call leaves an order without lines |
| `Deliveries.EveryRunKeepsCosts` | src/infrastructure/budget_approval.py:211-251 | in every run whose edits record their float sums, the totals of all budgets and orders stay that close to their lines |
| `Deliveries.InvoiceIff` | src/domain/billing/rules.py:20-38 | in any state an invoice is created if and only if the order is finished and has none, every line is priced, every price and the recorded total are in whole cents, and the total is at most one cent off the lines |
| `Deliveries.InvoiceIsForTheLines` | src/application/services/invoice_service.py:31-45 | the invoice created is unpaid, for this order, and for exactly the sum of its lines in cents; nothing else changes |
| `Deliveries.InvoiceNeedsWholeCents` | src/application/services/invoice_service.py:31-45 | in every such run, below the size at which roundings could add up to two cents, the one-cent comparison never refuses: finished, uninvoiced, priced and all in whole cents is necessary and sufficient |
| `Witnesses.RefusedForItsTotal` | src/domain/billing/entity.py:12-19 | a run ends in a finished order of three units at 1.10, uninvoiced, priced in whole cents, whose float total 3.3000000000000003 makes the invoice be refused |
| `Witnesses.RefusedForItsPrice` | src/domain/billing/entity.py:12-19 | a run with a unit price of 10.999 reaches a finished, uninvoiced, priced order, and the invoice is refused |
| `History.SaveOnlyAppends` | src/infrastructure/persistence/service_order_repository.py:245-350 | saving only appends rows taken from the order's history; all of that history is then on file; no request id ever stands on two rows |
| `History.KnownAreSkipped` | src/infrastructure/persistence/service_order_repository.py:281-295 | entries on file already leave no mark on the save |
| `History.ResavingAddsNothing` | src/infrastructure/persistence/service_order_repository.py:245-350 | saving an order as loaded adds no row and queues no event |
| `History.SavingTwiceIsSavingOnce` | src/infrastructure/persistence/service_order_repository.py:245-350 | saving the same object again adds no row and queues no event |
| `History.AllIsRecordedIff` | src/infrastructure/persistence/service_order_repository.py:281-295 | every new entry becomes a row if and only if no id, and no anonymous entry with the same text and time, repeats one on file or before it |
| `History.AppendedIff` | src/infrastructure/persistence/service_order_repository.py:281-295 | an entry with an id is appended exactly when no row carries that id, an anonymous one exactly when no anonymous row equals it in every field, its time included |
| `History.DifferentMomentsAreRecorded` | src/infrastructure/persistence/service_order_repository.py:352-367 | anonymous entries at times that no row and no other entry of the history has are all recorded: a move made again later leaves its own row |
| `History.ReusedRequestLeavesNoTrace` | src/infrastructure/persistence/service_order_repository.py:281-287 | an action under a request id already on file changes the order and leaves no row and no event: the trail then no longer ends at the order's status |
| `Witnesses.SecondRequestLost` | src/infrastructure/persistence/service_order_repository.py:281-287 | two requests under one id: the order ends awaiting approval while its trail ends in diagnosis |
| `History.EnteredWhenLastMoved` | src/infrastructure/persistence/service_order_repository.py:308-317 | on an unbroken trail the entry time found is that of the previous move, or the creation |
| `History.ReportedIff` | src/infrastructure/persistence/service_order_repository.py:318-345 | a move is reported exactly when it is of a measured kind and took no less than nothing and no more than ten years, to the millisecond |
| `History.ReportsTileTheLife` | src/infrastructure/observability/business_telemetry.py:93-114 | over any life without reused ids, with a clock that does not go back and no status beyond the cap, the trail is an unbroken walk to the present status and the reported milliseconds add up to the time from creation to last move, to within one per move |
| `History.OrderHistory.FindEntered` | src/infrastructure/persistence/service_order_repository.py:308-317 | the maximum over the moves is the specified entry time |
| `History.OrderHistory.SaveHistory` | src/infrastructure/persistence/service_order_repository.py:263-348 | the loop with its set of ids, set of keys and growing list of moves is the specified save |
| `Sessions.EveryRunKeepsChains` | src/infrastructure/auth/sessions.py:45-94 | in every state reached by any calls at any times, each family has one user, all but its last session are spent and linked to the next |
| `Sessions.OneLiveSessionPerFamily` | src/infrastructure/auth/sessions.py:45-94 | in every reachable state a family has one user and at most one unrevoked session, its last |
| `Sessions.LoginLives` | src/infrastructure/auth/sessions.py:45-60 | the session a login issues is of its user, in a family of its own, and active until exactly one lifetime later |
| `Sessions.RefreshLives` | src/infrastructure/auth/sessions.py:83-94 | the session a refresh issues is of the same user and family and active until exactly one lifetime later; the old one is spent and linked to it; no other changes |
| `Sessions.EveryCallStamps` | src/infrastructure/auth/sessions.py:45-125 | every call stamps what it revokes, and what it issues, with its own moment, and never touches what was revoked before |
| `Sessions.ExpiredIsRevokedAlone` | src/infrastructure/auth/sessions.py:77-81 | presenting a token that has only run out revokes that session and no other |
| `Sessions.ReplayKillsTheFamily` | src/api/routers/auth.py:88-106 | after a spent token is presented, no session of its family is active again after any later calls at any times |
| `Sessions.LogoutKillsTheFamily` | src/infrastructure/auth/sessions.py:106-125 | a logout with any token of a family ends that family the same way |
| `Sessions.RevokeEndsOne` | src/infrastructure/auth/sessions.py:96-104 | revoking one token ends its session at once and touches no other |
| `Sessions.OnlyTheLiveEndRotates` | src/infrastructure/auth/sessions.py:62-94 | a refresh succeeds for exactly the unrevoked, unexpired session, which is the last of its family |
| `Sessions.RefreshSessionService.RotateToken` | src/infrastructure/auth/sessions.py:62-94 | the method stamping and linking rows in place is the specified rotation |
| `Sessions.RefreshSessionService.RevokeWholeFamily` | src/infrastructure/auth/sessions.py:115-125 | the loop revokes exactly the family's unrevoked rows |
| `Sessions.RefreshSessionService.RefreshRoute` | src/api/routers/auth.py:88-120 | the route keeps the revocation when it fails, and revokes the new session of an inactive user |
| `Sessions.InactiveUserEndsTheFamily` | src/api/routers/auth.py:108-120 | a refresh for a user who is gone or disabled leaves the whole family dead |
| `Sessions.RefreshSessionService.LogoutRoute` | src/api/routers/auth.py:123-137 | the route is the specified logout: the whole family of the token presented is revoked |
| `Client.HonestClientStaysInStep` | frontend/src/app/service/auth.service.ts:23-37 | whatever the interleaving of 401s, server work, responses and calls of others, as long as the server's answers come less than a lifetime apart, the client with one shared refresh always holds its family's live session, good until a lifetime after its last answer |
| `Client.HonestClientIsNeverTakenForAReplay` | frontend/src/app/service/auth.service.ts:23-37 | no refresh such a client sends is ever taken for a replay |
| `Client.OneRound` | frontend/src/app/service/auth.service.ts:23-37 | a 401, its handling and its answer give the client a new session good for a whole lifetime; further 401s on the way change nothing |
| `Client.LoginStartsInStep` | frontend/src/app/service/auth.service.ts:15-21 | a login establishes that state |
| `Client.TwoFlightsKillTheFamily` | frontend/src/app/service/auth.service.ts:24-26 | two refreshes with the same cookie leave the family dead |
| `RateLimit.DropOldIsTail` | src/api/rate_limit.py:51-52 | popping from the left removes a prefix, none of it inside the window, and stops at the first timestamp inside |
| `RateLimit.SpreadBoundsEverySpan` | src/api/rate_limit.py:58-80 | if max_requests + 1 consecutive admissions always span the window, every half-open span of that length holds at most max_requests |
| `RateLimit.SlidingWindowBound` | src/api/rate_limit.py:58-80 | over every run at non-decreasing times, a key's recorded admissions number at most max_requests in every half-open span of the window, and the table stays within its bound |
| `RateLimit.OtherCallsOnlyPrune` | src/api/rate_limit.py:47-80 | calls that do not name a key, clean-up included, leave it exactly what its window leaves |
| `RateLimit.RejectedKeyFindsItsSlot` | src/api/rate_limit.py:58-80 | in every state of every run, a key that was rejected and calls again after the seconds it was told is let through, whatever other keys called in between; more than one second earlier it is rejected again |
| `RateLimit.WaitIsTheLongest` | src/api/rate_limit.py:72-77 | the answer is at least the wait of every rejected key |
| `RateLimit.AdmissionIsRecorded` | src/api/rate_limit.py:63-80 | a request that is let through is recorded under each of its keys, except those a full table has no entry for |
| `RateLimit.LetThroughIff` | src/api/rate_limit.py:58-80 | in every state of every run a request is let through exactly when each of its keys has fewer than max_requests recorded admissions inside the window |
| `RateLimit.UnrecordedOnlyWhenCrowded` | src/api/rate_limit.py:47-66 | a request let through is recorded under each key, unless the table is full of other keys every one of which has an admission inside the window: stale keys never crowd one out |
| `RateLimit.InMemoryRateLimitBackend.CleanupAll` | src/api/rate_limit.py:47-56 | the two loops prune every key and drop the empty ones |
| `RateLimit.InMemoryRateLimitBackend.EnforceAll` | src/api/rate_limit.py:58-80 | the loop over the keys is the specified call |
| `Lockout.EveryRunIsSound` | src/api/rate_limit.py:152-224 | in every run the table stays within max_buckets, stored attempts below max_attempts, and a key with a complete history has, inside the window, exactly its reported failures |
| `Lockout.LockedAtTheThreshold` | src/api/rate_limit.py:203-215 | a failure locks a key with a complete history if and only if it is the max_attempts-th since the last lock inside the window |
| `Lockout.LockOutlastsEverything` | src/api/rate_limit.py:156-215 | no sequence of failures, wait queries, clean-ups or successes on other keys removes or shortens a lock before its time |
| `Lockout.SuccessClears` | src/api/rate_limit.py:217-220 | a success forgets failures and lock of each of its keys, which then need not wait, and touches no other key |
| `Lockout.TurnedAwayOnlyByLocks` | src/api/rate_limit.py:167-189 | a failure goes unrecorded only when the table is full and every key in it is locked |
| `Lockout.EvictedIsOldest` | src/api/rate_limit.py:167-189 | a bucket the clean-up keeps is lost to another key's failure only when the table is full, the bucket unlocked, and none of the unlocked ones was seen earlier |
| `Lockout.CleanupKeeps` | src/api/rate_limit.py:152-165 | a clean-up keeps exactly the buckets locked, with an attempt inside the window, or seen in it, and of their attempts exactly those inside the window |
| `Lockout.RetryAfterIsTight` | src/api/rate_limit.py:191-201 | the answer is zero exactly when no key is locked; after that many seconds every lock seen has run out, and some lock seen lasts at least that many seconds less one |
| `Lockout.LoginRateLimiter.BucketForFailure` | src/api/rate_limit.py:167-189 | find, clean up, evict the oldest unlocked bucket or give up, as specified |
| `Lockout.LoginRateLimiter.RegisterFailure` | src/api/rate_limit.py:203-215 | the loop over the keys is the specified call, with some legal choice of victims |
| `Lockout.LoginRateLimiter.RegisterSuccess` | src/api/rate_limit.py:217-220 | the loop forgets exactly the keys named, locks included |
| `Lockout.LoginRateLimiter.WaitFor` | src/api/rate_limit.py:191-201 | the method is the specified query |
| `Lockout.LoginRateLimiter.CleanupAll` | src/api/rate_limit.py:156-165 | the two loops prune every bucket and drop the stale ones |
| `Protobuf.VarintRoundTrip` | tests/test_new_relic_canary.py:20-29 | every number reads back to itself wherever it stands and uses exactly its own bytes (Protocol Buffers Encoding, "Base 128 Varints") |
| `Protobuf.VarintIsMinimal` | scripts/observability/new_relic_canary.py:40-49 | the encoding never ends in an empty continuation |
| `Protobuf.VarintIsBase128` | scripts/observability/new_relic_canary.py:40-49 | the bytes are the base-128 digits of the number, lowest first, with the high bit set on all but the last |
| `Protobuf.EncodeVarint` | scripts/observability/new_relic_canary.py:40-49 | the loop writes the specified bytes and refuses exactly the negative numbers |
| `Protobuf.ReadVarint` | tests/test_new_relic_canary.py:20-29 | the loop reads what the specification reads, running out of data included |
| `Protobuf.FieldRoundTrip` | tests/test_new_relic_canary.py:32-48 | every encoded field reads back to itself wherever it stands ("Length-Delimited Records") |
| `Protobuf.MessageRoundTrip` | tests/test_new_relic_canary.py:32-48 | every sequence of fields reads back to itself |
| `Protobuf.EncodingIsInjective` | scripts/observability/new_relic_canary.py:52-75 | no two field sequences share an encoding |
| `Protobuf.FieldLayout` | scripts/observability/new_relic_canary.py:52-70 | a short field is one tag byte of eight times its number plus its wire type, its length if it has one, and its value |
| `Protobuf.ReadMessage` | tests/test_new_relic_canary.py:32-48 | the loop returns, for each field number, exactly its values in order |
| `Utf8.TextRoundTrip` | scripts/observability/new_relic_canary.py:57-58 | every text reads back from its UTF-8 bytes |
| `Utf8.KnownEncodings` | scripts/observability/new_relic_canary.py:57-58 | one character of each length has the bytes UTF-8 gives it (RFC 3629, section 3) |
| `Canary.LittleEndianRoundTrip` | scripts/observability/new_relic_canary.py:61-65 | every number that fits reads back from its fixed-width bytes |
| `Canary.LowestByteFirst` | scripts/observability/new_relic_canary.py:61-65 | the lowest byte comes first |
| `Canary.CanaryIsCompact` | scripts/observability/new_relic_canary.py:78-127 | the fixed texts of the request are short enough for the size bound |
| `Canary.BuildSucceedsIff` | scripts/observability/new_relic_canary.py:78-127 | a request is built if and only if the run id is valid and the timestamp positive and within 64 bits: the size error is unreachable |
| `Canary.KeyValueRoundTrip` | tests/test_new_relic_canary.py:71-76 | a key and value read back from their message |
| `Canary.RequestRoundTrip` | tests/test_new_relic_canary.py:90-125 | every request that is built decodes to exactly the run id and timestamp it was built from |
| `Canary.RequestSaysAll` | tests/test_new_relic_canary.py:90-125 | every request that is built reads back, from its bytes alone, as both resource attributes in order, scope, metric, timestamp, the value one and the run id it was built from |
| `Canary.BuildAnswers` | scripts/observability/new_relic_canary.py:78-127 | which request or which refusal is answered for every run id and timestamp, the allowed characters, lengths and range written out |
| `Canary.MetricTags` | scripts/observability/new_relic_canary.py:98-112 | point, gauge and metric carry the field numbers and wire types of the OTLP messages, tag byte by tag byte |
| `Canary.EnvelopeTags` | scripts/observability/new_relic_canary.py:113-124 | so do the scope, the resource and the request around them |
| `Canary.OneIsOne` | scripts/observability/new_relic_canary.py:68-70 | the bytes of the value are those of the double 1.0: sign 0, biased exponent 1023, fraction 0 |

## Left out

- HTTP routing, cookies, CSRF, schemas, logging, e-mail, PDF, event publishing and Redis: input and output around the modelled calls.
- Row locks and isolation: each service call is one atomic step; no two calls interleave within one.
- Floats: a price or total is the number its decimal text shows. How a sum is rounded is left open within the bound of `Money.Rounds` per operation, so a run carries the total an edit recorded; the compensated sum of newer interpreters is within the same bound. Infinities, subnormal numbers and amounts beyond the 28 digits of Decimal are not modelled.
- Deliveries.InvoiceNeedsWholeCents: says nothing of sums so large that float roundings could add up to two cents (at ten lines, some two million million in currency units); there `Deliveries.InvoiceIff` still gives the exact condition.
- Tokens, fingerprints and row ids are fresh indexes; signatures and hashing are not part of this model.
- The line edits of a draft budget are one step that leaves any lines whose products exist; `update_service_line` and the estimated delivery are left out.
- Customer, vehicle and catalogue existence checks, suppliers, product deletion, priorities and the queue-entry call are left out; of the product catalogue only adding a product with its stock is a step.
- Stripping removes the white space of Latin-1; other Unicode white space is not modelled.
- `create_reservation`, `_reserve_quantity` and `_reconcile_product` are not reached from any router, and the legacy `pay_invoice` is a wrapper: all left out.
- The integrated tables carry no audit rows; `OrderEntity` and `History` model the trail of one order, and `OrderEntity.OrderCallsAreActions` ties the two.
- Ordering of history rows when an order is loaded: `History.ResavingAddsNothing` holds for any order of them.
- History.ReportsTileTheLife: takes requests of one order one after another; two requests saving the same order at once are not modelled. Durations are cut to milliseconds exactly, where the source goes through a float, which can lose one more millisecond where the exact value is whole; the bound of one millisecond per move covers both.
- Lockout.LoginRateLimiter.BucketForFailure: and `RegisterFailure` leave open which of several equally old unlocked buckets is evicted; the source takes the first inserted.
- Lockout.LockedAtTheThreshold: says nothing of a key whose bucket was evicted, or whose failure was turned away by a full table, since its last lock or success.
- RateLimit: policies have max_requests of at least one (the source indexes an empty deque otherwise) and one backend serves one policy in a run.
- Protobuf.ReadMessage: a reader that raises on malformed data answers None.
- Client: one tab; responses arrive; `login` and `logout` clearing the pending refresh by hand are not events of the run, and the browser state is a value rather than an object.
- Domain objects for reservations, purchase requests, withdrawals and budgets are rows the services rewrite, not classes of their own.
- Catalogue, override, billing service and mechanic assignment are steps on values; their entities' methods are in `OrderEntity` and `Billing`.
