# SuperSBC: a verified model of the money path, routing and its counters

SuperSBC is a session border controller with prepaid billing. A call is authorised and admitted, a
reservation is taken from the customer's account, carriers are ordered and dialled, and at hangup the
reservation is returned, the call is charged, and the carriers' costs are posted. Around this sit a
reconciler, invoices and payments, a circuit breaker per carrier, packet captures of the SIP messages,
and a watchdog. This project models those parts in Dafny and proves what they promise over all inputs
and over whole runs. `dafny verify dfyconfig.toml` checks everything.

Conventions of the model:

- Money is an integer number of micro-units (six decimal places), exchange rates count 1e-8. Rounding
  follows the decimal library the service uses: nearest, ties away from zero.
- Every database transaction is one atomic step. A step that fails changes nothing.
- Time, random draws, rate-table rows and the health of gateways are parameters. A random draw is an
  unconstrained choice, so every statement holds for all of them; the share of draws that selects a
  candidate is counted exactly.
- Code that changes state is a class whose methods are proved against transaction functions or direct
  properties; runs are sequences of steps over the same functions.

| file | what it covers |
|---|---|
| `Decimal`, `Rating`, `Currency` | rounding, billed seconds, prices, reservation size, call limit, currency conversion |
| `Ledger`, `Books`, `Settlement`, `Audit`, `Prepaid` | the money transactions as steps, and what holds over every run of them |
| `Overlap`, `Debts`, `FailedAttempts`, `Examples` | how far open calls can overdraw an account, at once and over whole runs, what failed attempts cost, and runs from an empty database that show it |
| `Pricing` | what a setup reserves and what billing charges and pays, said of the rows alone |
| `Store`, `Reconciler` | the same transactions as they update rows, proved equal to the steps |
| `Trie`, `RateTable` | the digit trie on the heap, and rate lookup against the reference query |
| `Order`, `Draw`, `DialOrder`, `Routing` | dial order of carriers and endpoints, and the routing loop |
| `Admission`, `AdmissionStore` | concurrency and rate counters under every interleaving, and as commands |
| `Payments`, `Statements`, `Receivables`, `LedgerLimits`, `Invoicing` | payment allocation, statements, the invoice ledger and its row limits, the invoice book |
| `Breaker` | expiring counters against the attempt history |
| `Checksum`, `Capture` | frames rebuilt around SIP messages, checksums, TCP stream positions |
| `Watchdog` | alerts and recoveries over runs with maintenance windows |

## Where the code and its documentation disagree

The model follows the code. Each disagreement is a lemma with a concrete case and an exact condition.

- `docs/DECISIONS.md:33` (D-21) and `docs/BILLING.md:101-103` allow a call to cost one subsequent increment more
  than the money its limit was computed from, with the hangup a second late. The bound is stated for a hangup
  `late` seconds after the limit, as one increment less a second plus the late seconds at the rate, and half a
  micro-unit of rounding; `late` 1 is the documented whole increment, `late` 0 the bound for a punctual hangup. It
  holds for every call whose reserved minutes reach the shortest billed call (`Rating.OneIncrementOverrun`). For
  all money and all talk times it holds, at every `late`, exactly when the reserved minutes reach the shortest
  billed call, or cap and delay together stay below it, or one call fits: the shortest billed one from the least
  money that allows it (`Rating.OneIncrementOverrunIff`). With a minimum duration above the reserved minutes, money
  of 90 buys 90 seconds that cost 600 (`Rating.OverrunWitness`). Money whose limit is overestimated, which needs a
  rate of 2e16 micro-units a minute, is the next point and not part of this one.
- D-21 also says that `balance + allowed_credit` falls below zero by at most one increment. That is so for a call
  set up from all the money of its account (`Overlap.LoneCallOverrun`). When calls overlap it is so exactly when
  their prices at the limits exceed balance and credit by at most one increment; and available money, which also
  counts reservations, exactly when what the prices exceed the reservations by is at most one increment more than
  is available (`Overlap.OneIncrementDebtIff`). For any other floor see `Overlap.FundsIff`, `Overlap.OverdrawIff`
  and, once all calls have ended, `Overlap.AllEndedOverdrawIff`. Two setups and two hangups at their limits, from an
  empty database, end 300 below zero where an increment is 1 (`Overlap.OverlapOverdraws`). Over whole runs the debt
  never exceeds what the calls open after the account's last setup can cost beyond their reservations
  (`Debts.DebtBounded`).
- The call limit is meant to be the floor of an exact quotient. The quotient is rounded to sixteen
  places first, so the limit can be one second too long, only for rates of 2e16 micro-units a minute and more
  (`Rating.MaxCallSecondsIsLongest`, `Rating.OverestimateWitness`).
- Billing is meant to use the rate of the setup. A conversion factor that rounds to zero is stored as one, so
  the two differ exactly then, unless the deck rate is free (`Currency.SetupAndBillingAgree`). Such a call
  reserves nothing and is billed one to one (`Prepaid.VanishedFx`): used from the other side, a pair of three hundred
  million to one reserves 0 and bills a minute at 60 (`Examples.VanishedFxCosts`).
- `docs/BILLING.md:92` and `docs/DECISIONS.md:35` (D-23) say failed attempts cost nothing;
  `docs/DECISIONS.md:94` (D-62) supersedes them, and the code follows D-62. An unanswered call costs nothing
  exactly when no attempt is on a charging carrier with a known buy rate whose converted connect fee is
  positive (`FailedAttempts.UnansweredCallFreeIff`). A call nobody answered costs 7 in
  `Examples.FailedAttemptCosts`.
- The invoice ledger is meant to add up an account's invoices and payments. It reads the newest 500 invoices
  and the newest 1000 payments. Within both limits the totals are exact and not negative; beyond them they are
  off by exactly what is not listed (`Receivables.LedgerTotals`). One invoice paid by more than 1000 payments shows
  negative unallocated money (`LedgerLimits.ManyPayments`), and more than 500 open invoices show only 500
  (`LedgerLimits.ManyInvoices`).
- A reservation for a call id that already has a CDR breaks the books
  (`Settlement.ReserveKeepsInvIffFresh`, `Settlement.ReusedCallIdWitness`); setups are expected to use fresh ids.
- The comment on admission says rejected calls do not occupy a slot. Until their undo arrives they do,
  and another call can be refused while nobody holds a slot (`Admission.RefusedIff`, `Admission.RefusedWhileFree`).
- The watchdog's comments say that whatever is still broken when a maintenance window closes is new
  again. A problem already remembered at the same level before the window stays silent
  (`Watchdog.AfterWindowIff`, `Watchdog.StillBrokenStaysQuiet`).

## Model

| member | source | states |
|---|---|---|
| `Decimal.DivRound` | internal/rating/rating.go:59-67 | division to a number of places gives the nearest value, ties away from zero |
| `Decimal.NearestUnique` | internal/rating/rating.go:59-67 | nearest with that tie rule determines a single result |
| `Decimal.NearestMonotone` | internal/rating/rating.go:59-67 | rounding never reverses an order |
| `Decimal.RoundIsDivRound` | internal/rating/rating.go:59-67 | dropping places and dividing by the power of ten round alike |
| `Rating.BilledSeconds` | internal/rating/rating.go:33-54 | nothing is billed exactly for calls not answered or below the minimum duration |
| `Rating.BilledSecondsIsLeast` | internal/rating/rating.go:33-54 | a billed call pays for the shortest billable duration that covers it |
| `Rating.BilledSecondsOverrun` | internal/rating/rating.go:33-54 | the billed duration runs past the real one by less than the larger block |
| `Rating.BilledSecondsMonotone` | internal/rating/rating.go:33-54 | a longer call is never billed for less |
| `Rating.SecondsOverrunIff` | internal/rating/rating.go:33-54 | the billed seconds stay within one increment of the talked ones for all calls exactly when the initial block is short enough |
| `Rating.OneIncrementOverrun` | internal/callcontrol/pipeline.go:279-295 | an admitted call cut at its limit, or some seconds late, costs at most the money the limit came from and one subsequent increment, whenever the reservation covers the initial block |
| `Rating.OneIncrementOverrunIff` | internal/callcontrol/pipeline.go:279-295 | for every hangup delay, rate and cap: the bound holds for every amount of money and talk time exactly when the reservation covers the initial block, no call can reach it, or the worst call fits |
| `Rating.WorstCall` | internal/callcontrol/pipeline.go:279-295 | otherwise an admitted call that breaks the bound |
| `Rating.DelayDecides` | internal/rating/rating.go:85-109 | when the delay alone is billed, no call inside the initial block or on less than the fee costs more than the delay |
| `Rating.ShortCallReserved` | internal/rating/rating.go:77-80 | a call inside the reserved minutes or the initial block costs no more than the reservation |
| `Rating.LongCallOverrun` | internal/rating/rating.go:85-109 | a call past its initial block, cut at its limit, costs less than one increment more than the money |
| `Rating.LeastMoneyNeeded` | internal/rating/rating.go:85-109 | a limit of n seconds needs at least the money the exact condition names |
| `Rating.LeastMoneyReaches` | internal/rating/rating.go:85-109 | and that money is enough for it |
| `Rating.OverrunWitness` | internal/rating/rating.go:33-109 | money of 90 reserves nothing, buys 90 seconds and is charged 600 for them, more than a whole increment over, one increment being 1 |
| `Rating.AmountIsExact` | internal/rating/rating.go:59-67 | the two roundings equal one exact rounding of fee plus rate times seconds over sixty, for every rate and duration |
| `Rating.TwoRoundings` | internal/rating/rating.go:59-67 | remainders of sixtieths are too coarse for the first rounding to cross a tie of the second |
| `Rating.AmountMonotone` | internal/rating/rating.go:59-67 | the amount is never negative and grows with the billed seconds |
| `Rating.PriceMonotone` | internal/rating/rating.go:70-73 | a longer call never costs less |
| `Rating.PriceIsExact` | internal/rating/rating.go:70-73 | a call costs nothing, or fee and usage of the least billable duration that covers it, rounded once |
| `Rating.PriceUnique` | internal/rating/rating.go:70-73 | that determines the price |
| `Rating.ReserveIsExact` | internal/rating/rating.go:77-80 | the reservation is that price for the reserved minutes |
| `Rating.MaxCallSeconds` | internal/rating/rating.go:85-109 | the limit is never negative and within the cap |
| `Rating.RoundedSecondsIsFloor` | internal/rating/rating.go:99-108 | the rounded quotient has the true floor except when rounding reaches the next whole number |
| `Rating.OrdinaryRatesRoundDown` | internal/rating/rating.go:99-108 | no rate below 2e16 micro-units a minute meets that exception |
| `Rating.MaxCallSecondsIsLongest` | internal/rating/rating.go:85-109 | with money left after the fee the limit is the longest affordable call up to the cap, exactly when the quotient does not overestimate |
| `Rating.OverestimateWitness` | internal/rating/rating.go:85-109 | a storable rate for which the limit is one second too long |
| `Rating.OvershootBound` | internal/rating/rating.go:85-109 | a call cut at its limit costs at most the money, part of a block at the rate, and half a micro-unit |
| `Currency.Convert` | internal/callcontrol/pipeline.go:248-264 | converted money is the nearest micro-unit; factor one changes nothing |
| `Currency.InverseFxVanishes` | internal/tables/tables.go:269-300 | the inverse of a stored pair rounds to zero exactly above 2e8 |
| `Currency.SetupConverts` | internal/callcontrol/pipeline.go:248-264 | the setup's rate and fee are the nearest micro-units of the deck's times the factor, with the deck's increments |
| `Currency.BillingConverts` | internal/billing/billing.go:381-387 | billing's too, where a missing factor counts as one |
| `Currency.SetupAndBillingAgree` | internal/billing/billing.go:381-387 | billing rates with the setup's rate exactly when the factor is not zero or the deck rate is free |
| `Books.ReservationCovered` | internal/store/accounts.go:90-110 | with clean books an account's reserved money covers each of its open calls |
| `Books.ReleaseNeverClamps` | internal/store/accounts.go:90-110 | returning a reservation never meets the clamp at zero |
| `Books.ChargeKeepsInv` | internal/billing/billing.go:164-282 | closing a call with release, charge and costs keeps the books: balances, reserved money, open rows and the entries of each call |
| `Books.GiveBackKeepsInv` | internal/callcontrol/pipeline.go:902-950 | giving a reservation back keeps the books |
| `Settlement.ReserveReconcilesIff` | internal/callcontrol/pipeline.go:297-318 | after a reservation the reconcile report is clean exactly when the call had none open, or the amount is zero |
| `Settlement.ReserveKeepsInvIffFresh` | internal/callcontrol/pipeline.go:297-318 | a reservation keeps the books exactly when its call id is fresh |
| `Settlement.ReusedCallIdWitness` | internal/callcontrol/pipeline.go:297-318 | one id reserved twice leaves 120 reserved against an open call of 60 |
| `Settlement.SetupKeepsInv` | internal/callcontrol/pipeline.go:279-326 | every setup with a fresh id, refused or not, keeps the books |
| `Settlement.BillKeepsInv` | internal/billing/billing.go:76-284 | billing from any trigger keeps the books |
| `Settlement.OperatorKeepsInv` | internal/store/accounts.go:113-127 | operator postings keep the books |
| `Settlement.StepKeepsInv` | internal/store/accounts.go:53-168 | every kind of step keeps the books |
| `Settlement.ReachableInv` | internal/store/accounts.go:53-168 | over any interleaving of fresh setups and all other steps the books balance |
| `Settlement.ReconcileAlwaysOK` | internal/store/accounts.go:148-168 | from an empty database the reconcile report is clean for every account at all times |
| `Audit.StepExtends` | internal/store/accounts.go:113-127 | every step only appends ledger entries, and only for its own call |
| `Audit.SettledForever` | internal/billing/billing.go:77-95 | once a call is settled no later step changes its entries or the money on its CDR |
| `Audit.TriggerOnce` | internal/billing/billing.go:77-95 | a trigger either settles the call or changes nothing |
| `Audit.TriggersAfterSettlement` | internal/billing/billing.go:85-90 | any further triggers of a settled call leave the database as it is |
| `Audit.FirstTriggerDecides` | internal/billing/billing.go:77-95 | for any number and order of triggers the database is the one the first committing trigger leaves |
| `Audit.BillNeverFails` | internal/billing/billing.go:164-170 | after any run, rates being edited and deleted included, no call is stuck: its sell rate and its account exist when it is billed |
| `Audit.ReturnedExactlyOnce` | internal/billing/billing.go:224-282 | an open call is returned in full once and charged at most once, the charge being the first trigger's price |
| `Audit.RunningBalancesAlways` | internal/store/accounts.go:113-127 | in every reachable state each entry carries the balance right after it |
| `Audit.CostsPostedIff` | internal/billing/billing.go:236-261 | the cost entries of a call add up to its whole cost exactly when every carrier that is owed has an account |
| `Audit.ChargeConservesCosts` | internal/billing/billing.go:164-261 | billing keeps cost entries equal to CDR costs |
| `Audit.CostsConservedAlways` | internal/billing/billing.go:424-452 | over any run whose carriers have accounts, every settled call's cost entries sum to the cost on its CDR |
| `Prepaid.BillMovesAvailable` | internal/billing/billing.go:222-282 | billing moves the customer's available money by reservation minus price and nobody else's |
| `Prepaid.PriceWithinReservation` | internal/rating/rating.go:77-80 | a call within the reserved minutes at the setup's rate never costs more than it reserved |
| `Prepaid.SetupKeepsSolvent` | internal/callcontrol/pipeline.go:279-326 | a setup never makes available money negative and reserves enough for its minutes |
| `Prepaid.BillKeepsSolvent` | internal/billing/billing.go:164-282 | billing a call within its minutes never makes available money negative |
| `Prepaid.NeverOverdrawn` | internal/callcontrol/pipeline.go:279-326 | over any run of such calls, however they overlap, available money never drops below zero |
| `Prepaid.VanishedFx` | internal/billing/billing.go:381-387 | a call set up at a factor of zero reserves nothing and is billed at the deck rate |
| `Ledger.BuyRateIsLatest` | internal/billing/billing.go:454-461 | the buy rate is the one of the last attempt on the carrier that knows one, and none exactly when no attempt does |
| `Pricing.SetupExplained` | internal/callcontrol/pipeline.go:279-326 | a setup reserves the price of the reserved minutes at the converted rate exactly when the money seen and the money there cover it, and writes exactly those rows |
| `Pricing.SellPriceIsExact` | internal/billing/billing.go:164-174 | an answered call owes the price of its talk time at the sell rate, converted by what the CDR kept; another owes nothing |
| `Pricing.CarrierCostIsExact` | internal/billing/billing.go:175-195 | the answering carrier's cost is the price of the talk time at its last attempt's rate, in its own money, while the row exists |
| `Pricing.LastAttemptDecides` | internal/billing/billing.go:454-461 | the attempt recorded last on a carrier is the one that prices it |
| `Pricing.AttemptFeesAreConnectFees` | internal/billing/billing.go:424-452 | one converted connect fee per unanswered attempt on a charging carrier with a known fee, in order |
| `Pricing.FeesReachCarriers` | internal/billing/billing.go:249-261 | every carrier with an account is debited the sum of its fees |
| `Pricing.BillExplained` | internal/billing/billing.go:164-282 | billing settles the call at that price, cost and fees: the customer's row, every carrier's row and the CDR field by field, nothing else changing hands |
| `Pricing.GiveBackExplained` | internal/callcontrol/pipeline.go:902-950 | giving back returns the reservation and charges nothing |
| `Pricing.RejectExplained` | internal/callcontrol/pipeline.go:613-641 | a rejected call leaves a final CDR without money, and an existing CDR alone |
| `Pricing.OperatorExplained` | internal/httpapi/admin/customers.go:389-417 | top-ups and refunds of positive amounts and adjustments of any but zero are posted, anything else refused |
| `Overlap.OneBill` | internal/billing/billing.go:222-282 | ending one call moves its account by reservation minus price and leaves the other open calls as they are |
| `Overlap.AllWithinLimits` | internal/callcontrol/pipeline.go:279-295 | after all open calls ended within their limits the account has at least its money plus reservations minus prices at the limits, and exactly that when all talked to the limit |
| `Overlap.AllEndedOverdrawIff` | internal/callcontrol/pipeline.go:279-295 | for any number of open calls and any floor, no talk times within the limits leave available money below the floor exactly when the prices at the limits are within the money above it and the reservations |
| `Overlap.SomeWithinLimits` | internal/callcontrol/pipeline.go:279-295 | whichever calls have ended so far, in any order, available money fell by at most the excess at the limits, and balance and credit by at most the prices |
| `Overlap.OverdrawIff` | internal/callcontrol/pipeline.go:279-295 | available money is below a floor at no moment, whatever the order and talk times, exactly when the excess at the limits is within the money above it |
| `Overlap.FundsIff` | internal/callcontrol/pipeline.go:279-295 | the same for balance and credit, exactly when the prices at the limits are within the funds above the floor |
| `Overlap.OneIncrementDebtIff` | internal/callcontrol/pipeline.go:279-295 | balance and credit fall below zero by at most one increment exactly when the prices at the limits exceed them by at most one, and likewise available money with the excess |
| `Overlap.LoneCallOverrun` | internal/callcontrol/pipeline.go:279-326 | a call set up from all the account's money takes available money, and balance and credit, below zero by at most one subsequent increment |
| `Overlap.OverlapOverdraws` | internal/callcontrol/pipeline.go:279-326 | a run of two setups and two hangups at their own limits from an empty database ends 300 below zero, more than an increment |
| `Debts.SetupBounded` | internal/callcontrol/pipeline.go:279-326 | a successful setup leaves its account with no debt, so the debt from then on is bounded by what its open calls can cost beyond their reservations |
| `Debts.BillBounded` | internal/billing/billing.go:222-282 | a hangup within its limit adds no more debt than its call could cost beyond its reservation |
| `Debts.DebtBounded` | internal/callcontrol/pipeline.go:279-326 | over any run of fresh setups, hangups within their limits and other steps the debt is at most the excess of the calls open after the last setup, less that of those still open |
| `Debts.DebtAlwaysBounded` | internal/callcontrol/pipeline.go:279-326 | from an empty database neither available money nor balance and credit fall further below zero |
| `FailedAttempts.NoFeesIff` | internal/billing/billing.go:424-452 | the fees of a call are nothing exactly when none of its attempts is unanswered on a charging carrier with a positive fee |
| `FailedAttempts.CostOfCall` | internal/billing/billing.go:164-261 | the cost on the CDR is the answering carrier's cost plus the fees |
| `FailedAttempts.UnansweredCallFreeIff` | internal/billing/billing.go:424-452 | an unanswered call costs nothing exactly when none of its attempts costs a fee |
| `Examples.FailedAttemptCosts` | internal/billing/billing.go:424-452 | a run from an empty database in which a call nobody answered costs 7 |
| `Examples.VanishedFxCosts` | internal/tables/tables.go:269-300 | a stored pair whose inverse is zero: the setup reserves 0 and a minute is billed at 60 |
| `Store.MoneyStore.Post` | internal/store/accounts.go:113-127 | the row updates of a posting are the posting step |
| `Store.MoneyStore.Reserve` | internal/store/accounts.go:53-73 | the conditional update succeeds exactly when the account is positive and covers the amount |
| `Store.MoneyStore.Release` | internal/store/accounts.go:90-110 | the row updates of a release are the release step |
| `Store.MoneyStore.SetUp` | internal/callcontrol/pipeline.go:279-326 | a setup inserts CDR and active call and reserves, or only records the refusal |
| `Store.MoneyStore.FindBuyRate` | internal/billing/billing.go:454-465 | the loop finds the rate of the last attempt on the carrier that knows one |
| `Store.MoneyStore.FailedAttemptFees` | internal/billing/billing.go:424-452 | the loop collects one fee per chargeable failed attempt |
| `Store.MoneyStore.Charge` | internal/billing/billing.go:164-282 | release, charge, cost entries and the final CDR are the charge step, or everything is rolled back |
| `Store.MoneyStore.Bill` | internal/billing/billing.go:70-284 | billing is the billing step, with its no-CDR and already-billed outcomes |
| `Store.MoneyStore.ReleaseReservation` | internal/callcontrol/pipeline.go:902-950 | releasing is the give-back step, and a missing CDR is reported |
| `Store.MoneyStore.ReconcileOnce` | internal/billing/reconcile.go:51-96 | one pass is the run that bills each stale call without a live channel, and counts them |
| `Reconciler.PassReleasesOrphans` | internal/billing/reconcile.go:51-96 | a pass closes exactly the orphans, charges no customer, and keeps the books |
| `Reconciler.OrphanClosed` | internal/billing/reconcile.go:84-94 | billing an orphan returns its reservation and leaves balances and credit alone |
| `Reconciler.PassCountsOrphans` | internal/billing/reconcile.go:51-96 | the count is the number of stale calls without a live channel |
| `Trie.DigitTrie.constructor` | internal/prefix/trie.go:18 | a new trie represents nothing |
| `Trie.DigitTrie.Insert` | internal/prefix/trie.go:22-44 | inserting sets the prefix to the last value; a non-digit is refused and changes nothing represented |
| `Trie.DigitTrie.Match` | internal/prefix/trie.go:48-75 | the answer is the longest stored prefix of the number, with its value |
| `Trie.DigitTrie.Len` | internal/prefix/trie.go:78 | the length counts the distinct prefixes |
| `RateTable.BuildTable` | internal/tables/tables.go:93-116 | the trie holds exactly the effective rates |
| `RateTable.LongestPrefixRowUnique` | internal/store/rates.go:50-58 | the reference query has one answer |
| `RateTable.HandsOver` | internal/store/rates.go:40-58 | a rate that ends when the next starts leaves neither a gap nor an overlap |
| `RateTable.LongestKeyIsReference` | internal/store/rates.go:40-58 | the longest key among the latest rates per prefix is the reference query's row |
| `RateTable.MatchRate` | internal/tables/tables.go:67-78 | matching through the trie gives the reference query's row for every digit deck and number |
| `Order.BeforeIsStrict` | internal/callcontrol/order.go:79-101 | the sort order is strict, and ties agree in quality, rate, priority or share as far as the modes use them |
| `Order.StableSortSorts` | internal/callcontrol/order.go:79-101 | candidates are sorted by quality, rate and priority, ties in their old order |
| `Draw.Choose` | internal/callcontrol/order.go:104-129 | the loop stops on the candidate in whose interval the pick falls |
| `Draw.DrawsAreProportional` | internal/callcontrol/order.go:104-161 | exactly weight of the possible picks choose each candidate |
| `DialOrder.DrawFrom` | internal/callcontrol/order.go:104-129 | a shuffle draw picks by weight, at least one each |
| `DialOrder.ShuffleIsProportional` | internal/callcontrol/order.go:104-129 | exactly as many picks choose a member of the remaining group as it weighs, at least one |
| `DialOrder.PercentIsProportional` | internal/callcontrol/order.go:132-161 | exactly as many picks choose a carrier as its share |
| `DialOrder.TurnsPermute` | internal/callcontrol/order.go:104-129 | whatever the picks, drawn and remaining members are the group |
| `DialOrder.WeightedShuffle` | internal/callcontrol/order.go:104-129 | each place is taken by the member on which its pick falls among the weights still there; the members stay, and so does their order when there is no randomness |
| `DialOrder.KeyedOrder` | internal/callcontrol/order.go:79-101 | the stable order by key with each longest run of equal keys shuffled by weighted draws, every member staying |
| `DialOrder.PartArranged` | internal/callcontrol/order.go:49-63 | moving degraded candidates back keeps the arrangement inside both parts |
| `DialOrder.PercentOrder` | internal/callcontrol/order.go:132-161 | the first is drawn by share, the others follow by descending share |
| `DialOrder.ZeroShareNeverDrawn` | internal/callcontrol/order.go:132-161 | a carrier without a share is never drawn while some share is positive |
| `DialOrder.OrderCandidates` | internal/callcontrol/order.go:38-64 | a permutation in every mode that comes from the recorded draws, runs of equal keys shuffled by weight or one carrier drawn by share, with degraded ones moved back; inside each part only orders the mode allows; in percent mode a healthy drawn carrier leads, and it has a share when any has |
| `Routing.UsableEndpoints` | internal/callcontrol/endpoints.go:130-167 | the head of an arrangement of all usable endpoints, cut to the limit, empty exactly when none is usable; by priority in failover mode with weighted draws inside a priority, else by descending share behind a drawn one that has weight when any has |
| `Routing.JudgeOne` | internal/callcontrol/pipeline.go:391-456 | the verdict on a carrier and the first reason that applies |
| `Routing.JudgeAll` | internal/callcontrol/pipeline.go:391-456 | routing fails exactly when some carrier gets as far as a deck that cannot be read; otherwise the loop lists skipped and kept carriers in route order |
| `Routing.VerdictIff` | internal/callcontrol/pipeline.go:391-456 | a carrier is kept exactly when it is reachable, inside its window, not full, has a rate and no policy forbids its loss; routing fails exactly on an unreadable deck of one that got so far |
| `Routing.ReasonIff` | internal/callcontrol/pipeline.go:391-456 | each skip reason exactly when it is the first to apply |
| `Routing.KeptKnown` | internal/callcontrol/pipeline.go:391-503 | a kept carrier is one of the route, with its own buy rate and only endpoints that can be dialled |
| `Routing.OrderOfCarriers` | internal/callcontrol/pipeline.go:504-511 | the order of the candidates is the order of the carriers' rows: degraded last, then quality, buy rate and route priority, or route weight, as the modes ask |
| `Routing.PlacesOfChoices` | internal/callcontrol/pipeline.go:512-526 | the entries of the dial list follow the order carrier by carrier |
| `Routing.NobodyLost` | internal/callcontrol/pipeline.go:391-503 | each route carrier is skipped once or kept once |
| `Routing.NoLossKept` | internal/callcontrol/pipeline.go:446-457 | under lossless or blocked negative margin no kept carrier costs more than the sell rate |
| `Routing.OneBlockEach` | internal/callcontrol/pipeline.go:512-526 | each kept carrier owns one contiguous block of the dial list, its endpoints in their order |
| `Routing.NoLossDialled` | internal/callcontrol/pipeline.go:446-526 | nor does any dialled entry |
| `Routing.RouteCall` | internal/callcontrol/pipeline.go:354-527 | the whole routing: nobody lost; no entry of a degraded carrier before one of a healthy carrier, inside each part the cheapest or the best first as the modes ask, route priorities and weights otherwise, down to every weighted draw; only endpoints that can be dialled; numbers 1 to n without gaps; no forbidden loss |
| `Admission.AskKeepsConcurrent` | internal/cache/admission.go:43-64 | counting in keeps counters equal to holders plus pending refusals and holders within the limit |
| `Admission.AskKeepsCps` | internal/cache/admission.go:43-64 | counting in keeps the per-second counters exact and admissions within the limit |
| `Admission.UndoKeepsInv` | internal/cache/admission.go:60-62 | undoing a refused count keeps the counters exact |
| `Admission.DropKeepsInv` | internal/cache/admission.go:67-73 | a leaving holder is still counted, so the counter cannot go below zero |
| `Admission.StepKeepsInv` | internal/callcontrol/pipeline.go:166-208 | every command of every caller keeps the invariant |
| `Admission.AdmissionSafe` | internal/cache/admission.go:43-73 | over every interleaving: counters are holders plus pending refusals, no limit is exceeded, no second admits too many, the reset never fires |
| `Admission.NoSlotLeaks` | internal/callcontrol/pipeline.go:166-208 | when every caller is gone all counters are zero |
| `Admission.CanLeave` | internal/callcontrol/pipeline.go:166-208 | in every reachable state every caller can give back all it holds by its own commands |
| `Admission.EverySlotComesBack` | internal/callcontrol/pipeline.go:166-208 | so from every reachable state all counters can come down to zero |
| `Admission.RefusedIff` | internal/cache/admission.go:54-62 | a call is refused exactly when holders and pending refusals fill the concurrency limit or the calls counted in the second fill the rate limit |
| `Admission.BothSlots` | internal/callcontrol/pipeline.go:166-199 | a customer's call that asks for its own slot and the node's gets both exactly when both have room |
| `Admission.RefusedWhileFree` | internal/cache/admission.go:39-64 | a reachable state in which nobody holds the only slot and the next call is refused |
| `AdmissionStore.Counters.Admit` | internal/cache/admission.go:43-64 | admitting counts one up, refusing leaves the concurrency counter, for the exact limits |
| `AdmissionStore.Counters.Leave` | internal/cache/admission.go:67-73 | leaving counts one down, never below zero |
| `AdmissionStore.Counters.Authorize` | internal/callcontrol/pipeline.go:166-199 | a call ends with the customer's and the node's slot or with neither, admitted exactly when both fit |
| `AdmissionStore.Counters.LeaveAdmission` | internal/callcontrol/pipeline.go:203-208 | leaving gives back what authorising took |
| `AdmissionStore.Counters.SyncCounters` | internal/billing/reconcile.go:100-119 | afterwards every customer counter is the number of open calls, whatever the drift, and nothing else changed |
| `Payments.TakeRequests` | internal/invoice/payments.go:94-112 | requests are accepted exactly when they are acceptable as a whole, and then taken to the last unit |
| `Payments.AcceptableNext` | internal/invoice/payments.go:94-112 | acceptable as a whole is acceptable one by one: a listed invoice, within what it still owes and what is left |
| `Payments.SpreadRest` | internal/invoice/payments.go:113-126 | the rest goes oldest first, a later invoice only when the earlier ones are paid, and stays over only when nothing is due |
| `Payments.PlanPayment` | internal/invoice/payments.go:54-126 | payment equals allocations plus remainder, nothing above what is owed, and both of the above |
| `Statements.InvoicedOnce` | internal/invoice/invoice.go:111-129 | every ledger row falls in at most one live invoice |
| `Statements.StatementBalances` | internal/invoice/invoice.go:139-151 | closing is opening plus top-ups, charges, costs, adjustments and refunds |
| `Statements.SumsOfLines` | internal/invoice/invoice.go:139-151 | the sums are those of the lines, each counting in its own account, kind and period |
| `Statements.PeriodsAdd` | internal/invoice/invoice.go:139-151 | a period opens where the one before closes, and the sums of both are those of the whole |
| `Statements.OverlapsIff` | internal/invoice/invoice.go:111-129 | periods overlap exactly when they share an instant |
| `Statements.UnpaidIff` | internal/invoice/invoice.go:229-238 | an invoice is unpaid exactly when no allocation names it |
| `Statements.BothWaysOfCounting` | internal/invoice/payments.go:235-269 | the allocated money of an account is the same by invoice and by payment |
| `Statements.OpenIdsSorted` | internal/invoice/payments.go:73-75 | the open invoices come oldest first, none twice |
| `Statements.OpenIdsMember` | internal/invoice/payments.go:73-75 | the open list holds exactly the live invoices of the account |
| `Receivables.EverythingListed` | internal/invoice/invoice.go:312-327 | adding up along a listing of all rows of an account is adding up the table |
| `Receivables.ListedDue` | internal/invoice/payments.go:220-271 | the outstanding of the listed invoices is the account's debt less what is not listed, and never negative |
| `Receivables.LedgerTotals` | internal/invoice/payments.go:220-271 | both totals as the exact figures corrected by the unlisted rows, and nothing unlisted within the limits |
| `Receivables.AddInvoices` | internal/invoice/payments.go:242-258 | the loop adds amounts and paid money of the newest 500 invoices, deleted ones counting nothing |
| `Receivables.AddPayments` | internal/invoice/payments.go:259-263 | the loop adds the newest 1000 payments |
| `LedgerLimits.ManyPayments` | internal/invoice/payments.go:148-152 | one invoice paid by n > 1000 payments: unallocated is 1000 - n although all money is allocated |
| `LedgerLimits.ManyInvoices` | internal/invoice/invoice.go:312-327 | n > 500 open invoices of one unit: outstanding is 500 |
| `Invoicing.InvoiceBook.constructor` | internal/invoice/invoice.go:80-82 | an empty book is consistent |
| `Invoicing.OpenPeriodIff` | internal/invoice/invoice.go:111-129 | a period is taken exactly when a live invoice of the account covers an instant of it |
| `Invoicing.DeletedPeriodIff` | internal/invoice/invoice.go:336-339 | and has a deleted invoice exactly when one would cover an instant of it |
| `Invoicing.NewInvoiceSound` | internal/invoice/invoice.go:139-189 | a new invoice bills the account's charges of the period, or its costs for a carrier, all seven figures are those of its lines, the statement balances and the amount is not negative |
| `Invoicing.InvoiceBook.GeneratePeriod` | internal/invoice/invoice.go:113-212 | a period is invoiced exactly when it is one, the account exists and no live invoice shares any of it, and every other answer exactly when it applies; the new invoice bills the usage of the period; the book stays consistent |
| `Invoicing.InvoiceBook.Delete` | internal/invoice/invoice.go:219-246 | exactly the live unpaid invoices can be deleted, and the book stays consistent |
| `Invoicing.InvoiceBook.GenerateMonth` | internal/invoice/invoice.go:334-358 | exactly bills of the month are added, only for accounts that moved or have money and none for a month touched by a deleted invoice, and every other such account ends up invoiced |
| `Invoicing.InvoiceBook.InsertPayment` | internal/invoice/payments.go:54-141 | a payment is recorded exactly when acceptable, spread oldest first, and leaves live invoices paid within their amount and deleted ones unpaid |
| `Invoicing.InvoiceBook.InvoiceLedger` | internal/invoice/payments.go:220-271 | within 500 invoices and 1000 payments outstanding is what live invoices owe and unallocated is the credit, neither negative; beyond, each is off by exactly what is not listed |
| `Breaker.BucketAlive` | internal/callcontrol/breaker.go:80-103 | no bucket the five-minute window reads has expired |
| `Breaker.ConsecIsStreak` | internal/callcontrol/breaker.go:43-59 | the fault counter is the faults since the last answer, number fault, trip or ten quiet minutes |
| `Breaker.StreakIff` | internal/callcontrol/breaker.go:43-59 | a streak of n means the n latest attempts were untripped carrier faults less than ten minutes apart |
| `Breaker.CountsArePlaces` | internal/callcontrol/breaker.go:80-103 | the window's figures are the numbers of attempts and answers in its minutes |
| `Breaker.TripsIff` | internal/callcontrol/breaker.go:66-76 | an attempt trips exactly when it completes the threshold of faults in a row, or enough attempts of five minutes had too few answers |
| `Breaker.DegradedIff` | internal/callcontrol/breaker.go:105-117 | the degraded key is present exactly when some trip is less than the penalty ago |
| `Breaker.WindowOf` | internal/callcontrol/breaker.go:80-103 | the bucket sums are the exact counts of the last five minutes |
| `Breaker.CircuitBreaker.constructor` | internal/callcontrol/breaker.go:28-30 | a new breaker has no history |
| `Breaker.CircuitBreaker.Crossed` | internal/callcontrol/breaker.go:66-76 | the trip decision is the one the exact history demands |
| `Breaker.CircuitBreaker.Trip` | internal/callcontrol/breaker.go:105-108 | a trip starts the penalty and the fault count anew |
| `Breaker.CircuitBreaker.Record` | internal/callcontrol/breaker.go:36-78 | every attempt keeps all keys in agreement with the history, the streak below the threshold, and reports degradation truly |
| `Breaker.CircuitBreaker.Degraded` | internal/callcontrol/breaker.go:111-117 | degraded exactly when some trip is less than the penalty ago |
| `Breaker.CircuitBreaker.Window` | internal/callcontrol/breaker.go:132-140 | the statistics are the exact counts |
| `Checksum.FoldKeeps` | internal/sipcapture/pcap.go:131-136 | folding keeps the value modulo 65535 and never loses a positive sum |
| `Checksum.ComplementVerifies` | internal/sipcapture/pcap.go:131-136 | the words together with the complement fold to all ones (section 3.1 of RFC 791) |
| `Checksum.WordSumPut` | internal/sipcapture/pcap.go:121-129 | writing a word over a zero word adds it to the sum |
| `Checksum.ChecksumVerifies` | internal/sipcapture/pcap.go:109-119 | the complement written into the zero checksum field makes the whole verify |
| `Checksum.SumWords` | internal/sipcapture/pcap.go:121-129 | the loop adds the 16-bit words, odd tail included, modulo 2^32 |
| `Checksum.Finish` | internal/sipcapture/pcap.go:131-136 | the loop complements the folded sum |
| `Checksum.IpChecksum` | internal/sipcapture/pcap.go:109 | the header checksum is the complement of its words |
| `Capture.TcpChecksum` | internal/sipcapture/pcap.go:112-119 | the segment checksum covers the pseudo header, exactly while 32 bits hold the sum |
| `Capture.PseudoLayout` | internal/sipcapture/pcap.go:112-119 | the pseudo header is source, destination, zero, 6 and the segment length (section 3.1 of RFC 9293) |
| `Capture.TcpFrameAccepted` | internal/sipcapture/pcap.go:65-119 | a receiver that takes addresses and protocol from the frame's own header accepts the segment |
| `Capture.PutIpHeader` | internal/sipcapture/pcap.go:76-84 | every header field is in place and the header verifies |
| `Capture.PutTcp` | internal/sipcapture/pcap.go:88-101 | every field and the payload are in place and segment plus pseudo header verify (section 3.1 of RFC 9293) |
| `Capture.PutUdp` | internal/sipcapture/pcap.go:102-105 | ports, length, zero checksum and payload are in place |
| `Capture.BuildFrame` | internal/sipcapture/pcap.go:65-107 | the whole frame, every byte region, with checksums that verify on the frame's own bytes |
| `Capture.DirectionsIff` | internal/sipcapture/pcap.go:89-99 | messages share a stream exactly when both ends agree, and are opposite exactly when they are swapped |
| `Capture.StreamContinues` | internal/sipcapture/pcap.go:89-99 | a message starts where the last one of its direction ended, the first at 1 |
| `Capture.AcknowledgesPeer` | internal/sipcapture/pcap.go:89-99 | a message acknowledges the end of the other side's last one, and 0 before there is any |
| `Capture.ChosenAre` | internal/sipcapture/pcap.go:21-56 | the file holds the messages of the leg, all when none is named, in order |
| `Capture.Writer.Advance` | internal/sipcapture/pcap.go:89-99 | the sequence number is one plus the earlier payload bytes of the direction modulo 2^32, the acknowledgement the other direction's position |
| `Capture.Writer.FrameFor` | internal/sipcapture/pcap.go:59-107 | a frame for exactly the IPv4 messages, with positions from all earlier messages |
| `Capture.WriteCapture` | internal/sipcapture/pcap.go:21-56 | one verifying frame per IPv4 message of the leg, in order, none for the others, streams continuous |
| `Watchdog.RemembersLastSeen` | internal/watchdog/notify.go:141-173 | what is remembered is what the last unmuted pass saw, and the count of dirty passes |
| `Watchdog.NewProblemAlerts` | internal/watchdog/notify.go:98-123 | a problem new or changed since the last unmuted pass alerts in the first unmuted pass that sees it |
| `Watchdog.FailingMeansAlerted` | internal/watchdog/notify.go:98-123 | while something is remembered an alert awaits its recovery |
| `Watchdog.RecoveryAfterAlert` | internal/watchdog/notify.go:121-123 | every recovery is preceded by an alert with no recovery in between |
| `Watchdog.ProblemIff` | internal/watchdog/checks.go:91-100 | a key is a problem exactly when a check fails it, or warns when warnings count |
| `Watchdog.AlertIff` | internal/watchdog/notify.go:98-133 | an unmuted pass alerts exactly on something new or changed, on anything at all when the repeat time since the last mail is over, or after a restart |
| `Watchdog.RecoveryIff` | internal/watchdog/notify.go:121-123 | it sends a recovery exactly when nothing is left of what the last unmuted pass saw |
| `Watchdog.ReportIff` | internal/watchdog/notify.go:135-139 | after an earlier report, a pass reports exactly when forced or at the hour when 23 hours are over |
| `Watchdog.FirstReportIff` | internal/watchdog/notify.go:135-139 | and without one exactly when forced or at the hour |
| `Watchdog.MuteHolds` | internal/watchdog/notify.go:141-162 | passes are muted until the window's time and not after |
| `Watchdog.MutedIsSilent` | internal/watchdog/notify.go:141-162 | a muted pass sends no alert and no recovery |
| `Watchdog.WindowCloses` | internal/watchdog/notify.go:141-162 | the first pass behind a window closes it and its count |
| `Watchdog.WithheldCounted` | internal/watchdog/notify.go:141-162 | a window counts exactly the passes that would have mailed |
| `Watchdog.PassSays` | internal/watchdog/notify.go:98-181 | a pass reports truly what is new, what is gone, a restart, an open window and one that has run out |
| `Watchdog.AfterWindowIff` | internal/watchdog/notify.go:141-162 | with no repeat or reboot, a pass alerts exactly when something broken was not already remembered at its level |
| `Watchdog.StillBrokenStaysQuiet` | internal/watchdog/notify.go:141-143 | a run in which a problem outlives a window without an alert |
| `Watchdog.ReportsSpaced` | internal/watchdog/notify.go:135-139 | scheduled reports come more than 23 hours after the last report |
| `Watchdog.Collect` | internal/watchdog/checks.go:91-100 | the loop keeps exactly the alertable problems; a key at both levels counts at the lower |
| `Watchdog.Dog.constructor` | internal/watchdog/notify.go:37-50 | a missing state file means an empty memory |
| `Watchdog.Dog.Compare` | internal/watchdog/notify.go:98-111 | new and fixed problems are the set differences |
| `Watchdog.Dog.Due` | internal/watchdog/notify.go:115-139 | when alert, recovery and report are due |
| `Watchdog.Dog.Decide` | internal/watchdog/notify.go:89-181 | a pass decides and remembers as the run model says |

## Left out

- HTTP handlers, sessions, mail, metrics, PDF rendering and the web interface.
- Database and Redis connections: each transaction or command is one atomic step; a command whose reply is lost is not modelled.
- Integer and NUMERIC overflow: money and counters are unbounded integers.
- The header rules, codec policy, dial strings and STIR verification in the routing result: they would only add easy members.
- Quality scores: the tier of a carrier is an input, not computed from samples.
- The ageing of cached rate tables: a lookup sees the rows that are effective at its instant.
- Usage lines of an invoice and the calendar-month arithmetic: a period is any pair of instants.
- The order and wording of watchdog messages, and which of two due messages is mailed.
- The global file header and record headers of a capture file.
- `Admission.AdmissionSafe`: assumes fixed limits, no key expiry and no failing undo or leave command; the repair of drift is `SyncCounters`.
- `Breaker.CircuitBreaker.Record`: attempts of one carrier are recorded one after the other and time does not run backwards; a key expires at the end of its lifetime to the second.
- `Capture.TcpChecksum`: beyond 131060 bytes of segment the 32-bit sum may wrap and no claim is made; a frame under 64 KiB is always within.
- `Prepaid.NeverOverdrawn`: needs calls within the reserved minutes, unchanged rate rows, no negative operator posting and no credit cut, as `Overlap.OverdrawIff` shows.
- `Debts.DebtBounded`: needs fresh call ids, hangups within the limits, no negative operator posting, no credit cut and no edit of an open call's rate; the limits are any numbers, so the seconds a hangup comes late are part of them.
- `Invoicing.InvoiceBook.InsertPayment`: amounts are whole micro-units; an amount with more than six places, which the columns round one by one, is not modelled, so a payment of 0.0000014 split in halves is outside.
- `Invoicing.InvoiceBook.GeneratePeriod`: concurrent generation is serialised, so the database's unique index is never the one to refuse.
