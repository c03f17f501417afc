# Verified model of the autotrade account, agent session and stores

A Dafny model of the parts of autotrade whose correctness spans many operations, with proofs that hold
for every input, every run or every reachable state. `dafny verify dfyconfig.toml` checks all of it.

**The A-share account** (`Account` and the modules around it). Cash, positions, FIFO tax lots and two
journals are one value; each broker operation is a function on it, and the class `DailyBroker.Broker`
updates its fields in place, method by method, and is proved against those functions. On top stand the
theorems over whole runs of days entered, orders placed and marks:

- `Ledger`, `OrderSteps`: what every operation keeps. `Lots` and `LotRelease` hold the arithmetic: an
  ex-date resizes lots on running totals that telescope, and a sale is a queue of single shares.
- `Conservation`, `IncomeLedger`, `TaxLedger`, and over whole runs `AccountRuns`, `CashFloor`, `TaxRuns`,
  `Journals`: the P&L loop closes, all dividend income is accounted for base by base, the tax paid is the final
  tax, the journals explain all cash and all shares and hold only legal records, sales draw only on shares held
  overnight, and no order ever raises.
- `DayOpening`, `OrderFills`: exactly when a day opens and an order fills, and what each then moves, in the words
  of the feed, the bar and the account.
- `Equity`: what ex-dates do to equity. `LotRecords`: the checkpoint of the lots and the way back.
- `Calendar`, `DividendTax`, `LotRules`, `Rounding`, `ExDate`, `OrderGates`: the arithmetic underneath.

Money, prices and ratios are exact reals; `round(x, 6)` is exact half-even rounding to 1e-6; the code's
tolerances (1e-9, half a tick) are kept. A raised exception ends a run (`Raised`).

**The agent session** (`Conversation`, `ToolFitting`, `SessionSteps`, `AgentSession`, `SessionEnds`). Messages are
a role, their content and call ids. What the model, the tools, the clock and the user do is a `Turn` chosen by the
world; the session's reaction is computed, and the class `AgentSession.Runner` is the loop itself.

**Four state machines**: the pausable clock (`TimeBudget`), the login sessions (`Gateway`), the bar
transport (`Transport`) and the revision store (`ArtifactStore`, with `Fingerprint` for its content
address and `Snapshot` for the copies it is given).
**The fill queue** (`FillQueue`) is the greedy loop that fills a console's free slots.

Where a plain law does not hold, the exact condition and a concrete input are proved instead:

- Cash can fall below zero: over a run it does so exactly when some sale is placed whose proceeds and the cash
  at that moment do not cover its commission, duty and tax, and never by more than such sales lose
  (`CashFloor.CashStaysExactlyWhenNoSaleOverdraws`, `CashFloor.ALosingSaleOverdraws`).
- A sale dated on or before a lot's acquisition is refused only where that lot has income
  (`DividendTax.DueRefusesOnlySameDayIncome`); the ledger's T+1 order is what rules it out.
- A settlement can gain more than its slack: on a cash ex-date whose reference price rises the share count
  stays, and the equity keeps both the cash and the rise (`Equity.SettlementGainsAtMostTheSlackExactlyWhen`,
  `Equity.ARiseOnACashExDateGainsMoreThanTheSlack`).
- A day limit order is not held against the adverse limit; it stays inside it exactly when its limit price or
  the open does (`OrderGates.DayLimitOrdersStayInsideExactlyWhen`).
- Restoring lots checks no dates: sellable shares are backed by older lots afterwards exactly when the rows are
  dated that way (`LotRecords.RestoredIsSellableExactlyWhen`).
- The comment at src/autotrade/agent/subagent.py:767 speaks of any transcript cut off mid-batch; one cut
  between two results of a turn makes an invalid request (`Conversation.ResumingIsValidExactlyWhen`,
  `Conversation.ACutBetweenResultsStaysBroken`).
- The session table's bound holds over every run from a start exactly when the store's live sessions fit it
  (`Gateway.TheBoundHoldsExactlyWhenTheStoreFits`, `Gateway.AnOverfullStoreStaysOverfull`).
- A restart can be told from no restart only by logging out an expired session while the store cannot be
  written (`Gateway.RestartsAreTransparent`, `Gateway.ExpiredLogoutCanDiffer`).
- The docstring at src/autotrade/environment/artifacts.py:520 promises a copy that is one point in the
  source's timeline, not a blend of two. It is, where nothing leaves a value and returns to it between its
  two readings; otherwise a blend can be accepted (`Snapshot.AcceptedCopyIsOneVersion`,
  `Snapshot.ABlendCanBeAccepted`).
- A revision's modes, unlike its bytes, can change under another creation or discard, where a chmod was
  skipped earlier (`ArtifactStore.CreatingKeepsModesExactlyWhen`, `ArtifactStore.ASkippedChmodShowsLater`).

## Model

| member | source | states |
|---|---|---|
| Calendar.MonthsLaterIsTheFirstDayOnOrAfter | src/autotrade/environment/dividend_tax.py:66-73 | `_months_later` is the least existing day on or after that day of the target month, over month ends, leap days and year ends |
| Calendar.MonthsLaterIsMonotone | src/autotrade/environment/dividend_tax.py:66-73 | monotone in the date and in the number of months together |
| Calendar.TextOrderIsCalendarOrder | src/autotrade/environment/dividend_tax.py:29-35 | for valid YYYYMMDD texts, string order is calendar order, so the text cutovers are date cutovers |
| DividendTax.RuleFollowsTheCalendar | src/autotrade/environment/dividend_tax.py:29-35 | a valid record date is refused iff before 2013 and old-rule iff before 2015-09-08, read as dates |
| DividendTax.RateByTier | src/autotrade/environment/dividend_tax.py:38-47 | 20% up to a month, 10% up to a year, beyond it 5% under the old rule and nothing under the new |
| DividendTax.LongerHoldingNeverPaysMore | src/autotrade/environment/dividend_tax.py:38-47 | buying no later and selling no earlier never raises the rate |
| DividendTax.DueCompletesTheFinalTax | src/autotrade/environment/dividend_tax.py:50-57 | the supplement is the final tax on both incomes less 5% of the old one, and is never negative |
| DividendTax.DueRefusesOnlySameDayIncome | src/autotrade/environment/dividend_tax.py:38-57 | a sale is refused iff it is not after the acquisition and some income is nonzero |
| DividendTax.DueIsProportional | src/autotrade/environment/dividend_tax.py:50-57 | n equal shares owe n times what one owes |
| LotRules.SalesKeepTheOddTailWhole | src/autotrade/environment/broker_core.py:68-85 | any holding can be sold out in one order; on the ordinary boards an accepted sale leaves the odd tail whole or gone |
| LotRules.LaddersFollowTheBoards | src/autotrade/environment/broker_core.py:31-46 | the Beijing ladder applies exactly to the Beijing board, the STAR ladder exactly to STAR codes with the Shanghai suffix |
| LotRules.BuysFollowTheLadder | src/autotrade/environment/broker_core.py:49-65 | a buy is a minimum and steps above it: 200 and singles on STAR, 100 and singles in Beijing, hundreds elsewhere |
| LotRules.SalesFollowTheLadder | src/autotrade/environment/broker_core.py:68-85 | a sale sells out, or follows the ladder, or takes the odd tail along whole, and no other is accepted |
| LotRules.BoardsAreReadOffTheCode | src/autotrade/environment/broker_core.py:31-37 | each board is a suffix or a range of first digits |
| Rounding.RoundingIsDetermined | src/autotrade/environment/broker.py:841 | half-even rounding is the only integer within half, even on ties |
| Rounding.FloorOfRound6AtLeast | src/autotrade/environment/broker.py:841 | rounding to 1e-6 before flooring never loses a whole share that is there |
| Rounding.FloorOfRound6Exactly | src/autotrade/environment/broker.py:841 | the floor of a value rounded to 1e-6 reaches a whole number exactly 5e-7 early |
| ExDate.SharesGrowWithTheHolding | src/autotrade/environment/broker.py:838-841 | round-then-floor is monotone in the holding |
| ExDate.SharesAreNearTheProduct | src/autotrade/environment/broker.py:838-841 | whole shares exceed the product by at most 5e-7 and fall short by less than one |
| ExDate.MultiplierExactlyWhen | src/autotrade/environment/broker.py:798-835 | an ex-date is refused, keeps or changes the share count exactly by thresholds on the day's own prices and cash |
| ExDate.SharesAreTheWholeOnes | src/autotrade/environment/broker.py:838-841 | the shares after are the one whole number within the thresholds, without rounding or division |
| ExDate.CashDividendNeverShrinks | src/autotrade/environment/broker.py:804-841 | with a positive cash dividend every multiplier is above one and no holding loses a share |
| ExDate.CreditIsDividendPlusFraction | src/autotrade/environment/broker.py:405-413 | where shares change the credit is at least the dividend less 5e-7 × pre_close and below the dividend plus one share |
| ExDate.KeptSharesHideAtMostHalfATick | src/autotrade/environment/broker.py:798-835 | where shares are kept the fall beyond the cash is at most half a tick and the rounding |
| Lots.SizesTelescope | src/autotrade/environment/broker.py:453-466 | any leading part of the resized lots adds up to the ex-date shares of that part |
| Lots.SettledLotByLot | src/autotrade/environment/broker.py:453-466 | each lot is credited on the shares it had and resized on the running total before it |
| Lots.SettleKeepsTheLots | src/autotrade/environment/broker.py:442-467 | after an ex-date the lots are positive, ordered, no younger, and add up to the holding's new shares |
| Lots.SettleConservesIncome | src/autotrade/environment/broker.py:442-467 | on either tax base: income kept plus income dropped with empty lots is the income before plus what was paid on all shares to that base |
| LotRelease.AvailableSharesRelease | src/autotrade/environment/broker.py:469-491 | shares from lots before today always release, leaving lots positive, ordered and exactly that much smaller |
| LotRelease.ReleaseIsTheShareQueue | src/autotrade/environment/broker.py:469-491 | releasing takes the first shares of a queue of single shares, leaves the others untouched, and owes what each taken share owes |
| LotRelease.TwoSalesAreOne | src/autotrade/environment/broker.py:469-491 | two sales on a day owe and leave what one sale of both would |
| LotRelease.ReleaseTaxIsNonNegative | src/autotrade/environment/broker.py:474-482 | whatever the days, the tax of a sale that is not refused is never negative |
| LotRelease.ReleaseConservesIncome | src/autotrade/environment/broker.py:476-485 | on either tax base: income released with the shares sold plus income kept is the income before |
| LotRelease.ReleaseCompletesTheFinalTax | src/autotrade/environment/broker.py:469-491 | a sale pays its shares' final tax less the 5% already withheld on their old income |
| OrderGates.FillsStayInsideTheLimit | src/autotrade/environment/broker.py:645-682 | every fill is at a positive price; all but day limit orders fill on the safe side of the adverse limit; off the intraday session they do so strictly and slippage never helps |
| OrderGates.OrdersFillExactlyWhen | src/autotrade/environment/broker.py:645-682 | an order fills at a price iff its bar trades it there: off the day the slipped price short of the limit, over the day a quoted, unlocked range that reaches a limit price |
| OrderGates.UnfilledOrdersSayWhy | src/autotrade/environment/broker.py:645-682 | each reason for not filling holds iff its own condition does |
| OrderGates.SessionPricesAre | src/autotrade/environment/broker.py:768-788 | the auction price, the average price, or the better of limit and open |
| OrderGates.DayLimitOrdersStayInsideExactlyWhen | src/autotrade/environment/broker.py:768-788 | a day limit order that fills stays inside the adverse limit iff its limit price or the open is inside |
| OrderGates.LimitOrdersFillAtTheLimitOrBetter | src/autotrade/environment/broker.py:768-788 | a day limit order fills at its limit or at a better open |
| Ledger.PlansAreSound | src/autotrade/environment/broker.py:357-413 | an ex-date that is not refused asks for a positive share count and price, and withholds exactly 5% of an old-rule payment |
| Ledger.SettleKeepsValid | src/autotrade/environment/broker.py:350-440 | settling an ex-date keeps the books sound and the lots equal to the positions |
| Ledger.OpenDayKeepsValid | src/autotrade/environment/broker.py:302-348 | entering a day keeps the invariant, and on a later day what is sellable is backed by older lots |
| DayOpening.ADayPaysWhatItsFeedDeclares | src/autotrade/environment/broker.py:302-440 | each held name with a bar gets what the feed declares: shares, sellable shares, cost, mark, cash, withheld tax, lots, and one record iff cash is paid or shares change; one without a bar is only unlocked |
| DayOpening.ADayOpensExactlyWhen | src/autotrade/environment/broker.py:302-440 | a new day opens iff it has one suitable feed and every ex-date in turn is acceptable and its withholding covered |
| Ledger.MarkReadsThePrices | src/autotrade/environment/broker.py:553-559 | a name with a usable price is marked at it, nothing else changes |
| OrderSteps.OrdersNeverRaise | src/autotrade/environment/broker.py:607-633 | under the invariants an order raises only if no day is open |
| OrderSteps.ExecuteKeepsValid | src/autotrade/environment/broker.py:564-643 | any order keeps books, lots and T+1 order |
| OrderFills.OrdersAreAdmittedExactlyWhen | src/autotrade/environment/broker.py:684-732 | the gates let an order through iff it trades, is permitted, on its ladder, within the limits, and sells what is sellable |
| OrderFills.ExecuteFillsExactlyWhen | src/autotrade/environment/broker.py:564-633 | the record is a fill at a price iff the order is admitted, its bar trades it there and a buy is paid for |
| OrderFills.FilledDayLimitOrdersWereReached | src/autotrade/environment/broker.py:677-682 | a recorded fill of a day limit order was reached by the day's low or high, within half a tick |
| OrderFills.OrdersSettleAsRecorded | src/autotrade/environment/broker.py:598-643 | a fill moves cash, fees, duty, position, cost, lots and P&L as its record says and touches no other name; an unfilled order leaves its record only |
| Conservation.ApplyKeepsCapital | src/autotrade/environment/broker.py:420-440 | the cash an ex-date credits leaves the cost basis, and its record explains the cash |
| Conservation.SaleKeepsCapital | src/autotrade/environment/broker.py:619-633 | a sale realizes its proceeds less the basis released |
| Conservation.ExecuteKeepsCapital | src/autotrade/environment/broker.py:598-643 | no order changes cash plus basis less realized P&L plus withheld tax |
| IncomeLedger.ApplyMovesIncome | src/autotrade/environment/broker.py:426-467 | an ex-date moves each base of the whole lot table by what it credits less what it drops |
| IncomeLedger.SaleReleasesIncome | src/autotrade/environment/broker.py:619-633 | a sale moves each base by the income of the single shares it takes |
| TaxLedger.ApplyWithholdsOnTheCredit | src/autotrade/environment/broker.py:387-427 | the withholding is 5% of what the lots are credited, because the lots add up to the position |
| TaxLedger.SalePaysTheFinalTax | src/autotrade/environment/broker.py:619-633 | a sale pays the final tax of the shares it takes less 5% of the old income it releases |
| AccountRuns.ReachableStatesAreValid | src/autotrade/environment/broker.py:302-643 | over every run: whole positive positions, no name twice, limits respected, lots naming the same symbols and adding up |
| AccountRuns.SellableSharesAreAlwaysOlder | src/autotrade/environment/broker.py:340-341 | over every run in date order, available shares never exceed those of lots acquired before today, and lots stay in order |
| AccountRuns.OrdersNeverRaiseOnARun | src/autotrade/environment/broker.py:607-633 | over every such run no sale runs out of lots or meets a share it may not sell |
| AccountRuns.PnlClosesTheLoop | src/autotrade/environment/broker.py:420-440 | over every run cash plus cost basis is initial cash plus realized P&L less tax withheld |
| AccountRuns.JournalsExplainTheCash | src/autotrade/environment/broker.py:292-295 | over every run the cash is the initial cash moved by recorded fills and ex-dates alone |
| AccountRuns.FlatAccountKeepsItsPnl | src/autotrade/environment/broker.py:420-421 | a run that sold everything made exactly its recorded P&L less tax withheld |
| AccountRuns.RunsKeepTheLedger | src/autotrade/environment/broker.py:302-643 | from any account that has the invariant and T+1 order, not only a fresh one, every run in date order keeps both |
| CashFloor.OnlyLosingSalesOverdraw | src/autotrade/environment/broker.py:598-628 | over every run the cash stays above minus 1e-9 but for the losses of sales whose fees and tax exceed their proceeds |
| CashFloor.WithoutLosingSalesNothingOverdraws | src/autotrade/environment/broker.py:414-415 | so a run without a losing sale keeps the cash at or above minus 1e-9 |
| CashFloor.OrderOverdrawsExactlyWhen | src/autotrade/environment/broker.py:598-628 | an order takes the cash below minus 1e-9 iff it is a sale whose proceeds and the cash do not cover its fees, duty and tax |
| CashFloor.CashStaysExactlyWhenNoSaleOverdraws | src/autotrade/environment/broker.py:598-628 | over every run the cash is at or above minus 1e-9 after each event iff no event places such a sale |
| CashFloor.ALosingSaleOverdraws | src/autotrade/environment/broker.py:149-150 | a run whose sale pays the minimum commission and ends three below zero |
| TaxRuns.CreditedIncomeIsAccountedFor | src/autotrade/environment/broker.py:442-491 | over every run in date order and on either base, income credited at ex-dates is on the lots, was released by sales or was dropped |
| TaxRuns.TaxPaidIsTheFinalTax | src/autotrade/environment/broker.py:442-491 | over every run in date order tax withheld and paid at sales is the final tax of the shares sold plus 5% of old income still held or dropped |
| Journals.OpeningUnlocksOvernightShares | src/autotrade/environment/broker.py:340-341 | a new day makes sellable what was held overnight and is still there; shares an ex-date creates stay locked |
| Journals.ExecuteMovesShares | src/autotrade/environment/broker.py:598-633 | an order moves holdings and sellable shares of its own name only, by exactly what its one record says |
| Journals.JournalsExplainTheShares | src/autotrade/environment/broker.py:292-295 | over every run each holding is shares bought less sold plus those ex-dates created, as recorded |
| Journals.SalesDrawOnOvernightShares | src/autotrade/environment/broker.py:716-718 | over every run what a day sells of a name was held when the day before ended (T+1) |
| Journals.FilledOrdersPassedTheGates | src/autotrade/environment/broker.py:684-732 | a filled name was trading, a buy leaves the holding within the single-name cap, a sale on the ordinary boards never splits the odd tail |
| Journals.TheJournalsAreLegal | src/autotrade/environment/broker.py:405-440 | over every run each filled buy obeyed its board's lot ladder and permission, no tax is negative, rejections move no money, and each ex-date paid the declared dividend within a fraction of a share and took no shares where it paid cash |
| Equity.SettlementMovesEquity | src/autotrade/environment/broker.py:394-425 | with withheld tax added back, a settlement that changes shares keeps equity; one that keeps them adds the cash and the move of the mark |
| Equity.OpeningADayKeepsEquity | src/autotrade/environment/broker.py:302-348 | a day's ex-dates lose, before tax, at most half a tick and the rounding per share kept |
| Equity.SettlementGainsAtMostTheSlackExactlyWhen | src/autotrade/environment/broker.py:394-425 | a settlement gains at most the slack, before tax, iff shares change or cash and the move of the mark are within it |
| Equity.ARiseOnACashExDateKeepsTheShares | src/autotrade/environment/broker.py:830-834 | a rise of the reference price on a cash ex-date changes no share count |
| Equity.ARiseOnACashExDateGainsMoreThanTheSlack | src/autotrade/environment/broker.py:394-425 | the condition can fail: such an ex-date settles and raises equity by more than the slack |
| LotRecords.RestoringRebuildsTheLedger | src/autotrade/environment/broker.py:498-546 | restoring succeeds iff every row is readable and the lots back the positions, and then the account is valid |
| LotRecords.RowsAreReadExactlyWhen | src/autotrade/environment/broker.py:498-526 | a row is readable iff its income is split and not negative, or plainly zero; its lot keeps shares, date and incomes |
| LotRecords.RestoredIsSellableExactlyWhen | src/autotrade/environment/broker.py:498-546 | after a restore on an open day, with the dividend tax on, sellable shares are backed by older lots iff each name's rows are in date order, none is later than today and enough are earlier |
| LotRecords.OrdersNeverRaiseAfterARestore | src/autotrade/environment/broker.py:498-546 | from a restore of such rows on an open day, over every run in date order, no order raises |
| LotRecords.RecordsRoundTrip | src/autotrade/environment/broker.py:493-546 | writing the lots out and restoring them changes nothing |
| DailyBroker.Broker.EnterDay | src/autotrade/environment/broker.py:302-348 | updates the fields to the specified account, or raises as specified, and keeps the invariant |
| DailyBroker.Broker.PlanExDate | src/autotrade/environment/broker.py:356-413 | the first half of an ex-date: refusals in order, then ratio, income, rule, withholding, shares and credit |
| DailyBroker.Broker.SettleExDate | src/autotrade/environment/broker.py:414-440 | applies the plan to position, cash, lots and journal |
| DailyBroker.Broker.SettleLots | src/autotrade/environment/broker.py:442-467 | the loop over lots leaves exactly the settled lots and touches no other name |
| DailyBroker.Broker.ReleaseLots | src/autotrade/environment/broker.py:469-491 | the loop that pops the head lot computes the specified tax and remaining lots, and terminates on the shares left |
| DailyBroker.Broker.Execute | src/autotrade/environment/broker.py:564-643 | updates the fields to the specified account, or raises as specified, and keeps the invariant |
| DailyBroker.Broker.Mark | src/autotrade/environment/broker.py:553-559 | re-marks the names that have a usable price and keeps the invariant |
| Conversation.EveryCallIsAnsweredInOrder | src/autotrade/agent/compact.py:471-472 | in a valid conversation call k of a turn is answered by the k-th message after it |
| Conversation.EveryResultHasItsCall | src/autotrade/agent/compact.py:437-443 | in a valid conversation every tool result belongs to the last turn before it |
| Conversation.RebuildKeepsTheProtocol | src/autotrade/agent/compact.py:413-443 | compaction keeps the protocol and the very same prompt, supersedes earlier summaries, keeps a bounded end of the history |
| Conversation.RebuildKeepsTheRecentEnd | src/autotrade/agent/compact.py:427-443 | of the last messages to keep only orphaned results at their head are left out |
| Conversation.NonSummaryIsTheRest | src/autotrade/agent/compact.py:427 | compaction starts from every message that is no summary, in order |
| Conversation.DroppingTheTurnRepairs | src/autotrade/agent/compact.py:446-457 | dropping the trailing turn repairs a cut history iff no call of that turn has been answered |
| Conversation.ResumingIsValidExactlyWhen | src/autotrade/agent/subagent.py:766-791 | a resumed child's first request is valid iff its transcript was not cut between the results of one turn |
| Conversation.ResumingKeepsTheTranscript | src/autotrade/agent/subagent.py:766-791 | a resumed child gets its transcript, less a last unanswered turn, and the brief |
| Conversation.ACutBetweenResultsStaysBroken | src/autotrade/agent/subagent.py:1057-1070 | a transcript cut after the first of two results, whose resumed request is not valid |
| Conversation.ForkIsValid | src/autotrade/agent/subagent.py:772-791 | a child forked between turns or mid-batch starts from a valid conversation carrying all answered history |
| Conversation.AppendTurn | src/autotrade/agent/runner.py:743-755 | a turn and one result per call in order keep a conversation valid |
| ToolFitting.OrderIsLargestFirst | src/autotrade/agent/compact.py:484-492 | every eligible result is tried once, larger first, later first among equals |
| ToolFitting.FitWorksDownTheOrder | src/autotrade/agent/compact.py:497-521 | some first part of the order is tried, all else is untouched, and it stops early only once the request fits |
| ToolFitting.FittingStopsAtTheFirstFit | src/autotrade/agent/compact.py:497-521 | the edit stops at the first number of candidates after which the request fits, none if it fits already |
| ToolFitting.ShortResultsAreLeftAlone | src/autotrade/agent/compact.py:484-492 | only tool results of 512 characters or more are ever replaced |
| ToolFitting.FitCountsExactly | src/autotrade/agent/compact.py:493-534 | the characters reported freed are exactly those removed; an edit is counted only if it removed some |
| ToolFitting.FittingIsSafe | src/autotrade/agent/compact.py:460-533 | only tool results change and only get shorter, validity is unchanged, and it ends fitting or with every eligible result tried |
| ToolFitting.FitToolResults | src/autotrade/agent/compact.py:480-533 | the editing loop computes the specified edit |
| ToolFitting.FitCompactRequest | src/autotrade/agent/compact.py:308-345 | the unbounded loop terminates because each round frees characters; over all rounds only tool results change and only get shorter; it ends fitting or with nothing left to shrink |
| SessionSteps.IterationsSendValidRequests | src/autotrade/agent/runner.py:500-805 | whatever the world does in one iteration, every request sent is valid and so is the history it goes on with |
| AgentSession.EveryRequestIsValid | src/autotrade/agent/runner.py:500-819 | over a whole session every request starts with the prompt and answers every call in order right after its turn |
| AgentSession.OpeningIsSendable | src/autotrade/agent/runner.py:461-465 | prompt, answered preamble and instruction make a valid first history |
| AgentSession.CallsStayInBudget | src/autotrade/agent/runner.py:500-565 | at most max_llm_calls calls and at most one request a call |
| AgentSession.FailingProviderEndsTheSession | src/autotrade/agent/runner.py:563-657 | when every call fails the session ends within six calls, overflow recovery included |
| AgentSession.HistoryOnlyGrows | src/autotrade/agent/runner.py:525-667 | an iteration without compaction or edit only appends, so the request sent extends the history before it |
| AgentSession.NothingRunsAfterATerminalTool | src/autotrade/agent/runner.py:1001-1024 | once a terminal tool finished the session no later call of that turn runs |
| SessionEnds.BatchesRecordTheirCalls | src/autotrade/agent/runner.py:901-1024 | a batch comes back iff nothing escapes it, and each call is recorded as what its tool returned, an error, skipped or refused |
| SessionEnds.IterationsEndExactlyWhen | src/autotrade/agent/runner.py:500-805 | an iteration ends the session for a reason iff the world's turn is one that does: deadline, failure, interrupt, blank summary, finished batch |
| SessionEnds.SessionsEndExactlyWhen | src/autotrade/agent/runner.py:500-819 | a session ends for a reason iff one of its iterations does, or the budget is spent, and no request follows |
| SessionEnds.RequestsGoOutExactlyWhen | src/autotrade/agent/runner.py:1782-1857 | a request goes out iff the history, its compaction or its edit fits or can be clamped, and it is the first of them that does |
| SessionEnds.NothingIsLeftUnsaid | src/autotrade/agent/runner.py:511-544 | wrap-up or time notice, context notice, reports and user messages all reach the request, in order |
| SessionEnds.AnswersAreKept | src/autotrade/agent/runner.py:659-805 | after an answer the history is request, turn, results and new messages, rebuilt if a compact call was accepted |
| SessionEnds.FailuresAreToldBack | src/autotrade/agent/runner.py:563-657 | a failed call that does not end the session leaves its error, and once the partial text, or a recovered history |
| AgentSession.Runner.Run | src/autotrade/agent/runner.py:500-819 | the loop ends in the specified session and reason |
| AgentSession.Runner.Fail | src/autotrade/agent/runner.py:563-657 | the failure branches update streak, recovery and reissue flags and history as specified |
| AgentSession.Runner.AnswerCalls | src/autotrade/agent/runner.py:743-755 | the loop appends one result per call, in the calls' order |
| AgentSession.Runner.TakeTools | src/autotrade/agent/runner.py:743-805 | answers the calls, compacts on request, ends when finished |
| AgentSession.Runner.PrepareContextRequest | src/autotrade/agent/runner.py:1782-1857 | compacts, then shrinks, then gives up, leaving the history alone if it gives up |
| AgentSession.Runner.DispatchSerial | src/autotrade/agent/runner.py:999-1024 | one record per call in order through interrupts and terminal tools |
| AgentSession.DispatchParallel | src/autotrade/agent/runner.py:974-997 | in any completion order each record lands in its own call's slot, and no call is lost |
| TimeBudget.NestedPausesCountOnce | src/autotrade/environment/time_budget.py:69-86 | a pause inside another leaves the union of pauses as it was |
| TimeBudget.PausedIsTheUnion | src/autotrade/environment/time_budget.py:69-86 | counting open pauses measures the union of the [enter, exit] intervals, however they overlap |
| TimeBudget.PausedIsPartOfTheTime | src/autotrade/environment/time_budget.py:69-86 | the union's length is between zero and the time passed |
| TimeBudget.InferenceTimeBudget.Remaining | src/autotrade/environment/time_budget.py:59-63 | the grant less elapsed time plus the union of the pauses, and constant while any pause is open |
| TimeBudget.InferenceTimeBudget.Deadline | src/autotrade/environment/time_budget.py:46-57 | always now plus remaining |
| TimeBudget.InferenceTimeBudget.EnterPause | src/autotrade/environment/time_budget.py:73-77 | refused iff nothing is left, otherwise one more pause is open |
| TimeBudget.InferenceTimeBudget.ExitPause | src/autotrade/environment/time_budget.py:80-86 | inner exits leave the deadline, the last one moves it by the time since the outermost pause began |
| Gateway.LoginEvictsOnlyTheOldest | ops/login-gateway/gateway.py:181-193 | a login keeps all live sessions but the replaced one and, at the bound, the first of the oldest, and adds the new one last |
| Gateway.ServingKeepsTheBound | ops/login-gateway/gateway.py:181-225 | after any request, written or not, memory equals the store and holds no more than the bound or what it held |
| Gateway.RunsKeepTheBound | ops/login-gateway/gateway.py:181-225 | so after any run of requests, from any table |
| Gateway.TheBoundHoldsExactlyWhenTheStoreFits | ops/login-gateway/gateway.py:163-169 | every run from a start stays within max_sessions iff the store holds no more live sessions than that |
| Gateway.AnOverfullStoreStaysOverfull | ops/login-gateway/gateway.py:188-191 | a bound of one, two live sessions after a start and two after a login |
| Gateway.LoginsLastTheirLifetime | ops/login-gateway/gateway.py:181-211 | over every run a login's token is accepted iff less than the lifetime has passed and no logout, replacement or eviction ended its session |
| Gateway.SessionsLastTheirLifetime | ops/login-gateway/gateway.py:195-211 | the same for any listed session |
| Gateway.StrangersAreRefused | ops/login-gateway/gateway.py:195-200 | a digest nobody logged in with is never accepted |
| Gateway.FailedWritesChangeNothing | ops/login-gateway/gateway.py:213-225 | a request raises iff its write fails, and then nothing changes |
| Gateway.TwinsAnswerAlike | ops/login-gateway/gateway.py:195-225 | gateways with the same live sessions answer alike iff the request is no failing logout of a session only one still lists; a login leaves them the same table |
| Gateway.RestartsAreTransparent | ops/login-gateway/gateway.py:163-169 | after a restart at any moment each answer is the same iff it is no such logout, and then the session named has expired |
| Gateway.ExpiredLogoutCanDiffer | ops/login-gateway/gateway.py:202-211 | an input showing that exception is real |
| Gateway.GatewayState.CreateSession | ops/login-gateway/gateway.py:181-193 | the method and its scan for the oldest do what the table functions say |
| Gateway.GatewayState.CheckSession | ops/login-gateway/gateway.py:195-200 | the lookup accepts a token exactly while its session is among the live ones |
| Transport.DeltaCheckIsTheFullCheck | src/autotrade/environment/executor.py:671-698 | checking only new rows refuses exactly what checking all rows against the worker's table would |
| Transport.DeltasRefineFullResend | src/autotrade/environment/executor.py:585-713 | after a call the worker holds that call's first bar_count rows and never rejects the request; any failure closes the host with nothing advanced |
| Transport.CallsCompleteExactlyWhen | src/autotrade/environment/executor.py:585-713 | a call completes iff its whole table passes and the reply is the expected one with its sequence; the host then stands at that call |
| Transport.RunsStayOpenExactlyWhen | src/autotrade/environment/executor.py:585-713 | over every run the host is open and all calls completed iff every call was in step with the one before |
| Transport.WorkersAcceptExactlyWhen | src/autotrade/environment/strategy_worker.py:164-238 | whatever it is sent, the worker accepts exactly what carries on its table, and its table stays visible and monotone |
| Transport.WorkerTableIsTheLastCalls | src/autotrade/environment/strategy_worker.py:164-238 | over every run the open worker's table is the last call's prefix, monotone and visible, and every call completed |
| Transport.StrategyExecutor.PrepareExecute | src/autotrade/environment/executor.py:671-713 | the row loop computes the specified request or refusal |
| Transport.StrategyExecutor.Execute | src/autotrade/environment/executor.py:585-669 | advances the transport state on the matching reply only, aborts on anything else |
| Transport.StrategyExecutor.ResetTransportState | src/autotrade/environment/executor.py:1003-1009 | back to a fresh transport |
| ArtifactStore.CreateIsSafe | src/autotrade/environment/artifacts.py:190-235 | a creation, complete or failed at any point and whatever its chmod skips, keeps the store valid and every other revision's bytes, modes only ever becoming read-only; a complete one holds exactly the given files |
| ArtifactStore.CreationsKeepTheirObjects | src/autotrade/environment/artifacts.py:256-278 | a creation, failed or not, leaves an object for each file it came to intern |
| ArtifactStore.CreatingKeepsModesExactlyWhen | src/autotrade/environment/artifacts.py:231-234 | no other revision's mode changes iff the shared inodes the chmod reaches were read-only already |
| ArtifactStore.CreatedIsReadOnlyExactlyWhen | src/autotrade/environment/artifacts.py:218-234 | a new revision's file is read-only iff its chmod went through, it shares a read-only object, or its bytes are new and the first file having them came read-only from the source |
| ArtifactStore.ASkippedChmodShowsLater | src/autotrade/environment/runtime.py:244-248 | a skipped chmod whose file a later creation makes read-only in the earlier revision |
| ArtifactStore.InterningLinksToObjects | src/autotrade/environment/artifacts.py:256-278 | interning makes each file the very inode of the object of its bytes |
| ArtifactStore.DiscardIsSafe | src/autotrade/environment/artifacts.py:237-246 | discarding a revision keeps every other one's bytes and every object; the others' modes stay iff the inodes shared with it and reached were read-only |
| ArtifactStore.RevisionsAreImmutable | src/autotrade/environment/artifacts.py:172-179 | over every run a revision reads back the same paths and bytes until it is itself discarded, and what is read-only stays so |
| ArtifactStore.ReachableStoresAreValid | src/autotrade/environment/artifacts.py:256-264 | over every run objects hold the bytes they are named by and revision files are their objects' inodes |
| ArtifactStore.UnskippedRunsLockEverything | src/autotrade/environment/artifacts.py:231-234 | over every run in which no chmod is skipped every object and revision file is read-only |
| ArtifactStore.FilesystemArtifactStore.CreateRevision | src/autotrade/environment/artifacts.py:190-235 | copy, intern, lock step by step, as specified |
| ArtifactStore.FilesystemArtifactStore.DiscardRevision | src/autotrade/environment/artifacts.py:372-381 | lock then unlink, as specified |
| Fingerprint.DecimalReadsBack | src/autotrade/environment/artifacts.py:504 | a file's size in decimal reads back |
| Fingerprint.StreamsReadBack | src/autotrade/environment/artifacts.py:500-507 | the hashed stream is uniquely decodable, whatever the file bytes |
| Fingerprint.StreamsListOutputFirst | src/autotrade/environment/artifacts.py:484-507 | read back, the stream is the output's files then the models', each in path order |
| Fingerprint.StreamIdentifiesTheArtifact | src/autotrade/environment/artifacts.py:478-508 | two artifacts have equal streams iff they have the same files and contents; missing models are empty models |
| Snapshot.AgreementIsNameByName | src/autotrade/environment/artifacts.py:526-531 | the two fingerprints agree iff the copying and the comparing pass saw the same of every path |
| Snapshot.CopyIsTheSourceExactlyWhen | src/autotrade/environment/artifacts.py:526-529 | a copy gathered file by file is the source of a moment iff every path then looked as the copy saw it |
| Snapshot.AcceptedCopyIsOneVersion | src/autotrade/environment/artifacts.py:518-531 | double collect: where no path leaves what the copy saw and returns before the comparison, an accepted copy is the source as it stood between the passes |
| Snapshot.SnapshotIsOneVersion | src/autotrade/environment/artifacts.py:511-534 | the same over all attempts, with that version's fingerprint; a refusal saw the source differ every time, a raise saw a file gone |
| Snapshot.ABlendCanBeAccepted | src/autotrade/environment/artifacts.py:518-531 | without that, a writer flipping two files back and forth gets a blend accepted that never existed |
| FillQueue.FillIsFeasible | scripts/experiments/_round.py:730-750 | no slot, local-model or GPU capacity is exceeded and only ready seeds start |
| FillQueue.FillRespectsTheQueue | scripts/experiments/_round.py:733-750 | where the fill first differs from any feasible choice, it is the fill that starts the experiment |
| FillQueue.FillIsWorkConserving | scripts/experiments/_round.py:733-750 | while a slot is left every experiment not started is held for its own reason, which stands against the final choice |
| FillQueue.FillReportsItsDecisions | scripts/experiments/_round.py:730-750 | the reported lists name, in queue order, exactly those started and those held, each for a reason that stands |
| FillQueue.Fill | scripts/experiments/_round.py:731-750 | the loop returns the specified chosen and held lists in queue order |

## Left out

- Floating point: money and prices are exact reals; NaN, infinities and binary noise are not modelled. A price is positive or unusable.
- Dates after year 9999, and digits and letters outside ASCII.
- Trade days are calendar dates; that a new day is later than the current one is assumed only where lot order, T+1 or the tax identity needs it.
- The state left behind by a raised exception: a run ends there.
- Execution timestamps, metadata and status texts; equity and account snapshots as records; profiles as records.
- `restore_lots` is modelled on values: row types and their JSON checks are not, and the rows of a symbol are a sequence.
- Order parsing: quantities are positive and prices real. How the raw price of an order without a session is found is the replay engine's business.
- Compaction: the compactor's thresholds, counters and failures (whether a compaction happens is the world's choice), the file trail carried in summaries, the blank-stripping of an agent's summary.
- `keep_recent_messages` is at least 1 in the source's configuration; the proofs hold for 0 too, read as keeping none.
- Token estimates and shrunken texts: any fit test and any replacement that keeps its call id.
- Tool bodies, sub-agents beyond how their conversation is forked, traces, usage totals and notices' wording. Call ids are the model's; a malformed reply adds no tool calls.
- AgentSession.DispatchParallel: assumes every submitted future completes, in any order.
- Threads: the lock makes each gateway request and each pause entry or exit one step.
- Gateway.LoginsLastTheirLifetime: the random token of each login is taken to be new.
- Token syntax, user names, cookies, HTTP and the store's JSON in the gateway; a store that cannot be read.
- Gateway.RestartsAreTransparent: one clock reading a request, a restart whose own write succeeds.
- Docker, processes, pipes, output limits, timeouts and the separate fit worker of the executor; `BarTable` is a sequence of rows.
- Digests are taken to be collision-free; in the store a digest is its bytes.
- Directories and their modes, unlinked inodes and registered artifacts; a chmod either reaches a file or skips it.
- Snapshot.SnapshotIsOneVersion: a file is read at one moment, its size included; the source stats it first and reads it in chunks.
- The rules for which files an artifact may hold.
- Round files, request parameters and console health behind the fill queue: an experiment is its id, seed readiness, local flag and GPU count.
