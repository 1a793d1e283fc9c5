# Verified model of the trading bot's stateful core

This project models, in Dafny, the parts of the trading bot that carry state from bar to bar or message to message,
and proves what each of them keeps over whole runs.

- **Depth book.** The Binance USD-M futures order book is replicated from a REST snapshot and a stream of diffs.
  `DepthBook` models the server as a log of absolute-quantity updates, `DepthSync` the synchroniser as a state machine
  over lost, repeated and overlapping messages, and `LocalOrderBook` the object whose fields the handlers update.
  `DepthMetrics` holds the published depth measures and their history. `DepthRecovery` tells the synchroniser from
  outside, by the inputs and the server's books alone: which id it mirrors, what waits, when it falls silent and when
  it recovers. `DepthReadings` says what the published numbers mean.
- **Orders.** `Decimals`, `PriceRules` and `HyperliquidOrders` model the Hyperliquid price and size normaliser and
  prove that its one-candidate-per-decimal search is optimal. `ExchangeRules` states the exchange's own rules and
  proves that every order sent for a packet obeys them.
- **Backtests.** `Risk` and `Ledger` model sizing and bookkeeping, `ZoomEngine` and `ReferenceEngine` the two
  sub-candle engines, `IntrabarFrames` the partial-bar frames that both hand to the classifier. `TradeTerms`,
  `ZoomJournal` and `ReferenceJournal` account for every trade of a run from candles, signals and settings.
- **Classifier.** `Neighbours`, `EntryCooldown` and `Lorentz` model the Lorentzian classifier, `Features` its feature
  columns. `NeighbourRules` and `LorentzRows` state which neighbours a bar takes and how every row follows, without
  the store and the counters that compute it; `FeatureLaws` states what one more value does to each column.
  `LorentzExits` proves exact exit conditions, `NoRepainting` and `FeatureCausality` that neither rows nor features
  depend on later bars. `PriceFrames` says what feature vectors can come out of prices, and which frame lengths
  therefore never repaint; `PriceTurns`, `FrameLength` and `FrameWitnesses` show that all other lengths do, on closes
  whose direction is the only feature. `ExitWitness` proves of a ten-bar frame that the early strict exit fires on it.
- **Structure, search, data.** `MarketStructure` and `OrderBlocks` model the pivot state machines and the order-block
  timeline, `Shortlist` the optimiser's bounded heap, and `Dataset` the candle cache with its gap detection and
  fallback provider. `StructureEvents`, `OrderBlockLaws` and `DatasetLaws` tell their results from candles, events and
  provider rows alone.

`Common` holds what several modules share: optional values, the two market sides, set facts, and the extrema of reals.

Numbers are exact: `Decimal` and float values are integers or reals, a missing or infinite float is `None`. I/O,
clocks and network answers are inputs: a message, a snapshot response, a provider's rows. Where the source loops or
updates fields, the model has a method or a class proved equal to a specification function, and the laws are lemmas
about that function. The main laws speak of prices, signals, ids and settings instead of the functions that compute
them.

## What the proofs found

- `_apply_depth_event` can never take its gap branch (`binance.py:1703-1706`): the last event id always equals the
  last update id, so the alignment test is the continuity test for every event, not only for the first after a
  snapshot.
- A replay that stops on a misaligned event leaves `synced` true, but on a correct, shorter prefix of the server book.
- A bootstrap fails on a gapless stream when the snapshot's id falls into ids that no event numbers (between one
  event's last id and the next one's first, `HoleStopsBootstrap`). On a chained buffer of usable books it succeeds
  exactly when no buffered event reaches the snapshot or one that does aligns with it; id holes elsewhere do no harm.
- Rounding a price up raises for every price at or below zero, although legal prices lie above it; rounding down
  raises exactly below 10^-max decimals. The extra integer candidate after the loop (`execution.py:1185-1187`) repeats
  the last candidate of the loop and never succeeds.
- Of the two arms of a strict exit (`lorentz_lc.py:345-346`) one is always dead. With a signal persistence of one bar
  it is the arm for positions held less than four bars, because a new signal resets the counter to zero. With two or
  more it is the arm for positions held four bars, because an entry no longer falls on a change of signal, and from
  five bars on no strict exit fires at all.
- A frame long enough to skip, at its start, a bar that the modulo test accepts can repaint. For feature columns
  computed from prices the lengths that never do are known exactly. With labels that look back: at most `max_bars_back
  + 1` plus the first accepted index (one in the default mode); any length when `max_bars_back` is at most that index
  plus four (in the rolling modes, at most one); and up to seven bars with rolling windows of two. In
  `research_ann_modulo_0` and `research_marker_tuned`, which accept index zero, four bars more: at bar zero no feature
  has a value except the ADX of length one, and that one is never anything but one. In the two forward label modes a
  frame never repaints exactly when it has at most five bars or `max_bars_back` is at most one; a label there repaints
  exactly when its fourth next bar was still missing and stands on another side of the source than level.
- The ten pivots a scope remembers at most are more than it ever needs: a break looks at the newest pivot of its side
  and the two newest of the other, so the cap never changes a report.
- The smoothed true range only decides whether there is a directional index, and its sign: the index is the share of
  the difference of the two directional sums in both, whatever the range.
- In the reference engine a stop exit always counts as held for one bar (`backtest.py:439` passes the entry's own
  index), so it pays one bar of funding however long it was held, and it lets the account open again on the same row.
- At equal scores the prescreen keeps the later candidate but lists the earlier one first.
- With `zero_previous_on_first_bar` off, a bar whose low is above its high takes its true range below zero exactly
  when its own close and the previous close are both missing; such bars can take the ADX feature out of [0, 1].
- Under the overlap rule the bars and events leave no choice of mitigation indexes: a block ends at the first bar that
  closes through it, refuses it ("Recent") or builds a later rival ("Previous").

## Model

| member | source | states |
|---|---|---|
| DepthBook.SummaryCatchesUp | src/tradingbotsuite/adapters/binance.py:1692-1730 | applying a summary of the ids (lo, u] to the book at any L in [lo, u] gives the server book at u: updates already known are harmless because quantities are absolute |
| DepthBook.SnapshotLoadsBook | src/tradingbotsuite/adapters/binance.py:1380-1389 | a snapshot that lists the whole server book loads as exactly that book, whatever order or zero entries it has |
| DepthBook.ServerIsPositive | src/tradingbotsuite/adapters/binance.py:1723-1730 | the server book never holds a zero or negative quantity, because a zero removes the price |
| DepthBook.ApplySetsQuoted | src/tradingbotsuite/adapters/binance.py:1723-1730 | a price quoted consistently in an update ends with the quoted quantity |
| DepthBook.ApplyKeepsUnquoted | src/tradingbotsuite/adapters/binance.py:1723-1730 | a price an update does not quote keeps its quantity |
| DepthBook.SummaryStays | src/tradingbotsuite/adapters/binance.py:1692-1730 | an event that summarised the log when it was sent still does after the log has grown |
| DepthSync.AlignedEventCatchesUp | src/tradingbotsuite/adapters/binance.py:1696-1721 | a genuine event that passes the alignment test takes both sides of the book at L to the server book at its last id |
| DepthSync.ApplyKeeps | src/tradingbotsuite/adapters/binance.py:1692-1716 | one event on a synced book keeps the invariant; the gap branch and the missing-snapshot branch are not taken; a dropped or misaligned event changes nothing; only an unusable book ends synced |
| DepthSync.AlignmentIsContinuity | src/tradingbotsuite/adapters/binance.py:1699-1721 | in every reachable synced state no genuine event takes the gap branch, and one is refused exactly when it leaves ids out |
| DepthSync.ReplayKeeps | src/tradingbotsuite/adapters/binance.py:1426-1427 | replaying buffered events keeps the invariant wherever it stops, and never moves the book backwards |
| DepthSync.ReplayBufferKeeps | src/tradingbotsuite/adapters/binance.py:1401-1429 | cutting the buffer to the snapshot, finding the aligned event and replaying from it keeps the invariant, aligned or not |
| DepthSync.BootstrapKeeps | src/tradingbotsuite/adapters/binance.py:1378-1430 | installing a genuine snapshot and replaying keeps the invariant, valid book or not |
| DepthSync.MessageKeeps | src/tradingbotsuite/adapters/binance.py:1628-1668 | handling a depth message, buffered or applied or refused, keeps the invariant |
| DepthSync.LogGrowthKeeps | src/tradingbotsuite/adapters/binance.py:1348-1430 | the server log growing under a local state keeps the invariant |
| DepthSync.RunKeeps | src/tradingbotsuite/adapters/binance.py:1348-1769 | the invariant holds after every run of server updates, lost, repeated or overlapping messages, refused and answered requests, and disconnects |
| DepthSync.SyncedMeansServerBook | src/tradingbotsuite/adapters/binance.py:1348-1769 | safety: in every reachable state, synced implies that bids and asks are the server book at the last update id and that the book is one that would be published |
| DepthSync.ChainReplays | src/tradingbotsuite/adapters/binance.py:1426-1427 | completeness: replaying a chained, usable run of events from an aligned first one ends synced at the last event, id holes between chained events included |
| DepthSync.ReplayExactly | src/tradingbotsuite/adapters/binance.py:1426-1427 | a replay from a synced book stays synced exactly when every event it takes in leaves a usable book, and ends at the last of those |
| DepthSync.ReplayBufferExactly | src/tradingbotsuite/adapters/binance.py:1401-1429 | a buffer is accepted exactly when none of it reaches the snapshot, or some of it aligns and all that is then taken in leaves usable books |
| DepthSync.BootstrapSyncsExactly | src/tradingbotsuite/adapters/binance.py:1378-1430 | for any buffer, a snapshot response ends synced exactly when its own book is usable and the buffer is accepted, and ends at the last event taken in |
| DepthSync.AlignedSuffix | src/tradingbotsuite/adapters/binance.py:1401-1413 | in a chained buffer with an event that aligns with the snapshot, the events replayed are a suffix that starts with an aligned event |
| DepthSync.BootstrapCatchesUp | src/tradingbotsuite/adapters/binance.py:1378-1430 | on a chained, usable buffer a snapshot response ends synced exactly when no event reaches the snapshot or one that reaches it aligns, and has then caught up with the last buffered event |
| DepthSync.HoleStopsBootstrap | src/tradingbotsuite/adapters/binance.py:1401-1425 | a chained, usable buffer with a snapshot inside its ids that ends unsynced, because the snapshot id falls into a hole |
| DepthSync.PublishedInRange | src/tradingbotsuite/adapters/binance.py:1853-1903 | in every reachable state a book is published exactly when synced, is not crossed, has every depletion in (0, 1] and every imbalance in [-1, 1] |
| DepthSync.ReportedSyncedIsTrue | src/tradingbotsuite/adapters/binance.py:1905-1918 | whenever the reported state is synced, the local book is the server book at the last update id |
| DepthRecovery.RunFollows | src/tradingbotsuite/adapters/binance.py:1348-1769 | over every run, which id the book mirrors, if any, and which events wait are what the inputs and the server's books say: a message waits, is old, brings the mirror to its own end or breaks it; a snapshot mirrors the server when what waits lies before it or continues from it; a disconnect or a refused request ends the mirror; while there is one nothing waits |
| DepthRecovery.MirrorIsLostExactly | src/tradingbotsuite/adapters/binance.py:1628-1769 | a mirror is lost exactly on a disconnect, a refused request, or a message that is not old and leaves ids out or ends on a book that cannot be published |
| DepthRecovery.SilentUntilAnswered | src/tradingbotsuite/adapters/binance.py:1752-1769 | after a disconnect, a refused request or any loss of the mirror, nothing is published and "synced" is not reported until a snapshot request is answered, whatever arrives |
| DepthRecovery.AnswerRecovers | src/tradingbotsuite/adapters/binance.py:1378-1430 | when the messages since the loss lost nothing, the next answered snapshot restores the mirror exactly when nothing heard reaches it or something heard continues from it, and the book is the server's at the end of the last event heard, or at the snapshot if that is later |
| DepthRecovery.ReportedSyncedExactly | src/tradingbotsuite/adapters/binance.py:1905-1918 | "synced" is reported exactly when a mirror stands, no request is under way, no backoff runs and the stream is not quiet |
| DepthRecovery.LostMirrorIsRescheduled | src/tradingbotsuite/adapters/binance.py:1752-1784 | what is reported when the mirror is lost is a backoff if one runs and a pending resync otherwise |
| DepthReadings.PublishedMeans | src/tradingbotsuite/adapters/binance.py:1853-1903 | the published best prices are the first of each side's sorted prices, an imbalance times the resting quantity of both sides is what the bids rest more than the asks, and a depletion times the greatest reading in the history is the present depth |
| DepthReadings.HistoryIsServers | src/tradingbotsuite/adapters/binance.py:1732-1750 | in every reachable state the history is made of readings of publishable books the server had, one for each time, over the last minute |
| DepthReadings.RecordedExactly | src/tradingbotsuite/adapters/binance.py:1732-1750 | with the clock moving on and room left, recording drops exactly the readings more than a minute old |
| DepthMetrics.Best | src/tradingbotsuite/adapters/binance.py:1857-1860 | the head of the sorted levels is a resting price that no other resting price beats |
| DepthMetrics.TopDepthPositive | src/tradingbotsuite/adapters/binance.py:1863-1873 | the summed depth of the top levels of a positive side is never negative, and positive when a level is there |
| DepthReadings.TopDepthIsResting | src/tradingbotsuite/adapters/binance.py:1863-1873 | the summed depth of n levels is what rests at the n best prices, best first |
| DepthMetrics.PushBounded | src/tradingbotsuite/adapters/binance.py:1683-1690 | appending to a full bounded queue drops its oldest entries and keeps the rest in order |
| DepthMetrics.Recorded | src/tradingbotsuite/adapters/binance.py:1732-1750 | after same-time replacement, trimming and the cap, the last history entry was measured on the current book and the history is within its cap |
| DepthMetrics.ImbalanceInRange | src/tradingbotsuite/adapters/binance.py:1863-1867 | the imbalance of two non-negative depths lies in [-1, 1] |
| DepthMetrics.DepletionInRange | src/tradingbotsuite/adapters/binance.py:1879-1882 | depletion lies in (0, 1] when the history ends with the current depth |
| LocalOrderBook.OrderBook.ApplyDepthSide | src/tradingbotsuite/adapters/binance.py:1723-1730 | the loop over one update leaves the dictionary that the specification gives |
| LocalOrderBook.OrderBook.RecordDepthHistory | src/tradingbotsuite/adapters/binance.py:1732-1750 | leaves the specified history and changes nothing else |
| LocalOrderBook.OrderBook.BufferDepthEvent | src/tradingbotsuite/adapters/binance.py:1683-1690 | leaves the specified bounded buffer and sync state |
| LocalOrderBook.OrderBook.ApplyDepthEvent | src/tradingbotsuite/adapters/binance.py:1692-1716 | state and way of ending are those of the specified event step |
| LocalOrderBook.OrderBook.HandleDepthMessage | src/tradingbotsuite/adapters/binance.py:1628-1668 | state after a message is that of the specified step, including the fallback after a raised event |
| LocalOrderBook.OrderBook.ReplayEvents | src/tradingbotsuite/adapters/binance.py:1426-1427 | stops at the first event that raises, in the specified state |
| LocalOrderBook.OrderBook.ReplayDepthBuffer | src/tradingbotsuite/adapters/binance.py:1401-1429 | state after the cut, aligned and replayed buffer is the specified one |
| LocalOrderBook.OrderBook.BootstrapOrderBook | src/tradingbotsuite/adapters/binance.py:1378-1430 | state after a snapshot response is that of the specified step |
| LocalOrderBook.OrderBook.HandleDepthDisconnect | src/tradingbotsuite/adapters/binance.py:1752-1769 | state after a disconnect is the specified one, which `SilentUntilAnswered` proves unsynced and unpublished until a snapshot is answered; a book that never started is untouched |
| LocalOrderBook.OrderBook.Handle | src/tradingbotsuite/adapters/binance.py:1628-1769 | each input leaves the object in the state of the abstract step |
| LocalOrderBook.Drive | src/tradingbotsuite/adapters/binance.py:1348-1769 | an object driven through any possible run holds, whenever synced, the server book at its last update id |
| PriceRules.IsValidDecides | src/tradingbotsuite/adapters/execution.py:1152-1165 | the digit-counting test holds exactly for the legal prices: positive, and an integer or at most five significant figures within the allowed decimals |
| PriceRules.LegalScales | src/tradingbotsuite/adapters/execution.py:1152-1165 | legality of a price is legality of its whole number of smallest units |
| PriceRules.FloorIsGreatest | src/tradingbotsuite/adapters/execution.py:1179-1184 | when rounding down at a step is legal and all finer steps failed, it is the greatest legal number at or below |
| PriceRules.FloorFails | src/tradingbotsuite/adapters/execution.py:1179-1184 | when rounding down at a step is not legal, the number is too long for every legal number below to use that step |
| PriceRules.CeilIsLeast | src/tradingbotsuite/adapters/execution.py:1179-1184 | dually, the first legal rounding up is the least legal number at or above |
| PriceRules.CeilFails | src/tradingbotsuite/adapters/execution.py:1179-1184 | dually for rounding up |
| Decimals.StripIsLeast | src/tradingbotsuite/adapters/execution.py:1149-1150 | of all ways to write a number with a power of ten the one without trailing zeros has the smallest coefficient |
| HyperliquidOrders.FirstLegalIsBest | src/tradingbotsuite/adapters/execution.py:1167-1188 | the first legal candidate, one per number of decimals, is the best legal price on its side |
| HyperliquidOrders.RaisesExactlyWhen | src/tradingbotsuite/adapters/execution.py:1185-1188 | rounding down raises, below 10^-max decimals, exactly when no legal price is at or below; where rounding up raises, on non-positive prices, legal prices do lie above |
| HyperliquidOrders.NormalizePrice | src/tradingbotsuite/adapters/execution.py:1167-1188 | returns the greatest legal price at or below, or the least at or above, or raises as specified; missing prices and unknown symbols pass through |
| HyperliquidOrders.NormalizesToIsUnique | src/tradingbotsuite/adapters/execution.py:1167-1188 | the specification determines the result |
| ExchangeRules.NormalizedIsNearestTaken | src/tradingbotsuite/adapters/execution.py:1149-1188 | the result is the nearest price, on the side asked for, that the exchange takes: whole, or of at most five significant figures with decimals and size decimals together at most six, eight on the spot market; rounding down raises exactly when there is none |
| ExchangeRules.WholeOnly | src/tradingbotsuite/adapters/execution.py:1149-1150 | with size decimals at or beyond the limit the exchange takes whole prices only |
| ExchangeRules.NormalizedIsMostLots | src/tradingbotsuite/adapters/execution.py:1190-1197 | the normalised size is the largest positive number of whole lots of 10^-size decimals within the size, and raises exactly when there is none |
| HyperliquidOrders.LegalIsFixed | src/tradingbotsuite/adapters/execution.py:1167-1188 | a legal price normalises to itself, either way |
| HyperliquidOrders.NormalizeSize | src/tradingbotsuite/adapters/execution.py:1190-1197 | the result is the greatest multiple of the size step at or below the size; it raises exactly when that is not positive |
| HyperliquidOrders.SizeIsFixed | src/tradingbotsuite/adapters/execution.py:1190-1197 | rounding a size twice changes nothing |
| HyperliquidOrders.NormalizePacket | src/tradingbotsuite/adapters/execution.py:408-428 | a refused packet passes unchanged; an accepted one gets specified size, take-profit and stop, or the first error |
| HyperliquidOrders.NormalizingTwice | src/tradingbotsuite/adapters/execution.py:408-428 | normalising a normalised packet changes nothing and never raises |
| HyperliquidOrders.SubmitProtective | src/tradingbotsuite/adapters/execution.py:1267-1278 | the order carries the specified size and trigger, or the error |
| HyperliquidOrders.SubmitFromPacket | src/tradingbotsuite/adapters/execution.py:170-205 | the order submitted for a normalised packet carries exactly the size and trigger of the packet |
| ExchangeRules.IntentsExactly | src/tradingbotsuite/adapters/execution.py:170-205 | an accepted packet with a size gets one protective order for each leg that has a price, with the packet's direction and size, the take-profit first; any other packet gets none |
| ExchangeRules.SubmitBracket | src/tradingbotsuite/adapters/execution.py:408-428 | from the raw packet to the orders: every leg that has a price is sent, on the closing side, in whole lots within the size, at a price the exchange takes, moved toward the entry if at all |
| HyperliquidOrders.BracketKeepsOrder | src/tradingbotsuite/adapters/execution.py:1199-1206 | around a legal entry, rounding toward the entry keeps stop and take-profit on their sides, for long and short, and moves each leg only toward the entry |
| Risk.PositionSizeIsLargest | src/tradingbot/risk.py:25-33 | a size is at most the computed one exactly when it risks at most the budget down to the stop and stays under the leverage cap |
| Risk.PositionSizeWithin | src/tradingbot/risk.py:25-33 | a positive computed size risks at most the budget and stays under the leverage cap |
| TradeTerms.OpensExactly | src/tradingbot/risk.py:9-33 | a position is opened exactly when some size is affordable, at the price asked for, with the stop below a long and above a short by the fixed share of the price, or the greater of the scaled average range and the least share, and of the largest affordable quantity |
| TradeTerms.StopIsProtective | src/tradingbot/risk.py:9-22 | at a positive price with a positive least distance the stop lies on the losing side of the entry |
| TradeTerms.TradeSettles | src/tradingbot/backtest.py:906-937 | a closed trade books what was made on the move, less fees and slippage in basis points of the entry value, less funding for every bar held, at least one |
| Ledger.ExitIsBounded | src/tradingbot/backtest.py:901-937 | leaving at a price not beyond the stop loses gross at most the risk budget of the equity before |
| Ledger.UnhitCandleWithinStop | src/tradingbot/backtest.py:901-904 | while the stop test is false, no price of the candle is beyond the stop |
| Ledger.OpenedIsSized | src/tradingbot/risk.py:9-33 | every opened position is sized within the risk budget and the leverage cap |
| Ledger.CloseKeepsSound | src/tradingbot/backtest.py:906-937 | closing books cost, equity and curve consistently and keeps every bound |
| Ledger.CurveIsNetSum | src/tradingbot/backtest.py:906-937 | after n trades the equity point is the initial equity plus the net results of those n trades |
| Ledger.Conservation | src/tradingbot/backtest.py:906-937 | equity is the initial equity plus the sum of the net results of all trades |
| Ledger.BoundedNet | src/tradingbot/backtest.py:906-937 | without funding a bounded trade leaves at least the surviving share of the equity before it |
| Ledger.EquityFloor | src/tradingbot/backtest.py:906-937 | without funding, after n bounded trades at least initial equity times share^n is left, share = 1 - risk - leverage cap * cost rate |
| ZoomEngine.FirstExit | src/tradingbot/backtest.py:244-269 | the child at which a position is left is the first one at which its stop or its signal fires |
| ZoomEngine.FirstEntry | src/tradingbot/backtest.py:289-328 | the child at which a position is opened is the first one that yields an entry |
| ZoomEngine.ZoomBarKeeps | src/tradingbot/backtest.py:219-386 | a bar keeps the account sound and forces no trade |
| ZoomEngine.ZoomReportSound | src/tradingbot/backtest.py:219-394 | on valid candles a whole zoom run conserves equity, has at most one open position, ends flat, bounds every stop or signal exit, and only its last trade can be forced |
| ZoomEngine.ForcedTradeBounded | src/tradingbot/backtest.py:243-394 | the trade that the end of the test forces is bounded like any other, unless the last bar opened it at a child and closed beyond its stop |
| ZoomEngine.ZoomEquityFloor | src/tradingbot/backtest.py:219-394 | the equity floor over the first n unforced trades of a zoom run |
| ZoomJournal.ReportHasJournal | src/tradingbot/backtest.py:219-394 | every trade of a zoom run: opened by a start signal of an allowed side on the first bar, and at the first child or else the close, on which a flat account could open anything, on the worse side of the child; closed by the first candle after that at which its stop was traded at or its side ended; the next can open from the bar after, or on the closing bar when flips are allowed; no entry is missed |
| ZoomJournal.ManagedExactly | src/tradingbot/backtest.py:243-286 | a bar keeps the position it is handed exactly when no child, and not the bar itself, trades at its stop or ends its side, and otherwise books it at the first that does |
| ZoomJournal.EnterExactly | src/tradingbot/backtest.py:288-386 | a flat account opens exactly what the first child that yields a size gives, long before short, or else the close, and the children after the entry keep it or book it |
| ZoomJournal.StopExitsLose | src/tradingbot/backtest.py:906-937 | on positive prices every trade a zoom run closes at its stop is closed at a loss |
| ZoomEngine.HeldMeansUnhit | src/tradingbot/backtest.py:243-386 | a position a bar leaves open is the one it was handed, hit neither by the bar nor by any child; or the entry found at the first child that yields one, hit by no later child; or the entry at the close of the bar |
| ZoomEngine.RunZoom | src/tradingbot/backtest.py:219-394 | the engine loop computes the specified report |
| ZoomEngine.RunBar | src/tradingbot/backtest.py:219-386 | the loop body computes the specified bar |
| ZoomEngine.Watch | src/tradingbot/backtest.py:363-386 | the walk over the children after an entry is the specified one |
| ZoomEngine.EnterAtChild | src/tradingbot/backtest.py:289-328 | the search for an entry returns the first child that yields one |
| ZoomEngine.Book | src/tradingbot/backtest.py:906-937 | a booked trade updates equity, curve and trades as specified |
| ReferenceEngine.RowKeeps | src/tradingbot/backtest.py:434-494 | a row keeps every trade bounded and leaves an open position within its stop at the close |
| ReferenceEngine.ReferenceReportSound | src/tradingbot/backtest.py:434-502 | on valid candles every trade of the reference engine, the forced last one included, is bounded, equity is conserved, and the run ends flat |
| ReferenceEngine.ReferenceEquityFloor | src/tradingbot/backtest.py:434-502 | the equity floor over any first n trades of a reference run |
| ReferenceJournal.ReportHasJournal | src/tradingbot/backtest.py:434-502 | the same for the reference run, row by row: entries and signal exits at the close, stop exits at the stop and counted as held for one bar; after a stop the same row can open again |
| ReferenceJournal.StopExitsLose | src/tradingbot/backtest.py:434-502 | on positive closes every trade a reference run closes at its stop is closed at a loss |
| ReferenceEngine.RunReference | src/tradingbot/backtest.py:434-502 | the engine loop computes the specified report |
| IntrabarFrames.FramesAgree | src/tradingbot/backtest.py:446 | for every execution row in a base bar, the frame the zoom engine builds at the matching child equals the frame the reference engine builds by filtering the whole history |
| IntrabarFrames.EveryChildIsARow | src/tradingbot/backtest.py:812-820 | every grouped child is reached by some execution row |
| IntrabarFrames.ZoomRefinesReference | src/tradingbot/backtest.py:523-559 | for every child row of every bar the zoom frame is the reference frame at that row |
| IntrabarFrames.FrameIsClosedBarsAndChildren | src/tradingbot/backtest.py:523-559 | the frame at a child is the closed bars before the base bar and a last bar that opens with the first child, closes with that child, reaches as far as any child so far and carries all their volume |
| IntrabarFrames.GroupExecutionRows | src/tradingbot/backtest.py:812-820 | the groups hold exactly the rows of each base bucket, in order, and no empty group |
| IntrabarFrames.StepCache.IntrabarStep | src/tradingbot/backtest.py:523-559 | remembered or not, the step is the evaluation of the zoom frame, and the memo grows by exactly it |
| EntryCooldown.AcceptedAreSpaced | src/tradingbot/lorentz_lc.py:112-145 | accepted entries are more than the cooldown apart |
| EntryCooldown.RejectedOnlyWhenClose | src/tradingbot/lorentz_lc.py:112-145 | a candidate is rejected exactly when an accepted entry lies within the cooldown before it |
| EntryCooldown.GreedyIsLargest | src/tradingbot/lorentz_lc.py:112-145 | no set of candidate bars with the required spacing is larger than the accepted one |
| EntryCooldown.ApplyEntryCooldown | src/tradingbot/lorentz_lc.py:112-145 | the loop accepts exactly the specified bars, on both sides together |
| Neighbours.StoreIsSlidingWindow | src/tradingbot/lorentz_lc.py:185-252 | after every bar the index, label and distance lists are the last k of the whole accepted stream, no stored index is ahead, and the prediction is the label sum, bounded by k |
| Neighbours.LoopIsIncremental | src/tradingbot/lorentz_lc.py:180-274 | what the loop produced after n bars is a prefix of what it produces later |
| Neighbours.WalkWindow | src/tradingbot/lorentz_lc.py:226-244 | the inner loop over one window computes the specified scan |
| Neighbours.RunLoop | src/tradingbot/lorentz_lc.py:185-274 | the main loop computes the specified columns |
| NeighbourRules.RunTakesAndVotes | src/tradingbot/lorentz_lc.py:185-252 | of a run's bars, those by which the frame exceeds the history and one bar take nothing; every later one takes exactly the neighbours, among the bars it looks at, at places let in and at finite distances that reach the last one taken, or, once more than the allowed number were ever taken, the one at three quarters of the last of those; it predicts the votes for rising less those for falling among the last ones taken |
| LorentzRows.SignalsFollowPredictions | src/tradingbot/lorentz_lc.py:254-264 | the signal is the side of the last prediction so far that is not zero, is strong enough and falls on a bar whose filters all pass, and zero before there is one |
| Lorentz.CountBarsSince | src/tradingbot/lorentz_lc.py:10-21 | each counter is the distance to the last true bar, or missing |
| Lorentz.ArmedColumn | src/tradingbot/lorentz_lc.py:337-342 | armed exactly when the exit condition was last met before the last entry |
| Lorentz.EntryColumns | src/tradingbot/lorentz_lc.py:327-335 | the entry columns are the cooled-down candidates |
| Lorentz.ExitColumns | src/tradingbot/lorentz_lc.py:337-349 | the exit columns are the specified ones, dynamic or strict |
| Lorentz.Generate | src/tradingbot/lorentz_lc.py:149-349 | the whole pipeline computes the specified rows |
| LorentzRows.RowsFollowPredictions | src/tradingbot/lorentz_lc.py:254-349 | every row follows from the predictions: signal, bars held, starts (allowed, newly backed by signal and trend tests, confirmed by the kernel, strong, no early flip, and out of the cooldown of every earlier start) and ends, dynamic or strict |
| LorentzExits.StrictExitExactly | src/tradingbot/lorentz_lc.py:345-346 | a side is left at t exactly when it was entered at t - 4 and, with a persistence of one bar, the signal stayed unchanged since, or, with a longer one, the opposite side is newly confirmed at t |
| LorentzExits.OneArmIsDead | src/tradingbot/lorentz_lc.py:345-346 | with a persistence of one bar the counter is zero whenever the opposite side is new, so the early arm is dead; with a longer one it is never four, four bars after an entry, so the other arm is dead |
| LorentzExits.LongPersistenceNeverExits | src/tradingbot/lorentz_lc.py:345-346 | with a persistence of five bars or more no strict exit ever fires |
| ExitWitness.EarlyArmFires | src/tradingbot/lorentz_lc.py:345-346 | with a persistence of two bars the early arm does fire: ten positive closes, with the ADX of length one as the only feature, on which it leaves a long at bar nine |
| LorentzExits.HeldFourMeansUnchanged | src/tradingbot/lorentz_lc.py:266-271 | four bars after a change of signal the counter reads four exactly when nothing changed since |
| LorentzExits.ArmedExactly | src/tradingbot/lorentz_lc.py:337-342 | armed exactly when some entry has no exit condition at or after it but one before it |
| LorentzExits.DynamicExitExactly | src/tradingbot/lorentz_lc.py:337-344 | a long is left at t exactly when t is a bearish change and some long entry before t has had none since but one before it |
| LorentzExits.ShortDynamicExitExactly | src/tradingbot/lorentz_lc.py:337-344 | the same for shorts with bullish changes |
| LorentzExits.EntryBetweenDynamicExits | src/tradingbot/lorentz_lc.py:337-344 | two dynamic long exits have a long entry strictly between them |
| LorentzExits.EntryBetweenShortDynamicExits | src/tradingbot/lorentz_lc.py:337-344 | two dynamic short exits have a short entry strictly between them |
| LorentzExits.EntriesAreSpaced | src/tradingbot/lorentz_lc.py:112-145 | entries of a run, both sides together, are more than the cooldown apart |
| NoRepainting.RowsNeverRepaint | src/tradingbot/lorentz_lc.py:180-349 | in every label mode, on a frame of a safe length a run on a prefix gives exactly the first rows of the full run |
| NoRepainting.MutedSeries | src/tradingbot/lorentz_lc.py:70-79 | where the history is too short to reach a label, or labels look ahead over the end of a frame of five bars, every prediction and signal of the run is zero |
| NoRepainting.SeriesIgnoresFuture | src/tradingbot/lorentz_lc.py:180-274 | prediction, signal and bars held on a prefix are the prefix of the full columns |
| NoRepainting.ForwardLabelsRepaint | src/tradingbot/lorentz_lc.py:70-79 | in the forward label modes a label repaints exactly when its fourth next bar was still missing and moved |
| FrameLength.LongFramesRepaint | src/tradingbot/lorentz_lc.py:180-252 | for every neighbour count and every history beyond the first labelled index, a frame that skips that bar repaints it when the bars up to it look alike and the source moved |
| FrameLength.DuelShows | src/tradingbot/lorentz_lc.py:198-252 | where equally far bars and then a labelled one at no distance are offered, and together with those taken before they are one more than the store holds before it turns over, a frame that skips the first of those taken predicts otherwise than every shorter frame that does not |
| FrameLength.SoleShows | src/tradingbot/lorentz_lc.py:198-252 | where the only bar ever taken is a labelled one, a frame that skips the bar that takes it predicts otherwise than every shorter frame that does not |
| FrameWitnesses.UnsafeFramesRepaint | src/tradingbot/lorentz_lc.py:154-252 | for every label mode, every history and every unsafe frame length there are settings and that many positive closes that repaint, with the direction of the close as the only feature, the source's sum of growing component distances, and whatever filters, trend tests and kernels |
| FrameWitnesses.NeverRepaintsExactly | src/tradingbot/lorentz_lc.py:154-252 | in every label mode, no frame of a length repaints, over all prices, feature definitions and settings, exactly when the length is safe |
| FrameWitnesses.FewNeverRepaintExactly | src/tradingbot/lorentz_lc.py:154-252 | for one or two neighbours and every label mode that looks back, rolling ones included, the lengths that never repaint are exactly those up to which no skipped bar can accept a label |
| FeatureCausality.PriceRowsNeverRepaint | src/tradingbot/lorentz_lc.py:154-349 | on a safe frame, computing the features of the first n bars from the prices and classifying them gives the first n rows of the whole frame |
| PriceFrames.ColumnsStartBlind | src/tradingbot/indicators.py:132-149 | no feature column has a value at bar zero, save the ADX of length one |
| PriceFrames.AdxOfOneIsOne | src/tradingbot/features_lc.py:210-276 | the ADX feature of length one has no other value than one, because a bar moves one way only |
| PriceFrames.PricesStart | src/tradingbot/lorentz_lc.py:154-179 | on computed features bar zero has no distance to any bar, or no two bars are apart |
| PriceFrames.SafePrices | src/tradingbot/lorentz_lc.py:154-349 | on computed features a frame of a safe length, four bars more where index zero is accepted, never repaints |
| PriceTurns.TurnColumn | src/tradingbot/features_lc.py:192-193 | the RSI feature with both lengths one is the direction of the last move of the price: missing before the first, one after a rise, zero after a fall |
| FeatureCausality.FeatureSeriesIgnoresFuture | src/tradingbot/indicators.py:132-149 | every feature column on the first n bars is the start of the column on all of them; what raises on all raises on a part |
| FeatureLaws.NamesMean | src/tradingbot/indicators.py:132-149 | which feature each name stands for, on which prices, and which length goes where |
| FeatureCausality.NRsiIgnoresFuture | src/tradingbot/features_lc.py:192-193 | the RSI feature of a prefix is the prefix of the RSI feature |
| FeatureCausality.NCciIgnoresFuture | src/tradingbot/features_lc.py:196-197 | the same for the CCI feature, whose normalisation uses the extremes seen so far |
| FeatureCausality.NWtIgnoresFuture | src/tradingbot/features_lc.py:200-207 | the same for the wave-trend feature |
| FeatureCausality.NAdxIgnoresFuture | src/tradingbot/features_lc.py:210-276 | the same for the ADX feature |
| FrameLength.BlankBeforeFirstBar | src/tradingbot/lorentz_lc.py:198-252 | bars before the first one worked on have an empty store and a zero prediction |
| OrderBlocks.Process | src/tradingbot/order_blocks.py:19-58 | after the frame, every snapshot lists exactly the blocks created by then and not mitigated by then, in creation order; every block ended at the first bar that closes through it or displaces it, and was touched last at the last earlier bar that trades into it; with the overlap rule rivals never share a snapshot, for both methods; over the whole run no mitigation index that was set ever changes |
| OrderBlockLaws.BlocksEndFirst | src/tradingbot/order_blocks.py:19-58 | a block ended on a bar exactly when that is the first, from its own on, that closes beyond its far edge, or its middle if asked for, or on which it gives way to a block of its side and scope whose range meets its own |
| OrderBlockLaws.ZoneIsBuilt | src/tradingbot/order_blocks.py:60-103 | the block of an event is built from the first bar that goes furthest between the broken pivot and the break, up to its far end, mean price or middle as configured |
| OrderBlockLaws.ZonesAreOfChosen | src/tradingbot/order_blocks.py:34-43 | with events in bar order there is one block for every event of the kind asked for, in order |
| OrderBlockLaws.AliveMembers | src/tradingbot/order_blocks.py:54-56 | a snapshot lists, in creation order, exactly the blocks created by its bar and not ended by it |
| OrderBlockLaws.TouchIsCommonPrice | src/tradingbot/order_blocks.py:50-52 | a bar touches a block exactly when they have a price in common |
| OrderBlockLaws.SharesAddUp | src/tradingbot/order_blocks.py:120-123 | relevances are to one another as the volumes of the anchors and add up to a hundred |
| OrderBlocks.FatesDetermineEnds | src/tradingbot/order_blocks.py:34-58 | the bars and the blocks determine every mitigation index: two lists that meet the fates are equal |
| OrderBlocks.NewestIsRefused | src/tradingbot/order_blocks.py:105-118 | under "Recent" the new block is refused exactly when an earlier rival was itself let in and no bar closed through it since |
| OrderBlocks.DisplacingSeparates | src/tradingbot/order_blocks.py:105-118 | the overlap rule leaves no two active rivals, whichever of them it ends |
| OrderBlocks.OrderBlockEngine.WorkBar | src/tradingbot/order_blocks.py:34-58 | one bar extends the timeline by one snapshot, keeps the earlier ones, and changes no mitigation index that was set |
| OrderBlocks.OrderBlockEngine.WorkEvents | src/tradingbot/order_blocks.py:34-43 | the admitted events of a bar become blocks in order; set mitigation indexes stay |
| OrderBlocks.OrderBlockEngine.CloseBar | src/tradingbot/order_blocks.py:45-58 | the close of a bar settles every fate one bar further and records the snapshot |
| OrderBlocks.OrderBlockEngine.AddBlock | src/tradingbot/order_blocks.py:35-43 | a new block is worked in without disturbing the earlier ones |
| OrderBlocks.OrderBlockEngine.ApplyOverlap | src/tradingbot/order_blocks.py:105-118 | ends exactly the new block, if an active one is its rival, or exactly the active rivals of the new block, by the chosen method |
| OrderBlocks.OrderBlockEngine.RecalculateRelevance | src/tradingbot/order_blocks.py:120-123 | each listed block gets its share of the listed volume, others keep theirs |
| OrderBlocks.OrderBlockEngine.RetireAndTouch | src/tradingbot/order_blocks.py:45-52 | exactly the active blocks the close goes through are mitigated, exactly the surviving ones traded into are touched |
| OrderBlocks.LifetimeIsFirstBreak | src/tradingbot/order_blocks.py:45-49 | without the overlap rule a block ends exactly at the first close through it |
| OrderBlocks.BarCloses | src/tradingbot/order_blocks.py:45-56 | retiring on a bar keeps the whole timeline and its invariants |
| OrderBlocks.BlockWorkedIn | src/tradingbot/order_blocks.py:35-43 | a block built on a bar, and the displacements it causes, keep every fate and change no earlier snapshot |
| OrderBlocks.FirstLowest | src/tradingbot/order_blocks.py:60-75 | the anchor of a long block is the first of the lowest lows in its range |
| OrderBlocks.FirstHighest | src/tradingbot/order_blocks.py:60-75 | the anchor of a short block is the first of the highest highs in its range |
| MarketStructure.StructureRuns | src/tradingbot/market_structure.py:19-94 | in the report, each scope has at most one event a bar, breaks confirmed extrema on the close, never breaks a pivot twice, and reports CHoCH or CHoCH+ exactly when its previous event had the opposite side |
| StructureEvents.ReportIsBreaks | src/tradingbot/market_structure.py:19-94 | scope by scope the report is exactly: on each bar a close beyond the newest extremum confirmed since the last break of its side, with two waiting on the other, BOS or against the last event CHoCH, CHoCH+ when the two newest of the other side already moved with it; no cap on pivots enters |
| StructureEvents.ReportIsInterleaved | src/tradingbot/market_structure.py:19-31 | the report is in the order of the bars, and on one bar the internal event comes first |
| MarketStructure.ScopeRunKeeps | src/tradingbot/market_structure.py:25-94 | the same invariant for one scope over every run, with the pending pivots fresh |
| MarketStructure.ScopesAreIndependent | src/tradingbot/market_structure.py:19-31 | the interleaved report restricted to a scope is the run of that scope alone |
| MarketStructure.OneBreakAtMost | src/tradingbot/market_structure.py:46-94 | both breaks cannot happen on one bar |
| MarketStructure.PivotState.CollectPivot | src/tradingbot/market_structure.py:33-44 | the mutable pivot lists become the specified ones |
| MarketStructure.PivotState.CheckBreakouts | src/tradingbot/market_structure.py:46-94 | pivots, trend and report become the specified ones |
| MarketStructure.Generate | src/tradingbot/market_structure.py:19-31 | the loop over both scopes computes the specified report |
| Shortlist.Prescreen | src/tradingbot/optimization.py:371-393 | the shortlist is as many candidates as asked for, the best by score, at equal scores the later ones; listed by score descending and place ascending |
| Shortlist.GreatestAreUnique | src/tradingbot/optimization.py:386-389 | the k greatest are determined, so the heap gives what sorting everything would |
| Shortlist.PushPopKeepsGreatest | src/tradingbot/optimization.py:386-389 | pushing into a full heap and popping its least keeps the k greatest |
| Shortlist.PushKeepsGreatest | src/tradingbot/optimization.py:386-387 | pushing while there is room keeps everything |
| Shortlist.ListInOrder | src/tradingbot/optimization.py:390 | the final listing has every kept item once, in order |
| Features.AveragesInHull | src/tradingbot/features_lc.py:24-73 | every finite EMA or RMA output lies in any range that holds the finite inputs seen so far |
| Features.WarmUpExactly | src/tradingbot/features_lc.py:34-46 | an average exists exactly once period finite values have come |
| Features.PineSmooth | src/tradingbot/features_lc.py:24-73 | the smoothing loop fills exactly the specified column, with seeding and carry-forward |
| Features.PineEma | src/tradingbot/features_lc.py:24-47 | the EMA column |
| Features.PineRma | src/tradingbot/features_lc.py:50-73 | the RMA column |
| FeatureLaws.EmaMoves | src/tradingbot/features_lc.py:24-47 | the first average times the period is the sum of the first finite values; after that (period + 1) times its move is twice the distance of the value, and a missing value repeats it |
| FeatureLaws.RmaMoves | src/tradingbot/features_lc.py:50-73 | the same with period times the move equal to the distance |
| Features.StrengthIsShare | src/tradingbot/features_lc.py:89-95 | in every branch the index times (gain + loss) is 100 times the gain; it is finite exactly when both are and their sum is positive; it lies in [0, 100] |
| Features.RsiInPercent | src/tradingbot/features_lc.py:84-95 | every finite RSI lies in [0, 100] |
| Features.NRsiInUnit | src/tradingbot/features_lc.py:192-193 | every finite RSI feature lies in [0, 1] |
| FeatureLaws.RsiIsShareOfRises | src/tradingbot/features_lc.py:84-95 | the index is the share, in percent, of the averaged rises in all averaged movement, and is there exactly when something moved |
| FeatureLaws.NRsiIsSmoothedShare | src/tradingbot/features_lc.py:192-193 | the feature is a hundredth of the index over the first length, smoothed over the second |
| Features.Normalize | src/tradingbot/features_lc.py:141-156 | the running-extremes loop computes the specified column |
| Features.NormalizedInTarget | src/tradingbot/features_lc.py:141-156 | every finite normalised value lies in the target range |
| Features.ExtremesAttained | src/tradingbot/features_lc.py:145-152 | the running extremes are values seen so far |
| Features.ExtremesMapToEnds | src/tradingbot/features_lc.py:153-156 | a new low maps to the bottom of the target and a new high, over a wide enough range, to its top |
| FeatureLaws.NormalizedIsLinear | src/tradingbot/features_lc.py:141-156 | normalising is linear between the least and the greatest value so far, over a range that counts as at least 1e-9 |
| Features.MeanDeviation | src/tradingbot/features_lc.py:98-112 | the mean-deviation loop fills exactly the full windows |
| Features.CciIsBounded | src/tradingbot/features_lc.py:98-114 | the channel index never exceeds period / 0.03 in size, whatever the prices do |
| Features.NCciInUnit | src/tradingbot/features_lc.py:196-197 | every finite CCI feature lies in [0, 1] |
| FeatureLaws.CciIsDistance | src/tradingbot/features_lc.py:98-114 | the index is the distance of the value from the mean of its window in units of 0.015 mean distances, missing where the window is or where all of it is equal |
| FeatureLaws.NCciStandsBetween | src/tradingbot/features_lc.py:196-197 | the feature says where the index over the first length, smoothed over the second, stands between its extremes so far |
| Features.NWtInUnit | src/tradingbot/features_lc.py:200-207 | every finite wave-trend feature lies in [0, 1] |
| FeatureLaws.ChannelIsGap | src/tradingbot/features_lc.py:200-207 | the channel is the gap to the average in units of 0.015 average gap sizes, both over the first length |
| FeatureLaws.NWtStandsBetween | src/tradingbot/features_lc.py:200-207 | the feature says where the channel averaged over the second length, less its average over four bars, stands between its extremes so far |
| Features.SmoothMovements | src/tradingbot/features_lc.py:243-256 | the smoothing loop computes the three running sums; a zero length fails on the first bar |
| Features.RangeNotNegativeExactly | src/tradingbot/features_lc.py:217-224 | the true range of a bar is negative exactly when its low is above its high, its own and the previous close are missing, and holes are not filled with zero |
| Features.MovementsNotNegative | src/tradingbot/features_lc.py:225-256 | the two directional sums are never negative, and the smoothed range is not without a blind inversion |
| Features.DxInPercent | src/tradingbot/features_lc.py:260-262 | the directional index lies in [0, 100] |
| Features.DxInPercentExactly | src/tradingbot/features_lc.py:260-262 | for non-negative sums the directional index lies in [0, 100] exactly when the range is not negative or both sums agree |
| FeatureLaws.TrueRangeIsGreatest | src/tradingbot/features_lc.py:217-224 | the true range is the greatest of the ranges that are there: low to high, and the close before to either |
| FeatureLaws.MovementsAccumulate | src/tradingbot/features_lc.py:225-256 | each running sum adds its own part, the reach of the bar beyond the one before on the side that reached further, and takes off one part in the length of what was there |
| FeatureLaws.DxIsShareOfReaches | src/tradingbot/features_lc.py:260-262 | the index is the share of the difference of the two directional sums in both, in percent; the range only says whether there is one, and its sign |
| Features.NAdxInUnit | src/tradingbot/features_lc.py:210-276 | every finite ADX feature lies in [0, 1] when holes are filled with zero or no bar is a blind inversion |
| Features.NAdxInUnitExactly | src/tradingbot/features_lc.py:210-276 | at length one the whole column lies in [0, 1] exactly when no bar is a blind inversion that moved on a range never missing before |
| Features.InvertedBarsLeaveTheRange | src/tradingbot/features_lc.py:210-276 | at every length the condition is needed: blind inversions that drift upward take the feature to -1 |
| Features.DriftingBarsExist | src/tradingbot/features_lc.py:210-276 | such frames exist, of every length |
| Dataset.DetectGaps | src/tradingbot/data/manager.py:197-213 | the loop computes the specified gap list of the sorted frame |
| Dataset.GapFreeExactly | src/tradingbot/data/manager.py:197-213 | for any stamps, a trimmed frame reports no gap exactly when every moment of the window has a row less than an interval old and the window end has a row |
| Dataset.GapFreeOnGrid | src/tradingbot/data/manager.py:197-213 | on grid stamps the gap list is empty exactly when the window starts and ends on the grid and every grid point of it is present |
| Dataset.GridPointIsModulo | src/tradingbot/data/manager.py:259-264 | a grid point is a stamp that flooring to the timeframe leaves alone |
| Dataset.MissingPointIsReported | src/tradingbot/data/manager.py:197-213 | on grid stamps a grid point is missing exactly when a reported gap covers it |
| Dataset.TrimKeeps | src/tradingbot/data/manager.py:191-195 | trimming keeps exactly the rows of the window |
| Dataset.MergeIsUnion | src/tradingbot/data/manager.py:182-189 | a merged frame has exactly one row for each stamp of either side, in order |
| Dataset.MergeIsConcatenation | src/tradingbot/data/manager.py:182-189 | frames that do not overlap are merged by putting one after the other |
| Dataset.FallbackPrecedesPrimary | src/tradingbot/data/manager.py:105-116 | fallback rows end at least one interval before the primary rows begin |
| Dataset.AssembledShape | src/tradingbot/data/manager.py:94-118 | the assembled frame is the fallback rows followed by the primary rows |
| DatasetLaws.AnswerHoldsExactly | src/tradingbot/data/manager.py:94-118 | an answer holds a stamp exactly when it lies in the window and the primary sent it, or the fallback did, was allowed, and it comes an interval before everything the primary sent for the window |
| DatasetLaws.AnswerDescribesItself | src/tradingbot/data/manager.py:94-152 | the record of an answer carries its key and window, the range and number of its rows, and exactly the providers whose rows it holds, the primary first, each with its first and last stamp and number of rows |
| DatasetLaws.CaseDoesNotMatter | src/tradingbot/data/manager.py:58-76 | symbols name the same dataset exactly when they differ at most in case |
| Dataset.RowsComeFromProviders | src/tradingbot/data/manager.py:94-118 | every row of an answer was sent by a provider and lies in the window |
| Dataset.AcceptedExactly | src/tradingbot/data/manager.py:118-133 | a record is accepted as complete exactly when its frame covers the window and holds both its ends |
| Dataset.ReachingRecordCovers | src/tradingbot/data/manager.py:70-76 | a gap-free record that reaches over a smaller window covers it |
| Dataset.AnswersHoldGrid | src/tradingbot/data/manager.py:58-153 | with grid stamps, an accepted answer, cached or fresh, holds every grid point asked for, and the cache stays on the grid |
| Dataset.Serve | src/tradingbot/data/manager.py:58-153 | over any sequence of requests from the empty cache, with grid stamps: every answer holds only rows that a provider sent for the same dataset by then, and one that may not be partial holds every grid point asked for |
| Dataset.DataManager.Gather | src/tradingbot/data/manager.py:94-118 | the providers part of a fetch yields the specified rows and summaries, or the deviation error |
| Dataset.DataManager.Store | src/tradingbot/data/manager.py:135-152 | a stored record is filed under its key and nothing else changes |
| Dataset.DataManager.FetchDataset | src/tradingbot/data/manager.py:78-153 | each error happens exactly when specified and leaves the cache alone; otherwise the answer is the specified record, cached under its key, and complete unless partial is allowed |
| Dataset.DataManager.ResolveDataset | src/tradingbot/data/manager.py:58-76 | a suitable cached record is returned as it is, anything else is fetched; with partial not allowed whatever is returned covers the whole window |

## Left out

- AlignmentIsContinuity, SyncedMeansServerBook: the snapshot carries the whole server book; a snapshot cut to a number of levels is not modelled.
- BootstrapSyncsExactly, BootstrapCatchesUp: say when a bootstrap succeeds, not when one is attempted; resync scheduling, backoff times, jitter, request budgets, counters and error texts are not modelled, only whether a backoff runs.
- ZoomReportSound: no loss bound for the forced END_OF_TEST trade, ForcedTradeBounded gives it. Where the last bar opened the position at a child there is none if the bar's own close lies beyond the stop, since only the children after the entry are tested. No order of timestamps between trades.
- RowsNeverRepaint: for safe frames; SafePrices gives the safe lengths on computed features and NeverRepaintsExactly shows that all other lengths do repaint.
- FewNeverRepaintExactly: in the two forward label modes the exact lengths are given over all neighbour counts together, not for one or two alone.
- PriceRowsNeverRepaint: the feature columns are computed, filter flags, trend tests and kernel estimates are per-bar inputs, so their own causality is not claimed.
- NAdxInUnit: sufficient for every length and exact at length one; beyond that an average can return into the range, and InvertedBarsLeaveTheRange shows that the condition cannot be dropped.
- Process: relevance percentages are proved step by step only, since blocks are shared with old snapshots and updated later. A block is named by its place in creation order instead of its random id.
- Prescreen: the heap is a set with a least element; the array layout of a binary heap is not modelled. Scores are reals, so a NaN score is not modelled.
- DetectGaps, MergeIsUnion: sorting is modelled as stable; which of two rows with equal stamps inside one provider's frame comes last is not promised by the source.
- FetchDataset: whether the cross-exchange comparison raises is an input; its deviation arithmetic is not modelled. Provider exceptions are not modelled.
- MeanDeviation: for windows of at least one bar.
- Binary floating point and Decimal context precision, overflow, and the difference between NaN and infinity in `normalize` (its callers feed it smoothed values only).
- NeverRepaintsExactly, UnsafeFramesRepaint: a distance is the sum over the features of any growing function of their differences; that the logarithm of one plus the difference grows is not proved.
- Distances, kernel estimates and filter flags of the classifier are inputs; the logarithms and exponentials behind them are not modelled.
- The base `run` loop, `_select_execution_rows`, report metrics and summary counters of the backtester.
- Cloning candidate configurations and reading and applying search values in the optimiser.
- Stream tracking, order indexes and cancellation in the execution adapter; sockets, HTTP, files, the command line and the web console.
