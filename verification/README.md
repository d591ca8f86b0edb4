# Verified model of the trading system

A Dafny model of the exchange's matching engine and of its FIX plumbing, with proofs of what a
participant and an operator rely on: price-time priority, an uncrossed book, ownership of
orders, conservation of quantities, framing of messages over arbitrary reads, sequence numbers
on both ends of a session, market-data snapshots and candles.

`dafny verify dfyconfig.toml` checks everything.

## How it is put together

**Matching engine, on values.** `Orders`, `Matching` and `PriceTime` hold orders, trades, the
greedy match over one flattened price-time sequence, and insertion and removal. `Engine` is the
command machine of one instrument: store, both sides of the book, order rows, recorded trades
and published events, stepped by New, Cancel and Modify. `Invariants`, `TradeLoops`,
`Reachable` and `Runs` prove what every step and every run keeps; `Guarantees`, `Ledger`,
`Accounts` and `Priority` prove what a participant is promised, command by command and over
whole runs; `Witnesses` holds a concrete run for the one promise the code does not keep.

**Matching engine, on objects.** `BookObjects`, `OrderBooks` and `Worker` are the same engine as
classes: order objects shared by reference between the order manager and the price levels, a
side as a sorted sequence of levels each holding a queue of references, the nested matching
loops, the cancel search, the self-match scan and the three command handlers. Each handler is
proved to take exactly the step of `Engine`, so everything proved there holds of the object
graph.

**Partitions.** `Partitions` and `TradingCore` let one worker per instrument take turns as small
as one trade, all drawing ids from one counter.

**Market data.** `MarketData` publishes snapshots from the levels, `ClientLadder` loads them,
`SnapshotWire` and `SnapshotCodec` print and parse them as FIX text, `SnapshotPath` joins all of
that from the exchange's book to the client's ladders, `Candles` aggregates trades into one- and
five-minute candles.

**FIX text.** `Text` and `Fields` are searching, numerals and tag=value fields; `Framing` is the
frame extractor with its grammar, `Outbound` the builder, `Headers` the message header,
`SessionMessages` the session messages, `ReadLoop` the session's reassembly of arbitrary reads,
`Chunking` the exact streams on which the cut into reads makes no difference, `ClientReader` the
client's own reassembly, which works differently. `Sequences` holds one fact about
concatenation that most of these use.

**FIX sequence numbers.** `Sessions` is the session manager with its write-behind database queue,
`ServerSession` and `ClientSession` are the two ends, `Lockstep` runs them against each other
over two FIFO directions, any number of connections, and restarts of the exchange.

## Findings

Five statements one would expect of the code do not hold in full. Each is replaced by the exact
condition under which it does, and each has a concrete input on which it fails.

- *A filled order leaves the store and the order table.* When an incoming order is completely
  filled by two or more trades, it leaves the store at the first of them, the lookups of the
  later trades fail, and the resting orders they filled stay behind: stored with nothing
  remaining, with rows that still show them open. `Ledger.StepRows` and `Ledger.StoreStaysOpen`
  give the condition both ways, in terms of the order and the opposite side before the match;
  `Witnesses.SecondFillIsLeftBehind` is a run of three commands.
- *What the builder prints, the framer accepts.* The builder adds up signed chars and prints a
  signed remainder. `Outbound.BuiltFramesAreRead`: accepted exactly when the sum is not negative
  or is a multiple of 256; otherwise refused as malformed. ASCII is always accepted; six bytes
  above 127 are refused (`Outbound.HighBytesAreRefused`).
- *Client and exchange stay in sequence.* `Lockstep.InStepIffKept` lists the actions that keep
  them in step and shows that every other action breaks it. After a Logout has arrived, the
  exchange's inbound number never moves again without a forced reset
  (`Lockstep.LogoutFreezesInbound`); connecting, logging on and logging out once is enough to
  get out of step (`Lockstep.LogoutEndsOutOfStep`).
- *Cutting the stream into reads makes no difference.* `Chunking.CutsMakeNoDifference`: it makes
  none if and only if, at every refusal, either nothing follows the bytes that are refused first
  or the next frame start has already arrived with them. So it makes none when nothing is
  refused (`ReadLoop.ChunkingInvariance`), and for every frame with two stray bytes in front
  some cut loses it (`ReadLoop.ResyncDependsOnChunking`).
- *What the exchange builds, the client reads whole.* The client ends a message behind the first
  "10=" instead of using BodyLength. `ClientReader.BuiltMessagesAreCut` and
  `SnapshotPath.SnapshotIsCut`: whole if and only if "10=" stands nowhere before the checksum
  field, cut short otherwise; a Heartbeat that answers a test request with "10=" in its id is
  (`SessionMessages.HeartbeatIsCut`).

The snapshot parser reads counts and positions as signed 32-bit numbers although they are sent
as unsigned ones; `SnapshotCodec.SnapshotSurvivesTheWire` carries that limit.

The comment in `client/client_fix/src/FixClientSession.cpp` says that a Logout does not advance
the expected number "if error"; the code never advances it, and the model follows the code.

## Model

| member | source | states |
|---|---|---|
| Matching.FillTakesPrefix | exchange/exchange_matching/src/Matcher.cpp:43-108 | A match fills a prefix of the price-time queue completely, reduces at most the next order, and leaves everything behind it untouched |
| Matching.FillTradesInOrder | exchange/exchange_matching/src/Matcher.cpp:64-85 | Trade i is with the i-th resting order, at that order's price, for all it has left unless it is the last trade, under consecutive ids and the right buyer and seller |
| Matching.FillStops | exchange/exchange_matching/src/Matcher.cpp:49-58 | A match ends only when the incoming order is filled or nothing left crosses its limit |
| Matching.FillConserves | exchange/exchange_matching/src/Matcher.cpp:87-92 | Incoming order and opposite side lose exactly what is traded; nothing else about the incoming order changes but its status |
| PriceTime.FillsAllItCan | exchange/exchange_matching/src/Matcher.cpp:43-108 | On a sorted side the match trades the incoming quantity or everything that crosses anywhere in the queue, whichever is less |
| PriceTime.FillKeepsSide | exchange/exchange_matching/src/Matcher.cpp:94-107 | What rests afterwards is still in price order, on its side, with something left and no repeated id, and does not cross an incoming order that still wants quantity |
| PriceTime.TradePrices | exchange/exchange_matching/src/Matcher.cpp:49-70 | Trade prices are within the limit, never better than the top of the book, and move monotonically away from it |
| PriceTime.InsertPosition | exchange/exchange_matching/src/OrderBook.cpp:12-19 | An order joins behind every order priced at least as well and before every worse one |
| PriceTime.RemovePosition | exchange/exchange_matching/src/OrderBook.cpp:38-83 | Cancelling takes out exactly one position, that of the id, and leaves the rest as it is |
| PriceTime.RemoveUndoesInsert | exchange/exchange_matching/src/OrderBook.cpp:12-83 | Cancelling an order restores the side it was inserted into |
| BookObjects.TradeWith | exchange/exchange_matching/src/Matcher.cpp:64-101 | One trade between two order objects: trade, both orders' new values and the id drawn, in terms of their old values |
| BookObjects.MatchLevel | exchange/exchange_matching/src/Matcher.cpp:60-102 | The inner loop keeps the whole match equal to what is done plus the greedy match still to come, until the level is empty or the incoming order filled |
| BookObjects.MatchLevels | exchange/exchange_matching/src/Matcher.cpp:47-108 | The outer loop over the price levels does the same, erasing levels that ran empty, and leaves the side well-formed |
| BookObjects.MatchTable | exchange/exchange_matching/src/Matcher.cpp:43-125 | The nested loops over levels of object queues give exactly the outcome of the greedy match on the flattened side, change no other object, and draw one id per trade |
| BookObjects.TradeIDGenerator.NextId | exchange/exchange_state/src/TradeIDGenerator.cpp:17-20 | Hands out the next id |
| OrderBooks.InsertOrder | exchange/exchange_matching/src/OrderBook.cpp:12-19 | Appending to the queue of the order's price is insertion in price-time order; the side stays sorted, without empty levels, every order under its own price |
| OrderBooks.CancelOn | exchange/exchange_matching/src/OrderBook.cpp:42-60 | The search over levels and queues finds the order exactly when its id is there, removes it alone, and drops its level if it ran empty |
| OrderBooks.CheckForSelfMatch | exchange/exchange_risk/src/RiskManager.cpp:12-38 | The loops over levels and queues decide exactly the self-match scan of the flattened side |
| Guarantees.ScanIsExact | exchange/exchange_risk/src/RiskManager.cpp:12-38 | The early-breaking scan rejects if and only if some resting order within the limit, at any depth, has the same sender |
| Guarantees.NoSelfTrade | exchange/exchange_risk/src/RiskManager.cpp:84-94 | No trade of an accepted new order has the same sender on both sides |
| Guarantees.PriceProtection | exchange/exchange_risk/src/RiskManager.cpp:59-82 | Every trade of an accepted new limit order lies between the opposite top before its arrival and its limit, hence within ten percent of that top, with prices moving away from the top |
| Guarantees.MatchConserves | exchange/exchange_matching/src/Matcher.cpp:66-90 | A match takes equal, positive quantities from both sides, as much as anyone could trade |
| Guarantees.EachOrderConserves | exchange/exchange_matching/src/Matcher.cpp:87-90 | Every stored order loses in a match exactly the sum of its own trades |
| TradeLoops.LoopEffect | exchange/exchange_routing/src/WorkerThread.cpp:109-130 | Closed form of the trade loop: which orders leave store and table, which rows are updated, which trades are published, including the loop's end after the first trade of a completely filled order |
| Reachable.NewKeeps | exchange/exchange_routing/src/WorkerThread.cpp:93-147 | A new order, accepted or rejected, keeps the engine's invariant |
| Reachable.CancelKeeps | exchange/exchange_routing/src/WorkerThread.cpp:149-171 | So does a cancel, found or not |
| Reachable.ModifyKeeps | exchange/exchange_routing/src/WorkerThread.cpp:173-227 | So does a modify, whatever its new price and quantity |
| Runs.StepPlaces | exchange/exchange_routing/src/WorkerThread.cpp:136-146 | A command that matches ends with the rest of a limit order on the book, or with the order forgotten |
| Runs.RunKeepsInv | exchange/exchange_routing/src/WorkerThread.cpp:93-227 | The invariant holds after every run from the empty book, and only submitted orders are ever stored |
| Runs.BookNeverCrossed | exchange/exchange_routing/src/WorkerThread.cpp:93-227 | After every run best bid < best ask, both sides are in price order on their own side, and each id rests at most once |
| Runs.OwnershipOverRuns | exchange/exchange_routing/src/WorkerThread.cpp:109-146 | After every run the book shows the store's own orders, every stored order is Limit, it rests exactly while something remains of it, and the table has exactly the store's ids |
| Invariants.OnBookIffRemaining | exchange/exchange_routing/src/WorkerThread.cpp:132-146 | A stored order is on the book if and only if it has quantity left, and then on one side only |
| Accounts.NoOrderOvertrades | exchange/exchange_matching/src/Matcher.cpp:66-90 | After every run, for every order ever submitted, in the store or gone: it has traded at most the quantity of its acceptance or last modify; a stored order has exactly the rest remaining; one that has left the store has traded all of it, unless and only unless a cancel or the end of a market order cut it short |
| Accounts.ConservationOverRuns | exchange/exchange_matching/src/Matcher.cpp:66-90 | In particular, a stored order's original minus remaining quantity is the sum of its trades since acceptance or its last modify |
| Ledger.StepRows | exchange/exchange_routing/src/WorkerThread.cpp:104-130 | Rows keep agreeing with the store on remaining quantity and status across a command if and only if its order is not larger than the first resting order it meets, or not enough rests within its limit to fill it |
| Ledger.StoreStaysOpen | exchange/exchange_routing/src/WorkerThread.cpp:119-128 | The store keeps holding open orders only, unless and only unless the command's order is at least as large as the first two resting orders together and enough rests within its limit to fill it |
| Ledger.StepSpent | exchange/exchange_routing/src/WorkerThread.cpp:112-128 | Which filled orders a command leaves in the store: exactly those of the trades whose lookup failed |
| Witnesses.SecondFillIsLeftBehind | exchange/exchange_routing/src/WorkerThread.cpp:109-130 | Two resting sells and a buy that fills both: the second sell stays stored with nothing left and a stale row |
| Priority.TimePriority | exchange/exchange_matching/src/OrderBook.cpp:12-19 | In one command: two resting orders that it does not itself cancel or modify keep their order as long as the first still rests |
| Priority.JoinsBehind | exchange/exchange_routing/src/WorkerThread.cpp:136-140 | What a command leaves to rest joins behind all orders priced at least as well |
| Priority.FirstComeFirstServed | exchange/exchange_matching/src/OrderBook.cpp:12-19 | Over runs: of two orders that once rested one behind the other, neither cancelled nor modified since, the one ahead has traded everything or is still ahead and the one behind has traded nothing since |
| Priority.TimePriorityOverRuns | exchange/exchange_matching/src/Matcher.cpp:47-102 | Over runs: an order that joins the book behind one priced at least as well trades from there only when that one has traded all it was granted, as long as neither is cancelled or modified |
| Worker.OrderManager.AddOrder | exchange/exchange_state/src/OrderManager.cpp:7-20 | Takes ownership unless the id is already there |
| Worker.OrderManager.RemoveOrderById | exchange/exchange_state/src/OrderManager.cpp:47-54 | Forgets exactly that id |
| Worker.OrderRepository.SaveOrder | exchange/exchange_persistence/src/OrderRepository.cpp:30-63 | Inserts a row unless the key exists |
| Worker.WorkerThread.PreCheckOrder | exchange/exchange_risk/src/RiskManager.cpp:46-98 | The risk gate on objects decides exactly the value-level gate and changes nothing |
| Worker.WorkerThread.MatchOrder | exchange/exchange_matching/src/Matcher.cpp:15-41 | Matching an owned order against the book's objects moves store and book to the value-level state after the match |
| Worker.WorkerThread.CancelInBook | exchange/exchange_matching/src/OrderBook.cpp:38-83 | Bid side first, then ask side; found exactly when the id rests on either |
| Worker.WorkerThread.ProcessNewOrder | exchange/exchange_routing/src/WorkerThread.cpp:93-147 | The handler on the object graph takes exactly the New step, and the graph stays well-formed |
| Worker.WorkerThread.ProcessCancelOrder | exchange/exchange_routing/src/WorkerThread.cpp:149-171 | The same for Cancel |
| Worker.WorkerThread.ProcessModifyOrder | exchange/exchange_routing/src/WorkerThread.cpp:173-227 | The same for Modify |
| Worker.WorkerThread.ProcessCommand | exchange/exchange_routing/src/WorkerThread.cpp:70-91 | Dispatch of one queued command: exactly the step of the command machine |
| Partitions.FillAlike | exchange/exchange_matching/src/Matcher.cpp:81-84 | A match does not depend on the trade ids it draws |
| Partitions.StepAlike | exchange/exchange_routing/src/WorkerThread.cpp:93-227 | Nor does any whole command, up to the ids in its trades and reports |
| TradingCore.TurnStaysAlone | exchange/exchange_routing/src/WorkerThread.cpp:50-91 | One turn of a worker, whatever ids it draws, keeps its partition where its own commands alone would have brought it |
| TradingCore.PartitionsRunAlone | exchange/exchange_app/src/TradingCore.cpp:140-187 | Under any interleaving of arriving commands and worker turns, an idle partition's state is, up to trade ids, that of running its accepted and finished commands by itself, none lost, repeated or overtaken |
| TradingCore.NoPartitionIsCrossed | exchange/exchange_app/src/TradingCore.cpp:140-187 | If submitted orders are unfilled and use no id twice, no partition's book is ever crossed, under any interleaving and even in the middle of a command |
| TradingCore.AcceptedAreFresh | exchange/exchange_app/src/TradingCore.cpp:140-187 | Under the same requests, what each partition accepts is a run of fresh orders submitted on its own instrument |
| TradingCore.OrdersStayHome | exchange/exchange_app/src/TradingCore.cpp:262-272 | Under the same requests, an order is never stored outside the partition it was submitted to, so a cancel or modify is routed there exactly while that partition stores the order, and nowhere otherwise |
| TradingCore.TradeIdsAreUnique | exchange/exchange_state/src/TradeIDGenerator.cpp:17-20 | Over all partitions each id up to the counter belongs to exactly one trade, and a partition's ids increase |
| TradingCore.TradingCore.FindPartitionForOrder | exchange/exchange_app/src/TradingCore.cpp:262-272 | The scan over the partitions finds the first that stores the order, and finds one exactly when one does |
| TradingCore.TradingCore.SubmitCommand | exchange/exchange_app/src/TradingCore.cpp:140-187 | New orders go to their instrument's queue, cancels and modifies to the partition that stores the order, others nowhere |
| TradingCore.TradingCore.Work | exchange/exchange_matching/src/Matcher.cpp:62-102 | A worker's turn on the array of partitions; a trade draws the next id of the shared counter |
| MarketData.LadderIsExact | exchange/exchange_matching/src/OrderBook.cpp:114-148 | The published ladder of a side is strictly ordered and has a rung for exactly the prices present, each with exactly the quantity resting there |
| MarketData.PublishSide | exchange/exchange_matching/src/OrderBook.cpp:113-130 | The loops over levels and queues write exactly the rungs of that ladder, positions counted from 1 |
| MarketData.PublishSnapshot | exchange/exchange_matching/src/OrderBook.cpp:107-151 | Bids, then asks, each with positions from 1 |
| ClientLadder.AssignUpdates | client/client_orderbook/src/OrderBook.cpp:13-19 | Assigning a price keeps the map in order, sets that price and leaves every other as it was |
| ClientLadder.LoadShowsLastQuotes | client/client_orderbook/src/OrderBook.cpp:8-20 | From any entries at all, each ladder shows for each price the size of its last entry, and nothing else |
| ClientLadder.SnapshotRoundTrip | client/client_orderbook/src/OrderBook.cpp:8-20 | Loading what the exchange publishes gives exactly the ladders of its book |
| ClientLadder.ClientBook.HandleSnapshot | client/client_orderbook/src/OrderBook.cpp:8-20 | Clears both maps and assigns entry by entry |
| ClientLadder.ClientBook.GetUISnapshot | client/client_orderbook/src/OrderBook.cpp:48-76 | The first rungs of both maps, spread and mid price |
| ClientLadder.ClientSeesTheBook | client/client_orderbook/src/OrderBook.cpp:48-76 | After any run, the client's view shows the k best levels of each side with the exact quantities, and a positive spread around the mid price when both sides are present |
| Candles.CandlesAreSummaries | client/client_ohlc/src/CandleAggregator.cpp:58-89 | For trades in time order, every candle, finished or live, is the open, high, low, close and volume of exactly the trades of its interval, and every trade's interval has its candle |
| Candles.FiveMinutesRollUp | client/client_ohlc/src/CandleAggregator.cpp:11-17 | Every five-minute candle is the merge of exactly the one-minute candles of its window, and every one-minute candle's window has its five-minute candle |
| Candles.CandleAggregator.UpdateAggregate | client/client_ohlc/src/CandleAggregator.cpp:58-89 | Updating the live candle, or finishing it and opening the next, is one step of the aggregation; other symbols and intervals keep theirs |
| Candles.CandleAggregator.OnTrade | client/client_ohlc/src/CandleAggregator.cpp:11-17 | Both granularities of the symbol take the trade |
| Framing.Checksum | exchange/exchange_fix/src/FixMessageFramer.cpp:29-34 | The wrapping 32-bit sum gives the byte sum modulo 256 |
| Framing.ReadUnsigned | exchange/exchange_fix/src/FixMessageFramer.cpp:16-27 | Accepts exactly non-empty numerals within range, and gives their value |
| Framing.ExtractNextFrame | exchange/exchange_fix/src/FixMessageFramer.cpp:38-97 | The checks in their order, with their verdicts |
| Framing.ExtractIsGrammar | exchange/exchange_fix/src/FixMessageFramer.cpp:38-97 | A prefix of the buffer is extracted if and only if it satisfies the grammar of BodyLength and CheckSum |
| Framing.VerdictsAreStable | exchange/exchange_fix/src/FixMessageFramer.cpp:38-97 | A Complete or Malformed verdict never changes when bytes are appended |
| Framing.PrefixesWait | exchange/exchange_fix/src/FixMessageFramer.cpp:40-80 | Every strict prefix of a well-formed frame needs more data |
| Framing.WrongSumIsRefused | exchange/exchange_fix/src/FixMessageFramer.cpp:89-91 | A frame in which everything but the checksum's value is right is refused for exactly that |
| Framing.WaitsForTheRest | exchange/exchange_fix/src/FixMessageFramer.cpp:46-80 | No frame waits forever: while more data is wanted, a delimiter is missing or the buffer is shorter than the frame its header announces |
| Outbound.BuiltFramesAreRead | common/src/common_fix/OutboundMessageBuilder.cpp:35-49 | For every byte payload and any trailing bytes: framed back exactly when the signed sum is not negative or a multiple of 256, refused as malformed otherwise |
| Outbound.AsciiFramesAreRead | common/src/common_fix/OutboundMessageBuilder.cpp:35-49 | Every ASCII payload is framed back, embedded delimiters and "10=" included |
| Outbound.HighBytesAreRefused | common/src/common_fix/OutboundMessageBuilder.cpp:43-44 | A payload of six bytes 0x80 sums to -50 and is refused for its checksum field |
| Headers.HeaderRoundTrip | exchange/exchange_fix/src/FixSession.cpp:213-230 | The server's substring search reads back the sequence number and sender a message was built with, whatever its body |
| SessionMessages.ClientReadsHeader | client/client_fix/src/FixClientSession.cpp:240-251 | The client's split of a built message gives back its number and type, whatever clean body fields follow |
| SessionMessages.LogonIsRead | common/src/common_fix/OutboundMessageBuilder.cpp:52-57 | A Logon is read back by both ends as it was built |
| SessionMessages.LogoutIsRead | common/src/common_fix/OutboundMessageBuilder.cpp:59-65 | So is a Logout, whatever its text |
| SessionMessages.HeartbeatIsRead | common/src/common_fix/OutboundMessageBuilder.cpp:67-73 | So is a Heartbeat, whatever test request it answers |
| SessionMessages.HeartbeatIsCut | client/client_fix/src/FixClientSession.cpp:215-221 | A Heartbeat whose test request id holds "10=" does not reach the client whole |
| Fields.SplitToMap | common/src/common_fix/FixUtils.cpp:9-27 | The splitting loop gives the token-wise parse, tags read as the library reads signed 32-bit numbers, or fails where a tag is none |
| Fields.SplitPrint | common/src/common_fix/FixUtils.cpp:9-27 | Splitting printed fields gives the last value of every tag |
| ReadLoop.FixSession.OnRead | exchange/exchange_fix/src/FixSession.cpp:157-190 | Each read always ends; it hands on every complete frame under its type, rejects frames without one and refused bytes, in the order of the stream, and keeps the rest; a tag that is not a number ends it with an exception, with nothing behind it done or lost |
| ReadLoop.ChunkingInvariance | exchange/exchange_fix/src/FixSession.cpp:157-190 | The special case in which nothing of the stream is refused, for any framer with final verdicts: any cut into reads hands on the same frames and keeps the same rest |
| Chunking.CutsMakeNoDifference | exchange/exchange_fix/src/FixSession.cpp:157-190 | For every stream: all cuts into reads give the same frames, refusals and rest as one read, if and only if at every refusal nothing follows the bytes refused first, or the next frame start has arrived with them |
| ReadLoop.FramesSurviveChunking | exchange/exchange_fix/src/FixSession.cpp:157-190 | For any well-formed frames and any unfinished one behind them, in any chunks: exactly those frames, in order, nothing refused, and exactly the unfinished one kept |
| ReadLoop.JunkIsSkipped | exchange/exchange_fix/src/FixSession.cpp:164-176 | Refused bytes with no frame start among them are skipped in one go, and every frame behind them is handed on |
| ReadLoop.ResyncDependsOnChunking | exchange/exchange_fix/src/FixSession.cpp:164-176 | Every well-formed frame behind two stray bytes is found again in one read, and lost when the first read ends inside its BeginString |
| ClientReader.FixClientReader.OnRead | client/client_fix/src/FixClientSession.cpp:198-230 | Each read ends, hands on exactly what the drain of buffer plus data says, and keeps the rest |
| ClientReader.ClientChunkingInvariance | client/client_fix/src/FixClientSession.cpp:198-230 | For every stream of bytes, any cut into reads hands on the same messages and keeps the same rest |
| ClientReader.BuiltMessagesAreCut | client/client_fix/src/FixClientSession.cpp:215-221 | A built message reaches the client whole if and only if "10=" stands nowhere in it before the checksum field; otherwise it is cut short |
| ClientReader.CutAtCheckText | client/client_fix/src/FixClientSession.cpp:215-221 | Every payload that holds "10=" anywhere is cut short |
| Sessions.FixSessionManager.LoadConfig | exchange/exchange_fix/src/FixSessionManager.cpp:10-17 | Exactly the configured companies may log on afterwards |
| Sessions.FixSessionManager.Authenticate | exchange/exchange_fix/src/FixSessionManager.cpp:19-51 | Known companies are linked and logged on with their numbers from memory or database; others change nothing |
| Sessions.FixSessionManager.ValidateSequence | exchange/exchange_fix/src/FixSessionManager.cpp:53-84 | Only the expected number is taken over and persisted |
| Sessions.FixSessionManager.UseNextOutboundSequence | exchange/exchange_fix/src/FixSessionManager.cpp:120-137 | Gives the current outbound number, moves to the next and persists it |
| Sessions.DatabaseWorker.WorkerLoop | exchange/exchange_persistence/src/DatabaseWorker.cpp:57-78 | Runs queued work oldest first, and never changes what table and queue together hold |
| Sessions.SequenceRepository.GetSequenceNumbers | exchange/exchange_persistence/src/SequenceRepository.cpp:23-55 | Answers behind everything queued before, with defaults 0 and 1 |
| Sessions.WorkerIsInvisible | exchange/exchange_persistence/src/DatabaseWorker.cpp:57-78 | When the database worker runs makes no difference to anything that can be asked |
| Sessions.ValidateMoves | exchange/exchange_fix/src/FixSessionManager.cpp:68-83 | Taking a number over keeps table plus queue equal to the manager's numbers and touches no other company |
| Sessions.UseNextMoves | exchange/exchange_fix/src/FixSessionManager.cpp:120-137 | So does using an outbound number |
| Sessions.LogOnResumes | exchange/exchange_fix/src/FixSessionManager.cpp:29-50 | A logon starts from exactly the stored numbers |
| Sessions.RestartResumes | exchange/exchange_persistence/src/SequenceRepository.cpp:23-79 | A rebuilt manager, authenticating behind whatever is still queued, resumes every company with the numbers the old one held |
| ServerSession.FixSession.HandleFixMessage | exchange/exchange_fix/src/FixSession.cpp:233-345 | What the exchange's session does to numbers and connection, and what it answers, for every message type, including the business reject of an unreadable new order |
| ClientSession.FixClientSession.SendLogonMessage | client/client_fix/src/FixClientSession.cpp:117-151 | Logon with optional reset |
| ClientSession.FixClientSession.SendLogoutMessage | client/client_fix/src/FixClientSession.cpp:153-164 | Logout, only from a session that is logging on or active |
| ClientSession.FixClientSession.SendTyped | client/client_fix/src/FixClientSession.cpp:166-177 | A message under the next number, only from an active session |
| ClientSession.FixClientSession.HandleProtocolMessage | client/client_fix/src/FixClientSession.cpp:240-387 | The check of inbound numbers and the reaction to every session-level type |
| Lockstep.StepKeepsLockstep | client/client_fix/src/FixClientSession.cpp:253-268 | From a state in step, an action keeps both sides in step if and only if it is on the list of orderly actions |
| Lockstep.InStepIffKept | exchange/exchange_fix/src/FixSession.cpp:233-290 | Over whole runs: in step at every moment if and only if every action is orderly |
| Lockstep.LockstepFromFresh | client/client_fix/src/SeqNumStore.cpp:59-63 | From fresh stores, over connections, restarts and database turns: next-out equals the other side's number plus what is in flight, in both directions, and nobody sees a gap or a repeat |
| Lockstep.LogoutFreezesInbound | exchange/exchange_fix/src/FixSession.cpp:262-277 | Once a Logout has arrived, the exchange's inbound number stays where it was over any further connections, restarts and messages without a forced reset |
| Lockstep.LogoutEndsOutOfStep | exchange/exchange_fix/src/FixSession.cpp:262-277 | Connect, Logon, Logout, both read by the exchange: the client is at 3, the exchange still waits for 2 |
| SnapshotCodec.ConvertSnapshot | exchange/exchange_fix/src/MarketDataSnapshotFullRefreshToBinaryConverter.cpp:13-81 | The serialiser's loops write exactly the printed message with its length and checksum |
| SnapshotCodec.SumOfChars | exchange/exchange_fix/src/MarketDataSnapshotFullRefreshToBinaryConverter.cpp:69-73 | Adding sign-extended chars in a wrapping word gives the signed sum modulo 256 |
| SnapshotCodec.ParseGroup | client/client_fix/src/FixMessageParser.cpp:166-197 | The loop with its moving cursor reads exactly the blocks between type tags |
| SnapshotCodec.ParseMarketDataSnapshot | client/client_fix/src/FixMessageParser.cpp:135-204 | The parser, step by step, with its error exits |
| SnapshotWire.PriceRoundTrip | exchange/exchange_fix/src/MarketDataSnapshotFullRefreshToBinaryConverter.cpp:32 | Four printed decimals, of either sign, read back as the price |
| SnapshotWire.GroupReads | client/client_fix/src/FixMessageParser.cpp:166-197 | Any number of printed entries is read back in order, exactly when every number fits |
| SnapshotWire.CountInRequest | client/client_fix/src/FixMessageParser.cpp:160-164 | Whatever the request id holds, the search for the count stops at the count or at the end of the request id's own field |
| SnapshotWire.SnapshotRoundTrip | client/client_fix/src/FixMessageParser.cpp:135-204 | Parsing a serialised snapshot recovers request id, symbol and every entry exactly when count and positions fit signed 32-bit numbers; otherwise the client gets nothing |
| SnapshotCodec.SnapshotSurvivesTheWire | client/client_fix/src/FixMessageParser.cpp:12-67 | The same through the client's checksum and type checks |
| SnapshotPath.SnapshotIsCut | client/client_fix/src/FixClientSession.cpp:198-230 | A serialised snapshot reaches the client whole, whatever follows it, if and only if its request id does not hold "10="; otherwise it is cut short |
| SnapshotPath.ClientLoadsTheBook | client/client_orderbook/src/OrderBook.cpp:8-20 | From end to end, after any run: the printed snapshot of the book is reassembled as one message, parsed back whole, and loads exactly the book's ladders, for prices of at most four decimals, numbers that fit, and a request id without "10=" |

## Left out

- Prices are `real` in the engine and whole ten-thousandths on the wire: double rounding, NaN and the printing of finer prices are not modelled.
- Quantities, snapshot totals, order ids, trade ids and sequence numbers are unbounded: the 64- and 32-bit wrap-around of the source is not modelled.
- Framing.ExtractNextFrame: offsets behind the BodyLength overflow guard are mathematical integers, so the wrap-around of an offset a few bytes below the largest size is not modelled.
- Runs.BookNeverCrossed: from the empty book with fresh order ids; the reload of stored orders at a restart inserts without matching and is not modelled.
- Guarantees.NoSelfTrade: for new orders only; modified orders pass no risk gate in the source.
- Guarantees.PriceProtection: for new orders only, for the same reason.
- Stop and stop-limit orders, time in force, client order ids, timestamps of orders and trades, and log output.
- Batching of dequeued commands: a worker takes its commands one at a time, in the same order.
- TradingCore.PartitionsRunAlone: a worker's match becomes visible to routing when its command ends; only the set of stored ids is read from outside, and a match does not change it.
- Shutdown of partitions and of the database worker, which drops what is still queued.
- SQL text and database errors: tables are maps, queued statements a sequence of updates.
- Incremental market data, subscriptions, market-data requests, authentication data, the blotter and the user interface.
- The simulated candle history; candles finished by the aggregator are a list, the repository's table is not part of this model.
- Execution reports and incremental refreshes in the client's parser.
- SnapshotWire.PriceRoundTrip: prices are read with blanks, sign, digits and fraction; exponents, hexadecimal digits and the words for infinity are not modelled.
- Headers.HeaderRoundTrip: one direction, for types and company ids that do not themselves hold the text of the tag that is searched for.
- ReadLoop.FixSession.OnRead: what becomes of the session behind an exception of the splitter is not modelled.
- Lockstep.LockstepFromFresh: one company; bytes in flight when either side disconnects are lost or delivered before the next connection.
- Sockets, timers, threads, mutexes and clocks: reads, timer ticks, turns and times are inputs.
