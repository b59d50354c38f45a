# Flower exchange: a verified model

A Dafny model of the flower exchange: a limit-order-book exchange that reads orders from a CSV file, validates them,
matches them by price-time priority and writes execution reports, on three threads joined by two bounded queues.
Run `dafny verify dfyconfig.toml` here to check every proof.

The model is one stack, and the main theorems cross its layers.

1. **Meaning.** `Matching` says what one accepted order does to two price-time queues (`Sweep`, `Process`);
   `Exchange` folds it over a stream of messages (`Handle`, `Run`). `Sweep` is proved equal to a closed form, a
   waterfall over the crossing prefix that mentions no loop. `Accounting` proves, for every order of every run, the
   words of reports it can receive and where its quantity is. `ReportMeaning` and `RowMeaning` say what every report and
   every row of a run tells, in the fields of the client's message alone.
2. **Engine on the heap.** `MemPool` is the chunked allocator with its intrusive free list and address arithmetic.
   `BitmaskBook` is the dense order book (heads, tails, intrusive links, 64-bit mask words, two cached ends) and
   `MapBook` the ordered map of deques; `OrderBooks` gives both one contract, a map from tick to FIFO queue.
   `Engine` proves the matching loop over any of these books and two pools equal to `Process`, through
   `PriorityView`, which flattens a tick-indexed book into one queue. `Processor` proves `consume` equal to `Run`.
3. **Pipeline.** `Pipeline` is a step relation for producer, matcher and writer with explicit program counters. For
   every schedule, what is in the file when the writer stops is what `Run` emits, and every fair schedule stops.
4. **Text.** `NumberText`, `CsvReader`, `CsvWriter` and `CsvProducer` model the parsers, the row splitter and the row
   buffer; `CleanRows` and `FileRun` prove that every row of every run reads back field by field.

## Reading guide

- Strings are sequences of characters. Text that lives in fixed arrays in the program is unbounded in `Order`, `Report`
  and `Outbound`; `CleanRows.RunClean` proves that every text of a run is shorter than its array, so that none of the
  program's clipped copies shortens anything after the producer's first one (which `BufferText` models).
- Prices are real numbers where the program uses doubles, and ticks are unbounded naturals with 64-bit bounds stated
  where they matter. Quantities are a 16-bit subset type, so every subtraction is proved not to wrap.
- A class holds what the program's object holds; ghost fields give its abstract value (`view` and `home` for a book,
  `slots` and `freeList` for a pool). Pool slots carry an address so that the pointer arithmetic can be modelled.
- `process_order` takes a callback; here it returns the reports in the order the callback receives them, and each is
  allocated from the report pool and returned to it, as the callback of `consume` does.
- Queue operations and atomic accesses are single steps. In `Pipeline` a matcher step pops one order and computes all
  its reports at once, because the exchange is private to that thread; the reports then leave one push at a time.
- A file that cannot be opened behaves as an empty one; both only publish the end of stream.

Where the code and its documentation disagree the model follows the code:

- The documented minimum price is 0.01, but validation accepts any positive price (`Exchange.TinyPriceAccepted`); a
  validated price reaches tick 1 exactly from half a tick up (`Exchange.AcceptedTickPositive`).
- A reject repeats the client's quantity only if it fits in 16 bits (`Exchange.RejectEchoesQuantity`).
- `reset` does not return resting orders to the pool: `Processor.OrderProcessor.Reset` says exactly which are stranded.
- `find_prev_from` past the end of the mask masks the last word by the tick's own bit position, so it can miss a marked
  tick (`Bits.PrevBeyondMaskMisses`); `Bits.PrevBeyondMask` says exactly when it does not. No caller passes such a tick.
- `string_view_to_int` never returns INT_MIN; its text comes back as -INT_MAX (`NumberText.IntRoundTrip`).

## Model

| member | source | states |
|---|---|---|
| Matching.SweepIsWaterfall | src/matching/matching_engine.h:39-86 | price-time priority with maximality: each crossing position gets what those ahead left over, total traded is the lesser of the incoming and the crossing quantity, each trade is at the resting price, and the report pairs come in that order |
| Matching.SweepTakesPrefix | src/matching/matching_engine.h:47-86 | the orders hit are a prefix, each at a price within the incoming limit, all exhausted but possibly the last, which keeps its place at the head; while quantity remains the best price left lies beyond the limit |
| Matching.EnqueuePosition | src/matching/matching_engine.h:88-91 | a resting remainder goes behind everything at least as good and ahead of everything worse, moving nothing else |
| Matching.SweepGood | src/matching/matching_engine.h:39-86 | a sweep keeps the queue sorted, filed and positive, and what is left of the incoming order does not cross it |
| Matching.ProcessKeepsBooksGood | src/matching/matching_engine.h:32-102 | no accepted order leaves its instrument crossed, unsorted, misfiled or with an empty order |
| Exchange.RunKeepsMarketGood | src/matching/order_processor.cpp:109-190 | every reachable market is uncrossed, with every resting order in its own queue, by price and within a price by the number of its message, at a tick below capacity and with a positive multiple of ten up to 1000; ids advance by one per message |
| Exchange.HandleKeepsMarketGood | src/matching/order_processor.cpp:136-190 | the same, arrival order included, from any good market across one message |
| Exchange.PriceTimePriority | src/matching/matching_engine.h:39-86 | after any run, the orders the next message hits are a prefix of the opposite queue, in which each order precedes all behind it: a higher bid or a lower ask, or the same price and the earlier message |
| Exchange.ReportsOwned | src/matching/order_processor.cpp:139-190 | every report of a run carries the id of one of its messages |
| Exchange.HandleIsolatesInstruments | src/matching/matching_engine.h:34-36 | a message leaves the books of every other instrument untouched |
| Exchange.AcceptedInRange | src/common/validator.h:33-41 | the validation gate bounds an accepted order's tick by the dense books' capacity |
| Exchange.AcceptsExactly | src/common/validator.h:21-44 | a message is accepted exactly for Rose, Lavender, Lotus, Tulip or Orchid, side 1 or 2, 1 to 100 lots of ten and a price above 0 up to 1000 |
| Exchange.RefusalIsFirstFault | src/common/validator.h:24-41 | the reason of a refusal names the first fault in the order instrument, side, size, price, in the words of the report |
| Exchange.AdmittedAs | src/matching/order_processor.cpp:168-172 | an accepted order has the message's client id, quantity and named instrument, buys exactly for side code 1 and sells exactly for 2, at the hundredth nearest to the price, halves up |
| Exchange.OrderIdText | src/matching/order_processor.cpp:35-49 | the id of the k-th message is "ord" and digits that denote k, without leading zeros |
| Exchange.RowsStamped | src/matching/order_processor.cpp:136-190 | every row a message causes carries its sequence number and the one clock text taken for it |
| Exchange.AcceptedTickPositive | src/common/validator.h:38-41 | an accepted order has a positive tick exactly when its price is at least half a tick |
| Exchange.TinyPriceAccepted | src/common/validator.h:38-41 | a concrete accepted order that rests at tick 0 |
| Exchange.RejectEchoesQuantity | src/matching/order_processor.cpp:148-154 | a reject report repeats the quantity exactly when it fits in 16 bits |
| Exchange.LargeQuantityWraps | src/matching/order_processor.cpp:148-154 | a concrete reject report with a wrapped quantity |
| Accounting.LifeIsWord | src/matching/matching_engine.h:66-98 | each automaton state implies its word, Reject, New? Pfill* or New? Pfill* Fill, and counts the traded quantity; where trade quantities are positive each word implies its state too |
| Accounting.RunTradesPositive | src/matching/matching_engine.h:59-79 | every trade of a run moves some quantity, so in a run states and words determine each other |
| Accounting.RefusedRow | src/matching/order_processor.cpp:147-165 | in any run a refused message is answered by exactly one row, which repeats the client's own id, instrument, side and price, says Reject with the reason, and gives the low 16 bits of a positive quantity |
| Accounting.OrderLifecycle | src/matching/matching_engine.h:59-101 | for every order of every run: refused once and for all, or filled in full and gone, or resting at one place with exactly what it has not traded and no Fill reported |
| Accounting.NewIffUnmatched | src/matching/matching_engine.h:40-98 | New is reported exactly for the orders that met nothing to trade with: for side code 1 every ask then queued was dearer than the limit, for 2 every bid cheaper |
| Accounting.BoughtEqualsSold | src/matching/matching_engine.h:59-79 | over any run, per instrument and price, quantity bought equals quantity sold |
| Accounting.SweepAccounts | src/matching/matching_engine.h:39-86 | across a whole sweep each order's reported trades and remaining quantity keep adding up, and whoever leaves the queue has a closed account |
| Accounting.RunAccounts | src/matching/order_processor.cpp:109-190 | after any run every accepted order is queued with a matching account or closed in full, unused ids are unreported and refused ids have one Reject |
| Accounting.OrderIdInjective | src/matching/order_processor.cpp:35-49 | order ids of different messages differ |
| Accounting.LedgerEntries | src/matching/order_processor.cpp:139-172 | the k-th message, rejects included, owns id number k; ids name exactly the accepted orders, and the order behind an id is what its message asked for, field by field |
| ReportMeaning.ReportSays | src/matching/matching_engine.h:47-98 | every report of a run on an accepted message carries that message's client id, instrument and side; New has its whole quantity at its limit before any trade; a trade is at most the limit for side code 1 and at least the limit for 2, Fill exactly when it completes the quantity |
| ReportMeaning.ReportsCaused | src/matching/matching_engine.h:54-98 | in any run the next message causes one reject, one New, or pairs of trade reports: the j-th pair has one quantity and one price, that of the j-th order of the asks for side code 1 or of the bids for 2 |
| ReportMeaning.RestsAsAsked | src/matching/matching_engine.h:88-91 | in any run what is left of a message rests among the bids of its own instrument only if its side code is 1 and among the asks only if it is 2, at the hundredth nearest to its price |
| RowMeaning.EveryRowSays | src/matching/order_processor.cpp:51-69 | every row of a run tells of one message in that message's own texts and codes: rejected, New for the whole quantity at the limit, or one trade within the limit, Fill exactly when all trade rows of the order so far make up its quantity; clock text and sequence number are those of the message that caused the row |
| Bits.FindNextFrom | src/matching/bitmask_order_book.cpp:72-101 | the word scan returns the least marked tick strictly above, or -1 iff there is none, for every mask and tick |
| Bits.FindPrevFrom | src/matching/bitmask_order_book.cpp:103-132 | the word scan returns the greatest marked tick strictly below the tick it starts from, or -1 iff there is none |
| Bits.PrevBeyondMask | src/matching/bitmask_order_book.cpp:108-112 | past the end of the mask the downward search is right exactly if no tick is marked from the clamped start on |
| Bits.PrevBeyondMaskMisses | src/matching/bitmask_order_book.cpp:108-112 | a concrete mask and tick where it misses the only marked tick |
| Bits.CountTrailingZeros | src/matching/bitmask_order_book.cpp:89-91 | the count of trailing zeros is the position of the lowest set bit |
| Bits.CountLeadingZeros | src/matching/bitmask_order_book.cpp:122-124 | the count of leading zeros gives the position of the highest set bit |
| Bits.Mark | src/matching/bitmask_order_book.cpp:21-23 | setting a mask bit marks that tick and no other |
| Bits.Unmark | src/matching/bitmask_order_book.cpp:54-56 | clearing a mask bit unmarks that tick and no other |
| BitmaskBook.BitmaskOrderBook.constructor | src/matching/bitmask_order_book.cpp:7-9 | a new book is valid and empty |
| BitmaskBook.BitmaskOrderBook.AddOrder | src/matching/bitmask_order_book.cpp:11-36 | heads, tails, links, mask and cached ends stay consistent, and the view grows by one append at the tick |
| BitmaskBook.BitmaskOrderBook.OpenLevel | src/matching/bitmask_order_book.cpp:17-32 | the first order of a level updates all four structures |
| BitmaskBook.BitmaskOrderBook.ExtendLevel | src/matching/bitmask_order_book.cpp:34-35 | a later order links behind the tail and moves nothing else |
| BitmaskBook.BitmaskOrderBook.PopOrder | src/matching/bitmask_order_book.cpp:42-66 | the same consistency after a pop; the view loses exactly the head of the level, or nothing if the level is empty |
| BitmaskBook.BitmaskOrderBook.CloseLevel | src/matching/bitmask_order_book.cpp:52-64 | emptying a level repairs tail, mask bit and whichever cached end it was |
| BitmaskBook.BitmaskOrderBook.PeekOrder | src/matching/bitmask_order_book.cpp:38-40 | the head array yields the earliest order of an occupied level and null otherwise |
| BitmaskBook.BitmaskOrderBook.FindFirst | src/matching/bitmask_order_book.cpp:68-68 | the cached value is the least occupied tick, or -1 iff the book is empty |
| BitmaskBook.BitmaskOrderBook.FindLast | src/matching/bitmask_order_book.cpp:70-70 | the cached value is the greatest occupied tick, or -1 iff the book is empty |
| BitmaskBook.ChainsAppend | src/matching/bitmask_order_book.cpp:34-35 | linking a new tail leaves the intrusive lists of all other levels alone |
| BitmaskBook.ChainsPop | src/matching/bitmask_order_book.cpp:48-50 | unlinking a head leaves the intrusive lists of all other levels alone |
| BitmaskBook.FirstAfterPop | src/matching/bitmask_order_book.cpp:58-60 | if the emptied level was first, the next marked tick is the new first; otherwise first is unchanged |
| MapBook.MapOrderBook.AddOrder | src/matching/map_order_book.cpp:7-14 | the sparse book makes the same append |
| MapBook.MapOrderBook.PeekOrder | src/matching/map_order_book.cpp:16-22 | the front of the level, or null |
| MapBook.MapOrderBook.PopOrder | src/matching/map_order_book.cpp:24-37 | the sparse book makes the same head removal and never keeps an empty level |
| MapBook.MapOrderBook.FindFirst | src/matching/map_order_book.cpp:39-44 | the least key, or -1 |
| MapBook.MapOrderBook.FindLast | src/matching/map_order_book.cpp:46-51 | the greatest key, or -1 |
| OrderBooks.OrderBook.AddOrder | src/matching/order_book.h:12-12 | one contract that both strategies meet for adding |
| OrderBooks.OrderBook.PopOrder | src/matching/order_book.h:15-15 | one contract that both strategies meet for popping |
| PriorityView.FlatBest | src/matching/matching_engine.h:40-46 | the best level of a book is the front of its price-time queue |
| PriorityView.FlatPop | src/matching/matching_engine.h:81-85 | popping the best level's head pops the price-time queue |
| PriorityView.OrdersAppend | src/matching/matching_engine.h:88-91 | adding an order at its own tick is queueing it by price-time priority |
| MemPool.MemPool.constructor | src/common/mempool.h:16-18 | a new pool is valid, all free, with the requested capacity or 256 |
| MemPool.MemPool.AddChunk | src/common/mempool.h:151-163 | a chunk's slots go to the front of the free list in index order; old slots and chunks keep their places |
| MemPool.MemPool.Grow | src/common/mempool.h:166-172 | growth adds as many slots as there are, at least the initial capacity and at most 4000000, moves nothing and leaves a non-empty free list |
| MemPool.MemPool.Allocate | src/common/mempool.h:21-33 | the object was not live before, is live now, holds the value; every other object keeps identity and contents |
| MemPool.MemPool.Deallocate | src/common/mempool.h:95-148 | succeeds exactly for null or a live object of this pool; foreign pointers and double frees are told apart and change nothing |
| MemPool.MemPool.DeallocateIndex | src/common/mempool.h:62-65 | freeing by index succeeds exactly for a live index in range |
| MemPool.MemPool.Find | src/common/mempool.h:100-138 | the byte-offset arithmetic finds exactly the pool's own objects |
| MemPool.MemPool.ResolveIndex | src/common/mempool.h:75-92 | the binary search returns the only chunk and local index with that global index, or out of range |
| MemPool.LocationUnique | src/common/mempool.h:75-92 | no two coordinates share a global index |
| MemPool.MemPool.Get | src/common/mempool.h:48-56 | the object of an index is fixed by the slot order, which growth only extends |
| MemPool.MemPool.GetIndex | src/common/mempool.h:36-45 | the index of a pool object names that object; any pointer into a chunk's range gets the index its offset gives, and anything outside all chunks is an error |
| MemPool.MemPool.AddressesDistinct | src/common/mempool.h:104-134 | no two objects of a pool share an address |
| MemPool.MemPool.FreePlusLive | src/common/mempool.h:151-163 | free slots plus live objects make up the capacity |
| Engine.BestIsHead | src/matching/matching_engine.h:40-57 | under the book invariant a best level always has a head, so the retry on a null head is unreachable |
| Engine.MatchingEngine.TradeOnce | src/matching/matching_engine.h:54-85 | one pass of the loop on the heap is one trade on the queues; an exhausted resting order leaves book and pool |
| Engine.MatchingEngine.MatchAgainst | src/matching/matching_engine.h:39-86 | the loop terminates and equals the sweep; only orders it popped were freed |
| Engine.MatchingEngine.Release | src/matching/matching_engine.h:84-100 | returning a live order never raises the pool's double-free or foreign-pointer error |
| Engine.MatchingEngine.RestOrRelease | src/matching/matching_engine.h:88-101 | the remainder rests, reported New iff nothing matched, or the filled order is freed |
| Engine.MatchingEngine.ProcessOrder | src/matching/matching_engine.h:32-102 | over either book strategy the reports and the market are exactly those of the specification; no report stays live; apart from the incoming order no live order enters or leaves the set of those that rest nowhere |
| Processor.OrderProcessor.constructor | src/matching/order_processor.cpp:73-88 | a new processor is the initial state with nothing stranded |
| Processor.OrderProcessor.Reset | src/matching/order_processor.cpp:95-107 | back to the initial state; the orders that rested become stranded, none is freed |
| Processor.OrderProcessor.HandleMessage | src/matching/order_processor.cpp:136-190 | one message moves the abstract state and emits reports and rows exactly as specified; nothing is stranded |
| Processor.OrderProcessor.ConsumeAll | src/matching/order_processor.cpp:109-190 | from a reset state the loop emits exactly the reports and rows of the sequential run |
| Processor.OrderProcessor.RestingOrder | src/matching/order_processor.cpp:168-172 | after any run a resting order is live, in one book only, that of its instrument and side, at its own price's level, with a legal quantity |
| Processor.StrategiesAgree | src/matching/matching_engine.h:15-28 | over any stream the dense and the sparse books give the same reports and the same market |
| CsvProducer.Produce | src/io/csv_order_producer.cpp:59-83 | skipping the header and short rows, the loop sends the messages of the file and then the end of stream, or dies at the first malformed row |
| CsvProducer.FileIsSent | src/io/csv_order_producer.cpp:59-83 | the round trip of the input format: lines of client id, instrument, side, quantity and price, in that order and ending in LF or CR LF, are sent as exactly those five values, numbered from 1, and then the end of stream |
| CsvProducer.StreamEnds | src/io/csv_order_producer.cpp:59-83 | the end of stream is sent exactly when no data row is malformed |
| CsvProducer.StreamNumbers | src/io/csv_order_producer.cpp:60-77 | messages carry consecutive sequence numbers from 1 |
| CsvProducer.MessageClean | src/io/csv_order_producer.cpp:70-77 | whatever a line says, the message built from it fits its arrays and holds no delimiter |
| CsvProducer.CopyText | src/matching/order_processor.cpp:15-33 | a clipped copy holds the text up to the first NUL or the buffer's end, terminated; a missing text copies as empty and a missing or empty buffer gets nothing |
| CsvProducer.BufferTextIdempotent | src/common/types.h:94-107 | copying a clipped text again into an equal or larger buffer changes nothing |
| Pipeline.StepKeeps | src/matching/order_processor.cpp:115-198 | messages and reports are conserved across taken, queued and unsent, and flags and counters stay truthful, in every step of every process |
| Pipeline.WrittenIsPrefix | src/io/csv_report_writer.cpp:115-134 | at every moment the rows written are a prefix of the sequential run's, and the messages handled a prefix of the file's |
| Pipeline.WriterStopsComplete | src/io/csv_report_writer.cpp:106-140 | in every interleaving, when the writer stops every message was handled once and in order, the rows written are exactly those of the sequential run, the file is the header and those rows whatever the flushes, both queues are empty and both counters are right |
| Pipeline.StepWorks | src/matching/order_processor.cpp:117-198 | a step adds no work, and one that does none only turned a waiting loop |
| Pipeline.SomebodyDue | src/io/csv_order_producer.cpp:80-91 | until the writer stops some process is within three of its own steps of doing work, even with both queues full |
| Pipeline.FairRunsFinish | src/app/file_processing_pipeline.cpp:38-57 | every schedule with enough fair rounds ends: aborted if a row is malformed, else closed with exactly the sequential run's rows in the file |
| Pipeline.SchedulesAgree | src/app/file_processing_pipeline.cpp:38-57 | threads do not change the result: on one file, with queues of any sizes, any two schedules after which the writer is closed write the same rows up to the clock texts and leave the same market |
| Exchange.RunUntimed | src/matching/order_processor.cpp:136-137 | clock texts are printed and otherwise ignored: same market, and same reports and rows up to the clock text |
| NumberText.StringViewToInt | src/common/types.cpp:91-143 | the loops compute the specified reading, with no intermediate overflow |
| NumberText.ParseDigits | src/common/types.cpp:118-131 | digits of any length give their decimal value capped at INT_MAX |
| NumberText.IntFormIsRead | src/common/types.cpp:91-143 | blanks, an optional sign, digits and blanks are read as sign times the capped value |
| NumberText.ReadIntForm | src/common/types.cpp:91-143 | no other text is accepted |
| NumberText.IntRoundTrip | src/common/types.cpp:91-143 | parsing undoes decimal printing for every int except INT_MIN |
| NumberText.StringViewToDouble | src/common/types.cpp:145-223 | the loops compute the specified reading, in exact arithmetic |
| NumberText.PriceFormIsRead | src/common/types.cpp:145-223 | blanks, an optional sign, digits with an optional point, an optional exponent and blanks are read as sign times the digits shifted by the fraction's length and the saturated exponent |
| NumberText.ReadPriceForm | src/common/types.cpp:145-223 | no other text is accepted as a price |
| NumberText.PowerPair | src/common/types.cpp:184-215 | the power of ten of an exponent is the whole one upwards and its inverse downwards |
| NumberText.ExponentsShift | src/common/types.cpp:184-215 | concrete prices with an exponent in either direction |
| NumberText.ParseFraction | src/common/types.cpp:173-182 | summing digits at shrinking places gives the fraction's value, in exact arithmetic |
| NumberText.FormatTicks | src/common/types.cpp:235-268 | printing succeeds exactly when text and terminator fit, writes exactly that text and touches nothing behind it |
| NumberText.TickTextFits | src/common/types.cpp:235-268 | 24 bytes hold the text of every 64-bit tick count |
| NumberText.TickTextRoundTrip | src/common/types.cpp:14-29 | in exact arithmetic, printing, parsing and rounding return every 64-bit tick count |
| NumberText.TickTextForm | src/common/types.cpp:235-268 | a tick text is the whole units without leading zeros, a point and exactly two digits of hundredths |
| NumberText.SignedTextIsRead | src/common/types.cpp:280-345 | the price of a reject prints, and reads back, as the nearest whole number of hundredths, halves away from zero, with a minus sign exactly in front of a negative one; above 64 bits it saturates and below it is empty |
| NumberText.TickTextInjective | src/common/types.cpp:235-268 | different tick counts print differently |
| PriceText.TickRoundTrip | src/common/types.cpp:14-33 | in exact arithmetic, tick rounding undoes the tick-to-price conversion |
| CsvReader.CSVRow.ReadNextRow | src/io/csv_reader.cpp:5-27 | the delimiter index splits the line, minus one trailing CR, at exactly its commas |
| CsvReader.CSVRow.At | src/io/csv_reader.h:12-19 | the view between two delimiters is that field of the split, or out of range |
| CsvReader.JoinSplit | src/io/csv_reader.cpp:21-26 | for any line, joining its fields with commas gives the line back |
| CsvReader.SplitJoin | src/io/csv_reader.cpp:21-26 | comma-free fields survive being joined and split |
| CsvReader.SplitCount | src/io/csv_reader.h:22-24 | a line has one field more than it has commas |
| CsvWriter.AppendCsvRow | src/io/csv_report_writer.cpp:153-185 | the cursor never leaves the 320-byte buffer and the row is the nine fields joined, ending in a newline |
| CsvWriter.WriteSide | src/io/csv_report_writer.cpp:45-60 | the side field is the decimal text of the side |
| CsvWriter.WriteQuantity | src/io/csv_report_writer.cpp:62-76 | the quantity field is the decimal text of the quantity, by table or by conversion |
| CsvWriter.WriteAll | src/io/csv_report_writer.cpp:106-140 | batching and flushing lose and repeat nothing: the file is the header and the rows in order |
| CleanRows.RowSurvives | src/io/csv_report_writer.cpp:153-185 | a row has one newline, at its end, eight commas, and reads back as id, client id, instrument, side, status, quantity, price, reason and clock text, in that order, its two numbers parsing to the same values |
| CleanRows.HeaderNames | src/io/csv_report_writer.cpp:111-112 | the header is one line that names these nine columns in this order |
| CleanRows.RowDeterminesReport | src/matching/order_processor.cpp:51-69 | two reports that print the same row are equal, rejects included |
| CleanRows.RowsTellReports | src/matching/order_processor.cpp:109-190 | in any two runs over clean messages, equal rows come from equal reports |
| CleanRows.RunClean | src/matching/order_processor.cpp:109-190 | every row of a run over clean messages is clean and within its arrays, resting orders' texts included |
| CleanRows.SignedTextClean | src/common/types.cpp:280-345 | the price text of a reject fits 24 bytes for every real price |
| FileRun.ProcessFile | src/app/file_processing_pipeline.cpp:27-48 | on a processor that earlier files have used, resetting it, consuming the messages on the heap and writing through row buffer and batches gives the very file of every interleaving; only what rested before is stranded |
| FileRun.RowsReadBack | src/io/csv_report_writer.cpp:106-140 | from any input lines and any interleaving, every row written reads back from its line as nine fields: id number k, the client id, instrument and side of the k-th message of the file, and what happened to that message |
| FileRun.OrdersAreHandled | src/app/file_processing_pipeline.cpp:27-48 | from a file that carries given messages, every interleaving whose writer stopped has handled exactly those messages in that order |

## Left out

- File streams, directories, console output, the command loop and performance statistics: plumbing without a hard property; flushing is concatenation.
- Threads, CPU pinning, spin and sleep tuning and memory orders: each load, store, push and pop is one step of a schedule.
- The lock-free queue's own implementation: a FIFO of fixed positive capacity whose operations fail only when it is full or empty.
- The timestamp cache and clock formatting: an arbitrary text per handled message, comma-free and at most 19 characters where rows are concerned.
- IEEE rounding, NaN and infinity: prices are exact reals, so the price parser, tick rounding and validation are exact too.
- Wrap-around of the 64-bit id and sequence counters: they are unbounded, and row theorems assume at most 2^64 - 1 messages.
- Overflow of the rounding call for prices beyond 2^63 ticks: validation refuses such prices before they reach a book, and their text follows the saturating branch.
- `format_price_to_buffer` as a buffer routine: only its text, for the 24-byte buffer its caller passes, is modelled (`SignedPriceText`).
- CSV quoting (section 2 of RFC 4180, rules 5 to 7): the reader does not implement it.
- Reading lines from a stream: rows start from the lines of the file; a final newline adds no row.
- A writer that cannot open its output file: the run is abandoned before the threads start.
- Reset in place: the program overwrites its books with empty ones, the model replaces them; nobody else holds a reference to them.
- Processor.OrderProcessor.constructor: the two pools get their configured capacities, but object size is one abstract unit, because only the ratio of addresses to node size matters.
- MemPool.MemPool.Deallocate: no two objects share an address is assumed of the argument, since it is a fact of the language, not of the pool.
- NumberText.StringViewToDouble: exact reals stand for doubles, so rounding, underflow and overflow to infinity are absent.
- NumberText.ParseFraction: exact reals stand for doubles in the shrinking place value.
- NumberText.SignedTextIsRead: exact reals stand for doubles, so the nearest hundredth is that of the price itself.
- Exchange.AdmittedAs: exact reals stand for doubles; a double next to half a tick may round the other way.
- NumberText.TickTextRoundTrip: the parser and the rounding work on exact reals; with doubles large tick counts do not come back.
- PriceText.TickRoundTrip: multiplication and division are exact; with doubles large tick counts do not come back.
- Exchange.RowsStamped: a report built with an empty clock text takes a reading of its own, which the model does not; the cache is filled before the first message and its readings are empty only beyond the year 9999.
- Clearing the queues before a file: the pipeline starts from empty queues, and a writer that stopped left them empty (`Pipeline.WriterStopsComplete`).
