# rustlavel, modelled and proved in Dafny

This project models the parts of the rustlavel workspace whose correctness no
finite set of examples can settle, and proves what they promise.
`dafny verify dfyconfig.toml` checks all of it (Dafny 4.11).

**QR codes** (`Gf256`, `ReedSolomon`, `QrTables`, `QrBitStream`, `QrBlocks`,
`QrWalk`, `QrCanvas`, `QrPatterns`, `QrCyclic`, `QrRoom`, `QrPenalty`,
`QrSymbol`, `QrStandard`). The encoder is a compiler from bytes to a grid. The
field arithmetic, the Reed-Solomon loops, the bit stream, the interleave, the zig-zag
walk, the function patterns, the masks and the choice among them are modelled
loop by loop; the reader that exists in the repository's tests is the inverse.
The end of it is `QrSymbol.EncodeWith`: whatever fits is read back exactly.
That encoder and reader agree is not enough for anybody else to read the symbol,
so `QrStandard` prints what ISO/IEC 18004 prints - mask tiles, patterns, places,
words, tables, the way of the walk - and measures the finished symbol against it.
Field elements are eight coefficients (`Octet`), bytes are numbers below 256,
and a canvas keeps its two module vectors as the sets of positions where they
are true.

**Subscription billing**, at two levels. `BillingSteps` takes every single
database, ledger or gateway statement as one atomic step of any number of
callers that may crash between any two; the exactly-once and uniqueness
properties are proved there. `BillingState`, `BillingKeeps`, `BillingTick`,
`BillingEffects` and `Billing` take each public method as one step of a class
that owns the tables and the ledger, and prove the lifecycle: one invariant
every method keeps, what one tick does to every row, invoice and reminder, and
that a second tick has nothing left to do. `BillingRuns` makes any calls in any
order (`BillingCalls`) and states the laws of the runs that result,
`BillingPayments` those about what payments buy. The class keeps, as a ghost,
the statements behind its tables (`BillingLevels`): every serial run is a run of
the statement model.

**The caches.** `CacheFlat` is the expiring map all drivers stand for.
`CacheMemory` is the sharded store, method by method; `CacheRuns` lets any
number of callers interleave its lock sections and explains every run by the flat
map; `CacheAnswers` says what that means to a caller. `RateLimit` and `RateRuns`
are the limiter on top of it. `Freeze` and `Idempotency` are the replay
middleware. `FileStore`, `FileRuns` and `FileAnswers` are the file driver with its
colliding fingerprints and its locks.

**Calendar and codecs.** `Calendar` and `Timestamps` are the era arithmetic used
by the audit log and by the migration generator, with their text formats and the
day filter. `Base32` is the codec of the one-time-password secrets.

**State and graphs.** `Session` and `SessionMiddleware` are the flash lifecycle
and the middleware that skips writes, `SessionRuns` sequences of requests and
requests that overlap, `SessionLaws` what one request leaves behind.
`PublishOrder` is the depth-first publish order.

Code that updates fields, tables, buffers or files in place is a class or a
method with loops, proved against a function of the state before it; the laws
are lemmas about those functions. `Basics`, `BitString`, `ByteString` and
`Decimals` are shared.

## Where the code and its documentation differ

- `cancel` promises access "until `period_end` and no longer"
  (billing.rs:339-341), but `is_served_at` looks only at the status and the
  grace of the plan. A subscription cancelled while active is served past its
  end until the first tick after it; one cancelled while in grace is past its
  end already and stays served until a tick after the grace, however many come
  before. `BillingRuns.Serve` says exactly until which call,
  `BillingRuns.ServedPastTheEnd` is a case, `BillingTick.ServedPastItsEnd` the rule.
- `Session::touch` is described as keeping an active visitor's session sliding
  forward (session.rs:263-265). A request prolongs the session exactly if it
  changes something: `SessionRuns.ProlongedExactlyByChange`.
- The write that is skipped when nothing changed is meant to keep a request that
  overlaps a sign-in from bringing the old record back (middleware.rs:396-411).
  It does so for the requests that change nothing; one that changes anything
  still brings it back: `SessionRuns.OverlapBringsBack`.
- A value that `put` stores under a key flashed in the last request is removed
  with the flash at the end of the request, unless the key is kept:
  `SessionLaws.PutIsStoredExactly`. The documentation of `flash` and `put` does
  not say so.
- The limiter's counters are named by key and slot number, not by window, so two
  limits on one key can count together: `RateLimit.WindowsShareCounters`.
- `FileStore::increment` promises not to shorten the life of a counter
  (file.rs:228). If the deadline falls between its two clock readings the counter
  is counted on and loses its deadline for good: `FileStore.DeadlineIsKept`.
- Credits can be in for an invoice that is closed and never paid, if statements
  of several callers interleave: `BillingSteps.LostExactlyWhen` says exactly
  when. With calls one after another they cannot (`BillingRuns.Serve`).
- The limiter's one second of slack is all there is: an attempt that lands later
  starts a new count for an old slot, `RateRuns.TooLateIsAdmittedAgain`.

## Model

| member | source | states |
|---|---|---|
| `Gf256.BuildExp` | framework/crates/rustlavel-auth/src/qr.rs:174-187 | the antilog table holds the powers of 2 under polynomial multiplication modulo 0x11D |
| `Gf256.BuildLog` | framework/crates/rustlavel-auth/src/qr.rs:189-200 | the log table inverts the antilog table on its first 255 entries |
| `Gf256.BuildTables` | framework/crates/rustlavel-auth/src/qr.rs:169-200 | both tables are built from nothing and fit each other |
| `Gf256.Tables.Mul` | framework/crates/rustlavel-auth/src/qr.rs:203-211 | multiplication through logarithms is polynomial multiplication modulo 0x11D, zero included |
| `Gf256.EveryNonzeroIsAPower` | framework/crates/rustlavel-auth/src/qr.rs:169-187 | 2 is primitive: every nonzero byte is one of its first 255 powers |
| `Gf256.PowersAreDistinct` | framework/crates/rustlavel-auth/src/qr.rs:169-187 | the first 255 powers of 2 differ |
| `Gf256.ProductAssociates` | framework/crates/rustlavel-auth/src/qr.rs:203-211 | the product the tables compute is associative |
| `Gf256.ProductCommutes` | framework/crates/rustlavel-auth/src/qr.rs:203-211 | and commutative |
| `Gf256.ProductDistributes` | framework/crates/rustlavel-auth/src/qr.rs:203-211 | and distributes over exclusive or |
| `Gf256.NoZeroDivisors` | framework/crates/rustlavel-auth/src/qr.rs:203-211 | a product is zero only if a factor is |
| `ReedSolomon.Generator` | framework/crates/rustlavel-auth/src/qr.rs:218-239 | the in-place loop computes the product of (x - 2^i) for i below the degree, leading term dropped |
| `ReedSolomon.GeneratorIsRootProduct` | framework/crates/rustlavel-auth/src/qr.rs:218-239 | the generator evaluates, everywhere, to the product of its root factors |
| `ReedSolomon.Remainder` | framework/crates/rustlavel-auth/src/qr.rs:244-261 | the shift register computes the remainder of polynomial division |
| `ReedSolomon.DivisionIdentity` | framework/crates/rustlavel-auth/src/qr.rs:244-261 | data times x^n is quotient times divisor plus that remainder, at every point of the field |
| `ReedSolomon.CodewordsVanish` | framework/crates/rustlavel-auth/src/qr.rs:218-261 | for every data block and every degree n at least 1, data followed by its check codewords is zero at 2^0 to 2^(n-1) |
| `ReedSolomon.FactorTheorem` | framework/crates/rustlavel-auth/src/qr.rs:244-261 | a polynomial is its quotient by (x - root) times that factor, plus its value at the root |
| `ReedSolomon.TooManyRoots` | framework/crates/rustlavel-auth/src/qr.rs:244-261 | a polynomial with as many distinct roots as coefficients is zero |
| `ReedSolomon.CheckCodewordsAreUnique` | framework/crates/rustlavel-auth/src/qr.rs:244-261 | for up to 255 check codewords no others make the block vanish at those points |
| `QrTables.TablesAreConsistent` | framework/crates/rustlavel-auth/src/qr.rs:95-133 | every row of the block table adds up to the tabulated total, and its capacity is the published one |
| `QrTables.CapacityGrows` | framework/crates/rustlavel-auth/src/qr.rs:286-290 | capacity strictly grows with the version at every level |
| `QrTables.ChooseVersion` | framework/crates/rustlavel-auth/src/qr.rs:293-295 | the version chosen is the smallest that fits, and none is chosen exactly beyond the capacity of version 10 |
| `QrStandard.RowsArePublished` | framework/crates/rustlavel-auth/src/qr.rs:95-133 | the check codewords per block, the number of blocks and the byte capacity of every version and level are the printed ones |
| `QrBitStream.PushBits` | framework/crates/rustlavel-auth/src/qr.rs:307-311 | appends the low bits of a value, most significant first |
| `QrBitStream.PackBytes` | framework/crates/rustlavel-auth/src/qr.rs:427-435 | packs a bit string whose length is a multiple of eight into the bytes that spell it |
| `QrBitStream.PadMessage` | framework/crates/rustlavel-auth/src/qr.rs:409-438 | mode, count, bytes, terminator and fill bits, then alternating pads: exactly the data capacity, with no underflow |
| `QrBitStream.ParseUndoesPadding` | framework/crates/rustlavel-auth/src/qr.rs:412-438 | parsing the padded stream gives back exactly the message, for every message that fits |
| `QrStandard.StreamIsPublished` | framework/crates/rustlavel-auth/src/qr.rs:412-423 | the data codewords spell 0100, the length in 8 bits up to version 9 and in 16 from there, and the message |
| `QrStandard.PaddingIsPublished` | framework/crates/rustlavel-auth/src/qr.rs:424-438 | then at most four zero bits, zeros to the end of that codeword, and 236 and 17 by turns to the capacity |
| `QrStandard.OctetsSpellBytes` | framework/crates/rustlavel-auth/src/qr.rs:203-211 | a byte enters the field with its bits in place, the coefficient of x^7 worth 128 |
| `QrBlocks.SplitBlocks` | framework/crates/rustlavel-auth/src/qr.rs:440-461 | the blocks are consecutive slices of the data, each with its own check codewords; no slice is out of range |
| `QrBlocks.InterleaveIsPermutation` | framework/crates/rustlavel-auth/src/qr.rs:463-479 | position in a block and position in the output determine each other: the interleave is a permutation |
| `QrBlocks.InterleaveData` | framework/crates/rustlavel-auth/src/qr.rs:468-476 | the two nested loops put every data codeword at its interleaved position |
| `QrBlocks.InterleaveChecks` | framework/crates/rustlavel-auth/src/qr.rs:477-481 | and every check codeword after all of them |
| `QrBlocks.EncodeCodewords` | framework/crates/rustlavel-auth/src/qr.rs:409-484 | exactly the tabulated number of codewords; de-interleaving them and parsing gives back the input; every block passes its check |
| `QrWalk.WalkIsBijection` | framework/crates/rustlavel-auth/src/qr.rs:696-732 | for every odd size of at least 9 the zig-zag visits every module outside column 6 exactly once |
| `QrStandard.WalkGoes` | framework/crates/rustlavel-auth/src/qr.rs:696-732 | the walk starts in the bottom right corner, goes left within a pair, diagonally up or down between rows, and on to the left at the end of a pair, past column 6 |
| `QrCanvas.Canvas.DrawPair` | framework/crates/rustlavel-auth/src/qr.rs:710-724 | one two-module column writes the next codeword bits into its free modules and nothing else |
| `QrCanvas.Canvas.DrawCodewords` | framework/crates/rustlavel-auth/src/qr.rs:696-732 | the n-th free module of the walk holds bit n of the codewords, then zeros; reserved modules keep their value |
| `QrCanvas.Canvas.ApplyMask` | framework/crates/rustlavel-auth/src/qr.rs:751-760 | flips exactly the unreserved modules that meet the mask condition, so function modules never change; which modules those are is stated by QrStandard.MasksArePublished |
| `QrCanvas.MaskingIsInvolution` | framework/crates/rustlavel-auth/src/qr.rs:737-760 | masking twice with the same mask restores the grid |
| `QrStandard.MasksArePublished` | framework/crates/rustlavel-auth/src/qr.rs:737-749 | each of the eight masks repeats one printed tile over the whole grid |
| `QrPatterns.StampSquare` | framework/crates/rustlavel-auth/src/qr.rs:574-604 | a square drawn ring by ring, clipped to the grid |
| `QrPatterns.DrawTiming` | framework/crates/rustlavel-auth/src/qr.rs:565-568 | the timing lines on row and column 6, reserved in full |
| `QrPatterns.DrawFinders` | framework/crates/rustlavel-auth/src/qr.rs:574-585 | three finders with their separators, drawn over the timing lines |
| `QrPatterns.DrawAlignments` | framework/crates/rustlavel-auth/src/qr.rs:589-605 | an alignment square at every pairing of coordinates but the three corners |
| `QrPatterns.DrawVersionInfo` | framework/crates/rustlavel-auth/src/qr.rs:609-618 | from version 7 both transposed copies of the version word, each module its own bit; nothing else changes |
| `QrPatterns.ReserveFormat` | framework/crates/rustlavel-auth/src/qr.rs:620-640 | reserves exactly the two format strips, and sets the one module that is always dark |
| `QrPatterns.DrawFunctionPatterns` | framework/crates/rustlavel-auth/src/qr.rs:558-641 | the reserved modules are exactly the five regions, and each has the colour of the pattern drawn last over it |
| `QrPatterns.DrawFormatInfo` | framework/crates/rustlavel-auth/src/qr.rs:666-691 | writes both copies of the 15 format bits, and only modules reserved for them |
| `QrStandard.FindersArePublished` | framework/crates/rustlavel-auth/src/qr.rs:574-585 | in every finished symbol the three corners show the printed finder and separator, up to the edge |
| `QrStandard.AlignmentsArePublished` | framework/crates/rustlavel-auth/src/qr.rs:589-605 | every alignment pattern shows the printed square around a centre given by rule from the size |
| `QrStandard.TimingIsPublished` | framework/crates/rustlavel-auth/src/qr.rs:565-568 | between the finders row 6 and column 6 alternate, dark at even places, alignment patterns included |
| `QrStandard.FormatIsPublished` | framework/crates/rustlavel-auth/src/qr.rs:666-691 | bit i of the format stands at the printed places, twice, and one module is always dark |
| `QrStandard.FormatWordIsPublished` | framework/crates/rustlavel-auth/src/qr.rs:655-664 | under the printed mask the format starts with 01, 00, 11 or 10 for L, M, Q or H and the mask in three bits, and is a multiple of the printed generator |
| `QrStandard.VersionIsPublished` | framework/crates/rustlavel-auth/src/qr.rs:609-618 | from version 7 bit i of the version word stands in row or column i / 3 of both blocks |
| `QrStandard.VersionWordIsPublished` | framework/crates/rustlavel-auth/src/qr.rs:643-652 | the version word starts with the version in six bits and is a multiple of the printed generator |
| `QrCyclic.CheckedWordDivides` | framework/crates/rustlavel-auth/src/qr.rs:645-664 | data followed by the check bits of the shift register leaves no remainder in long division by the generator, for any data and any generator |
| `QrCyclic.VersionWordDivides` | framework/crates/rustlavel-auth/src/qr.rs:645-652 | every version word is a multiple of 0x1F25 |
| `QrCyclic.FormatWordDivides` | framework/crates/rustlavel-auth/src/qr.rs:657-664 | every format word, with its mask taken off, is a multiple of 0x537 |
| `QrRoom.SymbolHasRoom` | framework/crates/rustlavel-auth/src/qr.rs:558-732 | counting the free modules of every version leaves exactly room for its codewords and its published remainder bits |
| `QrSymbol.FormatReadsBack` | framework/crates/rustlavel-auth/src/qr.rs:657-664 | the format word decodes to the level and mask it was made from |
| `QrSymbol.CodewordsReadBack` | framework/crates/rustlavel-auth/src/qr.rs:1316-1389 | walking the finished symbol and unmasking returns the codewords |
| `QrSymbol.ScanUndoesSymbol` | framework/crates/rustlavel-auth/src/qr.rs:1316-1389 | from the grid alone - format, mask, walk, de-interleave, parse - the reader gets what the codewords hold |
| `QrPenalty.RunPenalty` | framework/crates/rustlavel-auth/src/qr.rs:770-793 | the run counter costs each module what rule 1 says: one if it ends five alike, two more at the first five of a run |
| `QrPenalty.RunCosts` | framework/crates/rustlavel-auth/src/qr.rs:770-793 | a run of five or more costs two less than its length, a shorter one nothing |
| `QrPenalty.BlockPenalty` | framework/crates/rustlavel-auth/src/qr.rs:795-807 | three for each two-by-two block of one colour, overlapping ones included |
| `QrPenalty.FinderPenalty` | framework/crates/rustlavel-auth/src/qr.rs:809-842 | forty for each place where eleven modules look like a finder from either side |
| `QrStandard.RuleThreeIsPublished` | framework/crates/rustlavel-auth/src/qr.rs:809-842 | what is looked for is 1:1:3:1:1 with four light modules on one side |
| `QrPenalty.StepsCountFivePercents` | framework/crates/rustlavel-auth/src/qr.rs:844-851 | at least k steps exactly if the dark share is more than k times five percent from half |
| `QrStandard.RuleFourIsPublished` | framework/crates/rustlavel-auth/src/qr.rs:844-851 | at least k steps exactly if the dark share is above 50 + 5k percent or below 50 - 5k percent |
| `QrPenalty.Penalty` | framework/crates/rustlavel-auth/src/qr.rs:766-854 | the sum of the four rules over all rows, columns and blocks |
| `QrSymbol.BuildSymbol` | framework/crates/rustlavel-auth/src/qr.rs:521-556 | draws the symbol with the forced mask, or with the first mask of lowest penalty |
| `QrSymbol.EncodeWith` | framework/crates/rustlavel-auth/src/qr.rs:374-407 | for every byte string that fits, every level and every mask, reading the finished symbol returns exactly the input; the grid shows the padded, protected codewords under the mask forced or the best one; the error is returned exactly beyond version 10 |
| `BillingTypes.KeysIdentify` | framework/crates/rustlavel-billing/src/billing.rs:1104-1106 | two invoices share a key only if they are open for the same period, or are one closed invoice |
| `Decimals.DecimalIsInjective` | framework/crates/rustlavel-billing/src/billing.rs:854-854 | decimal period keys tell periods apart |
| `BillingSteps.EveryRun` | framework/crates/rustlavel-billing/src/billing.rs:471-542 | under every interleaving of single statements, with crashes and stale parameters, keys fit statuses, unique indexes hold, every paid invoice is credited, every served period was paid |
| `BillingSteps.ClosedIsForever` | framework/crates/rustlavel-billing/src/billing.rs:501-537 | paid, void and expired invoices never change again but for their charge, over any continuation of any run |
| `BillingSteps.GuardsAre` | framework/crates/rustlavel-billing/src/billing.rs:640-725 | a status moves exactly by the five transitions the code asks for, and an invoice is inserted exactly if it is new and neither its key nor its number is taken |
| `BillingSteps.PaidExactlyOnce` | framework/crates/rustlavel-billing/src/billing.rs:471-542 | each invoice yields at most one extension and one top-up, and exactly one of each if it is paid |
| `BillingSteps.OneOpenInvoicePerPeriod` | framework/crates/rustlavel-billing/src/schema.rs:45-64 | at most one open invoice per subscription and period, under every interleaving |
| `BillingSteps.ServedPeriodWasPaid` | framework/crates/rustlavel-billing/src/subscription.rs:99-104 | a served subscription runs exactly the period of one of its own paid invoices |
| `BillingSteps.ReminderAtMostOnce` | framework/crates/rustlavel-billing/src/billing.rs:1017-1049 | each (invoice, kind) reminder is handed out at most once, under every interleaving |
| `BillingSteps.RemindersGoOut` | framework/crates/rustlavel-billing/src/billing.rs:1017-1049 | a reminder is handed out exactly if nobody has claimed it and its caller does not crash; it is claimed either way |
| `BillingSteps.RetryCompletes` | framework/crates/rustlavel-billing/src/billing.rs:464-542 | from any state with the invoice open, one undisturbed call pays it, and says of every column of invoice, subscription and ledger what it becomes; it adds no credits if they are in |
| `BillingSteps.ClockFixesPeriod` | framework/crates/rustlavel-billing/src/billing.rs:482-494 | reading the clock fixes the period: from the start the renewal was raised for, and from now for a first invoice, one without a start, and one of a pending or suspended subscription |
| `BillingSteps.PaidForTheRightPeriod` | framework/crates/rustlavel-billing/src/billing.rs:482-537 | under every interleaving a paid invoice is for one cycle of its plan; whoever read its subscription as served pays a renewal for the period it was raised for, and moves the subscription to that period and plan |
| `BillingLevels.PaymentIsACall` | framework/crates/rustlavel-billing/src/billing.rs:471-542 | from the same tables, a payment of the serial model and an undisturbed call of the statement model lead to the same tables |
| `BillingLevels.ReachedKeepsInvariant` | framework/crates/rustlavel-billing/src/billing.rs:232-749 | tables reached by a run of statements, as all tables of a serial run are, obey what every interleaving keeps |
| `BillingSteps.LostExactlyWhen` | framework/crates/rustlavel-billing/src/billing.rs:496-524 | in every run credits are in for a closed, never paid invoice if and only if the run closed it while they were in, or put them in for a call that had read it before it was closed |
| `BillingSteps.CreditedIsPaidUnlessLost` | framework/crates/rustlavel-billing/src/billing.rs:496-524 | so a credited invoice is open or paid exactly if neither happened |
| `BillingSteps.CreditedNeedNotBePaid` | framework/crates/rustlavel-billing/src/billing.rs:496-524 | one such run, statement by statement |
| `Billing.Billing.NextNumber` | framework/crates/rustlavel-billing/src/billing.rs:765-774 | one more than the highest number the subscription has used |
| `Billing.Billing.AttachCharge` | framework/crates/rustlavel-billing/src/billing.rs:882-929 | stores the charge exactly if the invoice is open and has none; nothing else changes |
| `Billing.Billing.Insert` | framework/crates/rustlavel-billing/src/billing.rs:810-869 | inserts the open invoice with the next number; with nothing else open the unique indexes cannot refuse it |
| `Billing.Billing.RaiseRenewal` | framework/crates/rustlavel-billing/src/billing.rs:778-801 | raises the invoice for the next period and plan exactly if none is open, and leaves one in any case |
| `Billing.Billing.VoidOpenInvoices` | framework/crates/rustlavel-billing/src/billing.rs:933-965 | every open invoice of the subscription, and no other, is void |
| `Billing.Billing.Subscribe` | framework/crates/rustlavel-billing/src/billing.rs:232-284 | refuses exactly an unknown plan or a customer with a live subscription; otherwise a pending subscription with one open invoice |
| `Billing.Billing.ChangePlan` | framework/crates/rustlavel-billing/src/billing.rs:294-337 | before the first payment at once, later with the next period; what was open is void and raised again, for the new plan |
| `Billing.Billing.Cancel` | framework/crates/rustlavel-billing/src/billing.rs:342-358 | ends with the period if served, at once otherwise; nothing stays open |
| `Billing.Billing.CancelNow` | framework/crates/rustlavel-billing/src/billing.rs:361-377 | ends at once; nothing stays open |
| `Billing.Billing.Renew` | framework/crates/rustlavel-billing/src/billing.rs:382-407 | for a suspended subscription only: returns the open invoice, or raises one for the next plan |
| `Billing.Billing.Reissue` | framework/crates/rustlavel-billing/src/billing.rs:411-436 | for an open invoice only: the charge is replaced and nothing else |
| `Billing.Billing.OnPaid` | framework/crates/rustlavel-billing/src/billing.rs:471-542 | extends exactly an open invoice: its credits go to the customer, and the subscription is active on its plan for one cycle more, from the end of its period if it is active or in grace, from now if it is pending or suspended |
| `BillingKeeps.PayBooks` | framework/crates/rustlavel-billing/src/billing.rs:496-499 | paying an open invoice puts its credits on the books, once, and leaves the others as they were |
| `Billing.Billing.OnChargeLost` | framework/crates/rustlavel-billing/src/billing.rs:548-577 | a first invoice expires with its subscription, any other loses its charge |
| `Billing.Billing.RaiseRenewals` | framework/crates/rustlavel-billing/src/billing.rs:597-612 | raises one invoice, with the terms of the next plan and period, for exactly the subscriptions whose period is about to end and that have none open; counts them |
| `Billing.Billing.CreateCharges` | framework/crates/rustlavel-billing/src/billing.rs:614-633 | every open invoice without a charge gets what the gateway answers; counts those created |
| `Billing.Billing.EndPeriod` | framework/crates/rustlavel-billing/src/billing.rs:643-664 | one ended period: grace with an overdue reminder for the open invoice, or the end asked for |
| `Billing.Billing.EndPeriods` | framework/crates/rustlavel-billing/src/billing.rs:635-664 | every row moves as its period says, and exactly the open invoices of those that ended are reminded of; counts both kinds |
| `Billing.Billing.EndGrace` | framework/crates/rustlavel-billing/src/billing.rs:673-700 | one grace that ran out: the open invoice expires, suspension is announced, an end asked for is not |
| `Billing.Billing.EndGraces` | framework/crates/rustlavel-billing/src/billing.rs:666-700 | every row moves as its grace says, and exactly the open invoices of those that ended expire and are announced; counts both kinds |
| `Billing.Billing.LapseFirst` | framework/crates/rustlavel-billing/src/billing.rs:709-725 | an unpaid subscription closes, with its invoice, exactly if none is open that is not yet due |
| `Billing.Billing.LapseFirsts` | framework/crates/rustlavel-billing/src/billing.rs:702-725 | exactly the unpaid subscriptions that can no longer be paid close, and their open invoices expire; counts them |
| `Billing.Billing.Remind` | framework/crates/rustlavel-billing/src/billing.rs:1017-1049 | emits exactly if nobody has claimed |
| `Billing.Billing.RemindDue` | framework/crates/rustlavel-billing/src/billing.rs:727-746 | afterwards every reminder due has been claimed, and only such reminders were emitted |
| `Billing.Billing.TickAt` | framework/crates/rustlavel-billing/src/billing.rs:594-749 | all of it told from the tables before: which invoices are raised with which terms and charges, the row of every subscription, which invoices expire, exactly which reminders are claimed and that each is emitted once, every count; nothing but charges is left to do, and if nothing was, nothing happens |
| `Billing.Billing.TickTwice` | framework/crates/rustlavel-billing/src/billing.rs:594-749 | a second tick at the same instant raises no invoice, moves no status, emits no reminder and changes no table beyond charge columns |
| `BillingTick.PhasesMakeTicked` | framework/crates/rustlavel-billing/src/billing.rs:594-749 | the three phases that move rows make of a row what one look at it and the clock says |
| `BillingTick.TickedStatusTellsService` | framework/crates/rustlavel-billing/src/subscription.rs:99-104 | after a tick the status alone says who is served |
| `BillingTick.TickEndsServiceOnlyOfCancelled` | framework/crates/rustlavel-billing/src/subscription.rs:99-104 | a tick changes who is served exactly for active subscriptions cancelled at period end that are past it and within grace |
| `BillingTick.ServedPastItsEnd` | framework/crates/rustlavel-billing/src/subscription.rs:99-104 | past its end a subscription asked to end is served through the grace of its plan: an active one until the next tick, one in grace whatever the ticks |
| `BillingState.PayKeeps` | framework/crates/rustlavel-billing/src/billing.rs:501-537 | paying the one open invoice keeps paid periods disjoint |
| `BillingState.PaidPeriodIsLater` | framework/crates/rustlavel-billing/src/billing.rs:483-492 | paid early or in grace a period starts where the last one ended, otherwise when it is paid, and so never before the last one ended |
| `BillingState.NotRefused` | framework/crates/rustlavel-billing/src/billing.rs:846-869 | with nothing open the unique indexes accept a new open invoice |
| `BillingRuns.Dispatch` | framework/crates/rustlavel-billing/src/billing.rs:232-749 | one call of any public method keeps the tables in order and has the effect that method promises |
| `BillingRuns.Serve` | framework/crates/rustlavel-billing/src/billing.rs:232-749 | any calls in the order of time, from empty tables: between calls at most one invoice of a subscription is open, none if it is cancelled or ending, starting where the period ends unless it starts at payment; paid periods never overlap, at whatever points they are looked at; period ends never move back; cancelled is absorbing; each customer has at most one live subscription; credits are in exactly for paid invoices; a subscription asked to end is served until a call ends it or its grace is over; of two payments with none in between the second starts where the first ended unless the subscription is suspended, and every payment buys on the plan asked for last; and the tables after each call are those of a run of single statements |
| `BillingPayments.PeriodStays` | framework/crates/rustlavel-billing/src/billing.rs:232-749 | no call but a payment moves the period of a subscription |
| `BillingPayments.RunJoins` | framework/crates/rustlavel-billing/src/billing.rs:482-537 | in every run each payment buys one cycle of its invoice's plan, and consecutive payments of a subscription that is not suspended buy contiguous periods |
| `BillingPayments.RunBuysAsAsked` | framework/crates/rustlavel-billing/src/billing.rs:294-337 | in every run a payment puts the subscription on the plan last asked for: on subscribing, by an accepted change, or else the one paid for before |
| `BillingRuns.AskedStaysAsked` | framework/crates/rustlavel-billing/src/billing.rs:342-358 | however many calls after `cancel`, the row is the one asked to end, cancelled exactly if a call in between ended it |
| `BillingRuns.ServedPastTheEnd` | framework/crates/rustlavel-billing/src/billing.rs:339-358 | a subscription cancelled in grace is served past the end of its period, after a tick too |
| `CacheMemory.MemoryStore.Read` | framework/crates/rustlavel-cache/src/memory.rs:146-171 | answers the flat map at the reading, and evicts exactly an expired entry |
| `CacheMemory.MemoryStore.Write` | framework/crates/rustlavel-cache/src/memory.rs:173-179 | one key of the flat map changes, whatever the hash |
| `CacheMemory.MemoryStore.Remove` | framework/crates/rustlavel-cache/src/memory.rs:181-191 | the key is gone; true exactly if it was live |
| `CacheMemory.MemoryStore.Put` | framework/crates/rustlavel-cache/src/memory.rs:232-242 | stores with a deadline, or removes when there is no time to live |
| `CacheMemory.MemoryStore.Bump` | framework/crates/rustlavel-cache/src/memory.rs:195-215 | adds to a live counter and keeps its deadline, or creates one with its own |
| `CacheMemory.MemoryStore.Sweep` | framework/crates/rustlavel-cache/src/memory.rs:54-60 | keeps exactly the unexpired entries, and no later reading can tell |
| `CacheMemory.MemoryStore.LiveCount` | framework/crates/rustlavel-cache/src/memory.rs:62-75 | summing the shards counts each unexpired entry once |
| `CacheMemory.MemoryStore.Flush` | framework/crates/rustlavel-cache/src/memory.rs:255-262 | nothing is left in any shard |
| `CacheMemory.MemoryStore.Ttl` | framework/crates/rustlavel-cache/src/memory.rs:277-288 | the time left of a live entry that has a deadline |
| `CacheRuns.EveryRunIsFlat` | framework/crates/rustlavel-cache/src/memory.rs:146-215 | every interleaving of lock sections, evictions and sweeps answers as a sequential run of one flat map in which nothing is evicted, each operation at a moment between its clock reading and its lock section |
| `CacheAnswers.EveryAnswerFollowsTheLastChange` | framework/crates/rustlavel-cache/src/memory.rs:146-288 | in every run the answer to a call follows from the last call that changed its key: what was written, until exactly its time to live after the reading of the write; nothing after that or after a removal |
| `CacheRuns.SweepKeepsInv` | framework/crates/rustlavel-cache/src/memory.rs:54-60 | a sweep of any shard at any time leaves the flat map as it is |
| `CacheRuns.CountsAreKept` | framework/crates/rustlavel-cache/src/memory.rs:195-215 | while a counter lives no increment is lost or restarts its deadline, and each answers the total so far |
| `CacheRuns.MomentsNeedNotBeOrdered` | framework/crates/rustlavel-cache/src/memory.rs:146-179 | those moments need not be in the order of the operations: a run in which they cannot be |
| `RateLimit.CountersAreApart` | framework/crates/rustlavel-cache/src/rate_limit.rs:93-93 | no two keys or slots share a counter, whatever colons keys contain |
| `RateLimit.CounterIsOfSlot` | framework/crates/rustlavel-cache/src/rate_limit.rs:88-93 | an attempt between two multiples of the window passed in, at least a millisecond, is counted under that slot |
| `RateLimit.OneCounterExactly` | framework/crates/rustlavel-cache/src/rate_limit.rs:88-93 | two readings use one counter exactly if they lie between the same two multiples of the window passed in |
| `RateLimit.WindowsShareCounters` | framework/crates/rustlavel-cache/src/rate_limit.rs:93-93 | the window is not part of the counter: attempts on one key with two windows count together exactly if their slots have one number |
| `RateLimit.ResetIsNextMultiple` | framework/crates/rustlavel-cache/src/rate_limit.rs:103-104 | the reset is the next multiple of the window: after now, and at most a window away |
| `RateLimit.RateLimiter.Attempt` | framework/crates/rustlavel-cache/src/rate_limit.rs:88-113 | counts the attempt in the counter of its slot, which lives a window and 1000 ms, and reports what is used, what remains, and the next multiple of the window passed in, at most that window away |
| `RateLimit.RateLimiter.Used` | framework/crates/rustlavel-cache/src/rate_limit.rs:122-134 | reads the counter of the slot of the window passed in, without changing what anybody can read |
| `RateLimit.RateLimiter.Clear` | framework/crates/rustlavel-cache/src/rate_limit.rs:138-143 | forgets the counter of the slot of the window passed in and nothing else |
| `RateRuns.SlotCounts` | framework/crates/rustlavel-cache/src/rate_limit.rs:88-113 | the attempts of a slot are answered 1, 2, 3 and so on, and the first `limit` are admitted |
| `RateRuns.ExactlyLimitPerSlot` | framework/crates/rustlavel-cache/src/rate_limit.rs:88-113 | in every run, of the attempts made through the limiter with a key and a window between two multiples of it, all landing less than 1000 ms after the second, exactly min(attempts, limit) are let through |
| `RateRuns.AtMostTwiceTheLimit` | framework/crates/rustlavel-cache/src/rate_limit.rs:88-113 | of the attempts whose readings span at most one window at most twice the limit are let through |
| `RateRuns.CounterLivesUntil` | framework/crates/rustlavel-cache/src/rate_limit.rs:95-98 | an attempt goes on counting exactly until a window and a second after the counter was created |
| `RateRuns.TooLateIsAdmittedAgain` | framework/crates/rustlavel-cache/src/rate_limit.rs:95-98 | an attempt landing later than that is admitted on top of the limit |
| `Freeze.HeadersStayTidy` | framework/crates/rustlavel-http/src/headers.rs:36-52 | set and append build clean lower-case names with at least one value |
| `Freeze.TidyMeans` | framework/crates/rustlavel-http/src/headers.rs:31-52 | names without capitals or control characters, values without control characters, tab excepted |
| `Freeze.SanitiseDropsControls` | framework/crates/rustlavel-http/src/headers.rs:31-33 | sanitising drops the control characters but the tab and keeps all others in order |
| `Freeze.HeadersReadBack` | framework/crates/rustlavel-cache/src/idempotency.rs:132-136 | headers come back from their pairs in whatever order the names are listed |
| `Freeze.HexReadsBack` | framework/crates/rustlavel-cache/src/idempotency.rs:137-140 | the hex form of any body reads back |
| `Freeze.HexIsPrinted` | framework/crates/rustlavel-cache/src/idempotency.rs:137-140 | two small hex digits a byte, the high one first |
| `Freeze.ThawUndoesFreeze` | framework/crates/rustlavel-cache/src/idempotency.rs:131-167 | thawing a frozen response gives it back, text or not |
| `Idempotency.EveryRun` | framework/crates/rustlavel-cache/src/idempotency.rs:209-253 | for any number of requests with one key, within the lock: at most one handler in flight, at most one execution below 500, every own answer is what its handler returned, every replay has the status, the body and every header of that execution and one more, to a request with its fingerprint |
| `Idempotency.StoredAnswerIsReplayed` | framework/crates/rustlavel-cache/src/idempotency.rs:219-240 | once an answer is stored, a request with its fingerprint gets it, status, body and headers, marked as a replay, and another is refused, as long as the lock lives |
| `Idempotency.RequestRuns` | framework/crates/rustlavel-cache/src/idempotency.rs:209-253 | on a free key a request runs, is answered with what its handler returns, and that is remembered unless it is a failure, which frees the key |
| `Idempotency.SecondIsReplayed` | framework/crates/rustlavel-cache/src/idempotency.rs:219-240 | and the next one with its fingerprint, within the time configured, gets that answer field by field and runs nothing |
| `Idempotency.ClaimLasts` | framework/crates/rustlavel-cache/src/idempotency.rs:209-217 | a claim keeps the key for exactly the time configured |
| `Idempotency.DroppedClaimLasts` | framework/crates/rustlavel-cache/src/idempotency.rs:209-217 | and so does the claim of a request that was dropped |
| `Idempotency.BusyMeanwhile` | framework/crates/rustlavel-cache/src/idempotency.rs:219-240 | while there is no answer a request that finds the key taken is told to come back, and changes nothing but the count |
| `Idempotency.AnswerLasts` | framework/crates/rustlavel-cache/src/idempotency.rs:243-249 | an answer is replayed for exactly the time configured, from when it was stored |
| `Idempotency.SecondSuccessNeedsExpiry` | framework/crates/rustlavel-cache/src/idempotency.rs:209-217 | a second success needs a lock that ran out: at some point of the run the lock was past its deadline |
| `Idempotency.ExpiryLetsSuccessRepeat` | framework/crates/rustlavel-cache/src/idempotency.rs:209-217 | and a lock that ran out does let a success repeat |
| `Idempotency.FailureLetsTheNextRun` | framework/crates/rustlavel-cache/src/idempotency.rs:243-247 | after a failure the next request runs |
| `FileStore.SameFileSameLock` | framework/crates/rustlavel-cache/src/file.rs:80-87 | keys that share a file share a lock |
| `FileStore.FileStore.Get` | framework/crates/rustlavel-cache/src/file.rs:91-111 | a miss, or the live value of that very key; a colliding key is a miss |
| `FileStore.FileStore.Write` | framework/crates/rustlavel-cache/src/file.rs:113-139 | the key is stored, and keys sharing its file are lost |
| `FileStore.FileStore.Put` | framework/crates/rustlavel-cache/src/file.rs:170-180 | stores with a deadline, or removes the file |
| `FileStore.FileStore.Forget` | framework/crates/rustlavel-cache/src/file.rs:189-200 | the file is gone; true exactly if the key was live |
| `FileStore.FileStore.Increment` | framework/crates/rustlavel-cache/src/file.rs:220-233 | adds to what is live at the first reading; the deadline is that of the second |
| `FileStore.FileStore.IncrementWithin` | framework/crates/rustlavel-cache/src/file.rs:235-260 | the same, and a new counter gets its own deadline |
| `FileStore.DeadlineIsKept` | framework/crates/rustlavel-cache/src/file.rs:225-249 | a live counter keeps its deadline exactly if the deadline is not between the two readings; if it is, the counter never expires again |
| `FileRuns.EveryReadIsSound` | framework/crates/rustlavel-cache/src/file.rs:91-111 | in every interleaving a read answers a miss or the live value last written under its own key |
| `FileAnswers.EveryReadFinds` | framework/crates/rustlavel-cache/src/file.rs:91-111 | and in every interleaving in which no other key shares the file and nothing under the key expires, exactly what was last written, or a miss if nothing was or it was removed |
| `FileAnswers.GetAlone` | framework/crates/rustlavel-cache/src/file.rs:91-111 | a read answers the value of a document of its own key that is not over, and otherwise a miss |
| `FileAnswers.PutAlone` | framework/crates/rustlavel-cache/src/file.rs:170-180 | an undisturbed write leaves the value with its deadline, or no file for a time to live of nothing |
| `FileAnswers.ForgetAlone` | framework/crates/rustlavel-cache/src/file.rs:189-200 | an undisturbed removal takes the lock, deletes the file and gives the lock back |
| `FileAnswers.IncrementAlone` | framework/crates/rustlavel-cache/src/file.rs:220-260 | an undisturbed increment takes the lock, adds to the value and keeps its deadline, or starts a counter with a time of its own, and gives the lock back |
| `FileRuns.OneHolderPerFile` | framework/crates/rustlavel-cache/src/file.rs:85-87 | in every run, of all callers on keys sharing a file at most one holds its lock |
| `FileRuns.IncrementsSumExactly` | framework/crates/rustlavel-cache/src/file.rs:220-260 | without collision or expiry interleaved increments of a key sum exactly, and each answers the sum so far |
| `FileRuns.DeadlineNeverMoves` | framework/crates/rustlavel-cache/src/file.rs:225-249 | and its deadline never moves |
| `Calendar.EveryDayHasADate` | framework/crates/rustlavel-cli/src/database.rs:242-254 | every integer day maps to a valid proleptic Gregorian date |
| `Calendar.DayNumberUndoesCivil` | framework/crates/rustlavel-cli/src/database.rs:242-254 | the number of a day's date is the day |
| `Calendar.CivilUndoesDayNumber` | framework/crates/rustlavel-cli/src/database.rs:242-254 | and every valid date is the date of its number |
| `Calendar.NextDayIsTomorrow` | framework/crates/rustlavel-cli/src/database.rs:242-254 | the day after has the successor date, through months, leap days, centuries and eras |
| `Calendar.TheEpoch` | framework/crates/rustlavel-cli/src/database.rs:242-254 | day 0 is 1970-01-01 |
| `Calendar.DatesInOrder` | framework/crates/rustlavel-cli/src/database.rs:242-254 | the order of days is the order of dates |
| `Calendar.TheTwoAgree` | framework/crates/rustlavel-audit/src/store.rs:273-285 | the audit log and the migration generator compute the same date |
| `Timestamps.TextOrderIsTimeOrder` | framework/crates/rustlavel-audit/src/store.rs:286-293 | for years 0 to 9999 the order of the texts, of either format, is the order of the instants |
| `Timestamps.FilterSelectsTheDays` | framework/crates/rustlavel-audit/src/store.rs:204-212 | the from/to filter selects exactly the entries of those days |
| `Timestamps.OpenFilter` | framework/crates/rustlavel-audit/src/store.rs:204-212 | and with a bound left open, those from or up to the other |
| `Base32.Encode` | framework/crates/rustlavel-auth/src/totp.rs:76-98 | the loop over a wrapping 32-bit accumulator writes the letters of the five-bit groups |
| `Base32.Decode` | framework/crates/rustlavel-auth/src/totp.rs:113-143 | the loop reads the whole bytes a text spells, and refuses it exactly if some character is neither a letter, nor 2 to 7, nor =, nor white space |
| `Base32.DecodeUndoesEncode` | framework/crates/rustlavel-auth/src/totp.rs:76-143 | decoding what was encoded gives the bytes back, for every byte string |
| `Base32.EncodedLength` | framework/crates/rustlavel-auth/src/totp.rs:76-98 | the length is the ceiling of 8n/5 |
| `Base32.PresentationDoesNotMatter` | framework/crates/rustlavel-auth/src/totp.rs:113-136 | inserting white space or =, or changing case, never changes what decodes |
| `PublishOrder.Publisher.Visit` | publish-order.py:61-71 | lists a crate and all it needs, in order and once each, or finds a cycle; always terminates |
| `PublishOrder.Publisher.Publish` | publish-order.py:57-74 | fails exactly if there is a cycle, and otherwise lists each crate once after all it needs |
| `PublishOrder.OrderMeansNoCycle` | publish-order.py:91-96 | no order exists for a relation with a cycle |
| `PublishOrder.DependenciesStandBefore` | publish-order.py:91-96 | the closing check can never fire |
| `Session.SessionObject.AgeFlash` | framework/crates/rustlavel-auth/src/session.rs:168-176 | exactly the keys flashed last time and not this time leave, and the change is marked if there are any |
| `Session.SessionObject.Token` | framework/crates/rustlavel-auth/src/session.rs:219-226 | the token held, or the one minted, which is held from then on |
| `Session.SessionObject.Invalidate` | framework/crates/rustlavel-auth/src/session.rs:209-212 | no data, no flash, the new id |
| `Session.SessionObject.Regenerate` | framework/crates/rustlavel-auth/src/session.rs:188-206 | the new id, the token gone, everything else kept |
| `Session.OpsKeepTidy` | framework/crates/rustlavel-auth/src/session.rs:105-176 | flash sets stay within the data keys through any operations |
| `Session.OpsMarkChange` | framework/crates/rustlavel-auth/src/session.rs:105-226 | until a change is marked the session is as it was loaded |
| `SessionMiddleware.SessionManager.Handle` | framework/crates/rustlavel-auth/src/middleware.rs:317-428 | load, handler, page record, age, then skip, or destroy the old record and write; the cookie is the id at the end |
| `SessionMiddleware.EverySequenceKeepsFlashWithin` | framework/crates/rustlavel-auth/src/middleware.rs:317-428 | over every sequence of requests the flash keys of every record are keys of its data |
| `SessionMiddleware.SkippingLosesNothing` | framework/crates/rustlavel-auth/src/middleware.rs:409-411 | a skipped write would have stored what is stored, but for the time |
| `SessionRuns.OthersLeaveRecord` | framework/crates/rustlavel-auth/src/middleware.rs:317-428 | a request of another session leaves a record alone |
| `SessionRuns.FlashLivesOneMoreRequest` | framework/crates/rustlavel-auth/src/session.rs:140-176 | over any sequence: flashed in one request, readable throughout the next of the session whoever comes in between, then gone, and gone for good until put or flashed again |
| `SessionRuns.FateIsKept` | framework/crates/rustlavel-auth/src/session.rs:168-176 | over any number of requests, of the session through all its ids and of others, a key never flashed keeps its value, an absent one stays absent, and a flashed one lives as long as every request of the session keeps it |
| `SessionRuns.SkipsExactlyWhenNothingChanges` | framework/crates/rustlavel-auth/src/middleware.rs:409-411 | the write is skipped exactly when nothing is flashed and no operation of the handler has anything to do |
| `SessionRuns.ProlongedExactlyByChange` | framework/crates/rustlavel-auth/src/middleware.rs:409-424 | a session is prolonged exactly by the requests that change something, and then lives a lifetime from their time |
| `SessionRuns.OldIdNeverReturns` | framework/crates/rustlavel-auth/src/middleware.rs:413-424 | after a rotation no later sequence brings a record back under the old id |
| `SessionRuns.BackExactlyWhenWritten` | framework/crates/rustlavel-auth/src/middleware.rs:396-424 | however requests overlap, a record that is gone is back exactly if a request was answered that wrote under the id, and none since that rotated away from it |
| `SessionRuns.OverlapBringsBack` | framework/crates/rustlavel-auth/src/middleware.rs:396-411 | a request overlapping a rotation brings the old record back exactly if it changes something and does not itself end under another id |
| `SessionMiddleware.FlashIsStored` | framework/crates/rustlavel-auth/src/session.rs:140-144 | a key flashed and then left alone goes into the store, flashed, with its value |
| `SessionMiddleware.RenewedExactly` | framework/crates/rustlavel-auth/src/session.rs:147-176 | a flashed key that is left alone lives one request longer exactly if the request keeps or reflashes it, and is gone otherwise |
| `SessionLaws.FoundExactly` | framework/crates/rustlavel-auth/src/store.rs:50-53 | a record is found exactly while less than a lifetime has passed since it was written |
| `SessionLaws.EndsUnder` | framework/crates/rustlavel-auth/src/session.rs:188-212 | a request ends under the id it rotated to last, or the one it was loaded with |
| `SessionLaws.RemovedIsGone` | framework/crates/rustlavel-auth/src/session.rs:111-129 | a key that a request forgets, flushes, invalidates or, for the token, rotates away, and does not add again, is not in the record it leaves |
| `SessionLaws.LogoutLeavesNothing` | framework/crates/rustlavel-auth/src/session.rs:209-212 | after a logout the record under the new id is empty but for the page to return to, and there is none under the old id |
| `SessionLaws.LogoutIsForGood` | framework/crates/rustlavel-auth/src/session.rs:209-212 | and what the logout took out stays out over any later requests until somebody puts it there |
| `SessionLaws.TokenIsRenewed` | framework/crates/rustlavel-auth/src/session.rs:188-226 | the token asked for after a rotation is the one stored, whatever was planted before |
| `SessionLaws.PutIsStoredExactly` | framework/crates/rustlavel-auth/src/session.rs:105-108 | a value put and left alone is stored exactly unless its key was flashed in the last request and is not kept |
| `SessionLaws.PutOverFlash` | framework/crates/rustlavel-auth/src/session.rs:105-176 | told from the record and the operations: it is stored exactly if the key was not flashed or some operation keeps it |
| `SessionLaws.PageIsRecorded` | framework/crates/rustlavel-auth/src/middleware.rs:371-377 | a request for a page that changes its session leaves the page on record |

## Left out

- QrSymbol.EncodeWith: takes the bytes of the text; SVG output and the text of the error are not modelled.
- QrCyclic.FormatWordDivides: the minimum distance of the format and version words is not stated, only that they are code words and where they are drawn.
- Error recovery of damaged symbols: the repository only encodes.
- Billing.Billing.OnPaid: credits never expire here; the lifetime the source may give a top-up is the ledger's.
- Billing.Billing.ChangePlan: channels, amounts, instructions, creation and update times are columns that decide nothing and are not modelled.
- Billing.Billing.TickAt: clock readings never go back and the plan list is fixed; numbers are unbounded, so `saturating_add` and the signed columns do not show.
- Billing.Billing.RaiseRenewal: a statement that fails in the database aborts the source's method half way; the serial level has no such failures, the interleaved level has crashes.
- Billing.Billing.Subscribe: identifiers are taken to be new, as the source's time-and-counter identifiers are meant to be.
- BillingSteps.EveryRun: one paid invoice per period and terminal cancellation are not claimed there; they hold when calls come one after another.
- `on_event`, `for_customer`, `invoices` and the JSON forms of rows: dispatch and reads.
- CacheFlat.Counter: numbers are exact integers, so neither the 2^53 limit of the stored floating-point numbers nor 64-bit overflow shows; how a string is read as a counter is an arbitrary function.
- CacheMemory.MemoryStore.Put: key prefixes, hit and miss records and poisoned locks are not modelled.
- CacheRuns.MomentsNeedNotBeOrdered: when the moments of a run can be ordered is not stated.
- CacheRuns.EveryRunIsFlat: `flush` clears one shard after another; each is its own step there, so a flush is not atomic.
- RateRuns.ExactlyLimitPerSlot: the limiter's wall clock and the store's clock are one clock, and the store's reading is not before the limiter's; nobody clears the counter, and no other window on the key shares it, during the run.
- Idempotency.EveryRun: the store is up and the run is within the lifetime of its lock; what happens when the store is down (the request runs unprotected) is not modelled, nor how scopes, keys and fingerprints are derived.
- Freeze.ThawUndoesFreeze: which bytes are UTF-8 is an arbitrary predicate; the JSON text the store may make of it is not modelled.
- FileStore.SameFileSameLock: the two FNV-1a passes are arbitrary functions into numbers of the printed width, so nothing is claimed about how rare collisions are.
- FileAnswers.EveryReadFinds: a read that finds an expired document deletes the file in a second step, which may delete what was written in between; such runs are excluded.
- FileRuns.IncrementsSumExactly: within one process; a plain `put` takes no lock and may overwrite or be overwritten by an increment, which is why such runs are excluded.
- FileStore.FileStore.Write: temporary files, failing writes and directories are not modelled; a rename is one step.
- Timestamps.TextOrderIsTimeOrder: outside the years 0 to 9999 the texts change width and the order is not claimed.
- Base32.Decode: `char::is_whitespace` is the list of Unicode white space written out.
- One-time passwords, recovery codes, HMAC and constant-time comparison: foreign primitives and the arithmetic around them.
- PublishOrder.Publisher.Publish: reading manifests, the name pattern and the check that every mention is accounted for are not modelled; the dependency relation is given.
- SessionMiddleware.SessionManager.Handle: cookies and their signatures, store failures and garbage collection are not modelled.
- Session.SessionObject.Token: a token stored as JSON null would be minted again; values are opaque here.
- Redis drivers, the query builder, SQL text, HTTP plumbing, the CLI, the documentation and chart crates.
