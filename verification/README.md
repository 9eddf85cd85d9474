# An event-sourced portfolio ledger, verified

The program keeps a stock portfolio as two append-only logs in a spreadsheet workbook: ledger
events (buys, vests, sales, splits, reversals) and tax-accrual events. Everything else (lots,
gains, positions) is recomputed by replaying the logs. This project models the parts of it
whose correctness is not visible from reading one function, and proves what they promise.

## What is modelled

**The ledger fold** (`Rounding`, `Keys`, `Apportion`, `Ledger`, `FoldState`). A specification on
values says what each event does to the lots and gains: FIFO or named selection, half-to-even
basis consumption with a sweep on closure, largest-remainder proceeds, rounded splits, the error
branches in their order. The class `FoldState` is the program's mutable fold, loop by loop, and
each of its methods is proved to compute that specification. About the specification:

- what every run conserves: basis, proceeds, shares (`Conservation`), and how much of it reaches
  a snapshot (`Snapshot`);
- what each event does and when it is accepted, said of shares, cents and days alone (`Effects`,
  `Sales`), and what a snapshot says they are worth (`Valuation`);
- selection: a FIFO sale is the named sale of its own plan (`Selection`), it empties the oldest lots
  first (`Sales`), and the order of the names does not matter (`Permutation`);
- monotonicity: a book with at least as many shares in every lot accepts every event the smaller
  one accepts, the cap on split results aside (`Dominance`), and an untouched lot can be cut out
  of a whole run (`Removal`);
- reversals: exactly which accepted reversals leave replay free of errors
  (`ReversalTotality`);
- the importer's reconstruction of a ledger from legacy rows (`Reconstruction`), what it files and in
  which order (`LedgerOrder`), its predicted P&L difference, as a theorem about two runs of the fold
  (`ImportDelta`), the tolerance it grants a position, over every lot of a symbol (`Tolerance`), and
  cash exactness from spreadsheet cells (`DollarCells`) to replayed lots (`LegacyCash`);
- short logs, grown by accepted events, on which a documented promise fails (`Exceptions`).

**The store** (`Text`, `Escape`, `Rows`, `TaxRows`, `Integrity`, `EventIds`, `Workbook`, `Logs`,
`Idempotency`, `Store`, `StoreRuns`, `Commit`, `Import`, `Submit`, `AcceptedLog`,
`TabExceptions`). The workbook is an adversary: any call may fail before or after taking effect,
an append may vanish or land altered, tabs may be missing, and rows of other writers may land
between any two calls while nobody holds the write lock. Over that, the class `Store` appends with read-back and idempotent retry, loads,
refreshes its mirror and checks integrity. Proved: the row codec round-trips exactly on the
events it can store; over every run by any number of writers each tab counts 1 to n and ids stay
unique across tabs; a confirmed append is one row that decodes to the event; interrupted commits
resume to the same tabs; a resubmitted entry lands once unless a landing was altered; and over
every run of submits the tab keeps loading and replaying without error. The workbook also counts the
faults it puts in the way, and what each operation comes to when it meets none is proved too: an
append lands, a commit finishes, and a submit is refused or lands as the validator decides.

**Concurrency** (`Lock`, `LockRaces`, `TokenCache`). Step systems over any number of processes or threads in
which each filesystem call or locked section is one step, with invariants over every run, and a
class whose method follows one caller through the source's loop while the others move.

**Arithmetic around it** (`Reports`, `Calendar`, `Residency`). Largest-remainder tax and share
distribution, civil-date conversion both ways, month subtraction, and residency by intervals
against residency day by day.

One lemma, `Apportion.LargestRemainder`, serves the program's three separate implementations of
largest-remainder apportionment.

## What the proofs found

Where the code and its documentation disagree the model follows the code; these are the
disagreements, each with a witness or an exact condition.

- *Reversal totality fails for forward splits* (LEDGER-VERIF-008 in
  docs/intent/ledger-core/ledger-core-specs.md). Buy 10, split 20:1, sell 150, reverse the split:
  the validator accepts, and replay then silently drops the sale (`ReversedSplitDropsSale`).
  `AcceptedReversalIff` gives the exact condition for every accepted reversal: none if the target
  opened a lot, the cap of each surviving split if it is a sale or a consolidation, and for a
  forward split also the cover of each surviving sale. In logs without splits validation alone is
  enough (`SplitFreeLogsGrow`).
- *A reversal of a reversal* passes the validator but is refused by every later load
  (`AcceptedStaysLoadable`: loadable if and only if it is not one; `ReversedReversalUnloadable`
  is a log of three events).
- *Basis is not always non-negative* (LEDGER-VERIF-003): fees may be negative, and lots stay
  non-negative exactly when every opening brings a non-negative basis (`BasisNonNegativeIff`,
  `NegativeFeesNegativeBasis`).
- *A rejected split can leave lots rescaled* inside the fold (LEDGER-VERIF-004): the lots before
  the one over the cap keep their new quantity. `RejectedLeavesBookIff` says exactly when a
  rejected event changes nothing, and `RejectedSplitRescales` gives a log that the program can
  hold whose replay leaves a lot doubled by a split it rejects.
- *A split can round an open lot to zero shares*; the snapshot then omits its basis.
  `SnapshotConserves` and `PredictionExact` carry that basis as an explicit term, and
  `SplitStrandsBasis` and `PredictionOffByCent` show it on a log of three events. No lot is stranded
  if and only if every split leaves each lot more than half of the smallest unit (`NoneStrandedIff`),
  and then the snapshot balances (`SnapshotBalances`).
- *The legacy side of the import prediction* replays without error exactly when the fees of
  sell-to-cover sales are within the money cap (`LegacyRunIff`, `FeesBreakLegacyRun`).
- *Two processes can hold the lock*, because a lockfile judged stale is removed by path without
  being read again. It takes no second reclaimer: a holder slower than the time to live and one
  process asking for the lock are enough (`SlowHolderLosesIt`); two processes reclaiming a dead
  one's file do it too (`StaleReclaimRace`), and so does a half-written file that disappears
  between being read and being dated, with no time passing (`UndatedFileRace`). `RecklessIff` says
  exactly which judgements are to blame: those of a file somebody still relies on, or made while
  another process is about to remove one. Over every run exclusion is never in danger if and only
  if none was made (`NothingRecklessIff`), and what a crash, a failed write or a failed release
  leaves behind is reclaimed safely (`UnclaimedIsRecovered`).
- *A panicking mint wedges the token cache*: the in-flight flag is never cleared (`PanicWedges`).
- *The cached mirror can go unnoticed out of date* if a row lands after the logs were read and
  before the rows were counted, which needs a load outside the write lock; a mirror that is served
  is current exactly when none did (`Refresh`), and `LoadOneBehind` builds one that is not.
- *An append that lands altered* is reported as failed. A retry of a sale can then land a second
  row (`AlteredSaleLandsTwice`), that of an opening whose lot still reads cannot
  (`AlteredOpeningStaysAlone`). Of the rows landed for one entry all but at most one are altered,
  so once a submit has succeeded exactly one has landed if and only if none was altered
  (`SubmitRepeatedly`).
- *`account_label` does not round-trip when empty*, against the comment at
  crates/store/src/serde_rows.rs:440: it is decoded as a required cell (`TaxRowRoundTrip`).
- *Platform net-of-tax equals symbol net-of-tax* because of how estimates are bounded, not because of
  how they are split: tax estimated for a symbol none of whose lots gained would be dropped
  (`PlatformsReconcile`, `UnboundedEstimateDropped`), but the program bounds its estimates by the
  symbol's net unrealized gain, so none is (`BoundedEstimatesReconcile`). Values rounded per lot do
  differ from the value rounded per symbol, by up to (n + 1)/2 cents (`LotValuesNearSymbolValue`,
  `LotValuesCanDiffer`).
- *Dates past the end of a month* such as February 31 are parsed, to a day that is written
  differently (`ParsedDayIsWrittenDay`).
- *A negative lookback* makes the interval form of residency name states the pointwise form does
  not (`NegativeLookbackDisagrees`).
- *Amounts between -99 and -1 cents lose their sign* when written back as text; `FormatReadsBack`
  says what is read back for every amount, and `SaleNetsRecorded` when a sale is still exact.
- A split's import id does include the position of the owner's action in its list, against the
  comment at crates/import/src/lib.rs:893-897; ids stay distinct either way and are parameters
  here.

## Assumptions

Integers are unbounded; where the source compares with a cap or parses a 64-bit or 32-bit number
the bound is written out. Strings stand for UTF-8 bytes and only ASCII white space is trimmed.
Content hashes and the ids made from them are parameters; integrity checking is proved for hashes
that tell different logs apart. A tab has room for 2^63 - 2 rows. The workbook's rows are only
ever added to: nobody deletes or edits them in place. A row that lands altered keeps the
number and the id it was written with; the dense numbering and the unique ids rest on that. No two
readable legacy sale rows share an id, which is made from the row's coordinate.

## Model

| member | source | states |
|---|---|---|
| `Rounding.RoundHalfToEven` | crates/ledger-core/src/lib.rs:429-472 | The result is a nearest integer to the quotient, and the even one of two equally near, for either sign of the numerator. |
| `Rounding.RoundUnique` | crates/ledger-core/src/lib.rs:429-472 | Only one integer meets that description, so rounding is fully determined by it. |
| `Rounding.RoundMonotone` | crates/ledger-core/src/lib.rs:429-472 | Rounding never reverses the order of two quotients over one denominator. |
| `Rounding.ConsumedBasis` | crates/ledger-core/src/lib.rs:516-562 | A partial sale takes the proportional basis to within half a cent; taking all shares takes all basis, taking none takes none, and a non-negative basis is never overdrawn. |
| `Rounding.BasisDrift` | crates/ledger-core/src/lib.rs:516-562 | After k partial sales of a lot the basis left is within k/2 cents of the exact proportional share of the opening basis, and is exactly zero once the shares are. |
| `Rounding.ToleranceCoversDrift` | crates/import/src/lib.rs:1318-1324 | The reconciliation tolerance for k consumed lots covers the drift that k partial sales can cause. |
| `Tolerance.RunFollows` | crates/ledger-core/src/lib.rs:891-983 | Over any run without a split of a symbol, each of its lots has the basis and shares that its opening and the sales out of it, in order, leave, and those sales number as many as the symbol's gains. |
| `Tolerance.ToleranceCoversPosition` | crates/import/src/lib.rs:1318-1324 | The basis left in all lots of a symbol is within the tolerance for its number of gains of the summed exact proportional shares, over any such log. |
| `Apportion.LargestRemainder` | crates/ledger-core/src/lib.rs:1073-1113 | For any positive total weight: shares sum to the total, each is the floor or floor plus one of its exact quota, whole quotas get no extra unit, and the residual is below the number of rows. Negative totals included. |
| `Apportion.LargerRemaindersFirst` | crates/ledger-core/src/lib.rs:1094-1113 | A row that got an extra unit has a remainder at least as large as any row that did not. |
| `Apportion.ResidualBounds` | crates/ledger-core/src/lib.rs:1091-1108 | The units left over number fewer than the rows, and every row they reach has a nonzero remainder. |
| `Apportion.AwardEffect` | crates/ledger-core/src/lib.rs:1105-1113 | Awarding units adds exactly one to each of the first ranked rows and nothing elsewhere. |
| `Apportion.SortedKeysRank` | crates/ledger-core/src/lib.rs:1096-1104 | Sorting by descending remainder with tie-break keys gives a ranking without repeats that reaches every row with a remainder. |
| `Ledger.CheckRef` | crates/ledger-core/src/lib.rs:1004-1027 | A designated lot that is accepted exists, is open, is of the symbol and platform, was not named before, and has the shares. |
| `Ledger.DesignatedFeasible` | crates/ledger-core/src/lib.rs:999-1031 | A designated plan takes distinct eligible lots, in the order named, never more than each holds. |
| `Ledger.FifoFeasible` | crates/ledger-core/src/lib.rs:1032-1064 | A FIFO plan takes distinct eligible lots, never more than each holds, and no more in all than asked. |
| `Ledger.SelectedFeasible` | crates/ledger-core/src/lib.rs:992-1065 | Any selection that succeeds is feasible and takes exactly the quantity sold. |
| `FoldStates.FoldState.SelectDesignated` | crates/ledger-core/src/lib.rs:999-1031 | The loop over named lots yields the specified plan or the first error. |
| `FoldStates.FoldState.TakeInOrder` | crates/ledger-core/src/lib.rs:1049-1063 | The greedy loop takes from each lot in order until the quantity is met, and fails if it is not. |
| `FoldStates.FoldState.Select` | crates/ledger-core/src/lib.rs:992-1065 | Selection computes the specified plan or error for every input; `Sales.OldestLotsFirst`, `Sales.UnnamedSelectionIff` and `Sales.NamedSaleTakesNamed` say which lots and how many shares that is. |
| `FoldStates.FoldState.AllocateProceeds` | crates/ledger-core/src/lib.rs:1073-1113 | The loop computes the largest-remainder apportionment of net proceeds, ties going to the lot opened earlier. |
| `FoldStates.AwardUnits` | crates/ledger-core/src/lib.rs:1105-1113 | The loop that hands out leftover units computes the specified award. |
| `FoldStates.FoldState.ConsumeOne` | crates/ledger-core/src/lib.rs:949-981 | Consuming part of one lot updates its shares, basis and closed flag, records the gain and marks the opening event as depended on. |
| `FoldStates.FoldState.Consume` | crates/ledger-core/src/lib.rs:948-982 | Consuming a plan, lot by lot in place, is the specified consumption. |
| `FoldStates.FoldState.ApplySell` | crates/ledger-core/src/lib.rs:891-983 | A sale changes the mutable state and reports exactly as specified, errors leaving it untouched. |
| `FoldStates.FoldState.RescaleAll` | crates/ledger-core/src/lib.rs:861-877 | The split loop rescales open lots of the symbol until one exceeds the cap; those before it stay rescaled. |
| `FoldStates.FoldState.ApplySplit` | crates/ledger-core/src/lib.rs:853-878 | A split has the specified effect, the partial one on failure included. |
| `FoldStates.FoldState.ApplyEvent` | crates/ledger-core/src/lib.rs:777-884 | Every event changes the mutable state and is accepted or rejected exactly as specified. |
| `Dominance.RejectedLeavesBookIff` | crates/ledger-core/src/lib.rs:777-884 | A rejected event leaves the book as it was if and only if it is no well-formed split, or each lot the split rescales before the first over the cap keeps its quantity and was already depended on. |
| `Exceptions.RejectedSplitRescales` | crates/ledger-core/src/lib.rs:861-876 | Two buys, half of the second sold, split 2:1, the sale reversed, all accepted: replay rejects the split and leaves the first lot doubled. |
| `FoldStates.SurvivingSorted` | crates/ledger-core/src/lib.rs:751-770 | The loops that drop reversals and their targets and sort by sequence number compute the specified survivors. |
| `FoldStates.Replay` | crates/ledger-core/src/lib.rs:1120-1129 | Replay is the snapshot of the specified fold of the survivors, rejected events being skipped. |
| `FoldStates.ValidateCandidate` | crates/ledger-core/src/lib.rs:1236-1367 | The validator gives the specified verdict, with the specified error, for every log and candidate. |
| `FoldStates.FoldState.BuildSnapshot` | crates/ledger-core/src/lib.rs:1133-1232 | The snapshot built from the mutable state is the specified one; `Valuation.OpenLotsValued` and `Valuation.PositionsValued` say what its lots and positions are worth. |
| `FoldStates.FoldState.PositionFor` | crates/ledger-core/src/lib.rs:1182-1225 | The accumulation loops compute a position's shares, basis, realized and unrealized profit; `Valuation.PositionsValued` says what these are. |
| `Conservation.ProceedsExact` | crates/ledger-core/src/lib.rs:1073-1113 | The proceeds of the lots of a sale sum to its net proceeds, each the floor of its quota or one more. |
| `Conservation.SaleTotals` | crates/ledger-core/src/lib.rs:891-983 | An accepted sale moves basis from lots to gains without loss, removes exactly its quantity, and its gains are net proceeds less consumed basis. |
| `Conservation.EventTotals` | crates/ledger-core/src/lib.rs:777-884 | Every event, accepted or not, changes carried basis and proceeds by exactly what it brought. |
| `Conservation.BasisConserved` | crates/ledger-core/src/lib.rs:777-884 | Over any run from any book, basis in lots plus basis in gains grows by what accepted events opened, and gains equal proceeds less basis. |
| `Conservation.LedgerConserves` | crates/ledger-core/src/lib.rs:1120-1129 | For an error-free log: opening bases equal remaining plus realized basis, and realized gains equal net proceeds less realized basis, per symbol. |
| `Conservation.SharesConserved` | crates/ledger-core/src/lib.rs:777-884 | Between splits of a symbol, shares held equal shares opened less shares sold. |
| `Snapshots.ReportedPlusStranded` | crates/ledger-core/src/lib.rs:1148-1153 | The basis a snapshot reports plus that of open lots rounded to zero shares is the whole remaining basis; no shares are omitted. |
| `Snapshots.SnapshotConserves` | crates/ledger-core/src/lib.rs:1133-1232 | Snapshot totals conserve basis up to exactly the stranded basis, and realized P&L is proceeds less realized basis. |
| `Snapshots.EventStrandsIff` | crates/ledger-core/src/lib.rs:861-872 | After an accepted event a lot is open without shares exactly if it was, or the event is a split and twice its shares times the numerator is at most the denominator. |
| `Snapshots.NoneStrandedIff` | crates/ledger-core/src/lib.rs:861-872 | Over every error-free run no lot ends up without shares and open if and only if none was and every split leaves each lot more than half of the smallest unit. |
| `Snapshots.SnapshotBalances` | crates/ledger-core/src/lib.rs:1133-1232 | For a log whose splits do, reported open basis plus realized basis is exactly the opening bases. |
| `Exceptions.SplitStrandsBasis` | crates/ledger-core/src/lib.rs:1148-1151 | A log grown by accepted events whose split leaves a cent on an open lot of no shares, which the snapshot omits. |
| `Snapshots.PositionsAreHeldSymbols` | crates/ledger-core/src/lib.rs:1139-1195 | A snapshot has a position for each symbol ever bought or vested and no other. |
| `Valuation.OpenLotsValued` | crates/ledger-core/src/lib.rs:1146-1181 | The snapshot lists exactly the open lots with shares, in order, each with a profit if and only if its symbol is marked, and profit and basis make up shares times mark, a million micro-shares to the share, to half a cent. |
| `Valuation.PositionsValued` | crates/ledger-core/src/lib.rs:1148-1223 | A position adds up its symbol's open lots and gains; it has an unrealized profit if and only if it has open shares and a mark, and that and its basis make up its shares times the mark to half a cent per open lot. |
| `Valuation.PositionSumsListedLots` | crates/ledger-core/src/lib.rs:1190-1209 | Its shares, basis and unrealized profit are the sums over the listed lots of the symbol. |
| `Valuation.FoldedGainsAddUp` | crates/ledger-core/src/lib.rs:965-980 | In every folded book each gain is its proceeds less its basis. |
| `Selection.ConsumeLots` | crates/ledger-core/src/lib.rs:948-982 | Consuming a plan lowers each lot by exactly what the plan takes from it and changes nothing else about which lots there are. |
| `Selection.FifoIsSkim` | crates/ledger-core/src/lib.rs:1032-1064 | FIFO over open lots equals skimming all lots of the symbol and platform in acquisition order: closed lots make no difference. |
| `Selection.SelectionByName` | crates/ledger-core/src/lib.rs:992-1065 | Naming the lots of a plan that was selected selects the same plan. |
| `Selection.FifoSaleIsDesignatedSale` | crates/ledger-core/src/lib.rs:891-983 | A FIFO sale leaves the same state, gains included, as the sale that names its plan. |
| `Selection.EarlierLotsExhausted` | crates/ledger-core/src/lib.rs:1032-1064 | In that order no lot is taken from before all earlier ones are emptied; `Sales.OldestLotsFirst` says it of days and numbers. |
| `Sales.OldestLotsFirst` | crates/ledger-core/src/lib.rs:1032-1064 | A sale that names no lots takes from a lot of the symbol on the platform only if every such lot acquired on an earlier day, or on the same day under an earlier number, is emptied. |
| `Sales.SaleEmptiesOldest` | crates/ledger-core/src/lib.rs:1032-1064 | So after an accepted sale the older of two lots has no shares left if the younger has lost any. |
| `Sales.UnnamedSelectionIff` | crates/ledger-core/src/lib.rs:1032-1064 | It finds its shares if and only if the symbol has as many on the platform, and otherwise fails for want of shares. |
| `Sales.NamedSaleTakesNamed` | crates/ledger-core/src/lib.rs:999-1031 | A sale that names lots lowers each by the shares named for it and leaves every other lot as it was. |
| `Sales.OddCentsInOrder` | crates/ledger-core/src/lib.rs:1094-1113 | A take that gets an odd cent of the proceeds has a larger remainder than any that does not, or the same one and an older lot. |
| `Sales.GainRecords` | crates/ledger-core/src/lib.rs:965-980 | Each gain has the sale's name, number, day and state, the lot's name and day, the days between the two, and as basis what left the lot. |
| `Effects.BuyOpens` | crates/ledger-core/src/lib.rs:778-818 | A buy is accepted if and only if its quantity is positive, its lot name is new, and its price and its price with fees are within 2^40 cents; it then opens one lot at price and fees, with the event's day, number and name, and changes nothing else. A rejected one changes nothing and is rejected for the first of these. |
| `Effects.VestOpens` | crates/ledger-core/src/lib.rs:819-852 | The same of a vest, whose lot opens at the vested value. |
| `Effects.SaleAccepted` | crates/ledger-core/src/lib.rs:924-941 | A sale is accepted if and only if its quantity is positive, its shares are found, and its price and its price less fees are within the cap; otherwise it is rejected for the first of these and changes nothing. |
| `Effects.SaleGainIs` | crates/ledger-core/src/lib.rs:943-981 | Each gain is its part of the net proceeds by shares, rounded down or up, less the basis that left its lot: all of it with the last share, else the proportional part to the nearest cent. Only the shares, basis and closed flag of the lot change. |
| `Effects.SaleMarks` | crates/ledger-core/src/lib.rs:962-963 | A sale marks as depended on exactly the events that opened the lots it takes from. |
| `Effects.SplitRescales` | crates/ledger-core/src/lib.rs:853-878 | A split by positive numbers is accepted if and only if no open lot of the symbol overflows. Each such lot, up to the first that would, gets its shares times the ratio to the nearest micro-share; nothing else of any lot changes. |
| `Effects.SplitMarks` | crates/ledger-core/src/lib.rs:869-875 | It marks exactly the events that opened the lots it rescales. |
| `Effects.SurvivorsAre` | crates/ledger-core/src/lib.rs:751-771 | The survivors are the events that are no reversals and that none reverses, each as often as in the log, by number. |
| `Effects.DependedOnIff` | crates/ledger-core/src/lib.rs:777-982 | Over every run an opening is depended on if and only if some event of it took shares from a lot the opening made, or rescaled one. |
| `Effects.ReversalAccepted` | crates/ledger-core/src/lib.rs:1348-1366 | A reversal is accepted if and only if its target is in the log, is not reversed yet, and no survivor took shares from a lot it opened or rescaled one; otherwise the error is that of a bad reversal. |
| `Permutation.DesignatedIff` | crates/ledger-core/src/lib.rs:999-1031 | Named selection succeeds if and only if the names are distinct and each passes its check on its own. |
| `Permutation.ProceedsPermuted` | crates/ledger-core/src/lib.rs:1073-1113 | Two orders of one plan give each lot the same proceeds, lots having distinct opening numbers. |
| `Permutation.SelectionPermuted` | crates/ledger-core/src/lib.rs:999-1031 | Reordering the named lots of a selection that succeeds succeeds with the same takes. |
| `Permutation.SalePermutedLots` | crates/ledger-core/src/lib.rs:891-983 | A sale naming its lots in another order is accepted too and leaves the same lots. |
| `Permutation.SalePermutedGains` | crates/ledger-core/src/lib.rs:891-983 | Each lot has the same gain, proceeds and basis whatever the order of the names. |
| `Permutation.SalePermutedCount` | crates/ledger-core/src/lib.rs:948-981 | And there are as many gains. |
| `Permutation.LogHasDistinctOpenings` | crates/ledger-core/src/lib.rs:751-770 | Folding events of rising numbers gives each lot an opening number of its own. |
| `Permutation.ReplayedSalePermuted` | crates/ledger-core/src/lib.rs:891-983 | After replaying any such log, a sale naming its lots in another order is accepted, leaves the same lots, and realizes the same from each. |
| `Dominance.BasisNonNegativeIff` | crates/ledger-core/src/lib.rs:777-884 | Basis stays non-negative throughout a run if and only if every accepted opening brings a non-negative one. |
| `Exceptions.NegativeFeesNegativeBasis` | crates/ledger-core/src/lib.rs:794-815 | A buy with negative fees is accepted and opens a lot with negative basis. |
| `Dominance.SelectDominates` | crates/ledger-core/src/lib.rs:992-1065 | A selection that succeeds on fewer shares succeeds on more, and every lot is left with at least as many. |
| `Dominance.EventDominates` | crates/ledger-core/src/lib.rs:777-884 | An event accepted over fewer shares is accepted over more, the cap on split results being the only exception, and keeps the order. |
| `Dominance.CleanDominates` | crates/ledger-core/src/lib.rs:1120-1129 | A run without errors over fewer shares is without errors over more if and only if every split stays within the cap. |
| `Dominance.CleanOverSameLots` | crates/ledger-core/src/lib.rs:1120-1129 | Over the same lots with any quantities it is without errors if and only if splits stay within the cap and sales are covered. |
| `Removal.EventWithoutLot` | crates/ledger-core/src/lib.rs:777-884 | An event that does not touch a lot is accepted without it and leaves everything else as it would have been. |
| `Removal.FoldWithoutLot` | crates/ledger-core/src/lib.rs:1120-1129 | So does a whole run: cutting the untouched lot out changes no other lot and no gain. |
| `ReversalTotality.AcceptedReversalIff` | crates/ledger-core/src/lib.rs:1348-1365 | After an accepted reversal replay stays free of errors if and only if the guards left open for that kind of target hold. |
| `ReversalTotality.UnusedOpeningReversal` | crates/ledger-core/src/lib.rs:751-770 | Reversing an accepted, untouched buy or vest keeps replay free of errors and leaves every other lot and gain unchanged. |
| `ReversalTotality.ValidatorAgrees` | crates/ledger-core/src/lib.rs:1259-1347 | For anything but a reversal the validator and the fold give the same verdict with the same error. |
| `ReversalTotality.GrownReplaysClean` | crates/ledger-core/src/lib.rs:1120-1129 | Any log grown by accepted events, its reversals meeting that condition, replays without an error branch. |
| `ReversalTotality.SplitFreeLogsGrow` | crates/ledger-core/src/lib.rs:1236-1367 | In a log without splits acceptance alone is enough, for every reversal. |
| `ReversalTotality.ReversedSplitDropsSale` | crates/ledger-core/src/lib.rs:875 | Buy 10, split 20:1, sell 150, reverse the split: all accepted, and replay drops the sale. |
| `ImportDelta.ReconstructSales` | crates/import/src/lib.rs:921-988 | The loop over sale rows that read substitutes the vest price in zero-priced sales of vested lots and totals the substituted value per symbol. |
| `ImportDelta.PredictIntendedDelta` | crates/import/src/lib.rs:1243-1277 | The loop computes the negated vest value plus the substituted sale value. |
| `ImportDelta.EventTwins` | crates/import/src/lib.rs:1243-1277 | One step of the two runs, with and without vest value, keeps lots, shares and selections the same; it is accepted by both unless a substituted sale exceeds the cap on fees. |
| `ImportDelta.LegacyRunIff` | crates/import/src/lib.rs:1243-1277 | The run without vest value is free of errors if and only if those fees are within the cap. |
| `Exceptions.FeesBreakLegacyRun` | crates/import/src/lib.rs:952-964 | A vest at the cap and a sell-to-cover sale with fees a cent above it: accepted with the substituted price, rejected without it. |
| `ImportDelta.PredictionExact` | crates/import/src/lib.rs:1426-1434 | Through any sales and splits, those fees being within the cap, realized plus unrealized differs between the runs by exactly the prediction plus the vest basis stranded in lots rounded to zero. |
| `Exceptions.PredictionOffByCent` | crates/import/src/lib.rs:1426-1434 | A log with a split on which the prediction is a cent off. |
| `ImportDelta.RealizedPredictionExact` | crates/import/src/lib.rs:1435-1446 | Without a mark, and under the same cap, realized P&L differs by exactly the vest basis consumed less the substituted value. |
| `Reconstructions.CollectActions` | crates/import/src/lib.rs:818-887 | The loop over action rows yields the opens, the price of each vested tranche and the malformed rows, and fails at a vest without a positive price. |
| `Reconstructions.Reconstruct` | crates/import/src/lib.rs:815-1024 | The whole pass yields the specified ledger in fold order, the malformed rows, and the substituted value per symbol, and fails if and only if some vest has no positive price. |
| `Reconstructions.Arrange` | crates/import/src/lib.rs:990-1024 | Sorting by date, kind and row and numbering from 1 computes the specified arrangement. |
| `Reconstructions.FoldOrder` | crates/import/src/lib.rs:990-991 | Each event of the arranged ledger comes from an item, and no later event from an item that sorts before it; `LedgerOrder.LedgerInOrder` says it of the events and the rows. |
| `LedgerOrder.LedgerInOrder` | crates/import/src/lib.rs:988-991 | The reconstructed ledger runs by day. On one day no sale stands before a split, vest or buy and no split before a vest or buy, and events of one kind follow the places of the rows they are filed from. |
| `LedgerOrder.ActionIsFiled` | crates/import/src/lib.rs:818-887 | Every buy with a price and vest with a positive one is in the ledger, with the row's columns, its day and quantity as the owner corrected them, and the number of its position. |
| `LedgerOrder.SplitIsFiled` | crates/import/src/lib.rs:892-917 | Every split the owner supplied is in the ledger on its day. |
| `LedgerOrder.SaleIsFiled` | crates/import/src/lib.rs:921-986 | Every sale with a price is in the ledger, out of the lot it names, dated as corrected or on the day of the first later split if its quantity is already split, at its price or, for none of a vested tranche, at the vest's, and with the state of residency of its day. |
| `LedgerOrder.OneEventPerRow` | crates/import/src/lib.rs:818-991 | And the ledger has one event for each of these rows and no more. |
| `LedgerOrder.PricedIff` | crates/import/src/lib.rs:859-870 | The reconstruction succeeds if and only if every vest has a positive price. |
| `LedgerOrder.MalformedIff` | crates/import/src/lib.rs:824-838 | It lists as malformed exactly the places of the buys and sales whose price does not read. |
| `Reconstructions.ArrangedPermutes` | crates/import/src/lib.rs:990-991 | Arranging loses and adds no event. |
| `Reconstructions.LedgerKeepsValue` | crates/import/src/lib.rs:958-964 | The value totalled row by row equals the value of the substituted sales found in the ledger in fold order. |
| `Reconstructions.TwinIsLegacyLedger` | crates/import/src/lib.rs:921-991 | The legacy twin of the reconstructed ledger is the ledger the same rows give with no value on a vest and every sale at the price the spreadsheet had, in the same order. |
| `Reconstructions.PredictForMarked` | crates/import/src/lib.rs:1426-1434 | Reconstructing and predicting: the delta returned is the difference in realized plus unrealized between the ledger and its legacy twin, less the stranded vest basis, if the ledger replays without error and fees are within the cap. |
| `Reconstructions.PredictForUnmarked` | crates/import/src/lib.rs:1435-1446 | Without a mark the delta the dry run computes from the gains is exactly the difference in realized profit. |
| `LegacyCash.FormatReadsBack` | crates/import/src/parse.rs:223-233 | What parsing reads back from every formatted amount: the amount itself, or its absolute value if it was negative and under a dollar. |
| `DollarCells.DecimalReads` | crates/import/src/lib.rs:569-604 | A decimal is read as its exact amount in cents, or not at all if that is no whole number of cents or takes more than 64 bits. |
| `DollarCells.MinusReads` | crates/import/src/lib.rs:564-567 | A minus sign negates. |
| `DollarCells.DollarSignReads` | crates/import/src/lib.rs:568 | A dollar sign is passed over. |
| `DollarCells.SeparatorReads` | crates/import/src/lib.rs:568 | So is a thousands separator, wherever it stands. |
| `DollarCells.SpaceAround` | crates/import/src/lib.rs:557 | So is space around the cell. |
| `DollarCells.OthersRefused` | crates/import/src/lib.rs:558-577 | A blank cell, an error cell, and one with any other character are not read. |
| `LegacyCash.FeesReadBack` | crates/import/src/parse.rs:223-233 | Commission plus fees, when both parse, is written as text that reads back as their sum, the sign lost under a dollar. |
| `LegacyCash.BuyOpensAtCost` | crates/import/src/parse.rs:337-353 | A whole-share buy with a positive total cost and a price that parses costs exactly that after price and fees are derived, formatted, parsed and scaled. |
| `LegacyCash.BuyCellsReplaced` | crates/import/src/parse.rs:337-353 | Price and fees that do not make up the cost give way to the floor price and a remainder below a cent a share. |
| `LegacyCash.ImportedBuyBasis` | crates/ledger-core/src/lib.rs:794-815 | The lot such a buy opens in replay has that basis. |
| `LegacyCash.SaleNetsRecorded` | crates/import/src/parse.rs:441-457 | A whole-share sale without a price nets exactly the recorded proceeds if and only if the derived price does not lose its sign; with non-negative fees it is positive. |
| `LegacyCash.DerivedSaleIs` | crates/import/src/parse.rs:441-457 | A derived price and fee net the recorded proceeds; the fee is kept if whole cents can make them up, and is otherwise at most a cent a share. |
| `LegacyCash.ImportedSaleProceeds` | crates/ledger-core/src/lib.rs:934-939 | Replaying such a sale adds exactly the recorded proceeds to the gains. |
| `Text.ParseIntText` | crates/store/src/serde_rows.rs:383-427 | A number written in decimal parses back, and only if it fits 64 bits. |
| `Text.SplitJoin` | crates/store/src/serde_rows.rs:524-546 | Joining parts with a separator none contains and splitting again gives the parts. |
| `Escape.EscRoundTrip` | crates/store/src/serde_rows.rs:472-518 | Escaping and unescaping gives back any text, and escaped text has none of the list separators. |
| `Escape.EscapeText` | crates/store/src/serde_rows.rs:477-490 | The escaping loop computes the specified escape. |
| `Escape.UnescapeText` | crates/store/src/serde_rows.rs:495-518 | The unescaping loop computes the specified decoding, malformed sequences included. |
| `Escape.LotRefsRoundTrip` | crates/store/src/serde_rows.rs:524-546 | A list of lot references round-trips, whatever characters the lot ids hold. |
| `Escape.DecodeLotRefs` | crates/store/src/serde_rows.rs:533-546 | The decoding loop computes the specified list or error. |
| `Escape.CoversRoundTrip` | crates/store/src/serde_rows.rs:622-656 | A list of accrual keys round-trips. |
| `Escape.DecodeCovers` | crates/store/src/serde_rows.rs:638-656 | The decoding loop computes the specified list or error. |
| `Escape.KeyRoundTrip` | crates/store/src/serde_rows.rs:599-656 | An accrual key in a list round-trips and never holds the list separator. |
| `Escape.JurisdictionRoundTrip` | crates/store/src/serde_rows.rs:551-566 | Every jurisdiction round-trips, states named like the federal marker included. |
| `Rows.FromCells` | crates/store/src/lib.rs:134-142 | The loop rebuilds the row from its cells, short rows being padded with empty cells. |
| `Rows.CellsDetermineRow` | crates/store/src/lib.rs:103-142 | Cells in header order, trailing empty ones cut off, determine the row. |
| `Rows.EncodeLedger` | crates/store/src/serde_rows.rs:109-194 | Setting cells one by one fills exactly the specified row. |
| `Rows.LedgerRowRoundTrip` | crates/store/src/serde_rows.rs:199-251 | Decoding the row of an event gives the event back if and only if the event is storable: required texts non-empty, no empty optional text, number within 64 signed bits. |
| `Rows.LedgerThroughSheet` | crates/store/src/lib.rs:126-142 | The same through the sheet cells, with any number of trailing empty cells dropped. |
| `TaxRows.EncodeTax` | crates/store/src/serde_rows.rs:267-332 | Setting cells one by one fills exactly the specified row of a tax event. |
| `TaxRows.TaxRowRoundTrip` | crates/store/src/serde_rows.rs:335-373 | Decoding the row of a tax event gives the event and id back if and only if they are storable. |
| `TaxRows.TaxThroughSheet` | crates/store/src/lib.rs:126-142 | The same through the sheet cells. |
| `Integrity.CheckDenseSeq` | crates/store/src/lib.rs:904-919 | The check accepts exactly the number lists that are 1 to n without gap or repeat, in any order. |
| `Integrity.DenseIffSortedCountsUp` | crates/store/src/lib.rs:904-919 | Being so is the same as counting up from 1 once sorted. |
| `Integrity.CheckLedgerIntegrity` | crates/store/src/lib.rs:866-892 | The check accepts exactly dense logs whose reversals each target an earlier event that is not a reversal. |
| `Integrity.AcceptedStaysLoadable` | crates/store/src/lib.rs:866-892 | Appending a validated event keeps the log loadable if and only if it does not reverse a reversal. |
| `Exceptions.ReversedReversalUnloadable` | crates/store/src/lib.rs:875-890 | Buy, reverse the buy, reverse the reversal: each is accepted, and the log no longer loads. |
| `EventIds.AssignEventId` | crates/store/src/lib.rs:162-171 | The loop ends within as many bumps as there are ids, on the first candidate not taken. |
| `EventIds.DifferentBumps` | crates/store/src/lib.rs:162-171 | Different bumps give different ids. |
| `EventIds.LedgerIdsAreNotTaxIds` | crates/store/src/lib.rs:804-826 | An assigned ledger id never equals a tax id. |
| `Workbook.Sheets.AppendRow` | crates/store/src/testkit.rs:242-262 | An append lands the row, lands it altered, or does not land, whatever it reports; a missing tab gets nothing. Meeting no fault it lands as written, or the tab is reported missing. |
| `Workbook.Sheets.ReadProbe` | crates/store/src/testkit.rs:198-233 | A probe counts the rows present or reports that it cannot. |
| `Logs.DecodeRows` | crates/store/src/lib.rs:733-766 | The decoding loop decodes every row or stops at the first failure. |
| `Logs.MaxSeqIsCount` | crates/store/src/lib.rs:382-393 | In a sound tab the largest number is the number of rows. |
| `Logs.OlderLogsAreCurrentIff` | crates/store/src/lib.rs:333-341 | Logs of earlier rows equal the logs of the present ones if and only if no row landed since. |
| `Logs.AtMostOnce` | crates/store/src/lib.rs:460-497 | With ids unique in a tab, an id stands on one row or none. |
| `Idempotency.SkippedRowIsEvent` | crates/store/src/lib.rs:614-634 | A row an append is skipped for decodes to the very event, under the number the row has. |
| `Stores.Store.CacheIsStale` | crates/store/src/lib.rs:307-328 | If the probe shows no change, the tab holds exactly the rows that were counted, whatever the checksum is. Their count, largest number and checksum are then those stored. |
| `Stores.Store.Refresh` | crates/store/src/lib.rs:333-341 | Rebuilt logs are those of a full load of rows present during the call; served ones are that full load if and only if no row landed between reading and counting when the mirror was built. Under the lock a mirror read whole stays so. |
| `TabExceptions.LoadOneBehind` | crates/store/src/lib.rs:422-438 | The steps of a load during which a row lands between reading and counting: the mirror counts the rows there and its logs are not their full load. |
| `Stores.Store.ConfirmCurrency` | crates/store/src/lib.rs:347-355 | Before a write the mirror is brought up to the rows present, and is their full load under the same proviso. |
| `Stores.Store.LoadLogs` | crates/store/src/lib.rs:733-766 | A load that succeeds is the decoded, checked and sorted content of both tabs at moments during the call. Under the lock it fails only for a fault or tabs that do not load. |
| `Stores.Store.Load` | crates/store/src/lib.rs:686-692 | A successful load also leaves the mirror holding what it returned. |
| `Stores.Store.VerifyIntegrity` | crates/store/src/lib.rs:705-726 | With hashes that tell different logs apart, reports a difference if and only if the mirror is not the full load, and leaves it equal to the full load. |
| `Stores.Store.LiveMaxSeq` | crates/store/src/lib.rs:382-393 | Computes the largest readable number among the rows present. |
| `Stores.Store.FindRowByIdGlobal` | crates/store/src/lib.rs:402-414 | Finds a row with the id on either tab, and misses none. |
| `Stores.Store.AppendRowBootstrapping` | crates/store/src/lib.rs:601-609 | Lands at most one row, on the right tab, with the number and id written, a missing tab being created first. Meeting no fault it lands the row as written. |
| `Stores.Store.ReadBackVerify` | crates/store/src/lib.rs:670-676 | Success means the tab holds the row exactly as written. |
| `Stores.Store.LedgerIdempotentResult` | crates/store/src/lib.rs:614-634 | Skips exactly when the stored row has the content of the event, and reports the stored number. |
| `Stores.Store.AppendLedger` | crates/store/src/lib.rs:460-497 | Whatever fails: the tabs stay sound, the tax tab is left alone, at most one row lands and only under a new id; success means a fresh row that is the event's, or an old row with its content. Meeting no fault on tabs that load: with its id taken it succeeds if and only if the event is stored, and else its row lands and it succeeds if and only if the tabs then load. |
| `Stores.Store.AppendTax` | crates/store/src/lib.rs:504-539 | The same for the tax tab, also without faults. |
| `Stores.Store.AppendLedgerBlock` | crates/store/src/lib.rs:548-593 | A block lands fresh rows in order with consecutive numbers, skipping those already there, and on failure a sound part of it. It fails only for a fault, tabs that do not load, or an id taken by something else; new events meeting no fault all land. |
| `StoreRuns.Run` | crates/store/src/lib.rs:460-593 | Over every run of appends by any number of stores, sound rows of other writers landing in between, tabs stay numbered 1 to n with unique ids, nothing is lost, and every success holds at the end. |
| `StoreRuns.HeldExactlyOnce` | crates/store/src/lib.rs:460-497 | A success for a storable event means exactly one row on both tabs has the id, and it decodes to the event. |
| `AcceptedLog.AcceptedEventReplays` | crates/pt/src/wiring.rs:415-483 | Appending the row of an event validated against the loaded log loads as that log plus the event if and only if it reverses no reversal, and the longer log is grown, in order, and replays without error. |
| `AcceptedLog.SubmitAll` | crates/pt/src/wiring.rs:415-483 | Over every run of submits of any events, rows land in order, each filed for one of them; as long as none landed altered and each reversal was harmless, the tab loads as the old log with those events at its end and replays without error. |
| `Commits.CheckCommitTarget` | crates/import/src/lib.rs:1554-1590 | Accepts only tabs holding nothing but rows of this import, and refuses as not empty only if there is another. |
| `Commits.CommitLedger` | crates/import/src/lib.rs:1700-1714 | The loop resumes after what landed before; success leaves exactly the intended ledger tab. It reports which events were there and which are new, and meeting no fault with a clear way it succeeds. |
| `Commits.Commit` | crates/import/src/lib.rs:1623-1733 | Any interruption leaves tabs from which a later commit resumes; success leaves exactly the intended tabs; without acceptance or with a blocked reconciliation nothing is written. A success reports exactly the events found there as skipped and the others as appended, in order. Accepted and allowed, meeting no fault with only its own rows there and nothing in its way, it succeeds. |
| `Commits.CommitRepeatedly` | crates/import/src/lib.rs:1623-1733 | Any number of interrupted commits and a completed one leave the tabs of one uninterrupted commit. Without faults one attempt is enough. |
| `Commits.CommittedLoads` | crates/store/src/lib.rs:733-766 | Loading the committed tabs gives the reconstruction back, in order. |
| `Imports.Import` | crates/import/src/lib.rs:815-1024 | Legacy rows reconstructed and committed, however many commits are interrupted: once one finishes, loading gives the reconstruction in order; a vest without a price leaves the tabs untouched. Without faults the first attempt finishes. |
| `Submits.AssignLedgerId` | crates/runtime/src/eventid.rs:104-114 | Gives the candidate's own id or one made from its content and a bump that is on neither tab, never an empty one. |
| `Submits.FindFirst` | crates/pt/src/wiring.rs:542-551 | Finds the id of a logged event with the content if and only if there is one. |
| `Submits.ContentFound` | crates/pt/src/wiring.rs:542-565 | Without a match no row reads as the candidate; with one, the id found stands on a row. |
| `Submits.Submit` | crates/pt/src/wiring.rs:415-483 | At most one row more, validated against the log it joined and under an id new to both tabs; none if refused or if a row reads as the candidate already; after a success a row confirmed to be the candidate's. Refused only if no row has the id or reads as the candidate and the validator rejects the candidate under that id, against the log as loaded, with that very error. Meeting no fault, on tabs that load: refused if the validator rejects it; under a taken id successful if and only if stored under it; and otherwise its row lands, successfully if and only if the tabs then load. |
| `Submits.SameContentIff` | crates/pt/src/wiring.rs:542-558 | Two events that can be submitted have the same content if and only if they do the same on the same day. |
| `AcceptedLog.SubmitNext` | crates/pt/src/wiring.rs:424-483 | One submit of a run. Meeting no fault, a candidate composed without an id that no row reads as is refused with the validator's error if the validator rejects it and otherwise lands exactly one row, successfully unless it reverses a reversal; tax events being filed under their own ids. |
| `AcceptedLog.LandsIffAccepted` | crates/pt/src/wiring.rs:449-483 | That is a consequence of what a submit comes to without faults. |
| `Submits.SubmitRepeatedly` | crates/pt/src/wiring.rs:415-483 | However often a new entry is resubmitted through failures, the old rows stay and the rows landed are the altered ones and at most one more, exactly one more after a success: one row lands if and only if no landing is altered. |
| `TabExceptions.AlteredSaleLandsTwice` | crates/pt/src/wiring.rs:542-565 | A sale whose row landed with its fees cell altered, under the first id its content gives: submitted again it is accepted under the next one, and lands a second time. |
| `TabExceptions.AlteredOpeningStaysAlone` | crates/pt/src/wiring.rs:458-466 | If the row of an opening, however altered, reads as an opening of the same lot that replay carries out, resubmitting the entry lands nothing. |
| `Locks.SoundStep` | crates/runtime/src/lock.rs:245-397 | Every step that is not reckless keeps the invariant: a handle means the holder's own record is in the file, and whoever is about to remove a file is alone in that and nobody relies on the file. |
| `Locks.MutualExclusion` | crates/runtime/src/lock.rs:245-360 | Over every interleaving of any number of processes, crashes, failed writes and releases and reclaims included, only one has handles, as long as nothing reckless was done. |
| `Locks.OnlyOwnersRemove` | crates/runtime/src/lock.rs:448-466 | In such runs, while two processes are alive, the file is only removed by the release of the one owning handle, which removes the releaser's own record, or by the reclaim of a file nobody relies on while nobody has a handle. |
| `Locks.LiveIsNotStolen` | crates/runtime/src/lock.rs:292-316 | Over every run from a record until its holder releases it or its time runs out, whatever acquires others attempt, the record stands and no other process has a handle. |
| `Locks.Machine.TryAcquire` | crates/runtime/src/lock.rs:245-360 | The retry loop, between any steps of others, ends with one more handle on success and none otherwise, never reports the caller itself as the other holder, and after a success nobody else has a handle if nothing reckless was done since all were at rest. If nobody else moves and no call fails, it takes a free lock, one past its time and one without a record past its time, takes its own again, and else reports the holder, or nobody known for a recent file without a record. |
| `Locks.Machine.DropHandle` | crates/runtime/src/lock.rs:448-466 | One handle less. If nobody else moves and no call fails, the owner's handle frees the lock if the file still records the acquire it came from, and any other leaves the file as it is. |
| `LockRaces.RecklessIff` | crates/runtime/src/lock.rs:292-351 | In any state that keeps the invariant: after a file is judged stale two processes can come to have the lock with nothing more judged stale if and only if the judgement is reckless. |
| `LockRaces.NothingRecklessIff` | crates/runtime/src/lock.rs:245-360 | Over every run from rest, nothing reckless was done if and only if at no moment could exclusion be lost with nothing more judged stale. |
| `LockRaces.UnclaimedIsRecovered` | crates/runtime/src/lock.rs:317-351 | Whatever led there, a file past its time that nobody relies on can be reclaimed by any idle process, which then has the lock, with nothing reckless done. |
| `LockRaces.CrashIsRecovered` | crates/runtime/src/lock.rs:317-351 | So after a holder's crash another process comes to have the lock. |
| `LockRaces.FailedWriteIsRecovered` | crates/runtime/src/lock.rs:384-390 | So after a process created the file, failed to write it and went on running. |
| `LockRaces.FailedReleaseIsRecovered` | crates/runtime/src/lock.rs:461-463 | So after a holder dropped its handle without managing to remove the file. |
| `LockRaces.SlowHolderLosesIt` | crates/runtime/src/lock.rs:292-350 | A run from rest in which one process reclaims the lock of a running holder past its time to live, and both have it. |
| `LockRaces.StaleReclaimRace` | crates/runtime/src/lock.rs:343-350 | A run in which two processes reclaim one stale file and both acquire. |
| `LockRaces.UndatedFileRace` | crates/runtime/src/lock.rs:368-378 | A run from rest, no time passing, in which a file that cannot be dated is taken as stale and two processes acquire. |
| `TokenCaches.FlightStep` | crates/runtime/src/auth.rs:158-200 | Every step keeps: the flag is up if and only if exactly one thread mints, and no thread sleeps unnotified without a mint in flight. |
| `TokenCaches.OneMintAtATime` | crates/runtime/src/auth.rs:158-200 | So it holds over every run from rest without panics. |
| `TokenCaches.ReturnsFreshOrMinted` | crates/runtime/src/auth.rs:158-200 | Over every run, panics included, each call that returned gives the bearer of a token its own mint brought back, or of one there at first or minted in the run, unexpired at the time that call was made with. |
| `TokenCaches.WaitersReuse` | crates/runtime/src/auth.rs:178-195 | From the end of a mint whose token is fresh for a waiting call, over every run in which the tokens minted are too: the call never mints and never sleeps unnotified, and if it returns it is with that token or a later one. |
| `TokenCaches.ReusingReturns` | crates/runtime/src/auth.rs:158-182 | And it returns the token then there at its very next turn. |
| `TokenCaches.PanicWedges` | crates/runtime/src/auth.rs:183-190 | After a panic in the mint nothing is minted again, and calls the token is too old for only go back to sleep. |
| `TokenCaches.Cache.FreshBearer` | crates/runtime/src/auth.rs:158-200 | The waiting loop returns the cached bearer, which is fresh at the call's time unless the call minted it. If no other thread moves and no mint is in flight, it reuses a fresh token and otherwise mints one, and fails only if the mint does. |
| `Reports.DistributeLargestRemainder` | crates/reports/src/lib.rs:571-597 | The loops compute the specified distribution. |
| `Reports.DistributeExact` | crates/reports/src/lib.rs:571-597 | Shares sum to the total if and only if it is zero or some weight is positive; otherwise they are all zero. |
| `Reports.DistributeShares` | crates/reports/src/lib.rs:571-597 | Each share is the floor of its quota or one more, and nothing for a weight that is not positive. |
| `Reports.DistributeInOrder` | crates/reports/src/lib.rs:585-597 | A row whose share is rounded up has a larger remainder than any whose share is not, or the same one and comes first. |
| `Reports.ShareRows` | crates/reports/src/lib.rs:522-561 | The loops compute the specified shares of total. |
| `Reports.SharesSumToWhole` | crates/reports/src/lib.rs:522-561 | Shares of the priced rows sum to exactly one million, each within one of its quota. |
| `Reports.SharesInOrder` | crates/reports/src/lib.rs:541-561 | Among priced rows, too, one rounded up is behind none that is not, by remainder and then by position. |
| `Reports.SharesApplicable` | crates/reports/src/lib.rs:522-561 | Measured against the total of the priced rows, the shares add up to one million if that total is positive and to nothing otherwise, and a row has one if and only if it is priced and the total positive. |
| `Reports.CreditPlatforms` | crates/reports/src/lib.rs:341-353 | Each platform is credited with what its lots leave after a charge for their symbol's tax. Losing lots are charged nothing; with a winner the charges add up to the tax, each is the floor or floor plus one of tax times gain over the gains of all winners, and the odd cents go to the largest remainders, earlier lots first on a tie. |
| `Reports.LargerGainBearsMore` | crates/reports/src/lib.rs:341-348 | Charged so, of two lots the one with the larger gain bears at least as much less one cent. |
| `Reports.TaxSharesSum` | crates/reports/src/lib.rs:341-348 | The tax of a symbol is distributed in full if some lot gained and not at all otherwise. |
| `Reports.PlatformsReconcile` | crates/reports/src/lib.rs:336-353 | For any estimates, net over platforms equals net over symbols plus exactly the tax not distributed. |
| `Reports.BoundedEstimatesReconcile` | crates/tax/src/lib.rs:1397-1409 | With estimates bounded as the program bounds them, whatever they were before, nothing is dropped and platforms equal symbols to the cent. |
| `Reports.UnboundedEstimateDropped` | crates/reports/src/lib.rs:336-353 | Three cents estimated on a lot five cents under water are on the symbol and on no platform. |
| `Reports.LotValuesNearSymbolValue` | crates/reports/src/lib.rs:318-326 | Values rounded per lot sum to within (n + 1)/2 cents of the value rounded per symbol. |
| `Calendar.CivilOfDays` | crates/config/src/lib.rs:768-779 | Every day number is a valid date that converts back to it. |
| `Calendar.DaysOfCivil` | crates/config/src/lib.rs:758-765 | Every valid date converts to a day number and back. |
| `Calendar.DaysOrderDates` | crates/config/src/lib.rs:758-765 | Conversion keeps the order of dates, both ways. |
| `Calendar.DatesOrderDays` | crates/config/src/lib.rs:768-779 | The inverse conversion keeps the order of day numbers, both ways. |
| `Calendar.MonthFollows` | crates/config/src/lib.rs:796-809 | Each month begins right after the last day of the one before. |
| `Calendar.SubtractLands` | crates/config/src/lib.rs:784-793 | Subtracting months lands in exactly that month, on the same day or the last one it has. |
| `Calendar.SubtractMonotone` | crates/config/src/lib.rs:784-793 | It never reverses the order of two dates. |
| `Calendar.ShiftedTruncFloors` | crates/config/src/lib.rs:758-779 | The shifted truncating division the conversions use is floor division. |
| `Calendar.IsoRoundTrip` | crates/pt/src/wiring.rs:198-211 | Writing a day of year 0 or later and parsing it gives the day back. |
| `Calendar.ParsedDayIsWrittenDay` | crates/pt/src/import_app.rs:206-221 | A parsed date is the day written if and only if the month has that day. |
| `Residency.Validate` | crates/config/src/lib.rs:561-573 | The loop accepts exactly timelines with strictly ascending dates and no move to the state already in force, and otherwise reports the first defect. |
| `Residency.ResidencyIsInForce` | crates/config/src/lib.rs:232-242 | On a rising timeline the state found is that of the one entry in force, and none before the first. |
| `Residency.ActiveJurisdictions` | crates/config/src/lib.rs:670-700 | The loop lists the federal jurisdiction first and each state of an entry overlapping the window once. |
| `Residency.ActiveIsPointwise` | crates/config/src/lib.rs:670-700 | For valid timelines and non-negative lookbacks a state is listed if and only if it is the residency on some day of the window. |
| `Residency.NegativeLookbackDisagrees` | crates/config/src/lib.rs:670-700 | For every negative lookback a timeline exists on which it is not. |

## Left out

Members stated weaker than the source's own text, or with a restriction the source does not have:

- ReversalTotality.AcceptedReversalIff: the condition is about the guards of surviving splits and sales, which a caller evaluates by folding the log without the target; no condition on the target alone exists, since whether a later split exceeds the cap depends on that fold.
- Submits.Submit: assumes no foreign writer between validation and the lock, a window the source leaves open (crates/pt/src/wiring.rs:458-476); with one, validity against the log joined is not claimed.
- AcceptedLog.SubmitAll: the same window is assumed closed, and what is claimed of loading and replaying is for runs in which no row landed altered and reversals are safe in the sense above.
- LockRaces.RecklessIff: for a positive time to live, the program's being 300 seconds; with none every file is stale at once.
- Locks.Machine.TryAcquire: the record is written in one step after the create, and a process drops its innermost handle first.
- TokenCaches.OneMintAtATime: runs with a panic in the mint are excluded; `PanicWedges` says what happens in them.
- TokenCaches.Cache.FreshBearer: the waiting loop is followed for a given number of turns, since the source's has no bound.
- Stores.Store.Refresh: rows are only added, so deletions and in-place edits, which the checksum is for, are not modelled.
- Stores.Store.Acquire: the store's lock is a flag taken or refused at will; the protocol behind it is `Locks`, and the two are not composed.
- StoreRuns.Run: rows of other writers landing between the commands are numbered and identified as the store's own are; ones that are not break the numbering no matter what the store does. Two stores inside an append at once are what the lock excludes.
- Commits.Commit: events and tax events arrive in sequence order, as the reconstruction produced them (`Imports.Import`); the sort before the loops is not repeated.
- Reconstructions.Reconstruct: starts after the pre-pass and the share-frame and residency preconditions; row coordinates are numbers in their order, ids made from them are fields of the rows, and symbols with positions but no rows and the closed-year tax events are left out.
- Tolerance.ToleranceCoversPosition: covers symbols without a split; a split that rounds share counts moves the proportional share itself, by more than any number of half cents.
- LegacyCash.SaleNetsRecorded: covers shares, proceeds and fees within the money cap, and fees that were not themselves written with a lost sign; whole shares only, as in the source.
- Calendar.ParseDateText: covers dates written with the writer's padding; other spellings the parser admits are not characterized.
- Rows.FromCells: columns are an enumeration, so lookups by header text in a sheet with moved columns are not modelled.

Not modelled:

- Overflow of 64-bit sums: totals are unbounded integers, and only the explicit cap checks and parse limits are kept.
- Stable sorts are sorts by the comparison key followed by the original position.
- The hashes behind content ids, fingerprints and change detection, which are parameters.
- 32-bit casts of day numbers inside the calendar helpers, except where a parsed date is cast.
- Unicode white space and non-UTF-8 input.
- The tax-event submit path, which has the shape of the ledger one with fewer checks.
- `parse_shares_to_micro`, the location of header rows, and the remaining cells of the spreadsheet import.
- Tax brackets, accrual lifecycle and estimates: estimates are inputs.
- Google authentication and transport, JSON, TOML and environment loading.
- The terminal interface, report rendering, price history and mark caches.
- Boot, polling cycle, retry and backoff around the modelled operations.
- Prices read as floating-point numbers and converted to cents.
- The configuration writers, alias and display-name lookups, and bracket validators.
