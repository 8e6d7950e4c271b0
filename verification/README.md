# ce-query: the distributed engine against the one-place query

ce-query splits rows into shards, skips shards whose statistics rule them out, maps every remaining
shard on a host chosen by rendezvous ranking (with failover and optional redundant copies), merges
the partial aggregates, and orders and limits the result. This project models that machinery and
proves that its answer is the answer of running the query once, over all rows, in one place.

## The layers

- **Values.** `Numerals` and `JsonModel` hold decimal text, JSON cells, their coercion to numbers,
  `json_cmp` and `cell_cmp`. `Sorting` is the stable sort and its uniqueness.
- **Aggregates.** `KahanSums`, `QueryModel`, `Accumulators` and `Partials` hold folds, merges, the map
  and the reduce. Each accumulator is proved to stand for a *tally* of the rows it has seen: an
  order-free summary that says how many rows, which extremes, or which gains and losses. Every split,
  order and grouping of the rows gives the same tally. `Lanes` settles when the integer lane of SUM
  is the same too: an if-and-only-if. These work over exact reals; `Rounding` takes the same folds and
  merges under rounding and bounds, for any plan, how far SUM and AVG end up from the exact answer.
- **Planning.** `Datasets` (statistics and the round-robin split) and `Planning` (pruning and ranking).
- **Execution.** `Quorums`, `Failover` and `FanOut` are the vote, the walk along a ranking and the
  window of shards in flight. `Engine` is `run`, `Projection` is `run_projection`. What a host replies
  to a call, and whether the deadline has passed before it, are arbitrary functions (`World`); which
  shard in flight finishes next is an arbitrary choice.
- **Theorems about runs.** `Refinement` (honest hosts, lying hosts) and `ProjectionResults` (top-N,
  early stop, memory cap).
- **Joins.** `Joins`: nested loop, hash join, co-partitioned join, for any hash.
- **Answers.** `Meanings` says what the results of a run are in plain terms of the rows: the groups,
  each value as a count, sum, extreme or mean of cells, the order and the limit. Sections "what ...
  means" in the other modules do the same for cells, comparisons, keys, outcomes and reports.
- **SQL.** `Lexer` and `Parser`; `Grammar`, the language as a relation between tokens and queries that
  the parser is proved to accept exactly; and `SqlRoundTrip`, which writes a canonical printer and
  proves that it and the parser are inverse on exactly the queries the parser can produce.

Code that updates state is written as methods and classes (`KahanSum`, `RunningPartial`, `ResultRows`,
`ShardTask`, `TokenParser`, the loops of the engine, the joins and the statistics) whose
postconditions equate the new state with a specification function; the theorems are about those
functions.

## Assumptions

- Outside `KahanSums` and `Rounding`, floats are exact reals: "identical", "the same" and "exact" below
  mean over reals where a sum or average of floats is concerned. Text that reads as NaN
  or an infinity is kept as such in shard statistics and in pruning, where comparisons with NaN are
  false; aggregates skip such cells. As an unquoted SQL literal it gives null, as `json!` does.
- The drift results assume rounding with unit `u` (section 4.3.1 of IEEE 754-2019) and exactness of
  the two-sum step, both without overflow; they are stated over an arbitrary rounding function.
- The JSON text of a cell (`show`), the rendezvous score and the bucket hash are arbitrary functions.
  Copies of a partial are compared by value, its canonical serialisation being injective.
- Claims about lying hosts assume distinct hosts, which `discover_hosts` ensures
  (`src/lib.rs:119-120`).
- Claims that involve pruning assume `SafeLiterals`: outside a negation, no ordered comparison against
  a string that reads as a float, `nan` and the infinities included, and no equality against one that
  reads as NaN. The parser never turns an unquoted word into such a string
  (`SqlRoundTrip.BareWordsPruneSafely`); a quoted one can be.

## Where the code and its documentation differ

- `src/combine.rs:20-31` promises an answer to the last bit whatever the split and the order. In the
  integer lane this fails when a partial sum overflows i128 (`Lanes.OverflowLaneDependsOnOrder`);
  `Lanes.FitsExact` gives the exact condition for that lane, floats being exact reals there.
- `src/combine.rs:27-29` calls merging compensated sums associative to the bit. Under rounding it is not:
  grouping changes the merged state and even the total read from it (`KahanSums.GroupingChangesState`,
  `KahanSums.GroupingChangesTotal`). States agree whatever the order and grouping when no running sum
  is rounded (`KahanSums.UnroundedAgree`), and a tree is exact throughout exactly then
  (`KahanSums.UnroundedExact`). In general `KahanSums.Drift` bounds the error, and
  `Rounding.PlanDrift` and `Rounding.PlansAgreeWithin` carry the bound to SUM and AVG under any plan.
- `src/plan.rs:25-30` calls pruning sound. It is not for ordered comparisons with strings that read
  as floats, because `eval` compares two strings lexically while pruning compares numbers
  (`Planning.NumericStringUnsound`); nor for equality with a string that reads as NaN, because a shard
  of such cells is pruned although they are equal as strings. `Planning.PruningExact` gives the exact
  condition on a literal over all operators, `Planning.EqualityPruningExact` the one under equality.
- `src/join.rs:66-68` says a merge of two rows loses no value. A column that already carries the
  `right.` prefix can be overwritten (`Joins.ClashLosesColumn`); `Joins.MergeLossless` says exactly when.
- A projection with LIMIT and no ORDER BY may leave rows unseen with `truncated` false, when the
  early stop lands exactly on the limit (`ProjectionResults.EarlyStopHidesRows`).
  `ProjectionResults.EarlyStopExact` says exactly for which data the flag is right in every run.
- Such a projection also ignores the memory cap (`src/engine.rs:373`) although the comment above says
  the cap always holds: `ProjectionResults.MemoryCapIgnored` is a run over the cap, and
  `ProjectionResults.MemoryCapExact` says exactly when a run is.
- A shard of which one copy was collected is accepted unverified even when redundancy was asked for
  (`src/engine.rs:572-580`); `Refinement.LoneLieAccepted` is a shard served with a lie that way.
  `Quorums.VoteExact` gives the exact number of lies that a vote among so many copies withstands, one
  copy included.
- `src/engine.rs:193` says a report names the first agreeing host under redundancy. It names the first
  that answered (`src/engine.rs:536-537`), even one that was outvoted
  (`Failover.OutvotedHostServes`); `Failover.ServedByExact` says exactly when the two agree.
- The header of `src/sql.rs` says raw-column projections are not supported; the parser accepts them.

## Model

| member | source | states |
|---|---|---|
| Numerals.ParseShowInt | src/sql.rs:425-427 | every integer printed in decimal parses back to itself, also as an unsigned number when it is one |
| Numerals.ParseShowFloat | src/sql.rs:428-430 | every decimal fraction printed with an exponent parses back to the same value, whatever its sign |
| Numerals.ParseSigned | src/query.rs:428-434 | a sign in front of an unsigned decimal only decides the sign of its value |
| Numerals.IntegerMeans | src/sql.rs:291 | digits with either sign read as that integer within each width's range; an unsigned read takes no minus |
| Numerals.ValueConcat | src/sql.rs:425-427 | digits count by position |
| Numerals.DigitMeans | src/sql.rs:425-427 | a digit counts from zero |
| Numerals.PointMeans | src/query.rs:431 | digits around a point read as the whole part plus the fraction over the power of ten of its length |
| Numerals.WholeMeans | src/query.rs:431 | digits without a point read as their whole value |
| Numerals.ExponentMeans | src/query.rs:431 | an exponent scales by its power of ten, up or down |
| Numerals.WordsMean | src/query.rs:431 | inf, infinity and nan read as such in any case and with either sign |
| Numerals.TrimMeans | src/query.rs:451 | trimming takes blanks off both ends and nothing else |
| Numerals.SpacesMean | src/sql.rs:62 | exactly the Unicode blanks count as blanks |
| Numerals.LowerMeans | src/sql.rs:419 | keyword comparison changes the ASCII capitals alone |
| Numerals.WidthsMean | src/combine.rs:97-101 | the integer ranges are those of 64 and 128 bits |
| JsonModel.CompareStringFlips | src/query.rs:422 | string comparison is antisymmetric, and equal only on equal strings |
| JsonModel.CompareStringTransitive | src/query.rs:422 | string comparison is transitive |
| JsonModel.CompareStringMeans | src/query.rs:422 | the lesser string ends, or has the lesser character, where the two first differ |
| JsonModel.CellOrderIsTotal | src/order.rs:52-71 | the cell order is a total preorder over all JSON values, across types |
| JsonModel.TypesInOrder | src/order.rs:61-71 | null sorts before booleans, numbers, strings, arrays and objects, in this order |
| JsonModel.NumbersByValue | src/query.rs:418-421 | numbers sort by value, integers and floats alike |
| JsonModel.NumberMeans | src/query.rs:428-459 | which cells count as numbers, as which, and with what value: for SUM after trimming and as an exact integer where one is spelled, for the rest as they stand |
| JsonModel.WidenKeepsOrder | src/order.rs:52-58 | whether an integral sum is carried as integer or float does not change how it sorts |
| Sorting.SortKeeps | src/order.rs:76-81 | sorting permutes: nothing is lost or added |
| Sorting.SortIsStable | src/order.rs:76-81 | the result is sorted and every class of ties keeps its input order |
| Sorting.SortedTiesUnique | src/order.rs:76-81 | there is only one stable sorted arrangement |
| Sorting.SortedMultisetUnique | src/plan.rs:112-118 | under an antisymmetric order the sorted arrangement depends on the multiset alone |
| Sorting.SortFilter | src/plan.rs:112-118 | dropping elements before or after a stable sort is the same |
| KahanSums.KahanSum.Add | src/combine.rs:68-76 | one compensated addition under any rounding, in place |
| KahanSums.KahanSum.Merge | src/combine.rs:79-83 | merging adds the other sum compensated, then the other compensation |
| KahanSums.AddDrift | src/combine.rs:68-76 | one addition moves sum + comp off the exact value by at most u times the compensation update |
| KahanSums.MergeDrift | src/combine.rs:79-83 | one merge moves it by at most u times its two compensation updates |
| KahanSums.Drift | src/combine.rs:67-87 | after any tree of add and merge calls sum + comp is within u times the summed updates of the exact total |
| KahanSums.TotalDrift | src/combine.rs:86-88 | the total read at the end adds at most one rounding of sum + comp to that |
| KahanSums.UnroundedExact | src/combine.rs:67-88 | the state is the exact total without compensation throughout a tree of calls if and only if no running sum in it is rounded |
| KahanSums.UnroundedAgree | src/combine.rs:27-29 | two trees over the same values, in any order and grouping, neither rounding a running sum, end in the very same state |
| KahanSums.ClipRounds | src/combine.rs:68-76 | a rounding that really rounds meets all that is assumed of rounding |
| KahanSums.GroupingChangesState | src/combine.rs:27-29 | three values whose two groupings end in different states |
| KahanSums.GroupingChangesTotal | src/combine.rs:27-29 | five values in one order whose two groupings end in different totals |
| KahanSums.ExactTotal | src/combine.rs:67-88 | without rounding, any tree of add and merge calls totals exactly |
| QueryModel.OutputNameInjective | src/query.rs:105-113 | distinct aggregates have distinct output names, so no result column hides another |
| QueryModel.OutputNames | src/query.rs:105-113 | the names results go by |
| QueryModel.ComparisonMeans | src/query.rs:38-55 | a comparison holds of cells of the literal's type by their values, and of any other cell, or none, only as an inequality |
| QueryModel.ConnectivesMean | src/query.rs:72-84 | AND, OR and NOT are those of logic, and no WHERE keeps every row |
| QueryModel.GroupKeyMeans | src/query.rs:398-407 | a group key is the text of each GROUP BY cell: a string's own, empty when missing, the JSON text otherwise |
| QueryModel.ProjectionMeans | src/query.rs:294-308 | a projection keeps exactly the matching rows, in order, with exactly the selected columns, or all for a star |
| QueryModel.ValidMeans | src/query.rs:357-374 | which queries are refused before anything runs |
| Accumulators.ZeroRepresents | src/query.rs:118-126 | the identity accumulator stands for no rows |
| Accumulators.FoldRepresents | src/query.rs:132-196 | folding a row adds exactly that row's contribution, with saturation, lane promotion and skipped cells |
| Accumulators.MergeRepresents | src/combine.rs:115-165 | merging adds up what both sides stand for, across lanes and overflow |
| Accumulators.RepresentsExactly | src/combine.rs:94-109 | COUNT is min(rows, 2^64-1); SUM holds the exact total, in the integer lane exactly when all cells are integers if gains and losses fit i128; AVG, MIN, MAX are exact |
| Accumulators.RepresentsUnique | src/combine.rs:18-31 | over exact reals, two states standing for the same rows are equal, except for the lane of a sum whose lane the rows do not settle |
| Accumulators.FinalizeReads | src/combine.rs:169-189 | a finalised SUM is the total of its compensated state, a finalised AVG that total over the count, null for none |
| Accumulators.TallyConcat | src/combine.rs:18-31 | the summary of a concatenation is the sum of the summaries, for every aggregate |
| Accumulators.ExtremesAreExtreme | src/query.rs:145-154 | MIN and MAX are attained and bound every numeric cell of the column, and are absent exactly when there is none |
| Partials.MapRows | src/query.rs:379-394 | the map loop computes the map of the rows: per group, one accumulator per aggregate folded over its rows |
| Partials.RunningPartial.Empty | src/combine.rs:245-247 | an empty partial has no groups |
| Partials.RunningPartial.MergeIn | src/combine.rs:252-265 | merging in place gives the groups of both sides, common groups merged position by position, in whatever order they are visited |
| Partials.Reduce | src/combine.rs:288-294 | reducing merges all partials |
| Partials.MapAnswers | src/query.rs:379-394 | the mapped groups are exactly the non-empty ones, each with one accumulator of the right variant per aggregate standing for its rows |
| Partials.MergeGroupsAnswers | src/combine.rs:252-265 | merging answers of two row sets answers both together, so mismatch branches never fire |
| Partials.ReduceAnswers | src/combine.rs:288-294 | reducing answers of parts answers all parts' rows |
| Partials.SameAnswer | src/combine.rs:18-31 | over exact reals, an answer is determined by its rows, up to unsettled sum lanes |
| Partials.AnswersPermute | src/combine.rs:18-31 | an answer of rows answers every permutation of them |
| Partials.AnyPlanSameAnswer | src/combine.rs:18-31 | over exact reals, any tree of scans and merges over any permutation of the rows gives the partial of one scan: identically where lanes are settled, up to lanes always |
| Partials.MapHomomorphism | src/query.rs:379-394 | over exact reals, mapping a concatenation equals merging the maps |
| Partials.PlanLanes | src/combine.rs:115-157 | under every plan each accumulator has the exact value and lane of its group's rows, and COUNT is the number of those rows, saturated |
| Partials.FitsWhenColumnsFit | src/combine.rs:119-132 | lanes are settled as soon as each summed column's gains and losses fit i128 |
| Lanes.MapIsFold | src/query.rs:379-394 | within a group each accumulator is its aggregate folded over the group's rows in order |
| Lanes.Interleave | src/query.rs:175-184 | whole cells whose total fits i128 can be ordered so that no partial sum overflows |
| Lanes.LeaveLane | src/query.rs:175-184 | cells whose gains or losses exceed i128 can be ordered so that the integer lane is left |
| Lanes.FitsExact | src/combine.rs:30-31 | over exact reals, every plan over every permutation gives the very same partial if and only if, in each group, an all-integer sum has its gains and losses inside i128 or its total outside |
| Lanes.OverflowLaneDependsOnOrder | src/combine.rs:119-132 | three rows of which two orders give different partials |
| Rounding.PlanStateExactly | src/combine.rs:115-165 | without rounding the per-group states below are those in the partial of the plan |
| Rounding.ReduceIsPlan | src/combine.rs:288-294 | reducing mapped shards is one such plan over all their rows |
| Rounding.FoldAccounts | src/query.rs:132-196 | folding a row under rounding, lane promotion included, keeps the state within its charges of the exact answer |
| Rounding.MergeAccounts | src/combine.rs:115-165 | so does merging, across lanes and overflow |
| Rounding.PlanDrift | src/combine.rs:18-31 | under every plan a group's SUM is its exact total in the integer lane, and otherwise SUM and AVG are within u times their compensation updates, plus the conversions to float, of the exact total |
| Rounding.PlansAgreeWithin | src/combine.rs:20-31 | two plans over the same rows, in any order, read totals that differ by at most the margins of both, over the same count |
| Results.FinalizeInOrder | src/combine.rs:271-282 | finalising visits groups in ascending key order and names each value |
| Results.FinalizeComplete | src/combine.rs:271-282 | the finalised keys are strictly ascending and are exactly the groups |
| Results.ValuesNamed | src/combine.rs:169-189 | each aggregate's finalised value is found under its output name |
| Results.ResultNamed | src/combine.rs:271-282 | so it is for every group of every mapped query |
| Results.CompareByFlips | src/order.rs:86-107 | the multi-key comparison is antisymmetric, with per-key reversal and absent cells |
| Results.CompareByTransitive | src/order.rs:86-107 | and transitive |
| Results.OrderMeans | src/order.rs:76-107 | sorted rows ascend by an ASC key and descend by a DESC key among rows that tie on all keys before it |
| Results.LimitMeans | src/order.rs:109-115 | rows cut off by a limit would have stood after those kept, key by key |
| Results.GroupCellMeans | src/order.rs:33-47 | an order column is a GROUP BY column, then an output, then null |
| Results.RawCellMeans | src/order.rs:128-130 | for raw rows it is the row's column, null when missing |
| Results.KeyOrderMeans | src/combine.rs:271-282 | groups are listed by the first text that differs, a key that ends first coming first |
| Results.OrderIsTotal | src/order.rs:86-107 | so ORDER BY is a total preorder, over groups and over raw rows |
| Results.ResultRows.OrderBy | src/order.rs:76-81 | rows are sorted in place by the keys |
| Results.ResultRows.Limit | src/order.rs:111-115 | rows are truncated in place to the limit |
| Results.NoKeysKeepOrder | src/order.rs:76-79 | without keys the order is untouched |
| Results.OrderedIsUnique | src/order.rs:76-81 | a sequence is the ordered result if and only if it is a stable sorted permutation |
| Results.ShapeIsTop | src/order.rs:111-115 | LIMIT after ORDER BY is a prefix of length min(limit, rows), and no excluded row sorts strictly before an included one |
| Results.ShapedAlike | src/query.rs:345-349 | partials differing only in sum lanes are ordered and limited alike |
| Datasets.ComputeStats | src/dataset.rs:119-143 | exactly the columns that are present and wholly numeric get a range; it is tight around the cells that are not NaN, both ends occurring, and NaN only over a column of NaN |
| Datasets.CellsMean | src/dataset.rs:123-126 | the cells of a column are exactly those the rows have there |
| Datasets.ShardRows | src/dataset.rs:204-218 | zero shards is an error; otherwise row i goes to shard i mod n |
| Datasets.RoundRobinKeeps | src/dataset.rs:204-218 | the shards together hold the rows, no more and no less |
| Datasets.RoundRobinPlaces | src/dataset.rs:204-218 | row i is in shard i mod n at place i div n, so shards are even |
| Datasets.ShardCountInvariant | src/combine.rs:344-363 | over exact reals, mapping and reducing the shards gives the partial of the unsharded rows, for every shard count |
| Planning.LeafSound | src/plan.rs:42-54 | a comparison the range rules out holds in no row of the shard |
| Planning.PruningSound | src/plan.rs:36-56 | if the statistics of a shard rule out a predicate, none of its rows satisfies it, for any nesting, ragged rows and mixed columns |
| Planning.NumericStringUnsound | src/plan.rs:43-44 | for every literal that is a string reading as a float, NaN and infinities included, there is an operator and a one-row shard pruned although its row matches |
| Planning.PruningExact | src/plan.rs:42-54 | pruning on a literal is sound for all operators and shards if and only if the literal is not a string that reads as a float |
| Planning.EqualityPruningExact | src/plan.rs:51 | under equality it is sound for all shards if and only if the literal does not read as NaN |
| Planning.PruningTight | src/plan.rs:43-54 | against a number, a range is ruled out if and only if no number in it satisfies the comparison; an inequality never is |
| Planning.ConnectivesPrune | src/plan.rs:40-41 | AND is ruled out by either side, OR by both together |
| Planning.DoubtKeeps | src/plan.rs:31-44 | without statistics, on an unknown column, against what is no number, and under NOT nothing is ruled out |
| Planning.RankIsTotal | src/plan.rs:112-118 | ranking by score, then host id, is a total order |
| Planning.RankMeans | src/plan.rs:112-118 | the best score comes first, equal scores by host name |
| Planning.RankIndependent | src/plan.rs:112-118 | the ranking is a sorted permutation independent of the order in which hosts were listed |
| Planning.RankStability | src/plan.rs:112-128 | removing a host deletes it from every ranking and changes nothing else, so only its own shards change primary |
| Planning.ShardTask.Planned | src/plan.rs:61-70 | a planned shard starts at the first host of its ranking |
| Planning.ShardTask.Host | src/plan.rs:74-76 | there is a host to call exactly while the ranking is not exhausted, and it is the one at the current attempt |
| Planning.ShardTask.Advance | src/plan.rs:80-89 | advancing moves one host on and says whether any is left |
| Quorums.SelectQuorum | src/engine.rs:600-629 | the counting loop returns the verdict on the copies, in whatever order it visits the groups |
| Quorums.VerdictExact | src/engine.rs:600-629 | a partial is chosen if and only if it leads in multiplicity, earliest first arrival on ties, and reaches the needed agreement; none is chosen if and only if no copy reaches it |
| Quorums.QuorumMeans | src/engine.rs:604-629 | without a quorum, or with one above the number of copies, all must agree; otherwise some reply must come that many times |
| Quorums.HonestVerdict | src/engine.rs:600-629 | if all other copies together miss the needed agreement the honest partial or nothing is chosen; if it also reaches it, it is chosen |
| Quorums.LiesBounded | src/engine.rs:505-569 | copies from distinct hosts that differ from the honest partial are at most the lying hosts among them |
| Quorums.LiarsOutvoted | src/engine.rs:600-629 | liars fewer than the needed agreement, or than the honest copies, never get a lie chosen |
| Quorums.VoteExact | src/engine.rs:572-629 | a vote among c copies of which up to f are false can never yield a lie if and only if f is below the needed agreement or 2f is below c |
| Quorums.LiesPrevail | src/engine.rs:600-629 | past that bound there are copies, lies first, for which a lie is chosen |
| Failover.MapOneShard | src/engine.rs:497-594 | the walk with its deadline, attempt cap, redundancy, best effort and vote comes to the outcome characterised below; the hosts it asks are a beginning of the ranking within the cap, as many as the attempts reported, none of them twice |
| Failover.ProjectOneShard | src/engine.rs:439-482 | the projection walk comes to its specified outcome, asking hosts in the same way |
| Failover.WalkFrom | src/engine.rs:505-569 | from any point, the copies kept are the first `redundancy` successes among the first `max_attempts` ranked hosts, and attempts are copies plus failures |
| Failover.WalkCollects | src/engine.rs:505-569 | so it is for a whole walk, and the copies come from distinct hosts |
| Failover.ExpiredExact | src/engine.rs:512-531 | a walk runs into the deadline if and only if the deadline is found passed before some call within the cap, and not earlier, while copies are still wanted and hosts left; until then none of its calls was late |
| Failover.ServedMeans | src/engine.rs:537-594 | a served shard made no call after the deadline, is redistributed exactly when a call failed, verified exactly when redundancy brought several copies |
| Failover.FailureMeans | src/engine.rs:512-580 | exactly when a shard fails by deadline, as unserved (with the error of its last call) or in disagreement |
| Failover.ProjectedMeans | src/engine.rs:439-482 | a projected shard is served by the first host that answers in time, and exactly when it fails by deadline or as unserved |
| Failover.SettingsMean | src/engine.rs:505-506 | attempts, redundancy and window of zero count as one |
| Failover.FailoverServes | src/engine.rs:505-594 | without a deadline and redundancy a shard is served if and only if one of its first hosts answers, by the first that does, every earlier one having failed |
| Failover.ServedByExact | src/engine.rs:572-594 | the host reported as serving returned the chosen reply if and only if there was no vote or no other reply outnumbers its own |
| Failover.OutvotedHostServes | src/engine.rs:582 | three copies, the first a lie: it is outvoted, and the host that told it is reported as serving |
| FanOut.Prime | src/engine.rs:263-268 | priming the window puts the first min(window, total) shards in flight |
| FanOut.StartConserved | src/engine.rs:263-268 | the primed window keeps every shard pending or in flight |
| FanOut.FinishConserved | src/engine.rs:270-279 | whichever shard finishes, each shard stays exactly one of pending, in flight or finished, and min(window, unfinished) are in flight |
| FanOut.HistoryConserved | src/engine.rs:255-279 | so it is in every reachable state, and each step finishes one shard |
| FanOut.HistoryAllowed | src/engine.rs:263-279 | after any history exactly the shards started and not finished are in flight, and the n-th to finish is among the first n and the window |
| FanOut.OrdersExact | src/engine.rs:263-279 | the orders in which shards can finish are exactly those: distinct, the n-th among the first n and the window |
| FanOut.DrainedIsComplete | src/engine.rs:281-296 | when nothing is in flight every outcome slot is filled, so nothing is dropped |
| Engine.CheckScan | src/engine.rs:148-165 | a scan is admitted if and only if no declared bound is exceeded, zero meaning no bound; otherwise the first bound exceeded is reported with its values |
| Engine.TotalsMean | src/engine.rs:148-165 | the rows and bytes checked are the shards' own, added up |
| Engine.MapShards | src/engine.rs:255-279 | in every completion order: all outcomes in shard order if every live shard is served, otherwise the error of one that fails next after others were served, in an order the window allows |
| Engine.NarrowWindowError | src/engine.rs:263-279 | with one shard in flight at a time that is the first shard that fails |
| Engine.Collect | src/engine.rs:281-311 | outcomes are reduced, finalised, capped by group count, shaped, and their diagnostics added up |
| Engine.ReportMeans | src/engine.rs:281-311 | a run is refused exactly when a cap is set and there are more groups; otherwise its report has their shaped results and the diagnostics |
| Engine.DiagnosticsMean | src/engine.rs:281-296 | attempts are added up, redistributed and verified shards counted |
| Engine.ServedByMeans | src/engine.rs:294 | the report names each shard's host |
| Engine.Run | src/engine.rs:209-312 | every outcome of a run, error cases in their order of precedence |
| Engine.RunCases | src/engine.rs:216-254 | in which cases a run does not get to its shards, and what it answers then |
| Engine.LiveMeans | src/engine.rs:238-242 | the shards run are those the planner cannot rule out, in their order |
| Refinement.PruningKeepsMembers | src/engine.rs:236-254 | pruned shards contribute no row to any group |
| Refinement.RunRefinesOneShot | src/engine.rs:209-312 | for every dataset, host list, window, failure pattern and completion order, with pruning on: if replies are honest an Ok run gives the one-shot results, over exact reals |
| Refinement.ShardedRun | src/engine.rs:209-312 | the same, from the unsharded rows through the round-robin split, for every shard count |
| Refinement.OneShotPermute | src/query.rs:379-394 | over exact reals, the one-shot results do not depend on the order of the rows |
| Refinement.ByzantineShard | src/engine.rs:572-594 | with at most f lying hosts, and collected copies that outvote f lies, a served shard carries the honest partial |
| Refinement.LoneLieAccepted | src/engine.rs:572-580 | two copies asked for, one lying host answering and the other failing: the shard is served with the lie, unverified |
| Refinement.ByzantineRun | src/engine.rs:209-312 | with at most f lying hosts, and collected copies that outvote f lies for every live shard, an Ok run gives the honest one-shot results, over exact reals |
| Refinement.OneLiarVerified | src/engine.rs:209-312 | against one liar it is enough for that that the report counts every live shard as verified |
| Meanings.FinalizedMeans | src/combine.rs:169-189 | a state standing for a group's rows is finalised to their number, the plain sum, least, greatest or mean of their numeric cells, null for the last three without any |
| Meanings.ValuesMean | src/query.rs:379-394 | so is every value of every mapped group, under its output name |
| Meanings.OneShotMeans | src/query.rs:345-394 | the results in one place list groups of matching rows with those values, each once, ordered key by key, as many as the limit allows, leaving out none that had to come before |
| Meanings.RunAnswers | src/engine.rs:209-312 | an Ok run with honest replies gives such results over all the rows, whatever the sharding, window, failures and completion order |
| Meanings.ByzantineRunAnswers | src/engine.rs:209-312 | so does one whose lying hosts are outvoted |
| Meanings.GroupCapMeans | src/engine.rs:298-307 | with every live shard served honestly a run is refused if and only if the rows have more groups than a cap that is set |
| Refinement.RankDistinct | src/plan.rs:112-118 | distinct hosts rank as distinct hosts |
| Projection.GatherRows | src/engine.rs:369-414 | in every arrival order the window allows the loop holds the capped concatenation of what arrived, stops early only when allowed, and fails with the error of the next arrival |
| Projection.RunProjection | src/engine.rs:334-427 | every outcome of a projection run over the arrival orders the window allows, error cases in their order of precedence |
| Projection.ProjectionCases | src/engine.rs:341-356 | in which cases a projection run does not get to its shards, and what it answers then |
| Projection.ReportedArrivals | src/engine.rs:394-397 | attempts are added up and hosts named for the shards that arrived |
| ProjectionResults.PruningKeepsRows | src/engine.rs:376-382 | the live shards project to the same rows as all shards |
| ProjectionResults.GatheredRows | src/engine.rs:392-414 | what arrived is always a sub-multiset of the matching projected rows, and all of them once every shard has |
| ProjectionResults.ProjectionTopN | src/engine.rs:358-426 | within the memory cap every arrival order yields a sorted sub-multiset of size min(limit, total) that no omitted row strictly precedes, and `truncated` holds exactly when the total exceeds the limit |
| ProjectionResults.TopRowsMean | src/order.rs:121-140 | top rows are in order key by key, and every other row could have stood after them |
| ProjectionResults.EarlyStopLimit | src/engine.rs:369-424 | with LIMIT n and no ORDER BY every run returns min(n, total) true rows; `truncated` is never wrong when set, and is missed only if that very run stopped on exactly n rows with shards left |
| ProjectionResults.EarlyStopInTime | src/engine.rs:398-413 | such a run ends at the first arrival that fills the limit, and not before unless every live shard has arrived |
| ProjectionResults.EarlyStopExact | src/engine.rs:402-424 | `truncated` is right in every successful run if and only if the matches are within the limit or no shards that can arrive first hold exactly the limit |
| ProjectionResults.EarlyStopOverData | src/engine.rs:402-424 | if every live shard is served, that is: no shards that can finish first hold match counts adding up to the limit |
| ProjectionResults.CappedProjection | src/engine.rs:402-409 | past the memory cap the result is cut to it, sorted, made of true rows, and flagged |
| ProjectionResults.MemoryCapExact | src/engine.rs:362-373 | a successful run returns more rows than a non-zero cap if and only if it has LIMIT without ORDER BY and min(limit, total) exceeds the cap |
| ProjectionResults.MemoryCapIgnored | src/engine.rs:373 | a run of two rows under a memory cap of one |
| ProjectionResults.EarlyStopHidesRows | src/engine.rs:402-409 | a run that leaves a matching row out with `truncated` false |
| Joins.MergeColumns | src/join.rs:69-79 | the loop over the right columns, in name order, computes the merged row |
| Joins.MergeLossless | src/join.rs:66-79 | no column is overwritten if and only if no right column clashes into a taken name; then every value of both rows is found, each right one in its place |
| Joins.PlainMerge | src/join.rs:66-79 | without prefixed names nothing is overwritten, and a right column is under its own name or, on a clash with the left, under the prefixed one |
| Joins.ClashLosesColumn | src/join.rs:66-79 | a left column carrying the prefix loses its value to a clash |
| Joins.BuildIndex | src/join.rs:86-91 | the index lists, per key, the positions of the right rows with that key, in order |
| Joins.HashJoin | src/join.rs:84-102 | the hash join is the nested loop join as an exact sequence |
| Joins.NoKeyNoMatch | src/join.rs:58-64 | a left row whose key cell is missing or null matches nothing |
| Joins.NullsNeverJoin | src/join.rs:58-64 | nor do right rows without a key: leaving them out changes no join |
| Joins.MatchMeans | src/join.rs:58-64 | two rows match if and only if both have a key and its texts agree |
| Joins.NestedLoopMeans | src/join.rs:81-102 | the rows of a join are exactly the merged matching pairs |
| Joins.JoinGrows | src/join.rs:81-83 | left rows in their order, and for each its matches in right order |
| Joins.BucketMeans | src/join.rs:110-120 | a bucket holds, in order, exactly the rows with a key whose text hashes there |
| Joins.PartitionByKey | src/join.rs:110-120 | bucket b holds, in order, the rows whose key hashes to b, and no row without a key |
| Joins.MatchesInBucket | src/join.rs:105-109 | all matches of a left row are in the right bucket of its own key |
| Joins.LeftBucketsCover | src/join.rs:110-150 | the left buckets together join to what the left side joins to |
| Joins.DistributedJoin | src/join.rs:136-150 | the concatenated bucket joins, with the partition count clamped to one |
| Joins.DistributedIsHashJoin | src/join.rs:131-150 | for any hash and any partition count the distributed join is the hash join as a multiset |
| Joins.JoinThenGroupBy | src/join.rs:22-24 | over exact reals, grouping the distributed join gives the partial of grouping the hash join |
| Lexer.Tokenize | src/sql.rs:56-109 | the index loop computes the tokens of the input, or nothing when a string is left open |
| Lexer.LexClean | src/sql.rs:56-109 | every token is a word without separators, a symbol, or a string that some quote can delimit |
| Lexer.LexRender | src/sql.rs:56-109 | such tokens written with spaces between them lex back to themselves |
| Lexer.LexerIsLayout | src/sql.rs:56-109 | text splits into tokens if and only if it is a way of writing them: blanks are free around tokens and needed only where two would run into one |
| Lexer.PlainWord | src/sql.rs:95-106 | characters other than blanks, quotes and the seven symbols make one word |
| Lexer.SymbolTokens | src/sql.rs:84-94 | each symbol of one or two characters is one token |
| Lexer.StringTokens | src/sql.rs:67-82 | text between quotes of either kind is a string; an open quote is an error |
| Lexer.BangJoinsWord | src/sql.rs:95-103 | an exclamation mark right after a word belongs to it, so `a!=1` does not compare |
| Parser.TokenParser.ParsePredicate | src/sql.rs:348-364 | the loop reads a left-associated chain of AND and OR at one precedence |
| Parser.TokenParser.ParseTerm | src/sql.rs:367-381 | an optionally negated comparison, and how far it reads |
| Parser.TokenParser.ParseLiteral | src/sql.rs:400-407 | a quoted token is its string, any other token the value its word reads as |
| Parser.TokenParser.ParseAgg | src/sql.rs:319-338 | an aggregate call, COUNT ignoring its argument and the others refusing a star |
| Parser.TokenParser.ParseAggList | src/sql.rs:306-317 | a comma-separated list of aggregates |
| Parser.TokenParser.ParseSelectList | src/sql.rs:231-257 | star, aggregates or columns, decided by one token of lookahead |
| Parser.TokenParser.ParseOrderBy | src/sql.rs:260-285 | order keys, ascending by default |
| Parser.TokenParser.ParseLimit | src/sql.rs:288-292 | a limit that fits the unsigned width |
| Parser.TokenParser.ParseQuery | src/sql.rs:155-226 | the clauses in order, GROUP BY refused with a projection |
| Parser.ParseSql | src/sql.rs:27-36 | the parsed and validated query, trailing tokens refused |
| Grammar.TermRead | src/sql.rs:367-407 | every spelling of a term is read as it, wherever it stands: each operator in each spelling, keywords in any case |
| Grammar.ChainRead | src/sql.rs:348-364 | every spelling of an AND/OR chain is read with the same nesting |
| Grammar.ParserIsGrammar | src/sql.rs:155-407 | the parser accepts exactly the tokens that spell a query in the documented grammar, and returns that query |
| Grammar.ParseMeans | src/sql.rs:27-36 | text parses to a query if and only if it is a way of writing tokens that spell it |
| SqlRoundTrip.QueryPrinted | src/sql.rs:155-226 | the printed tokens of a normal query spell it |
| SqlRoundTrip.TokensBack | src/sql.rs:155-226 | the printed tokens of a normal query parse back to it |
| SqlRoundTrip.PrintParses | src/sql.rs:27-36 | the printed text of a normal query, through the character-level lexer, parses back to it |
| SqlRoundTrip.ChainNormal | src/sql.rs:348-381 | an accepted predicate is always a left-leaning chain of possibly negated comparisons |
| SqlRoundTrip.FloatIsDecimal | src/sql.rs:428-430 | every float literal accepted has a finite decimal expansion, so it can be printed |
| SqlRoundTrip.AcceptedIsNormal | src/sql.rs:27-36 | every accepted query is in normal form |
| SqlRoundTrip.ParsePrintParse | src/sql.rs:27-36 | for every accepted input, printing the query and parsing again gives the same query |
| SqlRoundTrip.NormalFormsAreTheImage | src/sql.rs:27-36 | the normal forms are exactly the queries some input parses to |
| SqlRoundTrip.BareWordsPruneSafely | src/sql.rs:418-432 | an unquoted literal is never a numeric string, so pruning on it is sound |

## Left out

- Accumulators.MergeRepresents: f64 rounding; floats are exact reals here. `Rounding.MergeAccounts` is its counterpart under rounding.
- Accumulators.RepresentsExactly: the same; exact means over reals.
- Accumulators.FoldRepresents: the same, with `Rounding.FoldAccounts`; and cells whose text reads as NaN or an infinity are skipped, where the code folds them in.
- Refinement.RunRefinesOneShot: equality is over exact reals, because to the last f64 bit it is false; `Rounding.PlanDrift` bounds SUM and AVG under rounding. The rounding of the final division of AVG, and of MIN and MAX cells on reading, is not modelled.
- Planning.PruningSound: assumes safe literals, because the claim is false without them; `Planning.PruningExact` and `Planning.EqualityPruningExact` have the exact conditions.
- Planning.PruningExact: is about the ordered operators together; it does not say which single one of them is still sound for a given numeric string.
- Refinement.ByzantineRun: assumes that the copies collected of every live shard outvote f lies; `Quorums.VoteExact` shows that the bound on a vote is exact.
- Engine.CheckScan: overflow of the summed row and byte counts.
- Numerals.ParseShowFloat: overflow of float literals to infinity, and the rounding of decimal text to f64.
- Accumulators in place: `Accum` is an enum updated through a mutable reference; its merge and fold are functions from old to new value here, and the containers that hold them are updated in place.
- Iteration over a hash map (votes, join index) is an arbitrary order here, which is more general.
- An integer sum outside the 64-bit JSON range finalises to that exact integer; what serde_json does with it is not part of this model.
- UTF-8: strings are sequences of code points, whose order is the byte order of their UTF-8 forms.
- The parse error that is reported: the parser's result here is a query or a refusal, without the text.
- In the parser, the GROUP BY, WHERE and sort-direction fragments of the long methods are small methods of their own.
- Error texts, logging, wall-clock time (the deadline is an arbitrary abort), serde defaults.
- NDJSON and JSON encoding, `encode_shard`, `decode_shard`, the group-key serialisation: they rest on serde_json.
- SHA-256, and the statistical balance of rendezvous hashing and of join buckets.
- Dataset totals, name validation, the catalog, capability checks, the mesh transport, `load_summary`, `fallback_host` and the command line: easy members or I/O.
