# Multipart block relabeller and resolver

A model of `MultipartPolygonRelabeller` from the census-zone design
pipeline. Upstream spatial operations, such as cutting rural areas out of
urban blocks, split some census blocks into several disjoint parts that
share one original block id. The processor does two things.

- **Plain relabel:** it gives every part of a duplicated block id a
  two-digit sequence suffix, keeps the blocks that were not split, and pads
  every id to the configured width.
- **Resolution:** it reduces each group of parts to one polygon. The parts
  are united directly when each of them touches a sibling. Otherwise the
  group absorbs the best single neighbour that touches every part, or,
  failing that, the best pair of neighbouring polygons that together touch
  every part. Count columns are summed over the merged rows. The other
  numeric columns are averaged, weighted by population. A merged polygon
  gets a fresh id from a per-prefix three-digit counter.

Geometry is abstract. A polygon is the set of cells it covers, so `union`
is set union. `touches` and the shared boundary length are two oracle
functions bundled in `Records.Topology`. A GeoDataFrame is a sequence of
`Row` values, and an index label is a position in that sequence.

## Layout

| file | module | contents |
|---|---|---|
| `wrappers.dfy` | `Wrappers` | `Option`, `Result` |
| `text.dfy` | `Text` | `int`/`str` on digit strings, `zfill`, `ljust`, slices, Python string order, `"_".join` / `split` |
| `records.dfy` | `Records` | `Row`, `Topology`, `union_all`, `loc`, `drop` |
| `plain_relabel.dfy` | `PlainRelabel` | `_relabel_multipart_blocks` as functions, and its properties |
| `identifiers.dfy` | `Identifiers` | `_generate_new_id`: the suffix scan and the id it yields |
| `contiguity.dfy` | `Contiguity` | `_are_parts_contiguous` |
| `single_search.dfy` | `SingleSearch` | `_find_best_adjacent_polygon` |
| `pair_search.dfy` | `PairSearch` | the search half of `_merge_remaining_with_two_targets` |
| `merge.dfy` | `Merge` | the merged row of `_merge_parts_and_targets`, and its arithmetic |
| `resolution.dfy` | `Resolution` | the group loop of `_resolve_multipart_by_contiguity` as a specification, and its properties |
| `relabeller.dfy` | `MultipartRelabeller` | the class `Relabeller`, whose methods are proved against the functions above |

Each loop of the source is a `while` loop in a method. Each method is
proved to compute a specification function or predicate, and the
properties are lemmas about those functions. The class keeps the fields
the source mutates: `data`, which `RelabelMultipartBlocks` reassigns; and
`generatedIds`, which `GenerateNewId` grows and every merge goes through.

## Behaviour of the code that the model keeps

- **Contiguity is a degree check.** The docstring of
  `_are_parts_contiguous` (lines 101-103) promises that the parts form "a
  single contiguous set". The code only checks that every part touches
  some sibling (lines 107-121), and it has no connectivity check. A group
  made of two separate adjacent pairs therefore passes
  (`Contiguity.TwoSeparatePairsAccepted`).
- **The candidate pool never shrinks.** Every group searches the whole of
  `non_dup_gdf` (lines 187-191 and 212-220). The consumed positions are
  only recorded, and dropped at the end (line 233). Two groups can
  therefore absorb the same neighbour, and both merged rows then contain
  its geometry (`Resolution.SharedNeighbourAbsorbedTwice`).
- **Unresolved parts are not in the resolved frame.** A group that no tier
  resolves contributes nothing to `resolved_gdf`. Its parts come back only
  in `remaining_dup`, in frame order (lines 228-230 and 263;
  `Resolution.RemainingDupExactly`).
- **Only the first part's values count.** Of all the parts of a group,
  only `parts.iloc[0]` contributes values. A direct union copies that
  row (line 175). A merge copies the first target's row but takes the
  part's counts, averaged columns and `orig_id` from `parts.iloc[0]`
  (lines 386-425). The counts and averages of every other part are
  dropped. The model does not assume the parts are equal, and
  `Merge.MergeUsesFirstPartOnly` proves that the other parts' values have
  no effect on the merged row.
- **Every output id is fixed to 15 characters.** The cut to 15 characters
  and the right-padding with '0' (lines 259-261) apply to every row of the
  resolved frame, the untouched non-duplicated rows included
  (`Resolution.OutputIdWidth`).
- **The counter collides after 1000.** The suffix scan reads only the last
  three characters. With suffixes `001` to `999` in use, the 1000th merge
  for a prefix yields `...1000`, which is still fresh. That id then reads
  as 0, so the 1001st merge yields `...1000` again, an id already in use
  (`Identifiers.NewIdCollidesAt1000`).
- **Part ids can collide from 100 parts on.** With 100 or more parts, the
  three-digit part suffix and the padding can give two parts the same id
  (`PlainRelabel.PartIdsCollideFrom100`).

## Model

| member | source | states |
|---|---|---|
| MultipartRelabeller.MissingCounts | polygon_processors/multipart_relabeller.py:35 | the missing set holds exactly the count columns that are not numeric columns, and is empty exactly when every count column is a numeric column |
| MultipartRelabeller.Relabeller.Create | polygon_processors/multipart_relabeller.py:20-37 | construction fails, carrying the missing columns, exactly when some count column is not a numeric column; otherwise it yields a fresh processor holding the inputs and no generated ids |
| MultipartRelabeller.Relabeller.constructor | polygon_processors/multipart_relabeller.py:28-33 | the fields hold the inputs and the set of generated ids is empty |
| MultipartRelabeller.Relabeller.RelabelMultipartBlocks | polygon_processors/multipart_relabeller.py:40-82 | `data` becomes `Relabel` of the old frame at width `idLength`, and is what is returned |
| MultipartRelabeller.Relabeller.GenerateNewId | polygon_processors/multipart_relabeller.py:84-98 | the id is `NewId` of the group over the ids in the frame together with the ids already generated, and is added to the generated ids; it keeps the prefix and has a parsable suffix; while the next number stays below 1000 it is not in use and carries the previous maximum plus one |
| MultipartRelabeller.Relabeller.MergePartsAndTargets | polygon_processors/multipart_relabeller.py:379-437 | the row is `MergeRow` of the parts and targets under the id `NewId` allocates, and that id is added to the generated ids |
| MultipartRelabeller.UnionTargets | polygon_processors/multipart_relabeller.py:391-393 | growing the union of the parts by each target in turn gives the union of the parts and of all the targets |
| MultipartRelabeller.SumCounts | polygon_processors/multipart_relabeller.py:396-398 | adding each target's counts in turn to the first part's gives, per count column, the first part's value plus the targets' sum |
| MultipartRelabeller.SameCounts | polygon_processors/multipart_relabeller.py:396-398 | a map with exactly the count columns as keys, holding the summed value at each, is the summed-count map |
| MultipartRelabeller.Relabeller.MergeRemainingWithTwoTargets | polygon_processors/multipart_relabeller.py:266-376 | `None`, with no id generated, exactly when the search finds no pair; otherwise the best pair `a < b` and the merge of the group with both targets under a fresh id, which is the one id added |
| MultipartRelabeller.Relabeller.ResolveGroup | polygon_processors/multipart_relabeller.py:172-227 | the loop body for one group yields what `GroupResult` prescribes: no row exactly for an unresolved group, otherwise the row of the decided tier, its absorbed positions, and the generated ids grown by the merge id |
| MultipartRelabeller.Relabeller.AbsorbSingle | polygon_processors/multipart_relabeller.py:187-208 | for a group that is not contiguous and has a best single neighbour `c`, the result is the merge with `c` that `GroupResult` prescribes |
| MultipartRelabeller.Relabeller.AbsorbPair | polygon_processors/multipart_relabeller.py:210-227 | for a group with no contiguous parts and no single neighbour, the result is the pair merge, or nothing, that `GroupResult` prescribes |
| MultipartRelabeller.Relabeller.ResolveMultipartByContiguity | polygon_processors/multipart_relabeller.py:159-263 | the two frames equal `Outcome` of the engine from the current generated ids, and the generated ids become those of the engine's final state |
| Contiguity.AreContiguous | polygon_processors/multipart_relabeller.py:100-123 | true exactly when the group has at most one part or every part touches some other part along at least the threshold |
| Contiguity.ConcatContiguous | polygon_processors/multipart_relabeller.py:107-121 | two groups that each pass the test pass it together, whether or not they touch each other |
| Contiguity.TwoSeparatePairsAccepted | polygon_processors/multipart_relabeller.py:100-123 | two adjacent pairs with no adjacency between them pass the test, although the parts split into two unconnected sides |
| Contiguity.IsolatedPartRejected | polygon_processors/multipart_relabeller.py:120-121 | a part touching nothing makes the test fail |
| SingleSearch.ScanSingleInvariant | polygon_processors/multipart_relabeller.py:134-155 | after any number of candidates, the kept index is a valid candidate with a positive total that no valid candidate seen beats and every earlier valid candidate falls short of; no index is kept exactly when no valid candidate seen has a positive total |
| SingleSearch.BestSingle | polygon_processors/multipart_relabeller.py:125-157 | the chosen candidate touches every part along at least the threshold and has a positive total; no valid candidate has a larger total, and every earlier one has a smaller one; `None` exactly when no valid candidate has a positive total |
| SingleSearch.FindBestAdjacent | polygon_processors/multipart_relabeller.py:125-157 | the loop returns `BestSingle` |
| PairSearch.AllParts | polygon_processors/multipart_relabeller.py:282 | exactly the positions below the number of parts |
| PairSearch.TouchingUpTo | polygon_processors/multipart_relabeller.py:284-298 | strictly increasing positions; a candidate is listed exactly when it touches some part |
| PairSearch.TouchesSomePart | polygon_processors/multipart_relabeller.py:285-289 | the early-exit scan is true exactly when the candidate touches some part |
| PairSearch.TouchedParts | polygon_processors/multipart_relabeller.py:292-296 | the loop collects exactly the positions of the parts that the candidate touches |
| PairSearch.TouchingCandidates | polygon_processors/multipart_relabeller.py:280-298 | the listed candidates are exactly the touching ones, in order, each with the set of parts it touches |
| PairSearch.TouchScanStep | polygon_processors/multipart_relabeller.py:284-298 | one more candidate extends the touching list and its sets exactly when it touches some part |
| PairSearch.SumShared | polygon_processors/multipart_relabeller.py:338-349 | the loop sums the shared length of the candidate with the parts in the set |
| PairSearch.PairStep | polygon_processors/multipart_relabeller.py:317-351 | a pair adds its entry exactly when the two candidates touch along at least the threshold and together touch every part |
| PairSearch.CollectRow | polygon_processors/multipart_relabeller.py:314-351 | the inner loop lists the passing pairs of `tl[i]` with later candidates, in order |
| PairSearch.CollectPairs | polygon_processors/multipart_relabeller.py:304-351 | the loops list the entries of all passing pairs, row by row |
| PairSearch.RowPairsShape | polygon_processors/multipart_relabeller.py:314-351 | one row is in pair order and holds exactly the passing pairs of `tl[i]` with a later candidate |
| PairSearch.AllPairsEnumerated | polygon_processors/multipart_relabeller.py:311-351 | the entries come in strictly increasing pair order |
| PairSearch.AllPairsListed | polygon_processors/multipart_relabeller.py:311-351 | an entry is in the list exactly when it is that of a passing pair of touching candidates |
| PairSearch.ValidPairsMembers | polygon_processors/multipart_relabeller.py:304-351 | `valid_pairs` is in pair order and holds exactly the entries of the valid pairs; it is not empty only when at least two candidates touch |
| PairSearch.ValidIsListed | polygon_processors/multipart_relabeller.py:311-351 | every valid pair is enumerated |
| PairSearch.ListedIsValid | polygon_processors/multipart_relabeller.py:311-351 | every enumerated entry is that of a valid pair |
| PairSearch.FirstMax | polygon_processors/multipart_relabeller.py:358-360 | the selected entry has a key no entry exceeds, and every earlier entry has a smaller key |
| PairSearch.SelectBest | polygon_processors/multipart_relabeller.py:358-360 | the selection loop returns `FirstMax` |
| PairSearch.EarlierFallsShort | polygon_processors/multipart_relabeller.py:358-360 | an entry enumerated before the selected one has a smaller key |
| PairSearch.BestPairSpec | polygon_processors/multipart_relabeller.py:280-362 | `None` exactly when no pair is valid; otherwise a valid pair whose key no valid pair exceeds and that every valid pair enumerated before it falls short of |
| PairSearch.FindBestPair | polygon_processors/multipart_relabeller.py:280-362 | the search returns `BestPair` |
| PairSearch.BridgePairChosen | polygon_processors/multipart_relabeller.py:266-362 | two parts, each touched by its own neighbour, with the neighbours adjacent to each other: the search picks exactly that pair |
| Merge.MergedAttrs | polygon_processors/multipart_relabeller.py:395-431 | the keys are the first target's, the count columns and the averaged columns; count columns are summed, averaged columns blended, and every other column is the first target's |
| Merge.MergeRow | polygon_processors/multipart_relabeller.py:379-437 | the merged row has the new id and the joined lineage; it covers exactly the cells of the parts and of the targets; it is flagged multipart with the number of targets; its labels are the first target's, and its columns are as in `MergedAttrs` |
| Merge.WeightedMean | polygon_processors/multipart_relabeller.py:403-418 | with a positive target population, the average is the population-weighted mean of the first part and all targets |
| Merge.BlendMean | polygon_processors/multipart_relabeller.py:410-418 | the two-term blend equals the weighted mean |
| Merge.MeanAlgebra | polygon_processors/multipart_relabeller.py:415-418 | the algebra behind the weighted mean |
| Merge.ZeroTargetPopulation | polygon_processors/multipart_relabeller.py:410-420 | when the targets bring no population, the average is the first part's value |
| Merge.SumBounds | polygon_processors/multipart_relabeller.py:404-411 | with non-negative populations and values in `[lo, hi]`, the weighted sum lies between `lo` and `hi` times the population sum, which is non-negative |
| Merge.AverageBetween | polygon_processors/multipart_relabeller.py:403-420 | with non-negative populations, the merged average lies between the smallest and the largest contributing value |
| Merge.HalfAndHalf | polygon_processors/multipart_relabeller.py:403-418 | a value of 12 with population 50, merged with a value of 20 with population 50, gives 16 |
| Merge.MergeUsesFirstPartOnly | polygon_processors/multipart_relabeller.py:389-425 | the merged attributes and lineage depend only on the first part |
| Merge.SingleTargetCounts | polygon_processors/multipart_relabeller.py:396-398 | with one target, a count is the first part's value plus the target's |
| Merge.LineageRoundTrip | polygon_processors/multipart_relabeller.py:423-425 | splitting the lineage on '_' gives back the base id and the target ids, when none of them contains '_' |
| Identifiers.NextSuffix | polygon_processors/multipart_relabeller.py:88-93 | the loop over the used ids yields one above the largest suffix among the ids with the prefix, or 1 when there is none |
| Identifiers.MaxSuffix | polygon_processors/multipart_relabeller.py:92-93 | the result bounds every suffix of an id with the prefix, and is one of them unless it is 0 |
| Identifiers.MaxSuffixUnique | polygon_processors/multipart_relabeller.py:93 | the maximum is unique |
| Identifiers.Compose | polygon_processors/multipart_relabeller.py:95 | the id starts with the prefix and has a parsable suffix; below 1000 it is three characters longer than the prefix, and its suffix reads back as the number |
| Identifiers.NewIdFresh | polygon_processors/multipart_relabeller.py:84-98 | while the next number stays below 1000, the new id is not in use, keeps the prefix, is three characters longer, and carries the previous maximum plus one |
| Identifiers.NewIdCollidesAt1000 | polygon_processors/multipart_relabeller.py:92-95 | with `13101999` and `131011000` in use for group `1310101`, the next id is `131011000` again, which is already in use |
| Identifiers.NewIdFromMax | polygon_processors/multipart_relabeller.py:93-95 | the new id composes the prefix with any maximum one above |
| PlainRelabel.NormalizeGroups | polygon_processors/multipart_relabeller.py:47-48 | normalizing keeps every id's integer value, and two rows share a normalized id, and so fall into one group, exactly when their ids denote the same integer |
| PlainRelabel.Select | polygon_processors/multipart_relabeller.py:50-51 | every selected row comes from the input, and its id occurs twice or more in the frame exactly when the duplicated side is asked for |
| PlainRelabel.SelectPartition | polygon_processors/multipart_relabeller.py:50-51 | the two sides together are a permutation of the input |
| PlainRelabel.SelectCount | polygon_processors/multipart_relabeller.py:50-55 | the duplicated side holds every part of each duplicated group |
| PlainRelabel.RankIncreasing | polygon_processors/multipart_relabeller.py:55 | `cumcount() + 1` strictly increases along the parts of one group |
| PlainRelabel.RankBound | polygon_processors/multipart_relabeller.py:55 | a part's rank is at most the size of its group |
| PlainRelabel.RemoveIds | polygon_processors/multipart_relabeller.py:65-67 | every kept row is an input row whose id is not stripped, flagged as not multipart; when no id is stripped, every row is kept, in order |
| PlainRelabel.RemoveIdsKeepsUnstripped | polygon_processors/multipart_relabeller.py:66-67 | every row whose id is not stripped is kept, flagged as not multipart |
| PlainRelabel.RemoveIdsInOrder | polygon_processors/multipart_relabeller.py:66-67 | the filter drops exactly the positions of the stripped rows and keeps the others in frame order, each once, flagged as not multipart |
| PlainRelabel.SingleRowsShape | polygon_processors/multipart_relabeller.py:47-67 | the kept single rows keep their canonical id, are flagged 0, and their id is not duplicated |
| PlainRelabel.NumberedShape | polygon_processors/multipart_relabeller.py:54-62 | every part's id is its original id followed by the zero-padded rank; it is flagged 1, and its id is duplicated |
| PlainRelabel.NumberedDistinct | polygon_processors/multipart_relabeller.py:55-60 | parts of one group get distinct ids, of equal length while the ranks stay below 100 |
| PlainRelabel.PartIdsDistinct | polygon_processors/multipart_relabeller.py:53-60 | parts of one duplicated group get distinct ids, of equal length when the group has fewer than 100 parts |
| PlainRelabel.GroupPartIdsDistinct | polygon_processors/multipart_relabeller.py:53-77 | in the relabelled frame, two parts of one group with fewer than 100 parts both keep the group's original id, are flagged multipart, and carry different ids |
| PlainRelabel.PaddedPartsDiffer | polygon_processors/multipart_relabeller.py:60-77 | two parts with distinct ids of equal length keep distinct ids after the padding |
| PlainRelabel.PartIdsCollideFrom100 | polygon_processors/multipart_relabeller.py:59-77 | part 10 and part 100 of a group get the same padded id once the width is at least three characters more than the original id |
| PlainRelabel.RelabelFlags | polygon_processors/multipart_relabeller.py:62-67 | `was_multipart` is 1 exactly on the rows whose original id was duplicated |
| PlainRelabel.RelabelIdShape | polygon_processors/multipart_relabeller.py:59-77 | every id is at least the width long and starts with the row's original id; a row that was not duplicated has exactly its own id, right-padded with '0' |
| PlainRelabel.NumberedStrips | polygon_processors/multipart_relabeller.py:65 | with fewer than 100 parts per group, `str[:-2]` of a part id gives back its original id |
| PlainRelabel.RelabelKeepsEveryRow | polygon_processors/multipart_relabeller.py:50-77 | with fewer than 100 parts per group, no single row is dropped and the output has as many rows as the input |
| Resolution.GroupKeys | polygon_processors/multipart_relabeller.py:172 | `groupby` visits every original id once, in ascending string order |
| Resolution.Insert | polygon_processors/multipart_relabeller.py:172 | inserting a key keeps the keys strictly sorted and adds exactly that key |
| Resolution.PartIdx | polygon_processors/multipart_relabeller.py:172 | exactly the positions of the rows of the group, in order |
| Resolution.Decide | polygon_processors/multipart_relabeller.py:173-227 | the targets of the decided tier are positions in `non_dup_gdf` |
| Resolution.BestPairInRange | polygon_processors/multipart_relabeller.py:360-362 | a chosen pair is ordered, and both of its positions exist |
| Resolution.PartsOfKey | polygon_processors/multipart_relabeller.py:172-176 | the group of an existing key is not empty, and every part carries the key |
| Resolution.DirectGroup | polygon_processors/multipart_relabeller.py:175-184 | a contiguous group resolves into the union of its parts under its original id, absorbing nothing |
| Resolution.SingleGroup | polygon_processors/multipart_relabeller.py:187-208 | a group with a best single neighbour resolves into the merge with it, and the merge id is recorded |
| Resolution.PairGroup | polygon_processors/multipart_relabeller.py:210-226 | a group with a best pair resolves into the merge with both, and the merge id is recorded |
| Resolution.UnresolvedGroup | polygon_processors/multipart_relabeller.py:222 | a group with no contiguity, no single neighbour and no pair yields nothing and generates no id |
| Resolution.MergedResult | polygon_processors/multipart_relabeller.py:193-226 | a merge under the generated id is what the tier prescribes |
| Resolution.StepOfResult | polygon_processors/multipart_relabeller.py:172-227 | the loop body's result is one step of the group loop: it appends the row, the parts and the targets, or leaves the state alone |
| Resolution.RunSnoc | polygon_processors/multipart_relabeller.py:172 | the loop over one more key is one more step |
| Resolution.RunStepsOk | polygon_processors/multipart_relabeller.py:172-226 | every recorded step is a resolved group with existing targets, carrying its group's decision |
| Resolution.RunExtends | polygon_processors/multipart_relabeller.py:168-226 | the loop only appends to `resolved_rows` |
| Resolution.RunSteps | polygon_processors/multipart_relabeller.py:172-226 | one step per resolved group, in key order |
| Resolution.RunConsumedDup | polygon_processors/multipart_relabeller.py:183-225 | a duplicated row is consumed exactly when its group is resolved |
| Resolution.RunConsumedNondup | polygon_processors/multipart_relabeller.py:207-226 | a non-duplicated row is consumed exactly when some group absorbed it |
| Resolution.RowOfShape | polygon_processors/multipart_relabeller.py:175-226 | the row of a resolved group covers its parts and targets, is flagged multipart, and has the number of targets in `comb_adj`; a direct union keeps the original id |
| Resolution.FixId | polygon_processors/multipart_relabeller.py:259-261 | the id is 15 characters long: a longer id is cut, a shorter one is followed by '0's |
| Resolution.OutputIdWidth | polygon_processors/multipart_relabeller.py:259-261 | every id of the resolved frame is 15 characters long |
| Resolution.OutputShapes | polygon_processors/multipart_relabeller.py:233-261 | the resolved frame holds the kept rows, then exactly one row per recorded step, and that row has the step's group shape |
| Resolution.ResolvedOutput | polygon_processors/multipart_relabeller.py:168-263 | after the kept rows comes one row per resolved group, in key order, each the union of its group and its targets |
| Resolution.RemainingDupExactly | polygon_processors/multipart_relabeller.py:228-230 | the remaining duplicated rows are exactly the rows of the unresolved groups, in frame order, each once |
| Resolution.UnabsorbedKept | polygon_processors/multipart_relabeller.py:232-241 | a non-duplicated row that no group absorbs is in the resolved frame, unchanged but for its fixed-width id |
| Resolution.UnabsorbedLead | polygon_processors/multipart_relabeller.py:232-241 | the resolved frame begins with exactly the non-duplicated rows that no group absorbs, in frame order, each with its id fixed |
| Resolution.SharedNeighbourAbsorbedTwice | polygon_processors/multipart_relabeller.py:187-226 | when two groups both absorb the same neighbour, two different rows of the resolved frame cover its geometry |
| Resolution.CoveredTwice | polygon_processors/multipart_relabeller.py:205-226 | two distinct groups that absorbed the same row give two rows that cover it |
| Resolution.Covers | polygon_processors/multipart_relabeller.py:391-393 | the row of a group covers each of the group's targets |
| Text.ParseShow | polygon_processors/multipart_relabeller.py:47 | `int(str(n)) == n` |
| Text.ShowNatInjective | polygon_processors/multipart_relabeller.py:47 | distinct numbers print differently |
| Text.ParseZFill | polygon_processors/multipart_relabeller.py:92-95 | `int(s.zfill(w)) == int(s)` |
| Text.PaddedRoundTrip | polygon_processors/multipart_relabeller.py:59 | `int(str(n).zfill(w)) == n` |
| Text.ShowNatWidth | polygon_processors/multipart_relabeller.py:59 | numbers below 100 print in at most two digits, and below 1000 in at most three |
| Text.ZFill | polygon_processors/multipart_relabeller.py:59 | `zfill` left-pads with '0' to the width and keeps the string as a suffix |
| Text.LJust | polygon_processors/multipart_relabeller.py:77 | `ljust` right-pads with the fill character to the width and keeps the string as a prefix |
| Text.SplitJoin | polygon_processors/multipart_relabeller.py:423-425 | splitting a join gives back the pieces, when no piece contains the separator |
| Text.LexLessTransitive | polygon_processors/multipart_relabeller.py:172 | the string order used by `groupby` is transitive |
| Text.LexLessTotal | polygon_processors/multipart_relabeller.py:172 | any two different strings are ordered |
| Records.UnionAll | polygon_processors/multipart_relabeller.py:177 | a cell is in the union exactly when some row covers it |
| Records.KeptIdx | polygon_processors/multipart_relabeller.py:230-233 | the positions `drop(index=...)` keeps are exactly the positions below the frame length that are not dropped |
| Records.KeptIdxAscending | polygon_processors/multipart_relabeller.py:230-233 | the kept positions are strictly ascending, so `drop` keeps frame order |
| Records.Keep | polygon_processors/multipart_relabeller.py:230-233 | `drop(index=...)` yields one row per kept position, and a row occurs in the result exactly when it sits at an undropped position |

## Left out

- Geometry is abstract. Shapely's `touches`, boundary intersection length
  and union are not modelled. The first two are parameters (`Topology`),
  and union is set union over cells. No symmetry or consistency is assumed
  between the oracle's answers.
- `identify_multipart_polygons` lives in the base processor, which is not
  part of this model. It is modelled as a stable split by how often an id
  occurs (`PlainRelabel.Select`), with `keep_largest=False` as at line 51.
- The column filters (lines 79-82 and 245-257) are not modelled: rows keep
  every attribute. The GeoDataFrame construction, the CRS and the index
  resets (lines 56, 70-74 and 253-257) are left out as well.
- Numeric columns are exact reals. NaN, missing values and floating-point
  rounding are not modelled.
- A pandas index label is the row's position. Labels are assumed unique,
  as they are after `reset_index`.
- The other processors of the pipeline, the area-based redistribution and
  the command line are not part of this model.
- The stable `sort(..., reverse=True)[0]` of line 358 is modelled as the
  first entry with the largest `(total, shared)` key, which is what a
  stable descending sort puts first.
- Iteration over the Python sets `touching_parts` (lines 338-349) is
  modelled in part order. The sum is an exact real, so the order does not
  change it.
- The id columns `poly_id` and `orig_id_col` are the fields `id` and
  `origId` of `Row`. `pop_col` and `min_shared_len` are parameters.
- MultipartRelabeller.Relabeller.RelabelMultipartBlocks: requires every id
  to be a non-empty string of decimal digits. This is a restriction the
  model adds: `astype(int)` also accepts a sign, surrounding whitespace
  and `_` separators, which are not modelled, and the exception on other
  ids is not modelled either. `ParseNat` is unbounded, whereas
  `astype(int)` converts to a 64-bit integer: an all-digit id of
  2^63 or more (19 digits or more) raises `OverflowError` in the code but
  is relabelled normally by the model.
- MultipartRelabeller.Relabeller.GenerateNewId: requires `int(x[-3:])` to
  succeed on every used id with the prefix; the `ValueError` otherwise is
  not modelled. Freshness is promised only while the next number stays
  below 1000, because above that the source does collide
  (`Identifiers.NewIdCollidesAt1000`).
- MultipartRelabeller.Relabeller.ResolveMultipartByContiguity: requires
  every row to carry the numeric, count and population columns; the
  `KeyError` otherwise is not modelled. Like `GenerateNewId`, it requires
  the id suffixes to parse, and it requires this for every group key,
  merged or not. The code runs `int(x[-3:])` only when a merge happens
  (line 435), so the model also excludes frames where only the groups
  resolved by direct union or left unresolved have ids whose suffix does
  not parse.
- MultipartRelabeller.Relabeller.MergeRemainingWithTwoTargets: requires
  the id suffixes to parse even on the path that finds no pair and
  allocates no id.
- MultipartRelabeller.Relabeller.Create: the `ValueError` is a `Failure`
  carrying the missing columns.
- PlainRelabel.PartIdsDistinct: equal length, and hence distinctness after
  padding, is promised only for groups of fewer than 100 parts, because
  from 100 parts on the source can collide
  (`PlainRelabel.PartIdsCollideFrom100`).
- PlainRelabel.RelabelKeepsEveryRow: is stated for groups of fewer than
  100 parts only. Beyond that, `str[:-2]` of a three-digit suffix no
  longer gives back the original id.
