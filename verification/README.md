# A verified model of the course-material data pipelines

The repository turns lecture documents into training and evaluation data: it extracts regions from
documents and has humans review them, packs text into token sequences, builds question sets with
held-out splits, scores models against them, and exports JSON records to spreadsheets. This project
models the parts of those pipelines whose correctness is an argument rather than a reading, and proves
what they promise.

| file | what it models |
|---|---|
| `UnionFind.dfy` | union-find with path compression over source identifiers |
| `Holdout.dfy` | the pruned subset sum that picks whole components as a holdout |
| `Deduplication.dfy`, `ReleaseSplit.dfy` | one question per content, document links, and the document-disjoint splits |
| `QuestionFamilies.dfy` | the second split, by question family within each course |
| `LeakCheck.dfy` | the independent check that every dataset must pass before it is tokenised |
| `EditDistance.dfy` | two-row Levenshtein distance against edit scripts |
| `Mcnemar.dfy` | the exact McNemar p-value against its tail-sum definition |
| `TokenPacking.dfy` | packing of token streams with provenance spans |
| `CellSplitting.dfy`, `ColumnPaths.dfy`, `SheetLayout.dfy` | flattening of JSON into columns and cells, and the two passes that write them |
| `DoclingOrder.dfy` | reading order over possibly cyclic references |
| `RoundRobin.dfy` | generation order of comparison tasks |
| `CrossValidation.dfy` | source-aware assessment of extraction candidates (`Evidence`, `CrossValidation`) |
| `Association.dfy` | attaching parser candidates to regions |
| `RegionRouting.dfy` | which pictures go to the paid queue, under a page budget (`PageRanking`, `RegionRouting`) |
| `PagePlan.dfy` | cutting documents into page packets and the check that they cover every page |
| `ReviewStore.dfy` | publishing, reviewing and exporting as a state machine over an append-only log |
| `VlmCache.dfy` | the observation worker with its cache and attempt history |
| `Regions.dfy`, `Lists.dfy`, `Texts.dfy`, `Wrappers.dfy` | kinds and boxes of regions; sequences, white space, options and results |

`dafny verify dfyconfig.toml` checks everything.

## How the model reads the source

- Digests are injective, so a digest is represented by what it digests: a machine revision is the record
  it was computed from, a cache key is the tuple of its inputs, a pixel hash is an opaque string.
- Identifiers that are only compared are natural numbers, their ranks in the order of the strings.
- Floating-point numbers are reals. A tenth of the number of rows is rounded to the nearest integer,
  halfway cases to even, as the source's rounding does.
- A shuffle is an arbitrary permutation and the iteration order of a dictionary is arbitrary, so results
  hold for every seed and every insertion order. Where the source sorts, the model sorts.
- Exceptions are results (`Err`, `Failed`, `Rejected`); files, tables and archives are values.
- Text normalisation, pattern tests, similarity, the tokeniser, the model and the checks of image files
  are function parameters: the theorems hold whatever they compute.
- An extraction candidate is `Candidate` where it is assessed and `ParserCandidate` where it is attached to
  regions: each has the fields that the step reads.
- A comparison task is queued by its position, so that tasks may share an identifier.
- Objects with mutable state (`UnionFind`, `ReviewStore`, `VlmWorker`, the walk's `Walker`) are classes,
  records updated in place are arrays, and loops are loops with invariants; each is proved equal to a
  specification function or relation, about which the properties are then proved.

## What the model shows about the source

- The test holdout takes every component but the largest, so that no validation set is left and the build
  fails, exactly when the rows outside the largest component, doubled, are fewer than twice the target
  plus the smallest component (`ReleaseSplits.PrepareRecords`, `ReleaseSplits.TakesAllExactly`).
- `choose_holdout` is optimal among all sets of groups that hold a row. It never prefers a group without
  rows, which is better exactly when the smallest other group holds at least twice the target and is not
  pruned (`Holdouts.BestOfAllExactly`, `Holdouts.EmptyGroupCanBePreferable`). The components of a release
  are never empty.
- A release passes the leak check exactly when no two of its rows share an identifier, which the builder
  does not check (`ReleaseSplits.ReleasePassesExactly`). A dataset that passes strictly can fail the check
  that allows shared documents, because that one requires families and contents
  (`LeakChecks.StrictPassesSharedExactly`).
- `pack` fails exactly when the size is below two, there are fewer than two tokens, or the size is two and
  the number of tokens odd: then the one-token tail is repaired at the expense of a neighbour that is left
  with one token (`TokenPacking.Cut`, `TokenPacking.Pack`).
- Column names of one record never clash, but a bare list and an object with a field `value` share names
  (`ColumnPaths.ListAndValueFieldClash`), so records of different shape can meet in one column.
- A text candidate with a place that reaches no region is neither attached nor reported
  (`Association.TextReachesExactly`, `Association.TextIsNeverReported`, `Association.FailedTextIsDropped`).
- `route` writes into the records before it computes the share of pages, so with chosen pages and a total
  of zero it fails after having scheduled them (`RegionRouting.Route`, `RegionRouting.SchedulesWithoutPages`).
- The list of requests not run is the suffix behind the served ones exactly when no later request repeats a
  served identifier (`VlmCache.NotRunIsSuffixExactly`, `VlmCache.RepeatedRequestIsLost`).
- A corpus plan passes its own coverage check exactly when no two ready documents with pages share an id
  (`PagePlans.PlanPassesExactly`, `PagePlans.TwinsFailCheck`); the planner does not look.
- A p-value of one is reached exactly for a tie or a lead of one (`Mcnemar.PValueIsOneOnlyNearTie`).

## Model

| member | source | states |
|---|---|---|
| `UnionFinds.UnionFind.constructor` | AI/Qweun_sft_version/data_preparation/build_release.py:36-37 | every value is its own component and no union has been made |
| `UnionFinds.UnionFind.Find` | AI/Qweun_sft_version/data_preparation/build_release.py:39-42 | terminates, returns the least value connected to the argument by the unions made so far, compresses the path and changes no other value's root |
| `UnionFinds.UnionFind.Union` | AI/Qweun_sft_version/data_preparation/build_release.py:44-46 | the represented graph gains exactly the edge between the two arguments |
| `UnionFinds.RootsDecideConnection` | AI/Qweun_sft_version/data_preparation/build_release.py:39-46 | two values have the same root if and only if a walk along union edges joins them |
| `UnionFinds.RootIsLeastConnected` | AI/Qweun_sft_version/data_preparation/build_release.py:44-46 | the root is the least member of the connected component |
| `UnionFinds.LabelsIgnoreCallOrder` | AI/Qweun_sft_version/data_preparation/build_release.py:35-46 | two structures built from the same unions, in any order and with any finds between, label every value alike |
| `UnionFinds.CompressionRepresents` | AI/Qweun_sft_version/data_preparation/build_release.py:41 | pointing a value at its root changes no root and keeps the graph represented |
| `UnionFinds.LinkRepresents` | AI/Qweun_sft_version/data_preparation/build_release.py:45-46 | hanging the larger root under the smaller represents the graph with the new edge |
| `Holdouts.Grow` | AI/Qweun_sft_version/data_preparation/build_release.py:69-72 | one pass over a snapshot of the table adds exactly the extensions by one group that are not pruned and not known, and overwrites nothing |
| `Holdouts.GrownIsComplete` | AI/Qweun_sft_version/data_preparation/build_release.py:68-72 | after each group every total of a subset below the ceiling has an entry |
| `Holdouts.GrownIsSound` | AI/Qweun_sft_version/data_preparation/build_release.py:68-72 | every entry is a selection of the groups seen whose rows add up to its key |
| `Holdouts.PrunedIsWorse` | AI/Qweun_sft_version/data_preparation/build_release.py:71 | a total above the ceiling is never better than a positive total below it |
| `Holdouts.BestTotal` | AI/Qweun_sft_version/data_preparation/build_release.py:76 | the total chosen is minimal by distance to the target, then not above it, then size |
| `Holdouts.SmallestGroupIsBest` | AI/Qweun_sft_version/data_preparation/build_release.py:74-75 | when every total was pruned, the smallest group is a best choice among all sets of groups |
| `Holdouts.HeldIgnoresOrder` | AI/Qweun_sft_version/data_preparation/build_release.py:66 | shuffling the groups changes no total |
| `Holdouts.ChooseHoldout` | AI/Qweun_sft_version/data_preparation/build_release.py:64-77 | for every shuffle: a set of the given groups, nonempty if there are groups, that no set holding any row beats by distance to the target, then not above it, then size; it holds no row, or more than the ceiling, only when every total does |
| `Holdouts.BestOfAllExactly` | AI/Qweun_sft_version/data_preparation/build_release.py:64-77 | among all nonempty sets, sets of empty groups included, the choice is optimal if and only if it is not the case that some group is empty and the smallest other one holds at least twice the target but is not pruned |
| `Holdouts.EmptyGroupCanBePreferable` | AI/Qweun_sft_version/data_preparation/build_release.py:73-76 | sizes for which an empty group would be the better holdout, which the source never chooses |
| `Holdouts.BestAmongAllNonempty` | AI/Qweun_sft_version/data_preparation/build_release.py:64-77 | with no empty group the choice is optimal among all nonempty sets of groups |
| `Deduplication.JaccardIsSymmetricShare` | AI/Qweun_sft_version/data_preparation/build_release.py:54-55 | the Jaccard measure is symmetric, between 0 and 1, and 1 exactly on equal nonempty sets |
| `Deduplication.NearIsSymmetric` | AI/Qweun_sft_version/data_preparation/build_release.py:122-127 | being near-duplicates does not depend on the order of the pair |
| `Lists.GroupBy` | AI/Qweun_sft_version/data_preparation/build_release.py:102-104 | one group for every content, with exactly its records in order |
| `Deduplication.BestRecord` | AI/Qweun_sft_version/data_preparation/build_release.py:111 | the kept record has the highest quality, the identifier deciding between equals |
| `Deduplication.LinkGroup` | AI/Qweun_sft_version/data_preparation/build_release.py:106-108 | the documents of one content become connected, and no union is made that the content does not justify |
| `Deduplication.MergeContents` | AI/Qweun_sft_version/data_preparation/build_release.py:105-119 | exactly one question for every content with an undisputed answer, in the order of contents; documents of a content are connected even when its answers conflict |
| `Deduplication.LinkNear` | AI/Qweun_sft_version/data_preparation/build_release.py:120-128 | every pair of near-duplicate questions from different documents is linked, and no other |
| `Deduplication.UnionsReplaceLinks` | AI/Qweun_sft_version/data_preparation/build_release.py:105-128 | the unions made connect whatever shared contents and near-duplicates connect, and are such links themselves |
| `Deduplication.StarsConnectLikePairs` | AI/Qweun_sft_version/data_preparation/build_release.py:106-108 | linking every record to the first of its content gives the same components as linking all pairs |
| `Deduplication.SameComponentExactly` | AI/Qweun_sft_version/data_preparation/build_release.py:130-132 | two documents are in one component if and only if links connect them |
| `ReleaseSplits.SortComponents` | AI/Qweun_sft_version/data_preparation/build_release.py:130-133 | the components are the questions grouped by family, largest first, then by name |
| `ReleaseSplits.Target` | AI/Qweun_sft_version/data_preparation/build_release.py:136 | one for fewer than six rows, otherwise the nearest integer to a tenth, halves to even |
| `ReleaseSplits.TakesAllExactly` | AI/Qweun_sft_version/data_preparation/build_release.py:137-140 | a best holdout takes all groups if and only if twice their rows are fewer than twice the target plus the smallest group |
| `ReleaseSplits.PrepareRecords` | AI/Qweun_sft_version/data_preparation/build_release.py:102-144 | the questions, components and, unless it fails, the best holdouts and the row of every question; fails exactly for fewer than three components or when the test set takes all but the largest |
| `ReleaseSplits.FamilyIsConnection` | AI/Qweun_sft_version/data_preparation/build_release.py:141-143 | two questions have one family if and only if shared contents and near-duplicates connect their documents |
| `ReleaseSplits.NoLeakBetweenSplits` | AI/Qweun_sft_version/data_preparation/build_release.py:103-144 | no document, not even that of a removed duplicate, and no near-duplicate pair spans two families, and no family two splits |
| `ReleaseSplits.AllSplitsAreNonempty` | AI/Qweun_sft_version/data_preparation/build_release.py:134-144 | on success all three splits have rows, the holdouts are disjoint and the largest component is trained on |
| `ReleaseSplits.EveryRecordIsOriginOnce` | AI/Qweun_sft_version/data_preparation/build_release.py:111-119 | every record whose content has an undisputed answer is the origin of exactly one question |
| `ReleaseSplits.ReleasePassesExactly` | AI/Qweun_sft_version/data_preparation/prepare_sft.py:169-196 | the metadata of a release, and of any part of it in any order, passes the leak check, strict or not, if and only if no two of its rows share an identifier |
| `ReleaseSplits.ReleasePassesCheck` | AI/Qweun_sft_version/data_preparation/prepare_sft.py:169-196 | with unique identifiers every release passes both checks |
| `ReleaseSplits.SharedIdFailsCheck` | AI/Qweun_sft_version/data_preparation/prepare_sft.py:172-173 | two rows under one identifier are refused even when all else differs |
| `QuestionFamilies.LinkQuestions` | AI/Qweun_sft_version/data_preparation/build_release.py:197-213 | after linking equal templates and near-duplicates, roots are the least connected question identifiers |
| `QuestionFamilies.CourseIsMostCommon` | AI/Qweun_sft_version/data_preparation/build_release.py:217-219 | the course of a family is one that occurs most often in it |
| `QuestionFamilies.HoldOut` | AI/Qweun_sft_version/data_preparation/build_release.py:220-225 | for a course with three families or more both holdouts are best choices among all but its largest family; otherwise there are none |
| `QuestionFamilies.HeldOutFamilyIsOfCourse` | AI/Qweun_sft_version/data_preparation/build_release.py:220-225 | a course holds out only its own families, none twice and never its largest |
| `QuestionFamilies.SplitIsByCourse` | AI/Qweun_sft_version/data_preparation/build_release.py:226-229 | the split of a family depends on the holdouts of its own course alone |
| `QuestionFamilies.AssignQuestionFamilies` | AI/Qweun_sft_version/data_preparation/build_release.py:196-229 | every row gets the least identifier linked to it as its family and the split planned for that family, and keeps its question |
| `QuestionFamilies.VariantsShareSplit` | AI/Qweun_sft_version/data_preparation/build_release.py:199-213 | questions with one template, and near-duplicates, get one family and one split, whatever their documents |
| `QuestionFamilies.FamiliesPassSharedExactly` | AI/Qweun_sft_version/data_preparation/prepare_sft.py:169-196 | the rewritten files, and any part of them in any order, pass the check that allows shared documents if and only if no two of their rows share an identifier |
| `LeakChecks.Examine` | AI/Qweun_sft_version/data_preparation/prepare_sft.py:165-196 | a record is refused for the first of seven reasons that applies against the records before it |
| `LeakChecks.CheckLeaks` | AI/Qweun_sft_version/data_preparation/prepare_sft.py:158-196 | passes if and only if all records are well formed and no two clash; otherwise names the first refused record and its reason |
| `LeakChecks.NoComplaintsExactly` | AI/Qweun_sft_version/data_preparation/prepare_sft.py:165-196 | reading in order draws no complaint if and only if no two records clash pairwise |
| `LeakChecks.PickedStaysLeakFree` | AI/Qweun_sft_version/data_preparation/prepare_sft.py:158-196 | a dataset that passes still passes reordered or cut down |
| `LeakChecks.StrictPassesSharedExactly` | AI/Qweun_sft_version/data_preparation/prepare_sft.py:176-194 | a dataset that passes the strict check passes the one that allows shared documents if and only if every record names its family and its content |
| `LeakChecks.StrictAloneMayPass` | AI/Qweun_sft_version/data_preparation/prepare_sft.py:176-178 | a record without a family passes the strict check and not the other |
| `EditDistances.EditDistance` | AI/Qwen_cpt_version/region_preprocessing_v5_0_1/metrics.py:27-37 | the result is the length of a shortest script of insertions, deletions and substitutions |
| `EditDistances.NextRow` | AI/Qwen_cpt_version/region_preprocessing_v5_0_1/metrics.py:31-36 | from the distances of a prefix, the inner loop makes those of the prefix one longer |
| `EditDistances.NoScriptIsShorter` | AI/Qwen_cpt_version/region_preprocessing_v5_0_1/metrics.py:34-35 | every script between two sequences has at least as many edits as the recurrence says |
| `EditDistances.DistEditsSuffice` | AI/Qwen_cpt_version/region_preprocessing_v5_0_1/metrics.py:34-35 | some script has exactly that many |
| `EditDistances.DistIsSymmetric` | AI/Qwen_cpt_version/region_preprocessing_v5_0_1/metrics.py:28-29 | swapping the arguments changes nothing, which justifies the swap |
| `EditDistances.DistIsZeroOnlyOnEqual` | AI/Qwen_cpt_version/region_preprocessing_v5_0_1/metrics.py:27-37 | zero exactly on equal sequences |
| `EditDistances.DistTriangle` | AI/Qwen_cpt_version/region_preprocessing_v5_0_1/metrics.py:27-37 | the triangle inequality |
| `Mcnemar.PValueIsTailShare` | AI/Qweun_sft_version/comparison_tools/audit_returned_comparison.py:217-220 | the p-value times 2^n is the sum of C(n,k) over all k at least as lopsided as observed, ties and the empty case included |
| `Mcnemar.PValueIsOneOnlyNearTie` | AI/Qweun_sft_version/comparison_tools/audit_returned_comparison.py:220 | the value is in (0,1] and equals one exactly for a tie or a lead of one |
| `Mcnemar.PValueIgnoresWhichIsFirst` | AI/Qweun_sft_version/comparison_tools/audit_returned_comparison.py:217-220 | swapping the two variants in every pair leaves the value unchanged |
| `Mcnemar.CombIsFactorialQuotient` | AI/Qweun_sft_version/comparison_tools/audit_returned_comparison.py:220 | the coefficients are those of the factorial formula |
| `Mcnemar.ExtremeIsTwoTails` | AI/Qweun_sft_version/comparison_tools/audit_returned_comparison.py:220 | doubling one tail counts both |
| `Mcnemar.TieExceedsOne` | AI/Qweun_sft_version/comparison_tools/audit_returned_comparison.py:220 | for a tie the doubled tail exceeds the total, so that the minimum with one acts |
| `TokenPacking.Cut` | AI/Qwen_cpt_version/colab_qwen3_1_7b/data_utils.py:58-61 | the cut points end at the stream, no chunk exceeds the size, and some chunk is too short exactly when the stream cannot be packed |
| `TokenPacking.Tokenise` | AI/Qwen_cpt_version/colab_qwen3_1_7b/data_utils.py:53-57 | the stream is the concatenation of all samples with their end tokens, and the ranges say where each lies |
| `TokenPacking.SpansOf` | AI/Qwen_cpt_version/colab_qwen3_1_7b/data_utils.py:67-73 | the spans of a chunk tile it without gap or overlap, in the order of the samples, and each is faithful to its sample |
| `TokenPacking.DescribedSpanIsFaithful` | AI/Qwen_cpt_version/colab_qwen3_1_7b/data_utils.py:71-73 | the tokens under a span are the stated slice of the stated sample |
| `TokenPacking.TiledStreamTraversesSamples` | AI/Qwen_cpt_version/colab_qwen3_1_7b/data_utils.py:67-76 | over all chunks the slices run through every sample from its first token to its end token, in order |
| `TokenPacking.Pack` | AI/Qwen_cpt_version/colab_qwen3_1_7b/data_utils.py:50-78 | fails exactly for a size below two, fewer than two tokens, or pairs from an odd stream; otherwise chunks of 2 to size tokens that concatenate to the stream, tiled by faithful spans that traverse all samples |
| `CellSplitting.NormaliseUnifiesBreaks` | convert_to_xlsx.py:139 | the two replacements turn every CR LF, CR or LF into one LF |
| `CellSplitting.NormaliseIsStable` | convert_to_xlsx.py:139 | normalised text has no CR and normalising again changes nothing |
| `CellSplitting.GreedyStaysAhead` | convert_to_xlsx.py:144-152 | no split into fitting pieces gets further with its first k pieces than the greedy one |
| `CellSplitting.GreedyIsFewest` | convert_to_xlsx.py:144-152 | the greedy split has the fewest pieces of all contiguous splits into fitting pieces |
| `CellSplitting.SplitGreedily` | convert_to_xlsx.py:144-152 | nonempty pieces of at most 32767 UTF-16 units that concatenate to the value, each as long as possible |
| `CellSplitting.CellParts` | convert_to_xlsx.py:133-153 | refused exactly for a character outside XML; otherwise the fewest possible cells, one if the value fits, nonempty ones if it does not, that concatenate to the normalised value |
| `ColumnPaths.UniqueObject` | convert_to_xlsx.py:60-66 | an object is accepted, with its fields in order, if and only if no key is repeated |
| `ColumnPaths.ParsedExactly` | convert_to_xlsx.py:60-66 | with the hook on every object, a document is accepted, unchanged, if and only if no object in it repeats a key |
| `ColumnPaths.EscapeIsPrefixFree` | convert_to_xlsx.py:30 | no JSON escape is the beginning of another (section 7 of RFC 8259) |
| `ColumnPaths.QuotedIsPrefixFree` | convert_to_xlsx.py:30 | a quoted key can be told from what follows it |
| `ColumnPaths.DecimalIsInjective` | convert_to_xlsx.py:53 | different indices are printed differently |
| `ColumnPaths.SuffixesAreDecodable` | convert_to_xlsx.py:27-53 | different paths below one parent are printed differently |
| `ColumnPaths.NamesClashExactly` | convert_to_xlsx.py:27-57 | two paths get the same column name if and only if they are equal once the root of a value that is no object is read as a field called value |
| `ColumnPaths.ListAndValueFieldClash` | convert_to_xlsx.py:53 | a bare list and an object with a field called value do share a name |
| `ColumnPaths.FlattenIsSound` | convert_to_xlsx.py:43-57 | every entry of the flattened row is a leaf under its own name |
| `ColumnPaths.FlattenIsComplete` | convert_to_xlsx.py:43-57 | every leaf has an entry under its name |
| `ColumnPaths.PathDeterminesLeaf` | convert_to_xlsx.py:60-66 | with unique keys a path leads to one leaf only |
| `ColumnPaths.LeavesHaveDistinctNames` | convert_to_xlsx.py:27-57 | distinct leaves of one value have distinct column names |
| `ColumnPaths.FlattenKeepsEveryLeaf` | convert_to_xlsx.py:43-57 | with unique keys nothing is overwritten: every leaf is found under its name with its own content |
| `SheetLayout.UniqueName` | convert_to_xlsx.py:73-79 | terminates for every set of used names and returns the first numbered candidate that is not used |
| `SheetLayout.Headers` | convert_to_xlsx.py:214-218 | one header for every cell of a row, no two alike, each the first free candidate for its column and part |
| `SheetLayout.CellCountIsFixed` | convert_to_xlsx.py:133-153 | a value always takes the same number of cells, and at least one |
| `SheetLayout.Survey` | convert_to_xlsx.py:193-210 | columns wide enough for every value of every record and no wider than some value needs, within the column limit |
| `SheetLayout.LayRow` | convert_to_xlsx.py:256-268 | a row with one block of cells for every column; fails only for a record that the columns were not made for |
| `SheetLayout.AppendRow` | convert_to_xlsx.py:258-269 | rows are appended in order; a new sheet begins exactly when the last is full, and with a row in it |
| `SheetLayout.Convert` | convert_to_xlsx.py:192-272 | fails if and only if there is no record, a value or name that cannot be stored, or a beginning that needs too many columns; never because the second pass finds unchanged input changed |
| `SheetLayout.ValueCanBeReadBack` | convert_to_xlsx.py:262-267 | a value is recovered from its padded block, up to line breaks |
| `SheetLayout.BookHoldsEveryValue` | convert_to_xlsx.py:192-272 | every value of every record can be read back from the book under its column name |
| `SheetLayout.EveryLeafCanBeReadBack` | convert_to_xlsx.py:43-66 | every leaf of every document that the parser accepted is read back from the row of its record under the name of its path |
| `DoclingOrder.Walker.Walk` | AI/Qwen_cpt_version/region_preprocessing_v5_0_1/adapters.py:136-144 | terminates on cyclic references and changes the seen set and the order as the recursive specification says |
| `DoclingOrder.Walker.WalkAll` | AI/Qwen_cpt_version/region_preprocessing_v5_0_1/adapters.py:143-144 | the same for a list of children |
| `DoclingOrder.VisitAllIsGood` | AI/Qwen_cpt_version/region_preprocessing_v5_0_1/adapters.py:136-144 | a walk extends the order, lists seen items with provenance exactly once, closes what it finds under children and finds only what its entries reach |
| `DoclingOrder.WholeWalkIsReadingOrder` | AI/Qwen_cpt_version/region_preprocessing_v5_0_1/adapters.py:133-151 | the order holds exactly the reachable items with provenance, each once |
| `DoclingOrder.VisitListsSelfFirst` | AI/Qwen_cpt_version/region_preprocessing_v5_0_1/adapters.py:140-144 | an item is listed before everything it newly leads to |
| `DoclingOrder.ReadingOrder` | AI/Qwen_cpt_version/region_preprocessing_v5_0_1/adapters.py:133-151 | the returned list is that order, starting from body, furniture, texts, tables, pictures and groups |
| `RoundRobin.TakeOne` | AI/Qweun_sft_version/comparison_tools/build_comparison.py:109-111 | a turn moves the front of one queue to the end of the order and keeps every queue's part a prefix of it |
| `RoundRobin.FairOrder` | AI/Qweun_sft_version/comparison_tools/build_comparison.py:107-112 | an interleaving of all queues in which, after every truncation, a queue lags another by at most one unless it is used up |
| `RoundRobin.QueueMember` | AI/Qweun_sft_version/comparison_tools/build_comparison.py:103-106 | the queue of a course holds exactly its tasks |
| `RoundRobin.QueueIsOrdered` | AI/Qweun_sft_version/comparison_tools/build_comparison.py:106 | within a course tasks are queued by the digest of their identifier |
| `RoundRobin.BuildOrder` | AI/Qweun_sft_version/comparison_tools/build_comparison.py:102-112 | the identifiers of all tasks, each task once even when tasks share an identifier, balanced between the courses at every truncation |
| `Evidence.PaddleBackendsAreOneFamily` | AI/Qwen_cpt_version/region_preprocessing_v5_0_1/cross_validation.py:43-53 | two candidates that name a paddle backend, themselves or in their evidence, are one family whatever their engines are called |
| `Evidence.ExtractorsNameBackendInEvidence` | AI/Qwen_cpt_version/region_preprocessing_v5_0_1/cross_validation.py:20-53 | a candidate whose evidence alone names the backend, as the extractors write it, is such a candidate and no native reading |
| `CrossValidation.Collect` | AI/Qwen_cpt_version/region_preprocessing_v5_0_1/cross_validation.py:156-183 | the pass over the candidates finds exactly the usable ones and whether any was refused or belongs elsewhere |
| `CrossValidation.Compare` | AI/Qwen_cpt_version/region_preprocessing_v5_0_1/cross_validation.py:195-220 | one comparison for every usable transcript but the selected one, and whether any confirms or conflicts |
| `CrossValidation.Veto` | AI/Qwen_cpt_version/region_preprocessing_v5_0_1/cross_validation.py:242-266 | the vetoes, applied in sequence, give the final bucket |
| `CrossValidation.CrossValidateByLoops` | AI/Qwen_cpt_version/region_preprocessing_v5_0_1/cross_validation.py:143-277 | the loops compute the specified assessment |
| `CrossValidation.CrossValidateIsIdempotent` | AI/Qwen_cpt_version/region_preprocessing_v5_0_1/cross_validation.py:273-277 | assessing an assessed record changes nothing, its revision included |
| `CrossValidation.HighRiskIsNeverLowered` | AI/Qwen_cpt_version/region_preprocessing_v5_0_1/cross_validation.py:189-190 | over any sequence of later imports, each followed by an assessment, a record once rated high risk stays so |
| `CrossValidation.HighRiskIsRemembered` | AI/Qwen_cpt_version/region_preprocessing_v5_0_1/cross_validation.py:184-190 | over any sequence of imports the rating is high if and only if it was so at first or some input was risky |
| `CrossValidation.TrustedExactly` | AI/Qwen_cpt_version/region_preprocessing_v5_0_1/cross_validation.py:156-266 | trusted if and only if it is low-risk text, nothing is unusable, pending or damaged, the selected reading is native, all transcripts agree, and OCR of another family on the same region confirms it |
| `CrossValidation.TrustedProposalIsNative` | AI/Qwen_cpt_version/region_preprocessing_v5_0_1/cross_validation.py:193-194 | the proposal of a trusted record is the text of a native reading bound to the region |
| `CrossValidation.OneFamilyIsNeverTrusted` | AI/Qwen_cpt_version/region_preprocessing_v5_0_1/cross_validation.py:202-206 | readings of one backend family alone never make a record trusted |
| `CrossValidation.PaddleAloneIsNeverTrusted` | AI/Qwen_cpt_version/region_preprocessing_v5_0_1/cross_validation.py:43-53 | with the classification in use, a record without native text whose candidates all name a paddle backend is never trusted |
| `CrossValidation.DescriptionIsNoVote` | AI/Qwen_cpt_version/region_preprocessing_v5_0_1/cross_validation.py:195 | adding a usable description to a text record with a usable transcript changes neither bucket nor proposal |
| `CrossValidation.DescriptionsAreNoVotes` | AI/Qwen_cpt_version/region_preprocessing_v5_0_1/cross_validation.py:195 | nor does adding any number of them anywhere |
| `Association.IouIsSymmetricShare` | AI/Qwen_cpt_version/region_preprocessing_v5_0_1/workflow.py:13-16 | for proper boxes the overlap ratio is symmetric and between 0 and 1 |
| `Association.TranscriptHoldsAllParts` | AI/Qwen_cpt_version/region_preprocessing_v5_0_1/workflow.py:132-133 | the transcript of a page is the texts of all its parts, line by line in reading order |
| `Association.Attach` | AI/Qwen_cpt_version/region_preprocessing_v5_0_1/workflow.py:137-142 | offers are appended unless present, and the count is what was added |
| `Association.EveryMatchIsAttached` | AI/Qwen_cpt_version/region_preprocessing_v5_0_1/workflow.py:138-142 | a candidate that is no text is attached to every region of its page and kind that it overlaps by half |
| `Association.AttachedOrReported` | AI/Qwen_cpt_version/region_preprocessing_v5_0_1/workflow.py:143-147 | with a place it is reported exactly when no region matches, is attached to some region otherwise, and when reported is attached to none |
| `Association.OnlyLocatedCandidatesAreAttached` | AI/Qwen_cpt_version/region_preprocessing_v5_0_1/workflow.py:131-142 | nothing is attached that does not come from candidates with boxes |
| `Association.TextReachesExactly` | AI/Qwen_cpt_version/region_preprocessing_v5_0_1/workflow.py:127-142 | a candidate reaches a full page exactly as a successful text part of it, any other region exactly by matching it |
| `Association.TextIsNeverReported` | AI/Qwen_cpt_version/region_preprocessing_v5_0_1/workflow.py:143-147 | text with a place is never reported, attached or not |
| `Association.FailedTextIsDropped` | AI/Qwen_cpt_version/region_preprocessing_v5_0_1/workflow.py:127-147 | a failed text reading of a page is neither attached to the region of that page nor reported |
| `Association.AssociatingTwiceAddsNothing` | AI/Qwen_cpt_version/region_preprocessing_v5_0_1/workflow.py:121-148 | a second call with the same candidates leaves every region as it is |
| `Association.Associate` | AI/Qwen_cpt_version/region_preprocessing_v5_0_1/workflow.py:121-148 | the records become the associated ones in place, the count is what was added, and the report is about the candidates alone |
| `PageRanking.RankedIsSorted` | AI/Qwen_cpt_version/region_preprocessing_v5_0_1/batch_layout.py:46 | pages are ranked by score, then by position |
| `PageRanking.ChosenOutrankOthers` | AI/Qwen_cpt_version/region_preprocessing_v5_0_1/batch_layout.py:46-47 | no page left out ranks before a chosen one |
| `PageRanking.ChoosePages` | AI/Qwen_cpt_version/region_preprocessing_v5_0_1/batch_layout.py:46-47 | the pages chosen are the first of the ranking, up to the limit |
| `RegionRouting.ThresholdAdmitsDiagramsAndCharts` | AI/Qwen_cpt_version/region_preprocessing_v5_0_1/batch_layout.py:33-44 | the score threshold admits exactly first copies of diagrams, charts and pictures with a hint that are no decoration |
| `RegionRouting.PageScoreIsBest` | AI/Qwen_cpt_version/region_preprocessing_v5_0_1/batch_layout.py:46 | a page scores as the best of its candidates |
| `RegionRouting.DeferredScoreNoHigher` | AI/Qwen_cpt_version/region_preprocessing_v5_0_1/batch_layout.py:46-54 | no deferred page scores higher than a scheduled one |
| `RegionRouting.WantedPagesAreChosen` | AI/Qwen_cpt_version/region_preprocessing_v5_0_1/package_cloud.py:13-19 | the pages for which the packer wants an observation are exactly the scheduled ones |
| `RegionRouting.PackagingStaysInBudget` | AI/Qwen_cpt_version/region_preprocessing_v5_0_1/corpus.py:150-152 | they are within both limits, so the packer's guard never fires |
| `RegionRouting.OneScheduledRegionPerPicture` | AI/Qwen_cpt_version/region_preprocessing_v5_0_1/batch_layout.py:30-31 | two scheduled regions with the same pixels have the same identifier, so with unique ones no picture is scheduled twice |
| `RegionRouting.ReroutingChangesNothing` | AI/Qwen_cpt_version/region_preprocessing_v5_0_1/batch_layout.py:19-56 | routing routed regions again changes nothing |
| `RegionRouting.Route` | AI/Qwen_cpt_version/region_preprocessing_v5_0_1/batch_layout.py:19-56 | the records become the routed ones in place, the summary names the scheduled pages, and the two failures occur exactly as stated |
| `RegionRouting.SchedulesWithoutPages` | AI/Qwen_cpt_version/region_preprocessing_v5_0_1/batch_layout.py:45-56 | a diagram is scheduled even for a total of no pages, where the call then fails |
| `PagePlans.Plan` | AI/Qwen_cpt_version/region_preprocessing_v5_0_1/corpus.py:69-86 | refused exactly for a packet size below one; otherwise the jobs of each id cover the pages of its ready documents, one after the other |
| `PagePlans.PacketsTileDocument` | AI/Qwen_cpt_version/region_preprocessing_v5_0_1/corpus.py:80-81 | the packets of a document cover its pages in order, without gap or overlap |
| `PagePlans.PacketsAreInside` | AI/Qwen_cpt_version/region_preprocessing_v5_0_1/corpus.py:80-81 | every packet is nonempty, inside its document and no larger than the packet size |
| `PagePlans.Preflight` | AI/Qwen_cpt_version/region_preprocessing_v5_0_1/corpus.py:173-180 | reports exactly the documents whose jobs do not list the pages from the first to the last in order |
| `PagePlans.PlanPassesExactly` | AI/Qwen_cpt_version/region_preprocessing_v5_0_1/corpus.py:173-180 | a plan passes the check if and only if no two ready documents with pages share an id |
| `PagePlans.TwinsFailCheck` | AI/Qwen_cpt_version/region_preprocessing_v5_0_1/corpus.py:173-180 | two documents under one id are planned and then refused |
| `ReviewStores.CheckedReviewIsSound` | AI/Qwen_cpt_version/region_preprocessing_v5_0_1/review_store.py:120-161 | a review that passes all checks binds a revision, carries the proposal when it approves, and an acknowledgement when the revision is high risk |
| `ReviewStores.RunsAreSound` | AI/Qwen_cpt_version/region_preprocessing_v5_0_1/review_store.py:120-161 | every state reached by publishing and submitting in any order has only sealed records and sound reviews |
| `ReviewStores.LogIsAppendOnly` | AI/Qwen_cpt_version/region_preprocessing_v5_0_1/review_store.py:32-35 | the log of every run extends that of each of its beginnings |
| `ReviewStores.VerifiedInEveryRun` | AI/Qwen_cpt_version/region_preprocessing_v5_0_1/review_store.py:72-79 | in every run a record is shown as verified only by a latest review that accepts exactly what it now says, with the current proposal when approved and an acknowledgement when high risk |
| `ReviewStores.ChangedRecordIsNotVerified` | AI/Qwen_cpt_version/region_preprocessing_v5_0_1/review_store.py:59-79 | a review of an earlier machine result leaves the changed record unverified and is shown as stale |
| `ReviewStores.PublishingVerifiesNothing` | AI/Qwen_cpt_version/region_preprocessing_v5_0_1/workflow.py:18-28 | no import makes a record verified without an accepting review of that very result |
| `ReviewStores.ReviewStore.Publish` | AI/Qwen_cpt_version/region_preprocessing_v5_0_1/workflow.py:18-28 | assessed records replace the published ones unless the receipt belongs to another result; the log is untouched |
| `ReviewStores.ReviewStore.Submit` | AI/Qwen_cpt_version/region_preprocessing_v5_0_1/review_store.py:120-161 | appends the checked review, or changes nothing and returns the first failed check |
| `ReviewStores.ReadAll` | AI/Qwen_cpt_version/region_preprocessing_v5_0_1/workflow.py:175-178 | paging to the end returns every record once, in order |
| `ReviewStores.Export` | AI/Qwen_cpt_version/region_preprocessing_v5_0_1/workflow.py:170-192 | one sample for each first training record of its text and pixels, and for every other record the reason it was left out, a duplicate naming the first |
| `ReviewStores.SamplesAreVerified` | AI/Qwen_cpt_version/region_preprocessing_v5_0_1/workflow.py:180-192 | every exported sample is the accepted text of a verified training record |
| `ReviewStores.SamplesAreDistinct` | AI/Qwen_cpt_version/region_preprocessing_v5_0_1/workflow.py:188-190 | no two exported samples agree in both text and pixels |
| `ReviewStores.ExportsAreVerifiedInEveryRun` | AI/Qwen_cpt_version/region_preprocessing_v5_0_1/workflow.py:170-192 | and this holds after any run of imports and reviews |
| `VlmCache.ServingIsSound` | AI/Qwen_cpt_version/region_preprocessing_v5_0_1/vlm_worker.py:93-112 | serving one request keeps the cache truthful and answers that request truthfully |
| `VlmCache.JobsAreSound` | AI/Qwen_cpt_version/region_preprocessing_v5_0_1/vlm_worker.py:76-117 | over any sequence of runs the cache stays truthful and no key is generated successfully twice |
| `VlmCache.CacheIsTransparent` | AI/Qwen_cpt_version/region_preprocessing_v5_0_1/vlm_worker.py:82-112 | every successful observation, fresh, cached or replayed, has the text the model itself gives |
| `VlmCache.RetrySucceedsExactly` | AI/Qwen_cpt_version/region_preprocessing_v5_0_1/vlm_worker.py:82-112 | with the model and retries, a request succeeds exactly when its key was cached or a cacheless run would succeed |
| `VlmCache.StopsAtFirstNeed` | AI/Qwen_cpt_version/region_preprocessing_v5_0_1/vlm_worker.py:103-115 | without the model nothing is learnt and the run stops at the first request that needs it |
| `VlmCache.VlmWorker.Serve` | AI/Qwen_cpt_version/region_preprocessing_v5_0_1/vlm_worker.py:93-113 | cache, then replay, then generation, as specified, and whether to stop |
| `VlmCache.VlmWorker.Run` | AI/Qwen_cpt_version/region_preprocessing_v5_0_1/vlm_worker.py:76-117 | the observations are those of the specified run, in the order of the requests, and the requests not run are those whose identifier no observation carries |
| `VlmCache.NotRun` | AI/Qwen_cpt_version/region_preprocessing_v5_0_1/vlm_worker.py:114-115 | the identifiers of the requests that no observation carries, in order |
| `VlmCache.NotRunIsSuffixExactly` | AI/Qwen_cpt_version/region_preprocessing_v5_0_1/vlm_worker.py:113-115 | they are the suffix behind the served requests if and only if that suffix repeats no served identifier |
| `VlmCache.RepeatedRequestIsLost` | AI/Qwen_cpt_version/region_preprocessing_v5_0_1/vlm_worker.py:113-115 | a second request under a served identifier is neither run nor reported when the run stops before it |
| `Texts.StripIsEmptyForBlank` | AI/Qwen_cpt_version/region_preprocessing_v5_0_1/review_store.py:144 | trimmed text is empty exactly when there is nothing but white space |

## Left out

- Regular expressions, Unicode normalisation and character classes beyond what a proof needs, SHA-256, the similarity measure and `key`: parameters or injective, as said above.
- Building the shingle sets and the normalised prompts, and the exclusions before deduplication (`build_release.py:85-101`): the model starts from the records that are left.
- The report that `prepare_records` returns beside the rows, and the chat messages of `example`: string and count assembly.
- The tokenising half of `prepare` (`encode_example`, `pad_batch`) and `padded_batch`: masks over slices, easy beside the packing.
- `evaluate_metrics`, `cer`, `wer` and the other scores: sums and quotients over the modelled distance.
- `fit_image`, `normalized_box` and `_crop_map`: floating-point geometry.
- `select_examples`: a greedy loop of a kind that is modelled elsewhere.
- What a planned job says beside its pages, and the checks of source files and free disk space in `preflight`.
- `validate_record`: taken to return its argument.
- Engine and family names are taken to be in lower case already, and evidence fields that are absent or empty are both the empty string, as the code treats them alike.
- CrossValidation.CrossValidateByLoops: collects the reasons by the expression that specifies them, not by appending.
- The order and multiplicity of reasons in an assessment: they are sorted and made unique in the source, so they are a set here.
- JSON documents as such: the parser is not part of this model, and neither is the recursion limit that the source reports as an error.
- Lone surrogates: a Dafny character is a Unicode scalar value, so the characters that XML excludes are the other ones.
- Column widths, cell styles, output files and the conversion of long numbers to text; the model starts from the values to be stored.
- A null and a missing field are both blank cells, in the source as in the model.
- The rewriting of a request identifier into the file name of its attempt is taken to be injective, and the digests in attempt files to match.
- Concurrent access to the review database: submissions are single steps, as its exclusive transactions make them.
- The requirement to choose a fresh output directory, and the e-mail masking in an export: the latter is part of the cleaning parameter.
