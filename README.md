# parse-ai-embeddings, modelled in Dafny

parse-ai-embeddings extracts plan fields from insurance spreadsheets. Every cell
of a parsed sheet carries an embedding vector. The parser first finds the plan-name
cell. It drops a plan that looks like a renewal (`updateACL`). Next it scans for
label cells whose contextual embedding matches a property of the schema
(`scanForPropertyCells`). Then, for every label, it reads the value cell where the
plan's column meets the label's row (`getField`, `getProperties`). A value is scored
against the property's value vector and passed through the property's filter. A
separate tool (`embed.js`) sends cell texts or schema texts to an embedding service.
It stores the vectors that come back.

This project models that core as Dafny modules, one concern per module:

- `Wrappers`: `Option` for the places that return null or undefined, `Result` for
  the places that throw, and the list of errors.
- `Tables`: a JavaScript object as the ordered list of its own entries, with lookup.
- `Text`: ASCII `toUpperCase`, `startsWith` and `includes`.
- `Records`: cells, coordinates and matches.
- `Sorting`: `Array.prototype.sort` with a descending numeric comparator, a stable sort.
- `CellRefs`: utils/csv.js, the column letters, references, the merge rule and
  deduplication.
- `Flags`: utils/generic.js `getFlagKey`.
- `Vectors`: utils/openai.js, the cosine similarity, the weighted mean, the cell
  score, `arraysEqual` and `mergeCoords`.
- `Schema`: the three tables of embed-config.js and its two filters.
- `Resolver`, `Context`, `Acl`, `Scanner` and `Extractor`: parser.js.
- `Embed`: the list logic of embed.js.

Code that loops or mutates state in the source is a method proved against a
specification function:

- colToChar, getCellRefMerge, getCellRefToIndices and dedupeMatches;
- getWeightedEmbedding (over an `array` updated in place) and getCellScore;
- getEmbeddable, scanForPropertyCells, getProperties and parser main;
- updateACL, a method of the class `AccessList`, which holds the two lists.

The lemmas then state what the source promises about those functions.

Some inputs become parameters:

- `Math.sqrt` is the parameter `sqrt`. Only `IsSqrt` is known of it: a
  non-negative root whose square gives the argument back.
- The loaded embedding files (`utility.json`, `propertyChains.json` and
  `propertyValues.json`) are tables passed in.
- The command-line arguments are a list passed in.
- The vectors the embedding service returns are a list passed in.
- The plan names are a list passed in.

All arithmetic is over the reals.

## Model

| member | source | states |
|---|---|---|
| Tables.GetFound | parser.js:26-27 | the lookup `config[key]` finds a value exactly for a key the table holds, and then it is a value held under that key (inherited object names are left out) |
| Tables.GetUnique | parser.js:26 | in an object whose keys are distinct, looking up the key of entry `i` gives entry `i`'s value |
| Text.UpperIdempotent | embed-config.js:62 | upper-casing twice is upper-casing once |
| Sorting.Insert | parser.js:127-129 | one insertion step of the sort adds exactly the inserted element: the multiset grows by it |
| Sorting.InsertSorted | parser.js:127-129 | inserting into a list sorted by descending key keeps it sorted |
| Sorting.SortDesc | parser.js:127-129 | the sort's result is a permutation of its input, in descending order of the key |
| Sorting.InsertStable | parser.js:184-186 | among elements with equal keys, insertion keeps the original order |
| Sorting.SortStable | parser.js:184-186 | the sort is stable: the elements with any one key come out in input order |
| CellRefs.ColLetters | utils/csv.js:4-11 | a column name is a non-empty string of capital letters |
| CellRefs.ColToChar | utils/csv.js:4-11 | the while loop that prepends one letter per bijective base-26 digit spells `ColLetters(col)` |
| CellRefs.LettersRoundTrip | utils/csv.js:4-11 | read back as a bijective base-26 numeral (A = 1), the name of column `c` is worth `c + 1`: colToChar is injective |
| CellRefs.ColLettersOnto | utils/csv.js:46-51 | every non-empty string of capitals is the name of exactly one column, its value minus one: colToChar is onto |
| CellRefs.ColLettersExamples | utils/csv.js:4-11 | 0 is "A", 25 is "Z", 26 is "AA", 701 is "ZZ" and 702 is "AAA" |
| CellRefs.Decimal | utils/csv.js:15 | the row number is written as a non-empty string of decimal digits |
| CellRefs.DecimalRoundTrip | utils/csv.js:54 | `parseInt(String(n), 10) == n` |
| CellRefs.GetCellRef | utils/csv.js:13-16 | every reference getCellRef writes matches `^[A-Z]+\d+$` |
| CellRefs.LeadingLettersOfRef | utils/csv.js:13-16 | in column letters followed by row digits, the letter run ends exactly where the digits begin |
| CellRefs.RefShapeIsPattern | utils/csv.js:40 | the model's shape test holds exactly when the string splits into a non-empty capital run and a non-empty digit run, as the regular expression demands |
| CellRefs.GetCellRefToIndices | utils/csv.js:39-57 | the loop-built result throws "Invalid cell reference" exactly when the pattern is not matched; otherwise it gives the digits' value minus one and the letters' value minus one |
| CellRefs.RefRoundTrip | utils/csv.js:13-16 | parsing the reference of `[r, c]` gives back `[r, c]`, for every `r, c >= 0` |
| CellRefs.RefInjective | utils/csv.js:13-16 | distinct cells get distinct references |
| CellRefs.MergedCoord | utils/csv.js:22-28 | the merged row is one of the two rows, the merged column one of the two columns and no smaller than either |
| CellRefs.MergeRule | utils/csv.js:22-28 | the merged column is the larger one; the merged row is the smaller exactly when one cell is strictly above-left of the other, so equal rows or columns take the larger row |
| CellRefs.MergeSymmetric | utils/csv.js:22-28 | merging `a` with `b` picks the same cell as merging `b` with `a` |
| CellRefs.GetCellRefMerge | utils/csv.js:18-37 | the inline letter loop spells the same letters as colToChar: the result is getCellRef of the merged cell, never empty |
| CellRefs.MergeExamples | utils/csv.js:26-27 | a label at B3 with a header at D1 gives D3; a label at B1 with a header at D3 gives D1 |
| CellRefs.DedupeMatches | utils/csv.js:83-90 | the filter whose callback grows a `seen` set returns the first-occurrence list `Dedupe(list)` |
| CellRefs.DedupeProperties | utils/csv.js:83-90 | the result is a subsequence of the input, with distinct references; each element is the first match of its reference; every reference of the input is kept |
| CellRefs.DedupeFromFresh | utils/csv.js:86-88 | with `seen` already holding some references, the kept matches are distinct, come from the list, and avoid `seen` |
| CellRefs.DedupeFromFirst | utils/csv.js:86-88 | every kept match is the first one of its reference in the list |
| CellRefs.DedupeFromCovers | utils/csv.js:86-88 | every reference of the list that was not already seen is kept |
| Flags.IndexOf | utils/generic.js:8 | the first position of the separator: it holds the separator and none comes before it |
| Flags.Split | utils/generic.js:8 | `split` always gives at least one piece |
| Flags.JoinSplit | utils/generic.js:8 | joining the pieces of a split with the separator gives the text back |
| Flags.FindFirst | utils/generic.js:4 | `find` gives nothing exactly when no argument has the prefix; otherwise it gives the first argument that has it |
| Flags.GetFlagKeySpec | utils/generic.js:3-10 | "" when no argument starts with the property; otherwise the text after the first ':' of the first such argument, "" when it has no ':' |
| Flags.FlagAt | utils/generic.js:3-10 | knowing the first matching argument and its first ':', the key is the rest of that argument after the ':' |
| Flags.PrefixExample | utils/generic.js:4 | matching is by prefix: "--data" selects "--database:x" and gives "x" |
| Flags.LaterColonExample | utils/generic.js:8 | later ':' are kept: "--data:a:b" gives "a:b" |
| Flags.NoColonExample | utils/generic.js:8 | a matching argument without ':' gives "" |
| Flags.FirstMatchExample | utils/generic.js:4 | only the first matching argument is read |
| Vectors.DotSelf | utils/openai.js:11 | the sum of squares is non-negative, and zero exactly for the zero vector |
| Vectors.CosineSimilarity | utils/openai.js:5-18 | throws exactly when the lengths differ |
| Vectors.CosineZero | utils/openai.js:14-16 | a zero vector on either side gives 0, not an error |
| Vectors.CosineNonZero | utils/openai.js:11-17 | for non-zero vectors both magnitudes are positive and the result is `dot / (magA * magB)` |
| Vectors.CosineSymmetric | utils/openai.js:5-18 | the similarity (and its error) does not depend on the order of the arguments |
| Vectors.CosineSelf | utils/openai.js:5-18 | a non-zero vector has similarity 1 with itself |
| Vectors.CosineOpposite | utils/openai.js:5-18 | a non-zero vector has similarity -1 with its negation |
| Vectors.WeightedMean | utils/openai.js:20-42 | a successful mean of a non-empty list has the first item's length |
| Vectors.GetWeightedEmbedding | utils/openai.js:20-42 | the nested loops over the `sum` array return `WeightedMean(items)`: [] for no items, a throw on a length mismatch or a total weight of exactly 0, otherwise `Σ wₖ·eₖ[i] / Σ wₖ` for each component |
| Vectors.AddWeighted | utils/openai.js:32-34 | the inner loop adds `embedding[i] * weight` to every component of `sum` in place and changes nothing else |
| Vectors.WeightedMeanConstant | utils/openai.js:20-42 | averaging copies of one vector gives the vector back, whatever the weights, as long as their total is not 0 (negative weights included) |
| Vectors.WeightedMeanSingle | utils/openai.js:20-42 | one item with a non-zero weight comes back unchanged |
| Vectors.WeightedMeanPair | utils/openai.js:20-42 | two vectors of one length blend component-wise to `(u·wu + v·wv) / (wu + wv)` |
| Vectors.TotalWeightPositive | utils/openai.js:25-31 | with positive weights the total is positive once there is an item |
| Vectors.Pow2 | utils/openai.js:87 | `2 ** e` is positive for every integer exponent |
| Vectors.CellScore | utils/openai.js:66-93 | the score always lies strictly between 0 and 1 |
| Vectors.GetCellScore | utils/openai.js:66-93 | the step-by-step share and relevance updates compute `CellScore` |
| Vectors.ExponentParts | utils/openai.js:75-84 | the exponent is the share score plus the relevance score: +2 per equal axis, +2 per axis where B is smaller, -4 per axis where B is larger |
| Vectors.ExponentCases | utils/openai.js:75-87 | the exponent is one of 4, -2 and -8, and is 4 exactly when B is weakly above-left of A |
| Vectors.SelfScore | utils/openai.js:71-92 | a cell scores 16/17 against itself |
| Vectors.ScoreAboveLeft | utils/openai.js:79-92 | a score above 0.2 means B lies weakly above and weakly left of A |
| Vectors.ScoreAsymmetric | utils/openai.js:79-92 | the score is not symmetric: a right neighbour scores 1/9, a left neighbour 8/9 |
| Vectors.ArraysEqual | utils/openai.js:95-99 | true exactly when both arguments are arrays with equal elements |
| Vectors.MergeCoordsLaws | utils/openai.js:101-105 | `mergeCoords(A, A) == A`, and only the two outer arguments of a chain of merges matter |
| Schema.PlanTypeFilter | embed-config.js:61-68 | the result is always one of "HMO", "PPO", "EPO", "HDHP" and "-" |
| Schema.PlanTypeOrder | embed-config.js:62-67 | on the upper-cased text, the tests run in the order HMO, PPO, EPO, HDHP; the first hit wins, and "-" comes exactly when none hits |
| Schema.PlanTypeCaseInsensitive | embed-config.js:62 | upper-casing the input first changes nothing |
| Schema.PlanTypeIdempotent | embed-config.js:61-68 | `filter(filter(v)) == filter(v)` |
| Schema.ProviderNameFilter | embed-config.js:72-76 | the result is either the original text unchanged (not upper-cased) or "-" |
| Schema.ProviderNameExamples | embed-config.js:72-76 | "Aetna" is kept verbatim; "Plan name" becomes "-", because NAME is matched in any case |
| Schema.TablesWellFormed | embed-config.js:1-141 | in all three tables every entry has exactly one of `embed` and `defer` |
| Schema.ValueDefersTargetCost | embed-config.js:56-123 | every `defer` of `propertyValues` names `_CostOrCoverage`, which embeds its own text |
| Schema.ValuesDefersResolve | embed-config.js:55-124 | every alias of `propertyValues` names an existing entry of the table that does not defer |
| Schema.TablesDefersResolve | embed-config.js:1-141 | in all three tables every alias target exists, does not defer, and embeds: alias chains have length at most one |
| Schema.ChainKeysAligned | embed-config.js:1-124 | `propertyValues` is `_CostOrCoverage` followed by the keys of `propertyChains`, in the same order |
| Schema.ChainKeysHaveValues | embed-config.js:1-124 | every key of `propertyChains` is also a key of `propertyValues` |
| Schema.RenewalEmbeds | embed-config.js:133-136 | `utilities.renewal` exists and embeds its own text |
| Schema.ValuesUniqueKeys | embed-config.js:55-124 | the keys of `propertyValues` are distinct |
| Schema.TablesUniqueKeys | embed-config.js:1-141 | the keys of each table are distinct |
| Resolver.GetEmbeddable | parser.js:22-44 | the recursive lookup returns `Resolve(config, embeddings, key, seen)`, and the shared `seen` set ends up grown by exactly the visited keys |
| Resolver.ResolveSound | parser.js:29-40 | any vector returned is the vector of a visited key whose entry embeds directly |
| Resolver.VisitedBounds | parser.js:23-31 | the walk visits only unseen keys, starting with `key`; at most one visited key is unconfigured, so the walk stops on cycles |
| Resolver.SeenKeyNeverRead | parser.js:23 | a key already in `seen` never has its vector read |
| Resolver.DeferIgnoresOwnVector | parser.js:29-31 | a deferring key never consults its own vector: changing it changes nothing |
| Resolver.ResolveDirect | parser.js:33-43 | an unseen key that embeds directly gets its own vector from the embeddings, or null |
| Resolver.ResolveUnknown | parser.js:26-27 | a key absent from the configuration gives null, whatever the embeddings hold |
| Resolver.CycleGivesNull | parser.js:23-31 | two keys deferring to each other give null, even when both have vectors |
| Resolver.ResolveDefersOnce | parser.js:29-31 | when every alias target embeds directly, a lookup takes at most one alias step |
| Resolver.ShippedAliasesBorrowCost | parser.js:29-31 | with the shipped `propertyValues`, every deferring key resolves to the `_CostOrCoverage` vector |
| Resolver.UrgentCareBorrowsCost | parser.js:148-152 | the urgent-care key resolves to the `_CostOrCoverage` vector |
| Context.Relevant | parser.js:54-62 | the pool holds no more items than the data, and every weight is above the threshold and inside (0, 1) |
| Context.RelevantMembers | parser.js:54-62 | an item is in the pool exactly when some cell has that embedding and a score above the threshold, the score being the weight |
| Context.SelfInPool | parser.js:54-62 | below 16/17 (so for the 0.6 and 0.7 thresholds used) a cell of the data is always in its own pool |
| Context.RelevantIgnoresBelowRight | parser.js:54-62 | from a threshold of 0.2 on, cells below or to the right of the cell never enter its pool |
| Context.RelevantEmpty | parser.js:54-58 | when no score is above the threshold, the pool is empty |
| Context.PoolMean | parser.js:64 | the pool's mean never fails for a zero total weight: it throws exactly on a length mismatch |
| Context.PoolMeanUniform | parser.js:64 | on data with one embedding length, the pool's mean succeeds and has that length, or is [] for an empty pool |
| Context.ContextualEmbedding | parser.js:46-78 | a weighted-average result has the cell's own length |
| Context.ContextFallback | parser.js:69-74 | a cell with no context above the threshold keeps its own embedding |
| Context.ContextNoError | parser.js:64-76 | with one embedding length and a merged weight other than -1, neither the pool's mean nor the blend throws |
| Context.ContextBlend | parser.js:69-73 | each blended component is `(own + mean · mergedWeight) / (1 + mergedWeight)` |
| Context.ContextualList | parser.js:66-67 | "list" mode returns a permutation of the pool, sorted by descending weight; it throws exactly when the pool's mean does |
| Context.ContextListIsPool | parser.js:54-67 | on data with one embedding length, "list" mode succeeds and returns the whole pool |
| Acl.PlanNameCellsMembers | parser.js:80-81 | a cell is a plan-name cell exactly when it is in the data and its value is one of the plan names |
| Acl.AddAllProperties | parser.js:102 | adding to the whitelist keeps earlier entries in front and keeps the entries distinct; it holds exactly the old and the added cells |
| Acl.TriageStop | parser.js:86-104 | the run stops at the first cell that is not a pass; every earlier cell is whitelisted; a match above 0.85 blacklists that cell's reference, an error is reported, and no later cell is looked at |
| Acl.TriageAllClear | parser.js:86-104 | with no renewal match, every plan-name cell is whitelisted and nothing is blacklisted |
| Acl.TriageBounds | parser.js:86-104 | the blacklist gains at most one reference, a plan-name cell's; the whitelist only grows, at its end, by plan-name cells, and stays distinct |
| Acl.FirstAnchor | parser.js:86-104 | from empty lists, the first whitelisted cell is the first plan-name cell exactly when that cell is not a renewal |
| Acl.AccessList.constructor | parser.js:17-20 | the module-level `config` starts with both lists empty |
| Acl.AccessList.UpdateACL | parser.js:83-105 | the loop with its early `break` leaves the two lists as `Triage` over the plan-name cells and their verdicts gives them; an error thrown mid-way keeps what was added before it |
| Scanner.PushedSound | parser.js:123-125 | every pushed match has similarity above 0.85 and names a cell of the data |
| Scanner.PushedError | parser.js:111-122 | the first similarity that throws is the error of the scan |
| Scanner.MatchCell | parser.js:112-122 | one cell's similarity: its contextual embedding at the default options, then the chain vector and the cosine |
| Scanner.PushMatches | parser.js:111-126 | the inner loop pushes, in data order, every cell whose similarity is above 0.85; the first error ends it |
| Scanner.ScanChain | parser.js:110-131 | one key's list is the candidates, sorted, deduplicated and cut to three |
| Scanner.ScanForPropertyCells | parser.js:107-135 | the two loops return `Scan` over the keys of the loaded chain embeddings |
| Scanner.KeptShape | parser.js:127-131 | a kept list has at most three matches, best first, with distinct references |
| Scanner.KeptBest | parser.js:127-131 | every kept match is a candidate, and the best candidate of its reference |
| Scanner.KeptComplete | parser.js:127-131 | when the candidates name at most three references, every one of those references is kept |
| Scanner.ScanKeyProperties | parser.js:107-135 | a key's list holds at most three matches, each a candidate above 0.85 naming a data cell |
| Scanner.MissingVectorThrows | parser.js:114-122 | once there is a cell, a chain key without a vector makes the scan throw, unless that cell's contextual embedding throws first |
| Scanner.ScanKeys | parser.js:108-134 | the result has exactly the scanned keys, in order, each with that key's list |
| Extractor.Find | parser.js:139-143 | `find` gives nothing exactly when no cell has the reference; otherwise it gives the first cell that has it |
| Extractor.AverageBetween | parser.js:160 | `(3·field + label) / 4` lies between the two similarities, and equals them when they agree |
| Extractor.FieldFromShape | parser.js:137-169 | a field's header is the match together with the header cell's value; its reference is the merge of the anchor with the header cell; its value is the merged cell's value through the filter; its blend lies between the two similarities |
| Extractor.GetFieldShape | parser.js:137-169 | as FieldFromShape, with the filter taken from the key's own `propertyValues` entry and a value vector that resolves |
| Extractor.NoHeaderNoField | parser.js:139-140 | no cell with the match's reference: null |
| Extractor.NoMergedCellNoField | parser.js:141-144 | no cell at the merged reference: null |
| Extractor.GetFieldNull | parser.js:137-154 | these all give null: no header cell; no merged cell; no value vector, once the contextual embedding has not thrown; and a key missing from `propertyValues` has no value vector |
| Extractor.PlanTypeFieldValue | embed-config.js:61-68 | a plan-type field always holds one of the plan types |
| Extractor.ProviderNameFieldValue | embed-config.js:72-76 | a provider-name field holds its cell's text or "-" |
| Extractor.UrgentCareField | parser.js:148-158 | urgent care borrows the cost vector but not a filter: its field equals the cost key's, holding the cell's raw text |
| Extractor.CollectMembers | parser.js:177-182 | one key's run succeeds exactly when no getField threw; it then holds every non-null result and nothing else, and no more items than there are results |
| Extractor.SortedFieldsProperties | parser.js:177-186 | sorted by blend, and exactly the non-null results, no more of them than results; it fails exactly when a result threw |
| Extractor.FieldsForProperties | parser.js:173-186 | a key's fields are sorted by descending `averageSimilarity`, at most one per match, and a match's field is among them exactly when getField returned one |
| Extractor.PropertiesKeys | parser.js:171-189 | the result has exactly the scanned keys, in order, each with its fields; it throws exactly when one key's fields do |
| Extractor.FieldOf | parser.js:137-169 | getField run as the source runs it (the letter loop of the merge, the recursive lookup) returns `GetField` |
| Extractor.CollectFields | parser.js:176-186 | the inner loop pushes every non-null field and then sorts the list by blend |
| Extractor.GetProperties | parser.js:171-189 | the nested loops return `Properties` |
| Extractor.RunParser | parser.js:205-221 | main runs updateACL on fresh lists, then the scan, then getProperties on the first whitelisted cell |
| Extractor.NoPlanNameCells | parser.js:205-213 | with no plan-name cell in the data, main stops after the scan |
| Extractor.AnchorIsFirstPlanCell | parser.js:205-220 | when the first plan-name cell is a renewal, main stops after the scan; when it is not, that cell is the anchor of getProperties |
| Embed.NonEmpty | embed.js:9 | only cells with a non-empty text are kept |
| Embed.NonEmptyKeeps | embed.js:9 | the kept cells are exactly the non-empty ones, in input order |
| Embed.CsvRowsAligned | embed.js:9-15 | every row carries the vector of its own text; all rows have one when the service returns one vector per text |
| Embed.EmbeddedEntries | embed.js:29-30 | no entry with a truthy `defer` is embedded |
| Embed.EmbeddedSubsequence | embed.js:29-30 | the embedded entries are a subsequence of the table |
| Embed.AsWrittenMisalignedAfterAlias | embed.js:29-37 | as written, an entry after an alias gets `embeddings[i]`, while its own text was sent at an earlier position; the vector it gets is undefined or that of a later entry's text |
| Embed.AsWrittenAlignedBeforeAlias | embed.js:29-37 | as written, an entry before the first alias still gets the vector of its own text |
| Embed.JsonTableAligned | embed.js:29-37 | corrected: every written key is a key of the table and gets the vector of its own `embed` text |
| Embed.Written | utils/generic.js:29 | a key written to the file has the value it was set to; undefined values are dropped |
| Embed.WrittenGet | utils/generic.js:29 | reading a key back gives its vector, or nothing when it was never set or was undefined |
| Embed.ShippedValueTexts | embed-config.js:55-124 | the shipped `propertyValues` sends four texts: the cost, plan-type, provider-name and tier-count texts |
| Embed.TierCountLosesVector | embed.js:34-37 | as written (shipped `propertyValues`), urgent care gets the tier-count text's vector, and the tier-count key resolves to no vector at all |
| Embed.TierCountKeepsVector | embed.js:29-37 | corrected: the tier-count key gets its own vector, and the cost key and every alias get the cost vector |
| Embed.Choose | embed.js:43-54 | a non-empty CSV name wins and is the file embedded; otherwise a non-empty JSON type is embedded exactly when it names a table and is reported invalid exactly when it does not; only the usage line comes when both are empty |
| Embed.CsvBeforeJson | embed.js:43-47 | for every argument list whose first `--csv` argument is `--csv:<name>` with a non-empty name, that file is embedded, whatever `--json` arguments come before or after |
| Embed.JsonSelectsTable | embed.js:44-49 | `--json:propertyValues` alone embeds the `propertyValues` table |
| Embed.UnknownTypeOnlyPrints | embed.js:20-25 | for every argument list without `--csv` whose first `--json` argument names no table, main only reports the type as invalid: no embedding call and no write |
| Embed.NoFlagOnlyPrints | embed.js:50-54 | with neither flag, main only prints the usage line |

## Left out
- Records.Cell: every data cell is assumed to carry an embedding. The source can write a row without one: when the service returns fewer vectors than texts, `embeddings[index]` is undefined (Embed.At gives None) and JSON.stringify drops the key (utils/generic.js:29). The parser then throws a TypeError at the first contextual embedding whose pool holds that cell, because getWeightedEmbedding reads `.length` of undefined (utils/openai.js:23 or 28). Every cell is in its own pool, since its self-score 16/17 is above 0.6 (parser.js:54-62), so the scan would throw at that cell at the latest.

- File reading and writing (`fs`, `readFile`, `writeFile`, `parseCSV` with the csv-parse library): the parsed cells, the data file and the loaded embedding files are inputs to the model.
- Embed.EmbedCsvRows, Embed.EmbedJsonTableAsWritten and Embed.EmbedJsonTable have no contract of their own: they are `PairCsv` and `Written(...)` applied to the parsed cells or the pairing, and their properties are the lemmas about those. Embed.EmbedJsonTableAsWritten is the program as written (`JsonTableAsWritten`); Embed.EmbedJsonTable uses the corrected pairing `JsonTable` of the finding below.
- `getEmbedding` and `getEmbeddings` (OpenAI network calls, batching, the rate-limit delay, `await`): the returned vectors are a parameter, in the order of the texts.
- Console output, the hard-coded plan name of parser main and `process.argv`: the plan names and the arguments are parameters.
- Floating point: every number is a real. `Math.sqrt` and `Math.hypot` are the `sqrt` parameter, known only to be a non-negative square root. No float-exact equality is claimed.
- Text.Upper: `toUpperCase` is ASCII-only; the two filters are stated over ASCII upper-casing and substring containment.
- Context.ContextualEmbedding: a `returnType` other than "weighted-average" or "list" returns undefined in the source; the model offers only those two modes.
- Resolver.GetEmbeddable: the loaded embeddings are a JSON object, so the Map branch (`has`/`get`) and a null embeddings argument are not modelled.
- Embed.Choose: `in` also accepts inherited property names such as "toString"; the model accepts only the three table names.
- Tables.GetFound: in JavaScript `config[key]` is also defined for inherited names such as "toString" or "constructor"; the model's tables hold only their own keys. For those names the source still gives what the model gives: getEmbeddable returns null through the `hasOwnProperty` test on the embeddings (parser.js:38), and the `?.filter` of an inherited function is undefined.
- Acl.AccessList.UpdateACL: the whitelist is a JavaScript Set of cell objects, compared by identity; the model compares cells by value. Distinct cells of a sheet differ in their references, so the two agree.
- Extractor.FieldOf: the `if (!cellRef)` test of getField is left out, because the merged reference is never empty (CellRefs.GetCellRefMerge).
- The chain configuration is a parameter of the scanner functions; the parser passes the shipped `propertyChains` table.
- The weighted mean of no items: the source returns [] (it does not throw), and the model follows the code.

## Findings

| source | as written | input that shows it | evidently intended | confidence | as-written member | corrected member |
|---|---|---|---|---|---|---|
| embed.js:34-37 | the reduce pairs entry `index` of the whole table, aliases included, with `embeddings[index]`, although only the non-alias texts were embedded | `--json:propertyValues`: four texts are embedded (cost, plan type, provider name, tier count). Urgent care, at index 3, gets the tier-count text's vector. Entries from index 4 on, the tier-count key among them, get undefined and are not written. parser.js then finds no value vector for the tier-count key, so getField returns null for it | pair the `index`-th embedded (non-alias) entry with `embeddings[index]`, so every embedded key stores the vector of its own text | not executed | Embed.JsonTableAsWritten, Embed.AsWrittenMisalignedAfterAlias, Embed.TierCountLosesVector | Embed.JsonTable, Embed.JsonTableAligned, Embed.TierCountKeepsVector |
