# Food additives database: a verified model

This project models the generator of the food-additives SQLite database (`AdditivesSQLiteCreator` in `create_additives_sqlite.py`) and the Kotlin Multiplatform consumer that reads it (`KMP_Integration_Example.kt`).

On the generator side it covers:

- the normaliser, which turns the Open Food Facts additives taxonomy into flat records;
- the three curated records;
- the risk classifier: a first-match-wins cascade over three fixed code sets and then keywords in the lower-cased classes and name;
- the category lookup: the first keyword of an ordered table found in the classes;
- the database itself, as an object with three fields: whether the `additives` table exists, the table as a map keyed by `e_number`, and the metadata map;
- the database's schema reset, the `INSERT OR REPLACE` batch with its counters, and the read-only validation;
- the pipeline that runs these steps in order.

On the consumer side it covers:

- the `RiskLevel` enum, and the colour lookup that falls back to YELLOW;
- the DAO's WHERE clauses, modelled as filters over the rows;
- the repository's upper-casing lookup;
- the search result (Found / NotFound);
- the healthy-alternatives rule.

Modules, one per file:

- `wrappers.dfy`, `Wrappers`: `Option` (Python `None`, Kotlin `null`) and `Result`.
- `text.dfy`, `Text`: `str.lower()`, Kotlin `uppercase()`, the substring test `kw in s`, `any(...)` over keywords, and `str(n)` with its parse-back.
- `taxonomy.dfy`, `Taxonomy`: records as `map<string, string>` (a Python dict), so that `additive['e_number']` can fail and `.get(k, "")` defaults. Also holds the normaliser, both as a specification function and as the source's appending loop, and the curated records.
- `risk.dfy`, `RiskClassifier`: the cascade as written, the same cascade as an ordered rule table, and the characterisation of each level.
- `category.dfy`, `CategoryResolver`: the ordered keyword table, its first-hit function and the source's loop.
- `store.dfy`, `AdditiveStore`:
  - the row built for a record;
  - a batch's rows;
  - the upsert, with the per-code "last write wins" characterisation;
  - the written count;
  - validation.

  These are generic in the assessment a record gets, so their proofs do not depend on the classifier.
- `creator.dfy`, `SqliteCreator`: the assessment (the classifier plus the category lookup), and the class `AdditivesDatabase` with the schema reset, the insert loop and the pipeline. It also holds the facts about the final table: every row agrees with its own assessment, validation passes, and the curated rows win.
- `kmp.dfy`, `KmpIntegration`: the Kotlin consumer.

Clock readings (`datetime.now().isoformat()`) are a parameter `now`. The downloaded taxonomy is an input, an ordered sequence of `(key, bundle)` pairs. A bundle is a map from field to locale to text.

A few behaviours of the code worth stating:

- The stored description is exactly `"Food additive " + e_number`; there is no richer description builder.
- Codes are matched exactly, with no "E"-prefix normalisation. So the curated `"E100"`, `"E101"` and `"E300"` never hit a code set and are rated by their keywords.
- `total_additives` is the number of successful writes. It counts replacements, so in the freshly created table it exceeds the number of rows exactly when a code repeats (`RepeatedCodeLosesRows`, `TotalEqualsRowsIffDistinct`; `TotalCountsReplacements` is a two-row example).
- The pipeline stops when the download gives nothing, and also when it gives an empty taxonomy, because an empty dict is falsy.
- Validation never rejects data. Only a missing table is an error; duplicates, empty required fields and unexpected levels are reported.

## Model

| member | source | states |
|---|---|---|
| Text.Lower | create_additives_sqlite.py:122-123 | lower-casing keeps the length and maps each character to its lower case |
| Text.LowerUpper | create_additives_sqlite.py:122-123 | lower-casing after upper-casing is lower-casing alone, so comparisons after `.lower()` ignore the input's case |
| Text.LowerIsLower | create_additives_sqlite.py:122-123 | a lowered string has no upper-case letter and lowering it again changes nothing |
| Text.Contains | create_additives_sqlite.py:237 | Python's `in` on strings: the keyword occurs at some position of the text; `ContainsAnyExists` lifts it to `any` over a keyword list |
| Text.ContainsAnyExists | create_additives_sqlite.py:238 | `any(kw in s for kw in kws)` holds exactly when some keyword of the list occurs in `s` |
| Text.NatToString | create_additives_sqlite.py:455 | `str(n)` of a count: at least one character, decimal digits only, no leading zero; `ParseNatToString` reads it back as `n` |
| Text.ParseNatToString | create_additives_sqlite.py:457 | `str(n)` for a count parses back to `n` |
| Text.NatToStringInjective | create_additives_sqlite.py:457 | different counts give different `total_additives` texts |
| Text.Upper | KMP_Integration_Example.kt:121 | upper-casing keeps the length and maps each character to its upper case |
| Taxonomy.NormalizeEntry | create_additives_sqlite.py:71-98 | a normalised record has exactly the ten fields, with source "Open Food Facts" and the run's timestamp |
| Taxonomy.English | create_additives_sqlite.py:71-83 | `value.get(field, {}).get("en", "")`: the English text of a field, or "" when the field or its English text is missing; `NormalizeEntry` builds every field of a record from it |
| Taxonomy.Normalize | create_additives_sqlite.py:59-107 | never more records than taxonomy entries; `NormalizeIsFilterMap` proves it is exactly the accepted entries, in order, each normalised |
| Taxonomy.AcceptedIndices | create_additives_sqlite.py:65-73 | the accepted entries are exactly those whose key starts with "en:e" and whose English e_number is non-empty, in input order |
| Taxonomy.NormalizeIsFilterMap | create_additives_sqlite.py:63-100 | the normalised list is the accepted entries, in order, each normalised |
| Taxonomy.NormalizeAppend | create_additives_sqlite.py:65-100 | normalising a concatenation is the concatenation of the normalised parts |
| Taxonomy.NormalizedRecordsWellFormed | create_additives_sqlite.py:71-98 | every normalised record has a non-empty e_number, all ten fields and the Open Food Facts source |
| Taxonomy.EntryWellFormed | create_additives_sqlite.py:71-98 | an accepted entry normalises to a well-formed Open Food Facts record |
| Taxonomy.ProcessOpenFoodFactsData | create_additives_sqlite.py:59-107 | the appending loop returns exactly the normalised list |
| Taxonomy.ManualAdditives | create_additives_sqlite.py:295-338 | three records, all fields present, source "Manual", codes E100, E101, E300 in that order |
| Taxonomy.ManualRecordFields | create_additives_sqlite.py:299-335 | a curated record's code, lower-cased classes and lower-cased name are the ones it was built from |
| Taxonomy.ManualAdditivesFields | create_additives_sqlite.py:299-335 | the curated records' codes, classes and names as the classifier reads them |
| Taxonomy.ManualNames | create_additives_sqlite.py:299-335 | the curated names are Curcumin, Riboflavin and Ascorbic acid |
| RiskClassifier.UnionHas | create_additives_sqlite.py:127-147 | a code is in a set built from listed groups exactly when some group lists it |
| RiskClassifier.PairSpellsLevel | create_additives_sqlite.py:149-267 | each level's pair is one of the four and its colour is the lower case of its level |
| RiskClassifier.PairInjective | create_additives_sqlite.py:149-267 | different levels return different pairs |
| RiskClassifier.ClassifyRiskLevel | create_additives_sqlite.py:109-267 | total: always one of (RED, red), (ORANGE, orange), (YELLOW, yellow), (GREEN, green), colour the lower case of the level |
| RiskClassifier.RiskLevelOf | create_additives_sqlite.py:109-267 | the level of a record is the cascade applied to what it reads; `ClassifyFollowsRules` proves it is the first matching rule of the ordered table |
| RiskClassifier.LevelReadsOnlyFacts | create_additives_sqlite.py:121-123 | two records that agree on the code's membership in the three sets and on the lower-cased classes and name get the same level |
| RiskClassifier.Decide | create_additives_sqlite.py:149-267 | the if-cascade over those facts; `DecideFollowsRules` proves it equals the first match in the rule table, which always matches |
| RiskClassifier.FirstMatch | create_additives_sqlite.py:149-267 | the first rule whose guard holds decides, and none when no guard holds |
| RiskClassifier.DecideFollowsRules | create_additives_sqlite.py:149-267 | the if-cascade as written equals the first match in the ordered rule table, whose last rule always fires |
| RiskClassifier.ClassifyFollowsRules | create_additives_sqlite.py:149-267 | the level of every record is the first matching rule of the table |
| RiskClassifier.CodeRules | create_additives_sqlite.py:149-234 | the high set is checked before the moderate set and the moderate set before the safe set |
| RiskClassifier.ColourRules | create_additives_sqlite.py:237-241 | a colour class gives ORANGE when the name holds artificial, synthetic or azo, else YELLOW |
| RiskClassifier.PreservativeRules | create_additives_sqlite.py:243-247 | a preservative class gives ORANGE when the name holds benzoate, sulfite, nitrite or nitrate, else YELLOW |
| RiskClassifier.SweetenerRules | create_additives_sqlite.py:249-253 | a sweetener class gives ORANGE when the name holds artificial, aspartame, saccharin or acesulfame, else YELLOW |
| RiskClassifier.NaturalRules | create_additives_sqlite.py:256-267 | natural classes, then natural names, give GREEN; texture classes and everything else give YELLOW |
| RiskClassifier.HighRiskCodeIsRed | create_additives_sqlite.py:127-150 | a code in the high-risk set is RED whatever the classes and name |
| RiskClassifier.RedExactly | create_additives_sqlite.py:127-150 | RED exactly when the code is in the high-risk set |
| RiskClassifier.OverlappingCodesResolveInOrder | create_additives_sqlite.py:127-172 | a code listed in two sets takes the earlier one: "466" is RED, "407" and "415" are ORANGE |
| RiskClassifier.GreenExactly | create_additives_sqlite.py:175-260 | GREEN exactly for a safe code not listed earlier, or with no code match and no colour/preservative/sweetener class, a natural class or name |
| RiskClassifier.OrangeExactly | create_additives_sqlite.py:153-253 | ORANGE exactly for a moderate code not listed as high, or with no code match, a family whose name keyword signals concern |
| RiskClassifier.ClassifyIgnoresCase | create_additives_sqlite.py:122-123 | upper-casing the classes and the name leaves the level unchanged |
| RiskClassifier.PrefixedCodesMissTheSets | create_additives_sqlite.py:149-234 | a code starting with "E" is in none of the three sets |
| RiskClassifier.PlainColourIsYellow | create_additives_sqlite.py:237-241 | a colour with no code match and no concerning name word is YELLOW |
| RiskClassifier.ManualAdditivesRisk | create_additives_sqlite.py:295-338 | the curated Curcumin and Riboflavin are YELLOW and Ascorbic acid is GREEN, through the keyword rules |
| CategoryResolver.FirstCategory | create_additives_sqlite.py:289-293 | "Other" exactly when no keyword occurs; otherwise the category of the first keyword that occurs |
| CategoryResolver.CategoryOf | create_additives_sqlite.py:269-293 | the category of a record is `FirstCategory` over its lower-cased classes: "Other" exactly when no keyword occurs, else the first hit's category |
| CategoryResolver.FindCategory | create_additives_sqlite.py:289-293 | the loop over the table returns the first hit's category, or "Other" |
| CategoryResolver.GetAdditiveCategory | create_additives_sqlite.py:269-293 | the category of a record is the first keyword hit in its lower-cased classes |
| CategoryResolver.FirstHitDecides | create_additives_sqlite.py:289-291 | when entry k is the first keyword found, its category is the result |
| CategoryResolver.MappingKeywords | create_additives_sqlite.py:273-287 | the table's order and the fact that only the two colour keywords map to "Food Colors" |
| CategoryResolver.FoodColorsExactlyColours | create_additives_sqlite.py:273-293 | "Food Colors" exactly when the classes hold colour or color, the same test the classifier uses |
| CategoryResolver.CategoryIgnoresCase | create_additives_sqlite.py:271 | upper-casing the classes leaves the category unchanged |
| CategoryResolver.ColourClassesAreFoodColors | create_additives_sqlite.py:274-275 | classes holding colour or color give "Food Colors" |
| CategoryResolver.StabiliserBeforeThickener | create_additives_sqlite.py:279-281 | "thickener stabiliser" gives Stabilizers, because stabiliser comes first in the table |
| CategoryResolver.ManualAdditivesCategory | create_additives_sqlite.py:295-338 | the curated Curcumin and Riboflavin are "Food Colors" and Ascorbic acid is "Antioxidants" |
| AdditiveStore.MakeRow | create_additives_sqlite.py:419-444 | the row carries the record's code and name, the description "Food additive " + code, and the given level, colour and category |
| AdditiveStore.Prepare | create_additives_sqlite.py:411-451 | a record yields a row exactly when it has both e_number and name, otherwise it is an error |
| AdditiveStore.PrepareAll | create_additives_sqlite.py:411 | one outcome per record of the batch |
| AdditiveStore.PrepareAllAt | create_additives_sqlite.py:411-451 | the outcome at position i is that of record i alone |
| AdditiveStore.PrepareAllAppend | create_additives_sqlite.py:643 | the outcomes of a concatenated batch are the concatenated outcomes |
| AdditiveStore.WrittenCount | create_additives_sqlite.py:446-451 | the written count is at most the batch size, and equal to it exactly when no record fails |
| AdditiveStore.Upsert | create_additives_sqlite.py:423-444 | INSERT OR REPLACE: a written row is stored under its code, which is added to the codes if new; a record that raised leaves the table unchanged |
| AdditiveStore.UpsertAll | create_additives_sqlite.py:411-451 | the rows of a batch upserted in order; `UpsertAllAt` proves each code ends with the last row written under it and every other code keeps its row |
| AdditiveStore.UpsertSnoc | create_additives_sqlite.py:423-446 | one more record upserts its row on top of the previous table and adds one to the count when written |
| AdditiveStore.InsertStep | create_additives_sqlite.py:411-451 | one loop iteration extends the table and the count from a batch prefix to the next prefix |
| AdditiveStore.LastWith | create_additives_sqlite.py:423-444 | the last row of the batch written under a code, none when nothing writes it |
| AdditiveStore.UpsertAllAt | create_additives_sqlite.py:355 | after the batch, a code holds the last row written under it; a code nothing writes keeps its old row or stays absent |
| AdditiveStore.UpsertAllIdempotent | create_additives_sqlite.py:423 | replaying the same batch leaves the table as it was |
| AdditiveStore.LastWithAppend | create_additives_sqlite.py:643 | a code written in the later part of a batch takes its row from that part |
| AdditiveStore.PreparedRowsWellFormed | create_additives_sqlite.py:420 | every written row is stored under its own code with its description |
| AdditiveStore.UpsertAllWellFormed | create_additives_sqlite.py:355 | upserting well-formed rows keeps every row under its own code |
| AdditiveStore.RowCountBound | create_additives_sqlite.py:446 | the table grows by at most the written count |
| AdditiveStore.DistinctCodesCountRows | create_additives_sqlite.py:446 | with no repeated code, the number of rows equals the written count |
| AdditiveStore.RepeatedCodeLosesRows | create_additives_sqlite.py:423-446 | once a code is written twice, the table gains fewer rows than the written count |
| AdditiveStore.TotalEqualsRowsIffDistinct | create_additives_sqlite.py:423-457 | into an empty table, the stored total equals the number of rows exactly when no code repeats |
| AdditiveStore.TotalCountsReplacements | create_additives_sqlite.py:446 | writing the same code twice counts 2 but leaves 1 row |
| AdditiveStore.MissingRequiredEmpty | create_additives_sqlite.py:610 | no row is reported missing exactly when every row has a non-empty code and name |
| AdditiveStore.Validate | create_additives_sqlite.py:586-625 | an error exactly when the table is missing; otherwise no duplicates, the missing-field report, and exactly the stored levels outside the four |
| SqliteCreator.Assess | create_additives_sqlite.py:413-417 | each record gets one of the four pairs, a level among the expected ones, its colour in lower case |
| SqliteCreator.SameInputsSameAssessment | create_additives_sqlite.py:121-123 | records agreeing on code, classes and name get the same assessment |
| SqliteCreator.AssessedRowClassified | create_additives_sqlite.py:413-444 | a row's stored level, colour and category are what its own stored code, name and classes assess to |
| SqliteCreator.ClassifiedValidates | create_additives_sqlite.py:616-622 | a table whose rows agree with their assessment validates with no unexpected level |
| SqliteCreator.PrepareRow | create_additives_sqlite.py:411-444 | the loop body with the classifier and the category calls builds the modelled row, which agrees with its assessment |
| SqliteCreator.AllAdditivesWritten | create_additives_sqlite.py:639-646 | every record of the pipeline's batch is written, so the stored total is the normalised count plus three |
| SqliteCreator.AllAdditives | create_additives_sqlite.py:643 | the pipeline's batch is the normalised taxonomy followed by the curated records; `AllAdditivesWritten` and `CuratedRowsWin` state what inserting it stores |
| SqliteCreator.ManualRowsShow | create_additives_sqlite.py:295-338 | the curated rows show Curcumin and Riboflavin YELLOW "Food Colors" and Ascorbic acid GREEN "Antioxidants" |
| SqliteCreator.CuratedRowsWin | create_additives_sqlite.py:643 | whatever the taxonomy holds, the rows under E100, E101 and E300 are the curated ones |
| SqliteCreator.PreparedRowsClassified | create_additives_sqlite.py:411-444 | every row the batch writes agrees with its assessment |
| SqliteCreator.UpsertAllClassified | create_additives_sqlite.py:423 | upserting rows that agree with their assessment keeps the whole table agreeing |
| SqliteCreator.InsertedRowsValid | create_additives_sqlite.py:401-451 | inserting a batch keeps every row well formed and agreeing with its assessment |
| SqliteCreator.AdditivesDatabase.constructor | create_additives_sqlite.py:34-36 | a fresh database has no table and no rows |
| SqliteCreator.AdditivesDatabase.CreateDatabaseSchema | create_additives_sqlite.py:340-399 | the table is recreated empty, with metadata version "1.0", total "0" and the two data sources |
| SqliteCreator.AdditivesDatabase.UpsertEach | create_additives_sqlite.py:411-451 | the loop leaves the table equal to the batch upserted in order, counts writes and errors that add up to the batch size, and touches nothing else |
| SqliteCreator.AdditivesDatabase.InsertAdditivesData | create_additives_sqlite.py:401-464 | the table after the loop, the two counts, total_additives = str(inserted), and the table stays well formed and agreeing with its assessment |
| SqliteCreator.AdditivesDatabase.CreateKmpReadyDatabase | create_additives_sqlite.py:627-667 | success exactly when the taxonomy is present and non-empty; then the table is the normalised records followed by the curated ones, the total is their count, and validation passes with no unexpected level; on failure nothing changes |
| KmpIntegration.ColorsDistinct | KMP_Integration_Example.kt:150-155 | two levels share a colour exactly when they are the same level |
| KmpIntegration.Find | KMP_Integration_Example.kt:173 | `values().find`: the first level with the colour, null when there is none |
| KmpIntegration.FromColor | KMP_Integration_Example.kt:173-174 | the level whose colour is the stored string, or YELLOW when no level has that colour |
| KmpIntegration.FromColorSpec | KMP_Integration_Example.kt:173-174 | the lookup gives the level with that colour, and YELLOW for any other string |
| KmpIntegration.FromColorInverse | KMP_Integration_Example.kt:173-174 | each level is found again from its own colour |
| KmpIntegration.StoredColorsReadBack | KMP_Integration_Example.kt:150-155 | every colour the generator stores reads back as the enum constant named by its level, never through the fallback |
| KmpIntegration.Where | KMP_Integration_Example.kt:37-64 | a WHERE query returns exactly the rows that satisfy the clause, each as often as it is stored |
| KmpIntegration.GetByENumber | KMP_Integration_Example.kt:37-38 | a row with the code when one exists, null exactly when none does |
| KmpIntegration.GetByRiskLevel | KMP_Integration_Example.kt:40-41 | exactly the rows whose colour column equals the argument |
| KmpIntegration.GetVegetarianFriendly | KMP_Integration_Example.kt:57-58 | exactly the rows whose vegetarian column is "yes"; NULL never is |
| KmpIntegration.GetVeganFriendly | KMP_Integration_Example.kt:60-61 | exactly the rows whose vegan column is "yes"; NULL never is |
| KmpIntegration.GetByCategory | KMP_Integration_Example.kt:63-64 | exactly the rows whose category equals the argument; NULL never does |
| KmpIntegration.GetAdditiveByENumber | KMP_Integration_Example.kt:120-122 | a row stored under the upper-cased code when one exists, null exactly when none does |
| KmpIntegration.GetAdditivesByRiskLevel | KMP_Integration_Example.kt:124-126 | exactly the rows stored with the level's colour |
| KmpIntegration.SearchForIngredientScanning | KMP_Integration_Example.kt:167-181 | Found exactly when a row has the upper-cased code; NotFound keeps the code as typed; a found row is rated by its colour, YELLOW when no level has it, and flagged vegetarian or vegan exactly when its column is "yes" |
| KmpIntegration.SearchIgnoresCase | KMP_Integration_Example.kt:120-122 | searching the upper-cased code finds the same row |
| KmpIntegration.GetHealthyAlternatives | KMP_Integration_Example.kt:183-189 | nothing for GREEN; otherwise exactly the rows coloured "green", each reading back as GREEN, a strictly lower severity than the current level |

## Left out

- `download_openfoodfacts_data` (HTTP, timeout, saving the raw JSON): the parsed taxonomy is an input, and a failed download is `None`.
- Logging, `generate_statistics`, `export_sample_queries`, `main` and the command line: output only.
- SQLite engine details are not modelled: the AUTOINCREMENT `id`, the `created_at`/`updated_at` timestamps, the indexes, and the deletion of an existing file. The table is a map keyed by `e_number`, which is UNIQUE.
- `datetime.now()` is the parameter `now`, one value for the whole run.
- Exceptions other than a missing `e_number` or `name` key are not modelled. The records are string-to-string maps, so `str(...)` of a non-string value never arises.
- `efsa_eval` is read by the classifier and never used, so it is not modelled.
- SqliteCreator.AdditivesDatabase.InsertAdditivesData: requires the schema step to have run. Without it the source counts every record as an error and then raises on the metadata update; the model does not follow that path.
- SqliteCreator.AdditivesDatabase.CreateKmpReadyDatabase: the try/except around the steps is not modelled. Statistics and the export are left out, so only a missing or empty taxonomy fails.
- Text.Lower, Text.Upper: case mapping covers ASCII letters only. Python's `lower()` and Kotlin's `uppercase()` map all of Unicode. So `ClassifyIgnoresCase`, `CategoryIgnoresCase` and `SearchIgnoresCase` hold only under the ASCII mapping: with Python's own mapping, a colour named "artıficial red" (dotless ı) stays YELLOW, yet after `.upper().lower()` it reads "artificial red" and rates ORANGE.
- The Kotlin side has:
  - no Room annotations, `Flow` or coroutines;
  - no ORDER BY: query results keep table order;
  - no LIKE-based `searchByName`;
  - no statistics queries and no `RiskStatistic.percentage`;
  - no `getAllAdditives` or `getTotalCount`.
- The repository's `getVegetarianAdditives` and `getVeganAdditives` only forward to the DAO. They are covered by `GetVegetarianFriendly` and `GetVeganFriendly`.
- The Kotlin entity's columns (`name_en`, `name_vi`, `description_en`, ...) are modelled as the Kotlin code declares them. They are not reconciled with the generator's schema; only the `risk_color` values are related (`StoredColorsReadBack`).
