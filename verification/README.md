# Verified model of the analytics reference architecture

This project models the parts of the analytics reference architecture that compute something, and proves what
they guarantee. Most modules stand for one component:

- **The streaming job** (`Records`, `Operators`, `Joiners`, `Pairing`, `Keyed`, `Pipeline`). Customers are joined
  with addresses, and sales with billing customer, shipping customer, item and promo. Each operator is a class
  with the state fields of one key, proved against a step function; the job is a state machine over the operators
  and their channels. `Conservation`, `Enrichment`, `Feasibility`, `Confluence` and `Progress` hold the results
  over all runs, `BatchJoin` the relational join that the job refines. `OrderOfArrival` says exactly when a single
  operator does not depend on the order of arrival, and `Divergence` exactly when the whole job does not.
- **The batch replayer** (`Windows`, `Replay`, `Decimal`, `FileSplit`, `WriteInBatch`): the trigger schedule, the
  two filters, the split into files and their names, and the write handler.
- **The latest-version query** (`StarQuery`): the Athena query clause by clause, with NULLs and ties, against the
  direct choice of the newest rows.
- **Smaller components**: the bucket and key registry (`Registry`), the Flyway lambda (`Flyway`), the EMR data
  generation (`Datagen`), the maps of the request signer (`Signer`), notebook users (`Notebook`), the Kinesis
  sender (`Kinesis`) and the parsers built on `String.split` (`SplitParsers`).

How the model stands for the code:

- A channel of the streaming job delivers its records in any order. This covers first-in first-out channels,
  every interleaving and every repartitioning between parallel instances. All records are in the source channels
  at the start; every finite run of an unbounded job reads a finite part of its sources.
- Records are values. The Java operators set a field of the sale and emit the same object.
- A null string id is an ordinary key. The key of each operator is an id or a number, and a stage number from 0 to
  3 stands for the billing, shipping, item and promo join.
- Times are whole microseconds, triggers fire at whole minutes, and sizes and quotients are exact integers. The
  frequency is positive because zero is replaced by 60. A cron step above 59 fires at minute 0 only.
- The write handler measures its sizes on files with the index column and writes files without it, so measured
  and written sizes are different parameters.
- The sizes in the write handler, `isoformat`, the faults of each step and the order of map entries are
  parameters. `isoformat` is taken to be injective and to write no slash.
- Header names are compared after folding ASCII letters.
- An endpoint is identified by its place in the order of creation.

Where the code and its comments differ, the model follows the code:

- The write handler writes no file when nothing is selected, although a comment says that it writes an empty one
  (write-in-batch.py, lines 179-183).
- The windows overlap when the cron step does not divide the hour, and leave gaps when the frequency is less than
  an hour and not whole minutes (batch-replayer.ts, line 254). `Windows.DisjointIff` and `Windows.GaplessIff` say
  exactly when.
- The file split needs at least one row to fit in a file; otherwise the handler fails. `WriteInBatch.Handler`
  says exactly when.
- The list of endpoint ARNs passed for a user also holds those of the users before it in the same call
  (notebook-platform.ts, lines 358-464), although each policy is meant for its user's endpoints (lines 379-380).
  `Notebook.ListHoldsOnlyOwnIff` says exactly when it holds no others.
- A file of rows bigger than the first one can exceed the byte limit (write-in-batch.py, lines 60-61), although
  the index column in the measured sizes leaves some room. `FileSplit.LimitKeptIff` says exactly when the limit
  is kept.
- A policy's resource array gets an undefined slot when the list repeats an ARN before a new one
  (notebook-platform-helpers.ts, lines 50-53). `Notebook.UserPolicyHoleIff` says exactly when.
- The result of the streaming job depends on the order of arrival for some inputs. `Divergence.ConfluentIff` says
  exactly for which.
- Asking for the log bucket with a log prefix, or for a bucket under the name of the default key with KMS
  encryption, fails when it is missing: its own construction has taken the id. `Registry.OneRequest` says exactly
  when.
- The error handler of the data generation needs a cluster id that is not there when configuration or creation
  failed; it then fails, with no cluster running. `Datagen.CaughtFailureEnds` says exactly when.

## Model

| member | source | states |
|---|---|---|
| `Joiners.SaleCustomerJoiner.ProcessElement1` | refarch/aws-native/streaming/stream-processing/src/main/java/com/amazonaws/ara/streaming/operators/SaleCustomerJoiner.java:21-28 | a sale waits while the key has no customer and is otherwise collected with it; the whole new state and output |
| `Joiners.SaleCustomerJoiner.ProcessElement2` | refarch/aws-native/streaming/stream-processing/src/main/java/com/amazonaws/ara/streaming/operators/SaleCustomerJoiner.java:31-39 | a customer replaces the stored one, releases every waiting sale in order with itself attached, and empties the list |
| `Joiners.SaleItemJoiner.ProcessElement1` | refarch/aws-native/streaming/stream-processing/src/main/java/com/amazonaws/ara/streaming/operators/SaleItemJoiner.java:39-46 | the same for a sale at the item join |
| `Joiners.SaleItemJoiner.ProcessElement2` | refarch/aws-native/streaming/stream-processing/src/main/java/com/amazonaws/ara/streaming/operators/SaleItemJoiner.java:49-57 | the same for an item |
| `Joiners.SalePromoJoiner.ProcessElement1` | refarch/aws-native/streaming/stream-processing/src/main/java/com/amazonaws/ara/streaming/operators/SalePromoJoiner.java:39-48 | a sale without a promo id is handed on at once and touches no state; others wait or are enriched |
| `Joiners.SalePromoJoiner.ProcessElement2` | refarch/aws-native/streaming/stream-processing/src/main/java/com/amazonaws/ara/streaming/operators/SalePromoJoiner.java:51-59 | a promo releases the waiting sales in order |
| `Operators.ClosedForm` | refarch/aws-native/streaming/stream-processing/src/main/java/com/amazonaws/ara/streaming/operators/SaleCustomerJoiner.java:21-39 | a run on one key: nothing comes out before the first record; then all sales in order of arrival, each with the newest record before it or, if it waited, the first; the final state is the last record with an empty list, or all sales |
| `Operators.NullPromoPassesThrough` | refarch/aws-native/streaming/stream-processing/src/main/java/com/amazonaws/ara/streaming/operators/SalePromoJoiner.java:40-41 | for sales without a promo id the promo join is the identity, whatever promos arrive under the null key |
| `Keyed.Projection` | refarch/aws-native/streaming/stream-processing/src/main/java/com/amazonaws/ara/streaming/StreamingJob.java:85-106 | keys do not interfere: what a keyed run leaves and collects under a key is what one instance does that sees only the events of the key |
| `KeyedJoins.KeyedClosedForm` | refarch/aws-native/streaming/stream-processing/src/main/java/com/amazonaws/ara/streaming/StreamingJob.java:85-106 | the closed form for every stream and every key of a keyed join |
| `KeyedJoins.NullPromoKey` | refarch/aws-native/streaming/stream-processing/src/main/java/com/amazonaws/ara/streaming/StreamingJob.java:103-106 | sales without a promo id leave the keyed promo join unchanged and in order |
| `JoinOrder.OrderFreeIff` | refarch/aws-native/streaming/stream-processing/src/main/java/com/amazonaws/ara/streaming/operators/SaleCustomerJoiner.java:21-39 | what one key of a buffered join collects is the same in every order of arrival iff no sale arrives or all records of the key are equal |
| `Pairing.CustomerAddressJoiner.ProcessElement1` | refarch/aws-native/streaming/stream-processing/src/main/java/com/amazonaws/ara/streaming/operators/CustomerAddressJoiner.java:37-47 | a customer takes the waiting address and clears it, or is stored; at most one cell stays full |
| `Pairing.CustomerAddressJoiner.ProcessElement2` | refarch/aws-native/streaming/stream-processing/src/main/java/com/amazonaws/ara/streaming/operators/CustomerAddressJoiner.java:50-60 | an address takes the waiting customer and clears it, or is stored |
| `Pairing.OneShot` | refarch/aws-native/streaming/stream-processing/src/main/java/com/amazonaws/ara/streaming/operators/CustomerAddressJoiner.java:36-60 | every run of one key: at most one cell is full, and the arrivals are, as a multiset, those used in pairs, the one pending and those overwritten; their number is twice the pairs plus those |
| `Pairing.KeyedOneShot` | refarch/aws-native/streaming/stream-processing/src/main/java/com/amazonaws/ara/streaming/StreamingJob.java:77-83 | the same for every key of the keyed joiner, whose pairs agree on the address id |
| `PairOrder.PairsOrderFreeIff` | refarch/aws-native/streaming/stream-processing/src/main/java/com/amazonaws/ara/streaming/operators/CustomerAddressJoiner.java:36-60 | the pairs made under one address id are the same in every order of arrival iff one side is empty, or one side is a single record and the other holds equal records |
| `Pipeline.NextKeepsShape` | refarch/aws-native/streaming/stream-processing/src/main/java/com/amazonaws/ara/streaming/StreamingJob.java:69-107 | every step keeps, at every stage: records sit at stages of their kind and keys of their id, waiting sales sit under their own key, and a key with a stored record has no waiting sale |
| `Conservation.StepKeepsLoad` | refarch/aws-native/streaming/stream-processing/src/main/java/com/amazonaws/ara/streaming/StreamingJob.java:85-106 | one step of any operator keeps the total value of the sales, for every valuation that enrichment respects |
| `Conservation.NoSaleLostOrDuplicated` | refarch/aws-native/streaming/stream-processing/src/main/java/com/amazonaws/ara/streaming/StreamingJob.java:85-106 | in every reachable state, with no assumption on ids: sales received are, as a multiset, those collected plus those in each channel plus those in each of the four buffers |
| `Enrichment.StepSound` | refarch/aws-native/streaming/stream-processing/src/main/java/com/amazonaws/ara/streaming/StreamingJob.java:75-106 | every step keeps: a sale before stage k carries, for each earlier stage, a record of that stage's table with the sale's own id |
| `Enrichment.FullyEnriched` | refarch/aws-native/streaming/stream-processing/src/main/java/com/amazonaws/ara/streaming/StreamingJob.java:75-106 | every sale collected in any run, with no assumption on ids: both customers are source customers with all their fields, the source address that they name attached, and their birth date or, for lack of one, the first day of 1970; it has the item of its id and, when it names one, a promo of its id, from the sources |
| `Enrichment.PromoAbsentIffUnnamed` | refarch/aws-native/streaming/stream-processing/src/main/java/com/amazonaws/ara/streaming/operators/SalePromoJoiner.java:39-59 | when sales arrive without a promo, a collected sale has none iff it names none |
| `BatchJoin.CustomerTableHas` | refarch/aws-native/streaming/stream-processing/src/main/java/com/amazonaws/ara/streaming/StreamingJob.java:77-83 | the customer table of the join holds exactly the source customers with the source addresses they name, field by field, with the birth date or, for lack of one, the first day of 1970 |
| `BatchJoin.OneMatch` | refarch/aws-native/streaming/stream-processing/src/main/java/com/amazonaws/ara/streaming/StreamingJob.java:85-106 | with unique keys the relational join of one sale with a table is the sale enriched with its one match |
| `Confluence.StepKeepsComplete` | refarch/aws-native/streaming/stream-processing/src/main/java/com/amazonaws/ara/streaming/StreamingJob.java:75-106 | every step keeps: a customer that a collectable sale names, and its address, are still on their way, waiting for each other, or joined with a record on the way to, or stored in, both customer joins; likewise items and promos |
| `Confluence.EveryRunComputesTheJoin` | refarch/aws-native/streaming/stream-processing/src/main/java/com/amazonaws/ara/streaming/StreamingJob.java:69-107 | with unique ids, every run that drains the channels collects, as a multiset, the relational join of the sales with customers and addresses (twice), items and promos, sales without a promo id kept |
| `Confluence.Confluent` | refarch/aws-native/streaming/stream-processing/src/main/java/com/amazonaws/ara/streaming/StreamingJob.java:69-107 | with unique ids, any two runs that drain the channels collect the same multiset |
| `Confluence.EveryRunLooksUp` | refarch/aws-native/streaming/stream-processing/src/main/java/com/amazonaws/ara/streaming/StreamingJob.java:69-107 | when every sale that can be collected at all has equal records at each stage and customers without rivals for their address, every draining run collects exactly these sales, each enriched by its records |
| `Feasibility.CollectedIsFeasible` | refarch/aws-native/streaming/stream-processing/src/main/java/com/amazonaws/ara/streaming/StreamingJob.java:69-107 | with no assumption on ids, a collected sale has an item and a promo to match and two customers that can both be joined: they are the same, have different address ids, or there are two addresses of their id |
| `Feasibility.CollectedFrom` | refarch/aws-native/streaming/stream-processing/src/main/java/com/amazonaws/ara/streaming/StreamingJob.java:85-106 | a collected sale has the ids and details of a source sale |
| `Feasibility.MatchesUseAddresses` | refarch/aws-native/streaming/stream-processing/src/main/java/com/amazonaws/ara/streaming/operators/CustomerAddressJoiner.java:36-60 | in any run an address id makes at most as many pairs as it has addresses |
| `Divergence.CollectableIff` | refarch/aws-native/streaming/stream-processing/src/main/java/com/amazonaws/ara/streaming/StreamingJob.java:69-107 | with no assumption on ids, a source sale is collected in some draining run iff it is so feasible |
| `Divergence.ConfluentIff` | refarch/aws-native/streaming/stream-processing/src/main/java/com/amazonaws/ara/streaming/StreamingJob.java:69-107 | for all inputs, with no assumption on ids: all draining runs collect the same multiset iff every feasible sale has, at each stage, records of its id that are all equal, and no different customer shares the address id of its customers where there is an address |
| `Divergence.CarryRun` | refarch/aws-native/streaming/stream-processing/src/main/java/com/amazonaws/ara/streaming/operators/SaleCustomerJoiner.java:31-39 | from a state where no sale has moved, any record on its way to a stage can come to be carried by all collected sales of its key |
| `Progress.NotStuck` | refarch/aws-native/streaming/stream-processing/src/main/java/com/amazonaws/ara/streaming/StreamingJob.java:69-107 | as long as a channel holds something some operator can take it |
| `Progress.EverySchedulerDrains` | refarch/aws-native/streaming/stream-processing/src/main/java/com/amazonaws/ara/streaming/StreamingJob.java:69-107 | every scheduler that picks enabled steps empties all channels after finitely many |
| `Progress.EverySchedulerComputesTheJoin` | refarch/aws-native/streaming/stream-processing/src/main/java/com/amazonaws/ara/streaming/StreamingJob.java:69-107 | so every scheduler ends with the relational join |
| `Windows.DisjointIff` | core/src/data-generator/batch-replayer.ts:254 | over the unbounded run of triggers no instant is selected twice iff the cron step ceil(frequency / 60) divides the hour |
| `Windows.GaplessIff` | core/src/data-generator/batch-replayer.ts:254 | no instant is left out iff the frequency is whole minutes or at least an hour |
| `Windows.PartitionIff` | core/src/data-generator/batch-replayer.ts:254 | every instant is selected by exactly one trigger iff the frequency is whole minutes and its cron step divides the hour |
| `Windows.ShiftedIs` | core/src/data-generator/resources/lambdas/write-in-batch/write-in-batch.py:166 | a shifted time is the last whole second not after the time plus the offset |
| `Windows.ShiftedIntoPeriod` | core/src/data-generator/resources/lambdas/write-in-batch/write-in-batch.py:31-36 | an instant is selected by a trigger iff, shifted by the offset and cut to whole seconds, it lies from the trigger to the frequency after it |
| `Replay.SelectFiles` | core/src/data-generator/resources/lambdas/find-file-paths/find-file-paths.py:28-31 | the manifest filter returns exactly the files that start in the window, ordered by start |
| `Replay.OneTriggerReplays` | core/src/data-generator/resources/lambdas/find-file-paths/find-file-paths.py:34-79 | one trigger replays, as a multiset, exactly the rows in its window in files that start in its window |
| `Replay.ReplaysTheAlignedRows` | core/src/data-generator/resources/lambdas/write-in-batch/write-in-batch.py:39-54 | over any series of disjoint triggers: the rows that lie in one of the windows together with the start of their file |
| `Replay.NoRowTwice` | core/src/data-generator/resources/lambdas/write-in-batch/write-in-batch.py:39-54 | no row is replayed twice, whatever the manifest says |
| `Replay.CompleteIff` | core/src/data-generator/resources/lambdas/find-file-paths/find-file-paths.py:28-30 | all rows in the windows are replayed iff each lies in the same window as the start of its file |
| `Replay.ConsecutiveReplay` | core/src/data-generator/batch-replayer.ts:254 | consecutive firings, when the cron step divides the hour, replay exactly once every row with a time from the start of the first window to the end of the last that is in the same window as the start of its file |
| `Replay.ConsecutiveReplayAllIff` | core/src/data-generator/resources/lambdas/write-in-batch/write-in-batch.py:49-54 | with whole minutes, they replay exactly once every row with such a time iff each lies in the same window as the start of its file |
| `Replay.ScheduledAreSeparate` | core/src/data-generator/batch-replayer.ts:254 | the triggers of one replayer are disjoint when its cron step divides the hour |
| `FileSplit.PartsAre` | core/src/data-generator/resources/lambdas/write-in-batch/write-in-batch.py:177 | the balanced split gives the number of parts asked for, in order, with the sizes of np.array_split |
| `FileSplit.SplitFits` | core/src/data-generator/resources/lambdas/write-in-batch/write-in-batch.py:87-92 | a non-empty frame of rows written no bigger than the measured one is split into non-empty files within the byte limit, as few as row_per_file allows, that concatenate to it |
| `FileSplit.FloorDivIs` | core/src/data-generator/resources/lambdas/write-in-batch/write-in-batch.py:89-91 | row_per_file and the number of files are the whole numbers next to the quotients, for either sign |
| `WriteInBatch.FitsOneRowIff` | core/src/data-generator/resources/lambdas/write-in-batch/write-in-batch.py:87-91 | for a row that has a size, the split succeeds iff the header and one row are within the limit as measured |
| `WriteInBatch.FrameOne` | core/src/data-generator/resources/lambdas/write-in-batch/write-in-batch.py:49-54 | a row is written iff its time, later by the offset, is in the period that starts with the trigger; each listed column is later by the offset and cut to whole seconds, the others and the rest of the row stay |
| `WriteInBatch.FrameConcat` | core/src/data-generator/resources/lambdas/write-in-batch/write-in-batch.py:158-166 | so the frame that is written is the rows of the file in the period, in order |
| `FileSplit.LimitKeptIff` | core/src/data-generator/resources/lambdas/write-in-batch/write-in-batch.py:78-92 | for sizes measured with the index column and sizes written without it: the byte limit is kept on all frames that start with a given row and have rows written up to a biggest size iff row_per_file rows of that size, with the written header, are within it |
| `FileSplit.MeasuredSuffices` | core/src/data-generator/resources/lambdas/write-in-batch/write-in-batch.py:84-92 | so it is kept when no row is written bigger than the first was measured, and the header no bigger than it was measured |
| `FileSplit.IndexLeavesRoom` | core/src/data-generator/resources/lambdas/write-in-batch/write-in-batch.py:113-117 | sizes for which rows bigger than the first stay within the limit, and still bigger ones do not |
| `FileSplit.NamesDistinct` | core/src/data-generator/resources/lambdas/write-in-batch/write-in-batch.py:169-171 | two output names are equal only if window, file index and part index are |
| `FileSplit.NameExample` | core/src/data-generator/resources/lambdas/write-in-batch/write-in-batch.py:100-110 | the example of the documentation, and another |
| `WriteInBatch.PathPrefixLabels` | core/src/data-generator/resources/lambdas/write-in-batch/write-in-batch.py:168-171 | the start label is the trigger's own time and the end label the frequency after it, whatever the offset |
| `WriteInBatch.OutputsDistinct` | core/src/data-generator/resources/lambdas/write-in-batch/write-in-batch.py:168-171 | two files of any two invocations share a name iff trigger time, frequency, file index and part are the same |
| `Decimal.PadShape` | core/src/data-generator/resources/lambdas/write-in-batch/write-in-batch.py:110 | a padded number that is wider than asked for has no leading zero |
| `Decimal.PadInjective` | core/src/data-generator/resources/lambdas/write-in-batch/write-in-batch.py:110 | zero-padded numbers of different values differ, also beyond the padding width |
| `WriteInBatch.WriteAll` | core/src/data-generator/resources/lambdas/write-in-batch/write-in-batch.py:107-118 | one file per part, named by its position |
| `WriteInBatch.AdjustColumns` | core/src/data-generator/resources/lambdas/write-in-batch/write-in-batch.py:164-166 | each listed column is shifted by the offset once for every time it is listed and cut to seconds; a missing column fails; other columns stay |
| `WriteInBatch.Handler` | core/src/data-generator/resources/lambdas/write-in-batch/write-in-batch.py:121-190 | succeeds iff the columns exist and, unless nothing is selected, a row fits in a file; the files hold the selected rows, adjusted, in order, evenly split into the least number of files that row_per_file allows, each named by its position and not empty, and are within the byte limit when row_per_file of the biggest rows, as they are written, are; with nothing selected one path is reported and no file written |
| `StarQuery.JoinNewestIsNewest` | refarch/aws-native/common/common_cdk/config.py:251-258 | the group-by-max subquery and its self-join give exactly the newest rows of the key, in order, ties included, NULLs excluded |
| `StarQuery.SaleMultiplicity` | refarch/aws-native/common/common_cdk/config.py:249-285 | for all tables each combination of a newest customer row, newest address row of that customer row, newest item row and newest store row is returned for its sale as often as the product of how often these rows occur; nothing else is returned, and the total is the product over the ties |
| `StarQuery.OnceIffAllExist` | refarch/aws-native/common/common_cdk/config.py:249-285 | when ids and times identify versions: at most once, and exactly once iff customer, address of its newest version, item and store exist |
| `StarQuery.QueryPicksNewest` | refarch/aws-native/common/common_cdk/config.py:249-285 | for all tables the query returns what picking the newest rows directly returns |
| `Registry.App.BucketGetOrCreate` | core/src/ara-bucket.ts:188-195 | the recursion between lookup, constructor and log bucket terminates and does what GetOrCreate says |
| `Registry.App.NewBucket` | core/src/ara-bucket.ts:204-235 | the constructor: log bucket, then key, then registration, which refuses an id already taken |
| `Registry.App.SingletonKey` | core/src/singleton-kms-key.ts:17-28 | the key of the stack or of its parent, or a new one in the stack |
| `Registry.BucketLookup` | core/src/ara-bucket.ts:192-194 | the stack's own bucket of the name, else that of the stack it is nested in, both without change, else a new one in the stack itself |
| `Registry.KeyLookup` | core/src/singleton-kms-key.ts:22-27 | the same for the key |
| `Registry.CreatedBucketIs` | core/src/ara-bucket.ts:206-234 | a created bucket is named after its id except for the log bucket, encrypted as asked for or by the managed key, and logs to the given bucket or to an access-log bucket iff a prefix that is not empty was given |
| `Registry.LogBucketIs` | core/src/ara-bucket.ts:208 | the access-log bucket that the first log prefix creates |
| `Registry.NestedSharesBucket` | core/src/ara-bucket.ts:192 | once a stack was answered with its own bucket, a nested stack with none of its own gets that bucket ever after |
| `Registry.OneRequest` | core/src/ara-bucket.ts:188-235 | for every tree and request: all earlier answers stay; it fails iff the bucket is missing and its own construction takes its name; an answered name is found again |
| `Registry.SameBucketEverAfter` | core/src/ara-bucket.ts:188-195 | over any series of requests a stack gets the same bucket for a name ever after |
| `Registry.AnswersAreBuckets` | core/src/ara-bucket.ts:206-209 | for names other than the key's the answer is a bucket of that name in the stack or its parent, and one created with a log prefix logs to an access-log bucket that stood before it |
| `Registry.CreatedWithKey` | core/src/ara-bucket.ts:212-222 | a created bucket has a customer managed key iff KMS encryption is asked for: the given one or the shared default |
| `Registry.PhysicalNamesDiffer` | core/src/ara-bucket.ts:215 | different ids give different physical names; only the log bucket has none |
| `Flyway.FlywayLambda.HandleRequest` | core/src/db-schema-manager/resources/flyway-lambda/src/main/java/com/geekoosh/flyway/FlywayHandler.java:23-66 | the handler with its finally does what Handle says, on every combination of faults |
| `Flyway.FlywayLambda.Clone` | core/src/db-schema-manager/resources/flyway-lambda/src/main/java/com/geekoosh/lambda/git/GitService.java:48-80 | an existing directory is deleted first; what each failure leaves behind |
| `Flyway.FlywayLambda.PrepareFiles` | core/src/db-schema-manager/resources/flyway-lambda/src/main/java/com/geekoosh/lambda/git/GitService.java:166-176 | a repository is pulled in reuse mode when it can be opened and cloned otherwise; S3 files are downloaded |
| `Flyway.FlywayLambda.CleanFiles` | core/src/db-schema-manager/resources/flyway-lambda/src/main/java/com/geekoosh/lambda/git/GitService.java:187-195 | the source directory is deleted except for a git source in reuse mode |
| `Flyway.FlywayLambda.CallFlyway` | core/src/db-schema-manager/resources/flyway-lambda/src/main/java/com/geekoosh/flyway/FlywayService.java:243-270 | the requested method, then info; migrating without folders fails before Flyway runs |
| `Flyway.SourceChosen` | core/src/db-schema-manager/resources/flyway-lambda/src/main/java/com/geekoosh/flyway/FlywayHandler.java:41-45 | a bucket goes before a repository; with neither nothing is prepared or cleaned |
| `Flyway.PreparesIff` | core/src/db-schema-manager/resources/flyway-lambda/src/main/java/com/geekoosh/lambda/git/GitService.java:140-146 | a prepare succeeds iff the download does; or in reuse mode, with a repository there, the pull; or else the deletion of the old directory, the new one and the clone; and then the checkout of a commit |
| `Flyway.FlywayCalls` | core/src/db-schema-manager/resources/flyway-lambda/src/main/java/com/geekoosh/flyway/FlywayService.java:243-270 | Flyway is made to run the method, then info; info alone once; nothing after a failed method or to migrate without a source |
| `Flyway.ReuseKeepsRepo` | core/src/db-schema-manager/resources/flyway-lambda/src/main/java/com/geekoosh/lambda/git/GitService.java:187-195 | in reuse mode a repository that was prepared, or was there before, stays, whatever else fails |
| `Flyway.LeavesIff` | core/src/db-schema-manager/resources/flyway-lambda/src/main/java/com/geekoosh/lambda/git/GitService.java:187-195 | exactly when a request leaves the directory of its source behind, and that the clean succeeds iff in reuse mode or the directory is gone |
| `Flyway.RepoStays` | core/src/db-schema-manager/resources/flyway-lambda/src/main/java/com/geekoosh/lambda/git/GitService.java:166-195 | a repository stays over any series of requests that use it in reuse mode or not at all |
| `Flyway.CleanedExactlyOnce` | core/src/db-schema-manager/resources/flyway-lambda/src/main/java/com/geekoosh/flyway/FlywayHandler.java:58-65 | whatever fails, the chosen source is cleaned exactly once and last; with none chosen nothing is cleaned |
| `Flyway.EngineOnlyWhenPrepared` | core/src/db-schema-manager/resources/flyway-lambda/src/main/java/com/geekoosh/flyway/FlywayHandler.java:41-52 | Flyway runs only after a successful prepare or with no source, and migrates only with a source |
| `Flyway.RespondsIffAllDone` | core/src/db-schema-manager/resources/flyway-lambda/src/main/java/com/geekoosh/flyway/FlywayHandler.java:52-65 | a response is returned iff every step taken succeeded and the final info was reached |
| `Flyway.TraceFollows` | core/src/db-schema-manager/resources/flyway-lambda/src/main/java/com/geekoosh/flyway/FlywayHandler.java:41-65 | over any series of requests and faults the effects keep the order prepare, Flyway only when prepared, clean of the same directory; outside of that Flyway runs but does not migrate |
| `Flyway.EveryPrepareIsCleaned` | core/src/db-schema-manager/resources/flyway-lambda/src/main/java/com/geekoosh/flyway/FlywayHandler.java:46-65 | in that series every prepare is followed by a clean of its directory, with only Flyway calls in between, and none when the prepare failed |
| `Flyway.EveryCleanHasItsPrepare` | core/src/db-schema-manager/resources/flyway-lambda/src/main/java/com/geekoosh/flyway/FlywayHandler.java:58-65 | and there are as many cleans as prepares |
| `Flyway.OneRequestDirs` | core/src/db-schema-manager/resources/flyway-lambda/src/main/java/com/geekoosh/lambda/git/GitService.java:187-195 | a request touches no directory but its source's, and removes that unless reuse mode or a failed deletion keeps it |
| `Flyway.LeftOverOnlyByReuseOrFault` | core/src/db-schema-manager/resources/flyway-lambda/src/main/java/com/geekoosh/lambda/git/GitService.java:166-195 | over any series of requests and faults: a directory exists between requests only if a request may have left it by reuse or failed deletion, and none cleaned it since |
| `Flyway.NothingLeft` | core/src/db-schema-manager/resources/flyway-lambda/src/main/java/com/geekoosh/lambda/s3/S3Service.java:90-96 | without reuse and failed deletions nothing is left between requests |
| `Datagen.NextKeepsInv` | refarch/aws-native/common/common_cdk/batch_data_generator.py:272-332 | every step of any execution keeps: the iterator counts completed updates, and each phase fixes what its cluster can be |
| `Datagen.IteratorCountsUpdates` | refarch/aws-native/common/common_cdk/batch_data_generator.py:314-326 | for any number of interleaved executions the iterator is the number of completed updates, at most that of successful data steps |
| `Datagen.CaughtFailureEnds` | refarch/aws-native/common/common_cdk/batch_data_generator.py:169-173 | an execution that ended, not by time-out, ended by the error handler's own failure for want of a cluster id iff the failure of configuration or creation was caught, with no cluster running; a caught data step ends in the intended failure or in a failed termination |
| `Datagen.ErrorHandlerFails` | refarch/aws-native/common/common_cdk/batch_data_generator.py:270 | a run in which the creation fails and so does the error handler |
| `Datagen.SuccessfulExecution` | refarch/aws-native/common/common_cdk/batch_data_generator.py:328-332 | without faults an execution started in any state of the system ends with its cluster gone and the iterator one higher |
| `Datagen.FailureIsCaughtIff` | refarch/aws-native/common/common_cdk/batch_data_generator.py:270-309 | a failure of configuration, creation or data step is caught, of any other state it ends the execution; nothing else changes |
| `Datagen.HandlerTerminates` | refarch/aws-native/common/common_cdk/batch_data_generator.py:169-173 | with a cluster id the error handler can terminate the cluster and end in the intended failure |
| `Datagen.LeftRunningIff` | refarch/aws-native/common/common_cdk/batch_data_generator.py:163-173 | an execution that ended, not by time-out, left its cluster running iff the update or a termination failed |
| `Signer.HeaderArrayToMap` | refarch/aws-native/streaming/stream-processing/src/main/java/com/amazonaws/ara/http/AWSRequestSigningApacheInterceptor.java:134-145 | the map holds each kept name once, ignoring case, in its first spelling with its last value |
| `Signer.MapToHeaderArray` | refarch/aws-native/streaming/stream-processing/src/main/java/com/amazonaws/ara/http/AWSRequestSigningApacheInterceptor.java:118-126 | the array lists every entry of the map once, in any order of entries |
| `Signer.RebuiltHeaders` | refarch/aws-native/streaming/stream-processing/src/main/java/com/amazonaws/ara/http/AWSRequestSigningApacheInterceptor.java:118-157 | the rebuilt headers have names distinct ignoring case, exactly those of the headers that are not host and not a content-length of 0, each in its first spelling with its last value |
| `Signer.FoldIff` | refarch/aws-native/streaming/stream-processing/src/main/java/com/amazonaws/ara/http/AWSRequestSigningApacheInterceptor.java:135 | two names are taken for one iff they differ in the case of ASCII letters only |
| `Signer.NvpToMapParams` | refarch/aws-native/streaming/stream-processing/src/main/java/com/amazonaws/ara/http/AWSRequestSigningApacheInterceptor.java:165-173 | each name, ignoring case, with its values in order; no value lost or added |
| `Notebook.NotebookPlatform.AddUser` | core/src/notebook-platform/notebook-platform.ts:354-481 | cache and lists passed are those of the endpoints of all users up to each one; in SSO mode the first identity that is neither user nor group ends the call after its policy |
| `Notebook.NotebookPlatform.AddEndpoints` | core/src/notebook-platform/notebook-platform.ts:369-435 | the loop over one user's endpoints creates those with new names and pushes an ARN for each |
| `Notebook.OneEndpointPerName` | core/src/notebook-platform/notebook-platform.ts:377-434 | over any series of endpoints: one is created per distinct name, the cached ARN is that one's, and each request gets its ARN at its place |
| `Notebook.OneOrTwo` | core/src/notebook-platform/notebook-platform.ts:375-377 | two endpoints are one iff they have the same name, the name of their policy standing in for a missing or empty one |
| `Notebook.OneEndpointOverCalls` | core/src/notebook-platform/notebook-platform.ts:354-435 | the same over any series of calls of addUser, with users that are refused |
| `Notebook.ListsStayRight` | core/src/notebook-platform/notebook-platform.ts:428-433 | a list passed in any call still names the right endpoint at each place after any further calls |
| `Notebook.ListHoldsOnlyOwnIff` | core/src/notebook-platform/notebook-platform.ts:354-464 | the list passed for a user holds ARNs of its own endpoints alone iff every endpoint of the users before it in the call is, by its name, one of its own |
| `Notebook.SecondUserGetsBoth` | core/src/notebook-platform/notebook-platform.ts:354-464 | two users with one endpoint each: the list of the second holds both ARNs |
| `Notebook.ListHoldsOwnEndpoints` | core/src/notebook-platform/notebook-platform.ts:430-433 | the list passed for a user holds the ARN of each of its endpoints |
| `Notebook.Policy.Restrict` | core/src/notebook-platform/notebook-platform-helpers.ts:50-53 | each distinct ARN is written at its first place in the list, in both statements; the other slots stay |
| `Notebook.HoleIff` | core/src/notebook-platform/notebook-platform-helpers.ts:166-169 | from one placeholder: the array has an undefined slot before a filled one iff the list repeats an ARN before a new one |
| `Notebook.UserPolicyHoleIff` | core/src/notebook-platform/notebook-platform-helpers.ts:50-53 | for the list passed for a user: iff, among the endpoints asked for in the call up to that user, a repeated name comes before a new one |
| `Notebook.ThirdUserGetsHole` | core/src/notebook-platform/notebook-platform.ts:430-433 | two users share an endpoint and a third asks for another: slot 1 of its policy is undefined |
| `Notebook.ScopedNamesExactly` | core/src/notebook-platform/notebook-platform-helpers.ts:166-169 | from one placeholder: the array names exactly the ARNs, each once, and the placeholder is gone iff there is an ARN |
| `Kinesis.LambdaHandler` | refarch/aws-native/common/common_cdk/lambda/stream_generator.py:22-55 | the calls made: for each file its reading, its batches and its deletion, in order, up to the first call that fails; the handler succeeds iff none does |
| `Kinesis.DeletedOnlyWhenSent` | refarch/aws-native/common/common_cdk/lambda/stream_generator.py:25-52 | wherever a call fails, a file has been deleted only after it and all files before it were read, sent in full and deleted, in order |
| `Kinesis.EveryFileIsDeleted` | refarch/aws-native/common/common_cdk/lambda/stream_generator.py:25-52 | wherever a call fails, the files fetched and the files deleted are a beginning of the files of the event, in order; when none fails they are all of them |
| `Kinesis.FilePlanIs` | refarch/aws-native/common/common_cdk/lambda/stream_generator.py:28-52 | a file is read first and deleted last, and in between its rows are sent, 1 to 500 in one call |
| `Kinesis.SentIsBeginning` | refarch/aws-native/common/common_cdk/lambda/stream_generator.py:34-51 | wherever a call fails, the records sent are a beginning of the rows of all files, and all of them when none fails |
| `Kinesis.SendRows` | refarch/aws-native/common/common_cdk/lambda/stream_generator.py:32-51 | the loop with its counter sends exactly the batches of the rows, up to the first call that fails |
| `Kinesis.BatchesAre` | refarch/aws-native/common/common_cdk/lambda/stream_generator.py:34-51 | the batches concatenate to the rows, have 500 records but for the last, which has 1 to 500, and are ceil(n / 500) many |
| `SplitParsers.S3RoundTripIff` | core/src/db-schema-manager/resources/flyway-lambda/src/main/java/com/geekoosh/flyway/FlywayService.java:46-50 | parsing a printed S3 URL gives bucket and key back iff the bucket has no slash, the key does not end in one, and not both are empty |
| `SplitParsers.SplitMapValues` | core/src/db-schema-manager/resources/flyway-lambda/src/main/java/com/geekoosh/flyway/request/ValueManager.java:21-32 | the loop returns the parsed map, or fails on a part without a value |
| `SplitParsers.OddPairs` | core/src/db-schema-manager/resources/flyway-lambda/src/main/java/com/geekoosh/flyway/request/ValueManager.java:27-30 | a part without an equals sign fails, and what follows a second one is ignored |
| `SplitParsers.LastWins` | core/src/db-schema-manager/resources/flyway-lambda/src/main/java/com/geekoosh/flyway/request/ValueManager.java:29 | for a key given more than once the last value counts |
| `SplitParsers.MapRoundTripIff` | core/src/db-schema-manager/resources/flyway-lambda/src/main/java/com/geekoosh/flyway/request/ValueManager.java:21-32 | for keys and values without separators, parsing the printed pairs gives their map iff there is a pair and no value is empty; otherwise it fails |
| `SplitParsers.KeyKept` | core/src/db-schema-manager/resources/flyway-lambda/src/main/java/com/geekoosh/flyway/FlywayService.java:48-50 | dropping trailing empty parts keeps a key iff it does not end in a slash |

## Left out

- The Flink, AWS, Flyway, JGit, pandas and CDK libraries; each call is a step that succeeds or fails, or a value.
- Checkpoints, redelivery, Step Functions retries, and records that `put_records` refuses while the call succeeds.
- Null item ids, which Flink cannot key by, and JSON and CSV parsing.
- Object reuse in the streaming job: updates in place of an emitted sale are modelled as new values.
- Unbounded sources: a run ends; the results hold for every finite run.
- The retries and the internal steps of cluster creation; a failed creation is taken to leave no running cluster.
- Time zones, daylight saving and the clock; triggers between whole minutes.
- The rounding of floating-point quotients in the file split.
- `outputFileMaxSizeInBytes` of the replayer: a constant is passed to the write step instead, so the limit is a parameter here.
- Signing itself, between the two header maps, and case folding beyond ASCII.
- The ids of CDK constructs for endpoints, roles and security groups, which can collide.
- The other columns of the latest-version query: they are copied as `details`.
- Column parsing: a cell is a time or missing.
- The folders of git requests and `file://` URLs; only the S3 branch of `urlStream` is modelled.
- `splitValuesFn`, `booleanFn` and secrets, which have one branch each.
- QuickSight, Cognito, crawlers, bucket assigners and single-switch custom resources: easy members.
