# A model of the event store, log ingestion and exception tables

dboss keeps an app's product events in plain files and its request logs, process logs and
exceptions in SQLite. This project models the parts of it whose correctness rests on an argument
that spans several functions, and proves that argument. `dafny verify dfyconfig.toml` checks it.

The modules follow the source:

- **The event store's write path.** `Partition` is one namespace's day as a machine in which every
  file operation of appending, recovery and compaction is one step and a crash may fall between any
  two. `PartitionSafety` proves what a reader sees on every run, `Maintenance` holds the imperative
  recovery and compaction and proves that the machine ends where they end and that one turn settles a
  day, `IndexFreshness` says when stored indexes are those of the rows, `IndexContent` what of the rows
  an index shows, `Recompaction` exactly what a stop between rename and index writes costs, `Retention`
  what the removal of old days leaves and loses, `PartialRemoval` what one that stops half way costs.
- **Tailing event files.** `Lines`, `EventTail` and `EventTailSafety` compose at-least-once reading
  with dedupe: byte offsets, per-day appends, warning rows and the offset save, with any number of
  files, incarnations and stops. `Truncation` treats files that are cut in place,
  and `CatchUp` proves that nothing else is lost.
- **Filters and funnels.** `Sql` is the SQL the compiler emits, with three-valued evaluation, its text
  and a reader of that text, `SqlText` the query spelled out. `Filter`, `FilterTokens`, `FilterParse` and
  `FilterAgreement` hold the filter, its splitter and parser, its Go predicate and its SQL, and prove the two
  meanings equal. `FilterWriting` and `FilterReading` say what the filter's text means: what is written is read
  back, and exactly which words are accepted as what; `DataPaths` does the same for paths into the data.
  `DataAgreement` holds the exact conditions over data values, texts and numbers, with `Doubles` for the
  orders of infinities and NaN. `Funnel` is the chain of joins.
- **Answers from files alone.** `Index`, `Summaries`, `Facets`, `Charts`, `Reader`, `ReaderRuns`,
  `FacetRanking`, `Report` and `Latest`: the cached indexes, the index paths against the scans, the
  order of what is shown, and the early stop. `FacetMeaning` says the figures by places in the rows.
- **Exceptions.** `UniqueValues`, `ExceptionTables`, `ExceptionLines`, `ExceptionStore` and
  `ExceptionRuns`: lines, aggregation, upserts and flags, and why the cuts between passes do not show.
  `ExceptionMeaning` says what the rows of the tables are made of.
- **Process logs.** `Grouper`, with `RowRules` for which lines make a row, `LogTail`, `QuietPasses`,
  `SealedLogs` and `LogWriter` with `LogWriterSafety`.
- **Config keys.** `KeyCheck`: the edit distance behind a suggestion.

`Prelude`, `Bags`, `Rows`, `Sorting` and `Trimming` are shared. The steps and specifications the methods are
proved against are themselves said again in other words, with the source's constants as literals, by the
lemmas whose names end in `Means`, `Says` or `Iff`. State that the source updates in
place is a class with the source's fields (`DayStore`, `Aggregator`, `Database`, `LineGrouper`, `Reader`, `AppWriter`);
each method is tied to a function of the old state, and runs are proved over those functions.

## Hypotheses

The theorems state what they need; the source's own comments sometimes promise more.

- `Lawful` (tailing): event ids are nonzero and different for different (path, inode, offset), and
  whether a line parses does not depend on the clock.
- `Noticed` (tailing): a file cut in place is shorter than its saved offset at the next pass. Without it
  lines are lost, and `CatchUp.LandsIff` says exactly which; `EventTailSafety.ExactlyOnce` does not need it.
- `Dated`: a line carries its own time. A line without one is stamped with the clock of the pass, and
  `EventTailSafety.OnceIffDated` shows that exactly-once across days then fails on some run.
- `Uninterrupted` and `Calm`: no stop between the rename and the last index write of a day that already
  had indexes. `IndexFreshness.StaleIndexRun` shows what happens otherwise: the code skips the day as
  compact and indexed and keeps the old index. `Recompaction.StopAfterRename` says exactly when.
- `ExactTimes`, `FiniteNumbers`, `PlainValues`, `RowAlike`: since= in whole seconds, from= and to= in whole
  milliseconds; finite numbers; no data value asked to equal a number or a text that starts with a
  bracket; and on the row, data values compared with a number that both sides read alike and that are not
  NaN at the left of > or >=. The comment at internal/events/filter.go:19-21 promises one meaning without
  these. The `...AgreesIff` lemmas and `DataAgreement.WhereRunsIff` are the exact conditions, and the
  `...Differs` lemmas rows that fail: data.p=1.50 on 1.50, data.p>5 on the string nan.
- `LowersAlike`, `WritesJson`, `ReadsNumbers`: what is taken of the two runtimes: they lower-case alike and
  keep only the empty string empty; both write arrays and objects starting with their bracket; the
  database may write a number in other digits but as the same number; words and bracketed texts are none.
- `Alike` (indexes): rows with one nonzero eid agree in the columns an index reads.
- `Ordinary`, `Resting` (retention): an indexed day with a directory has a day file, and no compaction is
  under way on a day that goes; the daemon runs the two in one pass, one after the other.
- `AllInWindow` and `Bounded`: what the index paths need to equal a scan. They are exact, and a date-only
  upper bound breaks them (`Summaries.DateOnlyEnd`).
- `OwnDays` (Latest): rows lie in the partition of their own day, which `Latest.RunsKeepOwnDays` derives
  from the split that Append makes.

Times are integers in nanoseconds, days are day numbers (floor division), an event's value is a real. File
names are fresh, as the source's nanosecond clock and sequence number make them.

## Model

| member | source | states |
|---|---|---|
| Rows.DedupeInPlace | internal/events/compact.go:123-136 | the loop that overwrites the prefix of the slice it reads from leaves exactly the rows that are not preceded by their own nonzero eid |
| Rows.DedupeKeeps | internal/events/compact.go:122-136 | dedupe keeps the same set of eids, each once, invents no row and keeps every zero-eid row in order |
| Rows.DedupeKeepsFirst | internal/events/compact.go:122-136 | the row kept for an eid is the first one that carries it |
| Rows.SortRowsStable | internal/events/compact.go:70-73 | the day order is a permutation that keeps the order of equal keys and is ascending: at any two places the tenants are in dictionary order, at the same tenant the events are, at the same tenant and event the times are |
| Rows.DayMeans | internal/events/store.go:57-63 | a row's day number is d exactly when its time lies in the 86400 seconds of day d, before 1970 too |
| Prelude.StrLtIff | internal/events/compact.go:70-73 | the order of strings used in sorting is the dictionary's: smaller at the first differing character, or a proper beginning |
| Rows.SortedUnique | internal/events/compact.go:70-73 | that order is unique: two sorted sequences with the same rows per key are the same |
| Rows.CompactedKeeps | internal/events/compact.go:61-73 | a compacted day has the eids of its files, each once, in that ascending order, and the same bag of zero-eid rows |
| Rows.CompactedFixed | internal/events/compact.go:61-75 | compacting an already compacted day changes nothing |
| Index.BuildIndex | internal/events/index.go:60-118 | the accumulation loop yields, per event, the count, the distinct users and anons and the value sum, per tag its occurrences and per data key and type its occurrences |
| Index.CountAppend | internal/events/index.go:60-118 | counts and value sums are additive over rows |
| Index.BagAppend | internal/events/index.go:60-118 | facet and key counts are additive over rows |
| FacetMeaning.IndexMeans | internal/events/index.go:60-118 | the daily, facet and key counts are the numbers of rows, of tag occurrences by row and place, and of rows with a value of that JSON type; every table has a row for each key that occurs and for no other |
| FacetMeaning.SumOne | internal/events/index.go:60-118 | the value sum of an event grows by each of its rows' values, and by nothing for a row without one |
| Partition.MergeHolds | internal/events/compact.go:61-92 | replacing listed files by their compacted merge keeps the eids of the directory and its zero-eid rows |
| PartitionSafety.StepKeeps | internal/events/compact.go:61-156 | every append, every single file operation of recovery and compaction, a failed journal write, a crash and both steps of removing the day keep the partition invariant |
| PartitionSafety.FailedJournal | internal/events/compact.go:76-84 | a merge whose journal cannot be written leaves the disk as it found it |
| PartitionSafety.ReaderSeesAppended | internal/events/compact.go:61-136 | on every run with crashes between any two steps, a reader sees each eid appended since the day was last removed exactly once and no other, only appended rows, and every zero-eid row as often as appended while no merge awaits its deletes |
| PartitionSafety.ReaderSeesRows | internal/events/compact.go:61-136 | when an eid always names one row, the rows seen are exactly the rows appended |
| Maintenance.DayStore.Recover | internal/events/compact.go:98-120 | the imperative recovery leaves the disk on which a landed merge has lost its sources, an unlanded one its temporary file, and neither has a journal |
| Maintenance.DayStore.ReadCompacted | internal/events/compact.go:61-73 | reading, deduplicating in place and sorting gives the compacted rows of the listed files |
| Maintenance.DayStore.CompactDay | internal/events/compact.go:26-93 | one closed day's turn leaves exactly the disk of the specification, in the skipping, the index-only and the merging branch |
| Maintenance.RecoverIdempotent | internal/events/compact.go:98-120 | recovering twice is recovering once and leaves no journal |
| Maintenance.RecoverResumes | internal/events/compact.go:98-120 | wherever a recovery stops, starting over ends on the same disk |
| Maintenance.TurnFinishes | internal/events/compact.go:26-93 | the step machine, left alone for a turn, reaches the disk the imperative form computes |
| Maintenance.TurnSettles | internal/events/compact.go:26-93 | a turn of a nonempty day ends with one deduplicated day file, ascending by tenant, event and time, no journal and all three indexes |
| Maintenance.RecoveryConverges | internal/events/compact.go:26-120 | from whatever a crash left at whatever point of whatever run, one undisturbed turn settles the day and it still holds exactly the appended eids and zero-eid rows |
| IndexFreshness.ServedIndexIsFresh | internal/events/compact.go:42-93 | on runs never stopped between rename and last index write of a day that had indexes, and while no merge is between those two now, a compacted day's stored index is the index of its visible rows |
| IndexFreshness.StaleIndexRun | internal/events/compact.go:42-93 | a concrete run, ending with an undisturbed turn, after which the stored index differs from the visible rows |
| Recompaction.StopAfterRename | internal/events/compact.go:42-93 | a day that had indexes is merged again and the run stops between rename and last index write: after an undisturbed turn the day is served a wrong index exactly when that turn finds a single day file and the other merged files held a row new to the old day file which an index not yet written would have shown |
| Recompaction.ReadInWindow | internal/events/reader.go:201-214 | a read between the last delete and the last index write is served the right index exactly when no index still to be written would show a row new to the old day file |
| IndexContent.SameIndexIff | internal/events/index.go:60-118 | a day and one of its files have the same daily counts exactly when the other files hold no row new to it, the same facets exactly when no such row has a tag, the same keys exactly when none has data |
| IndexContent.IndexPermutes | internal/events/index.go:60-118 | an index does not depend on the order of its rows |
| IndexContent.RowsAreCounted | internal/events/index.go:60-118 | the counts of a daily index add up to the number of its rows |
| Retention.Prune | internal/events/compact.go:141-151 | the loop over the listed directories removes those of exactly the expired days and no index |
| Retention.GoesIff | internal/events/compact.go:138-156 | a day goes exactly when it has a directory, retention is positive and the whole day lies at least the retention before now; a zero or negative retention keeps everything |
| Retention.IndexOutlivesRows | internal/events/compact.go:138-156 | on every run, once a served day is removed its stored index stays the index of the rows a reader saw before, through maintenance, removals and crashes, until the next append |
| Retention.LateRowsReplaceIndex | internal/events/compact.go:26-93 | one append to a removed day and one turn overwrite the stored index with that of the late rows alone |
| Retention.PassIsRuns | internal/events/module.go:81-91 | a store after a retention pass is again one that runs left, so all that is proved of those holds of it |
| Retention.PassKeepsAnswersIff | internal/events/compact.go:138-162 | a retention pass keeps every answer of the index paths if and only if the files of each day that goes held nothing its indexes lack: with indexes no row new to the day file, without them no row at all |
| Retention.PassAfterTurnsKeepsAnswers | internal/events/module.go:81-91 | when compaction has settled every expired day, the removal that follows changes no summary and no facet count |
| Retention.StopInRemovalHides | internal/events/reader.go:96-122 | a removal stopped with the directory left empty hides the index of its rows from every answer until the directory goes too |
| PartialRemoval.FileByFile | internal/events/compact.go:152-156 | removing the files of a day one by one, in any order, is removing them all at once |
| PartialRemoval.StopAmongFiles | internal/events/compact.go:26-93 | on every uninterrupted run, a removal stopped among the files of an indexed day makes the next turn leave the index of the rows in the files that are left |
| PartialRemoval.RemovalLosesIff | internal/events/compact.go:26-93 | those files tell the same index as the whole day if and only if the removed ones held no row new to them |
| Lines.StartsAreLines | internal/ingest/ingest.go:513-534 | the loop of whole-line reads visits exactly the line starts of the bytes it passes, up to its batch limit |
| EventTail.ReadLines | internal/ingest/ingest.go:513-534 | the reading loop takes every parsable nonblank whole line with its eid and offset, refuses every other nonblank one and stops after the last whole line |
| EventTail.GroupByDay | internal/events/store.go:57-63 | rows are grouped under their own UTC day, in order, and no group is empty or missing |
| EventTail.AddCountries | internal/ingest/ingest.go:555-577 | the loop over the batch overwrites an empty country with that of a known nonempty request id and leaves everything else as it is |
| EventTailSafety.StepKeeps | internal/ingest/ingest.go:469-548 | file growth, replacement under a new or the same inode, reading, each per-day append, the warning rows, the offset save, maintenance and retention steps and a stop between any two keep the tailing invariant |
| EventTailSafety.LineSeen | internal/ingest/ingest.go:469-588 | an eid is visible once in a partition exactly when a line of its path, inode and offset landed there, however often, unless retention removed the day |
| EventTailSafety.ExactlyOnce | internal/ingest/ingest.go:469-588 | on every run, an accepted line with its own time that was read and saved past has its eid visible once in the partition of its namespace and day, unless retention removed that day: as its own row, column by column the parsed one with the place's eid and, where the line has no country, that of its request, unless another incarnation of the file put a line of the same inode and offset into the same partition; elsewhere only where such a line landed |
| EventTailSafety.NothingElse | internal/ingest/ingest.go:469-588 | every visible row was read and accepted from a file, is still there, lies in the partition of its namespace and of the 86400 seconds its time is in, and is in every column the parsed one with the eid of its place and the country rule |
| EventTailSafety.RejectionsRecorded | internal/ingest/ingest.go:523-548 | every rejected line that was read and saved past has its warning row |
| EventTailSafety.OnceIffDated | internal/ingest/ingest.go:469-588 | for every path and inode, a line is in at most one partition on every run if and only if its day does not depend on the clock of the pass |
| EventTailSafety.TwoPasses | internal/ingest/ingest.go:469-588 | for every path and inode and a line whose day depends on the clock, a run that leaves it in two partitions |
| Truncation.NoticedRunsRead | internal/ingest/ingest.go:491-512 | as long as every pass starts over or at an offset of the same incarnation, everything before a saved offset was read and only whole lines landed |
| Truncation.NeverRead | internal/ingest/ingest.go:495-512 | a line before a saved offset that fits the live file by inode and size but was saved for another incarnation never lands, however the run goes on, unless the path is linked anew or its offset dropped |
| Truncation.LostRun | internal/ingest/ingest.go:495-512 | a run that gets there: a file cut to nothing and written anew, longer, between two passes |
| CatchUp.LandsIff | internal/ingest/ingest.go:495-546 | between passes, an accepted whole line of the live file that has not landed lands on some run that leaves its path alone if and only if no saved offset that fits the file lies behind it: exactly the others are lost |
| Sql.QuoteReadsBack | internal/events/filter.go:455 | reading a literal from quote(s) and any continuation not starting with a quote yields s and leaves the continuation |
| Sql.LexReadsBack | internal/events/filter.go:435-455 | text made of code and literals is read back as exactly that code and those literals |
| Sql.ListedOk | internal/events/filter.go:435-453 | an IN list or an array list holds exactly the given values as literals, whatever they contain |
| Sql.TextReadsBack | internal/events/filter.go:403-455 | the text of any compiled expression is read back as its own code and exactly its own literals |
| SqlText.CondTextIs | internal/events/filter.go:403-433 | the SQL of every condition, character for character |
| Sql.PartsMean | internal/events/filter.go:403-433 | starting with a text and containing one, as prefix terms and text searches use them on both sides |
| SqlText.WhereText | internal/events/filter.go:377-401 | the whole query text: the bounds in their order, the terms with NOT coalesce(..., false) where negated, joined by AND, or true |
| Filter.BuildWhere | internal/events/filter.go:377-401 | the accumulation of parts yields the conjunction of the time bounds and the terms in order |
| FilterAgreement.CondMeaning | internal/events/filter.go:403-433 | one condition's SQL is TRUE exactly when the Go condition holds, with NULL for absent columns, for a condition that asks no data value to equal a number, list or object, has a finite number, and compares a value both sides read alike |
| FilterAgreement.TermMeaning | internal/events/filter.go:390-395 | under the same conditions the negated SQL term is TRUE exactly when the Go term does not hold, also where the condition is NULL |
| FilterAgreement.WhereAgrees | internal/events/filter.go:377-433 | for every well-formed filter with exact times, finite numbers and no equality with a number, list or object, and every row whose compared data values are read alike, on every clock and session zone under a day, Where is TRUE if and only if Match holds; the date bounds and their one-day slack lose no row |
| FilterAgreement.SinceAgreesIff | internal/events/filter.go:379-384 | since= means the same in both exactly when it is a whole number of seconds |
| FilterAgreement.FromAgreesIff | internal/events/filter.go:385-387 | from= means the same in both exactly when it is a whole millisecond |
| FilterAgreement.ToAgreesIff | internal/events/filter.go:388-390 | to= means the same in both exactly when it is a whole millisecond |
| DataAgreement.DataAgreesIff | internal/events/filter.go:423-427 | data.path=values means the same in both exactly when no value, be it a number, a list or an object, is written as one of the texts by one side and not by the other |
| DataAgreement.NumberDiffers | internal/events/filter.go:554-568 | one that fails if the database writes numbers anew: data.p=1.50 finds the number 1.50 in the daemon alone, data.p=1.5 in the database alone |
| DataAgreement.NumberListDiffers | internal/events/filter.go:554-568 | the same inside a list |
| DataAgreement.ComparesAgreesIff | internal/events/filter.go:423-428 | data.path>number means the same in both exactly when every value compares alike: read alike and no NaN at the left of > or >=, or read differently to the same outcome |
| DataAgreement.ComparesIffNoNaN | internal/events/filter.go:523-533 | a number in range, a word, a list, an object or a string read alike compares alike if and only if it is not a string that reads as NaN at the left of > or >= |
| DataAgreement.NaNDiffers | internal/events/filter.go:523-533 | one that fails: data.p>5 on the string nan, true in the database and false in the daemon |
| DataAgreement.PaddedDiffers | internal/events/filter.go:523-533 | another: a string with blanks around its number, which the database's cast reads and strconv.ParseFloat does not |
| Doubles.OrdersDifferIff | internal/events/filter.go:570-585 | the database's order of doubles and Go's comparison with a finite number differ exactly on a NaN at the left of > or >= |
| Doubles.OrderedMeans | internal/events/filter.go:570-585 | each comparison sign means of two numbers what it says, infinities stand outside them, and nothing holds of NaN in the daemon |
| Doubles.LiteralMeans | internal/events/filter.go:457 | a text is a numeric literal exactly when it is a sign or none, digits, decimals or none and a power of ten or none |
| DataAgreement.WhereRunsIff | internal/events/filter.go:457 | every number of the query is a numeric literal exactly when the filter's numbers are finite; the others are written as names |
| Sql.LiteralIffFinite | internal/events/filter.go:457 | a printed number is a numeric literal exactly when it is finite |
| DataAgreement.TextAgreesIff | internal/events/filter.go:429-430 | a text search means the same in both exactly when no message has the text in one lower-casing only |
| FilterAgreement.WhereTextReadsBack | internal/events/filter.go:377-461 | the query text holds, in order, exactly the time bounds and the terms' values as literals and otherwise only the compiler's own code |
| FilterParse.ParseFilter | internal/events/filter.go:70-94 | the token loop yields the filter or the first error of reading the tokens in order; what tokens mean is FilterReading.FilterMeans |
| FilterParse.ParsedOk | internal/events/filter.go:70-94 | what is accepted has only well-formed terms and at most one positive event term |
| FilterParse.FirstOperatorIsFirst | internal/events/filter.go:211-219 | the operator chosen starts first in the text and is the longest one starting there |
| FilterTokens.Split | internal/events/filter.go:122-157 | the loop over the characters with its builder and flags is the specified splitting |
| FilterTokens.FailsOnOddQuotes | internal/events/filter.go:122-157 | splitting fails if and only if the number of quotes is odd |
| FilterTokens.TokensReadBack | internal/events/filter.go:119-157 | words and quoted searches, negated or not, written one after another are read back as those tokens |
| FilterTokens.MinusBeforeQuoteIsLost | internal/events/filter.go:130-149 | a minus in front of a quoted start with more text behind the closing quote is dropped |
| FilterTokens.ParseFilterText | internal/events/filter.go:70-94 | from the text: the splitter's error, the first token's error, or a well-formed filter with at most one positive event term |
| FilterWriting.FilterReadsBack | internal/events/filter.go:70-94 | any terms, negated or not, and time bounds, written one after another with blanks quoted, parse to exactly those terms in order, each bound set by its last writing alone, to= a day later for a bare date; two positive event terms are an error |
| FilterWriting.WordReadsBack | internal/events/filter.go:163-266 | the word of every condition, event list, prefix, field, value, tag, tag key, label, data equality and data comparison, is read as just that condition with its negation |
| FilterWriting.NegatedTime | internal/events/filter.go:176-184 | a minus before since=, from= or to= is an error |
| FilterWriting.NegatedLabel | internal/events/filter.go:161-174 | -#internal is the one negated label term |
| FilterReading.WordMeans | internal/events/filter.go:170-294 | a word is accepted as a condition or time bound if and only if it has that one's form, with the sign not part of a longer one, the name before any colon or sign, and a number, duration or moment behind it that is read |
| FilterReading.TokenMeans | internal/events/filter.go:159-169 | a quoted token is a text search unless blank, a minus with more behind it negates, everything else is a word |
| FilterReading.FilterMeans | internal/events/filter.go:70-94 | there is a filter exactly when every token says something and no two terms ask for an event by name: its terms are the tokens' in order, each bound the last one given |
| FilterReading.AlternativesMean | internal/events/filter.go:255-266 | alternatives are the parts between commas, at least one not blank |
| FilterReading.PartsKept | internal/events/filter.go:255-266 | each part loses the white space around it and is left out when nothing remains |
| Trimming.TrimMeans | internal/events/filter.go:255-266 | trimming takes white space off both ends and nothing else |
| Trimming.SpaceIff | internal/events/filter.go:255-266 | white space is Unicode's, code point by code point |
| DataPaths.PathOkIff | internal/events/filter.go:65 | a data path is letters, digits and underscores in groups with single dots between them |
| DataPaths.LookupMeans | internal/events/filter.go:540-552 | a path finds a value exactly when its keys, cut at the dots, lead there object by object |
| FilterWriting.DataTermIsTyped | internal/events/filter.go:211-240 | data.path=value with a value free of quotes, blanks, commas and operators is that one term |
| FilterWriting.ValueTermIsTyped | internal/events/filter.go:70-94 | value<number with anything the number reader takes, infinite or NaN included, is that one term |
| FilterWriting.NumberListIsTyped | internal/events/filter.go:70-94 | data.p=[1.50], which the two sides read differently, can be typed |
| Funnel.Evaluate | internal/events/views.go:202-216 | the loop over the steps builds each step's table from the one before |
| Funnel.FunnelCorrect | internal/events/views.go:190-216 | an actor is in step n if and only if a chain of its own events starts at its earliest step-1 match, in time order, matching the filters and within the window; the time kept is the earliest end of such a chain |
| Funnel.HitIsMatch | internal/events/views.go:203-213 | under the conditions of WhereAgrees a step takes an event exactly when the Go predicate of its filter does, the extra range narrowing only the first |
| Funnel.RowKeeps | internal/events/views.go:190-216 | a row keeps its actor's breakdown and the time of the step before, from which the seconds are counted |
| Funnel.WithinIff | internal/events/views.go:205-213 | a step is within the window exactly when it is no later than the window's whole seconds after the first |
| Funnel.SharesAtMostAll | internal/events/views.go:214-223 | under every breakdown value the actor sets shrink from step to step, so both percentages are at most 100 |
| Funnel.ReachedIff | internal/events/views.go:214-223 | the actors under a breakdown value are those with that value for whom a chain of n steps exists |
| Summaries.TermSplit | internal/events/reader.go:189-197 | for an index-only filter, Match is the time range and nsAllowed and eventAllowed together |
| Summaries.FromMeans | internal/events/reader.go:62-74 | the window starts at the later of the filter's lower bounds, or thirty days back without one |
| Summaries.ToMeans | internal/events/reader.go:62-74 | it ends at the upper bound, or now |
| Summaries.DayInRangeIff | internal/events/reader.go:62-74 | a day is in range exactly when it ends after the start and starts no later than the end |
| Summaries.IndexOnlyIff | internal/events/reader.go:189-197 | the index paths serve exactly the filters that ask for nothing but event names, event prefixes and namespaces |
| Summaries.CountSelected | internal/events/reader.go:115-142 | a scan counts an allowed event's rows less those outside the window, and all of them exactly when none is outside |
| Summaries.SummaryAgreesIff | internal/events/reader.go:96-172 | for an index-only filter, index path and scan give the same bars, and the same total, if and only if no allowed row of a day in range is outside the window; otherwise the index counts more |
| Summaries.WholeDays | internal/events/reader.go:62-74 | days wholly inside the window meet that condition |
| Summaries.DateOnlyEnd | internal/events/filter.go:287-290 | a date-only upper bound puts the following day in range: the index path counts its allowed rows, a scan none |
| Summaries.UsersBelow | internal/events/reader.go:36-41 | when every allowed row in range is in the window, the index path's users, the largest single day, never exceed the scan's distinct users |
| Summaries.AnonsBelow | internal/events/reader.go:36-41 | the same of the anonymous ids |
| Facets.IndexCountsRows | internal/events/reader.go:339-361 | collecting an index adds to each answer what the indexed rows add one by one |
| FacetMeaning.RowCountMeans | internal/events/reader.go:339-361 | one event adds to a facet once for each of its tags that answers, key before the first colon and value behind it, labels under #, or once if it carries a data value of the type; nothing when its name is not allowed |
| Facets.FacetsAgreeIff | internal/events/reader.go:330-405 | a day's indexes count a facet value as its matching rows do exactly when every event carrying it is within the filter's bounds, otherwise more |
| Facets.FacetAnswersAgreeIff | internal/events/reader.go:330-405 | the same for the answer over all days in range |
| Facets.Collect | internal/events/reader.go:339-361 | the loops over an index's rows raise each answer by the total of its rows of allowed events |
| Facets.CountGathered | internal/events/reader.go:389-402 | building one index per namespace's matching rows and collecting them counts all those rows |
| Charts.AddDaily | internal/events/reader.go:176-187 | adding an index's allowed events keeps count, sum and largest day those of the bars |
| Charts.CountBars | internal/events/reader.go:157-163 | turning tallies into bars keeps the totals those of the bars |
| Reader.ReadDay | internal/events/reader.go:240-250 | a partition's rows are its files' rows in listing order, deduplicated in place |
| Reader.Reader.ReadIndex | internal/events/reader.go:199-226 | stored, cached or built, the index returned is the day's; the cache holds exactly the expected entries afterwards and stays right, also when a read fails |
| Reader.Reader.StillValid | internal/events/reader.go:201-238 | cached indexes stay right when more files are finished |
| Reader.Reader.SummarizeIndexes | internal/events/reader.go:96-122 | the two loops add every in-scope day once, a day with a directory before its stored index, with the matching totals; a failed read ends them with its error |
| Reader.Reader.SummarizeRows | internal/events/reader.go:123-166 | the scan's bars are the counts, people and sums of the selected rows per day, namespace and event; users and anons are distinct over the range; a failed read ends it with its error |
| Reader.Reader.Summarize | internal/events/reader.go:76-166 | the index path is taken exactly for index-only filters, each path answers as specified, and an error means a day in range that cannot be read |
| Report.OrderBars | internal/events/reader.go:169-172 | sorting leaves the figures of every day, namespace and event once, ascending by day, then namespace, then event in dictionary order |
| Report.OrderIsUnique | internal/events/reader.go:169-172 | that order leaves no choice |
| Report.SortNames | internal/events/reader.go:169 | the namespaces seen, each once, ascending |
| Report.NamespacesMean | internal/events/reader.go:83-95 | a namespace is listed exactly when it has a directory or, on the index path, an index on a day in range |
| Report.Oldest | internal/events/reader.go:83-89 | the oldest day that still has a directory |
| Report.Summarized | internal/events/reader.go:76-174 | the whole answer: window dates, the known namespaces in dictionary order, the bars in theirs, totals, oldest day, or the error |
| Reader.Reader.FacetsFromIndexes | internal/events/reader.go:362-388 | the index path's count of every answer is the total over the in-scope days; a failed read ends it with its error |
| Reader.Reader.FacetsFromRows | internal/events/reader.go:389-402 | the scanning path's count of every answer is the total over the matching rows; it fails exactly when a day in range cannot be read |
| FacetRanking.Rank | internal/events/reader.go:406-414 | the list is at most fifty of the answers, each once with its count, by descending count and then in dictionary order; every answer left out is no more frequent than any in it, and at the same count not before it |
| FacetRanking.TopsAgree | internal/events/reader.go:410 | two such lists agree in count and value at every place |
| Reader.Reader.ListFacets | internal/events/reader.go:330-414 | the facets as listed are those fifty of the counts specified for the path taken, none of them zero, or the error of a day in range that cannot be read |
| ReaderRuns.CacheSurvives | internal/events/reader.go:201-238 | no later append, compaction, recovery, removal or crash makes a cache entry wrong |
| ReaderRuns.ServeIsVisible | internal/events/reader.go:201-226 | on uninterrupted runs, and while no merge is between rename and last index write now, the index returned for any partition, compact or not, is the index of the rows a reader sees |
| ReaderRuns.IndexPathIsScan | internal/events/reader.go:96-172 | on stores produced by such runs the index path gives the scan's bars, and the scan's total, if and only if no allowed row in range is outside the window |
| ReaderRuns.FacetPathIsScan | internal/events/reader.go:330-405 | the same for the count of any facet value |
| ReaderRuns.SummaryOfRuns | internal/events/reader.go:76-174 | Summarize itself, run on a store that such runs left, on either path |
| Latest.FindLatest | internal/events/reader.go:279-315 | sorting the directories and stopping at the first day that fills the clamped limit returns, newest first, the newest matching events of all days in range; it fails exactly when a day in range cannot be read and the days after it hold too few events |
| Latest.FoundMeans | internal/events/reader.go:279-315 | the events it chooses from are exactly the matching ones whose own UTC day has a listed directory in range, each as often as it is visible there |
| Latest.ReadOneDay | internal/events/reader.go:290-307 | every namespace of a day is read before anything is decided, unless one in range cannot be read |
| Latest.LatestTimes | internal/events/reader.go:279-315 | two such answers show the same times: only equally old events can be exchanged |
| Latest.RunsKeepOwnDays | internal/events/store.go:57-74 | when batches are split by UTC day, every visible row lies in its own day's partition on every run |
| UniqueValues.AppendUniqueValues | internal/logstore/exceptions.go:331-354 | the two loops with their seen map and cap give the list of taking each trimmed value in turn |
| UniqueValues.TakeAllFirst | internal/logstore/exceptions.go:329-354 | a nonblank value is in the list unless five were already there before it |
| UniqueValues.TakeThenMerge | internal/logstore/exceptions.go:331-354 | collecting a value before or after merging two capped lists is the same |
| UniqueValues.Pigeonhole | internal/logstore/exceptions.go:331-354 | five distinct values cannot all be in a shorter list |
| ExceptionTables.PassIsItsRecords | internal/ingest/exceptions.go:105-151 | committing one aggregated pass is committing its records one by one |
| ExceptionTables.SplitInvariance | internal/ingest/exceptions.go:105-151 | two passes over two pieces leave the tables of one pass over the whole |
| ExceptionTables.TablesMean | internal/logstore/exceptions.go:243-289 | the tables are a reference aggregation of all records ever committed; ExceptionMeaning.TablesSay says what its rows are made of |
| ExceptionMeaning.TablesSay | internal/ingest/exceptions.go:103-144 | the minute row (uid, m) is made of exactly the records of that uid with m * 60000 ms <= ts < (m + 1) * 60000 ms, in order: their number, the first message and dump, the first five of each list; there is none without such a record; a group row has the number, the span of times and the first dump of its uid's records |
| ExceptionTables.PassesMean | internal/logstore/exceptions.go:243-289 | that holds however the stream is cut in two |
| ExceptionLines.DatedIff | internal/ingest/exceptions.go:53-81 | what a line means is free of the clock exactly when it is rejected or carries its own time |
| ExceptionLines.ParseMeans | internal/ingest/exceptions.go:55-90 | a line is a record exactly when it decodes, has a uid and a message and no unreadable time; the record has its fields, absent ones empty, and its time or else the clock's |
| ExceptionLines.WarningMeans | internal/ingest/exceptions.go:194-206 | any other nonblank line leaves one warning with the clock, the file, the first thing it lacks and the line without its end |
| Lines.ChompMeans | internal/ingest/exceptions.go:199 | a line's end is one line feed and the carriage return before it, if any, and nothing else |
| ExceptionLines.LinesAccounted | internal/ingest/exceptions.go:189-207 | every line counts once: as a record, as a warning or as blank |
| ExceptionLines.WholeReadsBack | internal/ingest/exceptions.go:189-194 | whole lines followed by anything are read first, and as they are |
| ExceptionLines.WholeIsPrefix | internal/ingest/exceptions.go:189-194 | reading whole lines takes a prefix of the text off and nothing else |
| ExceptionStore.Aggregator.Add | internal/ingest/exceptions.go:105-143 | the mutable aggregator always holds the aggregate of the records it was given |
| ExceptionStore.Aggregator.Result | internal/ingest/exceptions.go:145-151 | its groups come out in order of first occurrence and are that aggregate |
| ExceptionStore.Database.SaveMinute | internal/logstore/exceptions.go:268-289 | select, insert or update leaves the merged minute row and no other change |
| ExceptionStore.Database.SaveGroups | internal/logstore/exceptions.go:243-262 | the upserts leave the saved tables of the batch |
| ExceptionStore.Database.UpdateResolved | internal/logstore/exceptions.go:291-298 | resolving sets one flag, reopening also clears ignored, an unknown fingerprint is an error and changes nothing |
| ExceptionStore.Database.UpdateIgnored | internal/logstore/exceptions.go:300-308 | ignoring also resolves, unignoring clears one flag, an unknown fingerprint is an error and changes nothing |
| ExceptionTables.FlagsMean | internal/logstore/exceptions.go:291-298 | resolving and unignoring change their own flag alone; reopening clears both, ignoring sets both |
| ExceptionStore.Database.AppendExceptions | internal/logstore/exceptions.go:212-241 | groups, minutes, warning rows and offset are committed together or not at all |
| ExceptionStore.ReadExceptions | internal/ingest/exceptions.go:185-207 | the reading loop gives the aggregate of the accepted lines, a warning for each rejected one and the offset behind the last whole line of the batch |
| ExceptionStore.Database.TailExceptions | internal/ingest/exceptions.go:156-215 | one pass over a file, from the choice of its start to the commit, leaves the specified tables, warnings and offset, or nothing |
| ExceptionRuns.CutsDoNotShow | internal/ingest/exceptions.go:153-215 | for any files that grow, are replaced and vanish, any cut into passes with any transactions failing, interleaved with flag changes and retention, the tables are those of the committed records one by one |
| ExceptionRuns.SameTraceSameTables | internal/ingest/exceptions.go:153-215 | two runs with the same records and flag changes in the same order have the same tables |
| ExceptionRuns.TablesMeanCommitted | internal/ingest/exceptions.go:153-215 | without flag changes and retention the tables are those of exactly the committed lines: one minute row for every minute of every uid with such a record and none else, made of just those records, and one group per uid |
| ExceptionRuns.WarningsOverRuns | internal/logstore/retention.go:36-37 | on every run at all, warning rows and those retention took are together the rejected committed lines |
| ExceptionRuns.FollowsIff | internal/ingest/exceptions.go:167-171 | on every run, a pass leaves exactly the file's first whole lines, up to the saved offset, committed if and only if it starts over or the bytes before its start are still the ones it committed |
| ExceptionRuns.StaysFollowed | internal/ingest/exceptions.go:167-171 | appending, other files, failed transactions, flags and retention keep that |
| ExceptionRuns.TruncationUnnoticed | internal/ingest/exceptions.go:167-171 | a run where it fails: cut in place and grown past the offset before the next pass, its first line is never read |
| ExceptionRuns.CountsOverRuns | internal/logstore/retention.go:38-42 | over all runs ignored implies resolved and a group's count is its minute counts plus those retention took |
| ExceptionRuns.OccurrenceReopens | internal/logstore/exceptions.go:206-211 | a committed occurrence reopens a group if and only if it is not ignored |
| Grouper.LineGrouper.AddLine | internal/ingest/group.go:67-86 | one line joins the open row, waits as blank or opens a new row as the specification says; RowRules.RowsAreRuled and OpensIff say when |
| Grouper.LineGrouper.PushLine | internal/ingest/group.go:98-106 | a joined line brings the pending blank lines with it |
| Grouper.LineGrouper.FlushRow | internal/ingest/group.go:125-139 | flushing emits the open row and resets the grouper |
| Grouper.LinesConserved | internal/ingest/group.go:67-139 | for every input the nonblank lines of the emitted rows and the open row are exactly the nonblank input lines in order |
| Grouper.RowsWithinLimits | internal/ingest/group.go:67-96 | every row's nonblank lines share one request id, number at most 1000 and total at most 262144 bytes unless the row is a single line; blank lines stand only between them |
| RowRules.RowsAreRuled | internal/ingest/group.go:67-130 | for every input, said of the rows that come out: inside a row no nonblank line breaks the lines above it, the first line of a row breaks the row before it, and a row's level is error or warn exactly when it completes a Rails request with 5xx or 4xx. A line breaks a row that carries another request id, has 1000 lines or would pass 262144 bytes, is a Rails request that is complete or that the line starts anew, or is a plain row and the line has no leading space or tab |
| RowRules.OpensIff | internal/ingest/group.go:67-97 | a nonblank line opens a row exactly when none is open or it breaks the open one |
| RowRules.CoherentMeans | internal/ingest/group.go:88-97 | so in a plain row every nonblank line after the first starts with a space or tab, in a Rails row none after the first starts a request and only the last completes it, and all carry one id |
| LogTail.Parse | internal/ingest/ingest.go:293-319 | the reading loop with its two cursors returns the rows and resume offset of the specification |
| LogTail.HeldPass | internal/ingest/ingest.go:293-319 | one held pass takes rows off the front and leaves the same rest, whatever is appended later |
| LogTail.HeldPassesAreInvisible | internal/ingest/ingest.go:293-319 | for any cuts of an append-only file at any byte positions, the rows of the held passes and the last flush are the rows of one pass over the whole file |
| QuietPasses.QuietPass | internal/ingest/ingest.go:288-319 | a pass without hold leaves the rows of the whole file as they are exactly when the row it flushes is closed or the next nonblank line does not join it, whatever is appended later |
| QuietPasses.TailingShowsIff | internal/ingest/ingest.go:288-319 | for any looks at an append-only file, its open row held or flushed each time, the rows and one last flush are those of one pass if and only if no look flushed a row that goes on |
| LogTail.ResumeOffset | internal/ingest/ingest.go:288-319 | a held pass resumes exactly at the first byte of the open row, or after the last whole line |
| SealedLogs.StepKeeps | internal/ingest/ingest.go:136-178 | sealing, parsing, commit, tail replacement, each removal and a stop between any two keep the invariant |
| SealedLogs.NoLineLost | internal/ingest/ingest.go:136-178 | at every point of every run each sealed nonblank line is in a committed row or still in a segment file |
| SealedLogs.NoLineTwice | internal/ingest/ingest.go:136-178 | and exactly once as long as no ingest stopped between its commit and its last removal |
| SealedLogs.CleanIff | internal/ingest/ingest.go:136-178 | that is, when every stop came before a commit or after its last removal |
| SealedLogs.PlanMeans | internal/ingest/ingest.go:136-178 | a plan has all rows of the segments in order; the open one is its tail instead exactly when the newest segment is recent |
| SealedLogs.IngestFinishes | internal/ingest/ingest.go:136-163 | an ingest of readable segments that nothing stops commits the rows of all of them and removes them, but for the newest when its open row is held back: of that one just the row's lines stay |
| SealedLogs.IngestsIff | internal/ingest/ingest.go:324-346 | an ingest gets past parsing exactly when every line of its segments fits the scanner's buffer |
| SealedLogs.LongLineStops | internal/ingest/ingest.go:136-178 | a longer line stops its process for good: its segment is never removed and no row of the process is committed again |
| LogWriter.AppWriter.Offer | internal/logstore/writer.go:32-84 | an entry is queued unless the queue is full, and refused otherwise |
| LogWriter.AppWriter.Insert | internal/logstore/writer.go:236-278 | a batch is stored whole when no statement and not the commit fails, and not at all otherwise |
| LogWriter.AppWriter.FlushNow | internal/logstore/writer.go:176-205 | a successful flush moves all buffers to the tables, a failed one keeps the newest rows up to the caps |
| LogWriter.AppWriter.Drain | internal/logstore/writer.go:206-216 | one entry joins the three buffers in order |
| LogWriter.AppWriter.OnEntry | internal/logstore/writer.go:219-223 | taking an entry flushes exactly when requests or blocked counters reach 256 |
| LogWriter.AppWriter.OnStop | internal/logstore/writer.go:226-234 | stopping drains the whole queue and flushes once |
| LogWriterSafety.ApplyIsWriter | internal/logstore/writer.go:169-234 | the run machine's steps are the writer's methods |
| LogWriterSafety.WriterConserves | internal/logstore/writer.go:169-278 | on every run with any inserts failing, the accepted rows are, in order, settled, buffered and queued; the tables hold exactly the settled rows not dropped, once and in order; every blocked hit is stored, buffered or thrown away |
| LogWriterSafety.StopSettles | internal/logstore/writer.go:206-234 | until it is stopped the writer works; its stop takes everything accepted, and with a good last insert no row is left behind |
| LogWriterSafety.FlushCaps | internal/logstore/writer.go:184-198 | every flush leaves every buffer within its cap |
| LogWriter.TrimmedMeans | internal/logstore/writer.go:184-198 | trimming keeps the newest rows up to the cap, in order |
| LogWriter.LimitsMean | internal/logstore/writer.go:16-223 | the queue holds 4096 entries, and 256 request rows or blocked paths make a flush |
| LogWriterSafety.AlwaysCapped | internal/logstore/writer.go:176-223 | before the stop, request rows and blocked counters are within their caps at every moment |
| LogWriterSafety.DropsOnlyOverCap | internal/logstore/writer.go:180-190 | a request row is dropped if and only if some insert failed on a backlog over the cap; without one, tables, buffer and queue are all accepted rows in order |
| LogWriterSafety.LogDropsOnlyOverCap | internal/logstore/writer.go:184-190 | a log row is dropped if and only if some insert failed on a backlog of log rows over its cap; without one, tables, buffer and queue are all accepted rows in order |
| LogWriterSafety.HitsForgottenOnlyOverCap | internal/logstore/writer.go:190-198 | hits of a path are thrown away if and only if some insert failed while the buffer held it among more paths than the cap; without that, table and buffer hold every hit taken |
| KeyCheck.EditDistance | internal/config/keycheck.go:201-219 | the two swapped rows compute the recursive Levenshtein distance |
| KeyCheck.DistanceIsLeast | internal/config/keycheck.go:201-219 | that distance is the least number of single-byte inserts, deletes and substitutions turning one string into the other |
| KeyCheck.NearEdit | internal/config/keycheck.go:201-219 | one edit changes the distance to any string by at most one |
| KeyCheck.Closest | internal/config/keycheck.go:191-199 | the first candidate of least distance when that is under three, else nothing |

## Left out

- Writing a finished batch, a journal or an index file through a `.tmp` name and a rename is one step, because no reader looks at that name; fsync order is not modelled.
- PartitionSafety.ReaderSeesAppended: the counts of zero-eid rows are stated while no merge awaits its deletes, because until then the merged file and its sources are both read and such rows have no identity to deduplicate by.
- FilterAgreement.WhereAgrees: reading and writing numbers, writing lists and lower-casing are functions of each runtime, not spelled out; rounding of doubles is not modelled.
- FilterTokens.ParseFilterText: number syntax, durations and the time layouts are parameters.
- Funnel.FunnelCorrect: the breakdown value of an actor is an arbitrary function, and the median of seconds, the rounding of percentages and the default window are not modelled.
- Summaries.UsersBelow: users (and, in Summaries.AnonsBelow, anons) of the index path are a largest day by design, so equality with the scan is not claimed.
- Report.Summarized: the byte count of the index files is not modelled.
- Reader.Reader.ReadIndex: the signature is the list of file names; modification times add nothing while names are fresh. The mutex is not modelled.
- PartialRemoval.StopAmongFiles: a removal is stopped among the files of a day without a pending journal; removing a journal or a temporary file first, and removing empty namespace directories, are not modelled.
- ExceptionRuns.TablesMeanCommitted: flag changes and retention are in the runs of CutsDoNotShow, CountsOverRuns and WarningsOverRuns instead.
- Grouper.LineGrouper.AddLine: request ids, Rails lines, log levels and color codes are functions of a line given by a `Syntax` value.
- SealedLogs.NoLineLost: counts nonblank lines, because the carried tail is written without its pending blank lines; one process's segments at a time; a carriage return is not counted towards the length of a line.
- LogWriterSafety.WriterConserves: AppendLogs, which inserts past the queue in its own transaction, is not a step of the machine; a batch left in the buffers by a failed last flush is lost with the process, as in the source.
- CompactApp's loop over directories: days are independent, so the model treats one; only closed days are compacted, and recovery of the current day is the recovery modelled.
- The row order inside an index file, and its Parquet form.
- Parquet, SQLite, full-text search, DuckDB, JSON decoding, regular expressions, and country lookup: values, tables and functions stand in for them. Event ids are a 64-bit FNV hash in the source; collisions of that hash are outside the model, which takes ids as different for different places.
- Saved views, the SQL of the base views, the query sandbox and its result reader: text assembly without a law of their own beyond the literals proved here.
- Log file discovery, process-log line parsing (time, level), the daemon's own sink and request recording fields: single-function parsing.
- Configuration decoding, supervisor, proxy, schedules, previews, CLI, console, HTTP handlers and sign-in: not part of this model.
