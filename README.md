# KeepAlive reinsertion bookkeeping in Dafny

KeepAlive is a Freenet plugin that keeps files retrievable. For each tracked URI it walks
the splitfile's segments, probes a sample of each segment's blocks, and accepts the segment
when enough of them are still fetchable. Otherwise it first heals the segment with forward
error correction (FEC) and then, block by block, reinserts what the network lost. All of
this is recorded in a Java `Properties` map through a small data-access object (DAO).

This project models that bookkeeping and proves properties of the model:

- the block and segment objects with their flags and counters, and the one-way `isFinished`;
- the resumable segment cursor, the comma-encoded block counters and the segment bitstring;
- block numbering during registration, the sampling quota and the full probe;
- the decision between accepting, healing and reinserting a segment, and the insert dispatch;
- the "worst of month" history string;
- the fetch and insert jobs as transitions of block flags, given the network's answer;
- the statistics summary (`getSuccessValues`, `SuccessValues`, `FetchBlocksResult`);
- the start-up property migration (`updateProperties`), including the 0.2 loop over `getAll`
  that drops each record's boost property and clears its block count;
- the property-map persistence: the id list, create/read/update/delete without upsert, the
  `uri#segment#id#d|c` block-list line codec, `parseInt`, and the key table with its defaults;
- the FCP (Freenet Client Protocol) command builder and the page's table of replies, including
  the identifier round trip `page_suffix_time` → `suffix`.

Layout: one module per Java class; `Plugin.updateProperties` has its own module,
`PluginUpdate`, because it uses the DAO, whose module itself imports `PluginModel`. Three support modules sit beside them: `Wrappers`
(Option, Result, Status and the Java exceptions as values), `JavaText` (the `String` and
`Integer` operations the code relies on, with Java's semantics, such as `split` dropping
trailing empty fields) and `FreenetKeys` (Freenet URIs as values). Mutable Java objects are
classes with `modifies` and `reads` frames. Stateless logic is functions and lemmas. Each
state-changing method states its new state through a specification function, and lemmas
about those functions carry the properties.

Inputs that come from outside become parameters:

- the network's answers;
- the FEC codec, as a function that fills the arrays or fails;
- the clock (`now`, the month text);
- random draws, as a sequence of booleans;
- the URI parser and key normaliser of the Freenet library;
- whether the job's thread is interrupted.

Where the code and its comments disagree, the model follows the code:

- `parseInt` answers -1, not the 0 its comment promises, for text that does not parse.
- `IUriValue.getUriString` is declared but not implemented by `UriValue`. The model takes the
  URI's own text.
- `SingleInsert` builds its fetch job with two arguments, but only a three-argument constructor
  exists. The model takes it as a normal fetch, not a persistence check.

## Model

| member | source | states |
|---|---|---|
| BlockModel.Freed | src/keepalive/model/Block.java:62-69 | freeing a bucket keeps its data and marks it freed; no bucket stays none |
| BlockModel.Block.constructor | src/keepalive/model/Block.java:28-44 | uri, segment id, id and data/check kind are the arguments; all four flags false, no bucket and no result log |
| BlockModel.Block.IsFetchInProcess | src/keepalive/model/Block.java:76-84 | true exactly while the fetch is not marked done |
| BlockModel.Block.SetBucket | src/keepalive/model/Block.java:67-69 | the bucket becomes the argument; no other field changes |
| BlockModel.Block.FreeBucket | src/keepalive/model/Block.java:62-64 | the held bucket is marked freed; no other field changes |
| BlockModel.Block.SetFetchDone | src/keepalive/model/Block.java:82-84 | only the fetch-done flag changes, to the argument |
| BlockModel.Block.SetFetchSuccessful | src/keepalive/model/Block.java:112-114 | only the fetch-successful flag changes, to the argument |
| BlockModel.Block.SetInsertDone | src/keepalive/model/Block.java:92-94 | only the insert-done flag changes, to the argument |
| BlockModel.Block.SetInsertSuccessful | src/keepalive/model/Block.java:102-104 | only the insert-successful flag changes, to the argument |
| BlockModel.Block.SetResultLog | src/keepalive/model/Block.java:122-124 | only the result log changes, to the argument |
| BlockModel.Block.AppendResultLog | src/keepalive/model/Block.java:127-129 | the log becomes the old log (or "null") followed by the argument |
| SegmentModel.Segment.constructor | src/keepalive/model/Segment.java:40-45 | id and size as given, an array of `size` empty slots, counters 0 and both flags false |
| SegmentModel.Segment.AddBlock | src/keepalive/model/Segment.java:51-60 | an id above size answers false and changes nothing; an id equal to size or negative throws; otherwise the block goes into slot id, only data blocks are counted, and no other slot changes |
| SegmentModel.Segment.CheckSize | src/keepalive/model/Segment.java:74-80 | data size plus check size is the segment size |
| SegmentModel.Segment.SlotsAreDataThenCheck | src/keepalive/model/Segment.java:62-80 | every slot is data block k or check block k - dataSize() |
| SegmentModel.Segment.InitInsert | src/keepalive/model/Segment.java:82-85 | both counters become 0; flags and blocks are unchanged |
| SegmentModel.Segment.RegFetchRate | src/keepalive/model/Segment.java:87-92 | sets persistenceCheckOk, success = rounded rate × size, failed = size - success, and hands on (id, success, failed) |
| SegmentModel.Segment.RegFetchOutcome | src/keepalive/model/Segment.java:94-101 | exactly one counter goes up by one (success when the argument holds) and the new pair is handed on |
| SegmentModel.Segment.SetHealingNotPossible | src/keepalive/model/Segment.java:137-139 | only the healing flag changes |
| SegmentModel.Segment.IsFinished | src/keepalive/model/Segment.java:107-135 | answers the finished test (accepted or unhealable; one block: inserted; otherwise every held block fetched or inserted); on a true answer every bucket is freed and the array dropped, so later calls answer true; a false answer changes nothing; the size never changes |
| SegmentModel.Segment.FreeAll | src/keepalive/model/Segment.java:125-132 | every held block's bucket is freed; nothing else changes |
| SuccessValuesModel.Wrap32 | src/keepalive/model/SuccessValues.java:34-37 | the result is the 32-bit two's-complement value congruent to the input |
| SuccessValuesModel.HashCode | src/keepalive/model/SuccessValues.java:34-37 | the hash is an `int` |
| SuccessValuesModel.Equals | src/keepalive/model/SuccessValues.java:39-47 | equal exactly when the three components are equal |
| SuccessValuesModel.WrapCongruent | src/keepalive/model/SuccessValues.java:34-37 | numbers that differ by a multiple of 2^32 wrap alike |
| SuccessValuesModel.HashCodePolynomial | src/keepalive/model/SuccessValues.java:34-37 | the hash is 31^3 + 31^2·available + 31·failed + success reduced to `int`, so equal values hash alike |
| PropertiesKeys.AllKeysComplete | src/keepalive/model/PropertiesKey.java:26-47 | the key list holds every key exactly once |
| PropertiesKeys.DefaultsTable | src/keepalive/model/PropertiesKey.java:28-47 | the ten defaults (power 6, tolerance 66, test size 18, …) and no default for the version keys and the six per-URI keys |
| PropertiesKeys.NameInjective | src/keepalive/model/PropertiesKey.java:28-64 | no two keys share a property name |
| PropertiesKeys.NameEndsInLetter | src/keepalive/model/PropertiesKey.java:28-47 | every property name ends in a letter |
| PropertiesKeys.PerIdNameInjective | src/keepalive/urivalues/impl/PropertiesUriValuesDAO.java:246-248 | a name "key_id" determines both the key and the id |
| PropertiesKeys.PerIdNameNotAKey | src/keepalive/urivalues/impl/PropertiesUriValuesDAO.java:246-248 | a per-URI name is never the name of a common setting |
| UriValueModel.UriValue.constructor | src/keepalive/urivalues/impl/UriValue.java:21-37 | the id as given; no URI, block count -1, cursor -1, success "", history "", no segment bits, no blocks |
| UriValueModel.UriValue.WithUri | src/keepalive/urivalues/impl/UriValue.java:39-42 | the same defaults plus the URI |
| UriValueModel.UriValue.UriString | src/keepalive/urivalues/IUriValue.java:17-23 | the URI's own text, none without a URI |
| UriValueModel.UriValue.SetUri | src/keepalive/urivalues/impl/UriValue.java:55-57 | only the URI changes |
| UriValueModel.UriValue.SetBlockCount | src/keepalive/urivalues/impl/UriValue.java:60-62 | only the block count changes |
| UriValueModel.UriValue.SetBlocks | src/keepalive/urivalues/impl/UriValue.java:75-77 | only the block map changes |
| UriValueModel.UriValue.PutBlock | src/keepalive/urivalues/impl/UriValue.java:70-72 | a put through the live map is seen in the record; nothing else changes |
| UriValueModel.UriValue.SetSuccessSegments | src/keepalive/urivalues/impl/UriValue.java:85-87 | only the segment bits change |
| UriValueModel.UriValue.SetSuccess | src/keepalive/urivalues/impl/UriValue.java:95-97 | only the counter text changes |
| UriValueModel.UriValue.SetHistory | src/keepalive/urivalues/impl/UriValue.java:105-107 | only the history changes |
| UriValueModel.UriValue.SetSegment | src/keepalive/urivalues/impl/UriValue.java:115-117 | only the cursor changes |
| FetchBlocksResultModel.CountPartition | src/keepalive/service/reinserter/FetchBlocksResult.java:5-14 | every recorded result is counted once, as a success or as a failure |
| FetchBlocksResultModel.FetchBlocksResult.constructor | src/keepalive/service/reinserter/FetchBlocksResult.java:5-6 | both counters start at 0 |
| FetchBlocksResultModel.FetchBlocksResult.AddResult | src/keepalive/service/reinserter/FetchBlocksResult.java:8-14 | exactly one counter goes up by one, keeping successful + failed equal to the number of calls |
| FetchBlocksResultModel.FetchBlocksResult.PersistenceRate | src/keepalive/service/reinserter/FetchBlocksResult.java:16-18 | successful over the number of results, as a rational |
| FetchBlocksResultModel.RateInUnitInterval | src/keepalive/service/reinserter/FetchBlocksResult.java:16-18 | a rate from at least one result lies in [0, 1] |
| FetchBlocksResultModel.NaNNeverAccepted | src/keepalive/service/reinserter/Reinserter.java:309-310 | a round without results (0/0) never meets the tolerance |
| FetchBlocksResultModel.RoundedShare | src/keepalive/model/Segment.java:87-92 | `Math.round(rate × n)` lies in 0..n; NaN gives 0 |
| FetchBlocksResultModel.RoundedShareExtremes | src/keepalive/model/Segment.java:87-92 | rate 1 keeps the whole segment; rate 0 and NaN keep nothing |
| FetchBlocksResultModel.RoundedShareIsNearest | src/keepalive/model/Segment.java:87-92 | the share is the nearest integer to rate × n, halves going up |
| SingleJobModel.RawDataUri | src/keepalive/service/net/SingleJob.java:46-51 | the same key with extra byte 2 set to 0 and every other byte kept |
| SingleJobModel.RawDataUriIdempotent | src/keepalive/service/net/SingleJob.java:46-51 | clearing the control byte twice is clearing it once |
| SingleJobModel.SingleJob.constructor | src/keepalive/service/net/SingleJob.java:39-44 | the job type and block as given, nothing read from the key yet |
| SingleJobModel.SingleJob.GetUri | src/keepalive/service/net/SingleJob.java:46-63 | the raw-data key; remembers the extra bytes and the compressor name ("none" for a negative id); fewer than five extra bytes or an unknown compressor throws and changes nothing |
| SingleJobModel.SingleJob.FinishLine | src/keepalive/service/net/SingleJob.java:65-75 | a line only while active and not interrupted; bold exactly when the block was neither fetched nor inserted |
| ReinserterModel.ActiveWindow | src/keepalive/service/reinserter/Reinserter.java:974-984 | the reinserter counts as active until MAX_LIFETIME + 5 = 35 minutes after the last activity, never when that time is unset |
| SingleFetchModel.ErrorLogged | src/keepalive/service/net/SingleFetch.java:64-66 | a fetch exception overwrites the log with the fetch error; any other answer keeps it |
| SingleFetchModel.FetchVerdict | src/keepalive/service/net/SingleFetch.java:72-82 | success (with "-> fetch successful") exactly when data arrived and the log was unset; a missing answer on an unset log gives "-> fetch failed" |
| SingleFetchModel.SingleFetch.constructor | src/keepalive/service/net/SingleFetch.java:36-40 | the block, the reinserter and the persistence-check flag as given |
| SingleFetchModel.SingleFetch.Call | src/keepalive/service/net/SingleFetch.java:43-98 | flags reset on entry; an interrupted thread returns false with nothing counted and the fetch not done; otherwise the verdict is applied, counted, and only then the fetch marked done; the answer is whether success was recorded |
| SingleFetchModel.SingleFetch.ResetAndLog | src/keepalive/service/net/SingleFetch.java:54-66 | both flags cleared and a fetch exception written to the log |
| SingleFetchModel.SingleFetch.ApplyVerdict | src/keepalive/service/net/SingleFetch.java:72-82 | the log and success flag become `FetchVerdict`; a success stores the data in a bucket |
| SingleFetchModel.SingleFetch.Conclude | src/keepalive/service/net/SingleFetch.java:72-86 | the verdict applied, the outcome counted on the block's segment, then the fetch marked done; a bad segment id ends it undone |
| SingleFetchModel.SingleFetch.CountFetch | src/keepalive/service/net/SingleFetch.java:85 | the block's segment counts one success or one failure; a bad segment id throws |
| SingleInsertModel.InsertPriority | src/keepalive/service/net/SingleInsert.java:85-86 | priority 1 for a one-block segment, 3 otherwise |
| SingleInsertModel.RequestFor | src/keepalive/service/net/SingleInsert.java:68-89 | the request carries the raw-data key, the compressor unless "none", the 1255 mode for crypto algorithm 2, and that priority |
| SingleInsertModel.InsertVerdict | src/keepalive/service/net/SingleInsert.java:96-109 | inserted exactly when the answer is the requested key; each other answer (another key, none, an exception) gets its own log |
| SingleInsertModel.SingleInsert.constructor | src/keepalive/service/net/SingleInsert.java:32-34 | the block and the reinserter as given |
| SingleInsertModel.SingleInsert.Run | src/keepalive/service/net/SingleInsert.java:42-125 | flags reset on entry; a block still without data gets "failed: fetch failed"; a missing block's fetch followed by inactivity stops the run; for a block that had its data, a stop means the thread was interrupted or the insert answered without an exception while the reinserter had gone inactive; otherwise the verdict is applied, a one-block segment's bit updated, and the insert marked done |
| SingleInsertModel.SingleInsert.FetchMissing | src/keepalive/service/net/SingleInsert.java:51-57 | a block with data is left alone; otherwise a fetch runs, and an inactive reinserter afterwards ends the run |
| SingleInsertModel.SingleInsert.InsertBucket | src/keepalive/service/net/SingleInsert.java:68-109 | an insert exception is logged at once, with no activity check; after any other answer the run stops exactly when the reinserter is inactive, leaving log and flag untouched; otherwise the log and the success flag are the insert verdict |
| SingleInsertModel.SingleInsert.Deliver | src/keepalive/service/net/SingleInsert.java:61-118 | without data the log says "failed: fetch failed"; with data an interrupted thread stops before the request, otherwise the insert verdict; a stop means data was present and either an interrupt or a non-exception answer with the reinserter inactive; completion marks the insert done and a success means the node answered with the requested key |
| SingleInsertModel.SingleInsert.UpdateSegmentBit | src/keepalive/service/net/SingleInsert.java:112-115 | the segment's bit is rewritten as `updateSegmentStatistic` does |
| PluginBaseModel.ParseIntOfNothing | src/pluginbase/PluginBase.java:519-529 | null or blank text reads as -1 |
| PluginBaseModel.ParseIntOfIntText | src/pluginbase/PluginBase.java:519-529 | the text of an `int` reads back as that `int` |
| PluginBaseModel.ParseIntUntrimmed | src/pluginbase/PluginBase.java:519-529 | a numeral with a space around it reads as -1 |
| PluginBaseModel.LoadPropSource | src/pluginbase/PluginBase.java:234-261 | the backup file is read whenever it exists, else the main file, else nothing |
| PluginBaseModel.KeyLookup | src/pluginbase/PluginBase.java:487-489 | a missing key reads as null |
| PluginBaseModel.IntPropRoundTrip | src/pluginbase/PluginBase.java:496-512 | `getIntProp` after `setIntProp(n)` gives n |
| PluginBaseModel.SetPropFrames | src/pluginbase/PluginBase.java:477-482 | setting one key leaves every other key as it was |
| PluginBaseModel.PluginBase.constructor | src/pluginbase/PluginBase.java:234-261 | the properties come from the chosen file; a missing log level is set to 0 |
| PluginBaseModel.PluginBase.GetIntProp | src/pluginbase/PluginBase.java:509-512 | `parseInt(getProp(key))`, -1 for a missing key |
| PluginBaseModel.PluginBase.SetProp | src/pluginbase/PluginBase.java:477-482 | a null key or value changes nothing; otherwise only that key changes |
| PluginBaseModel.PluginBase.SetIntProp | src/pluginbase/PluginBase.java:496-502 | stores the decimal text; only that key changes |
| PluginBaseModel.PluginBase.RemoveProp | src/pluginbase/PluginBase.java:535-540 | removes only that key; a null key changes nothing |
| PluginBaseModel.PluginBase.RemovePropNamed | src/pluginbase/PluginBase.java:546-551 | removes only that name; a null name changes nothing |
| PluginBaseModel.PluginBase.LogFile | src/pluginbase/PluginBase.java:281-295 | a line is appended exactly when its level is at most the configured log level |
| PluginModel.WithDefaultsSpec | src/keepalive/Plugin.java:302-326 | a present key keeps its value, an absent key gets its default if it has one, no other property is touched |
| PluginModel.SegmentPrefix | src/keepalive/Plugin.java:219-233 | the counted prefix is min(cursor + 1, length), never negative |
| PluginModel.ParsedPairSums | src/keepalive/Plugin.java:208-216 | when every entry parses, the pair sums are the even- and odd-index totals |
| PluginModel.PairSumsFails | src/keepalive/Plugin.java:208-216 | one entry that does not parse spoils every longer sum |
| PluginModel.SumPairsOfValues | src/keepalive/Plugin.java:210-215 | over entries that all parse, the pair sums are the even- and odd-index totals of the values |
| PluginModel.SumPairsFails | src/keepalive/Plugin.java:210-215 | an entry below the bound that does not parse leaves the pair sums undefined |
| PluginModel.PairSumsNext | src/keepalive/Plugin.java:212-215 | one more pass of the loop adds the two parsed numerals to the running sums |
| PluginModel.CounterStringTotals | src/keepalive/Plugin.java:208-216 | a counter string of an even number of numerals reads back as the even- and odd-index totals |
| PluginModel.Plugin.constructor | src/keepalive/Plugin.java:54-63 | no save yet |
| PluginModel.Plugin.SaveProp | src/keepalive/Plugin.java:247-257 | writes exactly when forced or the last write is more than 10 s old, and then records the time |
| PluginModel.Plugin.InitPropKey | src/keepalive/Plugin.java:312-326 | an absent key with a String or Integer default gets it; nothing else changes |
| PluginModel.Plugin.InitPropKeys | src/keepalive/Plugin.java:302-307 | every key is initialised in declaration order, then a forced save |
| PluginModel.Plugin.InitKeys | src/keepalive/Plugin.java:302-307 | after the loop over the keys the properties are `WithDefaults` of the old ones and those keys |
| UriValuesDao.StoredRecord | src/keepalive/urivalues/impl/PropertiesUriValuesDAO.java:61-82 | a record comes back exactly when its URI is stored and parses and its block file is absent or loads; it carries the id asked for |
| UriValuesDao.ReadableAreTheRead | src/keepalive/urivalues/impl/PropertiesUriValuesDAO.java:138-143 | `getAll`'s list holds a record exactly when reading some listed id gives that record |
| UriValuesDao.PropertiesUriValuesDao.GetAll | src/keepalive/urivalues/impl/PropertiesUriValuesDAO.java:138-143 | a broken id list is the only error, an id parse fault; otherwise no more records than listed ids |
| UriValuesDao.PropertiesUriValuesDao.UpdateRecord | src/keepalive/urivalues/impl/PropertiesUriValuesDAO.java:87-103 | the store as `UpdateOutcome` describes for the given record, then a save |
| PluginUpdate.UpdatedPropsKeepBoost | src/keepalive/urivalues/impl/PropertiesUriValuesDAO.java:93-100 | the names `update` writes are never a "boost_" name |
| PluginUpdate.UpdateKeepsBoosts | src/keepalive/urivalues/impl/PropertiesUriValuesDAO.java:87-103 | an accepted `update` neither adds nor removes any "boost_" property |
| PluginUpdate.MigrationAddsNoBoost | src/keepalive/Plugin.java:102-108 | a migration that runs to the end creates no "boost_" property |
| PluginUpdate.MigrationDropsBoosts | src/keepalive/Plugin.java:102-108 | for any `update` that keeps boost names, a completed migration leaves no "boost_id" of a migrated record |
| PluginUpdate.StoreMigrationDropsBoosts | src/keepalive/Plugin.java:102-108 | with the store's own `update`, a completed migration leaves no "boost_id" of a migrated record |
| PluginUpdate.MigrateRecords | src/keepalive/Plugin.java:102-108 | the loop removes each record's boost name and updates it with block count -1, stopping at the first refused update, exactly as `Migrate` describes |
| PluginUpdate.UpdateProperties | src/keepalive/Plugin.java:99-129 | a version shorter than 3 characters throws; "0.2…" migrates every readable record then sets the current version, a failed read or update propagating; "0.3.3.11-RW" gets database version "199" and a fresh install "206", both then the current version; each rewrite ends in a forced save and any other version changes nothing |
| PluginModel.Plugin.GetSuccessValues | src/keepalive/Plugin.java:203-241 | success and failed are the even- and odd-index sums, available the '1's up to the cursor; any exception gives (0, 0, 0) |
| PluginModel.SumCounters | src/keepalive/Plugin.java:208-216 | the summing loop equals the pair sums; none where a parse throws |
| PluginModel.CountAvailable | src/keepalive/Plugin.java:219-233 | the counting loop equals the number of '1's in the prefix |
| UriValuesDao.ParseIds | src/keepalive/urivalues/impl/PropertiesUriValuesDAO.java:156-170 | every entry parsed, or the exception of the first that does not parse |
| UriValuesDao.UriIds | src/keepalive/urivalues/impl/PropertiesUriValuesDAO.java:156-170 | no ids for a null or blank list, else the parsed comma fields |
| UriValuesDao.NewUriId | src/keepalive/urivalues/impl/PropertiesUriValuesDAO.java:176-178 | one more than the largest id, 0 for none, never an id in use |
| UriValuesDao.Without | src/keepalive/urivalues/impl/PropertiesUriValuesDAO.java:123-124 | the list without x, others in order |
| UriValuesDao.IdsTextAppend | src/keepalive/urivalues/impl/PropertiesUriValuesDAO.java:54-55 | `create` appends "id," to the stored list |
| UriValuesDao.IdsTextRoundTrip | src/keepalive/urivalues/impl/PropertiesUriValuesDAO.java:156-170 | the stored id text reads back as the ids it was built from |
| UriValuesDao.SplitIdsText | src/keepalive/urivalues/impl/PropertiesUriValuesDAO.java:164 | the stored text of a non-empty id list splits at the commas into the numerals of the ids |
| UriValuesDao.ParseIdsOfNumerals | src/keepalive/urivalues/impl/PropertiesUriValuesDAO.java:164 | the numerals of `int` ids parse back into those ids |
| UriValuesDao.DeleteFromIdsText | src/keepalive/urivalues/impl/PropertiesUriValuesDAO.java:123-124 | replacing ",x," by "," drops x from a list that holds it at most once |
| UriValuesDao.LineRoundTrip | src/keepalive/urivalues/impl/PropertiesUriValuesDAO.java:220-236 | `parseLine(convertLine(b))` gives back uri, segment id, id and kind when the URI text has no '#' |
| UriValuesDao.ConvertLineFields | src/keepalive/urivalues/impl/PropertiesUriValuesDAO.java:220-231 | the written line splits at its first three '#' into URI text, segment id, id and "d" or "c" |
| UriValuesDao.SplitFourFields | src/keepalive/urivalues/impl/PropertiesUriValuesDAO.java:228-231 | a line of four fields whose first three hold no '#' splits back into them |
| UriValuesDao.ParseLineOfFields | src/keepalive/urivalues/impl/PropertiesUriValuesDAO.java:228-231 | a line whose fields parse gives the block of those fields, data exactly when the kind is "d" |
| UriValuesDao.UriStoredIn | src/keepalive/urivalues/impl/PropertiesUriValuesDAO.java:145-150 | true exactly when some listed id's URI equals the text ignoring case |
| UriValuesDao.UpdateOutcome | src/keepalive/urivalues/impl/PropertiesUriValuesDAO.java:87-103 | a null or unstored URI is refused with nothing written; otherwise only the record's per-id names change |
| UriValuesDao.LoadLinesBrokenStays | src/keepalive/urivalues/impl/PropertiesUriValuesDAO.java:204-218 | a broken line stops the load however the file goes on |
| UriValuesDao.LoadLinesErrStays | src/keepalive/urivalues/impl/PropertiesUriValuesDAO.java:204-218 | a failed load stays failed whatever follows |
| UriValuesDao.LoadLinesNext | src/keepalive/urivalues/impl/PropertiesUriValuesDAO.java:210-214 | loading one more line is one more `LoadStep` on the map loaded so far |
| UriValuesDao.CreateExtendsIds | src/keepalive/urivalues/impl/PropertiesUriValuesDAO.java:41-59 | after `create` the stored list is the old one with the new id last |
| UriValuesDao.DeleteShrinksIds | src/keepalive/urivalues/impl/PropertiesUriValuesDAO.java:106-127 | after `delete` the list is the old one without the id, in order |
| UriValuesDao.CreateKeepsDistinct | src/keepalive/urivalues/impl/PropertiesUriValuesDAO.java:176-178 | the new id keeps the list free of repetitions |
| UriValuesDao.UpdatedNamesDiffer | src/keepalive/urivalues/impl/PropertiesUriValuesDAO.java:87-103 | the names `update` writes never touch another id or the id list |
| UriValuesDao.UpdatedPropsLookups | src/keepalive/urivalues/impl/PropertiesUriValuesDAO.java:87-103 | `update` keeps the id list, stores the URI under its id and keeps every other id's URI |
| UriValuesDao.UpdatedIdsLookup | src/keepalive/urivalues/impl/PropertiesUriValuesDAO.java:93-100 | the six writes of `update` leave the id list as it was |
| UriValuesDao.UpdatedUriLookup | src/keepalive/urivalues/impl/PropertiesUriValuesDAO.java:93-100 | after `update` the URI under its own id is the new text and every other id keeps its URI |
| UriValuesDao.UpdatedOwnUri | src/keepalive/urivalues/impl/PropertiesUriValuesDAO.java:94 | after `update` the record's own URI name holds the URI text |
| UriValuesDao.UpdatedOtherUri | src/keepalive/urivalues/impl/PropertiesUriValuesDAO.java:93-100 | `update` keeps the URI stored under any other id |
| UriValuesDao.UpdateKeepsRecordFound | src/keepalive/urivalues/impl/PropertiesUriValuesDAO.java:87-103 | an accepted record is still found afterwards |
| UriValuesDao.StillStored | src/keepalive/urivalues/impl/PropertiesUriValuesDAO.java:145-150 | a URI found under a listed id is still found once the list is kept and that id's URI is kept or set to the same text |
| UriValuesDao.PropertiesUriValuesDao.constructor | src/keepalive/urivalues/impl/PropertiesUriValuesDAO.java:35-38 | the DAO works on the plugin's properties |
| UriValuesDao.PropertiesUriValuesDao.GetPropId | src/keepalive/urivalues/impl/PropertiesUriValuesDAO.java:246-248 | the value under "key_id" |
| UriValuesDao.PropertiesUriValuesDao.SetPropId | src/keepalive/urivalues/impl/PropertiesUriValuesDAO.java:254-259 | a null key or value changes nothing; otherwise only "key_id" changes |
| UriValuesDao.PropertiesUriValuesDao.SetIntPropId | src/keepalive/urivalues/impl/PropertiesUriValuesDAO.java:285-291 | stores the decimal text under "key_id" only |
| UriValuesDao.PropertiesUriValuesDao.RemovePropId | src/keepalive/urivalues/impl/PropertiesUriValuesDAO.java:265-270 | removes "key_id" only |
| UriValuesDao.PropertiesUriValuesDao.ExistUriId | src/keepalive/urivalues/impl/PropertiesUriValuesDAO.java:152-154 | whether the id is in the parsed list |
| UriValuesDao.PropertiesUriValuesDao.Exist | src/keepalive/urivalues/impl/PropertiesUriValuesDAO.java:130-135 | a null URI is an error; otherwise whether the URI is stored ignoring case |
| UriValuesDao.PropertiesUriValuesDao.Create | src/keepalive/urivalues/impl/PropertiesUriValuesDAO.java:41-59 | a null or stored URI is refused with nothing changed; otherwise a record under the next id, its four properties written and "id," appended |
| UriValuesDao.PropertiesUriValuesDao.StoreNewRecord | src/keepalive/urivalues/impl/PropertiesUriValuesDAO.java:50-55 | the new record's properties, then the extended id list |
| UriValuesDao.PropertiesUriValuesDao.Read | src/keepalive/urivalues/impl/PropertiesUriValuesDAO.java:61-82 | an unknown id is refused; the read succeeds exactly when the id is listed and `StoredRecord` gives a record, and then gives that record, built from the per-id properties and the block list |
| UriValuesDao.PropertiesUriValuesDao.LoadBlockUris | src/keepalive/urivalues/impl/PropertiesUriValuesDAO.java:204-218 | the record's blocks are the accepted lines folded in file order |
| UriValuesDao.PropertiesUriValuesDao.LoadLine | src/keepalive/urivalues/impl/PropertiesUriValuesDAO.java:211-214 | one line of the file: a broken one stops the load and changes nothing, any other updates the blocks as `LoadStep` does |
| UriValuesDao.PropertiesUriValuesDao.PutLine | src/keepalive/urivalues/impl/PropertiesUriValuesDAO.java:214 | the block of an accepted line is put under its URI, every other block kept |
| UriValuesDao.MirrorsPut | src/keepalive/urivalues/impl/PropertiesUriValuesDAO.java:214 | putting a fresh block and its line under the same URI keeps the block map equal to the loaded lines |
| UriValuesDao.PropertiesUriValuesDao.BuildRecord | src/keepalive/urivalues/impl/PropertiesUriValuesDAO.java:68-78 | a record with the given id, URI, block count and progress fields whose blocks are the loaded lines; a broken block file refuses the record |
| UriValuesDao.PropertiesUriValuesDao.SetProgress | src/keepalive/urivalues/impl/PropertiesUriValuesDAO.java:73-76 | the record takes the segment bits, counters, history and cursor as given |
| UriValuesDao.PropertiesUriValuesDao.Update | src/keepalive/urivalues/impl/PropertiesUriValuesDAO.java:87-103 | the store as `UpdateOutcome` describes for the record the value holds, block count from the map size when non-zero, null strings skipped |
| UriValuesDao.PropertiesUriValuesDao.WriteRecord | src/keepalive/urivalues/impl/PropertiesUriValuesDAO.java:93-100 | the store becomes `UpdatedProps` of the record: URI text, block count (the block map's size when non-zero, else the record's count), the three strings and the cursor |
| UriValuesDao.PropertiesUriValuesDao.Delete | src/keepalive/urivalues/impl/PropertiesUriValuesDAO.java:106-127 | an unknown id is refused; otherwise the six per-id names removed and the id dropped from the list |
| UriValuesDao.PropertiesUriValuesDao.RemoveRecord | src/keepalive/urivalues/impl/PropertiesUriValuesDAO.java:110-124 | the six per-id names go, then the list is rewritten |
| ReinserterState.SegmentBitsAfter | src/keepalive/service/reinserter/Reinserter.java:948-955 | a success sets only character id to '1' and keeps the length; a failure keeps the string; null or out of range throws |
| ReinserterState.CountersAfter | src/keepalive/service/reinserter/Reinserter.java:957-962 | only entries 2·id and 2·id+1 change, to the two numbers; null or short text throws |
| ReinserterState.CountersReadBack | src/keepalive/service/reinserter/Reinserter.java:957-968 | the rewritten counters, joined and stored, split back to the same entries |
| ReinserterState.ZeroEntries | src/keepalive/service/reinserter/Reinserter.java:225-231 | m entries, each "0" |
| ReinserterState.ResetCounterTexts | src/keepalive/service/reinserter/Reinserter.java:223-233 | "0,0" per segment, comma separated, and one '0' per segment |
| ReinserterState.ResetReportsNothing | src/keepalive/service/reinserter/Reinserter.java:218-234 | after the reset the record reports no success, no failure and no available segment |
| ReinserterState.ZeroedFrom | src/keepalive/service/reinserter/Reinserter.java:246-249 | entries from `start` on become "0", the others stay |
| ReinserterState.ZeroFrom | src/keepalive/service/reinserter/Reinserter.java:246-249 | the in-place loop leaves the array equal to `ZeroedFrom`; a negative start throws first |
| ReinserterState.ResumeKeepsFinishedTotals | src/keepalive/service/reinserter/Reinserter.java:236-251 | resuming keeps the totals of the segments up to the cursor |
| ReinserterState.ResumeTotalsFrom | src/keepalive/service/reinserter/Reinserter.java:246-250 | the counters saved on resume read back as the pair sums below the first zeroed entry |
| ReinserterState.ZeroedTextTotals | src/keepalive/service/reinserter/Reinserter.java:246-250 | any text that splits into the zeroed entries reads back as the pair sums below the zeroing |
| ReinserterState.SumPairsOverZeros | src/keepalive/service/reinserter/Reinserter.java:247-249 | entries zeroed from an even index on add nothing to the pair sums |
| ReinserterState.SumPairsAgree | src/keepalive/Plugin.java:212-215 | two entry lists equal below an even bound have the same pair sums up to it |
| ReinserterState.CounterTotalsOfSplit | src/keepalive/Plugin.java:210-215 | a counter text reads back as the pair sums of its comma fields |
| ReinserterState.ZeroedPairSums | src/keepalive/service/reinserter/Reinserter.java:246-249 | zeroing from an even index keeps the pair sums below it |
| ReinserterState.JoinHistory | src/keepalive/service/reinserter/Reinserter.java:541-547 | the StringBuilder loop puts a comma before every entry after a non-empty prefix |
| ReinserterState.BufJoinIsJoin | src/keepalive/service/reinserter/Reinserter.java:541-547 | with no empty entry the loop is the comma join |
| ReinserterState.HistoryFromEmpty | src/keepalive/service/reinserter/Reinserter.java:523-558 | the first pass writes one entry "MM.yyyy-percent" |
| ReinserterState.HistoryText | src/keepalive/service/reinserter/Reinserter.java:526-532 | a well-formed history splits back into its entries |
| ReinserterState.HistoryNewMonth | src/keepalive/service/reinserter/Reinserter.java:548-553 | a month not mentioned is appended after a comma |
| ReinserterState.EntryFields | src/keepalive/service/reinserter/Reinserter.java:537-539 | an entry splits at its '-' into the month and the numeral |
| ReinserterState.LastEntryMonthOccurs | src/keepalive/service/reinserter/Reinserter.java:535 | the last entry's month occurs in the text |
| ReinserterState.HistorySameMonth | src/keepalive/service/reinserter/Reinserter.java:535-540 | a second pass in the month of the last entry replaces it with the smaller value |
| ReinserterState.SameMonthCase | src/keepalive/service/reinserter/Reinserter.java:535-547 | a history whose last entry parses and whose text mentions the month has that entry rewritten to the smaller value |
| ReinserterState.LastEntryReadsBack | src/keepalive/service/reinserter/Reinserter.java:526-539 | a history built from entries reads back its entries, mentions the last month, and its last value parses |
| ReinserterState.UpdatedHistoryText | src/keepalive/service/reinserter/Reinserter.java:535-547 | the replaced history is again well formed and splits back |
| ReinserterState.ReplacedLastWellFormed | src/keepalive/service/reinserter/Reinserter.java:535-547 | replacing the last entry by one of the same shape keeps the history well formed |
| ReinserterState.BuildHistory | src/keepalive/service/reinserter/Reinserter.java:526-558 | the history code computes `HistoryAfter` of the old history, month and percentage |
| ReinserterState.RewriteLastEntry | src/keepalive/service/reinserter/Reinserter.java:535-547 | the rewrite of the last entry is `LastEntryRewritten`: a short or unparsable last entry throws |
| ReinserterModel.UskRefreshAsWrittenFails | src/keepalive/service/reinserter/Reinserter.java:116-131 | the update after `setUri` is refused every time |
| ReinserterModel.UskRefreshCorrectedStores | src/keepalive/service/reinserter/Reinserter.java:116-131 | writing the new URI under the record's id first makes the update succeed and the new edition findable |
| ReinserterModel.Reinserter.constructor | src/keepalive/service/reinserter/Reinserter.java:89-94 | the DAO and record as given, no segments, numbering and activity time at 0 |
| ReinserterModel.Reinserter.Persist | src/keepalive/urivalues/impl/PropertiesUriValuesDAO.java:87-103 | the store after `update(uriValue)`; nothing else changes |
| ReinserterModel.Reinserter.UpdateSegmentStatistic | src/keepalive/service/reinserter/Reinserter.java:948-955 | the bitstring as `SegmentBitsAfter` gives it is stored and persisted; a throw stores nothing |
| ReinserterModel.Reinserter.UpdateBlockStatistic | src/keepalive/service/reinserter/Reinserter.java:957-962 | the counters as `CountersAfter` gives them are joined, stored and persisted; a throw stores nothing |
| ReinserterModel.Reinserter.SaveSuccessToProp | src/keepalive/service/reinserter/Reinserter.java:964-968 | the comma join becomes the counter text and the record is persisted |
| ReinserterModel.Reinserter.StartCounters | src/keepalive/service/reinserter/Reinserter.java:215-251 | a cursor at the last segment is reset to -1; from -1 the zero texts; otherwise one placeholder per segment up to the cursor and the counters zeroed from (cursor+1)·2 |
| ReinserterModel.Reinserter.StartOver | src/keepalive/service/reinserter/Reinserter.java:215-234 | the cursor goes to -1, the counters and bits are all zero for every segment, and the record is persisted |
| ReinserterModel.Reinserter.ResetCounters | src/keepalive/service/reinserter/Reinserter.java:222-234 | "0,0" per segment and one '0' per segment are stored and persisted |
| ReinserterModel.Reinserter.Resume | src/keepalive/service/reinserter/Reinserter.java:238-251 | one placeholder per finished segment, then the counters zeroed from (cursor+1)·2 and persisted; a null text or a cursor below -1 throws with nothing stored |
| ReinserterModel.Reinserter.ResumeCounters | src/keepalive/service/reinserter/Reinserter.java:245-250 | the counters zeroed from (cursor+1)·2 are persisted; a null text or a negative start throws with nothing stored |
| ReinserterModel.Reinserter.AddPlaceholders | src/keepalive/service/reinserter/Reinserter.java:241-243 | cursor + 1 null segments are appended |
| ReinserterModel.Reinserter.IsActive | src/keepalive/service/reinserter/Reinserter.java:970-984 | a new activity is recorded and answers true; otherwise the 35-minute window decides and nothing changes |
| ReinserterModel.Reinserter.CheckFinishedSegments | src/keepalive/service/reinserter/Reinserter.java:603-613 | the cursor loop, then the record is persisted unless the loop threw |
| ReinserterModel.Reinserter.StepCursor | src/keepalive/service/reinserter/Reinserter.java:605-610 | one pass of the loop: a finished next segment moves the cursor one on, an unfinished one stops it, no other segment's array changes |
| ReinserterModel.Reinserter.MoveCursor | src/keepalive/service/reinserter/Reinserter.java:609 | the cursor goes one on and the run stays well formed |
| ReinserterModel.Reinserter.PersistValid | src/keepalive/service/reinserter/Reinserter.java:612 | the record is persisted and the run stays well formed |
| ReinserterModel.Reinserter.AdvanceCursor | src/keepalive/service/reinserter/Reinserter.java:603-613 | the cursor never decreases, moves over each finished segment, stops at the first unfinished one or the last, and never looks at slots up to the start |
| ReinserterModel.Reinserter.RegisterBlockUri | src/keepalive/service/reinserter/Reinserter.java:915-938 | a fresh CHK becomes the next block (block 0 of the next segment on a new segment); a missing URI, another key type or a known key changes nothing |
| ReinserterModel.Reinserter.RegisterSegmentKeys | src/keepalive/service/reinserter/Reinserter.java:704-713 | fresh keys become blocks 0 .. n-1 of the next segment, data keys first |
| ReinserterModel.Reinserter.RegisterKey | src/keepalive/service/reinserter/Reinserter.java:709-713 | one pass of the loop: key j becomes block j of the segment, the earlier blocks kept |
| ReinserterModel.NormalizedKeysNext | src/keepalive/service/reinserter/Reinserter.java:932-933 | the normalised keys of one more key are the earlier ones plus its own |
| ReinserterModel.NotNormalized | src/keepalive/service/reinserter/Reinserter.java:923 | a key no earlier key normalises to is not yet registered by them |
| ReinserterModel.Reinserter.RegisterBlockFetchSuccess | src/keepalive/service/reinserter/Reinserter.java:940-946 | the block's segment counts the outcome and the counters are persisted; a bad segment id or a placeholder throws before counting |
| ReinserterModel.Reinserter.RefreshUskAsWritten | src/keepalive/service/reinserter/Reinserter.java:116-131 | a stored new edition is a duplicate; otherwise the record takes the new edition and the update is refused |
| ReinserterModel.Reinserter.RefreshUsk | src/keepalive/service/reinserter/Reinserter.java:116-131 | the corrected step: for a listed record the new edition is stored and found |
| ReinserterModel.Reinserter.AddToHistory | src/keepalive/service/reinserter/Reinserter.java:523-558 | only for a known block count and the cursor at the last segment; the history becomes `HistoryAfter` and is persisted; a malformed last entry throws with nothing stored |
| ReinserterRun.MaxSegmentId | src/keepalive/service/reinserter/Reinserter.java:209-212 | the largest segment id of the blocks, -1 for none |
| ReinserterRun.SegmentSize | src/keepalive/service/reinserter/Reinserter.java:265-270 | the number of blocks of that segment id |
| ReinserterRun.NextSegmentOf | src/keepalive/service/reinserter/Reinserter.java:264-280 | no blocks ends the pass; otherwise a segment of that size taking the blocks by id, appended to the run |
| ReinserterRun.FillSlots | src/keepalive/service/reinserter/Reinserter.java:275-279 | each block of the segment goes to its slot by id; success exactly when no id is rejected, and then every slot holds a member block |
| ReinserterRun.SampleQuota | src/keepalive/service/reinserter/Reinserter.java:292-294 | min(test size, ceil(size / 2)) |
| ReinserterRun.SampleIsProperPart | src/keepalive/service/reinserter/Reinserter.java:292-294 | for a split segment the sample is at least one block and never the whole segment |
| ReinserterRun.SampledDistinct | src/keepalive/service/reinserter/Reinserter.java:296-305 | the sample holds blocks of the segment, each once |
| ReinserterRun.SelectSample | src/keepalive/service/reinserter/Reinserter.java:296-305 | the selection loop with given draws takes distinct blocks until the quota is met or the draws run out |
| ReinserterRun.WithRestCovers | src/keepalive/service/reinserter/Reinserter.java:330-335 | the full probe starts with the sample, covers every slot once and adds nothing else |
| ReinserterRun.AddRest | src/keepalive/service/reinserter/Reinserter.java:330-335 | the loop's list is the sample followed by the unsampled blocks in slot order |
| ReinserterRun.Outcomes | src/keepalive/service/net/SingleFetch.java:72-82 | one success flag per fetched block, from its log and answer |
| ReinserterRun.FullProbeSuccessBound | src/keepalive/service/reinserter/Reinserter.java:328-340 | sampled blocks already carry a log, so only unsampled blocks can succeed on the full probe |
| ReinserterRun.RateOf | src/keepalive/service/reinserter/FetchBlocksResult.java:16-18 | successes over the number of outcomes |
| ReinserterRun.SmallSegmentsFailFullProbe | src/keepalive/service/reinserter/Reinserter.java:328-354 | under the defaults a segment of 2 to 52 blocks never meets the tolerance on its full probe |
| ReinserterRun.SegmentTurn | src/keepalive/service/reinserter/Reinserter.java:284-448 | the turn that completes follows `PlanFor` of the size, the tolerance, the two probe rates and whether FEC can heal: one block is queued as it is; an acceptance marks the segment persistent and moves on exactly when the cursor is not the last segment; a healing that fails marks the segment unhealable with nothing queued; a healed or single segment queues the unfetched blocks |
| ReinserterRun.SmallSegmentsNeverAcceptedOnFullProbe | src/keepalive/service/reinserter/Reinserter.java:328-427 | a segment of at most 52 blocks that fails the sample is healed or given up, never accepted |
| ReinserterRun.SaveAcceptance | src/keepalive/service/reinserter/Reinserter.java:312-313 | the segment accepted at the rounded rate, its counters and its bit persisted; the first exception stops |
| ReinserterRun.AcceptSegment | src/keepalive/service/reinserter/Reinserter.java:309-320 | the acceptance saved, the cursor advanced, and the pass moves on exactly when the cursor is not at the last segment |
| ReinserterRun.SaveCounters | src/keepalive/service/reinserter/Reinserter.java:957-962 | the counters are rewritten as `CountersAfter` gives them; a throw is its fault |
| ReinserterRun.SaveBit | src/keepalive/service/reinserter/Reinserter.java:948-955 | the segment's bit is set as `SegmentBitsAfter` gives it; a throw is its fault |
| ReinserterRun.MoveOnFrom | src/keepalive/service/reinserter/Reinserter.java:316-320 | the cursor never goes back and passes the finished segments; the pass breaks exactly when the cursor is not the last segment |
| ReinserterRun.MoveOverFinished | src/keepalive/service/reinserter/Reinserter.java:603-613 | the cursor never goes back and has passed every finished segment |
| ReinserterRun.ZeroBlock | src/keepalive/service/reinserter/Reinserter.java:371 | a block of 32768 zero bytes |
| ReinserterRun.SlotInputs | src/keepalive/service/reinserter/Reinserter.java:366-383 | one input and one presence flag per slot |
| ReinserterRun.ReadHealingInputs | src/keepalive/service/reinserter/Reinserter.java:362-383 | the two loops give the healing input; array sizes that do not fit throw first |
| ReinserterRun.SlotInputsAt | src/keepalive/service/reinserter/Reinserter.java:366-383 | slot k gives its block's content marked present when fetched, a zero block marked absent otherwise |
| ReinserterRun.CollectChecks | src/keepalive/service/reinserter/Reinserter.java:375-383 | the check loop completes the healing input exactly when every check slot can be read; otherwise it throws |
| ReinserterRun.ReadableSlots | src/keepalive/service/reinserter/Reinserter.java:366-383 | when every slot can be read the healing input is what the two loops read |
| ReinserterRun.UnreadableSlot | src/keepalive/service/reinserter/Reinserter.java:366-383 | one slot that cannot be read leaves no healing input |
| ReinserterRun.StoreHealed | src/keepalive/service/reinserter/Reinserter.java:413-420 | each slot in the range gets its healed content in a fresh bucket; other slots unchanged |
| ReinserterRun.MarkUnhealable | src/keepalive/service/reinserter/Reinserter.java:391-394 | the unchanged bit persisted and the segment marked unhealable |
| ReinserterRun.GiveUpHealing | src/keepalive/service/reinserter/Reinserter.java:391-396 | marked unhealable, the bits unchanged, the cursor advanced |
| ReinserterRun.ApplyHealing | src/keepalive/service/reinserter/Reinserter.java:413-422 | every block gets its healed content and the segment's bit is set |
| ReinserterRun.HealSegment | src/keepalive/service/reinserter/Reinserter.java:357-423 | FEC gets the inputs; a failure gives up healing with nothing reinserted; otherwise every block holds its healed content, the segment keeps its blocks and stays valid, and the bit is set |
| ReinserterRun.UnfetchedStep | src/keepalive/service/reinserter/Reinserter.java:436-443 | one more slot extends the queue exactly when it was not fetched |
| ReinserterRun.CountSlot | src/keepalive/service/reinserter/Reinserter.java:437-441 | a fetched block counts as a success, any other as a failure, persisted |
| ReinserterRun.TallySlot | src/keepalive/service/reinserter/Reinserter.java:437-441 | a fetched block raises the success counter by one, any other the failure counter |
| ReinserterRun.DispatchSlot | src/keepalive/service/reinserter/Reinserter.java:433-443 | one pass of the loop: counted, and queued when not fetched |
| ReinserterRun.QueueUnfetched | src/keepalive/service/reinserter/Reinserter.java:433-448 | the queue is exactly the unfetched blocks in slot order |
| ReinserterRun.DispatchInsertions | src/keepalive/service/reinserter/Reinserter.java:427-448 | counters cleared; a split segment queues its unfetched blocks; a one-block segment is always queued |
| FcpCommandBaseModel.LinesIsJoin | src/pluginbase/FcpCommandBase.java:83-95 | the written text is the fields joined by "\n" with a final "\n" |
| FcpCommandBaseModel.LinesSplitBack | src/pluginbase/FcpCommandBase.java:83-95 | the written text splits back into the fields |
| FcpCommandBaseModel.Connection.constructor | src/pluginbase/FcpCommandBase.java:38-47 | nothing executed yet |
| FcpCommandBaseModel.Connection.Execute | src/pluginbase/FcpCommandBase.java:132-142 | the frame is appended to the executed frames |
| FcpCommandBaseModel.FcpCommand.constructor | src/pluginbase/FcpCommandBase.java:38-47 | the page and connection as given, no fields, no payload |
| FcpCommandBaseModel.FcpCommand.Init | src/pluginbase/FcpCommandBase.java:97-110 | the fields become just "Identifier=page_suffix_time", a null suffix read as ""; no page throws |
| FcpCommandBaseModel.FcpCommand.Field | src/pluginbase/FcpCommandBase.java:112-120 | "key=value" is appended, earlier fields kept |
| FcpCommandBaseModel.FcpCommand.FieldInt | src/pluginbase/FcpCommandBase.java:122-130 | "key=n" is appended, earlier fields kept |
| FcpCommandBaseModel.FcpCommand.Write | src/pluginbase/FcpCommandBase.java:83-95 | every field followed by "\n", in insertion order |
| FcpCommandBaseModel.FcpCommand.Send | src/pluginbase/FcpCommandBase.java:132-142 | the stream and length are recorded, then one frame with them is executed |
| FcpCommandBaseModel.FcpCommand.SendPlain | src/pluginbase/FcpCommandBase.java:144-146 | a send without payload |
| PageBaseModel.NoSeparatorFails | src/pluginbase/PageBase.java:145-158 | an identifier without '_' throws |
| PageBaseModel.SuffixRoundTrip | src/pluginbase/PageBase.java:145-158 | "page_s_ts" gives back s when page and ts hold no '_' and ts is non-empty |
| PageBaseModel.RequestIdentifierRoundTrip | src/pluginbase/FcpCommandBase.java:58-66 | the identifier a command is sent with gives back its suffix |
| PageBaseModel.FiledReplyIsFound | src/pluginbase/PageBase.java:160-169 | a reply filed under a command's identifier is found under that command's suffix |
| PageBaseModel.Page.constructor | src/pluginbase/PageBase.java:56-86 | no messages, no redirects, no redirect taken |
| PageBaseModel.Page.GetIdentifier | src/pluginbase/PageBase.java:145-158 | the StringBuilder loop gives field 1 then "_" + each field up to the last but one; a missing identifier throws |
| PageBaseModel.Page.AddMessage | src/pluginbase/PageBase.java:160-169 | the message replaces any entry under its suffix; a bad identifier throws and changes nothing |
| PageBaseModel.Page.UpdateRedirectUri | src/pluginbase/PageBase.java:171-180 | the message's redirect replaces the entry under its suffix; a bad identifier throws and changes nothing |
| PageBaseModel.Page.GetMessage | src/pluginbase/PageBase.java:389-406 | absent or another name: no message and nothing changes; a match removes the message and its redirect, which becomes the last redirect; a null id throws |

## Left out

- Threads: executors, latches, `wait` polling and interrupts are concurrency. The pools become sequential loops; "interrupted" and "active" are inputs.
- The network: Freenet fetch and insert calls, metadata parsing and manifest fetching are foreign code. Their answers are inputs.
- `fetchBlocks` and its pool timeout are not modelled. A round of fetches is the sequence of its outcomes (`Outcomes`, `RateOf`).
- FEC: the codec's arithmetic is not modelled. The codec is a parameter that fills its arrays or fails.
- The top-block check and the H2 database are not modelled: they are foreign storage and network code.
- File I/O is not modelled: log files, property file rotation, `getLog`, and reading or writing block-list files. The lines of a block-list file are an input; only the line codec is modelled.
- The web pages and HTTP handling are presentation: `AdminPage`, `UiKey`, and PageBase's request handling and HTML.
- Floating point is not modelled. The persistence rate is a rational, `Math.round` is round-half-up, and `>= tol/100` is the exact rational comparison.
- AddToHistory: the month's percentage `(int)(success / blockCount * 100)` is a double computation, so it is an input, as is the `MM.yyyy` text of the clock.
- SelectSample: `Math.random()` becomes a sequence of draws. The loop stops when the draws run out, while the source retries until the quota is met.
- The clock is an input (`now`). The time budget of the segment loop is not modelled.
- Iteration order of `HashMap`: the model goes through the blocks in key order. Each block is still placed in its own slot.
- `removeUriAndFiles` is not modelled: it deletes files. The duplicate case of the USK step ends the run.
- `updateUsk` is an oracle: the newest edition is an input.
- The `checkFinishedSegments` call at the head of each dispatch step is not modelled. The dispatch happens before the segment's own insert jobs run.
- DispatchInsertions: marks activity after reading the slot rather than before; both orders leave the same state.
- The outer loop over the splitfile's segment keys is not modelled. `RegisterSegmentKeys` covers one segment's keys.
- Log and status text: log messages, link rewriting and `finish()`'s output outside `FinishLine` are not modelled.
- Exceptions are values of `Fault`. Messages are not modelled, and a wrapped `Exception` is one generic value.
- A freed bucket read by `toByteArray` is not modelled: the model reads the data kept in the bucket.
- `IOException` paths of property and file handling are not modelled.
- The fcp2 `Message` and `Connection` classes are not part of this model: a message is a name, an optional identifier and a field map, and a connection records the frames it executes.
- The `id * 2` counter index is unbounded here, so its `int` overflow for ids above 2^30 is not modelled.
- NewUriId: the id is an unbounded integer, so `max + 1` does not wrap to a negative `int` when the largest id is 2^31 - 1 as it does in Java.
- SumCounters: the sums are unbounded integers; the `int` wrap-around of `+=` once a total passes 2^31 - 1 is not modelled.
- GetSuccessValues: its success and failed totals come from `SumCounters` and are unbounded in the same way.
- UriStoredIn: case is folded on ASCII letters only; `equalsIgnoreCase` also folds other letters, so two URIs that differ only in the case of a non-ASCII letter are equal in Java and different here.
- Exist: it uses `UriStoredIn`, so the same ASCII-only case folding applies.
- GetAll: `getAll`'s parallel stream and the objects it creates are values here; `readUnchecked`'s log line for a record it drops is not modelled.

## Findings

| source | as written | input that shows it | evidently intended | confidence | as-written member | corrected member |
|---|---|---|---|---|---|---|
| src/keepalive/service/reinserter/Reinserter.java:116-131 | after `setUri(newUri)` the record is passed to `update`, which looks the record up by its new URI; `exist(newUri)` has just answered false, so `update` always throws "does not exist" and the run aborts | any USK record whose newest edition differs from the stored one and is not stored yet | store the new edition under the record's id, so that `update` finds the record | not executed | ReinserterModel.UskRefreshAsWrittenFails, ReinserterModel.Reinserter.RefreshUskAsWritten | ReinserterModel.UskRefreshCorrectedStores, ReinserterModel.Reinserter.RefreshUsk |
