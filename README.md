# AMTU metadata reconciliation, modelled in Dafny

AMTU (Apple Music Tag Updater MP3) scans a directory of MP3 files and groups them by album tag. For each group it asks up to three music catalogues (MusicBrainz, Spotify, Discogs) for the record label and catalogue number of the first file. It scores the candidates by string similarity and keeps the best one only if it is confident enough and has a label. It then writes the label (TCOM), catalogue number (GRP1), a cleaned album title (TALB) and the album artist (TPE2) into every file of the group. The file's other frames and its modification time are preserved. Errors and skipped files go to two ledgers, and run-wide counters are kept in a summary. Two helpers complete the core: a rule-based genre classifier with user-extensible tables, and a locale manager that serves translations by dotted key.

This project models that core and proves properties of the model:

- `Similarity`: `clean_text`, the Levenshtein table and ratio, and the weighted confidence score.
- `Aggregator`: `_execute_search` over the three catalogues, and the `search_track` retry loop.
- `Tags`, `Ledgers`: the files on disk, what EasyID3 reads, and the error and not-found records.
- `Grouping`: `group_files_by_album` as a specification.
- `TagMerge`: the frame rules of `_update_metadata`, the "- Single" clean-up, the counters, and the save.
- `RunSpec`: `_get_album_metadata`, the cohort loop of `process_directory`, cancellation and progress, as functions over the processor's state.
- `Processor`: the class `MP3Processor`. Its fields are the disk, both ledgers, the cancel flag and the summary. Every method is proved to produce exactly the state that the `RunSpec`/`TagMerge`/`Grouping` functions describe.
- `Genres`: the class `GenreManager`. It has three ordered rule tables (a Python dict keeps insertion order; an update keeps a key's position and appends new keys), `detect_genre`, and `load_custom_mappings`.
- `Locales`: the class `LocaleManager`, with `get_text`, `set_locale` and the default translations.
- `Models`, `Text`, `Wrappers`: the `TrackMetadata` record, the Python string operations used (ASCII), and `Option`/`Raising`.

What the program cannot see becomes a parameter:

- the catalogue replies of each search attempt (`Aggregator.Replies`, `Aggregator.Attempt`);
- which services are enabled;
- when `cancel_processing` has been called, as seen at each check of the flag (`RunSpec.Environment.cancel`);
- the clock that stamps a file that gets a fresh ID3 tag;
- the parsed JSON files of the genre and locale managers;
- `str.format`, as a partial function.

In several places the code behaves otherwise than its names, docstrings and comments suggest (for instance the docstring of `_update_metadata`, AMTU.py:627, and the comment at AMTU.py:467). The model follows the code:

- `_levenshtein_ratio("", "")` is 0, not 1, because either empty string returns 0. The `max_length == 0` branch is dead.
- `search_track` does not return an empty successful result. It falls through to the next attempt and returns `[]` only after the last one.
- `_update_metadata` does no genre resolution and keeps no `genre_updates` counter. TCON is only restored.
- The album clean-up is not idempotent. A second update of an already updated file can change TALB again (`TagMerge.CleanAlbumNotIdempotent`, `TagMerge.MergeTwice`).
- `_read_metadata` fills the label and catalogue number with `''` rather than absent when the frame is missing.
- The reason "Pas de label trouvé" can never be logged (`RunSpec.NoLabelReasonUnreachable`).
- The cancel flag is never reset, not even by a new run (`RunSpec.CanceledRunSkipsCohorts`).
- EasyID3's `grouping` key is the TIT1 frame, while `_update_metadata` writes the catalogue number to GRP1. So the catalogue number read back (`Tags.ReadTags`) is TIT1's text.

## Model

| member | source | states |
|---|---|---|
| Models.NewTrack | models.py:5-18 | a record built from title, artist and album has every other field at its default: label, catalogue number, artist sort, year and genre absent, not a single, confidence 0, source "" (the same record as AMTU.py:42-55) |
| Text.Lower | AMTU.py:445 | lower-casing leaves no upper-case letter, preserves alphanumeric and white-space characters, and changes nothing else |
| Text.LowerStr | AMTU.py:445 | `lower()` maps each character and keeps the length |
| Text.StripStart | AMTU.py:445 | the result is a suffix of the input, only white space was dropped, and it does not start with white space |
| Text.StripEnd | AMTU.py:447 | the result is a prefix of the input, only white space was dropped, and it does not end with white space |
| Text.Strip | AMTU.py:445-447 | `strip()` leaves no white space at either end, never lengthens, and preserves "only clean characters" and "no upper case" |
| Text.KeepAlnumSpace | AMTU.py:446 | the kept characters are alphanumeric or white space, and on lower-cased input they are clean characters |
| Text.Find | AMTU.py:437-438 | `find` gives -1 iff the character is absent, else the index of its first occurrence |
| Text.BeforeFirst | AMTU.py:451 | `split('&')[0]` is the longest prefix without '&', followed by '&' when shorter than the input |
| Text.Split | locales/locale_manager.py:94 | `split('.')` gives at least one part and no part contains the separator |
| Text.JoinSplit | locales/locale_manager.py:94 | joining the parts of a split with the separator gives back the key |
| Text.SplitJoin | locales/locale_manager.py:94 | splitting the join of separator-free parts gives back those parts |
| Text.SplitWithoutSeparator | locales/locale_manager.py:94 | a key without '.' is a single part |
| Similarity.Cut | AMTU.py:436-442 | one step of the parenthesis loop applies iff both '(' and ')' occur with the first '(' before the first ')', and then it shortens the text |
| Similarity.StripParens | AMTU.py:436-442 | the loop terminates, never lengthens the text, and leaves nothing it could still cut |
| Similarity.Cleaned | AMTU.py:433-447 | the cleaned text has only lower-case letters, digits and white space, and no white space at either end |
| Similarity.CleanText | AMTU.py:433-447 | the while loop computes the cleaned text |
| Similarity.DistOfPrefixes | AMTU.py:479-496 | a table entry (i, j) depends only on the prefixes s1[:i] and s2[:j] |
| Similarity.PrefixDistance | AMTU.py:479-496 | entry (i, j) is the edit distance of s1[:i] and s2[:j] |
| Similarity.ShorterB | AMTU.py:489-496 | dropping the last character of s2's prefix lowers the distance by at most one |
| Similarity.ShorterA | AMTU.py:489-496 | dropping the last character of s1's prefix lowers the distance by at most one |
| Similarity.MatchingCharacters | AMTU.py:491-492 | equal last characters cost nothing |
| Similarity.Mismatch | AMTU.py:493-496 | different last characters cost one more than the best of deletion, insertion and substitution |
| Similarity.DistAtMostLonger | AMTU.py:498-502 | the distance is at most the longer length, which keeps the ratio non-negative |
| Similarity.DistAtLeastGap | AMTU.py:479-496 | the distance is at least the difference of the lengths |
| Similarity.DistSelf | AMTU.py:479-496 | a string is at distance 0 from itself |
| Similarity.DistZero | AMTU.py:479-496 | distance 0 only between equal prefixes |
| Similarity.RatioBounds | AMTU.py:474-502 | the ratio lies in [0, 1], including the 0 returned for an empty string |
| Similarity.RatioOneIff | AMTU.py:498-502 | for non-empty strings the ratio is 1 iff they are equal |
| Similarity.FillRow | AMTU.py:489-496 | one pass of the inner loop fills row i with the distances and keeps the earlier rows and the first column |
| Similarity.DistanceTable | AMTU.py:479-496 | the nested loops leave every entry (i, j) equal to the distance of the prefixes |
| Similarity.LevenshteinRatio | AMTU.py:474-502 | the method returns 0 when either string is empty, else 1 - distance / max length |
| Similarity.ScoreBounds | AMTU.py:465-469 | ratios in [0, 1] give a weighted score with capped bonus in [0, 100] |
| Similarity.ConfidenceBounds | AMTU.py:427-472 | the confidence always lies in [0, 100] |
| Similarity.ConfidenceFirstArtistOnly | AMTU.py:451-453 | artists that agree before their first '&' give the same confidence |
| Similarity.ConfidenceFullMatch | AMTU.py:459-469 | equal non-empty cleaned titles and first artists give exactly 100 (both ratios 1, bonus capped) |
| Similarity.CalculateConfidence | AMTU.py:427-472 | 0 if any input is empty; otherwise the weighted ratios of the cleaned titles and first artists, +20 capped at 100 iff one cleaned title contains the other; in [0, 100] |
| Aggregator.PickIndex | AMTU.py:240 | `max` picks a candidate of maximal confidence, and every earlier candidate has strictly smaller confidence |
| Aggregator.BestAfterWinner | AMTU.py:222-251 | after n catalogues there is no best iff none of them offered a labelled pick; otherwise the best is the offer of one catalogue, every earlier offer has strictly smaller confidence and every later one at most equal |
| Aggregator.SearchResultShape | AMTU.py:217-259 | the result has at most one element; it is empty iff no catalogue offers; otherwise its element is the first maximal candidate of an enabled catalogue that answered, and has a non-empty label |
| Aggregator.FailedIsSkipped | AMTU.py:249-251 | a catalogue whose search raises gives the same result as if it were disabled |
| Aggregator.ExecuteSearch | AMTU.py:217-259 | the provider loop computes that result |
| Aggregator.SearchFromOutcome | AMTU.py:204-215 | from attempt k: a non-empty result iff some later attempt succeeds with none between, and then that attempt's result; raises iff no success and the last attempt raised |
| Aggregator.SearchTrackOutcome | AMTU.py:201-215 | `search_track` returns a non-empty result exactly when some attempt within `retries` succeeds, and then the result of the first success; without one it raises exactly when the last attempt raised, and returns [] otherwise |
| Aggregator.SearchFromUsesFirstAttempts | AMTU.py:204 | attempts from `retries` on are never consulted |
| Aggregator.NoRetries | AMTU.py:204-215 | with no attempts the result is [] |
| Aggregator.SearchTrack | AMTU.py:201-215 | the retry loop computes that outcome |
| Tags.ReadTags | AMTU.py:742-756 | a read succeeds iff the file exists and has an ID3 tag; it gives title, artist and album from TIT2, TPE1 and TALB, label and catalogue number from TCOM and TIT1 ('' when missing), every other field at its default |
| Tags.ReadTagsLocal | AMTU.py:742-756 | a read depends only on that file's tag |
| Ledgers.ErrorRecordFor | AMTU.py:603-609 | an error record holds the file and failure, and the title, artist and album read back, or '' without metadata |
| Ledgers.NotFoundRecordFor | AMTU.py:761-767 | a not-found record holds the file and reason, and the title, artist and album given, or '' without metadata |
| Ledgers.ReadLog | AMTU.py:753-756 | a read appends nothing iff it succeeds, else one tag-read record with empty fields |
| Ledgers.LogErrorRecords | AMTU.py:599-613 | in the corrected behaviour of the Findings row, `_log_error` appends exactly one record of the failure, with the fields read back from a readable file and empty fields otherwise |
| Ledgers.ShallowReadsOverflow | AMTU.py:742-756 | as written, a failed read without room for the logger's frames escapes as a stack overflow |
| Ledgers.UnreadableDuplicates | AMTU.py:742-756 | as written, a failed read with enough stack appends n identical tag-read records, n set by the stack depth, and returns None |
| Ledgers.HeaderlessFileRecordedTwice | AMTU.py:599-613 | concrete case: a file without ID3 header read at one depth is recorded twice, at another not at all |
| Ledgers.ReadLogAgreesWhenReadable | AMTU.py:744-752 | as written and as corrected agree on readable files |
| Grouping.Members | AMTU.py:534-535 | the comprehension keeps, in input order, only readable files whose album is the one asked |
| Grouping.KeyIndex | AMTU.py:539 | `album_info not in grouped`: -1 iff no group has the key, else the group with it |
| Grouping.MembersNone | AMTU.py:534-535 | no file with the album gives no members |
| Grouping.MembersSnoc | AMTU.py:534-535 | one more file adds it to the members iff it carries the album |
| Grouping.SkipStep | AMTU.py:533 | a file without a readable non-empty album keeps the groups well formed |
| Grouping.AppendStep | AMTU.py:539-541 | a file whose key exists is appended to its group and keeps the groups well formed |
| Grouping.MissingKey | AMTU.py:539-540 | a missing key means no group has that album and no file seen so far carries it |
| Grouping.NewKeyStep | AMTU.py:538-541 | a file with a new key opens a group at the end and keeps the groups well formed |
| Grouping.NewKeyGroups | AMTU.py:538-541 | after a new key every group still holds exactly the members of its album |
| Grouping.GroupedPrefixWellGrouped | AMTU.py:530-541 | after any prefix, every group has a non-empty album, the right EP flag, exactly that album's files in order, and no other group's album; every file with an album is in a group |
| Grouping.GroupFilesSpec | AMTU.py:523-557 | every grouped file has a readable album equal to its key's; one key per album; `is_ep` iff fewer than 7 input files carry the album; files keep input order; every file with an album is grouped |
| Grouping.GroupsHaveFiles | AMTU.py:539-541 | no group is empty |
| Grouping.CountGrouped | AMTU.py:533 | at most as many files have an album as there are files |
| Grouping.SumSizesGrouped | AMTU.py:546-548 | the groups hold as many files as carry a readable non-empty album |
| Grouping.SinglesCount | AMTU.py:548 | the singles count is the number of files left ungrouped, and is never negative |
| Grouping.UnreadableLogLength | AMTU.py:534-535 | in the corrected behaviour of the Findings row, a pass over the files logs one record per unreadable file |
| Grouping.GroupLogLength | AMTU.py:530-535 | in the corrected behaviour of the Findings row, grouping logs one record per unreadable file, plus, for each grouped file, one per unreadable input file |
| Grouping.GroupLogRecords | AMTU.py:530-535 | every record grouping logs is a tag-read record with empty fields for an unreadable input file |
| Grouping.UnreadableLogRecords | AMTU.py:534-535 | every record of a pass is a tag-read record for one of its unreadable files |
| TagMerge.SkipSpace | AMTU.py:676-679 | `\s*` stops at the first non-space, after white space only |
| TagMerge.MatchFrom | AMTU.py:683 | the leftmost match position at or after i, or none |
| TagMerge.Sub | AMTU.py:683 | `re.sub` leaves the text unchanged iff the pattern matches nowhere; otherwise it cuts at the leftmost match, which runs to the end |
| TagMerge.CleanAlbum | AMTU.py:671-685 | the clean-up never lengthens the album |
| TagMerge.SubEach | AMTU.py:682-683 | the substitutions in sequence never lengthen the text |
| TagMerge.SubEachSnoc | AMTU.py:682-683 | one more pattern applies to the result of the earlier ones |
| TagMerge.CleanAlbumBySubEach | AMTU.py:682-685 | the clean-up is the four substitutions in order, then `strip` |
| TagMerge.SubWithoutMarker | AMTU.py:676-679 | without '-' (or ')') the pattern cannot match |
| TagMerge.SubDashOnce | AMTU.py:676 | "X - Single" becomes "X" |
| TagMerge.StripUntrimmed | AMTU.py:685 | `strip` leaves a trimmed text unchanged |
| TagMerge.CleanAlbumNotIdempotent | AMTU.py:675-685 | three "- Single" suffixes become one, and a second clean-up removes it |
| TagMerge.CleanAlbumWithoutSuffix | AMTU.py:682-685 | an album no pattern matches is only stripped |
| TagMerge.SubIsPrefix | AMTU.py:683 | a substitution leaves a prefix of the text |
| TagMerge.CleanAlbumIsStrippedPrefix | AMTU.py:671-685 | the cleaned album is a stripped prefix of the album |
| TagMerge.CaselessChange | AMTU.py:650-668 | TCOM/GRP1 is written iff the new value is non-empty and differs ignoring case, and then it is the new value |
| TagMerge.RulesWith | AMTU.py:649-699 | the four rules flag the label and catalogue by caseless change, the album iff the cleaned album differs, and the album artist iff non-empty and different with case |
| TagMerge.MergeWith | AMTU.py:649-712 | the rules followed by the restore keep the same flags |
| TagMerge.MergeWithRules | AMTU.py:649-712 | TCOM, GRP1, TALB and TPE2 hold the written value or their old one; TIT2, TPE1, TCON, TDTG and all other frames are unchanged |
| TagMerge.LabelAndCatalogRules | AMTU.py:650-668 | the label and catalogue are set iff non-empty and different ignoring case, and the frames hold the new value exactly then |
| TagMerge.AlbumAndAlbumArtistRules | AMTU.py:670-699 | TALB is set iff the clean-up changed it, TPE2 iff the artist is non-empty and differs with case |
| TagMerge.OtherFramesKept | AMTU.py:701-712 | title, artist, genre, tagging time and every other frame keep their prior values |
| TagMerge.MergeTwice | AMTU.py:650-699 | merging the merged tag again writes no label, catalogue or album artist, and changes something iff the album can be cleaned further |
| TagMerge.Counted | AMTU.py:649-719 | each written label/catalogue bumps its counter and joins its set; a changed file bumps `updated_files` and records the source; `total_files` is untouched here |
| TagMerge.SavedOutcome | AMTU.py:714-740 | the file is saved iff something changed, then with the merged tag and its prior mtime; other files untouched; success counts the file and logs nothing, a failed save logs one tag-update error and raises |
| TagMerge.UpdateFileOutcome | AMTU.py:626-740 | on a file with a tag: the same save, counter and error rules, starting from the file as it was |
| TagMerge.UpdateFileFrame | AMTU.py:626-740 | any update touches only its file, raises iff it logs one tag-update error, and otherwise counts the file and leaves it readable |
| TagMerge.UpdateTwice | AMTU.py:650-725 | a second update with the same metadata succeeds and changes no label, catalogue, album artist or their counters |
| RunSpec.AlbumMetadata | AMTU.py:788-845 | the lookup logs exactly what reading the first file logs |
| RunSpec.AlbumMetadataOutcome | AMTU.py:788-845 | a match is returned iff title and artist are present, the search returned a non-empty result and its first element is accepted; it raises iff the search raised |
| RunSpec.LookupAccepted | AMTU.py:833-842 | a returned match has confidence at least 60 and a non-empty label |
| RunSpec.Percents | AMTU.py:886-890 | the reported percentages for processed counts lo+1 .. hi |
| RunSpec.UpdateEachOutcome | AMTU.py:882-895 | updating a cohort counts each success once in `total_files`, adds two error records per failed file, reports one percentage per success, and leaves the not-found ledger and flag alone |
| RunSpec.UpdateEachCounts | AMTU.py:882-890 | successes counted in `processed` match `total_files` |
| RunSpec.UpdateEachErrors | AMTU.py:891-895 | every failed file adds two error records |
| RunSpec.UpdateEachReports | AMTU.py:886-890 | one report per success, in order |
| RunSpec.UpdateEachKeeps | AMTU.py:882-895 | updates never touch the not-found ledger or the cancel flag |
| RunSpec.UpdateFileCounts | AMTU.py:626-740 | an update raises iff it logs one record, and counts the file iff it succeeds |
| RunSpec.AfterUpdateOutcome | AMTU.py:883-895 | one file: success counts and reports, failure adds the loop's own record to the update's |
| RunSpec.NotFoundLog | AMTU.py:899-901 | one not-found record per file, in order, with its metadata read back and the reason |
| RunSpec.LogEachOutcome | AMTU.py:896-901 | a rejected cohort appends those not-found records and the read errors of its unreadable files, and changes nothing else |
| RunSpec.NoLabelReasonUnreachable | AMTU.py:897 | a rejected cohort always gets the reason "Aucun résultat trouvé" |
| RunSpec.CohortOutcome | AMTU.py:866-907 | a raising lookup logs one album-processing error and changes nothing else; an accepted match updates every file; a rejection logs every file as not found |
| RunSpec.CohortProgress | AMTU.py:866-907 | a cohort advances `processed` by at most its size and reports each step |
| RunSpec.CohortAppends | AMTU.py:866-907 | a cohort only appends to both ledgers and leaves the flag alone |
| RunSpec.UpdateEachAppends | AMTU.py:882-895 | updates only append to the error ledger |
| RunSpec.CohortsProgress | AMTU.py:866-907 | the loop advances `processed` by at most the files of the remaining cohorts and reports each step |
| RunSpec.CohortsAppend | AMTU.py:866-907 | the loop only appends to the ledgers and never clears the flag |
| RunSpec.CancelTruncates | AMTU.py:867-870 | a cancel seen at cohort c gives the run over the first c cohorts, with the flag set: no later cohort is touched |
| RunSpec.RunReports | AMTU.py:847-910 | no files: nothing changes or is reported; otherwise 0, then one percentage per processed file, then 100 iff not canceled |
| RunSpec.PercentMonotone | AMTU.py:888 | percentages grow with the count and stay within 0 and 100 |
| RunSpec.ReportsShape | AMTU.py:858-910 | such a report sequence lies within [0, 100] and never decreases |
| RunSpec.ProgressBounded | AMTU.py:847-923 | the progress of a run never exceeds 100% and never goes back |
| RunSpec.CohortReasons | AMTU.py:896-901 | a cohort only adds not-found records with reason "Aucun résultat trouvé" |
| RunSpec.CohortsReasons | AMTU.py:866-901 | so does the whole loop |
| RunSpec.RunNotFoundReasons | AMTU.py:861-901 | every not-found record of a run has reason "Aucun résultat trouvé" |
| RunSpec.CanceledRunSkipsCohorts | AMTU.py:861-870 | once canceled, a new run only resets the ledgers and groups the files |
| Processor.MP3Processor.constructor | AMTU.py:508-521 | a new processor has empty ledgers, no cancel and a zero summary |
| Processor.MP3Processor.CancelProcessing | AMTU.py:784-786 | sets the flag |
| Processor.MP3Processor.LogError | AMTU.py:599-613 | appends the record `_log_error` builds, in the corrected behaviour of the Findings row |
| Processor.MP3Processor.LogNotFound | AMTU.py:758-771 | appends one not-found record |
| Processor.MP3Processor.ReadMetadata | AMTU.py:742-756 | returns what EasyID3 reads and logs one record for a failed read, in the corrected behaviour of the Findings row |
| Processor.MP3Processor.AlbumFiles | AMTU.py:534-535 | the comprehension loop gives the album's members and logs the unreadable files |
| Processor.MP3Processor.GroupFilesByAlbum | AMTU.py:523-557 | the loop gives the specified groups and logs the specified records |
| Processor.MP3Processor.CountMerge | AMTU.py:649-719 | updates the summary's counters and sets for one merge |
| Processor.MP3Processor.UpdateMetadata | AMTU.py:626-740 | leaves disk, summary and error ledger as the update specifies, and raises exactly then |
| Processor.MP3Processor.SaveMerged | AMTU.py:714-740 | the counters and the save, as specified |
| Processor.MP3Processor.GetAlbumMetadata | AMTU.py:788-845 | returns or raises as the lookup specifies and logs what it logs |
| Processor.MP3Processor.UpdateFiles | AMTU.py:882-895 | the update loop of an accepted cohort reaches the specified state, count and reports |
| Processor.MP3Processor.UpdateOne | AMTU.py:883-895 | one file of that loop |
| Processor.MP3Processor.LogFilesNotFound | AMTU.py:899-901 | the loop of a rejected cohort appends the specified records to both ledgers |
| Processor.MP3Processor.ProcessCohort | AMTU.py:866-907 | one cohort, lookup through update or rejection |
| Processor.MP3Processor.ApplyMetadata | AMTU.py:880-901 | updates every file when the match has a label, otherwise logs every file as not found |
| Processor.MP3Processor.ProcessCohorts | AMTU.py:866-907 | the cohort loop with its cancel check |
| Processor.MP3Processor.ProcessDirectory | AMTU.py:847-923 | the whole run, state and progress reports |
| Processor.MergeFrames | AMTU.py:638-712 | the frame updates compute the specified merge |
| Processor.RestoreSaved | AMTU.py:701-712 | the restore of the saved frames |
| Processor.CleanAlbumTitle | AMTU.py:671-685 | the loop over the four patterns, then strip |
| Processor.ApplyRules | AMTU.py:649-699 | the four rules |
| Genres.IndexOf | genre_manager.py:110 | the position of a key, or -1 iff absent |
| Genres.Get | genre_manager.py:110 | `dict.get` finds a value iff the key is present, and then its entry's value |
| Genres.Put | genre_manager.py:79-81 | setting a key keeps the length or appends one entry |
| Genres.UpdateWith | genre_manager.py:79-81 | `dict.update` never drops an entry |
| Genres.FirstMatch | genre_manager.py:94-97 | the first rule, in table order, whose key is a substring; -1 iff none |
| Genres.GenreFor | genre_manager.py:87-112 | `detect_genre` always returns a non-empty string |
| Genres.LabelRuleWins | genre_manager.py:91-97 | the first matching label rule decides, and artists are not consulted |
| Genres.ArtistRuleNext | genre_manager.py:99-105 | without a label match, the first matching artist rule decides |
| Genres.ExistingGenreLast | genre_manager.py:107-110 | otherwise the lowercased genre is looked up exactly; an unmapped genre is returned unchanged |
| Genres.DefaultWhenNothingApplies | genre_manager.py:112 | with no rule and no genre the result is "Electronic" |
| Genres.EmptyFieldsAbsent | genre_manager.py:92-108 | an empty label or genre behaves as an absent one |
| Genres.HospitalBeatsSkrillex | genre_manager.py:87-112 | label "Hospital Records" with artist "Skrillex" gives "Drum & Bass" with the built-in tables |
| Genres.LoadedWellFormed | genre_manager.py:79-82 | a well-formed file updates each table with exactly its section, leaves a table without a section alone, and gives True |
| Genres.UnreadableFileChangesNothing | genre_manager.py:83-85 | an unreadable or unparsable file changes nothing and gives False |
| Genres.LoadedFails | genre_manager.py:76-85 | the result is False iff the file is unreadable or a section raises; a bad first section changes nothing |
| Genres.PutGet | genre_manager.py:79-81 | after setting a key, that key reads the new value and every other key its old one |
| Genres.PutDistinct | genre_manager.py:79-81 | setting a key keeps the keys distinct |
| Genres.PutKeepsOrder | genre_manager.py:79-81 | setting a key keeps the existing keys in their positions |
| Genres.UpdateGet | genre_manager.py:79-81 | after an update a key reads the section's value if it has one, else the table's |
| Genres.NewKeys | genre_manager.py:79-81 | the keys a section adds: exactly its keys the table lacks, each once, in the order of their first occurrence in the section |
| Genres.UpdateKeepsOrder | genre_manager.py:79-81 | after an update the keys are the old keys in their positions followed by the new keys in the section's order, which decides the first match among added rules |
| Genres.GenreManager.constructor | genre_manager.py:13-72 | the built-in tables |
| Genres.GenreManager.LoadCustomMappings | genre_manager.py:74-85 | the three in-place updates and the result, as specified |
| Genres.GenreManager.DetectGenre | genre_manager.py:87-112 | the detection loops compute the specified genre |
| Genres.ScanRules | genre_manager.py:94-97 | the rule loop with `break` gives the first matching rule's genre, or leaves the detection unchanged |
| Locales.DefaultTranslations | locales/locale_manager.py:63-81 | the default translations are an object with an "interface" member |
| Locales.TextForString | locales/locale_manager.py:98-109 | a key that resolves to a string gives that string without arguments, the formatted string with them, and the template when formatting fails |
| Locales.TextForFallback | locales/locale_manager.py:111-115 | a missing locale, a missing part, a non-object on the way or a non-string at the end gives `default or key` |
| Locales.DefaultLanguageEntry | locales/locale_manager.py:66-81 | the menu entry of the defaults is "Langue" for "fr" and "Language" for any other code |
| Locales.LocaleManager.constructor | locales/locale_manager.py:7-16 | starts in "fr", with each available locale's stored translations or the defaults |
| Locales.LocaleManager.SetLocale | locales/locale_manager.py:117-122 | returns True and switches iff the code is available; otherwise the locale is unchanged |
| Locales.LocaleManager.GetText | locales/locale_manager.py:83-115 | the walk loop computes the specified text |

## Left out

- Catalogue adapters and API initialisation (AMTU.py:155-199, 261-425): network clients. Their replies are inputs to `Aggregator.ExecuteSearch`, with confidences already scored.
- The Tkinter GUI `MetadataManagerGUI` and `main` (AMTU.py:945-1379): user interface, event queue and worker thread. Cancellation is modelled as the flag the GUI sets.
- `ConfigManager` (AMTU.py:57-143), the CSV writers (`_write_error_log`, `_write_not_found_log`), and the locale files (`_load_available_locales`, `_load_locale`, `get_available_locales`): file I/O. The ledgers are modelled as lists. The parsed locale and genre files are parameters.
- Logging, progress-message texts, `get_update_summary` and the statistics messages: display text only. Progress is modelled as the sequence of percentages reported. `progress_callback` is assumed present.
- `time.sleep`, `rglob`, and the post-save verification reads (AMTU.py:727-734): they change no state. The directory listing is the file sequence given to `ProcessDirectory`.
- ID3 frame encodings and multi-valued frames: each frame is one optional text.
- Floating point: scores and percentages are exact reals. Behaviour exactly at the threshold of 60 under IEEE rounding is not modelled.
- Unicode: `lower`, `isalnum`, `isspace` and the regex `\s` and IGNORECASE are modelled on ASCII.
- `str.format`: a parameter that may fail (None).
- The whole run model (`Grouping`, `RunSpec`, `Processor`) logs an unreadable file with the corrected read of the Findings row: one tag-read record per failed read. As written, the read/log recursion instead appends a number of records set by the stack depth, or lets the overflow escape. Only `Ledgers.ReadAsWritten` and the lemmas about it model that.
- Ledgers.LogErrorRecords: states the corrected one-record `_log_error`; as written an unreadable file gives depth-dependent duplicates (`Ledgers.UnreadableDuplicates`).
- Processor.MP3Processor.LogError: appends the corrected record, for the same reason.
- Processor.MP3Processor.ReadMetadata: logs the corrected single record for a failed read, for the same reason.
- Grouping.UnreadableLogLength: counts one record per unreadable file, which holds for the corrected read only.
- Grouping.GroupLogLength: counts the records of the corrected read; as written each unreadable file adds a depth-dependent number.
- Ledgers.ErrorRecordFor: the `error` column keeps only the kind of failure (`Ledgers.Failure`), not the `str(e)` text of the exception that the source stores after the fixed prefix.
- Python exceptions outside the modelled paths are not modelled: out-of-memory, I/O errors while reading a tag that exists, and non-dict JSON in `available_locales.json`.
- `Genres.GenreManager.LoadCustomMappings`: genre-file sections hold string values. A section that makes `update` raise is one `Malformed` value. Lists of pairs, which `dict.update` would also accept, are not modelled.
- `Ledgers.UnreadableDuplicates`: the stack depth of the as-written recursion and the frames the logger needs are abstract numbers rather than CPython's limit.
- `TagMerge.UpdateFile`: one clock value stamps the empty tag written to a file without an ID3 header. That new mtime is the one preserved afterwards.
- The first `_get_album_metadata` (AMTU.py:559-597) is shadowed by the second definition and never runs.

## Findings

| source | as written | input that shows it | evidently intended | confidence | as-written member | corrected member |
|---|---|---|---|---|---|---|
| AMTU.py:742-756 | `_read_metadata` on a file EasyID3 cannot open calls `_log_error`, which calls `_read_metadata` on the same file again. The recursion only ends when the stack overflows. The overflow is then caught by the handler of one of the nested `_log_error` calls, so a number of identical records set by the stack depth is appended (possibly none). | a file with no ID3 header, e.g. `a.mp3` with no tag | one "Erreur de lecture des tags" record with empty title, artist and album per failed read | not executed | Ledgers.UnreadableDuplicates | Ledgers.ReadLog |
