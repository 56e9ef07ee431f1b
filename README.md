# Workshop-Reporter core, modelled in Dafny

Workshop-Reporter turns the material of a conference track into a draft report:
- spreadsheets of lightning-talk submissions;
- attendee lists;
- discussion notes;
- the conference web site.

This project models the deterministic code around the report generator's LLM calls, and proves properties of it:

- **Track-bundle assembly** (`assembler.dfy`). Loads lightning talks and attendees from parsed CSV rows, builds one track's bundle and its warnings, merges talk speakers into the attendee list case-insensitively, and discovers and names the tracks.
- **Verification post-processing** (`checker.dfy`):
  - the flag-count classes of a verification result;
  - the `[FLAG: type "description"]` extractor, an explicit scanner for the source's regular expression;
  - the verification-summary parser;
  - the total and status fallback of `check_report`.
- **Prompt formatting** (`generator.dfy`). `format_track_bundle`, built line by line, as the source does.
- **Scraper logic** (`scraper.dfy`). Works over the items already extracted from the HTML:
  - speaker-description splitting;
  - session-type detection;
  - the speaker de-duplication loop and the session-heading loop;
  - CSV escaping and the speakers and sessions CSV writers, with a lenient reader that reads their output back. In the reader an unquoted field holds anything but a comma, a line feed or a quote, a quoted field doubles its quotes, and a line feed separates records.
- **Google Drive URL logic** (`gdrive.dfy`):
  - file-id extraction and file-type detection;
  - the export-URL templates and the sheet and doc request URLs;
  - the `download_file` retry loop, over an abstract network;
  - error aggregation in `collect_track_data` and `collect_all_data`.
- **Endpoint configuration** (`config_loader.dfy`). A `Config` class holding the active endpoint, the endpoint lookup with API-key resolution, the client parameters, app settings and endpoint switching.
- **Legacy session reporter** (`legacy_report.dfy`). The tiered session-label match, the parenthesised-acronym filter, the error-code scan of a model response, the report file name, and the attendees and lightning-talks appendices.

Shared modules:
- `wrappers.dfy`: `Option`, `Result`, and collecting the `Some` values of a sequence.
- `text.dfy`: Python's ASCII string operations — `lower`/`upper`/`title`/`capitalize`, `strip`, `in`, `split`/`join`, `isupper`, number printing, string order and sorting.
- `bundle.dfy`: the track bundle as the formatter and the assembler see it. `Field` distinguishes a missing key, a `None` value and a string, so that `dict.get` defaults can be modelled.

Where the source changes state in loops, it is imperative Dafny. Each such operation is a `method` with a loop whose invariants tie the state to a specification function, and the properties are lemmas about those functions:
- the loaders;
- `extract_flags` and `parse_verification_summary`;
- `format_track_bundle`;
- the scraper loops and CSV writers;
- `download_file` and the `collect_*` functions;
- the appendix builders.

`Config` is a class whose `SwitchEndpoint` method overwrites its fields.

An empty bundle formats as `"# Track: Unknown\n"`, because an empty line follows the track header before the lines are joined.

## Model

| member | source | states |
|---|---|---|
| Assembler.ErrorsAreWarnings | tpc_reporter/assembler.py:35-41 | `has_errors` implies `has_warnings` (a result with an error-severity warning has a non-empty warning list). |
| Assembler.LoadLightningTalks | tpc_reporter/assembler.py:79-111 | A missing file fails with "Lightning talks CSV not found: path". Otherwise the header row is skipped and the talks are those of the kept rows, in row order. |
| Assembler.TalksOfRowsMembers | tpc_reporter/assembler.py:88-109 | Every kept row (at least 8 cells, non-blank stripped title) yields its talk. Every loaded talk comes from a kept row and has a non-empty title and exactly one author record. There are never more talks than rows. |
| Assembler.TalksOfRowsConcat | tpc_reporter/assembler.py:88-109 | Loading is row by row: the talks of two row blocks are the talks of each block, in order (survivors keep their order). |
| Assembler.FirstNonEmptyIsFirst | tpc_reporter/assembler.py:136-149 | The `or` chain over header variations picks the value of the first header present with a non-empty value, and gives "" exactly when there is none. |
| Assembler.LoadAttendees | tpc_reporter/assembler.py:126-154 | A missing file gives no attendees. Otherwise, one attendee per row with a non-blank name, in row order. |
| Assembler.AttendeesOfRowsMembers | tpc_reporter/assembler.py:134-152 | An attendee is loaded if and only if some row yields it. |
| Assembler.AttendeesOfRowsShape | tpc_reporter/assembler.py:151-152 | Every loaded attendee has a non-empty stripped name and a stripped organisation. |
| Assembler.TrackTalksMembers | tpc_reporter/assembler.py:200 | A talk is in the track's list if and only if it is an input talk whose track equals the track id. |
| Assembler.TrackTalksConcat | tpc_reporter/assembler.py:200 | The track filter keeps input order: filtering two blocks is filtering each, concatenated. |
| Assembler.FirstPresent | tpc_reporter/assembler.py:220-228 | The candidate-file search returns the first candidate name that exists, or none when no candidate exists. |
| Assembler.ReadTrackInputs | tpc_reporter/assembler.py:213-261 | The attendees and notes are those of the first attendees and notes file found. The inputs warnings arise only when a directory is given, and then exactly when no attendee was loaded or the notes are missing or empty. |
| Assembler.FindAttendees | tpc_reporter/assembler.py:220-228 | The attendees come from the first existing candidate file, and are empty when none exists. |
| Assembler.FindNotes | tpc_reporter/assembler.py:241-251 | The notes come from the first existing candidate file, and are absent when none exists. |
| Assembler.MergeSpeakers | tpc_reporter/assembler.py:263-275 | The loop appending speakers computes the specification merge of the attendees with the track talks' authors. |
| Assembler.AddSpeakersProps | tpc_reporter/assembler.py:263-275 | The merge keeps the name set in step with the list, keeps the original attendees as an unchanged prefix, appends no name already present case-insensitively, and covers every non-empty author name of every talk. |
| Assembler.AddAuthorsProps | tpc_reporter/assembler.py:266-275 | The same for the authors of one talk: prefix kept, no new duplicate, and every non-empty author name present in lower case. |
| Assembler.SessionAttendeesProps | tpc_reporter/assembler.py:263-289 | The default session's attendees start with the loaded attendees unchanged. No appended entry repeats an earlier name case-insensitively. Every non-empty author name of a track talk is present. |
| Assembler.NoDirectorySpeakersOnly | tpc_reporter/assembler.py:213-216 | Without an inputs directory, the attendees are the track's speakers only, and there are no notes. |
| Assembler.WarningsOfIff | tpc_reporter/assembler.py:202-261 | "No lightning talks" is emitted if and only if the track has no talks. With a directory, the attendees and notes warnings are emitted if and only if their condition holds. Without one, at most the talks warning is emitted. All warnings have warning severity. |
| Assembler.DirWarningsIff | tpc_reporter/assembler.py:202-261 | With a directory, each of the three warnings is emitted if and only if its condition holds. |
| Assembler.WarningsIff | tpc_reporter/assembler.py:200-261 | The three warnings, stated against the actual track talks, attendees files and notes files. An assembly never reports an error. |
| Assembler.AssembleTrackBundle | tpc_reporter/assembler.py:175-309 | The bundle has the track's id, name and room. Non-empty given sessions are used verbatim. Otherwise there is one session `"{id}-session-1"`, titled "{name} Session", with the filtered talks, merged attendees and notes. The sources are `["Track inputs: dir"]` exactly when a directory is given. The warnings are the expected ones, in order. |
| Assembler.TrackValues | tpc_reporter/assembler.py:334 | A value is a discovered track if and only if it is the non-empty track of some talk. |
| Assembler.AllTracksProps | tpc_reporter/assembler.py:334-344 | The tracks are processed in strictly increasing order (sorted and distinct). They are exactly the non-empty track values of the talks, and every track has at least one talk. |
| Assembler.AssembleAllTracks | tpc_reporter/assembler.py:330-359 | One result per discovered track, in sorted order. Each is that track's assembly, named through the mapping (falling back to the track id), with the track's inputs directory when it exists. Its bundle holds one default session with the track's talks, merged attendees and notes. Its warnings are those of the assembly. |
| Assembler.DefaultTrackName | tpc_reporter/assembler.py:337-345 | For every id, the default name has the id's length and no `-`. In lower case it equals the id with `-` replaced by a space. Each letter is upper case after a non-letter and lower case after a letter. A given mapping names an id it holds by its entry and any other id by the id itself. |
| Assembler.TrackOneName | tpc_reporter/assembler.py:337-345 | Example of Assembler.DefaultTrackName: the default mapping names "Track-1" as "Track 1", and a mapping without "Track-1" names it "Track-1". |
| Text.TitleChars | tpc_reporter/assembler.py:338 | `str.title` keeps every non-letter. It upper-cases a letter at the start or after a non-letter, and lower-cases a letter after a letter. The result lower-cases to the input lower-cased. |
| Checker.ExactlyOneClass | tpc_reporter/checker.py:29-42 | A non-negative flag count is in exactly one of passed (0), needs review (1..5) and major issues (more than 5). |
| Checker.ExtractFlags | tpc_reporter/checker.py:97-106 | The loop over the report returns the specification's flag list: one flag per annotation matched left to right. |
| Checker.ScanStep | tpc_reporter/checker.py:97-104 | One scan step moves forward and keeps the flags found so far plus the flags still ahead unchanged. |
| Checker.MatchAt | tpc_reporter/checker.py:97 | A match of the annotation pattern starts at a `[FLAG:` marker and ends after it. |
| Checker.NoMarkerNoFlags | tpc_reporter/checker.py:97-98 | A report without `[FLAG:` yields no flags. |
| Checker.TypedMatch | tpc_reporter/checker.py:97-103 | An annotation with a plain type at the front of the text matches with that type, stripped, and the description of its closing part. |
| Checker.AnnotationMatch | tpc_reporter/checker.py:97-103 | An annotation at the front of any text matches as its flag and ends right after the annotation, whatever follows. |
| Checker.AnnotationInContext | tpc_reporter/checker.py:97-106 | An annotation between text without `[` and any tail contributes exactly its flag, followed by the tail's flags. |
| Checker.AnnotationsInText | tpc_reporter/checker.py:97-106 | A text that interleaves `[`-free gaps with well-formed annotations yields exactly the annotations' flags, in order, followed by the tail's flags. |
| Checker.AnnotationRoundTrip | tpc_reporter/checker.py:97-104 | `[FLAG: t "d"]`, or `[FLAG: t]` when d is empty, is read back as exactly the one flag (t, d). |
| Checker.ParseVerificationSummary | tpc_reporter/checker.py:119-152 | The method, which fills the breakdown pattern by pattern, returns the specification summary: total, status and breakdown. |
| Checker.NumberAfterIsFirst | tpc_reporter/checker.py:126-128 | A number parsed after a label is the one at the first position where the label is followed by digits. None is parsed exactly when no position qualifies. |
| Checker.TotalRoundTrip | tpc_reporter/checker.py:126-128 | `**Total flags:** n` parses back to the total n. |
| Checker.StatusAfter | tpc_reporter/checker.py:131-136 | A parsed status is only ever PASS, REVIEW NEEDED or MAJOR ISSUES. |
| Checker.StatusAfterIsFirst | tpc_reporter/checker.py:131-136 | The parsed status is the first occurrence after the status label. There is none exactly when no position has one. |
| Checker.BreakdownIff | tpc_reporter/checker.py:139-150 | A breakdown key is present if and only if its label is followed by digits, and its value is the first such number. Every present key belongs to one of the five patterns. |
| Checker.BreakdownOfKeys | tpc_reporter/checker.py:147-150 | The same for any list of patterns with distinct keys. |
| Checker.NoMarkersDefaultSummary | tpc_reporter/checker.py:119-123 | Without any summary label, the summary is total 0, status UNKNOWN, and an empty breakdown. |
| Checker.StatusFor | tpc_reporter/checker.py:218-224 | The status for a count is PASS for 0, REVIEW NEEDED up to 5, and MAJOR ISSUES above 5. It is never UNKNOWN. |
| Checker.CheckReport | tpc_reporter/checker.py:210-231 | The total is the summary's count when positive, else the number of extracted flags. A parsed status is kept even when it disagrees with the count. An UNKNOWN status is replaced by the status for the total, so the final status is never UNKNOWN. |
| Checker.UnknownStatusFollowsCount | tpc_reporter/checker.py:29-42 | When the status comes from the count, it agrees with the result's passed, needs-review and major-issues properties in both directions. |
| Generator.FormatTrackBundle | tpc_reporter/generator.py:62-152 | The method, which appends lines in nested loops, returns the specification's lines joined by "\n" with no trailing newline. |
| Generator.FirstLine | tpc_reporter/generator.py:75-76 | The first line is "# Track: " and the name, or "Unknown" when the name is missing. |
| Generator.EmptyBundle | tpc_reporter/generator.py:75-79 | An empty bundle formats as "# Track: Unknown\n", without failing. |
| Generator.RoomLine | tpc_reporter/generator.py:77-79 | A `Room:` line follows the first line if and only if the room is truthy. |
| Generator.SessionLayout | tpc_reporter/generator.py:83-98 | A session opens with "## Session: title" ("Untitled" by default) and then "Time: slot" ("Not specified" only when the key is absent). A `Leaders:` line follows if and only if there are leaders. A blank line follows. |
| Generator.PeopleStrings | tpc_reporter/generator.py:88-97 | Leaders and authors given as records give one string each. Leaders and authors given as strings are used as they are. |
| Generator.BundleHeadings | tpc_reporter/generator.py:82-84 | When no session's notes start with "## Session: ", the session headings of the output are exactly one per session, in input order. |
| Generator.SessionsHeadings | tpc_reporter/generator.py:83-143 | Under the same condition on notes, the session lines hold one heading per session, in order, and end with a blank line. |
| Generator.SessionHeadings | tpc_reporter/generator.py:83-143 | When the session's notes do not start with "## Session: ", its lines hold its own heading and no other. |
| Generator.SessionTalksBlock | tpc_reporter/generator.py:101-122 | Unless the notes are exactly "### Lightning Talks", that line appears in a session if and only if it has talks. |
| Generator.SessionAttendeesBlock | tpc_reporter/generator.py:125-136 | Unless the notes are exactly "### Attendees", that line appears in a session if and only if it has attendees. |
| Generator.SessionNotesBlock | tpc_reporter/generator.py:139-143 | "### Discussion Notes" appears in a session if and only if its notes are truthy. |
| Generator.SourcesLast | tpc_reporter/generator.py:146-150 | With sources, the output ends with "## Data Sources" and then one `- source` line per source, in order. |
| Generator.SourceLinesPlain | tpc_reporter/generator.py:149-150 | There is one `- source` line per source, in order. |
| Generator.AppendTalkBlock | tpc_reporter/generator.py:101-122 | The talks loop appends exactly the talks block. |
| Generator.AppendTalk | tpc_reporter/generator.py:104-121 | One talk appends its lines: a record's bold title, `Authors:`, `Abstract:` and a blank line, or `- talk` for a plain talk. |
| Generator.AppendAttendeeBlock | tpc_reporter/generator.py:125-136 | The attendees loop appends exactly the attendees block. |
| Generator.AppendSession | tpc_reporter/generator.py:83-143 | One session appends exactly its lines. |
| Generator.AppendSessions | tpc_reporter/generator.py:82-143 | The sessions loop appends the lines of every session, in order. |
| Generator.AppendSources | tpc_reporter/generator.py:146-150 | The sources step appends the sources block, or nothing when there are no sources. |
| Scraper.ParseSpeakerDescription | tpc_reporter/scraper.py:135-156 | An empty description gives ("", ""). Otherwise the split is at " \| " if present, else at ", ", else at " - ". One with no delimiter gives (description, ""). |
| Scraper.StrippedPartsSplit | tpc_reporter/scraper.py:149-153 | The split is at the first occurrence of the delimiter: left + delimiter + right is the description, the left part has no delimiter, and both parts are stripped. |
| Scraper.SplitDescription | tpc_reporter/scraper.py:149-156 | When none of the remaining delimiters occurs, the description is the title and the institution is empty. |
| Scraper.DetectSessionType | tpc_reporter/scraper.py:235-262 | The type is always one of plenary, breakout, tutorial, hackathon, panel, break and session. |
| Scraper.DetectSessionTypeIgnoresCase | tpc_reporter/scraper.py:246-247 | Detection is case-insensitive: upper-casing the title and the section does not change the type. |
| Scraper.SectionWithoutKeyword | tpc_reporter/scraper.py:249-256 | A section without any of the four section keywords decides nothing: the type is what the title alone gives. |
| Scraper.SectionDecidesOnlyFirstFour | tpc_reporter/scraper.py:249-262 | When the section changes the type, the type is plenary, breakout, tutorial or hackathon. |
| Scraper.ParseSpeakers | tpc_reporter/scraper.py:94-132 | The loop with its seen-names set returns the specification's speakers. |
| Scraper.SpeakersOfNames | tpc_reporter/scraper.py:94-108 | The output names are distinct and non-empty, and every named box's name appears. |
| Scraper.SpeakersOfFirstBoxes | tpc_reporter/scraper.py:101-130 | Every speaker is built from the first box that carries its name. |
| Scraper.FirstBoxesDistinct | tpc_reporter/scraper.py:105-108 | The boxes kept have distinct names. |
| Scraper.FirstBoxesComplete | tpc_reporter/scraper.py:97-108 | Every box with a non-empty title has its name among the kept ones. |
| Scraper.FirstBoxesFirst | tpc_reporter/scraper.py:105-108 | Each kept box is the first box with its name, and the kept boxes are in first-seen order. |
| Scraper.ParseSessions | tpc_reporter/scraper.py:176-232 | The loop with its current section returns the specification's sessions. |
| Scraper.ParseStep | tpc_reporter/scraper.py:177-230 | One heading emits a session (title, detected type, its date and time, current section) only when it is non-empty, not a section title and not a countdown. A section title becomes the current section. |
| Scraper.ClassifyTitle | tpc_reporter/scraper.py:179-201 | An empty title is skipped. A listed section title (compared in lower case) is a section and not emitted. Any other title is emitted if and only if it does not contain "countdown". |
| Scraper.SessionsFromReference | tpc_reporter/scraper.py:176-230 | The loop's result equals an independent heading-by-heading definition: each emitted heading, in order, with the section in force before it. |
| Scraper.SessionsProps | tpc_reporter/scraper.py:176-230 | Every session has an emitted title and a valid type. Its track is "" or a section title. Its type is the one detected from its title and track. It comes from a heading whose preceding section is its track. |
| Scraper.SectionBeforeIsSection | tpc_reporter/scraper.py:186-196 | The current section is always the initial one or a listed section title. |
| Scraper.CsvEscape | tpc_reporter/scraper.py:387-395 | "" stays "". A value without comma, newline or quote is unchanged. Any other value is wrapped in quotes. |
| Scraper.CarriageReturnUnquoted | tpc_reporter/scraper.py:392 | A value whose only special character is a carriage return is not quoted. |
| Scraper.FieldOfEscape | tpc_reporter/scraper.py:387-395 | Reading an escaped field back with the lenient reader (doubled quotes inside a quoted field) gives back the value and stops at the next comma or line feed. |
| Scraper.CsvRoundTrip | tpc_reporter/scraper.py:355-395 | Records of escaped fields joined by "\n" decode back to exactly the original rows. |
| Scraper.SpeakersToCsv | tpc_reporter/scraper.py:345-363 | The header "Name,Title,Institution,Image URL", then one record of the four escaped fields per speaker, in order, joined by "\n". |
| Scraper.SessionsToCsv | tpc_reporter/scraper.py:366-384 | The header "Title,Type,DateTime,Track,Description", then one record of the five escaped fields per session, in order, joined by "\n". |
| Scraper.SpeakersCsvRoundTrip | tpc_reporter/scraper.py:345-363 | The speakers CSV decodes to the header row followed by each speaker's fields. |
| Scraper.SessionsCsvRoundTrip | tpc_reporter/scraper.py:366-384 | The sessions CSV decodes to the header row followed by each session's fields. |
| Scraper.EmptyCsv | tpc_reporter/scraper.py:355-363 | An empty list gives the header line only. |
| GDrive.ExtractFileId | tpc_reporter/gdrive.py:44-70 | A result is a non-empty run of `[A-Za-z0-9_-]`. None is returned exactly when neither the `/d/` form nor the `?id=`/`&id=` form occurs. |
| GDrive.ExtractFileIdPrefersPath | tpc_reporter/gdrive.py:60-68 | The id is taken at the first `/d/` match. The query form is used only when no `/d/` form occurs. |
| GDrive.ExtractAfterMarker | tpc_reporter/gdrive.py:60-68 | The id read after the first marker is the maximal run of id characters there. |
| GDrive.ExportUrlRoundTrip | tpc_reporter/gdrive.py:19-41 | Extracting the file id from a drive file's export URL (sheet, doc or drive template) gives its id back. |
| GDrive.ExtractOfSheetUrl | tpc_reporter/gdrive.py:19 | Example of GDrive.ExportUrlRoundTrip: the sheet export template yields its id. |
| GDrive.ExtractOfDocUrl | tpc_reporter/gdrive.py:20 | Example of GDrive.ExportUrlRoundTrip: the doc export template yields its id. |
| GDrive.ExtractOfDriveFileUrl | tpc_reporter/gdrive.py:21 | Example of GDrive.ExportUrlRoundTrip: the drive download template, which has no `/d/` part, yields its id through `&id=`. |
| GDrive.DetectFileType | tpc_reporter/gdrive.py:73-88 | "sheet" if and only if the URL contains "spreadsheets". "doc" if and only if it contains "document" but not "spreadsheets". Otherwise "file". |
| GDrive.DetectOfSheetUrl | tpc_reporter/gdrive.py:83-84 | Example of GDrive.DetectFileType: a sheet export URL is detected as a sheet. |
| GDrive.DownloadFile | tpc_reporter/gdrive.py:91-142 | The attempt loop with early returns saves exactly what the specification download saves, and reports success exactly when something was saved. |
| GDrive.GaveUpIff | tpc_reporter/gdrive.py:112-142 | The download gives up if and only if every attempt failed or was rate limited. |
| GDrive.DownloadEndsAtFirstAnswer | tpc_reporter/gdrive.py:112-133 | A download that does not give up ends at the first attempt that was neither a failure nor rate limited. It stops there with a not-found page (no retry) or with the saved body. |
| GDrive.Decide | tpc_reporter/gdrive.py:124-133 | An attempt that is not retried ends the download at that attempt. |
| GDrive.FileIdOf | tpc_reporter/gdrive.py:161-168 | An `http` input has its id extracted. Any other input is the id itself. |
| GDrive.SheetRequestUrl | tpc_reporter/gdrive.py:161-172 | There is no request URL exactly when no id can be obtained. |
| GDrive.DocRequestUrl | tpc_reporter/gdrive.py:188-197 | There is no request URL exactly when no id can be obtained. |
| GDrive.SheetRequestUrlProps | tpc_reporter/gdrive.py:170-172 | The sheet request URL carries the file id and is a sheet URL. It is longer than the bare export URL if and only if a gid is given (`&gid=` appended). |
| GDrive.RequestUrlWithoutId | tpc_reporter/gdrive.py:161-198 | An `http` input without an extractable id gives no request, so no download. A non-`http` input is used verbatim in the templates. |
| GDrive.DownloadSheet | tpc_reporter/gdrive.py:145-174 | The sheet download saves what downloading the request URL saves, and fails without downloading when there is no id. |
| GDrive.DownloadDoc | tpc_reporter/gdrive.py:177-198 | The doc download saves what downloading the request URL saves, and fails without downloading when there is no id. |
| GDrive.CollectTrackData | tpc_reporter/gdrive.py:210-254 | The method returns the specification's track data. |
| GDrive.TrackDataProps | tpc_reporter/gdrive.py:228-254 | A `None` URL means no path. A path is set exactly when its download succeeded. Each failed download adds exactly one error, attendees before notes, so there are at most two. |
| GDrive.CollectAllData | tpc_reporter/gdrive.py:257-302 | The method's loop over the track configurations returns the specification's collection. |
| GDrive.CollectionErrors | tpc_reporter/gdrive.py:282-300 | The errors are the lightning-talks error, if any, followed by each track's errors in iteration order. |
| GDrive.CollectionTalksPath | tpc_reporter/gdrive.py:283-289 | The lightning-talks path is set exactly when its download succeeded. |
| GDrive.CollectionTrackKeys | tpc_reporter/gdrive.py:292-299 | There is one `tracks` entry per configured track id. |
| GDrive.CollectionTrackEntry | tpc_reporter/gdrive.py:292-299 | A track's entry is that track's collected data. |
| ConfigLoader.ApiKeyOf | tpc_reporter/config_loader.py:105-108 | A truthy secret wins over the environment variable. A key is only found when `api_key_env` is a string. |
| ConfigLoader.EndpointConfig | tpc_reporter/config_loader.py:93-116 | An unknown name fails with EndpointNotFound, listing the available names. A successful lookup is a copy of the endpoint's settings in which every key except `api_key` is unchanged. |
| ConfigLoader.ApiKeyResolution | tpc_reporter/config_loader.py:102-116 | Without `api_key_env`, the settings are returned as they are. With it, the lookup succeeds if and only if the secret or the environment value is truthy. The stored key is the secret when that is truthy, else the environment value. Otherwise ApiKeyNotFound is raised. |
| ConfigLoader.InitialEndpoint | tpc_reporter/config_loader.py:72-78 | Construction fails with NoActiveEndpoint exactly when `active_endpoint` is missing or empty. Otherwise it succeeds exactly when the lookup of that name succeeds. On success the active endpoint is that name with the looked-up configuration. On failure the error is the lookup's error. |
| ConfigLoader.Config.Load | tpc_reporter/config_loader.py:43-78 | The constructor fails exactly when the initial lookup fails, with the same error. Otherwise it holds the active name and endpoint, consistently. |
| ConfigLoader.ClientParamsShape | tpc_reporter/config_loader.py:125-142 | The client parameters always have type, model and parameters (`{}` by default). `openai` adds `base_url` and `api_key` (default "dummy"). `nim_ssh` adds `ssh_host` and `base_url`. Any other type adds nothing. |
| ConfigLoader.ClientGetsResolvedKey | tpc_reporter/config_loader.py:105-136 | An `openai` endpoint with `api_key_env` passes the resolved key to the client. |
| ConfigLoader.Config.GetAppSetting | tpc_reporter/config_loader.py:144-146 | The `app` value for the key, or the default when the key is absent. |
| ConfigLoader.Config.ListEndpoints | tpc_reporter/config_loader.py:148-150 | Exactly the configured endpoint names: a name is listed if and only if it is not an unknown endpoint. |
| ConfigLoader.Config.SwitchEndpoint | tpc_reporter/config_loader.py:152-160 | The name is always overwritten. A successful switch also sets the endpoint to the new lookup. A failed switch reports the lookup's error and leaves the old endpoint in place under the new name. |
| LegacyReport.SessionMatchesRule | reference/tpc-session-reporter/generate_report.py:295-323 | Empty raw arguments never match. Otherwise the label matches if and only if, after upper-casing and stripping, either string contains the other, or enough words are shared. |
| LegacyReport.ContainmentMatchesBothWays | reference/tpc-session-reporter/generate_report.py:303-313 | Containment of one normalised string in the other makes both argument orders match. |
| LegacyReport.BlankTargetMatches | reference/tpc-session-reporter/generate_report.py:297-309 | A whitespace-only target normalises to "" and matches any non-empty label. |
| LegacyReport.SessionMatchesIgnoresGroupCase | reference/tpc-session-reporter/generate_report.py:300 | The match is insensitive to the case of the target group. |
| LegacyReport.SessionMatchesIgnoresLabelCase | reference/tpc-session-reporter/generate_report.py:301 | The match is insensitive to the case of the session label. |
| LegacyReport.SessionMatchesIgnoresLeadingSpace | reference/tpc-session-reporter/generate_report.py:301 | Leading whitespace on a non-empty label does not change the match. |
| LegacyReport.OneWordTarget | reference/tpc-session-reporter/generate_report.py:316-321 | For a one-word target, the word tier holds if and only if that word occurs in the session. |
| LegacyReport.ManyWordTarget | reference/tpc-session-reporter/generate_report.py:316-321 | For a target of two or more words, the word tier holds if and only if at least two words are shared. |
| LegacyReport.WordlessTargetMatches | reference/tpc-session-reporter/generate_report.py:316-321 | A target with no words left after removing `,` and `:` matches any non-empty label (min(2, 0) = 0). |
| LegacyReport.RowTalk | reference/tpc-session-reporter/generate_report.py:512-531 | A row is kept if and only if its label contains "(g)" or "(G)" with G the upper-cased group. A kept talk carries the label. |
| LegacyReport.FilterTalksByExactAcronym | reference/tpc-session-reporter/generate_report.py:494-535 | No submissions file gives no talks. Otherwise the loop returns the talks of the kept rows, in order. |
| LegacyReport.FilteredTalksMembers | reference/tpc-session-reporter/generate_report.py:511-532 | A talk is filtered in if and only if some kept row yields it. Every filtered talk's label lists the group. |
| LegacyReport.ListsUpperGroup | reference/tpc-session-reporter/generate_report.py:515-518 | A label listing the upper-cased group is kept for the group as given. |
| LegacyReport.FirstCodeIn | reference/tpc-session-reporter/generate_report.py:711-715 | The code found is the first listed code that occurs in the line. None is found exactly when no code occurs. |
| LegacyReport.CheckForErrorsFirstLineOnly | reference/tpc-session-reporter/generate_report.py:695-699 | Only the first line of the stripped content is scanned: when the first line holds a non-space character, whatever follows the first newline does not change the result. |
| LegacyReport.NoErrorWithoutMarker | reference/tpc-session-reporter/generate_report.py:699-715 | A first line without "ERROR: " gives (False, None). |
| LegacyReport.FirstLineOfResponse | reference/tpc-session-reporter/generate_report.py:695-699 | For a first line with a non-space character and no line break, the first line of the stripped response, stripped again, is that line stripped, whatever follows the line break. |
| LegacyReport.MissingInputReported | reference/tpc-session-reporter/generate_report.py:702-713 | Example of LegacyReport.FirstCodeIn: the response "ERROR: missing input" is reported with that code. |
| LegacyReport.ParenAcronym | reference/tpc-session-reporter/generate_report.py:725-727 | An acronym found in parentheses is a non-empty run of upper-case letters. |
| LegacyReport.FilenameOfTitleAcronym | reference/tpc-session-reporter/generate_report.py:721-742 | A title with a parenthesised upper-case acronym names the file "draft-report-ACRONYM.md", whatever acronym is given. |
| LegacyReport.FilenameOfGivenAcronym | reference/tpc-session-reporter/generate_report.py:729-742 | Without one in the title, an acronym of at most 6 characters that `isupper` names the file. |
| LegacyReport.FallbackNameIsWordChars | reference/tpc-session-reporter/generate_report.py:732-742 | Otherwise the name is the CamelCase of the title's words and consists of word characters only. |
| LegacyReport.CleanTitleDropsSessionPrefix | reference/tpc-session-reporter/generate_report.py:735-737 | A leading "Session:" and the whitespace after it are removed before the words are taken. |
| LegacyReport.GenerateLightningTalksAppendix | reference/tpc-session-reporter/generate_report.py:591-606 | The loop builds the specification appendix: fixed text for no talks, else the heading and the talk blocks. |
| LegacyReport.AppendTalk | reference/tpc-session-reporter/generate_report.py:599-603 | One iteration appends exactly the numbered block of one talk. |
| LegacyReport.TalkBlocks | reference/tpc-session-reporter/generate_report.py:598-603 | The blocks are numbered from 1 in talk order. |
| LegacyReport.LightningAppendixHasEveryTalk | reference/tpc-session-reporter/generate_report.py:596-603 | The k-th talk's block, numbered k+1, occurs in the appendix. |
| LegacyReport.LightningAppendixSnoc | reference/tpc-session-reporter/generate_report.py:598-603 | Adding a talk at the end appends its block, with the next number. |
| LegacyReport.LightningAppendixEnd | reference/tpc-session-reporter/generate_report.py:603 | A non-empty appendix ends with the separator "---\n\n". |
| LegacyReport.TalkBlockShape | reference/tpc-session-reporter/generate_report.py:599-603 | A block starts with its numbered title line and ends with the separator. |
| LegacyReport.RowAttendee | reference/tpc-session-reporter/generate_report.py:557-564 | A row gives an attendee if and only if its stripped First and Last are non-blank. The name is "First Last" and the organisation is stripped. |
| LegacyReport.CollectAttendees | reference/tpc-session-reporter/generate_report.py:555-564 | The row loop collects the attendees of the kept rows, in order. |
| LegacyReport.AttendeesOfRowsMembers | reference/tpc-session-reporter/generate_report.py:557-564 | An attendee is collected if and only if some row yields it. |
| LegacyReport.SortBy | reference/tpc-session-reporter/generate_report.py:570 | Sorting is a permutation. |
| LegacyReport.SortBySorted | reference/tpc-session-reporter/generate_report.py:570 | The sorted list is ordered by the key. |
| LegacyReport.SortByStable | reference/tpc-session-reporter/generate_report.py:570 | Sorting is stable: attendees with the same key keep their relative order. |
| LegacyReport.AttendeesAppendixOrder | reference/tpc-session-reporter/generate_report.py:570 | The table is ordered by the last word of the name, stably. |
| LegacyReport.OrNotAvailable | reference/tpc-session-reporter/generate_report.py:577-578 | An empty cell renders as "N/A". A non-empty one renders as it is. |
| LegacyReport.RenderAttendees | reference/tpc-session-reporter/generate_report.py:576-579 | The loop renders one table line per attendee, in order. |
| LegacyReport.GenerateAttendeesAppendix | reference/tpc-session-reporter/generate_report.py:542-584 | No file, or no kept row, gives the "not available" text. Otherwise the heading, the table head, the sorted table lines and a blank line. |
| LegacyReport.AttendeesAppendixHasEveryAttendee | reference/tpc-session-reporter/generate_report.py:557-581 | Every collected attendee's line occurs in the appendix. |
| LegacyReport.TableHasAttendee | reference/tpc-session-reporter/generate_report.py:570-579 | Every attendee's line occurs in the sorted table. |

## Left out

- File reads and writes, directory creation, HTTP requests, `time.sleep`, logging and printing. Files are inputs: a CSV file is its parsed rows, a text file its content, a missing file `None` or `false`. HTTP responses are an abstract `Network`: the outcome of attempt n on a URL. The network is a fixed function, so attempt n on a URL always has the same outcome, and downloading the same sheet or document twice gives identical results.
- YAML and CSV parsing themselves. The configuration, secrets and CSV rows arrive parsed. The process environment is a map.
- The DOM traversal of the scraper: BeautifulSoup lookups, `get_text(strip=True)`, and the `h4` date-and-time lookup. A heading's date and time are an input.
- `load_conference_data`, `load_notes_file`, `fetch_page`, `scrape_*`, `main` and the CLI: pure I/O.
- The LLM calls, prompt loading, `generate_report`, `check_report_from_files` and the legacy `generate_report_framework`. Only the post-processing of a response is modelled.
- The root `config_loader.py`: the same logic as the package module, so the one model covers both.
- `Config.__repr__`: display only.
- ConfigLoader.Config.ListEndpoints: returns the set of endpoint names, not a list in the mapping's insertion order.
- Python's `lower`, `upper`, `title`, `capitalize`, `isupper`, `isspace` and `\w`: modelled on ASCII only, with no Unicode case mapping.
- Regular expressions: written as explicit scanners over ASCII, with no general backtracking engine.
- `Path` joins: modelled as file names within an inputs directory, or as "/" joins of strings.
- A non-string `api_key_env`: it resolves no key.
- The `try/except` paths: the legacy attendees appendix's "Error loading attendees list." text, and the filter's empty result on an exception. They are reached by a failed file read and by malformed CSV. They are also reached by a short row: `csv.DictReader` fills its missing cells with `None`, so `.strip()` raises (reference/tpc-session-reporter/generate_report.py:558-560), and so does `in` on a `None` session cell (reference/tpc-session-reporter/generate_report.py:512-518). The model's rows are always complete maps of strings, so these paths never arise in it.
- Assembler.AssembleTrackBundle: requires every talk to be a dictionary, and the track's talks to have dictionary authors (or none). The source raises on other shapes and does not handle them.
- Assembler.AssembleAllTracks: requires every talk to be a dictionary with author records, which is what the loader produces. Writing the bundles to JSON files is left out, and so is the `_output_path` key each returned bundle gets (tpc_reporter/assembler.py:362).
- Assembler.LoadLightningTalks: the UTF-8 byte-order mark and CSV decoding are left to the parser; the rows are given.
- Generator.BundleHeadings: stated only for sessions whose notes do not start with "## Session: ", since such a note line would itself read as a heading.
- Generator.SessionsHeadings: the same condition on notes as above.
- Generator.SessionHeadings: the same condition on notes as above.
- Generator.SessionTalksBlock: stated for notes other than exactly "### Lightning Talks", since notes equal to that line would put it in a session without talks.
- Generator.SessionAttendeesBlock: stated for notes other than exactly "### Attendees", for the same reason.
- Generator.BundleHeadings: `Headings` counts list elements as lines. A multi-line note that holds "\n## Session: " inside it is not seen as a heading, though it reads as one in the joined text.
- Scraper.CsvRoundTrip: stated for rows with at least one field, which is every row the writers produce.
- Scraper.CsvRoundTrip: the round trip holds for the lenient reader only. `_csv_escape` leaves a value whose only special character is a bare carriage return unquoted (Scraper.CarriageReturnUnquoted). A reader that follows section 2 of RFC 4180 strictly, or Python's `csv` reader, rejects such a field, so for those readers the round trip is not promised when a value holds a bare CR. The same holds for Scraper.SpeakersCsvRoundTrip, Scraper.SessionsCsvRoundTrip and Scraper.FieldOfEscape.
- GDrive.ExportUrlRoundTrip: stated for file ids that are runs of id characters; any other id cannot be read back by the extractor's pattern.
- The timeout and `allow_redirects` arguments of `download_file`, and the 30-second default timeout: they affect only I/O.
- Floating-point temperatures and token limits of the LLM calls.
