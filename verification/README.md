# GBIF occurrence demo: the pure layer of `occurence_api.py`

The demo script queries the GBIF occurrence API for records of one species
that carry still images, downloads the first image of the first record and
writes a metadata document with a download citation next to it. Around the
HTTP calls, file writes and progress messages sits a small pure layer, and
this Dafny project models that layer:

- **Values** — a decoded JSON value (`Value`), an occurrence record as a
  `map<string, Value>` (a missing field is a key outside the domain),
  `dict.get` with a default, Python truthiness (`if not x`), and `str()` as
  used by f-strings, with the decimal rendering of integers proved to round-trip.
- **Strings** — Python's `str.split(sep)` for a one-character separator,
  with `sep.join` as its inverse, and the `[-1]` / `[0]` picks the script uses.
- **Paths** — POSIX `os.path.join` for two components.
- **Extension** — the image extension derived from the image URL:
  text after the last `.`, cut at the first `?`, kept when it is exactly one of
  `jpg`, `jpeg`, `png`, `gif`, and `jpg` otherwise.
- **Metadata** — the projection `save_metadata` builds: nineteen keys in a
  fixed order, eighteen copied from the record (null when absent, an empty list
  for `media`) and a `citation` formed from the DOI prefix and the record id.
- **Planner** — `main` between the query and the writes, as a pure function
  from the returned records to an `Outcome`: `Stop(reason)` for the three early
  returns, `Failed(fault)` for the exceptions a malformed record raises inside
  the `try` block, or `Run(plan)` with the image URL, both output paths and the
  metadata document. `Effects` lists the writes a run performs, in order.
- **Scenarios** — concrete runs: the one-record example with id 42, the
  citation for id 12345 and for a record without id, and the quirks of the
  extension and path rules.

The output directories are a `Config` parameter; `DemoConfig()` gives the
script's own `gbif_dataset/demo/images` and `gbif_dataset/demo/metadata`.

Behaviour of the code that is easy to miss:

- `media` defaults to an empty list, not to null.
- A `gbifID` that is present but null is rendered as `None`, in the citation
  and in the file names. `unknown` is used only when the key is missing.
- The output paths are built with `os.path.join`. An id starting with `/`
  therefore replaces the output directory.
- The missing-data checks are truthiness tests. A record with the wrong
  shape raises inside the `try` block. Examples are a `media` that is a
  string or a dict, a first media entry that is not a dict, or an identifier
  that is a non-empty non-string. The model reports these as `Failed`, not as
  a normal stop.

## Model

| member | source | states |
|---|---|---|
| `Values.NatToDecimal` | gbif_dataset/demo/occurence_api.py:145-146 | the id text of an integer id is a non-empty string of digits with no superfluous leading zero |
| `Values.DecimalRoundTrip` | gbif_dataset/demo/occurence_api.py:145-146 | reading the rendered digits back gives the integer again, so distinct ids give distinct file names |
| `Values.RenderInt` | gbif_dataset/demo/occurence_api.py:96 | an integer id is written with a minus sign exactly when negative, followed by a numeral whose value is its magnitude |
| `Values.RenderIntIsPlain` | gbif_dataset/demo/occurence_api.py:145-146 | an integer id contains no `/`, `.` or `?`, so it cannot move the files out of their directories |
| `Strings.Split` | gbif_dataset/demo/occurence_api.py:140 | `split` always yields at least one piece and no piece contains the separator |
| `Strings.JoinSplit` | gbif_dataset/demo/occurence_api.py:140 | joining the pieces of a split with the separator restores the original string |
| `Strings.SplitJoin` | gbif_dataset/demo/occurence_api.py:140 | splitting a join of separator-free pieces gives back exactly those pieces |
| `Strings.SplitAt` | gbif_dataset/demo/occurence_api.py:140 | splitting at one separator occurrence concatenates the splits of the two sides |
| `Strings.AfterLastIs` | gbif_dataset/demo/occurence_api.py:140 | `split(sep)[-1]` is the separator-free text after the last separator |
| `Strings.BeforeFirstIs` | gbif_dataset/demo/occurence_api.py:140 | `split(sep)[0]` is the separator-free text before the first separator |
| `Strings.NoSepWhole` | gbif_dataset/demo/occurence_api.py:140 | with no separator present, both `[-1]` and `[0]` of the split are the whole string |
| `Strings.BeforeFirstIsPrefix` | gbif_dataset/demo/occurence_api.py:140 | `split(sep)[0]` is a prefix of the string |
| `Paths.JoinKeepsName` | gbif_dataset/demo/occurence_api.py:145-146 | the joined path always ends with the file name; an absolute name is the whole result, and a relative one keeps the directory as prefix |
| `Paths.JoinRelative` | gbif_dataset/demo/occurence_api.py:145-146 | joining a relative name to a directory gives `dir/name`, and the name is the last component when it has no `/` |
| `Paths.BasenameOfJoin` | gbif_dataset/demo/occurence_api.py:145-146 | a file name without `/` is the last path component after the join, whatever the directory |
| `Extension.RawExtension` | gbif_dataset/demo/occurence_api.py:140 | the candidate extension never contains `.` or `?` |
| `Extension.ImageExtension` | gbif_dataset/demo/occurence_api.py:140-142 | the saved extension is always one of `jpg`, `jpeg`, `png`, `gif`, it equals the URL's candidate exactly when that candidate is in the list, and it is `jpg` whenever the candidate is not |
| `Extension.ExtensionBeforeQuery` | gbif_dataset/demo/occurence_api.py:140 | for `base.ext?query` with no `.` in `ext` or `query` and no `?` in `ext`, the candidate is `ext` |
| `Extension.ExtensionAtEnd` | gbif_dataset/demo/occurence_api.py:140 | for `base.ext` with no `.` or `?` in `ext`, the candidate is `ext` |
| `Extension.ExtensionWithoutDot` | gbif_dataset/demo/occurence_api.py:140 | a URL with no `.` yields its text before the first `?` as candidate |
| `Extension.DotInQueryWins` | gbif_dataset/demo/occurence_api.py:140-142 | a `.` in the query string moves the split: the candidate is what follows the query's last dot, not the path's extension |
| `Metadata.Project` | gbif_dataset/demo/occurence_api.py:79-99 | the document has the same nineteen keys in the same order for every record; each copied field is the record's value when present and null (empty list for `media`) when absent; `citation` is the citation string |
| `Metadata.DocumentKeysDistinct` | gbif_dataset/demo/occurence_api.py:79-99 | the nineteen keys are pairwise distinct, so the document has exactly nineteen members |
| `Metadata.LookupFinds` | gbif_dataset/demo/occurence_api.py:79-99 | in a document with distinct keys, looking up an entry's key finds that entry's value |
| `Metadata.LookupMisses` | gbif_dataset/demo/occurence_api.py:79-99 | looking up a key that no entry carries finds nothing |
| `Metadata.ProjectLookupAt` | gbif_dataset/demo/occurence_api.py:79-99 | the entry at each position of the document is what a lookup of its key returns |
| `Metadata.ProjectLookup` | gbif_dataset/demo/occurence_api.py:80-98 | read as a JSON object, the document answers each copied key with the record's value or its default, `citation` with the citation, and every other key with nothing, so other record fields are dropped |
| `Metadata.ProjectIgnoresOtherFields` | gbif_dataset/demo/occurence_api.py:79-99 | two records that agree on the listed keys give the same document, whatever else they hold |
| `Metadata.CitationParts` | gbif_dataset/demo/occurence_api.py:96 | the citation is the DOI prefix `GBIF Occurrence Download https://doi.org/10.15468/dl.` followed by the record's id text and nothing else |
| `Metadata.CitationNamesRecord` | gbif_dataset/demo/occurence_api.py:96 | the citation is the DOI prefix followed by the rendered `gbifID`, or by `unknown` when the key is absent |
| `Metadata.CitationIdentifiesRecord` | gbif_dataset/demo/occurence_api.py:96 | two records share a citation exactly when their ids are written the same way |
| `Planner.FirstIdentifierFaults` | gbif_dataset/demo/occurence_api.py:132-133 | `media[0].get('identifier')` succeeds exactly for a list whose first entry is a dict; a dict raises `KeyError`, a number or boolean `TypeError`, a string or a non-dict first entry `AttributeError` |
| `Planner.PlanRun` | gbif_dataset/demo/occurence_api.py:116-152 | a run only happens with at least one record, uses a non-empty image URL and carries the projection of the first record as metadata |
| `Planner.RunsExactlyWithImageUrl` | gbif_dataset/demo/occurence_api.py:127-137 | the script goes ahead if and only if the first record's media is a non-empty list whose first entry is a dict with a non-empty string `identifier`, and that identifier is the download URL |
| `Planner.RunPlanIs` | gbif_dataset/demo/occurence_api.py:121-152 | a run's plan consists of the first media identifier, the image path `image_dir/<id>.<ext>`, the JSON path `json_dir/<id>.json` and the first record's metadata |
| `Planner.StopsExactly` | gbif_dataset/demo/occurence_api.py:116-137 | each early return happens exactly in its own situation: no records; media missing or falsy (null, false, 0, or an empty string, list or dict); identifier missing or falsy in a first media entry that is a dict |
| `Planner.FailsExactly` | gbif_dataset/demo/occurence_api.py:132-140 | each exception holds exactly for its input shape: a non-empty dict `media` raises `KeyError`; a truthy number or boolean `media` raises `TypeError`; a non-empty string `media`, a first entry that is not a dict, or a truthy non-string identifier raises `AttributeError` |
| `Planner.Effects` | gbif_dataset/demo/occurence_api.py:148-152 | an outcome that does not run writes nothing; a run performs the image download and then the metadata write, each to one of its planned paths |
| `Planner.NoMediaNoWrites` | gbif_dataset/demo/occurence_api.py:127-130 | a first record with absent, null or empty media stops with no writes |
| `Planner.WritesOnlyWhenRunning` | gbif_dataset/demo/occurence_api.py:148-152 | nothing is written unless the run goes ahead; then the image download comes first and the metadata write second |
| `Planner.OnlyFirstRecordMatters` | gbif_dataset/demo/occurence_api.py:121 | records after the first never change the outcome |
| `Planner.FilesNamedAfterRecord` | gbif_dataset/demo/occurence_api.py:144-146 | both files are named after the record id that the citation ends with, and the image keeps an allowed extension |
| `Planner.FilesInsideDirectories` | gbif_dataset/demo/occurence_api.py:145-146 | with an id free of `/`, the files are `image_dir/<id>.<ext>` and `json_dir/<id>.json`, directly inside the configured directories |
| `Planner.ScalarIdFilesInside` | gbif_dataset/demo/occurence_api.py:145-146 | with an integer, boolean or null `gbifID`, or none, both files lie directly inside the configured directories |
| `Scenarios.DemoDirectories` | gbif_dataset/demo/occurence_api.py:7-9 | the script's output directories are `gbif_dataset/demo/images` and `gbif_dataset/demo/metadata` |
| `Scenarios.DemoRecordRuns` | gbif_dataset/demo/occurence_api.py:116-152 | one record with id 42 and one `.jpg` media URL is planned as a download to `images/42.jpg` followed by a metadata write to `metadata/42.json` |
| `Scenarios.DemoRecordMetadata` | gbif_dataset/demo/occurence_api.py:80-96 | that record's document holds `gbifID` 42 and a citation ending in `dl.42` |
| `Scenarios.MissingCountryIsNull` | gbif_dataset/demo/occurence_api.py:85 | a record without `country` gives a null `country` |
| `Scenarios.CitationFor12345` | gbif_dataset/demo/occurence_api.py:96 | a record with id 12345 is cited as download `dl.12345` |
| `Scenarios.MissingIdIsUnknown` | gbif_dataset/demo/occurence_api.py:96 | a record without `gbifID` is cited as `dl.unknown` and its id text is `unknown` |
| `Scenarios.NullIdIsNone` | gbif_dataset/demo/occurence_api.py:122 | a `gbifID` present but null is written as `None`, in the citation and in the metadata file name |
| `Scenarios.AbsoluteIdLeavesDirectory` | gbif_dataset/demo/occurence_api.py:146 | a string id starting with `/` puts the metadata file at that absolute path, outside the metadata directory |
| `Scenarios.PngBeforeQuery` | gbif_dataset/demo/occurence_api.py:140-142 | `…/image123.png?size=large` is saved as `png` |
| `Scenarios.UppercaseFallsBack` | gbif_dataset/demo/occurence_api.py:141-142 | `…/image123.PNG?size=large` yields the candidate `PNG`, and case-sensitive matching then falls back to `jpg` |
| `Scenarios.DotInQueryFallsBack` | gbif_dataset/demo/occurence_api.py:140-142 | `a.png?v=1.2` yields the candidate `2` and so the fallback `jpg` |

## Left out

- `query_gbif_occurrences` (lines 18-45) is HTTP I/O. The model takes the returned `results` list as its input sequence of records.
- `download_image` (lines 48-67) is a streamed HTTP download and a file write. The model stops at the `DownloadImage` effect that names the URL and the path.
- Directory creation, file writes and the JSON text written by `json.dump(..., indent=2)` (lines 101-107) are filesystem and library serialisation. The document is modelled as its ordered entries.
- The progress messages and the top-level `except` clauses (lines 158-161) are operator I/O. Network failures during the query or the download are not modelled. Exceptions raised by malformed records inside the modelled region become `Failed`.
- Records are modelled as JSON objects. A `results` element that is not an object would make `first_record.get` raise, and that case is not modelled because the service returns objects.
- Latitude, longitude and every other copied field are opaque values, copied through unchanged.
- `Paths.Join` follows POSIX `posixpath.join`. Windows path rules are not modelled.
- `Values.Render`: Python's `str()` is exact for null, booleans, integers and strings. A float, list or dict used as `gbifID` is rendered as a fixed placeholder, not as Python's repr. Python's float printing and container repr are out of scope.
- Running the pipeline twice with the same input plans the same writes, because `PlanRun` is a function. The byte-identical overwrite itself is file I/O.
