# Nyaa tracker adapter — a verified Dafny model

This project models the deterministic core of the Nyaa adapter of Upload-Assistant
(`src/trackers/NYAA.py`): the transformations it performs around its HTTP calls when it
uploads a release to nyaa.si.

- **Metainfo envelope rewrite** (`Metainfo`, `Adapter.Nyaa.EditTorrent`): the first pass
  keeps only the allow-listed top-level keys (`announce`, `comment`, `creation date`,
  `created by`, `encoding`, `info`), points `announce` at the tracker, clears `comment`
  and clears the private flag; the second pass (`add_tracker_torrent`) overwrites
  `announce` and `comment` and nothing else. The metainfo is a `map<string, Value>`
  whose `info` value is opaque; the private flag is a separate boolean.
- **Description composer** (`Description`, `Adapter.Nyaa.GenerateDescription`): the
  Screenshots, Subtitles, BD Info, MediaInfo and signature sections, in that order, each
  present only when it has something to show, joined by newlines; the MediaInfo dump is
  split on blank lines and paired by position with the parsed tracks, keeping the
  General, Video and Audio blocks.
- **Category tiering** (`Category.CategoryId`): English-translated, non-English-translated
  or raw, from what the language collaborator reports.
- **Search-result titles** (`Search`, `Adapter.Nyaa.SearchExisting`): the stripped
  titles of the RSS `<item>` and then Atom `<entry>` nodes; an empty list without a
  session cookie or when anything fails.
- **Upload** (`Payload`, `Adapter.Nyaa.Upload`): the form fields with their
  conditional `y` flags, the upload filename, the debug dry run, and in live mode the
  torrent id read from the final `/view/<n>` URL, followed by the second envelope pass.

The working directory `tmp/<uuid>/` is a class `WorkDir` holding the torrent files and
the text files by name; the adapter is a class `Nyaa` whose mutable state is
whether its HTTP session is closed and the upload forms handed to its POST, oldest
first; each form holds its text fields and the torrent it uploads. The network, XML parsing and the language and
image-host collaborators are inputs: `SearchResponse`, `Feed`, `PostResult` and
`LanguageFacts`. Python's `str.split`, `str.join`, `str.strip`, `str(int)` and
`int(str)` are modelled in `Strings`, and so is the universal-newline translation of
reading a file in text mode.

Behaviours of the code worth knowing, all modelled as the code has them:

- sections are joined with a single `"\n"`, not separated by blank lines;
- MediaInfo blocks and tracks are zipped, so a count mismatch silently truncates to the
  shorter list instead of failing;
- no attribution suffix is ever added to `created by`;
- there is no duplicate classification and no tagged filename: `search_existing` only
  returns titles and the upload filename is always `name + ".torrent"`;
- a title whose text is non-empty but all whitespace is kept, as the empty string.

## Model

| member | source | states |
|---|---|---|
| `Metainfo.AllowedPart` | src/trackers/NYAA.py:33-35 | the kept keys are exactly the input's keys that are on the allow-list, with their values unchanged |
| `Metainfo.Rewrite` | src/trackers/NYAA.py:33-39 | after the first pass every key is on the allow-list, the keys are the input's allowed keys plus `announce` and `comment`, `announce` is the tracker URL, `comment` is empty, the torrent is not private, and every other surviving key keeps its input value |
| `Metainfo.EditMetainfo` | src/trackers/NYAA.py:33-39 | the key-popping loop followed by the three assignments yields exactly the first-pass rewrite, whatever order the keys are visited in |
| `Metainfo.RewriteIdempotent` | src/trackers/NYAA.py:33-39 | applying the first pass twice gives the same torrent as applying it once |
| `Metainfo.Patch` | src/trackers/NYAA.py:162-163 | the second pass sets `announce` and `comment` to the given values, adds no other key, keeps every other key's value and leaves the private flag alone |
| `Metainfo.TwoPassesKeepInfo` | src/trackers/NYAA.py:159-164 | after both passes `info` is present exactly when it was in the base torrent and has the same value, every key is still on the allow-list and the torrent is still public |
| `Adapter.EditedTorrents` | src/trackers/NYAA.py:30-41 | when the base torrent is missing the files are unchanged; otherwise `[<tracker>].torrent` becomes the first-pass rewrite of the base and every other file is unchanged |
| `Adapter.Nyaa.EditTorrent` | src/trackers/NYAA.py:30-41 | the working directory's torrents become exactly the edited torrents above |
| `Adapter.PatchedTorrents` | src/trackers/NYAA.py:159-164 | when `[<tracker>].torrent` exists it gets the second pass; no file is added, removed or otherwise changed |
| `Adapter.Nyaa.AddTrackerTorrent` | src/trackers/NYAA.py:159-164 | the working directory's torrents become exactly the patched torrents above |
| `Adapter.Nyaa.constructor` | src/trackers/NYAA.py:17-28 | the adapter keeps the configured session cookie and anonymity default and starts with an open session that has posted nothing |
| `Description.BuildScreenshotsBlock` | src/trackers/NYAA.py:51-56 | the accumulating loop yields the Screenshots header followed by each image's link |
| `Description.ScreenshotLinkAt` | src/trackers/NYAA.py:52-55 | the k-th image's `[![Screenshot](img)](web) ` link stands right after the links of the images before it: one link per image, in list order |
| `Description.SubtitleLines` | src/trackers/NYAA.py:70 | there is one line per language and line i is `- ` followed by language i |
| `Description.SubtitleLinesReadBack` | src/trackers/NYAA.py:69-71 | splitting the subtitle list on newlines gives back one `- lang` line per language in input order, when no label holds a newline |
| `Description.KeptPiecesSpec` | src/trackers/NYAA.py:80-85 | piece i is kept iff i is below both list lengths and track i is General, Video or Audio; kept pieces are verbatim, in increasing position order, and never outnumber either list |
| `Description.FilterMediaInfo` | src/trackers/NYAA.py:81-84 | the zip loop keeps exactly the pieces described above |
| `Description.MediaInfoVerbatimWhenAllKept` | src/trackers/NYAA.py:80-85 | when every block has a track and every track is kept, re-joining the kept blocks with blank lines gives back the MediaInfo dump unchanged |
| `Description.SectionsInOrder` | src/trackers/NYAA.py:46-90 | the sections always come in the order Screenshots, Subtitles, BD Info, MediaInfo, signature, with no kind twice |
| `Description.SectionsMembers` | src/trackers/NYAA.py:49-88 | a section is present exactly when its input has something to show (images; subtitle languages; a Blu-ray folder with a non-empty summary; an existing MediaInfo file; a non-empty signature) and it shows that input |
| `Description.ComposeJoinsSections` | src/trackers/NYAA.py:90 | no section renders empty, so the description is the rendered sections joined by newlines with nothing filtered out |
| `Description.ComposeDescription` | src/trackers/NYAA.py:46-90 | appending the present sections in order and joining the non-empty parts yields the composed description |
| `Adapter.ReadText` | src/trackers/NYAA.py:62-64 | a text file reads as nothing exactly when it does not exist; otherwise what is read holds no carriage return, is never longer than the file, and is exactly the file's contents when those hold no carriage return |
| `Strings.Universal` | src/trackers/NYAA.py:185-186 | reading in text mode never yields a carriage return and never lengthens the text |
| `Strings.UniversalKeeps` | src/trackers/NYAA.py:185-186 | text without carriage returns reads back exactly as written |
| `Strings.UniversalIdempotent` | src/trackers/NYAA.py:185-186 | reading back text that was already read changes nothing |
| `Adapter.Nyaa.GenerateDescription` | src/trackers/NYAA.py:43-93 | `[NYAA]DESCRIPTION.txt` is written with the description composed from the release and the existing summary and MediaInfo files, read with universal newlines; no other file changes |
| `Category.CategoryId` | src/trackers/NYAA.py:105-113 | the category is one of `1_2`, `1_3`, `1_4`: `1_2` iff English is in audio or subtitles, `1_3` iff not that but some non-Japanese language is, `1_4` otherwise |
| `Search.TitlesAppend` | src/trackers/NYAA.py:143-152 | the titles of items followed by entries are all item titles, then all entry titles |
| `Search.TitlesInOrder` | src/trackers/NYAA.py:146-150 | the titles of the first n nodes are, one for one and in node order, the stripped texts of the titled nodes among them |
| `Search.TitlesSpec` | src/trackers/NYAA.py:143-152 | the titles are exactly the stripped texts of the nodes whose title text exists and is non-empty, one per such node and in document order; hence every title comes from such a node, every such node yields its title, and there are never more titles than nodes |
| `Search.TitlesStripped` | src/trackers/NYAA.py:150 | every title is already stripped: stripping it again leaves it unchanged |
| `Strings.StripSpec` | src/trackers/NYAA.py:150 | a stripped title is a slice of the text with only whitespace cut from either end and neither begins nor ends with whitespace |
| `Adapter.Nyaa.SearchExisting` | src/trackers/NYAA.py:126-157 | the result is empty without a session cookie, on a failed request, an error status, an empty body or a body that does not parse; otherwise it is the titles of the items followed by the entries |
| `Payload.Information` | src/trackers/NYAA.py:199 | `information` is the MyAnimeList URL of the release's id when it has one, and empty exactly when it has none |
| `Payload.BuildPayload` | src/trackers/NYAA.py:188-208 | the form holds `display_name`, `category`, `information` and `description` always, and `is_anonymous`, `is_complete`, `is_remake`, each `y`, exactly when the release or config is anonymous, it is a pack, it is a repack; no other key |
| `Payload.PayloadUnique` | src/trackers/NYAA.py:196-208 | the conditions above determine the form completely |
| `Payload.FirstViewMatch` | src/trackers/NYAA.py:228 | the result is the leftmost position where `/view/` is followed by a digit, or none when there is no such position |
| `Payload.DigitRun` | src/trackers/NYAA.py:228 | the greedy `\d+` capture is the longest run of digits at that position |
| `Payload.ViewId` | src/trackers/NYAA.py:228 | there is no torrent id exactly when the final URL has no `/view/<digit>` anywhere |
| `Payload.ViewIdOfDetailsUrl` | src/trackers/NYAA.py:227-228 | the detail page `https://nyaa.si/view/<n>`, followed by anything that does not start with a digit, yields torrent id n |
| `Adapter.Nyaa.UploadAsWritten` | src/trackers/NYAA.py:166-194 | every call edits the torrent, writes the description and then fails with an unwrapped `NameError` for `tag`, leaving the session open |
| `Adapter.Nyaa.PostForm` | src/trackers/NYAA.py:222-233 | the live branch posts exactly the given form; a failed POST ends in `UploadException` with no file changed; a response is saved to `upload_response.html` before its status is checked, then an error status or a final URL without `/view/<n>` ends in `UploadException` with the torrents unchanged, and otherwise the id from the final URL is returned and `[<tracker>].torrent` gets the second pass with the tracker's announce URL and that URL as comment |
| `Adapter.Nyaa.Upload` | src/trackers/NYAA.py:166-239 | the session is closed on every outcome; a missing tracker torrent, a failed POST, an error status and a final URL without `/view/<n>` each end in an `UploadException`; the description in the form is the written description read back with universal newlines; outside debug mode exactly one form is posted, with those fields and, as `torrent_file` named `name.torrent`, the first-pass `[<tracker>].torrent`, and in debug mode nothing is posted and that form is returned; a live success returns the id from the final URL and applies the second pass with the tracker's announce URL and that URL as comment |

## Left out

- HTTP: the aiohttp session, its GET and POST calls and their timeouts are not modelled; their outcomes are the inputs `SearchResponse` and `PostResult`. `validate_credentials` (a GET of the profile page) is left out for the same reason.
- Filesystem: the `base_dir/tmp/<uuid>/` path layout is collapsed into a `WorkDir` keyed by file name; `texts` holds each text file's decoded contents, a write stores the string as given (Linux line endings) and a read applies universal newlines (`ReadText`, `Strings.Universal`). UTF-8 encoding and decoding are not modelled, so the `UnicodeDecodeError` of a summary or MediaInfo file that is not valid UTF-8 (raised before the upload's `try`) and the `UnicodeEncodeError` of writing a lone surrogate are not captured.
- The torrent library: `Torrent.read`, `copy` and `write`, bencoding and the info hash are foreign code. `info` is an opaque value and the private flag a separate boolean, so the model proves that `info` is untouched, not that the info hash is. A base file the library cannot read is not modelled.
- XML parsing: `ElementTree.fromstring` and `findall` are replaced by the `Feed` input, already split into item and entry titles.
- Collaborators: `process_desc_language`, `has_english_language`, `has_language_other_than` and `check_hosts` are not modelled; their results are the `LanguageFacts` input and the already-updated `Meta`.
- Console output, including the debug-mode printing of the headers and the payload; the dry run returns the payload instead.
- The `-SubsPlease` batch rename of the display name (line 193): it reads an undefined name, see Findings; the corrected `Upload` leaves the branch out and always uses the release name.
- Missing dictionary keys: `meta` is a record with every field present, so the `KeyError`s of a missing `name`, `mediainfo`, `img_url`, `@type`, `tracker_status` or `debug` entry are not modelled.
- `meta['tracker_status'][tracker]['torrent_id']` is not written; `Upload` returns the id in `Live` for the caller to store.
- An exception raised by the second pass after the id is known is not modelled; the second pass always succeeds.
- Payload.ViewId: Python's `\d` and `int()` also accept non-ASCII decimal digits; the model reads ASCII digits only.
- Payload.Information: the MyAnimeList id is a natural number with 0 for "absent"; a string id is not modelled.
- Adapter.Meta: `debug` is a boolean. The source posts only when the value is exactly `False`, so any other present value (`None`, `0`, `True`) behaves as debug mode; a missing `debug` key raises `KeyError` inside the upload's `try`, which becomes an `UploadException` with the session closed, and is not modelled.
- `source_flag` and the search query (`meta['name']`) are passed to calls the model does not make, so they are not modelled.

## Findings

| source | as written | input that shows it | evidently intended | confidence | as-written member | corrected member |
|---|---|---|---|---|---|---|
| src/trackers/NYAA.py:193 | `upload` compares `tag`, a name defined neither in the method nor in the module, so it raises `NameError` before its `try` on every call: nothing is posted, the error is not wrapped in `UploadException` and the session is not closed | any release, for example one named `X` with `debug` set | the form is built and, outside debug mode, posted; the display name is the release name (the batch rename would need a defined release-group tag) | high, not executed | `Adapter.Nyaa.UploadAsWritten` | `Adapter.Nyaa.Upload` |
