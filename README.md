# rook-lite backend: a Dafny model of its text and history handling

The service takes content extracted from a web page or social profile. It
asks a language model for a marketing critique as JSON, then stores the
critiques it is given for later listing. This project models the
deterministic logic around the model call, file by file:

- `asset_detector.dfy` (module `AssetDetector`) is `detect_asset_type`. It
  lower-cases a URL, parses it, and tags it with one of nine asset types by
  an ordered chain of substring tests on the host and the path.
  `url_split.dfy` (module `UrlSplit`) models the part of Python's
  `urllib.parse.urlparse` that the classifier depends on. That covers scheme
  detection, the `//host` network location, the `;params` cut, and the query
  and fragment. It also covers the `ValueError("Invalid IPv6 URL")` check.
- `json_repair.dfy` (module `JsonRepair`) is `extract_json_block`,
  `clean_common_json_issues` and `safe_json_load`. The greedy `\{[\s\S]*\}`
  search, the smart-quote replacement, the look-behind single-quote rewrite
  and the trailing-comma substitution are written as explicit character
  scans. The JSON decoder is a function-typed parameter (`Parser`).
- `platform_prompts.dfy` (module `PlatformPrompts`) is `get_platform_prompt`.
  It holds the eight guidance blocks, the `platform_logic` lookup with its
  `WEBSITE_LOGIC` fallback, and the f-string as a concatenation of named
  pieces.
- `analyze_page.dfy` (module `AnalyzePage`) holds the file-backed routes:
  - `analyze_page`: its prompt, the `overall_score` clamp and the 500 error
    path;
  - `save_analysis`, `get_history` and `get_history_detail`: the JSON file
    becomes the field `analyses`, a sequence of records held by the class
    `FileHistory`.
- `history.dfy` (module `History`) holds the in-memory routes. The
  module-level dictionary `HISTORY_DB` becomes the class `MemoryHistory`. It
  holds a map and the insertion order of its keys, because a Python dict
  lists values in that order.
- Support modules: `results.dfy` (Option/Result), `text.dfy` (Python string
  operations such as `in`, `find`, `lower`, `isspace` and concatenation),
  `json_value.dfy` (decoded JSON values), `py_float.dfy` (`float()`,
  `min`/`max` clamping, `round(x, 1)`) and `http.dfy` (`HTTPException`
  values).

The language model, the JSON decoder, Python's `str()` of a list, the
generated ids and the timestamps are all parameters. Nothing in the model
reads a clock, the network or the file system.

Notes on the code as written:

- `analyze_page` parses the reply with a bare `json.loads`. It calls none of
  `safe_json_load`, `detect_asset_type` and `get_platform_prompt`.
- A non-numeric `overall_score` makes `float()` raise, which gives a 500.
  Only a missing score counts as 0.
- No route fills in default values for missing fields of the reply.
- The history routes keep two independent stores (the JSON file and
  `HISTORY_DB`), and each is modelled as written.

## Model

| member | source | states |
|---|---|---|
| UrlSplit.UrlParse | app/utils/asset_detector.py:10-12 | `urlparse` either raises `Invalid IPv6 URL` (and only that) or gives a host without `/ ? #` and without an unmatched bracket, a path without `?`/`#`; a non-empty host only after `//` |
| UrlSplit.UrlParseCuts | app/utils/asset_detector.py:10-12 | where `urlparse` cuts: after the scheme, a `//` opens the host, which runs up to the first `/ ? #`; without `//` the host is empty; path, params, query and fragment are the cuts `SplitTail` makes of the rest |
| UrlSplit.SplitTail | app/utils/asset_detector.py:10-12 | the path holds no `?` or `#`, and the query holds no `#` |
| UrlSplit.SplitTailCuts | app/utils/asset_detector.py:10-12 | path with its params runs up to the first `?` or `#`; the query runs from a `?` at that cut to the first `#`; the fragment is everything after the first `#`; for the param schemes `;params` are cut off the path |
| UrlSplit.SplitParams | app/utils/asset_detector.py:10-12 | the path is either kept whole or is the kept part, `;` and the params, and the params hold no `/` |
| UrlSplit.SplitParamsAtFirstAfterSlash | app/utils/asset_detector.py:10-12 | the `;params` cut is at the first `;` after the last `/` |
| UrlSplit.TailAfterPath | app/utils/asset_detector.py:10-12 | a path free of `?`/`#` followed by a query or fragment `x`: the path is cut off whole, the query is what follows a leading `?` up to the first `#`, the fragment what follows that `#` |
| UrlSplit.UrlParseSchemeHostPath | app/utils/asset_detector.py:10-12 | `scheme://host/path` followed by a query or fragment splits into exactly that scheme, host and path (minus `;params` for the param schemes), with the query after `?` up to `#` and the fragment after `#`; raises exactly on an unmatched bracket in the host |
| UrlSplit.SchemelessHasNoNetloc | app/utils/asset_detector.py:10-12 | a URL with no `:` and no leading `/` has an empty scheme and an empty host |
| UrlSplit.SplitParamsKeepsSlashTerminated | app/utils/asset_detector.py:10-12 | cutting `;params` from the path never changes whether `/company/` or `/r/` (any text ending in `/`) occurs in it |
| AssetDetector.Classify | app/utils/asset_detector.py:14-33 | for every tag, exactly which hosts and paths receive it under first-match-wins order; never `unknown` |
| AssetDetector.DetectAsWritten | app/utils/asset_detector.py:6-12 | `detect_asset_type` as written: `unknown` exactly for the empty URL; the only exception is `urlparse`'s `Invalid IPv6 URL` on a non-empty URL |
| AssetDetector.DetectAssetType | app/utils/asset_detector.py:6-33 | total classifier: `unknown` iff the URL is empty; equals the source's tag whenever the source returns one, `website` where it raises |
| AssetDetector.DetectPlainUrl | app/utils/asset_detector.py:10-33 | on `scheme://host/path?query#fragment` the source raises exactly for an unmatched bracket in the host and otherwise returns `Classify(host, path)`; the query and the fragment play no part |
| AssetDetector.LoneBracketRaises | app/utils/asset_detector.py:10 | every `http://` URL whose host has `[` but no `]` raises instead of returning a tag |
| AssetDetector.LoneBracketExample | app/utils/asset_detector.py:10 | `detect_asset_type("http://[")` raises `Invalid IPv6 URL` |
| AssetDetector.DetectCaseInsensitive | app/utils/asset_detector.py:10 | URLs equal up to letter case get the same result, and lower-casing first changes nothing |
| AssetDetector.SchemelessUrlIsWebsite | app/utils/asset_detector.py:10-33 | a non-empty URL with no `:` and no leading `/` (such as `instagram.com/foo`) is `website` |
| AssetDetector.NoHostIsWebsite | app/utils/asset_detector.py:14-33 | an empty host matches no domain rule, so any path gives `website` |
| AssetDetector.HttpsUrlClassifiedByHost | app/utils/asset_detector.py:10-33 | an `https://` URL with a plain lower-case host and path, followed by any query or fragment, is classified by exactly that host and path, `;params` included |
| AssetDetector.PlainHttpsUrlClassified | app/utils/asset_detector.py:10-33 | the same for hosts of letters, digits, `.`, `-` and paths of letters, digits, `/ . - _` |
| AssetDetector.LinkedinQueryExample | app/utils/asset_detector.py:10-19 | `https://www.linkedin.com/company/acme?trk=x` is a LinkedIn company page: the query does not reach the path |
| AssetDetector.PathOnlyRefinesLinkedinAndReddit | app/utils/asset_detector.py:17-31 | for a fixed host, the path only chooses between the two LinkedIn tags or the two Reddit tags |
| AssetDetector.LargerHostMatchesNoLaterRule | app/utils/asset_detector.py:14-33 | a host containing another host is matched by the same rule or an earlier one (substring semantics) |
| AssetDetector.TagInjective | app/utils/asset_detector.py:6-33 | the nine returned strings are distinct |
| AssetDetector.ClassifyExamples | app/utils/asset_detector.py:14-33 | instagram, linkedin company/profile, reddit community/profile, `dropbox.com` as X, `example.com` as website |
| AssetDetector.DropboxIsXProfile | app/utils/asset_detector.py:22-23 | `https://dropbox.com` is an X profile because its host contains `x.com` |
| AssetDetector.WebsiteExample | app/utils/asset_detector.py:33 | `https://example.com` is a website |
| AssetDetector.SchemelessExample | app/utils/asset_detector.py:7-12 | `""` is `unknown`; `instagram.com/foo` is `website` |
| JsonRepair.ExtractJsonBlock | app/utils/json_repair.py:8-15 | fails with `No JSON object found in response` iff no `{` precedes a `}`; otherwise a slice of the text starting with `{`, ending with `}`, with no `{` before it and no `}` after it |
| JsonRepair.ExtractFromChatter | app/utils/json_repair.py:12-15 | a block surrounded by text without braces on the wrong side is extracted exactly |
| JsonRepair.ReplaceChar | app/utils/json_repair.py:25 | `str.replace` of one character: same length, each position replaced iff it held that character |
| JsonRepair.SmartQuotesToAscii | app/utils/json_repair.py:25 | same length; each `“`/`”` becomes `"`, `’` becomes `'`, everything else stays |
| JsonRepair.QuotesAfter | app/utils/json_repair.py:28 | same length; each `'` whose left neighbour is not `\` becomes `"`, nothing else changes |
| JsonRepair.SingleQuotesToDouble | app/utils/json_repair.py:28 | the look-behind rewrite on a whole string (no character before the first) |
| JsonRepair.DropTrailingCommas | app/utils/json_repair.py:31 | never longer; removes only commas and whitespace, keeps every other character (every `]` and `}`) |
| JsonRepair.DropTrailingCommasExact | app/utils/json_repair.py:31 | the result is exactly the characters outside every run of a comma and whitespace ending at `]`/`}`, in their original order: the comma and the whitespace of each run are deleted, the bracket kept |
| JsonRepair.QuoteStepsAreCharacterMaps | app/utils/json_repair.py:25-28 | both quote steps keep length and change only `“ ” ’` and unescaped `'` |
| JsonRepair.QuoteStepsResult | app/utils/json_repair.py:25-28 | after the quote steps no smart quote remains and every `'` follows a backslash |
| JsonRepair.DropKeepsQuotesEscaped | app/utils/json_repair.py:28-31 | the comma step never separates an escaped `'` from its backslash |
| JsonRepair.Clean | app/utils/json_repair.py:18-33 | cleaned text has no smart quotes, only escaped `'`, and is no longer than the input |
| JsonRepair.DropTrailingCommasNotIdempotent | app/utils/json_repair.py:31 | `,,]` becomes `,]`, which a second pass would change again |
| JsonRepair.KeptPrefix | app/utils/json_repair.py:31 | a comma-free prefix passes through the comma step unchanged |
| JsonRepair.DropFinalComma | app/utils/json_repair.py:31 | a comma before a final `]`/`}` after comma-free text is dropped |
| JsonRepair.CleanExample | app/utils/json_repair.py:18-33 | `{'k':v,}` is cleaned to `{"k":v}` |
| JsonRepair.SafeJsonLoad | app/utils/json_repair.py:36-54 | a direct parse is returned unchanged; otherwise a missing block gives the extraction error, and the cleaned block's parse is returned or its failure gives `Failed to repair JSON: ` plus the decoder's message |
| JsonRepair.RepairedValueFromShorterText | app/utils/json_repair.py:36-54 | every value returned was parsed from a text no longer than the raw reply |
| PlatformPrompts.LogicTable | app/prompts/platform_prompts.py:141-150 | the dictionary has an entry for exactly its eight keys, each one of the eight guidance blocks |
| PlatformPrompts.PlatformLogic | app/prompts/platform_prompts.py:141-150 | the lookup always gives one of the eight blocks, and `WEBSITE_LOGIC` for any key outside the dictionary |
| PlatformPrompts.PromptFrame | app/prompts/platform_prompts.py:128-185 | the prompt starts with a newline, the voice block and the asset-type and URL lines, and ends with the scoring instructions and a newline |
| PlatformPrompts.PromptSegmentsInOrder | app/prompts/platform_prompts.py:152-185 | voice, asset type/URL, content, guidance block, JSON shape and scoring text occur in this order without overlap |
| PlatformPrompts.PromptNamesAsset | app/prompts/platform_prompts.py:155-156 | the prompt contains `Asset type: <asset_type>` and `URL: <url>` verbatim, whatever block was chosen |
| PlatformPrompts.PromptHoldsContent | app/prompts/platform_prompts.py:158-159 | the prompt contains the content verbatim right after `Extracted content:` |
| PlatformPrompts.PromptHoldsLogic | app/prompts/platform_prompts.py:141-161 | the prompt contains the guidance block selected for the asset type |
| PlatformPrompts.LogicBlocksDistinct | app/prompts/platform_prompts.py:141-150 | two different table keys select two different blocks |
| PlatformPrompts.UnknownFallsBack | app/prompts/platform_prompts.py:150 | `unknown` falls back to `WEBSITE_LOGIC` |
| PlatformPrompts.TableCoversDetectorTags | app/prompts/platform_prompts.py:141-150 | the table has an entry for exactly the eight classifier tags other than `unknown` |
| PlatformPrompts.ShapeKeysInOrder | app/prompts/platform_prompts.py:163-182 | the JSON shape names `overview`, `target_audience`, `sections`, `verdicts`, `score`, `value`, `reasoning` in this order |
| PlatformPrompts.ShapeLacksAssetType | app/prompts/platform_prompts.py:163-182 | the JSON shape has no `asset_type` key |
| PyFloat.ParseDecimal | app/routes/analyze_page.py:127 | `float()` of a string accepts only a non-empty stripped text of digits and `.` after an optional sign; the value is negative only after `-` |
| PyFloat.FloatStripExamples | app/routes/analyze_page.py:127 | `" 5\n"` reads as 5, while `"\x1f5"` is refused: the separators `\x1c`–`\x1f` are not stripped |
| PyFloat.ToFloat | app/routes/analyze_page.py:127 | `float()` of a number is that number; of `null`, a list or an object it raises |
| PyFloat.ParseNatString | app/routes/analyze_page.py:127 | `float(str(n))` is `n` |
| PyFloat.ParseNegativeNatString | app/routes/analyze_page.py:127 | `float("-" + str(n))` is `-n` |
| PyFloat.ParseOneDecimal | app/routes/analyze_page.py:127 | `float("w.d")` is `w + d/10` |
| PyFloat.Clamp | app/routes/analyze_page.py:128 | `min(max(x, 0), 10)` lies in [0, 10], keeps values already there, maps below-range to 0 and above-range to 10 |
| PyFloat.Round1 | app/routes/analyze_page.py:128 | `round(x, 1)` is a whole number of tenths within 0.05 of `x`, even on ties, and stays in [0, 10] for inputs there |
| PyFloat.Round1KeepsTenths | app/routes/analyze_page.py:128 | rounding keeps a value that is already in tenths |
| PyFloat.Round1Examples | app/routes/analyze_page.py:127-128 | sample scores: 7.25 to 7.2, 7.75 to 7.8, 12.5 and 11 to 10, -3 to 0, 7.36 to 7.4 |
| AnalyzePage.AnalyzePrompt | app/routes/analyze_page.py:83-110 | the prompt starts with the fixed instructions and schema, then `URL: ` and the request's URL (`None` when absent), then the title line |
| AnalyzePage.PromptEndsWithGoal | app/routes/analyze_page.py:118-120 | the prompt ends with the user goal when it is a non-empty string, and with `Infer the primary business goal.` otherwise |
| AnalyzePage.AnalyzePage | app/routes/analyze_page.py:81-136 | a model failure propagates; an unparseable reply, a non-object or a score `float()` refuses gives the fixed 500; otherwise the parsed object with only `overall_score` replaced by the clamped, rounded score in [0, 10] |
| AnalyzePage.ScoredReply | app/routes/analyze_page.py:124-136 | a reply is usable exactly when it parses to an object whose score `float()` accepts; the object is kept, a missing score reads 0, a present one reads as its `float()` |
| AnalyzePage.MissingScoreIsZero | app/routes/analyze_page.py:127-128 | a reply object without `overall_score` is scored 0 |
| AnalyzePage.NonObjectRejected | app/routes/analyze_page.py:124-136 | an unparseable reply or a non-object is rejected |
| AnalyzePage.NonNumericScoreRejected | app/routes/analyze_page.py:127-136 | a score `float()` refuses is rejected, not read as 0 |
| AnalyzePage.InRangeScoreKept | app/routes/analyze_page.py:127-128 | an in-range score already in tenths is returned unchanged |
| AnalyzePage.NewEntry | app/routes/analyze_page.py:147-153 | a record built has the generated id and timestamp, the payload's string `url`, its object `analysis`, and the `float()` of that object's score; without `analysis`, or with a non-object one, building fails |
| AnalyzePage.NewEntryFields | app/routes/analyze_page.py:147-153 | a valid payload becomes a record with the given id, url, analysis, `float` of its score and timestamp |
| AnalyzePage.MissingAnalysisNotSaved | app/routes/analyze_page.py:147-153 | a payload without `analysis` fails validation and is not stored |
| AnalyzePage.HistoryItems | app/routes/analyze_page.py:174-182 | one item per record, in reverse storage order, each projected to id/url/score/created_at |
| AnalyzePage.HistoryAfterAppend | app/routes/analyze_page.py:145-182 | after an append, the new record's item heads the listing, followed by the old listing |
| AnalyzePage.HistoryNewestFirst | app/routes/analyze_page.py:174-182 | records saved A, B, C are listed C, B, A |
| AnalyzePage.FirstWithId | app/routes/analyze_page.py:192-194 | the index of the first record with the id, or -1 when none has it |
| AnalyzePage.LookupAfterFreshAppend | app/routes/analyze_page.py:192-194 | a record appended under an id not yet stored is what a lookup of that id finds |
| AnalyzePage.LookupStableUnderAppend | app/routes/analyze_page.py:192-194 | appending never changes what an existing lookup finds |
| AnalyzePage.FileHistory.constructor | app/routes/analyze_page.py:24-26 | the store starts as an empty list |
| AnalyzePage.FileHistory.SaveAnalysis | app/routes/analyze_page.py:142-164 | a valid payload appends exactly one record at the end and answers its id; an invalid one fails and leaves the store as it was |
| AnalyzePage.FileHistory.GetHistory | app/routes/analyze_page.py:170-182 | the listing of the stored records, newest first |
| AnalyzePage.FileHistory.GetHistoryDetail | app/routes/analyze_page.py:188-196 | the first stored record with the id, or 404 when no record has it |
| History.NewRecord | app/routes/history.py:28-32 | the record has the payload's keys plus `id`/`created_at`, equals the payload on its keys, and holds the generated id and timestamp only where the payload lacks them |
| History.Listing | app/routes/history.py:14 | the records of the map in the order of the key sequence |
| History.ListingAfterInsert | app/routes/history.py:14-34 | storing under a new key lists the record last, after the earlier records unchanged |
| History.ListingAfterOverwrite | app/routes/history.py:14-34 | storing under a key already present replaces that record in its old place |
| History.MemoryHistory.constructor | app/routes/history.py:9 | the store starts empty |
| History.MemoryHistory.SaveAnalysis | app/routes/history.py:24-35 | stores the built record under the id and returns it; a new id adds exactly one key, appends the record to the listing and keeps every other entry |
| History.MemoryHistory.ListHistory | app/routes/history.py:12-14 | all stored records in insertion order, one per key, and nothing else |
| History.MemoryHistory.GetHistoryDetail | app/routes/history.py:17-21 | the record under the id when the id is present, else 404; reads the store without changing it |

## Left out

- `app/llm/openrouter_client.py` (an HTTP POST with a timeout) is not part of this model. The model call is a parameter `string -> Result<string, string>`. The source's `analyze_page.py:9` imports a `call_llm` that this client file does not define, so that import would fail at start-up. This is not modelled.
- `app/main.py` (environment loading, CORS, the health route, router inclusion) is not part of this model. Both routers answer `/analysis/save` and `/analysis/history`. The two stores are modelled separately, and which route wins is not modelled.
- `app/models/analysis_schema.py` holds declarative pydantic classes with no behaviour. Nothing in the core uses them, and they are not part of this model.
- File I/O (directory creation, whole-file read and write) is replaced by the sequence field `FileHistory.analyses`. A failure to read or write the file, and a malformed file, are not modelled.
- `uuid4()` and `datetime.utcnow()` are parameters of the save methods. The file-backed store does not require fresh ids. The in-memory store follows Python dict semantics for a repeated id: the value is overwritten and the key keeps its place.
- Concurrent requests and their interleaving on the shared stores are not modelled.
- JSON objects are maps, so the key order of a decoded object is not kept. The JSON decoder is a function-typed parameter, and Python's `str()` of a list inside the `analyze_page` prompt is one as well.
- AssetDetector.DetectAsWritten: `Lower` maps only ASCII `A`–`Z`, whereas Python's `str.lower` also maps non-ASCII letters (and can change the length of a string).
- UrlSplit.UrlParse: follows recent CPython `urlsplit` (scheme test, C0 strip, tab/CR/LF removal, `_splitnetloc`, `_splitparams`). It leaves out the NFKC check on non-ASCII hosts and the validation of bracketed IPv6 hosts in newer releases. Both can raise `ValueError` on further inputs.
- PyFloat.ToFloat: `float()` of a string reads only an optional sign, digits with an optional fraction, and surrounding whitespace. Exponents, `inf`, `nan` and digit underscores are not read. `NaN`/`Infinity` in the JSON reply are not modelled, because numbers are exact reals.
- PyFloat.ToFloat: a JSON integer too large for a double makes Python's `float()` raise `OverflowError`, which gives a 500; the model reads it as an exact number, which the clamp then turns into 10.
- PyFloat.ToFloat: non-ASCII decimal digits (such as Arabic-Indic digits), which Python's `float()` accepts in a string, are refused by the model.
- PyFloat.Clamp: for a score out of range, Python's `max(score, 0)` or `min(..., 10)` returns the integer `0` or `10`, and `round(..., 1)` keeps it an integer, so the reply holds `0` or `10` rather than `0.0` or `10.0`. The model makes no difference between integers and floats.
- PyFloat.Round1: rounds the exact real to one decimal, half to even. Python rounds the binary double, so ties such as 0.15, which is stored slightly below the tie, can come out differently.
- AnalyzePage.NewEntry: validation accepts only a string `url` and an object `analysis`. Pydantic's lenient coercions of other types are not modelled, and neither is the text of the exception inside the `Failed to save analysis: ` detail.

## Findings

| source | as written | input that shows it | evidently intended | confidence | as-written member | corrected member |
|---|---|---|---|---|---|---|
| app/utils/asset_detector.py:10 | `urlparse(url.lower())` is not guarded, and it raises `ValueError("Invalid IPv6 URL")` when the host has a `[` without a `]` (or the reverse) | `http://[` | the classifier is total: a malformed URL falls through to `website` | high (not executed) | AssetDetector.LoneBracketExample | AssetDetector.DetectAssetType |
