# Release channel selection for MaaAssistantArknights

A verified model of the release script `MaaAssistantArknights/update_version.py`.
The script lists the releases of the OTA repository, newest first. It picks an
alpha, a beta and a stable tag by counting the dot-separated segments of each
tag. For each picked tag it fetches the release record from the OTA repository
and from the main repository and trims both. It then assembles a version
document per channel. Every request goes through a wrapper that retries when
the API is rate limited.

Modules, one per part of the script:

- `Wrappers`: `Option` and `Result`.
- `Values`: parsed JSON values (`Json`) and the Python exceptions an operation can raise (`Failure`).
- `Tags`: `str.split` on one separator, and the segment count of a tag.
- `ReleaseLister`: the classification loop of `get_release_info`, imperative (`GetReleaseInfo`).
  It is proved equal to a declarative "first tag that settles each channel" selection (`Select`).
  A full scan with no early exit (`FullScan`) is proved to give the same selection.
- `TagInfo`: the trimming in `get_tag_info`, imperative (`GetTagInfo`).
  It is proved equal to the recursive specification `TrimmedRelease`.
- `VersionJson`: `get_version_json` as a pure function of the two fetched lookups.
- `Retry`: `retry_urlopen` as a method over injected server answers and clock readings.

Slots of the release lister are `Option<string>`. The loop tests them with
Python truthiness, so `Some("")` counts as unset, exactly as `if not alpha`
does for an empty tag. Only alpha can end as `Some("")`, when every listed tag
is empty. A 3- or 4-segment tag contains at least two dots and is never empty.

Two consequences of the code as written, which the model keeps:

- `"v4.1.0-alpha.3"` splits into 4 segments, so it fills beta and alpha, although it names an alpha build (`Tags.SegCountExamples`).
- After five rate-limited attempts `retry_urlopen` falls off its loop and returns `None`.
  It does not re-raise the last error.
  The caller's `.read()` then raises AttributeError (`Retry.ReadResponse`).
  In `get_version_json` that error is not the tolerated 404, so it aborts the document (`VersionJson.ExhaustedMainLookupAborts`).

## Model

| member | source | states |
|---|---|---|
| `Values.Subscript` | MaaAssistantArknights/update_version.py:46-47 | `v[key]` succeeds exactly on an object holding the key and returns its value; a missing key raises KeyError, any other value TypeError |
| `Tags.Split` | MaaAssistantArknights/update_version.py:93 | `split(".")` yields one more piece than there are dots, and no piece contains a dot |
| `Tags.JoinSplit` | MaaAssistantArknights/update_version.py:93 | joining the pieces of a split with the separator gives back the tag |
| `Tags.SplitJoin` | MaaAssistantArknights/update_version.py:93 | splitting a join of dot-free pieces gives back the pieces |
| `Tags.SegCount` | MaaAssistantArknights/update_version.py:93 | `len(tag.split("."))` is the number of dots plus one, also for the empty tag |
| `Tags.SegCountExamples` | MaaAssistantArknights/update_version.py:93-95 | `v4.1.2` has 3 segments, `v4.1.2-beta.3` and `v4.1.0-alpha.3` have 4, the empty tag has 1 |
| `ReleaseLister.Truthy` | MaaAssistantArknights/update_version.py:96 | `None` and the empty tag are falsy, every other tag is truthy |
| `ReleaseLister.Step` | MaaAssistantArknights/update_version.py:92-111 | a truthy slot is never overwritten; an unset alpha takes every tag, an unset beta a 3- or 4-segment tag, an unset stable a 3-segment tag |
| `ReleaseLister.FirstMatch` | MaaAssistantArknights/update_version.py:91-111 | the index found settles the channel and no earlier tag does; with no index, no tag settles it |
| `ReleaseLister.SettlesNested` | MaaAssistantArknights/update_version.py:95-111 | a stable-shaped tag is beta-shaped, and a beta-shaped tag is non-empty, so it sets alpha |
| `ReleaseLister.FirstMatchSnoc` | MaaAssistantArknights/update_version.py:91-111 | one more entry keeps an earlier first match, and otherwise is the first match when it settles the channel |
| `ReleaseLister.FirstMatchPrefix` | MaaAssistantArknights/update_version.py:113-114 | once a prefix holds a match, later entries do not change it |
| `ReleaseLister.SettlesStableBeta` | MaaAssistantArknights/update_version.py:96-105 | the stable and beta slots are truthy exactly when a matching tag has been seen |
| `ReleaseLister.StepSelect` | MaaAssistantArknights/update_version.py:92-111 | one pass of the loop body turns the selection of a prefix into the selection of the prefix plus that entry |
| `ReleaseLister.FullScanIsSelect` | MaaAssistantArknights/update_version.py:91-111 | running the body over the whole list with no break gives the first-match selection |
| `ReleaseLister.AllSetIffStableSeen` | MaaAssistantArknights/update_version.py:113-114 | all three slots are set exactly when a 3-segment tag has been seen |
| `ReleaseLister.GetReleaseInfo` | MaaAssistantArknights/update_version.py:88-116 | the loop with its early break returns the first-match selection of the whole list, and stops right after the first 3-segment tag, or at the end of the list |
| `ReleaseLister.AlphaIsNewest` | MaaAssistantArknights/update_version.py:88-111 | an empty list leaves all three slots None; a non-empty newest tag is the alpha |
| `ReleaseLister.StableIsFirstThreeSegment` | MaaAssistantArknights/update_version.py:95-97 | stable is the first 3-segment tag in list order, and None when there is none |
| `ReleaseLister.BetaIsFirstThreeOrFourSegment` | MaaAssistantArknights/update_version.py:95-107 | beta is the first 3- or 4-segment tag in list order, and None when there is none |
| `ReleaseLister.SlotsOrdered` | MaaAssistantArknights/update_version.py:91-111 | every set slot is a listed tag, and the alpha index is at most the beta index, which is at most the stable index |
| `ReleaseLister.FirstSeenWins` | MaaAssistantArknights/update_version.py:95-111 | for tags of 4, 3 and 5 segments, alpha and beta are the first tag and stable the second |
| `TagInfo.MiniAsset` | MaaAssistantArknights/update_version.py:45-47 | a trimmed entry has exactly the keys `name` and `browser_download_url`, copied from the entry; a non-object entry raises TypeError, a missing key KeyError |
| `TagInfo.TrimAssets` | MaaAssistantArknights/update_version.py:43-48 | the trimmed list keeps length and order, entry by entry; it fails exactly when some entry fails, with the first failure |
| `TagInfo.Elements` | MaaAssistantArknights/update_version.py:44 | `for rel in assets` visits a list's items in order and a string's characters; an empty object yields nothing; a non-empty object or a scalar raises TypeError |
| `TagInfo.NonListAssetsTrimOnlyWhenEmpty` | MaaAssistantArknights/update_version.py:44-48 | assets given as a string or an object trim only when empty, and otherwise raise TypeError |
| `TagInfo.TrimmedRelease` | MaaAssistantArknights/update_version.py:41-50 | on success `author` is gone, every key other than `assets` is untouched, and `assets` holds the trimmed list |
| `TagInfo.TrimAssetsFirstFailure` | MaaAssistantArknights/update_version.py:44-48 | the first entry that cannot be trimmed decides the error of the whole list |
| `TagInfo.GetTagInfo` | MaaAssistantArknights/update_version.py:41-51 | deleting `author` and appending trimmed entries one by one yields exactly the trimmed record, or the same error |
| `TagInfo.MiniAssetIdempotent` | MaaAssistantArknights/update_version.py:45-47 | a trimmed entry trims to itself |
| `TagInfo.TrimAssetsIdempotent` | MaaAssistantArknights/update_version.py:43-50 | trimming a trimmed asset list gives the same list |
| `TagInfo.AssetListTrimmed` | MaaAssistantArknights/update_version.py:42-50 | a list of assets keeps its length and order, and entry i holds the name and URL of asset i |
| `TagInfo.TrimmedReleaseTwice` | MaaAssistantArknights/update_version.py:41-50 | trimming a trimmed record again raises KeyError on `author`, and its asset list trims to itself |
| `VersionJson.TrimmedReleaseTruthy` | MaaAssistantArknights/update_version.py:64 | a trimmed record is never an empty dictionary, so `if main_details` tests presence |
| `VersionJson.DictTruthy` | MaaAssistantArknights/update_version.py:64 | `None` and the empty dictionary are falsy; a record holding `assets` is truthy |
| `VersionJson.MainDetails` | MaaAssistantArknights/update_version.py:56-62 | the main record is None exactly on a 404; any other lookup failure and any trim failure propagate unchanged |
| `VersionJson.GetVersionJson` | MaaAssistantArknights/update_version.py:54-76 | a document is built exactly when the OTA record is fetched and trims, the main lookup is a 404 or a record that trims, and the chosen record has `body`; then `version` is the id, `ota_details` the trimmed OTA record, `details` None exactly on a 404, and `body` from main when present, else from OTA; otherwise the OTA failure, the main failure or KeyError on `body` is raised |
| `VersionJson.NotFoundFallsBackToOta` | MaaAssistantArknights/update_version.py:58-67 | a 404 from main gives the OTA body and no details |
| `VersionJson.MainPresentUsesMainBody` | MaaAssistantArknights/update_version.py:57-76 | when both records trim and main has a body, the document holds the main body, the main record and the OTA record |
| `VersionJson.ExhaustedMainLookupAborts` | MaaAssistantArknights/update_version.py:56-62 | a main lookup that ran out of retries aborts the document with AttributeError |
| `Retry.IsRateLimit` | MaaAssistantArknights/update_version.py:17 | only an HTTP 403 whose `x-ratelimit-remaining` is exactly "0" is retried |
| `Retry.ResetTime` | MaaAssistantArknights/update_version.py:20-24 | an absent header reads as 0, an unparsable one keeps `t0 + 10`, a number is taken as is |
| `Retry.Wait` | MaaAssistantArknights/update_version.py:19-27 | the sleep is at least 10 seconds, reaches the announced reset, and is longer than 10 seconds only to reach it |
| `Retry.RetryUrlopen` | MaaAssistantArknights/update_version.py:12-29 | at most 5 attempts; every retried attempt was a 403 with no requests remaining and was followed by its clamped wait; any other error is raised at once; five rate limits end in no response |
| `Retry.ReadResponse` | MaaAssistantArknights/update_version.py:38 | reading yields the response itself; a raised error passes through unchanged; no response raises AttributeError |

## Left out

- The HTTP requests, the `Request` objects and their headers are not modelled. Lookups are injected as `Result` values, and retry attempts as the function `answer`.
- The token lookup in the environment and the `Authorization` header are configuration, not modelled.
- `json.loads` is not modelled: operations take the parsed `Json` value. JSON numbers are integers here, and object key order is not kept.
- `main` and the writing of the three files with `json.dump` are file output, not modelled. So is calling `get_version_json` with `None` when a channel is unset.
- `print` calls and URL formatting are not modelled.
- `time.time()` is a float in the source. The model reads the clock as whole seconds (`clock`) and returns the sleeps instead of sleeping.
- `Retry.RetryUrlopen`: Python's `int()` parsing of `x-ratelimit-reset` is abstracted to the three outcomes of `ResetHeader` (absent, unparsable, a number).
- `ReleaseLister.GetReleaseInfo`: takes the tag names directly. The `rel["tag_name"]` lookup and its failure on a malformed entry are not modelled.
