# swpkg_generator — a verified model of the profile-to-SWLM pipeline

swpkg_generator keeps *software-package profiles* and turns one of them into an
SWLM document for a given release string such as `BSW_VCC_20.0.1`. A profile is
a JSON object with these parts:

- a package id and a generic product module;
- source references, each with components, additional-information entries and a change log;
- SWAD and SWDD lists;
- artifacts.

Generating a document does four things:

- It fills every empty `version` field with the release.
- It resolves every Gerrit project named in the profile to a tag URL.
- It resolves every artifact to an Artifactory download URL and its SHA-256.
- It renumbers the references and artifacts and forces a few constant fields.

The same pipeline exists twice, with small differences: in the React client
(`GeneratePage`) and in the FastAPI server (`generate_swlm`). Around it sit:

- the client's save-time normalisation (`ProfilesContext`);
- the profile editor's list handlers (`ProfileEditor`, `ProfilePage` and the older `App.js`);
- the server's CRUD handlers over the stored profile list;
- the Gerrit and Artifactory clients' pure parts: tag filtering, tag-URL composition, AQL query construction and exactly-one selection.

## How the model is built

JSON is the datatype `JsonValue.Value`:
`Undefined | Null | Bool | Num(int) | NaN | Str | Arr | Obj`. An object is an
ordered list of `(key, value)` pairs, so the key order that the display
functions produce is observable. `JsonValue.Put` is JS property assignment: an
existing key keeps its slot, and a new key is appended. JavaScript and Python
each have their own readings of truthiness, `str()`/`String()` and property
access: `Truthy`/`PyTruthy`, `JsString`/`PyStr`, `Prop`/`OptProp`/`PyGet`.

Every JavaScript `TypeError` the code can hit becomes an `Err` result rather
than a precondition, as does every Python exception. These are property reads
on `null`, `.trim()` on a non-string, and spreading `null` into an array. The
server's HTTP errors are `Backend.HttpError` with their status codes.

Each external service becomes a function parameter. A `None` result stands for a
failed or throwing call:

- the Gerrit tag lookup;
- the Artifactory artifact and checksum lookups;
- the CarWeaver lookups.

Each pipeline is then a total, sequential map.

One module per source file:

- ProfileUtils: `frontend/src/utils/profile.js`
- ProjectName: `frontend/src/utils/gerrit.js`
- GeneratePage: `frontend/src/pages/GeneratePage.jsx`
- ProfilesContext: `frontend/src/context/ProfilesContext.jsx`
- ProfileEditor: `frontend/src/components/ProfileEditor.jsx`
- ProfilePage: `frontend/src/pages/ProfilePage.jsx`
- LegacyApp: `frontend/src/App.js`
- Backend: `backend/main.py`
- GerritClient: `backend/gerrit_client.py`
- ArtifactoryClient: `backend/artifactory_client.py`

Supporting modules:

- Text: trimming, splitting and digits.
- Percent: percent-decoding as in section 2.1 of RFC 3986, its inverse encoder, and the `%2F` replacement.
- Sorting: insertion sort and uniqueness of a sorted permutation.
- JsonValue.
- Wrappers: `Option`/`Result`.

Where the source holds state, the model is a class:

- `ProfilesContext.Profiles`: the context's `profiles` list.
- `ProfileEditor.Editor`: the profile being edited.
- `ProfilePage.Page`: `editIdx`, `editProfile` and `askDeleteIdx`.
- `GeneratePage.GeneratePage`: the page's selected index, input, result and loading flag.
- `LegacyApp.App`: the older app's state.
- `Backend.ProfileStore`: the content of `profiles.json`.

Each method's `ensures` gives its whole new state as a function of the old one.
The properties are proved about those functions.

Two source defects are recorded under "## Findings". Each has both an
as-written and a corrected definition. The members that model the program use
the **as-written** variants:

- `ProjectName.ToProjectNameAsWritten` on the save path;
- `GerritClient.ComposeTagUrlAsWritten` in the tag-URL lookup.

## Model

| member | source | states |
|---|---|---|
| JsonValue.Get | frontend/src/utils/profile.js:7-8 | reading an absent key gives `undefined`; on unique keys, the key at slot i reads slot i's value (JsonValue.GetAt) |
| JsonValue.GetAt | frontend/src/utils/profile.js:7-8 | on an object with unique keys, reading the key at slot i gives that slot's value |
| JsonValue.Put | frontend/src/utils/profile.js:2 | after `o[k] = v` the key reads v and every other key reads as before; an existing key keeps its slot, a new key goes last |
| JsonValue.PutUnique | frontend/src/utils/profile.js:2 | assignment keeps the keys unique |
| JsonValue.PutTwice | frontend/src/utils/profile.js:2 | a second assignment to the same key overrides the first |
| JsonValue.PutExisting | frontend/src/utils/profile.js:2 | writing a key's own value back changes nothing |
| JsonValue.PutNew | frontend/src/utils/profile.js:2 | a new key is appended at the end |
| JsonValue.MergeGetInside | frontend/src/App.js:43 | in `{...a, ...b}` a key of b reads b's value |
| JsonValue.MergeGetOutside | frontend/src/App.js:43 | in `{...a, ...b}` a key not in b reads a's value |
| JsonValue.Without | frontend/src/pages/GeneratePage.jsx:33 | the rest of a destructuring holds none of the removed keys, is never longer, and invents no key |
| JsonValue.GetWithout | frontend/src/pages/GeneratePage.jsx:33 | every key that is not removed reads as before |
| JsonValue.TryMap | frontend/src/pages/GeneratePage.jsx:36-41 | a throwing map succeeds iff every element maps; element i of the result is element i mapped |
| JsonValue.TryMapPrefixFails | frontend/src/pages/GeneratePage.jsx:36-41 | once a prefix fails, the whole map fails with that error |
| JsonValue.Prop | frontend/src/pages/GeneratePage.jsx:98 | a property read throws iff the value is nullish |
| JsonValue.ItemsOrEmpty | frontend/src/utils/profile.js:2 | mapping over `x or []` throws iff x is truthy and not an array |
| JsonValue.SpreadItems | frontend/src/pages/ProfilePage.jsx:31 | spreading `x or []` into an array copies an array and gives `[]` for falsy values |
| JsonValue.TrimJs | frontend/src/utils/gerrit.js:2 | `.trim()` throws iff the value is not a string, and otherwise trims it |
| JsonValue.TrimOrBlank | frontend/src/pages/GeneratePage.jsx:98 | trimming `x or ""` is "" for falsy values, trims strings, and throws on other truthy values |
| JsonValue.SortNumeric | frontend/src/pages/GeneratePage.jsx:125 | on numbers, `sort((x, y) => x - y)` gives a sorted permutation |
| JsonValue.PyGet | backend/main.py:41 | `dict.get(k)` gives None for an absent key |
| ProfileUtils.OrderProfileUnique | frontend/src/utils/profile.js:5-21 | the ordered profile's keys are distinct |
| ProfileUtils.RenumberRenumbered | frontend/src/utils/profile.js:1-3 | a list already numbered 1..N is returned unchanged |
| Sorting.SortSorted | backend/main.py:381 | sorting a sorted list changes nothing |
| Text.RStripChar | backend/gerrit_client.py:69 | `rstrip(c)` removes exactly the trailing run of c |
| Text.Split | backend/main.py:127 | at least one part; text without the separator is one part |
| Text.LastOfSplit | backend/main.py:127 | the last part of `split(c)` is the last segment |
| Text.LastSegmentSuffix | backend/main.py:127 | the last segment is a suffix, preceded by the separator when shorter than the text |
| Text.DigitsValueNatToString | frontend/src/context/ProfilesContext.jsx:60 | reading back the decimal rendering of n gives n |
| Percent.PercentEncode | frontend/src/utils/gerrit.js:9 | the encoder (the inverse of decoding) emits only unreserved characters and escapes |
| ProfilesContext.NormalizeArtifact | frontend/src/context/ProfilesContext.jsx:107-119 | throws iff the artifact is nullish; otherwise the saved record of its name and sorted indices |
| ProfileUtils.Renumber | frontend/src/utils/profile.js:1-3 | same length; element i has `idx == i+1`; every other key of element i is that of the spread input element |
| ProfileUtils.RenumberAt | backend/main.py:145-146 | for an object element, the server's renumbering sets `idx` to i+1 and keeps every other field |
| ProfileUtils.RenumberIdempotent | frontend/src/utils/profile.js:1-3 | renumbering twice equals renumbering once |
| ProfileUtils.RenumberSourceReferences | frontend/src/utils/profile.js:1-3 | a falsy input gives `[]`; an array gives a numbered array of the same length; a truthy non-array is a TypeError (no `.map`) |
| ProfileUtils.OrderProfileForDisplay | frontend/src/utils/profile.js:5-21 | exactly the seven profile keys in fixed order; only `null` (which the default parameter does not replace) is a TypeError |
| ProfileUtils.OrderProfileIdempotent | frontend/src/utils/profile.js:5-21 | ordering an ordered profile changes nothing |
| ProfileUtils.OrderProfileFields | frontend/src/utils/profile.js:5-21 | a non-nullish id, name and module and array-valued lists are kept; missing ones get "", the blank module or `[]` |
| ProfileUtils.OrderGeneratedForDisplay | frontend/src/utils/profile.js:24-51 | only `null` is a TypeError; the result is an object |
| ProfileUtils.OrderGeneratedKeepsFields | frontend/src/utils/profile.js:24-51 | the result is the known keys in fixed order followed by every other key; every key reads as before; `sw_package_version`, `sw_package_type` and `sw_version` are present iff not undefined (lines 38-48); the other known keys are always present |
| ProfileUtils.FillVersions | frontend/src/utils/profile.js:53-68 | same shape as the input: arrays element-wise, objects key-by-key with the same keys, scalars unchanged; a `version` key whose value is empty in the dialect becomes `Str(sw)`; nothing else changes |
| ProfileUtils.FillLeavesNoEmptyVersion | frontend/src/utils/profile.js:59 | for a non-empty release, no `version` anywhere in the result is empty |
| ProfileUtils.FillKeepsNonEmpty | backend/main.py:137 | a value that is not an empty version stays not empty |
| ProfileUtils.FillIdempotent | frontend/src/utils/profile.js:57-65 | filling twice equals filling once, in both dialects |
| ProfileUtils.FillWithoutVersionKey | frontend/src/utils/profile.js:53-67 | a value with no `version` key anywhere is returned unchanged, so no key is ever added |
| ProfileUtils.FillDialectsAgree | backend/main.py:130-142 | the JS fill (any falsy value) and the Python fill (None or "") agree whenever every version is null, blank or truthy |
| ProjectName.ParseHttpUrl | frontend/src/utils/gerrit.js:8 | a parsed URL's pathname is non-empty and starts with `/` |
| ProjectName.Search | frontend/src/utils/gerrit.js:12 | leftmost-match search: a hit is the capture at the first position where the pattern matches; a miss means no position matches |
| ProjectName.FromUrlParts | frontend/src/utils/gerrit.js:12-22 | a gitiles match wins; otherwise a `/projects/` match, decoded; otherwise the `project:` token of the `q` parameter, decoded; nothing when none of the three matches |
| ProjectName.FromUrl | frontend/src/utils/gerrit.js:6-22 | a URL whose parse or path decoding fails gives nothing; a gitiles match on the decoded path wins; otherwise the projects pattern runs on the encoded path and its capture is decoded |
| ProjectName.FromUrlAsWritten | frontend/src/utils/gerrit.js:6-22 | a URL whose parse or path decoding fails gives nothing; a gitiles match on the decoded path wins; otherwise the projects pattern runs on the already decoded path |
| ProjectName.QueryGet | frontend/src/utils/gerrit.js:20 | an empty query has no `q` parameter |
| ProjectName.QueryUrlRoundTrip | frontend/src/utils/gerrit.js:19-22 | `https://h/?q=project:<p>` gives `p` in both variants, for a plain host and a name without `&`, `#`, `%`, `+` or spaces |
| ProjectName.ToProjectNameAsWritten | frontend/src/utils/gerrit.js:1-31 | a TypeError iff the input is truthy and not a string; falsy or blank input gives ""; non-URL text gives the trimmed text with every `%2F`/`%2f` replaced by `/`; a URL gives the name its patterns extract, or the raw-text result when none does |
| ProjectName.ToProjectName | frontend/src/utils/gerrit.js:1-31 | the corrected normaliser: the same cases as the as-written one, including the URL cases |
| ProjectName.RawNameHasNoEncodedSlash | frontend/src/utils/gerrit.js:29-30 | on the raw-string branch, the result holds no `%2F` (both variants) |
| ProjectName.ParseHostPath | frontend/src/utils/gerrit.js:8 | `https://host/path` without query or fragment parses to that pathname and an empty query |
| ProjectName.UrlResult | frontend/src/utils/gerrit.js:6-26 | for an already trimmed http(s) URL, a pattern match is returned as is (both variants) |
| ProjectName.GitilesUrlYieldsProject | frontend/src/utils/gerrit.js:9-13 | `https://h/plugins/gitiles/<p>/+/<rest>` gives `p`, in both variants |
| ProjectName.GitilesMatch | frontend/src/utils/gerrit.js:12 | the gitiles pattern captures `p` from `/plugins/gitiles/<p>/+/...` |
| ProjectName.ProjectsMatch | frontend/src/utils/gerrit.js:16 | the projects pattern captures the segment after `/projects/` up to `/` or the end |
| ProjectName.ProjectsUrlRoundTrip | frontend/src/utils/gerrit.js:16-17 | the corrected normaliser returns `p` from `https://h/projects/<percent-encoding of p>` |
| ProjectName.AsWrittenCutsAtEncodedSlash | frontend/src/utils/gerrit.js:9-17 | on `/projects/<encoding of a/b>`, the as-written code returns `a` and the corrected one returns `a/b` |
| ProjectName.AsWrittenFirstSegment | frontend/src/utils/gerrit.js:9-16 | the as-written code returns only the first segment of an encoded `a/b` |
| ProjectName.AsWrittenTeamRepo | frontend/src/utils/gerrit.js:9-17 | `https://h/projects/team%2Frepo` gives "team" as written and "team/repo" corrected |
| Percent.PercentDecode | frontend/src/utils/gerrit.js:9 | text without `%` decodes to itself; a decoding is never longer than its input |
| Percent.DecodeEncode | frontend/src/utils/gerrit.js:9 | decoding the percent-encoding of ASCII text gives the text back |
| Percent.FormDecode | frontend/src/utils/gerrit.js:20 | text without `%` or `+` is its own form decoding |
| Percent.ReplaceEncodedSlash | frontend/src/utils/gerrit.js:29 | the replacement never lengthens the text and keeps its first character unless that starts a `%2F` |
| Percent.ReplaceLeavesNoEncodedSlash | frontend/src/utils/gerrit.js:29 | after the replacement no `%2F` (either case) remains |
| Percent.ReplaceWithoutEncodedSlash | frontend/src/utils/gerrit.js:29 | text without `%2F` is unchanged, so the replacement is idempotent |
| GeneratePage.ResolveProject | frontend/src/pages/GeneratePage.jsx:42-53 | "" for an empty project; the lookup's truthy `url` when it succeeds; the project itself when the lookup fails or gives a falsy url |
| GeneratePage.InfoProject | frontend/src/pages/GeneratePage.jsx:61 | the entry's own trimmed location if truthy, else the trimmed parent project; TypeError on a nullish entry or a non-string location |
| GeneratePage.ResolveInfo | frontend/src/pages/GeneratePage.jsx:60-72 | `location` is the resolution of the entry's project; every other key is the spread entry's |
| GeneratePage.ChangeLog | frontend/src/pages/GeneratePage.jsx:76-79 | `version` is the release and `location` the reference's URL; an object change log keeps its other keys; otherwise `{filenamn: "Gerrit log", version, location}` |
| GeneratePage.BaseProject | frontend/src/pages/GeneratePage.jsx:42 | TypeError exactly on a nullish reference or a truthy non-string location; otherwise the trimmed location, or "" when it is not a string |
| GeneratePage.ResolveInfos | frontend/src/pages/GeneratePage.jsx:56-73 | succeeds iff every entry resolves; then one resolved entry per input entry, in order, each the resolution of its entry (non-arrays count as empty) |
| GeneratePage.ResolveRef | frontend/src/pages/GeneratePage.jsx:41-88 | fails exactly when the base project or one of its entries fails; otherwise an object |
| GeneratePage.ResolvedRefFields | frontend/src/pages/GeneratePage.jsx:81-87 | the resolved reference has the resolved location, the resolved entries, the change log for that URL and the components (or `[]`); all other keys are the reference's |
| GeneratePage.ArtifactMeta | frontend/src/pages/GeneratePage.jsx:99-113 | `("", "")` for an empty name, a failed lookup or a nullish answer; otherwise each part is the answer's truthy `location`/`sha256`, else "" |
| GeneratePage.SortedIdx | frontend/src/pages/GeneratePage.jsx:124-126 | `[]` for a non-array; for numbers, a sorted permutation of the input |
| GeneratePage.ArtifactName | frontend/src/pages/GeneratePage.jsx:98 | TypeError exactly on a nullish artifact or a truthy non-string name; otherwise the trimmed name, or "" when it is not a string |
| GeneratePage.ResolveArtifact | frontend/src/pages/GeneratePage.jsx:97-128 | fails exactly when the name does; otherwise an object |
| GeneratePage.ResolvedArtifactFields | frontend/src/pages/GeneratePage.jsx:115-127 | the record is `idx = i+1`, the trimmed name, the constants, `version = a.version || sw`, the resolved location and sha256, and the sorted index list, in this key order |
| GeneratePage.ArtifactVersionNonEmpty | frontend/src/pages/GeneratePage.jsx:119 | for a non-empty release, an artifact's version is truthy and is the artifact's own when that is truthy |
| GeneratePage.SelectedProfile | frontend/src/pages/GeneratePage.jsx:27 | an index outside the list reads `undefined` |
| GeneratePage.WithoutName | frontend/src/pages/GeneratePage.jsx:30-33 | a TypeError iff the filled profile is nullish; the rest never has `profile_name` |
| GeneratePage.ResolveRefs | frontend/src/pages/GeneratePage.jsx:36-41 | succeeds iff every reference resolves; element i is reference i resolved |
| GeneratePage.ResolveArtifacts | frontend/src/pages/GeneratePage.jsx:92-97 | succeeds iff every artifact name is readable; element i is artifact i resolved with index i |
| GeneratePage.Generate | frontend/src/pages/GeneratePage.jsx:27-138 | a successful generation is an object |
| GeneratePage.GeneratedDocument | frontend/src/pages/GeneratePage.jsx:131-138 | the document has no `profile_name`; it carries `sw_version`, the renumbered resolved references and the resolved artifacts in input order |
| GeneratePage.GeneratedHasNoName | frontend/src/pages/GeneratePage.jsx:33 | the generated document never contains `profile_name` |
| GeneratePage.HandleGenerateOutcome | frontend/src/pages/GeneratePage.jsx:21-22 | generation is skipped iff the trimmed input is blank |
| GeneratePage.HandleGenerateDocument | frontend/src/pages/GeneratePage.jsx:20-138 | a generated document comes from a selected profile inside the list, has no `profile_name`, and its `sw_version` is the trimmed input |
| GeneratePage.GeneratePage.constructor | frontend/src/pages/GeneratePage.jsx:15-18 | index 0, blank input, no result, not loading |
| GeneratePage.GeneratePage.SelectProfile | frontend/src/pages/GeneratePage.jsx:163 | sets the selected index and nothing else |
| GeneratePage.GeneratePage.SetSwVersion | frontend/src/pages/GeneratePage.jsx:177 | sets the release input and nothing else |
| GeneratePage.GeneratePage.HandleGenerate | frontend/src/pages/GeneratePage.jsx:20-142 | the outcome is `HandleGenerateOutcome` of the old state; a document replaces `generated`; loading is cleared unless skipped |
| GeneratePage.GeneratePage.Record | frontend/src/pages/GeneratePage.jsx:138-141 | stores a generated document and clears loading in `finally` |
| ProfilesContext.ContentTypeForKind | frontend/src/context/ProfilesContext.jsx:22-24 | "application/source code" iff the kind is "Generated Code", else "application/model" |
| ProfilesContext.SavedKind | frontend/src/context/ProfilesContext.jsx:71 | "Generated Code" iff the kind is exactly that, else "Simulink" |
| ProfilesContext.ToNumber | frontend/src/context/ProfilesContext.jsx:60 | `Number(x)`: a number or NaN; numbers are kept; a string is NaN iff its trimmed text is non-blank and not an integer |
| ProfilesContext.ReadInteger | frontend/src/context/ProfilesContext.jsx:60 | NaN exactly on non-blank text that is not an optionally signed digit string |
| ProfilesContext.ToNumberOfRendering | frontend/src/context/ProfilesContext.jsx:60 | `Number(String(n)) == n` for every integer |
| ProfilesContext.ReadDigits | frontend/src/context/ProfilesContext.jsx:60 | `Number` of a digit string is its decimal value |
| ProfilesContext.ReadNegative | frontend/src/context/ProfilesContext.jsx:60 | `Number` of `-` followed by digits is the negated value |
| ProfilesContext.NormalizeInfo | frontend/src/context/ProfilesContext.jsx:70-79 | TypeError exactly on a nullish entry or a truthy non-string location |
| ProfilesContext.SavedInfo | frontend/src/context/ProfilesContext.jsx:70-79 | saved entry: category "design", kind coerced, content type from the kind, location through `toProjectName`, all other keys kept |
| ProfilesContext.NormalizeInfos | frontend/src/context/ProfilesContext.jsx:69-81 | non-arrays give `[]`; otherwise one normalised entry per input entry |
| ProfilesContext.KeptFileName | frontend/src/context/ProfilesContext.jsx:84-89 | a non-empty string `filenamn` of an object change log is kept; in every other case, "Gerrit log" |
| ProfilesContext.NormalizeChangeLog | frontend/src/context/ProfilesContext.jsx:90-94 | exactly `filenamn`, `version`, `location`, with the kept file name and blank version and location |
| ProfilesContext.NormalizeChangeLogIdempotent | frontend/src/context/ProfilesContext.jsx:84-94 | normalising a normalised change log changes nothing |
| ProfilesContext.NormalizeRef | frontend/src/context/ProfilesContext.jsx:64-103 | a normalised reference is an object |
| ProfilesContext.SavedRef | frontend/src/context/ProfilesContext.jsx:96-102 | location through `toProjectName` as written; components or `[]`; normalised entries and change log; all other keys kept |
| ProfilesContext.SavedRefs | frontend/src/context/ProfilesContext.jsx:63-104 | numbered 1..N, one per input reference |
| ProfilesContext.SavedRefsInOrder | frontend/src/context/ProfilesContext.jsx:63-104 | saved reference i is input reference i normalised, with `idx = i+1` |
| ProfilesContext.SavedRefLocation | frontend/src/context/ProfilesContext.jsx:66-98 | saved reference i's location is the as-written `toProjectName` of input reference i's |
| ProfilesContext.SavedArtifacts | frontend/src/context/ProfilesContext.jsx:107-119 | one saved record per input artifact; a nullish artifact is a TypeError |
| ProfilesContext.SavedArtifactKeys | frontend/src/context/ProfilesContext.jsx:107-119 | a saved artifact has exactly the nine artifact keys, in order |
| ProfilesContext.SavedArtifactsNumbered | frontend/src/context/ProfilesContext.jsx:108-113 | saved artifact i has `idx = i+1` and blank version, location and sha256 |
| ProfilesContext.ToSave | frontend/src/context/ProfilesContext.jsx:55-57 | fails with the missing-id error iff `sw_package_id` is falsy |
| ProfilesContext.SavedProfile | frontend/src/context/ProfilesContext.jsx:59-127 | the saved profile has the seven keys; the id is `Number(id)`; the references and artifacts are the normalised ones; the other keys follow `orderProfileForDisplay` |
| ProfilesContext.Profiles.constructor | frontend/src/context/ProfilesContext.jsx:27-37 | the list is the fetched one |
| ProfilesContext.Profiles.SaveProfile | frontend/src/context/ProfilesContext.jsx:54-143 | result and new list are the save outcome of the normalised profile on the old list |
| ProfilesContext.SaveOutcome | frontend/src/context/ProfilesContext.jsx:129-142 | success iff normalisation succeeds and the backend accepts; no index appends and answers the new last index; an index replaces that slot only; a failure leaves the list as it was |
| ProfilesContext.Profiles.DeleteProfile | frontend/src/context/ProfilesContext.jsx:145-153 | reading `arr[idx].sw_package_id` fails outside the list; on success exactly that element goes, 0 is answered, and its id was sent |
| ProfileEditor.SpliceOne | frontend/src/components/ProfileEditor.jsx:67 | JS `splice(i, 1)` for every integer start, negative and past-the-end included |
| ProfileEditor.EditReference | frontend/src/components/ProfileEditor.jsx:59-74 | a TypeError iff the reference list cannot be spread, the index is out of range or the list edit fails; other profile keys are kept |
| ProfileEditor.RemoveReference | frontend/src/components/ProfileEditor.jsx:289-297 | a TypeError iff the list cannot be spread; the result is numbered 1..N, one shorter when `splice` removes an entry; other profile keys are kept |
| ProfileEditor.AddReference | frontend/src/components/ProfileEditor.jsx:587-603 | a TypeError iff the list cannot be spread; the result is one longer and numbered 1..N; other profile keys are kept |
| ProfileEditor.RemoveArtifact | frontend/src/components/ProfileEditor.jsx:823-827 | a TypeError iff `artifacts` is neither array nor string; an in-range index removes exactly that artifact; other profile keys are kept |
| ProfileEditor.AddArtifact | frontend/src/components/ProfileEditor.jsx:874-893 | a TypeError iff the list cannot be spread; the old artifacts stay in front and the default artifact numbered length+1 is last; other profile keys are kept |
| ProfileEditor.ComponentAt | frontend/src/components/ProfileEditor.jsx:78-79 | a found component is the non-nullish entry at that index of an array `components` of the reference at that index; an unspreadable list or a negative index finds nothing |
| ProfileEditor.SpreadStrict | frontend/src/components/ProfileEditor.jsx:556 | `[...x]` throws exactly on values that are neither arrays nor strings; an array gives its items, a string its characters |
| ProfileEditor.EditList | frontend/src/components/ProfileEditor.jsx:59-74 | an edit of one list of a reference succeeds iff the reference is an object and the list edit succeeds; the result puts the edited list under the key |
| ProfileEditor.AppendThenRemoveLast | frontend/src/components/ProfileEditor.jsx:59-69 | appending an item then removing the last position gives the reference back |
| ProfileEditor.SetFieldChangesOneField | frontend/src/components/ProfileEditor.jsx:70-74 | only the named field of one component changes |
| ProfileEditor.AppendAddsOne | frontend/src/components/ProfileEditor.jsx:61-62 | appending keeps the old items (a missing list counts as empty) and adds exactly one at the end |
| ProfileEditor.EditReferenceLocal | frontend/src/components/ProfileEditor.jsx:59-74 | an edit of reference i changes only that key of reference i; the other references, the other profile keys and the numbering are kept |
| ProfileEditor.EditListLocal | frontend/src/components/ProfileEditor.jsx:70-74 | editing one list leaves the reference's other fields alone |
| ProfileEditor.ReplaceKeepsNumbering | frontend/src/components/ProfileEditor.jsx:87 | replacing an entry by one with the same `idx` keeps the list numbered |
| ProfileEditor.RemoveReferenceRenumbers | frontend/src/components/ProfileEditor.jsx:289-297 | removing a reference shortens the list by one, keeps the survivors in order, and renumbers 1..N |
| ProfileEditor.AddReferenceAppends | frontend/src/components/ProfileEditor.jsx:587-603 | the new reference is last, numbered N, with `regulatory_requirements ["N/A"]` and the blank "Gerrit log" change log; the list stays numbered |
| ProfileEditor.AddArtifactNumbered | frontend/src/components/ProfileEditor.jsx:874-893 | adding an artifact to a numbered list keeps it numbered (`idx = length+1`) |
| ProfileEditor.RemoveArtifactSplices | frontend/src/components/ProfileEditor.jsx:823-827 | removing artifact i keeps every other artifact, in order, with its old number |
| ProfileEditor.FilterId | frontend/src/components/ProfileEditor.jsx:159 | digit-only text is kept; otherwise only the first non-digit is removed |
| ProfileEditor.FirstNonDigit | frontend/src/components/ProfileEditor.jsx:159 | the position the pattern `\D` matches: every earlier character is a digit and this one is not |
| ProfileEditor.FilterIdAfterKeystroke | frontend/src/components/ProfileEditor.jsx:159 | one keystroke into a digit-only id: a digit is kept and a non-digit is dropped |
| ProfileEditor.FilterIdKeepsLaterNonDigits | frontend/src/components/ProfileEditor.jsx:159 | a paste "a1b" gives "1b": later non-digits survive |
| ProfileEditor.VersionText | frontend/src/components/ProfileEditor.jsx:44-91 | `String(v)` unless `v` is nullish, then the fallback |
| ProfileEditor.MergedComponent | frontend/src/components/ProfileEditor.jsx:87-92 | `id` is data's, else the old one, else ""; `persistent_id` is data's or ""; `version` is `String(data.version)`, or "" when data's version is nullish; all else kept |
| ProfileEditor.MergedGpm | frontend/src/components/ProfileEditor.jsx:38-48 | `id` is data's, else the old one, else ""; `version` is `String(data.version)`, else the old one, else ""; all else kept |
| ProfileEditor.RefreshGpm | frontend/src/components/ProfileEditor.jsx:29-55 | a blank location does nothing and is the only "no location" case; a profile that is not updated is unchanged |
| ProfileEditor.RefreshGpmMerges | frontend/src/components/ProfileEditor.jsx:31-48 | an update looks up the trimmed non-blank location, gets a non-nullish answer and stores the merged module; nothing else changes |
| ProfileEditor.Locator | frontend/src/components/ProfileEditor.jsx:80 | the component's trimmed location if truthy, else the reference's |
| ProfileEditor.RefreshComponent | frontend/src/components/ProfileEditor.jsx:75-100 | only a successful lookup changes the profile |
| ProfileEditor.RefreshComponentMerges | frontend/src/components/ProfileEditor.jsx:78-93 | a successful refresh replaces the component by its merge with the data, looked up under a non-blank locator |
| ProfileEditor.EmptyProfile | frontend/src/components/ProfileEditor.jsx:22 | the empty profile has the seven profile keys |
| ProfileEditor.Editor.constructor | frontend/src/components/ProfileEditor.jsx:22 | the initial profile, else the empty one |
| ProfileEditor.Editor.EditRef | frontend/src/components/ProfileEditor.jsx:59-74 | applies one list edit to one reference or, on a TypeError, changes nothing |
| ProfileEditor.Editor.AddComponent | frontend/src/components/ProfileEditor.jsx:59-64 | appends a blank component (creating the list) and keeps the numbering |
| ProfileEditor.Editor.RemoveComponent | frontend/src/components/ProfileEditor.jsx:65-69 | splices the component out and keeps the numbering |
| ProfileEditor.Editor.UpdateComponentField | frontend/src/components/ProfileEditor.jsx:70-74 | sets one field of one component and keeps the numbering |
| ProfileEditor.Editor.AddInfo | frontend/src/components/ProfileEditor.jsx:567-579 | appends the default entry (creating the list) |
| ProfileEditor.Editor.RemoveInfo | frontend/src/components/ProfileEditor.jsx:555-559 | splices the entry out |
| ProfileEditor.Editor.RemoveSourceReference | frontend/src/components/ProfileEditor.jsx:289-297 | removes the reference and leaves the list numbered |
| ProfileEditor.Editor.AddSourceReference | frontend/src/components/ProfileEditor.jsx:587-604 | appends the default reference and renumbers |
| ProfileEditor.Editor.RemoveArtifactAt | frontend/src/components/ProfileEditor.jsx:823-827 | splices the artifact out without renumbering |
| ProfileEditor.Editor.AddArtifactAtEnd | frontend/src/components/ProfileEditor.jsx:874-893 | appends the default artifact numbered length+1 |
| ProfileEditor.Editor.SetPackageId | frontend/src/components/ProfileEditor.jsx:156-160 | stores the filtered id and nothing else |
| ProfileEditor.Editor.UpdateGpmFromCarWeaver | frontend/src/components/ProfileEditor.jsx:29-55 | the new profile is the GPM refresh of the old one |
| ProfileEditor.Editor.UpdateComponentFromCarWeaver | frontend/src/components/ProfileEditor.jsx:75-100 | the new profile is the component refresh of the old one; the numbering is kept |
| ProfilePage.EditableReference | frontend/src/pages/ProfilePage.jsx:34-38 | a TypeError exactly on a nullish reference or an unspreadable entry list |
| ProfilePage.EditableReferenceFields | frontend/src/pages/ProfilePage.jsx:35-37 | the copy's components are the array or `[]`; its additional information is a new array with the stored entries, `[]` when missing; the other keys are the reference's |
| ProfilePage.EditableCopy | frontend/src/pages/ProfilePage.jsx:29-41 | a nullish profile is a TypeError |
| ProfilePage.EditableCopyThrows | frontend/src/pages/ProfilePage.jsx:29-41 | building the copy throws exactly on a nullish profile or a `swad`, `swdd`, reference or artifact list that cannot be copied |
| ProfilePage.EditableCopyLists | frontend/src/pages/ProfilePage.jsx:31-40 | `swad`, `swdd` and `artifacts` hold the same elements, or `[]` when missing; other keys are kept |
| ProfilePage.EditableCopyReferences | frontend/src/pages/ProfilePage.jsx:33-39 | the references are copied, in stored order, numbered 1..N; each copy's components and additional information are new arrays of the stored entries (`[]` when missing), its other keys the stored ones |
| ProfilePage.RenumberedCopies | frontend/src/pages/ProfilePage.jsx:33-39 | the copied list is the renumbered per-reference copies, each with its components and additional information copied (`[]` when missing) |
| ProfilePage.Page.constructor | frontend/src/pages/ProfilePage.jsx:9-11 | nothing edited, nothing asked |
| ProfilePage.Page.StartAddProfile | frontend/src/pages/ProfilePage.jsx:13-24 | `editIdx` null and the empty profile |
| ProfilePage.Page.StartEditProfile | frontend/src/pages/ProfilePage.jsx:26-42 | `editIdx` set first; the edit copy when it can be built, otherwise the old edit state stays |
| ProfilePage.Page.CancelEditProfile | frontend/src/pages/ProfilePage.jsx:44-47 | clears `editProfile` and `editIdx` |
| ProfilePage.Page.OnSaved | frontend/src/pages/ProfilePage.jsx:49-57 | the context stores the save outcome; the edit state is cleared only on success |
| ProfilePage.Page.AskDelete | frontend/src/pages/ProfilePage.jsx:68 | records the index to confirm |
| ProfilePage.Page.ConfirmDelete | frontend/src/pages/ProfilePage.jsx:77-80 | on success exactly that profile goes and the question is cleared; on failure nothing changes |
| ProfilePage.Page.DenyDelete | frontend/src/pages/ProfilePage.jsx:86 | clears the question only |
| LegacyApp.FindIndex | frontend/src/App.js:38 | the first profile with the selected id, or none when no profile has it |
| LegacyApp.Selected | frontend/src/App.js:38 | the first profile with the id, or `undefined` when no profile has it |
| LegacyApp.UpdatedProfiles | frontend/src/App.js:41-45 | same length; profiles without the selected id are unchanged |
| LegacyApp.UpdateMergesSelected | frontend/src/App.js:43 | the selected profile is shallow-merged: updated keys win, other keys kept |
| LegacyApp.PackageVersion | frontend/src/App.js:110 | the last `_` segment plus ".0" |
| LegacyApp.Generated | frontend/src/App.js:112-118 | an object with the package version (last `_` segment plus ".0") and `sw_version` |
| LegacyApp.GeneratedFields | frontend/src/App.js:112-118 | the document is the filled profile plus `sw_package_version` and `sw_version`; a non-empty release leaves no empty version |
| LegacyApp.BlankVersionGivesDotZero | frontend/src/App.js:108-110 | an empty release gives `sw_package_version` ".0" |
| LegacyApp.Appended | frontend/src/App.js:48-84 | the old list (or `[]`) plus one default item numbered length+1; a nullish profile is a TypeError |
| LegacyApp.AppendedNumbered | frontend/src/App.js:53-72 | appending to a numbered list keeps it numbered |
| LegacyApp.App.constructor | frontend/src/App.js:4-35 | the two initial profiles 175 and 201, 175 selected |
| LegacyApp.App.UpdateProfile | frontend/src/App.js:41-45 | merges into the selected profile only |
| LegacyApp.App.AddSourceReference | frontend/src/App.js:48-64 | stores the appended reference list on the selected profile, or fails and changes nothing |
| LegacyApp.App.AddArtifact | frontend/src/App.js:67-84 | stores the appended artifact list on the selected profile, or fails and changes nothing |
| LegacyApp.App.SetSwVersion | frontend/src/App.js:87 | sets the release input only |
| LegacyApp.App.SelectProfile | frontend/src/App.js:164 | selects `Number(value)`; the rendered text of an integer id selects that id |
| LegacyApp.App.HandleGenerate | frontend/src/App.js:108-119 | stores the generated document for the selected profile and release |
| Backend.FindFrom | backend/main.py:39-43 | the first index from k whose `str(id)` matches, with no match before it; none when nothing matches; a non-dict entry before any match raises |
| Backend.IndexById | backend/main.py:39-43 | the first matching index, -1 when none, an exception when a non-dict entry comes first |
| Backend.FindAfterReplace | backend/main.py:73-74 | after replacing the match by a profile with the same id, the lookup finds the same index |
| Backend.FindAfterAppend | backend/main.py:77-78 | after appending a profile with a new id, the lookup finds the new last index |
| Backend.PathId | backend/main.py:87 | a non-empty ASCII-digit path id becomes a non-negative integer whose `str()` is its canonical digits; anything else stays the same string |
| Backend.PutBody | backend/main.py:85-87 | the body is kept when `"sw_package_id" in incoming` holds (dict key, substring, or list element); a dict without it gets the path id; any other body raises |
| Backend.ProfileStore.constructor | backend/main.py:30-31 | the stored list |
| Backend.ProfileStore.Upsert | backend/main.py:54-80 | a list replaces everything; a dict without the id is 400; an existing id is replaced in place; a new id is appended; errors change nothing |
| Backend.ProfileStore.Replace | backend/main.py:83-98 | the prepared body replaces the profile with the path id or is appended; a failure changes nothing |
| Backend.ProfileStore.Delete | backend/main.py:101-109 | an unknown id is 404; otherwise exactly that entry is removed |
| Backend.UpsertThenFind | backend/main.py:54-80 | after an upsert, looking up the body's id finds the stored profile |
| Backend.ReleaseFromSwVersion | backend/main.py:123-127 | the last `_` segment, or the whole string |
| Backend.ParseSwPackageVersion | backend/main.py:115-120 | "" for ""; otherwise the release plus ".0" |
| Backend.PackageVersionSides | backend/main.py:115-120 | server and legacy client agree on every non-empty release; on "" they give "" and ".0" |
| Backend.FalsyVersionKept | backend/main.py:137 | the server keeps a version of 0 or False that the client would overwrite |
| Backend.ResolveGerritTagUrl | backend/main.py:149-157 | "" iff the stripped project is blank; the lookup's non-empty URL when there is one; the stripped project when the lookup finds nothing or an empty URL |
| Backend.ArtifactProps | backend/main.py:161-166 | properties exist exactly for the four menu names |
| Backend.StorageTarget | backend/main.py:173-184 | a split needs a non-empty base and a URL under `base/` |
| Backend.StorageTargetOfComposed | backend/main.py:176-184 | `base/repo/path` splits into `repo` and `path` |
| Backend.ArtifactSha | backend/main.py:169-188 | a URL that does not split gives nothing; a URL that splits gives the fetch of exactly its repo and path |
| Backend.ShaOfComposedUrl | backend/main.py:169-188 | the checksum of `base/repo/path` is the fetch of `repo` and `path` |
| Backend.PyStrip | backend/main.py:359 | `.strip()` succeeds exactly on strings |
| Backend.PyList | backend/main.py:320-358 | `x or []` iterates lists and falsy values; other values raise |
| Backend.SortedIndices | backend/main.py:381 | a list of numbers always sorts, to a sorted permutation of it; falsy gives `[]` |
| Backend.ArtifactLocation | backend/main.py:359-369 | unknown names and failed searches give `("", "")`; a found location comes with the checksum fetched for it, "" when that fails |
| Backend.ResolveArtifactEndpoint | backend/main.py:259-280 | no token is a server error; 400 exactly for an unknown name; success is the lookup's URL and its checksum |
| Backend.ResolveArtifact | backend/main.py:358-383 | a resolved artifact record has exactly the artifact keys |
| Backend.ResolvedArtifactRecord | backend/main.py:371-383 | `idx = i+1`, the stripped name, `version = sw_version`, the sorted stored indices; location and sha256 are what ArtifactLocation finds, blank for unknown names |
| Backend.EndpointAgreesWithDocument | backend/main.py:259-369 | the resolve endpoint and the document builder agree on an artifact's location and sha256 |
| Backend.RequestedVersion | backend/main.py:301-304 | 400 iff the id or the version is falsy; success is the version string |
| Backend.Match | backend/main.py:309-312 | an unknown id, or a falsy first match, is 404; a lookup that raises is 500; a match is the first stored profile whose `str(id)` equals the payload id's |
| Backend.MatchFirst | backend/main.py:310 | the first profile whose id matches is the one returned |
| Backend.Build | backend/main.py:315-396 | the only failure of building is a server error |
| Backend.BuiltDocument | backend/main.py:386-396 | the nine document keys in order; the profile's id; the package version; the type or "standard"; the filled module, `swad` and `swdd`; the renumbered resolved references; the resolved artifacts; `sw_version` |
| Backend.ResolvedReference | backend/main.py:319-351 | location from the tag resolver; each entry resolved in order; the change log rebuilt with `sw_version` as its version; components or `[]`; every other key kept |
| Backend.ResolveInfo | backend/main.py:328-331 | raises iff the entry is not a dict or its project is not a string; otherwise the entry with its location resolved from its own project, else the reference's |
| Backend.ChangeLogOf | backend/main.py:337-341 | keys `filenamn`, `version`, `location`; the first truthy of `filenamn`/`filename`, else "Gerrit log"; `sw_version`; the resolved URL |
| Backend.ResolveRef | backend/main.py:320-351 | raises unless the reference is a dict with a string project; then it is the resolution under the stripped project |
| Backend.ResolveRefAt | backend/main.py:324-351 | the location is the resolved tag URL; an entry list that cannot be iterated raises |
| Backend.ResolveRefAtSucceeds | backend/main.py:326-351 | resolution succeeds iff the entries iterate and each resolves, and the change log is a dict with a string project |
| Backend.GenerateSwlm | backend/main.py:286-397 | the handler's answer is the generation function of its inputs |
| Backend.ResolveAll | backend/main.py:319-383 | the loop-append equals the all-or-nothing map |
| Backend.GenerateRejects | backend/main.py:301-312 | 400 iff the id or the version is missing; an unknown profile is 404 |
| Backend.Generate | backend/main.py:301-397 | a document needs a truthy id and a string version; it is built from the first match and has the document keys, the profile's id and `sw_version` |
| GerritClient.JsonText | backend/gerrit_client.py:34-43 | non-2xx is an API error; text without the magic prefix is kept; with it, the first line is dropped |
| GerritClient.Resp2Json | backend/gerrit_client.py:34-43 | the parsed value of the stripped text; errors propagate |
| GerritClient.MagicLineDropped | backend/gerrit_client.py:39-40 | a magic first line is dropped and the rest is parsed |
| GerritClient.PyIn | backend/gerrit_client.py:53 | `in` is substring on strings and raises on scalars |
| GerritClient.TagTest | backend/gerrit_client.py:53 | a test succeeds only on dicts with a `ref` |
| GerritClient.SearchTags | backend/gerrit_client.py:50-54 | succeeds iff every tag can be tested; keeps only matching tags |
| GerritClient.SearchTagsAppend | backend/gerrit_client.py:53 | filtering distributes over concatenation, so the original order is kept |
| GerritClient.SearchTagsKeepsMatches | backend/gerrit_client.py:53 | every matching tag is kept |
| GerritClient.Iterated | backend/gerrit_client.py:66 | `for` over lists, dicts and strings; scalars raise |
| GerritClient.DropLeadingSlash | backend/gerrit_client.py:75-76 | strips one leading `/` |
| GerritClient.DropTrailingA | backend/gerrit_client.py:77-78 | strips one trailing `a` |
| GerritClient.ComposeTagUrlAsWritten | backend/gerrit_client.py:69-81 | absolute links are returned as is; otherwise the rstripped, a-stripped base concatenated with the link minus one `/` |
| GerritClient.AsWrittenDropsSeparator | backend/gerrit_client.py:69-81 | for base `h/` the as-written result is `h + rel` with no slash, while the corrected one is `h/rel` |
| GerritClient.ComposeTagUrl | backend/gerrit_client.py:69-81 | the corrected composition keeps absolute links |
| GerritClient.AsWrittenAgreesOnAuthenticatedBase | backend/gerrit_client.py:74-81 | for an authenticated base `h/a/` the as-written and corrected compositions agree |
| GerritClient.AnonymousAndAuthenticatedBasesAgree | backend/gerrit_client.py:74-78 | the corrected composition gives the same URL for base `h/` and `h/a/` |
| GerritClient.LinkUrl | backend/gerrit_client.py:70-81 | a string `url` is composed as written; any other value raises |
| GerritClient.TagUrl | backend/gerrit_client.py:61-82 | None exactly when the scan passes over every tag |
| GerritClient.GetTagUrlByExactName | backend/gerrit_client.py:56-82 | the nested loop with early return equals the tag-URL function |
| GerritClient.NoneIffPassedOver | backend/gerrit_client.py:63-82 | None iff no tag has the exact ref and a browse link |
| GerritClient.FirstBrowseWins | backend/gerrit_client.py:63-81 | the first matching tag's first browse link decides the result |
| ArtifactoryClient.NewClient | backend/artifactory_client.py:11-15 | a client exists iff the token is set and non-empty |
| ArtifactoryClient.Conditions | backend/artifactory_client.py:51-60 | repo, then `type: file`, then the optional path match, then one `@k` condition per property in order |
| ArtifactoryClient.BuildQuery | backend/artifactory_client.py:51-61 | the append loop builds the query string |
| ArtifactoryClient.QueryLayout | backend/artifactory_client.py:61 | `items.find({...})`; one more property adds `, "@k": "v"` at the end |
| ArtifactoryClient.Results | backend/artifactory_client.py:69 | `results` or `[]` of a dict body; other bodies raise |
| ArtifactoryClient.InVbfFolder | backend/artifactory_client.py:70 | a string path is tested; true means it ends with `SWLM/xcp_disabled/vbf` |
| ArtifactoryClient.Candidates | backend/artifactory_client.py:70 | never more candidates than results, all dicts |
| ArtifactoryClient.CandidatesAreInFolder | backend/artifactory_client.py:70 | every candidate is a result in the folder, and every result in the folder is a candidate |
| ArtifactoryClient.CandidatesAppend | backend/artifactory_client.py:70 | filtering a concatenation filters each part and keeps their order and repetitions; it raises iff a part does |
| ArtifactoryClient.CandidatesCons | backend/artifactory_client.py:70 | the first result leads the candidates exactly when it lies in the folder; the rest are the candidates of the remaining results |
| ArtifactoryClient.FullUrl | backend/artifactory_client.py:72 | a URL can be formatted iff repo, path and name have `str()` |
| ArtifactoryClient.FullUrls | backend/artifactory_client.py:71-74 | one URL per candidate |
| ArtifactoryClient.SelectArtifact | backend/artifactory_client.py:68-82 | non-200 fails; success is the URL of the single candidate; none found is the no-artifact error |
| ArtifactoryClient.SelectSingle | backend/artifactory_client.py:68-78 | a 200 answer with one candidate whose URL renders selects that URL |
| ArtifactoryClient.SeveralRefused | backend/artifactory_client.py:79-80 | two or more candidates are refused with their count |
| ArtifactoryClient.FindByProperties | backend/artifactory_client.py:39-82 | succeeds exactly when the search answers 200 with one candidate in the folder whose URL renders; the answer is that URL |
| ArtifactoryClient.FoundUrlStorageTarget | backend/main.py:173-184 | a URL built by the client splits back into its repo and path |
| Sorting.Sort | backend/main.py:381 | sorted, a permutation, same length |
| Sorting.SortedPermutationUnique | frontend/src/pages/GeneratePage.jsx:125 | two sorted permutations of the same list are equal, so every numeric sort agrees |
| Text.Trim | frontend/src/utils/gerrit.js:2 | never longer; no whitespace at either end; already trimmed text is kept |
| Text.TrimIsMiddle | frontend/src/utils/gerrit.js:2 | the result is a contiguous middle of the input with only whitespace around it |
| Text.TrimEmptyIffBlank | frontend/src/utils/gerrit.js:2-3 | trimming gives "" iff the text is all whitespace |
| Text.TrimIdempotent | backend/main.py:150 | trimming twice equals trimming once |
| Text.LastSegment | backend/main.py:127 | the last `_` segment holds no `_` and is the whole string when there is none |
| Text.JoinSplit | backend/main.py:180-184 | joining the split parts with the separator gives the text back |
| Text.IntToString | frontend/src/context/ProfilesContext.jsx:60 | a non-empty rendering of an integer |

## Left out

- HTTP, file and environment I/O:
  - the FastAPI routing and `profiles.json` reads and writes;
  - dotenv, base64 auth headers and bearer tokens;
  - the `requests` calls of the Gerrit and Artifactory clients and the storage-API checksum request.

  Each of these is a parameter. The stored list is the `profiles` field, the HTTP status and body are inputs, and the checksum fetch is a function parameter.
- `backend/carweaver_client.py` is not part of this model. The CarWeaver bridge endpoints (backend/main.py:194-241) and the client's CarWeaver fetches are lookup parameters.
- React rendering, toasts, `setTimeout`, the loading flags of the CarWeaver buttons, `useMemo`, and the `Promise.all` and async/await concurrency. Each per-item resolution is independent, so the model maps items sequentially.
- Text.IsSpace: the whitespace set is the one JS `trim()` and Python `strip()` share. U+FEFF, which only JS trims, is not included. Nor are U+001C–U+001F and U+0085, which only Python strips.
- Percent.PercentDecode: escapes of bytes 0x80 and above (UTF-8 sequences) fail to decode. `toProjectName` then falls back to the raw-string branch, whereas `decodeURIComponent` would decode them.
- ProjectName.ParseHttpUrl: a plain splitter into pathname and query. It does none of the WHATWG normalisation: dot segments, backslashes, userinfo, `https:///host`, host case and default ports. Nor does it validate the host or the port: `https://h:abc/` and `https://a b/` parse here, whereas `new URL` throws on them and `toProjectName` falls back to the raw-text branch.
- JsonValue.Spread: arrays and strings spread to no fields, whereas JS gives index keys "0", "1", …. JsonValue.Prop answers only `length` on them.
- JsonValue.Put: keys keep insertion order. JS lists integer-like keys first in ascending order, so ProfileUtils.OrderGeneratedForDisplay and every spread of an object with such keys may order them differently.
- ProfilesContext.ToNumber: `Num(int)` stands in for IEEE doubles. Only optionally signed decimal integers are read as numbers. "1.5", "1e3", "0x1F" and "Infinity" give NaN here but numbers in JS. Floating point values and their renderings (`String(1e21)`) are not modelled.
- GeneratePage.SortedIdx: only lists of numbers are sorted. The JS comparator `x - y` coerces numeric strings, booleans and null to numbers, so the browser sorts `["10", "9", "1"]` to `["1", "9", "10"]`; the model (through JsonValue.SortNumeric, and likewise ProfilesContext.NormalizeArtifact at ProfilesContext.jsx:117) leaves any list that is not all numbers in its own order. The editors only ever write lists of numbers there.
- ProfileEditor.FilterId: the model's characters are Unicode scalar values, while `/\D/` without the `u` flag works on UTF-16 code units. For a character outside the Basic Multilingual Plane the browser removes only its high surrogate (`"😀1"` becomes `"\uDE001"`); the model removes the whole character.
- ProfilePage.Page.CancelEditProfile: the model has value semantics. The edit copy (ProfilePage.jsx:34-38) shares component, entry and artifact objects with the stored profile. ProfileEditor's in-place writes (lines 61-62, 67, 72, 87, 557, 569-577) therefore also change the profile held by ProfilesContext, and these edits persist after Cancel. The model does not capture this aliasing.
- ProfileEditor.Editor.UpdateComponentField: the same aliasing applies to ProfileEditor.Editor.AddComponent, RemoveComponent, AddInfo, RemoveInfo and UpdateComponentFromCarWeaver. Each is modelled as producing a new profile value.
- Backend.SortedIndices: only lists of numbers are sorted. Python's `sorted` also succeeds on a list of strings, on a one-element list of any value, on a truthy string (its characters) and on a dict (its keys); the model raises on each of these.
- Backend.PathId: only the ASCII digits 0-9 count. Python's `str.isdigit` also accepts other Unicode digits: `int("١٢")` gives 12, and `"²".isdigit()` holds while `int("²")` raises. Neither case is modelled.
- ArtifactoryClient.FullUrl: a `repo`, `path` or `name` that is a list or dict fails here. The f-string at backend/artifactory_client.py:72 would render it with `str()` and build a URL.
- ProfileEditor.RefreshGpm: a `null` answer is modelled as a failure that leaves the profile unchanged. In the source the request succeeds and the success toast is shown; the state updater then reads `data.id` of `null` and throws outside the `try`.
- ArtifactoryClient.Candidates: its own contract bounds the count and the kind of the candidates only, and ArtifactoryClient.CandidatesAreInFolder states membership only. The order and the repetitions the filter keeps are stated by ArtifactoryClient.CandidatesAppend and CandidatesSingle, which together determine the result on every list.
- Backend.SameId: ids that are lists or dicts never match. Python compares their `str()` renderings.
- Backend.RequestedVersion: a list or dict `sw_version` is answered with a server error. The server would go on and build a document with the container as the version.
- ProfilesContext.Profiles.SaveProfile: the edit index must lie inside the list. JS would write past the end and leave holes, but the page only passes indices of listed profiles.
- `frontend/src/utils/constants.js`: only its values are used, transcribed as constants.

## Findings

| source | as written | input that shows it | evidently intended | confidence | as-written member | corrected member |
|---|---|---|---|---|---|---|
| backend/gerrit_client.py:69-81 | the base is rstripped of `/`, a trailing `a` is dropped, and the relative link (minus its leading `/`) is appended with no separator | base `https://g.example.com/`, link `/plugins/gitiles/p/+/refs/tags/t` gives `https://g.example.complugins/gitiles/p/+/refs/tags/t` | the server root joined to the link with one `/`, for both the anonymous and the authenticated (`/a/`) base | not executed | GerritClient.ComposeTagUrlAsWritten, GerritClient.AsWrittenDropsSeparator | GerritClient.ComposeTagUrl, GerritClient.AnonymousAndAuthenticatedBasesAgree |
| frontend/src/utils/gerrit.js:9-17 | the pathname is decoded before the projects pattern runs, so an encoded `/` in the project name ends the match | `https://g.example.com/projects/team%2Frepo` gives "team" | match on the raw pathname and decode the captured name, giving "team/repo" | not executed | ProjectName.ToProjectNameAsWritten, ProjectName.AsWrittenTeamRepo | ProjectName.ToProjectName, ProjectName.ProjectsUrlRoundTrip |
