# FinBIF occurrence plug-in for QGIS: a Dafny model

This project models the core of a QGIS plug-in that queries the occurrence
warehouse of the Finnish Biodiversity Information Facility (FinBIF). The
plug-in asks the user for a query, walks the warehouse's page-numbered
occurrence list, normalises the records and their GeoJSON geometries, and
puts them on the map as memory layers. The repository holds two versions
of it, and both are modelled.

- The first version is at the repository root:
  - `api.py`: the page loop;
  - `dialog.py`: the Submit handler;
  - `helpers.py`: the collection normaliser and value mapping;
  - `custom_widgets.py`: the date-range and checkable combo widgets.
- The current version is under `src/`:
  - `api.py`: base URL, error messages, the count and the page generator;
  - `prosessors.py`: the frame processors;
  - `mappings.py`: the lookup tables;
  - `validators.py`: the input checks;
  - `create_layer.py`: layer building;
  - `ui/main_dialog.py`: the Submit handler.

Each source file has one module:

| module | file | models |
|---|---|---|
| `LegacyApi` | `legacy_api.dfy` | `api.py` |
| `LegacyDialog` | `legacy_dialog.dfy` | `dialog.py` |
| `Widgets` | `widgets.dfy` | `custom_widgets.py` |
| `Api` | `api.dfy` | `src/api.py` |
| `Processors` | `processors.dfy` | `src/prosessors.py` |
| `Mappings` | `mappings.dfy` | `src/mappings.py` |
| `Validators` | `validators.dfy` | `src/validators.py` |
| `Layers` | `layers.dfy` | `src/create_layer.py` |
| `MainDialog` | `main_dialog.dfy` | `src/ui/main_dialog.py` |

Some modules are shared:

| module | models |
|---|---|
| `Geometry` | both collection normalisers, `helpers.py` and `src/prosessors.py` |
| `QueryForm` | the form both dialogs read |
| `Frames` | features and (Geo)DataFrames |
| `Transport` | replies, the parameter dictionary and the progress bar |
| `Values` | cells, insertion-ordered dictionaries and exceptions |
| `Text` | Python string operations |
| `Wrappers` | `Option` and `Result` |

Code that works by changing state is written as methods with loops and
invariants. This covers the page loops, the bucketing loops, the column
combination, in-place column assignment, the combo-box item model and the
dialogs' Submit handlers. Each method is proved against a function that
specifies it. Pure decisions are written as functions, and the lemmas are
stated about those functions. The network is a finite sequence of replies:
reply k answers the request for page k + 1. Shapely's `buffer`, `union`,
`unary_union`, `make_valid` and `is_valid` are function parameters about
which nothing is assumed unless a lemma says so. The user's answer to a
question is a parameter too.

The model follows the code as written, including where it departs from what
the plug-in evidently means to do:

- In the current dialog, `fetch_data` is a generator. The test `gdf.empty`
  therefore raises `AttributeError`, so a run the user confirmed ends with
  that exception and the running mark still set. The processing and layer
  stage after it cannot be reached as written, so it is modelled separately
  (`MainDialog.Dialog.Load`), on a frame handed in.
- In that stage, `create_layer` tests a GeoDataFrame with `if features:`,
  which pandas refuses. Only a frame whose rows have no geometry reaches the
  success message.
- `validate_wild_card` returns a tuple, and a tuple is always true, so its
  verdict is ignored. It splits at the first `=`, but the dialog's own
  `split('=')` unpacking then raises for a wild card with a second `=`.
- `get_api_base_url` returns the popped flag in place of the parameters when
  the test API is chosen.
- `get_total_obs` pops the test flag from the caller's dictionary and sends
  the popped value as the query of the count request. The check box's `True`
  cannot be encoded as a query, so the request raises before it is sent and
  the count is `None`. A text flag from a wild card such as
  `use_test_api=x` is sent as the query to the test base, and the count is
  the reply's total.

Behaviour one might expect that the code does not have:

- The first version's record ceiling does not raise an error. It shows a
  warning and leaves the loop, keeping the features gathered so far.
- Neither loop has a cancellation check. Cancelling is the second press of
  Submit, which only clears the running mark.
- A one-member column family keeps its indexed name.

## Model

| member | source | states |
|---|---|---|
| `Api.GetApiBaseUrl` | src/api.py:16-22 | with the test flag present it is popped from the caller's dictionary, the test base is chosen and the popped flag value (not the dictionary) is handed back as the parameters; otherwise the production base and the same dictionary |
| `Api.ErrorMessage` | src/api.py:45-57 | the warning is looked up by the exact error class: a timeout, a connection error, an HTTP error and a plain request exception each have their own text, every other class (a subclass included) gets "Unexpected error", and the detail is the error's text |
| `Api.CountTotal` | src/api.py:214-222 | the count is the `total` of a 200 or 201 JSON reply that has one, and `None` for any other status, a reply that is not JSON, or an exception |
| `Api.GetTotalObs` | src/api.py:201-222 | the test flag is removed from the caller's dictionary; a truthy flag that is not text cannot be sent as the query, so no request is made and the count is `None`; otherwise the count goes to the test base (flag present) or the production base and is the total the reply gives |
| `Api.CountTarget` | src/api.py:211-212 | the count URL is the test base's when the flag is present and the production base's otherwise, and there is none exactly when the flag is a truthy value that is not text |
| `Api.CountFlagCases` | src/api.py:211-222 | the check-box flag `True` gives no count; a flag that is absent or text leaves the count to the reply |
| `Api.Prepared` | src/api.py:73-79 | the update sets `format`, `page` 1, `pageSize` 10000 and the `selected` field list and leaves every other parameter as it was |
| `Api.Page` | src/api.py:86-89 | a reply gives a page exactly when it is a response whose status `raise_for_status` lets through and whose body decodes as JSON |
| `Api.RequestFailure` | src/api.py:86-89 | a 4xx or 5xx status raises an HTTP error and a body that does not decode raises a decode error |
| `Api.PageBatch` | src/api.py:96-101 | a page yields a frame exactly when its feature list is present and non-empty, and that frame is built from that list |
| `Api.FramesOf` | src/api.py:100 | one frame per yielded feature list, in order, each built from its list |
| `Api.Requested` | src/api.py:86 | request k carries the prepared parameters with `page` set to k + 1 |
| `Api.TurnPage` | src/api.py:110 | the page number goes up by one and nothing else changes |
| `Api.BeforeStep` | src/api.py:84-110 | a page that names a next page keeps the loop's state: its batch is appended, its number is shown on the bar, and the maximum is set from page 1 |
| `Api.FetchFromHandled` | src/api.py:84-114 | the pages handled are numbered 1 to n in order, the frames are those of their non-empty feature lists, and the maximum was set once from the first page |
| `Api.FetchFromEnded` | src/api.py:84-114 | the loop ends at the first page without a next page, or at the first request exception with the warning chosen for its class, every earlier page naming a next page |
| `Api.FetchShape` | src/api.py:84-117 | a whole run from page 1 is handled and ended as the two lemmas above say |
| `Api.Receive` | src/api.py:86-89 | `raise_for_status` then `json()` succeed exactly on a page and give its body; otherwise the exception raised |
| `Api.Visit` | src/api.py:85-114 | one request and what the loop body does with its reply: the request is recorded, the bar calls are made, and the loop state moves one page on or ends as the recursive definition says |
| `Api.Step` | src/api.py:84-114 | one pass through the loop body, the page increment included, keeps the sent requests and the parameters in step with the page number |
| `Api.WalkPages` | src/api.py:84-114 | the loop from page 1 produces exactly the batches, the end, the bar calls and the requests of the whole-run definition |
| `Api.Prepare` | src/api.py:73-79 | the caller's dictionary is updated in place to the prepared parameters, whose `page` is 1 |
| `Api.FetchPages` | src/api.py:70-117 | with the production base, a new session sends the prepared requests, the frames yielded are those of the run, and the session is closed on every way out |
| `Api.FetchData` | src/api.py:59-117 | with the test flag present the flag is popped and the generator raises at the `update` on the popped value, before any request; otherwise the run above on the caller's dictionary, whose `page` ends at the last page requested |
| `LegacyApi.Returned` | api.py:24-38 | the features gathered are returned exactly when the loop ended by a `break` (no next page, over the limit, or a failed query) |
| `LegacyApi.Prepared` | api.py:6-8 | the three assignments set `format`, `page` 1 and `pageSize` 100 and keep every other parameter |
| `LegacyApi.Received` | api.py:14-16 | a reply is used exactly when its status is 200 and it decodes as JSON; another status stops the loop as a failed query, and a body that does not decode raises |
| `LegacyApi.CheckLimit` | api.py:17-24 | the block runs only while `last_page` is unset: it sets `last_page` and the bar maximum from the page and stops the loop when the total exceeds a million; a missing `lastPage` or `total` raises |
| `LegacyApi.GatheredStep` | api.py:25-26 | the features gathered from one more page are its features appended to those before |
| `LegacyApi.BeforeStep` | api.py:13-36 | a page that passes the check and names a next page keeps the loop's state, its features appended and the next page number shown |
| `LegacyApi.TrackedStop` | api.py:17-24 | a reply at which the loop halts leaves the maxima of the check that halted it |
| `LegacyApi.WalkFromHandled` | api.py:13-36 | the pages gathered are numbered 1 to n, their features are concatenated in page order, the bar shows 2 to n + 1, and at most one more request follows |
| `LegacyApi.WalkFromEnded` | api.py:13-36 | the loop ends at the first page without a next page, at a non-200 status keeping what it has, at a total over the limit, or at an exception |
| `LegacyApi.WalkShape` | api.py:13-38 | a whole run from page 1 is handled and ended as the two lemmas above say |
| `LegacyApi.TooManyAtFirstPage` | api.py:17-24 | a first page reporting more than a million records returns no features, after the maximum was set from that page |
| `LegacyApi.LimitCheckedAgain` | api.py:17-24 | a first page with `lastPage` 0 leaves `last_page` unset, so a second page over the limit still stops the loop, keeping the first page's features |
| `LegacyApi.Visit` | api.py:14-34 | one request and what the loop body does with its reply, up to the page increment, as the recursive definition says |
| `LegacyApi.Step` | api.py:13-36 | one pass through the loop body keeps the sent requests and the parameters in step with the page number |
| `LegacyApi.WalkPages` | api.py:13-36 | the loop from page 1 produces exactly the features, the end, the bar calls and the requests of the whole-run definition |
| `LegacyApi.Prepare` | api.py:6-8 | the caller's dictionary is updated in place to the prepared parameters |
| `LegacyApi.FetchData` | api.py:4-38 | the prepared requests are sent in page order, the features and the end are those of the run, and the caller's dictionary ends with the last page number |
| `Geometry.MultiOf` | src/prosessors.py:52-57 | each simple kind has a Multi counterpart |
| `Geometry.KindSetSingleton` | src/prosessors.py:44-63 | the set of child types is one type exactly when the collection is non-empty and every child is of that type |
| `Geometry.CollectKeepsChildren` | src/prosessors.py:52-57 | a homogeneous simple collection becomes the matching Multi kind holding the same children in the same order |
| `Geometry.FlattenConcatenates` | src/prosessors.py:58-63 | a homogeneous Multi collection becomes one geometry of that kind whose members are the children's members, child by child in order |
| `Geometry.Areal` | src/prosessors.py:66-68 | the parts to dissolve are at most the children: points and lines buffered, polygons kept, nested collections dropped |
| `Geometry.ArealEmptyIffAllCollections` | src/prosessors.py:66-78 | nothing is left to dissolve exactly when every child is itself a collection |
| `Geometry.ProcessGeometry` | src/prosessors.py:42-79 | a missing geometry and any geometry that is not a collection come back unchanged |
| `Geometry.SingleChildUnwrapped` | src/prosessors.py:47-49 | a one-child collection is replaced by its child, whatever its kind |
| `Geometry.HomogeneousCollapse` | src/prosessors.py:51-63 | two or more children of one simple kind become its Multi kind with the same children; of one Multi kind, one geometry of that kind with the members concatenated |
| `Geometry.MixedDissolved` | src/prosessors.py:65-78 | a mixed collection yields nothing exactly when every child is a collection, otherwise the union of its areal parts, a lone polygon wrapped as a MultiPolygon |
| `Geometry.EmptyCollectionVanishes` | src/prosessors.py:65-78 | the empty collection yields no geometry |
| `Geometry.CollectionOnlyFromInputOrDissolve` | src/prosessors.py:42-79 | a collection comes out only when a one-child collection held one or when the dissolve returned one |
| `Geometry.BufferDistance` | helpers.py:10-13 | the buffer distance is positive, and below half a unit exactly for a WGS84 request |
| `Geometry.ProcessGeometryCollection` | helpers.py:7-45 | the method's result is the outcome the definition gives: the one-child, homogeneous and mixed cases, the fold, and the index error on nothing usable |
| `Geometry.EmptyBecomesMultiLineString` | helpers.py:17-22 | the empty collection passes the first `all` test and becomes an empty MultiLineString |
| `Geometry.HomogeneousAgree` | helpers.py:17-32 | for two or more children of one kind the older normaliser gives what the newer one gives |
| `Geometry.MixedFolded` | helpers.py:34-45 | in the mixed case the usable parts are dissolved by a left fold of `union` in child order, and with none usable the indexing raises |
| `Geometry.DissolveExtends` | helpers.py:42-44 | the fold takes the parts in order: one more list of parts unions onto the dissolve of the shorter list |
| `Frames.FromFeatures` | src/api.py:100 | one row per feature in order, keeping its geometry, and one column per property name that some feature has, each name once |
| `Frames.FromFeaturesCells` | src/api.py:100 | each row holds its feature's properties, and a property the feature lacks reads as missing |
| `Layers.FieldTypeClasses` | src/create_layer.py:8-21 | the type table read the other way round: exactly three properties are dates, three booleans, six integers, and every other name is a string |
| `Layers.BuildFields` | src/create_layer.py:29-32 | one field per collected name, in order, typed by the table with string as the default |
| `Layers.OrderedLookup` | src/create_layer.py:47 | the re-keyed properties hold exactly the field names: a name the feature has keeps its value and a name it lacks reads as the empty string |
| `Layers.OrderedKeys` | src/create_layer.py:47 | with distinct field names the keys come in field order |
| `Layers.OrderFeatures` | src/create_layer.py:45-53 | one re-keyed feature per input feature, in order, keeping its geometry |
| `Layers.Project.AddMapLayer` | src/create_layer.py:67 | the layer is appended to the project's layers |
| `Layers.CreateLayer` | src/create_layer.py:23-69 | no features adds nothing and warns nothing; an invalid source adds nothing and warns with the lower-cased type; otherwise exactly one layer is appended, with the lower-cased source, the name `FinBIF_<type>_Occurrences`, one typed field per collected name and the features re-keyed in order |
| `LegacyDialog.BaseParams` | dialog.py:406-413 | the literal holds the six fixed keys in their order |
| `LegacyDialog.BaseToken` | dialog.py:406-413 | the literal holds the form's access token |
| `LegacyDialog.FilteredParams` | dialog.py:415-469 | the six fixed parameters keep the literal's values, and each optional filter is present exactly when its value is truthy, with that value |
| `LegacyDialog.FilteredToken` | dialog.py:406-469 | the access token survives the optional filters |
| `LegacyDialog.RequestOutcomes` | dialog.py:470-484 | the token lookup cannot fail, so the run stops before fetching only on a bad wild card or an empty token, and otherwise goes on with a non-empty token |
| `LegacyDialog.WildCardSuppliesToken` | dialog.py:470-484 | the wild card is applied before the token check, so `access_token=<t>` supplies a token the form left empty |
| `LegacyDialog.EmptyTokenStops` | dialog.py:480-484 | an empty token and no wild card end the run before anything is fetched |
| `LegacyDialog.LayerKindsAll` | dialog.py:583-588 | every geometry type but GeometryCollection has a layer call |
| `LegacyDialog.ChildrenMembers` | dialog.py:520-537 | the copies made from one collection are its members of the given type, each with the feature's properties |
| `LegacyDialog.ExplodedMembers` | dialog.py:520-537 | a copy is in the exploded list of a type exactly when it is some collection feature's member of that type, with that feature's properties |
| `LegacyDialog.ExplodedCollections` | dialog.py:511-520 | exploding only the collection features gives the same copies as exploding every feature |
| `LegacyDialog.BucketMembers` | dialog.py:511-537 | a feature is in a layer type's list exactly when it has that type or is a copy of a collection member of that type; everything in the list has that type |
| `LegacyDialog.SpreadIsWeight` | dialog.py:511-537 | nothing is lost or counted twice: the six lists hold one entry per feature of a layer type and one per collection member that is not itself a collection |
| `LegacyDialog.AppendChildren` | dialog.py:521-537 | the inner loop appends each member's copy to the list of its type, and nested collections to none |
| `LegacyDialog.CheckGeometries` | dialog.py:511 | the first comprehension gets through exactly when every feature has a geometry |
| `LegacyDialog.ExplodeStep` | dialog.py:520-537 | one turn of the outer loop extends each list by that collection's copies |
| `LegacyDialog.ExplodeStart` | dialog.py:512-517 | before the loop each layer type's list holds its features in order |
| `LegacyDialog.Explode` | dialog.py:512-537 | each layer type's list ends as its features followed by the copies, collection by collection |
| `LegacyDialog.SortFeatures` | dialog.py:511-537 | a feature without a geometry makes the sorting raise the `NoneType` error; otherwise each list is its bucket |
| `LegacyDialog.AuthId` | dialog.py:541-548 | EUREF gives EPSG:3067, YKJ gives EPSG:2393, and any other choice EPSG:4326 |
| `LegacyDialog.LayerOrWarning` | dialog.py:550-581 | a non-empty list gives exactly one of a layer and a warning, an empty one neither; a layer has the first feature's fields, the lower-cased source and the name `Custom <type> Layer` |
| `LegacyDialog.CreateLayer` | dialog.py:550-581 | the inner `create_layer` appends the layer, if any, and shows the warning, if any |
| `LegacyDialog.NothingAdded` | dialog.py:510 | no features, no layers and no warnings |
| `LegacyDialog.LayersAndWarnings` | dialog.py:583-588 | every non-empty list ends as exactly one layer or one warning, so at most six layers are added |
| `LegacyDialog.FromBuckets` | dialog.py:583-588 | lists equal to the buckets give the layers and warnings of the features |
| `LegacyDialog.CreateLayers` | dialog.py:583-588 | the six calls append their layers and show their warnings in call order |
| `LegacyDialog.RequestsCarryToken` | dialog.py:480-507 | every request a run sends carries the saved token, which is non-empty text, asks for GeoJSON, and asks for pages 1, 2, ... in turn |
| `LegacyDialog.RunOutcomes` | dialog.py:359-594 | a run started with no mark never ends as a cancel; an escaping exception is only the sorting's; the early stops send nothing; a loaded run shows every feature returned |
| `LegacyDialog.FetchedOutcomes` | dialog.py:506-594 | once the user said Yes, an escaping exception is only the sorting's, and a loaded run shows every feature returned |
| `LegacyDialog.SavedTokenRestored` | dialog.py:486 | the token a run saves is what the token field shows the next time the dialog opens (it reads the setting back at line 36); a run that saves nothing leaves it as it was |
| `LegacyDialog.Dialog.ReadParams` | dialog.py:369-469 | the dictionary the form gives is the literal followed by the truthy filters |
| `LegacyDialog.Dialog.ShowFeatures` | dialog.py:510-588 | the sorting raises exactly when a feature has no geometry, and then adds nothing; otherwise the layers and warnings of the buckets |
| `LegacyDialog.Dialog.CheckRequest` | dialog.py:470-484 | the wild card and the token check stop the run as the request definition says, and otherwise leave the parameters that are sent |
| `LegacyDialog.Dialog.Place` | dialog.py:510-594 | the layers, the message and the reset, the reset skipped when the sorting raises |
| `LegacyDialog.Dialog.Display` | dialog.py:507-594 | nothing more when the fetch raised, and otherwise the layers for the features it returned |
| `LegacyDialog.Dialog.Download` | dialog.py:506-507 | the bar is reset, the prepared requests are sent page by page, and the features returned are those of the walk |
| `LegacyDialog.Dialog.Fetch` | dialog.py:506-594 | the fetch and the layers; the mark is cleared unless an exception escapes |
| `LegacyDialog.Dialog.Proceed` | dialog.py:486-594 | the token is saved, the question shows the parameters, and a Yes leads to the fetch and the layers |
| `LegacyDialog.Dialog.Submit` | dialog.py:470-594 | the wild card, the token, the question, the fetch and the layers, with the effects the run definition gives |
| `LegacyDialog.Dialog.Start` | dialog.py:365-594 | a press with no run marked sets the mark, reads the form and runs; the mark stays set exactly when an exception escapes |
| `LegacyDialog.Dialog.Run` | dialog.py:359-594 | a press while a run is marked only clears the mark; otherwise the run ends as the definitions say |
| `QueryForm.FilterValues` | dialog.py:369-404 | one value per optional filter, in the order the filters are tested |
| `QueryForm.Candidates` | dialog.py:415-469 | the candidate filters carry exactly the filter keys, in their order |
| `QueryForm.WithTruthyOthers` | dialog.py:415-469 | a key that no candidate names keeps its value |
| `QueryForm.WithTruthyCandidate` | dialog.py:415-469 | with distinct candidate keys, a candidate's key holds its value exactly when the value is truthy, and otherwise keeps what it held |
| `QueryForm.WithTruthyKeeps` | dialog.py:415-469 | keys present before the filters stay present |
| `QueryForm.FilterKeysDistinct` | dialog.py:415-469 | the optional filter keys are distinct |
| `QueryForm.FilterKeysNotBase` | dialog.py:406-469 | no optional filter shares its key with the fixed keys of the literal |
| `QueryForm.FiltersLeaveOthers` | dialog.py:415-469 | the optional filters leave every other key as it was |
| `QueryForm.FilterApplied` | dialog.py:415-469 | a filter whose key is not there yet is present exactly when its value is truthy, and then holds that value |
| `QueryForm.AddFilters` | dialog.py:415-469 | the filters are added in order, each only when its value is truthy |
| `QueryForm.WildCardPair` | dialog.py:472 | splitting on `=` gives exactly two parts only when the text has exactly one `=`, and the text is the two parts joined by it |
| `QueryForm.WildCardSplitsInTwo` | dialog.py:472 | `key=value` with no other `=` splits into exactly that key and value |
| `QueryForm.WildCardOutcome` | dialog.py:470-478 | a non-empty wild card is accepted exactly when it holds one `=`, and then sets the text before it to the text after it, whatever key that is |
| `QueryForm.WildCardSets` | dialog.py:470-478 | `key=value` with no other `=` sets `key` to `value` |
| `QueryForm.TokenOf` | dialog.py:480 | the token lookup succeeds exactly when the key is there, and gives its value; otherwise a `KeyError` |
| `QueryForm.ParamTextLines` | dialog.py:491 | when no key or value holds a line break, the question text has one `key: value` line per parameter, in order |
| `Mappings.AreasKeys` | src/mappings.py:40-48 | the result always has the same seven keys, in order, whatever the file holds |
| `Mappings.BucketHas` | src/mappings.py:22-38 | a bucket holds a name exactly when some area of its type has that name; areas of other types, known or not, leave it alone |
| `Mappings.BucketLast` | src/mappings.py:22-38 | a name maps to the id of the last area of the type with that name |
| `Mappings.CodesByIdHas` | src/mappings.py:26-28 | `countries_by_id` holds the id of every country and of nothing else |
| `Mappings.CodesByIdLast` | src/mappings.py:28 | a country id maps to the code of the last country with that id, `Unknown` when it has none |
| `Mappings.LoadAreas` | src/mappings.py:7-48 | the loop puts each area into the one bucket its type selects and skips any other type, giving the definition's result |
| `Mappings.RangesKeys` | src/mappings.py:76-81 | the result always has the four category keys, in order, each once |
| `Mappings.FilledUntouched` | src/mappings.py:62-74 | filling a table leaves a value that no entry has as it was |
| `Mappings.FilledLast` | src/mappings.py:62-74 | a value maps to the id of the last entry with that value |
| `Mappings.CategoryOwnEntries` | src/mappings.py:62-74 | a category's table is built from its own entries alone, and a category the file lacks gives an empty table |
| `Mappings.FillTable` | src/mappings.py:64-74 | the inner loop puts each entry in turn, value to id |
| `Mappings.LoadRanges` | src/mappings.py:50-81 | the entries of the four known categories go to their tables and other categories are skipped, giving the definition's result |
| `Validators.MatchesEmailIff` | src/validators.py:9 | the scan agrees with what the pattern matches from the start of the text |
| `Validators.ValidateEmailSpec` | src/validators.py:4-12 | an address is accepted exactly when its stripped text has the e-mail shape, and blank text never is |
| `Validators.WildCardBlank` | src/validators.py:16-17 | blank text is accepted with no key and no value |
| `Validators.WildCardSplit` | src/validators.py:19-27 | `key=value` with a key free of `=` gives the stripped key and value, whatever `=` the value holds, when neither side is blank, and is refused otherwise |
| `Validators.WildCardNoEquals` | src/validators.py:19-27 | text that is not blank and holds no `=` is refused |
| `Widgets.ParseDigits` | custom_widgets.py:69 | zero-padded digits read back as the number they print |
| `Widgets.FormatDate` | custom_widgets.py:69 | a day prints as ten characters with dashes at the fifth and eighth |
| `Widgets.ParseFormatDate` | custom_widgets.py:69 | a printed day reads back as the same day |
| `Widgets.DateRangeInput.ToggleDateSelection` | custom_widgets.py:44-48 | both edits are enabled exactly for state 2 and nothing else changes |
| `Widgets.DateRangeInput.SetChecked` | custom_widgets.py:17-48 | the box takes the new state, the toggle runs only on a change, and edits that followed the box keep following it |
| `Widgets.DateRangeInput.PickStart` | custom_widgets.py:20-23 | picking a start day changes only the start |
| `Widgets.DateRangeInput.PickEnd` | custom_widgets.py:26-29 | picking an end day changes only the end |
| `Widgets.DateRangeInput.Reset` | custom_widgets.py:72-77 | the box is unchecked and both edits disabled; the null date is ignored, so both edits keep their days; nothing is selected afterwards |
| `Widgets.DateRangeInput.GetSelectedDates` | custom_widgets.py:50-70 | nothing unless the box is checked, both days are valid and the start is not after the end; otherwise text that reads back as the two days, an interval exactly when they differ |
| `Widgets.CheckedDataAppend` | custom_widgets.py:189-195 | the selection of two runs of items is the two selections joined |
| `Widgets.CheckedAround` | custom_widgets.py:189-195 | the selection splits around any one row |
| `Widgets.NewItems` | custom_widgets.py:181-187 | one unchecked item per text, in order, with the data at the same index, the text itself when there is none |
| `Widgets.ToggledTwice` | custom_widgets.py:128-137 | clicking an item twice leaves the model as it was |
| `Widgets.ToggledSelection` | custom_widgets.py:128-137 | a click selects or deselects exactly the clicked item at its place in model order, and every other item keeps its place |
| `Widgets.NothingChecked` | custom_widgets.py:197-201 | nothing is selected once every item is unchecked |
| `Widgets.CheckableComboBox.AddItem` | custom_widgets.py:169-179 | one unchecked item is appended, its data defaulting to its text; the checked texts stay as they were; the first item appended to an empty model becomes current and its text is shown, any later one leaves the line edit alone |
| `Widgets.CheckableComboBox.AddItems` | custom_widgets.py:181-187 | one item per text, in order, with the data at the same index; into an empty model the first text is shown, otherwise the line edit keeps its text; the checked texts stay as they were |
| `Widgets.CheckableComboBox.UpdateText` | custom_widgets.py:157-167 | the line edit shows the checked texts joined with a comma and a space |
| `Widgets.CheckableComboBox.Click` | custom_widgets.py:128-137 | a click on a row flips that item and the line edit follows; a click below the last item raises and changes nothing |
| `Widgets.CheckableComboBox.CurrentData` | custom_widgets.py:189-195 | the data of the checked items, in model order |
| `Widgets.CheckableComboBox.ClearSelection` | custom_widgets.py:197-201 | every item unchecked with its text and data kept, nothing selected, and an empty line edit |
| `Transport.StatusError` | src/api.py:87 | `raise_for_status` raises an HTTP error exactly for a 4xx or 5xx status |
| `Transport.ParamDict.Pop` | src/api.py:19 | `pop` returns the key's value and removes exactly that key |
| `Transport.ProgressBar.SetMaximum` | src/api.py:94 | the maximum is recorded and the values are untouched |
| `Transport.ProgressBar.SetValue` | src/api.py:104 | the value is recorded and the maxima are untouched |
| `Transport.Client.Get` | src/api.py:86 | the request is recorded and answered by the next reply |
| `Transport.Client.Close` | src/api.py:117 | the session is closed and nothing else changes |
| `Processors.DigitRunEnd` | src/prosessors.py:95 | the run of ASCII digits from a position ends at the first non-digit or the end of the text |
| `Processors.TailGroup` | src/prosessors.py:95 | `(.*)$` takes the rest when it holds no line break, or all but a final line break that is its only one, and fails otherwise |
| `Processors.LazySearch` | src/prosessors.py:95 | the lazy first group is the shortest one for which the rest of the pattern matches, and none when no length works |
| `Processors.FamilyName` | src/prosessors.py:95-103 | a column has a family exactly when the pattern matches, and the family is the first and third groups, the first bracketed index removed |
| `Processors.FamilyOfIndexedName` | src/prosessors.py:95-103 | `prefix[n]suffix` with no bracket in the prefix belongs to the family `prefix` + `suffix` |
| `Processors.IndexedMatch` | src/prosessors.py:95-103 | the pattern matches with the prefix as its first group |
| `Processors.NoEarlierMatch` | src/prosessors.py:95 | no shorter first group works when the prefix holds no bracket |
| `Processors.NoBracketNoFamily` | src/prosessors.py:95-102 | a name with no `[` has no family |
| `Processors.Families` | src/prosessors.py:98-106 | the family names are distinct keys |
| `Processors.MembersOf` | src/prosessors.py:98-106 | a family's members are exactly the columns whose family it is |
| `Processors.FamiliesGroup` | src/prosessors.py:98-106 | a name is a key exactly when some column has it as its family, and its list holds exactly that family's columns in column order |
| `Processors.CollectFamilies` | src/prosessors.py:98-106 | the loop builds the family table of the definition |
| `Processors.Contributions` | src/prosessors.py:116-120 | at most one contribution per member column |
| `Processors.ContributionsEmpty` | src/prosessors.py:116-122 | a row has no contributions exactly when none of its member cells is present and non-blank |
| `Processors.CombinedCellNull` | src/prosessors.py:122 | the combined cell is `None` exactly when every member cell is missing or blank, and text otherwise |
| `Processors.CombinedCellAgree` | src/prosessors.py:115-122 | the combined cell depends only on the member cells |
| `Processors.RowValues` | src/prosessors.py:116-120 | the loop collects the string of each contributing member value, in member order |
| `Processors.CombinedValues` | src/prosessors.py:114-122 | one combined cell per row, in row order |
| `Processors.CombineStep` | src/prosessors.py:111-125 | one family's turn keeps the rows and their geometries and keeps the frame well formed |
| `Processors.CombineAll` | src/prosessors.py:111-125 | the families in turn keep the rows and their geometries and keep the frame well formed |
| `Processors.Combined` | src/prosessors.py:90-127 | the combined frame has the same rows with the same geometries, and stays well formed |
| `Processors.CombineFamily` | src/prosessors.py:112-125 | a family of two or more columns is written under its name and its members dropped; a one-column family is left alone |
| `Processors.CombineSimilarColumns` | src/prosessors.py:90-127 | the work is done on a copy: the frame passed in is unchanged and the copy is the combined frame |
| `Processors.CombineKeepsOthers` | src/prosessors.py:111-125 | a column no combined family names or contains keeps its place and its values |
| `Processors.CombineDropsMembers` | src/prosessors.py:125 | every column of a combined family is gone from the result |
| `Processors.CombineSetsBases` | src/prosessors.py:114-124 | each combined family's name holds, in every row, the combined cell of the row's original member values |
| `Processors.FamiliesSeparate` | src/prosessors.py:98-106 | when no family name is itself an indexed name, family names are distinct, are not members, and no column is in two families |
| `Processors.CombinedFamilyColumn` | src/prosessors.py:90-127 | a family of two or more columns gets a column named after it holding, row by row, the comma-join of its members' non-blank values, or `None` |
| `Processors.CombinedMembersDropped` | src/prosessors.py:90-127 | every column of a family of two or more columns is dropped |
| `Processors.CombinedOthersKept` | src/prosessors.py:90-127 | a column outside every family of two or more keeps its values, so a one-column family keeps its indexed name |
| `Processors.CollectionUriNamed` | src/prosessors.py:10 | a collection URI is looked up by the identifier after its last `/`, and is missing when the table lacks it |
| `Processors.CollectionNamesEffect` | src/prosessors.py:7-11 | a frame without collection ids raises a `KeyError`; otherwise the names column is added or overwritten from the ids, and every other column stays |
| `Processors.MapCollectionId` | src/prosessors.py:7-11 | the names column is assigned in place, or the frame is left as it was when the lookup raises |
| `Processors.MvlAt` | src/prosessors.py:19 | a match is `MVL.` followed by the longest run of digits at that position |
| `Processors.MvlSearch` | src/prosessors.py:19 | the search finds the leftmost position where an identifier starts |
| `Processors.ExtractMvl` | src/prosessors.py:19 | the extracted cell is missing or text, and text only when it is an `MVL.` identifier found in the original string |
| `Processors.ExtractFromUri` | src/prosessors.py:19 | an identifier URI yields its `MVL.` identifier |
| `Processors.Prepared` | src/prosessors.py:16-19 | the first group column is added when missing and reduced to its identifier; every other cell, row and geometry is kept |
| `Processors.Suffixed` | src/prosessors.py:20 | overlapping column names get the suffix, the others are kept |
| `Processors.FillEffect` | src/prosessors.py:20 | filling adds exactly the given names and keeps every other cell |
| `Processors.MatchingRows` | src/prosessors.py:20 | the matching taxonomy rows are those whose key equals the value, in order |
| `Processors.JoinOne` | src/prosessors.py:20 | every occurrence gives at least one merged row |
| `Processors.JoinRows` | src/prosessors.py:20 | a left join never loses an occurrence |
| `Processors.AtMostOneMatch` | src/prosessors.py:20 | distinct taxonomy identifiers give at most one match |
| `Processors.JoinIsLookup` | src/prosessors.py:20 | with distinct identifiers the merge is a lookup: one merged row per occurrence, in order |
| `Processors.JoinedCells` | src/prosessors.py:20 | with no clashing names a merged row holds the occurrence's cells under the left names and the taxonomy row's under the right names |
| `Processors.GroupColumns` | src/prosessors.py:23 | the columns to drop are exactly the informal-group columns |
| `Processors.MergeTaxonomyData` | src/prosessors.py:13-28 | the occurrence frame is prepared in place, then a new merged frame is returned, or the `KeyError` |
| `Processors.MergeOutcome` | src/prosessors.py:13-28 | the merge raises a `KeyError` for `id` exactly when the taxonomy has no `id` column or the occurrences already have one; otherwise no group column and no `id` column is left |
| `Processors.LeftJoinLookupColumn` | src/prosessors.py:20 | a taxonomy column of a one-to-one left join holds, row by row, the looked-up row's cell |
| `Processors.MergeIsLookup` | src/prosessors.py:13-28 | with distinct identifiers each taxonomy column holds, row by row, the cell of the taxonomy row whose `id` is the occurrence's extracted identifier, missing when there is none |
| `Processors.Repaired` | src/prosessors.py:34-35 | a repaired geometry is missing exactly when the original was |
| `Processors.RepairIsIdempotent` | src/prosessors.py:30-36 | when the repair always yields a valid geometry, every result is valid, valid geometries are kept, and repairing twice changes nothing more |
| `Processors.ValidateGeometry` | src/prosessors.py:30-36 | each row's geometry is replaced by its repair in place, nothing else changed |
| `Processors.ConvertGeometryCollections` | src/prosessors.py:38-83 | each row's geometry is normalised in place, nothing else changed |
| `Processors.MappedValues` | src/prosessors.py:85-88 | at most one value per selected item, none empty, and none at all exactly when no selected item has a non-empty mapping |
| `Processors.MapValuesEmptyIff` | src/prosessors.py:85-88 | the parameter is empty exactly when no selected item has a non-empty mapping |
| `Processors.MapValuesSplit` | src/prosessors.py:85-88 | when no mapped value holds a comma, splitting the parameter at commas gives back the mapped values in selection order |
| `Processors.MappedValuesFromMapping` | src/prosessors.py:85-88 | every value in the parameter comes from the mapping |
| `MainDialog.LabelEpsg` | src/ui/main_dialog.py:13-23 | every CRS label, listed or not, maps to a code the EPSG table holds: the two Finnish labels to EPSG:3067 and EPSG:2393, all others to EPSG:4326 |
| `MainDialog.BaseParams` | src/ui/main_dialog.py:371-375 | the request starts with exactly the keys `crs`, `featureType` and `access_token`, in that order |
| `MainDialog.BaseGets` | src/ui/main_dialog.py:371-375 | the literal holds the CRS code of the chosen label, the geometry type and the token as typed |
| `MainDialog.FilteredBase` | src/ui/main_dialog.py:371-430 | the optional filters never change the three fixed parameters |
| `MainDialog.FilteredParams` | src/ui/main_dialog.py:377-430 | each optional filter is a parameter exactly when its value is truthy, and then holds that value |
| `MainDialog.TestFlagSet` | src/ui/main_dialog.py:393-394 | with the test-API box checked the flag parameter is `True` |
| `MainDialog.FlagValue` | src/ui/main_dialog.py:358 | the ninth filter is the test-API flag with the check box's state |
| `MainDialog.WarningIgnored` | src/ui/main_dialog.py:431-435 | a `key=value` wild card draws the warning exactly when a side is blank, and sets the key to the value whatever the verdict |
| `MainDialog.FirstSplitAccepted` | src/validators.py:14-27 | the validator accepts `key=rest` when neither side is blank, whatever `=` the rest holds |
| `MainDialog.AcceptedYetRaises` | src/ui/main_dialog.py:431-435 | a wild card with two `=` passes the validator but its unpacking raises `ValueError`, ending the run |
| `MainDialog.RequestKeys` | src/ui/main_dialog.py:431-441 | the wild card keeps every key; the run stops before the count only at an unpacking that raises or at an empty token |
| `MainDialog.SummaryOmitsToken` | src/ui/main_dialog.py:446 | the summary never shows the access token, and lists one `key: value` line per other parameter, in order |
| `MainDialog.AskingGate` | src/ui/main_dialog.py:448-484 | a count over the limit, and only such a count, refuses the query without a question; otherwise the question is asked; the progress bar is reset only after a Yes, and the run then ends at the generator after the EPSG lookup |
| `MainDialog.AskingSaves` | src/ui/main_dialog.py:443-484 | after the count the saved token and the parameters are those passed in |
| `MainDialog.CountGate` | src/ui/main_dialog.py:443-484 | the token is saved, the count removes the test flag and keeps every other parameter, and the limit, question and fetch follow the count |
| `MainDialog.TestApiNotCounted` | src/ui/main_dialog.py:445-467 | with the test-API box checked and no wild card naming the flag, the count is `None`, so the limit never refuses and the question shows `None` |
| `MainDialog.WildCardFlagCounted` | src/ui/main_dialog.py:431-460 | a wild card setting the flag to text makes the count the reply's total, so the limit refuses exactly above the maximum and otherwise the question shows that total |
| `MainDialog.RunOutcomes` | src/ui/main_dialog.py:328-484 | a run not marked never ends as a cancellation; an escaping exception is a bad wild-card unpacking or the generator's missing `empty`; the token is saved exactly when the count is made and is then non-empty; the progress bar is touched only after a Yes |
| `MainDialog.OutcomesFrom` | src/ui/main_dialog.py:431-484 | the same outcomes for any parameters holding a CRS code and a textual token |
| `MainDialog.EpsgLookedUp` | src/ui/main_dialog.py:478 | unless the wild card overrides `crs`, a run the user said Yes to finds the EPSG identifier of the label the form shows |
| `MainDialog.ProcessedGeometries` | src/ui/main_dialog.py:486-490 | when the repair always yields a valid geometry, every geometry after processing is valid |
| `MainDialog.UniqueTypesSpec` | src/ui/main_dialog.py:497 | the unique types hold no repeat, and a type is among them exactly when some row has it |
| `MainDialog.Matching` | src/ui/main_dialog.py:500 | the subset holds exactly the rows of the given type |
| `MainDialog.GroupedSpec` | src/ui/main_dialog.py:499-502 | over distinct types the groups have distinct kinds, each the non-empty subset of its kind, and every kind with a row has a group |
| `MainDialog.GroupsPartition` | src/ui/main_dialog.py:496-502 | the groups split the rows with a geometry by type: distinct kinds, same columns, non-empty, a row in a group exactly when it has that type, every row with a geometry in one |
| `MainDialog.LoadingOutcome` | src/ui/main_dialog.py:492-511 | the layer step reports success, with the row count, exactly when there are rows and none has a geometry, and raises exactly when some row has one |
| `MainDialog.Dialog.constructor` | src/ui/main_dialog.py:26-34 | the dialog opens with no run marked, the button reading Submit, and the saved settings |
| `MainDialog.Dialog.ReadParams` | src/ui/main_dialog.py:371-430 | the parameters the form gives are the literal followed by the truthy filters |
| `MainDialog.Dialog.CheckRequest` | src/ui/main_dialog.py:431-441 | the validator's verdict is reported, the wild card is applied in place, and the run goes on or stops as the request definition says |
| `MainDialog.Dialog.Proceed` | src/ui/main_dialog.py:443-484 | the token is saved, the count made, and the state ends as the counting definition says; the mark stays set only when an exception escapes |
| `MainDialog.Dialog.Ask` | src/ui/main_dialog.py:448-484 | the limit, the question, the progress-bar reset and the EPSG lookup change the state as the asking definition says |
| `MainDialog.Dialog.Submit` | src/ui/main_dialog.py:371-484 | once the form is read, the run changes the state as the effects definition says |
| `MainDialog.Dialog.Start` | src/ui/main_dialog.py:334-484 | a press while no run is marked sets the mark, and leaves it set, with the button reading Cancel, exactly when an exception escapes |
| `MainDialog.Dialog.Run` | src/ui/main_dialog.py:328-484 | a press while a run is marked only clears the mark and resets the button; otherwise as `Start` |
| `MainDialog.Dialog.ProcessFrame` | src/ui/main_dialog.py:486-490 | the fetched frame is prepared in place, and the result is the processing chain's frame or its exception |
| `MainDialog.Dialog.Reshape` | src/ui/main_dialog.py:488-490 | a new frame with similar columns combined and every geometry converted and then repaired |
| `MainDialog.Dialog.GroupByGeometryType` | src/ui/main_dialog.py:496-502 | the loop builds exactly the groups of the definition |
| `MainDialog.Dialog.PlaceLayers` | src/ui/main_dialog.py:492-511 | the row check, the grouping and the layers end as the loading definition says |
| `MainDialog.Dialog.Load` | src/ui/main_dialog.py:484-516 | the stage ends as the finishing definition says; settings are kept; unless an exception escapes the mark is cleared, the button reset and the progress bar set to 0 |

## Left out

- HTTP: `requests`, sessions, timeouts and headers are not modelled. Page replies are a finite input sequence, and a loop that runs past the last reply ends as `Truncated`. That outcome is an artifact of the model; the warehouse does not have it.
- `load_collection_names` and its cache (src/api.py:24-43), `request_api_key` and `renew_api_key` (src/api.py:119-199), and the API-key dialogs: these are network calls with SSL fallbacks and Qt dialogs. The collection names reach the model as a map handed in.
- Qt and QGIS: `QMessageBox` text is modelled only where a contract speaks about it. Event processing, layout, `init_ui`, drawing, popups, timers, `elidedText`, and `QgsVectorLayer` and CRS objects are not modelled. A layer's validity is an input.
- Shapely geometry operations are function parameters, because they are floating-point computational geometry.
- File reading in src/mappings.py (`open`, `json.load`, `read_csv`): the loops start from the decoded records.
- `collect_all_field_names` and `load_informal_taxon_names` are not part of this model. Their results are inputs.
- `src/main.py` and `main.py`: the plug-in's loading glue is not part of this model.
- The clock: today's date in the date-range widget is a parameter.
- The `{:,}` thousands formatting of the limit warning is not modelled. The warning is identified by the count it reports.
- Processors.MvlSearch: the regular expression of the identifier extraction is modelled as a search for `MVL.` followed by digits. The regular-expression engine itself is not modelled.
- Processors.JoinIsLookup: pandas `merge` is modelled as a left join over records. Its column order and dtype handling are not modelled, and the lookup property is proved for distinct taxonomy identifiers only.
- Frames.GeoDataFrame: a frame is a value held by one object, so views, copies that share data, and the index are not modelled.
- MainDialog.Dialog.Load: the layer step is modelled up to the exception raised for the first group, so the layers that a working `create_layer` would add are not modelled for this version.
- Frames.FromFeatures: a property is kept as the value the feature gave. In pandas, a numeric property that some features lack becomes a floating-point column, so its integers print as `5.0` later on. Column dtypes are not modelled.
- Processors.RowValues: the string of a member value is the one of the value as the feature gave it. The `5.0` that a floating-point column would print for an integer is not modelled, for the same reason as `Frames.FromFeatures`.
- Transport.StatusError: the message of the HTTP error is modelled without the ` for url: <url>` suffix that `raise_for_status` appends, because the URL with its encoded query is not modelled.
- Processors.DigitRunEnd: only the ASCII digits count as digits. The `\d` of Python's regular expressions also matches other Unicode decimal digits, which the model does not.
- Processors.FamilyName: the bracketed index is a run of ASCII digits only, as for `Processors.DigitRunEnd`.
- Processors.MvlAt: the identifier's digits are ASCII digits only, as for `Processors.DigitRunEnd`.
- Api.Receive: a page body is always a JSON object. A body that decodes to a list, a number or text would make `data.get` raise `AttributeError`, which escapes the generator; that path is not modelled.
