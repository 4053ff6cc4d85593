# Facility catalog: privilege engine and ingestion stages, in Dafny

This project models two Python modules of a multi-tenant facility catalog:

- `functions/api/__init__.py` is the read/write HTTP API over the document store. It
  covers workspace-key authentication, the privilege tiers PUBLIC (0), PRIVATE_KEY (3)
  and ADMIN (4), the item-key override, and the `process_item` projection that decides
  what each tier sees. It also covers the `sanitize_metadata` stripping of keys that
  start with `_private_`, the `get_items` query/filter/page pipeline, the
  write-side payload preparation (geocoding fragment, `updated_at`), and the create,
  update, delete and bulk-delete handlers.
- `functions/process_data/__init__.py` is the ingestion run. It builds the alias table
  from `city_names.csv`, applies `map_names` and the city whitelist, runs `slugify_row`
  (city slugs and id slugs drawn from one set of taken slugs, where any clash aborts
  the run), and runs `load_to_storage` (a merge-write of each row plus the city's
  `.config` document).

Modules:

| file | module | contents |
|---|---|---|
| values.dfy | `Values` | decoded JSON values, Python truthiness, `Option`, the handler `Outcome` |
| store.dfy | `Store` | document references, the `Database` class with `set`, `set(merge=True)`, `update`, `delete` |
| privilege.dfy | `Privilege` | tiers, `Sanitize`, `Authenticate`, the item-key override, `ProcessItem` |
| geocoding.dfy | `Geocoding` | the geocoder response classification, loop and specification |
| items_query.dfy | `ItemsQuery` | `split`, filter parsing, ordering, the lazy projection and `islice` window, `get_items` |
| api.dfy | `Api` | the handlers over a `Database` |
| ingestion.dfy | `Ingestion` | the alias table, slug stage and loader classes, the run and its invariants, `ProcessData` |

How the model is built:

- Handlers that only read are functions of the documents they read.
- Handlers that write are methods on a `Database`. Each is specified by a pure plan of
  what it writes (`UpdatePlan`, `DeleteVerdict`, `Pruned`).
- The two ingestion closures with mutable state become classes:
  - `SlugStage` holds `used` and `existing_slugs`;
  - `StorageLoader` holds the store and `added_cities`.
  Their methods are proved equal to the step functions `SlugStep` and `LoadStep`.
- `ProcessData` runs the rows through both objects in a loop. The loop is proved equal
  to the function `RunRows`, and the run invariants are proved about `RunRows`.

Values drawn from outside become parameters: fresh UUIDs, the clock, `json.loads`,
`slugify.slugify`, the MD5 hex digest, the geocoding provider's decoded response, and
the database's evaluation of a query (a function from the parsed query to its stream).

Python exceptions and explicit 500 replies are the `Error` outcome. `flask.abort(404)`
is `NotFound`, `flask.abort(403)` and the 403 replies are `Forbidden`, and the 412
reply is `IndexRequired(url)`.

Where the code differs from what its structure and names suggest, the model follows the code:

- Ingestion stores the whole row, merged into `<city-slug>/<id-slug>`. The code has no
  split into `info` and `official`, no run timestamp, no item `key`, and no migration of
  legacy config documents.
- Ingestion creates the city's config at `<city-slug>/.config`, while the API reads
  workspaces from `c/<workspace>`.
- At PRIVATE_KEY tier a write keeps private keys, because stripping applies only below
  that tier. It goes to the `user` group.
- Updating or deleting a missing item raises, which is `Error`, not `NotFound`.
- `get_items` does not report a missing index as index-required (see Findings).

## Model

| member | source | states |
|---|---|---|
| Privilege.StripPrivate | functions/api/__init__.py:80 | the result keeps exactly the non-private keys, with their values |
| Privilege.Sanitize | functions/api/__init__.py:78-81 | falsy or not-excluded metadata is returned unchanged; a truthy non-dictionary raises; a dictionary loses exactly its private keys |
| Privilege.SanitizeIdempotent | functions/api/__init__.py:78-81 | sanitizing a sanitized value changes nothing |
| Privilege.Authenticate | functions/api/__init__.py:67-76 | iff for every outcome: not found for a missing or empty workspace document, admin exactly when admin is allowed and the key equals the stored key, public when view is allowed otherwise, forbidden when neither, error when the stored key is missing |
| Privilege.ItemKeyOverride | functions/api/__init__.py:195-198 | no item key keeps the tier; a supplied key succeeds exactly when it equals the item's key, and the tier is then PRIVATE_KEY (even down from ADMIN); a mismatch or a missing item is forbidden |
| Privilege.ProcessItem | functions/api/__init__.py:118-140 | above PRIVATE_KEY the whole item plus `_p`; at or below it, hidden exactly when deleted, or, below PRIVATE_KEY, explicitly unpublished; the view has the four groups and `_p`, admin stripped of private keys, user stripped only below PRIVATE_KEY; when it raises |
| Privilege.NoPrivateKeysBelowAdmin | functions/api/__init__.py:118-140 | below ADMIN no private admin key is visible, and below PRIVATE_KEY no private user key |
| Privilege.DeletedItemsHiddenBelowAdmin | functions/api/__init__.py:119-122 | a deleted-flagged item is hidden from PRIVATE_KEY and PUBLIC and shown in full to ADMIN |
| Privilege.UnpublishedHiddenFromPublicOnly | functions/api/__init__.py:123-131 | an unpublished item is hidden from PUBLIC only |
| Geocoding.LastLocality | functions/api/__init__.py:52-56 | none exactly when no component is a locality; otherwise the long name of the last locality component |
| Geocoding.BaseUpdate | functions/api/__init__.py:34-51 | the fragment before the component loop always has the status and never a city |
| Geocoding.Fragment | functions/api/__init__.py:24-57 | a non-OK status gives the INITIAL marker; OK with no results raises; otherwise the status is OK or INACCURATE by location type, coordinates and address only when accurate, the city is the last locality, and no other key |
| Geocoding.Geocode | functions/api/__init__.py:34-57 | the step-by-step dictionary updates and the component loop produce `Fragment` |
| ItemsQuery.SplitOn | functions/api/__init__.py:153 | at least one part, none containing the separator |
| ItemsQuery.SplitOnLast | functions/api/__init__.py:102 | the last part is the suffix after the last separator, or the whole string when there is none |
| ItemsQuery.JoinSplitOn | functions/api/__init__.py:153 | joining the parts of a split gives the string back |
| ItemsQuery.SplitOnJoin | functions/api/__init__.py:153 | splitting a join of separator-free parts gives the parts back |
| ItemsQuery.SplitFields | functions/api/__init__.py:155 | at most three non-empty parts, the first two without whitespace, the third starting with non-whitespace |
| ItemsQuery.SplitFieldsRoundTrip | functions/api/__init__.py:155 | `field op value` with single spaces splits back into the three parts |
| ItemsQuery.FilterValue | functions/api/__init__.py:156-159 | the decoded JSON when decoding succeeds, the raw string otherwise |
| ItemsQuery.ParseFilter | functions/api/__init__.py:155-160 | succeeds exactly when the part splits into three; the filter holds those parts and the decoded value |
| ItemsQuery.Collect | functions/api/__init__.py:152-160 | succeeds exactly when every entry does, then yields their values in order; otherwise `Error` |
| ItemsQuery.ParseAll | functions/api/__init__.py:152-160 | succeeds exactly when every part parses; then one filter per part, in order |
| ItemsQuery.BuildFilters | functions/api/__init__.py:152-160 | the filter loop computes `ParseAll` of the `|`-split |
| ItemsQuery.ParseOrder | functions/api/__init__.py:161-165 | no ordering exactly when `order_by` is absent or empty; a leading `-` is removed and means descending |
| ItemsQuery.BuildQuery | functions/api/__init__.py:148-165 | no filters without a `filters` argument; otherwise the query succeeds exactly when all filters parse, and carries them |
| ItemsQuery.WithIds | functions/api/__init__.py:167 | every document gets its id under `id`; a document that already has `id` raises |
| ItemsQuery.Views | functions/api/__init__.py:171-175 | the visible items carry the caller's tier and, below ADMIN, hide private keys |
| ItemsQuery.Pull | functions/api/__init__.py:171-176 | the lazy pipeline yields the first `need` visible items and cannot fail when every item projects |
| ItemsQuery.Islice | functions/api/__init__.py:176 | fails only as an error, yields at most `stop - start` items, and cannot fail on in-range bounds when every item projects |
| ItemsQuery.Page | functions/api/__init__.py:176 | a page fails only as an error and holds at most `page_size` items |
| ItemsQuery.IsliceIsWindow | functions/api/__init__.py:176 | `islice(start, stop)` of projectable items is the window `[start, stop)` of the visible items |
| ItemsQuery.IsliceYieldsViews | functions/api/__init__.py:176 | the j-th item of the slice is visible item `start + j` |
| ItemsQuery.PageIsWindow | functions/api/__init__.py:176 | a page is the window `[page*page_size, (page+1)*page_size)` of the visible items, at most `page_size` long |
| ItemsQuery.PageViewsAtTier | functions/api/__init__.py:171-176 | every item on a page is shown at the caller's tier with private keys hidden below ADMIN |
| ItemsQuery.ListStream | functions/api/__init__.py:166-176 | a failing query stream and a duplicate `id` raise; a readable stream gives the page of its documents with ids attached |
| ItemsQuery.GetItems | functions/api/__init__.py:142-184 | not found for a missing workspace; success needs authentication, a parsed query and a readable stream; a failing query is a generic error and never index-required; a valid request on a readable stream returns the page of its documents at the caller's tier |
| ItemsQuery.GetItemsIsWindow | functions/api/__init__.py:142-184 | a valid request on a readable stream of projectable items returns the window `[page*page_size, (page+1)*page_size)` of the visible items |
| ItemsQuery.GetItemsPageBound | functions/api/__init__.py:142-184 | a returned page holds at most `page_size` items, each at the caller's tier, and a public caller sees no private key |
| ItemsQuery.ExtractIndexUrl | functions/api/__init__.py:180 | succeeds exactly when the message holds `https://`; the URL starts with it and holds no space after it |
| ItemsQuery.ClassifyFailure | functions/api/__init__.py:177-183 | the index phrase with a URL gives index-required with that URL; anything else is a generic error |
| ItemsQuery.GetItemsIndexAware | functions/api/__init__.py:142-184 | a failing query is classified by the `except` branch; a readable stream gives what `GetItems` gives |
| ItemsQuery.GetItemsIndexAwarePageBound | functions/api/__init__.py:142-184 | pages of the corrected handler keep the page guarantees |
| ItemsQuery.MissingIndexIsNotReported | functions/api/__init__.py:166-183 | a missing-index failure is a generic error as written and index-required once read inside the `try` |
| Api.ShortId | functions/api/__init__.py:102 | the item id is the part of the UUID after its last dash (all of it when there is none): a dash-free suffix preceded by a dash |
| Api.NewItem | functions/api/__init__.py:104 | the new item has exactly `key`, `info` (id and admin source), an empty `user` and the body as `admin` |
| Api.CreateItem | functions/api/__init__.py:97-106 | with the admin key the new item is stored under its short id and returned with `id`; otherwise the store is unchanged and the authentication failure is returned |
| Api.CreateRequiresAdminKey | functions/api/__init__.py:98-100 | creation succeeds only with the stored admin key |
| Api.NewItemKeyUnlocks | functions/api/__init__.py:103-104 | the new item's key unlocks it at PRIVATE_KEY tier, and any other key is forbidden |
| Api.NewItemPublicView | functions/api/__init__.py:132-138 | a new unflagged item is seen by the public with an empty user group and the admin group stripped of private keys |
| Api.GetWorkspace | functions/api/__init__.py:108-116 | the metadata with `_p`: all keys at ADMIN, exactly the public ones below it, and no value changed |
| Api.UpdateWorkspace | functions/api/__init__.py:242-249 | with the admin key only the workspace's `metadata` field is replaced; otherwise nothing changes |
| Api.WorkspaceRoundTrip | functions/api/__init__.py:108-116 | written metadata reads back in full with the admin key and as its public part with any other key |
| Api.GetItem | functions/api/__init__.py:186-202 | not found for a missing workspace or item; a mismatched item key is forbidden; a hidden item is forbidden; a visible one is returned as `ProcessItem` projects it at the resolved tier (PRIVATE_KEY with a matching item key); the result carries its tier and hides private keys below ADMIN |
| Api.ItemKeyHolderReadsUserGroup | functions/api/__init__.py:195-199 | the item-key holder reads the whole user group, private keys included |
| Api.PreparePayload | functions/api/__init__.py:216-220 | a non-dictionary body raises; the prepared body keeps every permitted key, drops private keys below PRIVATE_KEY (only the geocoding status is private then), adds the geocoding fragment for an address, and stamps `updated_at` |
| Api.PreparePayloadGeocodes | functions/api/__init__.py:218-219 | a body with an address is prepared exactly when the geocoder's response yields a fragment, and then carries every fragment field with its value |
| Api.MergeGroup | functions/api/__init__.py:222 | a missing group starts empty and is merged; a non-dictionary group raises |
| Api.UpdateTier | functions/api/__init__.py:206-214 | the workspace tier, or PRIVATE_KEY when a matching item key is supplied |
| Api.UpdatePlan | functions/api/__init__.py:204-229 | an authentication or item-key failure is passed on; a missing item or non-dictionary `info` raises; a failing body raises; otherwise PUBLIC is forbidden, ADMIN writes the admin group and PRIVATE_KEY the user group, each exactly the merge of the prepared body, and a non-dictionary group raises |
| Api.UpdateItem | functions/api/__init__.py:204-229 | exactly the planned group is written and returned; otherwise the store is unchanged |
| Api.UpdateThenReadUserGroup | functions/api/__init__.py:225-228 | after an item-key update, a read with the same key returns the written user group |
| Api.UpdateThenReadAdminGroup | functions/api/__init__.py:221-224 | after an admin update, an admin read returns the item with the written admin group |
| Api.DeleteVerdict | functions/api/__init__.py:231-240 | deletion succeeds exactly with the admin key on a present item without official records; official records are forbidden; a missing item raises |
| Api.DeleteItem | functions/api/__init__.py:231-240 | exactly the item is removed on success, nothing otherwise |
| Api.Pruned | functions/api/__init__.py:257-259 | the removed documents are exactly the workspace's items whose id does not start with a dot |
| Api.PrunedIdempotent | functions/api/__init__.py:257-259 | repeating the bulk delete removes nothing more |
| Api.DeleteItems | functions/api/__init__.py:251-260 | with the admin key the store becomes `Pruned`; an empty id raises; no document is changed and only removable ones disappear |
| Store.MergeFields | functions/process_data/__init__.py:72 | merging overwrites the given top-level fields whole and keeps every other stored field; nested maps are not merged key by key |
| Ingestion.AddOptions | functions/process_data/__init__.py:93-95 | every non-empty option maps to the row's city; other aliases are kept |
| Ingestion.AliasTable | functions/process_data/__init__.py:91-95 | every alias is a non-empty option cell of some row and maps to that row's city |
| Ingestion.AliasTableDomain | functions/process_data/__init__.py:91-95 | the aliases are exactly the non-empty option cells |
| Ingestion.AliasTableLastWins | functions/process_data/__init__.py:91-95 | an alias maps to the city of the last row that lists it |
| Ingestion.BuildAliasTable | functions/process_data/__init__.py:91-95 | the nested loops compute `AliasTable` |
| Ingestion.Cities | functions/process_data/__init__.py:90 | the canonical names in file order |
| Ingestion.MapNames | functions/process_data/__init__.py:38-43 | an alias is replaced by its city once; nothing else changes |
| Ingestion.Whitelisted | functions/process_data/__init__.py:102 | the row's city is a string among the canonical names; `RenamedRowPasses` states it after renaming |
| Ingestion.RenamedRowPasses | functions/process_data/__init__.py:100-102 | a row passes the whitelist exactly when its name, read once through the alias table, is canonical |
| Ingestion.Replace | functions/process_data/__init__.py:51 | character-by-character replacement that keeps the length |
| Ingestion.Transliterate | functions/process_data/__init__.py:51 | the three chained replacements; `TransliterateSpec` states their effect |
| Ingestion.CitySlug | functions/process_data/__init__.py:51 | `slugify.slugify` of the transliterated city; `SlugsSeparate` states how the run keeps city slugs apart |
| Ingestion.TransliterateSpec | functions/process_data/__init__.py:51 | the transliteration maps each character and leaves no alef, ayin or vav |
| Ingestion.IdSlug | functions/process_data/__init__.py:57 | the id slug is the digest's prefix of at most eight characters |
| Ingestion.IdSlugShape | functions/process_data/__init__.py:57 | for a hex digest, the id slug is eight hex digits and never `.config` |
| Ingestion.AdmitCity | functions/process_data/__init__.py:50-54 | a known city changes nothing; a new city is cached with its slug, and the slug is taken |
| Ingestion.SlugStep | functions/process_data/__init__.py:48-60 | the slug cache invariant is kept and taken slugs only grow; it aborts on a taken city slug exactly when the city is new and its slug is taken; past that check the row is slugged exactly when its `_id` is a string whose id slug is still free, aborting otherwise with the matching failure; a slugged row carries the cached city slug and the id slug, which is then taken |
| Ingestion.SluggedRowShape | functions/process_data/__init__.py:48-60 | a slugged row carries its city's own slug and an id slug distinct from every slug taken before |
| Ingestion.RepeatedIdAborts | functions/process_data/__init__.py:57-59 | a second row with the same `_id` aborts the run |
| Ingestion.SlugStage.Apply | functions/process_data/__init__.py:48-60 | the closure's in-place updates compute `SlugStep` |
| Ingestion.NewConfig | functions/process_data/__init__.py:76-81 | the config holds exactly the fresh key and the city metadata |
| Ingestion.LoadStep | functions/process_data/__init__.py:70-82 | the row is merged into `<city-slug>/<id-slug>`; on the first row of a slug a missing config is created; no other document changes |
| Ingestion.StorageLoader.Load | functions/process_data/__init__.py:70-82 | the closure's writes compute `LoadStep` |
| Ingestion.LoadStepAsWritten | functions/process_data/__init__.py:72-75 | the existence probe raises exactly on the first row of a slug |
| Ingestion.ConfigNeverCreatedAsWritten | functions/process_data/__init__.py:73-81 | as written no config is created; with the probe read as a property it is |
| Ingestion.Stage | functions/process_data/__init__.py:100-104 | a row not on the whitelist changes nothing; an abort keeps the store and the loaded rows; otherwise at most this one row is appended, carrying its slugs, and the store is its `LoadStep` |
| Ingestion.RunRows | functions/process_data/__init__.py:97-106 | the rows loaded extend the starting ones by at most one per input row |
| Ingestion.StoppedStaysStopped | functions/process_data/__init__.py:97-106 | once a row aborts the run, later rows change nothing |
| Ingestion.SlugStepKeepsRunInv | functions/process_data/__init__.py:48-60 | every slug step keeps the run's slug invariant |
| Ingestion.LoadStepKeepsDocsInv | functions/process_data/__init__.py:70-82 | every load step keeps the store invariant |
| Ingestion.RunRowsKeepsInv | functions/process_data/__init__.py:97-106 | every state of the run satisfies the slug and store invariants |
| Ingestion.SlugsSeparate | functions/process_data/__init__.py:48-60 | rows share a city slug exactly when they share a city, and no id slug is a city slug |
| Ingestion.ConfigsKept | functions/process_data/__init__.py:73-82 | every loaded slug has a config and an existing config is never rewritten |
| Ingestion.RowsShaped | functions/process_data/__init__.py:56-57 | every loaded row of a reachable state is whitelisted and carries its own city slug and id slug |
| Ingestion.RunSlugGuarantees | functions/process_data/__init__.py:97-106 | after the run, completed or stopped, loaded rows are whitelisted with their own slugs, id slugs are distinct and never a city slug, and rows share a city slug exactly when they share a city |
| Ingestion.RunStoreGuarantees | functions/process_data/__init__.py:97-106 | after the run every loaded row is merged over the document it lands on, every loaded slug has a config, existing configs are unchanged and no other document changes |
| Ingestion.FeedRow | functions/process_data/__init__.py:100-104 | one row through rename, whitelist, slug stage and loader moves the stage objects and the store to what `Stage` yields |
| Ingestion.ProcessData | functions/process_data/__init__.py:86-106 | the loop over the rows computes `RunRows`, and reports the failure that stopped it |

## Left out

- Firestore, Flask and HTTP transport are left out. The store is a map from
  (collection path, id) to top-level fields. Request headers, arguments and bodies
  are parameters.
- `uuid.uuid4`, `datetime.now`, `json.loads`, `slugify.slugify`, `hashlib.md5` and
  the geocoding HTTP call are parameters and are not modelled.
- Query evaluation by the database (`where`, `order_by`, composite indexes) is a
  parameter `run` from the parsed query to its stream. Filter semantics are not
  modelled.
- `count` in process_data passes every row on unchanged. Its tallies and
  `errors.txt` writes are file output, so the stage is not modelled.
- `DF.load` and the `records` type cast, `DF.add_field` and `DF.printer` are not
  modelled. Rows arrive already decoded.
- `print` calls and logging are not modelled.
- Floating-point coordinates are carried as opaque JSON values and never inspected.
- The commented-out `create_workspace` and `generate_keys` are not modelled.
- A geocoder response missing `geometry`, `location` or `address_components` is
  not modelled. The response is a typed record, so the missing-key errors of those
  lookups are not represented.
- Flask's own rejection of a non-JSON request body is not modelled. A body that is
  not a dictionary is `Error` where the code would raise.
- `Store.MergeFields`: Firestore's `set(..., merge=True)` merges nested maps field by
  field, while the model replaces each given top-level field whole. A row field that
  holds a map therefore drops the stored sub-keys in the model but keeps them in the
  store. Ingestion rows hold strings and the `records` array, which a merge replaces
  whole as well, so only map-valued fields (in update bodies, say) are affected.
- `ProcessItem`: at ADMIN tier the code writes `_p` into the item dictionary it was
  given (aliasing). The model returns a new view; the mutation is invisible to every
  caller.
- `Ingestion.ProcessData`: every row is required to have a `city` field, as the CSV
  schema guarantees. A missing column would raise `KeyError`.
- `Ingestion.RunSlugGuarantees` and `Ingestion.RunStoreGuarantees`: require the digest function to return 32 hex digits, as
  MD5 `hexdigest()` does. The other stages require nothing of the digest.
- `Api.DeleteItems`: when a document with an empty id is reached, the reply is an
  error. The contract then states only that removed documents were removable, not
  which ones went before the failure, because that depends on stream order.
- The `main.py` entry point is not part of this model.

## Findings

| source | as written | input that shows it | evidently intended | confidence | as-written member | corrected member |
|---|---|---|---|---|---|---|
| functions/api/__init__.py:166-183 | the query stream is consumed by `list(items)` on line 168, before the `try`, so the database's missing-index exception propagates as a generic 500 | a `filters` plus `order_by` request that needs a missing composite index; the error message contains "The query requires an index" and an `https://` URL | the 412 `index-required` reply with the remediation URL | medium, not executed | ItemsQuery.GetItems | ItemsQuery.GetItemsIndexAware |
| functions/process_data/__init__.py:75-77 | `config.get().exists()` calls the boolean `exists` property of the snapshot and raises `TypeError`; `hashlib.uuid4` does not exist either | the first whitelisted row of any city | create the city's `.config` with a fresh UUID key when it is absent, and go on | high, not executed | Ingestion.LoadStepAsWritten | Ingestion.LoadStep |

- For the first row, `ItemsQuery.MissingIndexIsNotReported` exhibits the discrepancy.
- For the second row, `Ingestion.ConfigNeverCreatedAsWritten` exhibits it.
- The corrected members are the ones `ProcessData` uses (through `StorageLoader.Load`)
  and the ones `GetItemsIndexAwarePageBound` reasons about.
