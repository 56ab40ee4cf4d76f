# decipher-vod-files, modelled in Dafny

This project models the AWS Lambda handler `decipher-vod-files.py`. The handler keeps the
video catalogue of a Danzan Ryu jujitsu site in step with newly transcoded videos.

When it receives an SNS notification whose subject contains `Complete`, it works as follows:

- It takes the stub of the video's `hlsUrl` (the last path segment without its extension). The
  stub must start with the art character `d`.
- The next character picks one of fifteen scrolls (`n` basic_nage, `g` goshin, `a`
  advanced_weapons, ...).
- The scroll's name gives the DynamoDB table (`basic_nage` → `BasicNageModel...`).
- The scroll's handler builds an attribute filter from fixed stem positions, or from the first run
  of digits. The first record of the table that satisfies the filter is the technique.
- If the stub ends in `z`, the record's `Variations` list is emptied. Otherwise the new URL
  replaces every variation with the same stub, or is appended when there is none. The list is
  then sorted by stub, and the record is written back.

Modules, one file each:

- `wrappers.dfy`, `errors.dfy`: `Option`/`Result`, and one error value per way the modelled
  handler can raise (a record without a `Variations` attribute is not modelled; see "Left out").
- `stem_codec.dfy` (`StemCodec`): `remove_char`, the URL path (a simplified `urlparse`), the last
  segment, `Path.stem`, `get_stub`, and `convert_to_camel_case` with Python's `split`/`join`.
- `taxonomy.dfy` (`Taxonomy`): the four closed code tables and the table-name prefix.
- `catalog.dfy` (`Catalog`): records, attribute filters, the scan-and-take-first lookup, and the
  `Store` class (the DynamoDB tables, changed in place by `put_item`).
- `stub_order.dfy` (`StubOrder`): Python's string order, and the stable sort `list.sort(key=...)`.
- `key_builder.dfy` (`KeyBuilder`): the per-scroll key derivation of the `handle_*` functions and
  `handle_scroll`.
- `variations.dfy` (`Variations`): `extract_stub_list`, the replace-or-append merge and sort, and
  the `TechniqueRecord` class whose `Variations` field `update_technique_list` and
  `reset_technique_list` change in place.
- `naming.dfy` (`Naming`): the naming convention that produces the file names, stated so that the
  decoder can be shown to invert it.
- `dispatcher.dfy` (`Dispatcher`): `handle_danzan_ryu` and `lambda_handler`, twice over:
  - as a decision (`Plan`) plus an effect on the tables (`Effect`);
  - as methods that carry the decision out on a `Store` and are proved equal to it.
- `scenarios.dfy` (`Scenarios`): worked cases on concrete stems.

Points about the code as written, which the model follows:

- The trailing `z` is not stripped before the key is derived. The key functions read fixed
  positions or the first digit run. The `z` therefore reaches the key only when the field in
  front of it is missing: `giz` keys `Number == "z"`, `t1z` keys `Number == "z"`, and `s1z`
  keys `Letter == "z"`.
- When several records satisfy the filter, the first one is taken; this is not an error.
- When the list already holds several variations with the new stub, each of them is overwritten
  by the URL, so the list keeps one copy of the URL per such entry.
- The table handle is lazy, so a missing table is noticed only by the scan, after the key has
  been derived: a key error comes before a missing table.
- The lookup runs before the reset check, so a reset also needs a matching record.
- A reset writes the record even when its list is already empty.
- A stub that does not start with `d` raises "Invalid video file name".

## Model

| member | source | states |
|---|---|---|
| StemCodec.RemoveChar | decipher-vod-files.py:15-25 | length drops by one exactly when n is an index; characters before n are kept, and characters after n shift down by one |
| StemCodec.Find | decipher-vod-files.py:122 | index of the first occurrence of c, or the length when c is absent |
| StemCodec.RFind | decipher-vod-files.py:122-124 | index of the last occurrence of c, or -1 when c is absent |
| StemCodec.LastSegmentSpec | decipher-vod-files.py:122 | `path.split('/')[-1]` holds no '/', is a suffix of the path, and follows a '/' or is the whole path |
| StemCodec.PathStemSpec | decipher-vod-files.py:124 | `Path.stem` is a prefix of the name, and equals the name unless the name holds a '.' |
| StemCodec.UrlPath | decipher-vod-files.py:122 | `urlparse(file_url).path`, simplified; specified by UrlPathOfHttpsUrl |
| StemCodec.LastSegment | decipher-vod-files.py:122 | `path.split('/')[-1]`; specified by LastSegmentSpec and LastSegmentAfterSlash |
| StemCodec.PathStem | decipher-vod-files.py:124 | `Path(...).stem`; specified by PathStemSpec and PathStemOfSuffixedName |
| StemCodec.GetStub | decipher-vod-files.py:115-124 | `get_stub`; specified by GetStubHasNoSlash and StubOfHttpsUrl |
| StemCodec.ConvertToCamelCase | decipher-vod-files.py:105-112 | `convert_to_camel_case`; specified by Split, SplitJoin, CamelPartsAppend, CamelPartsHasNoUnderscore and CamelCaseWithModel |
| StemCodec.Contains | decipher-vod-files.py:544 | the `"Complete" in subject` test; specified through Plan, which ignores exactly the subjects it rejects |
| StemCodec.PathStemOfSuffixedName | decipher-vod-files.py:124 | the stem of `base.ext` is base, for a non-empty base and an extension without '.' |
| StemCodec.LastSegmentAfterSlash | decipher-vod-files.py:122 | the last segment of `dir/name` is name when name holds no '/' |
| StemCodec.UrlPathOfHttpsUrl | decipher-vod-files.py:122 | the path of `https://host/path` (no query, no fragment; the host may carry a port) is /path |
| StemCodec.GetStubHasNoSlash | decipher-vod-files.py:115-124 | a stub never holds a '/' |
| StemCodec.StubOfHttpsUrl | decipher-vod-files.py:115-124 | the stub of `https://host/dir/base.ext` is base |
| StemCodec.LowerAll | decipher-vod-files.py:112 | the lower-case copy, character by character |
| StemCodec.CapitalizeOrUnderscore | decipher-vod-files.py:112 | `x.capitalize() or '_'` is never empty |
| StemCodec.Split | decipher-vod-files.py:112 | `str.split` yields at least one part, and no part holds the separator |
| StemCodec.SplitJoin | decipher-vod-files.py:112 | joining the parts with the separator gives the string back |
| StemCodec.SplitAppend | decipher-vod-files.py:112 | splitting `a + sep + b` gives the parts of a followed by the parts of b |
| StemCodec.CamelPartsAppend | decipher-vod-files.py:112 | the camel-case join distributes over concatenation of the parts |
| StemCodec.CamelPartsHasNoUnderscore | decipher-vod-files.py:112 | when no part is empty, the camel-case name has no '_' |
| StemCodec.CamelCaseWithModel | decipher-vod-files.py:445-447 | appending "_model" to a scroll name appends "Model" to its camel-case form |
| Taxonomy.GetScrollId | decipher-vod-files.py:28-53 | defined on exactly the fifteen characters `ngstfukoivjaydx`; the name it returns is written back as the same character |
| Taxonomy.GetWeaponId | decipher-vod-files.py:56-70 | defined on exactly `tfur`; inverse of the weapon codes |
| Taxonomy.GetKdmId | decipher-vod-files.py:73-87 | defined on exactly `pkiu`; inverse of the drill codes |
| Taxonomy.GetGoshinId | decipher-vod-files.py:90-102 | defined on exactly `io`; inverse of the direction codes |
| Taxonomy.ScrollCodesRoundTrip | decipher-vod-files.py:36-53 | decoding a scroll's code gives the scroll back |
| Taxonomy.WeaponCodesRoundTrip | decipher-vod-files.py:64-70 | decoding a weapon's code gives the weapon back |
| Taxonomy.KdmCodesRoundTrip | decipher-vod-files.py:81-87 | decoding a drill type's code gives the drill type back |
| Taxonomy.GoshinCodesRoundTrip | decipher-vod-files.py:98-102 | decoding a direction's code gives the direction back |
| Taxonomy.TableNamePrefix | decipher-vod-files.py:434-447 | the prefix searched for is the camel-case scroll name followed by "Model" |
| Catalog.Satisfies | decipher-vod-files.py:205-206 | a record satisfies a conjunction of `Attr(name).eq(value)` conditions; specified by SatisfiesSingle, SatisfiesPair and SatisfiesReadsAttributes |
| Catalog.SatisfiesSingle | decipher-vod-files.py:153 | a one-condition filter holds exactly when the record has that attribute value |
| Catalog.SatisfiesPair | decipher-vod-files.py:205-206 | `Attr(a).eq(x) & Attr(b).eq(y)` holds exactly when both attribute values match |
| Catalog.FirstMatch | decipher-vod-files.py:153-154 | `scan(...)['Items'][0]` is a record satisfying the filter with none before it; it is absent exactly when no record satisfies the filter |
| Catalog.SatisfiesReadsAttributes | decipher-vod-files.py:153 | a filter reads only attributes |
| Catalog.FirstMatchReadsAttributes | decipher-vod-files.py:153-154 | tables that agree on attributes position by position give the same scan result |
| Catalog.Store.PutItem | decipher-vod-files.py:497 | `put_item` overwrites the record at its slot, and leaves every other record of every table unchanged |
| StubOrder.LessEq | decipher-vod-files.py:134 | Python's `<=` on the stubs the sort compares; specified by LessEqTotal, LessEqAntisymmetric and LessEqTransitive |
| StubOrder.LessEqTotal | decipher-vod-files.py:134 | Python's string order is total |
| StubOrder.LessEqAntisymmetric | decipher-vod-files.py:134 | Python's string order is antisymmetric |
| StubOrder.LessEqTransitive | decipher-vod-files.py:134 | Python's string order is transitive |
| StubOrder.SortBy | decipher-vod-files.py:134 | the sort is a permutation of its input, ordered by key |
| StubOrder.SortStable | decipher-vod-files.py:134 | the sort is stable: for every key, the entries with that key keep their relative order |
| StubOrder.StableSortUnique | decipher-vod-files.py:134 | two key-ordered lists with the same entries per key, in the same order, are equal, so every stable sort gives this list |
| StubOrder.SortSortedIsIdentity | decipher-vod-files.py:134 | sorting a list already in key order leaves it unchanged |
| KeyBuilder.FirstDigitIndex | decipher-vod-files.py:150 | index of the first digit, or the length when there is none |
| KeyBuilder.DigitRunLength | decipher-vod-files.py:150 | length of the maximal run of digits at the start |
| KeyBuilder.FirstDigitRun | decipher-vod-files.py:150-151 | `re.findall(r'\d+', s)[0]` is absent exactly when s has no digit; otherwise it is the maximal digit run starting at the first digit |
| KeyBuilder.FirstDigitRunOfNumber | decipher-vod-files.py:150-151 | a number followed by a non-digit is its own first digit run |
| KeyBuilder.SimpleTableKey | decipher-vod-files.py:138-156 | fails exactly when no digit follows the scroll character; otherwise selects the records whose `Number` is the first digit run after it |
| KeyBuilder.BasicWeaponsKey | decipher-vod-files.py:192-209 | succeeds exactly on stems of length at least 3; selects `Set == stem[1]` and `Number == stem[2]` |
| KeyBuilder.AdvancedWeaponsKey | decipher-vod-files.py:245-260 | succeeds exactly when stem[1] is a weapon code and stem[2] exists; an unknown code fails before the length check; selects the decoded weapon and `Number == stem[2]` |
| KeyBuilder.KdmKey | decipher-vod-files.py:263-278 | the same for the drill-type table, keyed on `DrillType` and `Number` |
| KeyBuilder.ShimeKey | decipher-vod-files.py:292-308 | succeeds exactly on stems of length at least 3; selects `GroundFlowNumber == stem[1]` and `Letter == stem[2]` |
| KeyBuilder.GoshinKey | decipher-vod-files.py:322-336 | the same for the direction table, keyed on `Enter` and `Number` |
| KeyBuilder.HandlerOf | decipher-vod-files.py:372-431 | every one of the fifteen scrolls has exactly one handler, of the shape the if/elif chain gives it; no other name has one |
| KeyBuilder.DeriveKey | decipher-vod-files.py:372-431 | the "Unknown scroll" failure happens exactly for names outside the fifteen scrolls |
| KeyBuilder.HandleScroll | decipher-vod-files.py:372-431 | on success, the index of the first record satisfying the derived key; a key error is passed on unchanged; a derivable key that some record satisfies gives success; "no matching record" exactly when the key derives and no record satisfies it |
| KeyBuilder.HandleScrollReadsAttributes | decipher-vod-files.py:372-431 | the lookup reads only the records' attributes |
| KeyBuilder.ScrollIdsAreHandled | decipher-vod-files.py:36-53 | no scroll that `get_scroll_id` returns reaches the "Unknown scroll" branch at line 429 |
| Variations.Keys | decipher-vod-files.py:459-471 | one key per entry |
| Variations.KeysSpec | decipher-vod-files.py:459-471 | the i-th key is the key of the i-th entry |
| Variations.CollectKeys | decipher-vod-files.py:466-471 | the loop collects the keys of all entries, in order |
| Variations.ExtractStubList | decipher-vod-files.py:459-471 | `extract_stub_list` gives the stub of every variation, in order |
| Variations.Merge | decipher-vod-files.py:485-494 | replace every entry with the new stub, or append when there is none; specified by MergeReplaces, ReplaceKeepsCount and MergeIdentity |
| Variations.Reconcile | decipher-vod-files.py:485-496 | the merge followed by the sort by stub; specified by ReconcileReplaces, ReconcileKeepsOthers, ReconcileLength, ReconcileKeepsOrder, ReconcileSorted and ReconcileIdempotent |
| Variations.ReplaceListed | decipher-vod-files.py:489-491 | each entry whose listed key is k becomes the URL; every other entry is kept; the length is unchanged |
| Variations.SortUrlByStub | decipher-vod-files.py:127-135 | a permutation, ordered by stub, with every stub's entries in their old order |
| Variations.ReplaceListedReplaces | decipher-vod-files.py:487-491 | when the new stub is listed, the URL is present afterwards and every entry with its stub is the URL (one copy per entry that had the stub) |
| Variations.MergeReplaces | decipher-vod-files.py:485-494 | after the replace-or-append step, the URL is present and every entry with its stub is the URL (one copy per entry that had the stub) |
| Variations.ReconcileReplaces | decipher-vod-files.py:485-496 | after the update, the URL is in `Variations` and every entry with its stub is the URL (one copy per entry that had the stub) |
| Variations.ReplaceKeepsCount | decipher-vod-files.py:489-491 | an entry with another key keeps its number of occurrences |
| Variations.ReconcileKeepsOthers | decipher-vod-files.py:485-496 | every URL whose stub differs from the new stub occurs as often as before |
| Variations.ReconcileLength | decipher-vod-files.py:487-494 | the length is unchanged when the stub was listed, and grows by one otherwise |
| Variations.ReconcileKeepsOrder | decipher-vod-files.py:485-496 | for every other stub, the entries with that stub keep their order |
| Variations.ReconcileSorted | decipher-vod-files.py:496 | after the update the list is in stub order |
| Variations.ReplaceListedIdentity | decipher-vod-files.py:489-491 | replacing entries that already equal the URL changes nothing |
| Variations.MergeIdentity | decipher-vod-files.py:485-494 | merging a URL into a list where it is present and every entry with its stub already is the URL changes nothing |
| Variations.ReconcileIdempotent | decipher-vod-files.py:485-496 | updating twice with the same URL gives the list that updating once gives |
| Variations.TechniqueRecord.ReplaceListedEntries | decipher-vod-files.py:489-491 | the in-place loop leaves the list that `ReplaceListed` describes |
| Variations.TechniqueRecord.UpdateTechniqueList | decipher-vod-files.py:474-498 | `Variations` becomes the reconciled list; attributes are kept; exactly this record is written back; one put |
| Variations.TechniqueRecord.ResetTechniqueList | decipher-vod-files.py:501-512 | `Variations` becomes empty and the record is written back, even when it was already empty |
| Naming.RemoveArtChar | decipher-vod-files.py:551-553 | a file stem of the convention starts with `d`; removing it gives the stem back |
| Naming.SimpleKeyOfNumber | decipher-vod-files.py:138-156 | a number after the scroll character, with or without the marker, keys `Number` on that number |
| Naming.DecodeScrollAndReset | decipher-vod-files.py:28-53 | the scroll character decodes to the technique's scroll; the stem ends in `z` exactly when a reset is asked for |
| Naming.DecodeKeyNumbered | decipher-vod-files.py:138-156 | the simple-table scrolls derive the technique's number key |
| Naming.DecodeKeySetNumbered | decipher-vod-files.py:192-209 | the basic weapon scrolls derive the set/number key |
| Naming.DecodeKeyArmed | decipher-vod-files.py:245-260 | advanced_weapons derives the weapon/number key |
| Naming.DecodeKeyDrill | decipher-vod-files.py:263-278 | kdm derives the drill-type/number key |
| Naming.DecodeKeyFlowLetter | decipher-vod-files.py:292-308 | shime derives the flow/letter key |
| Naming.DecodeKeyEntering | decipher-vod-files.py:322-336 | goshin derives the direction/number key |
| Naming.DecodeInvertsNaming | decipher-vod-files.py:372-431 | decoding inverts the convention: scroll, key and reset flag all come back |
| Dispatcher.PlanDanzanRyu | decipher-vod-files.py:515-533 | an acting plan names an existing record; it resets exactly when the stem ends in `z`; an empty stem or an unknown scroll character fails; "Unknown scroll" never occurs |
| Dispatcher.KeyErrorBeforeTable | decipher-vod-files.py:525-528 | a stem whose key cannot be derived fails with the key's error, whether or not the resolved table exists |
| Dispatcher.Plan | decipher-vod-files.py:536-560 | ignores exactly the notifications without "Complete"; a stub without `d` is rejected as an invalid file name; "Unknown scroll" never occurs |
| Dispatcher.Rewritten | decipher-vod-files.py:526-533 | after an update, the URL is listed and every entry with its stub is the URL (one copy per entry that had the stub), the list is in stub order, and it grew by one exactly when the stub was new; after a reset the list is empty; the attributes are kept |
| Dispatcher.Effect | decipher-vod-files.py:515-533 | the same tables and lengths; the one designated record is rewritten, and every other record is unchanged |
| Dispatcher.HandleDanzanRyu | decipher-vod-files.py:515-533 | the method returns the plan and leaves the tables as the plan's effect; one put on success, and nothing written on failure |
| Dispatcher.Perform | decipher-vod-files.py:526-533 | reading the record, resetting or updating it, and writing it back is the plan's effect |
| Dispatcher.LambdaHandler | decipher-vod-files.py:536-560 | the method returns the plan and leaves the tables as its effect; exactly one put when it acts, and no put and no change when it is ignored or fails |
| Dispatcher.PlanActsOnFirstMatch | decipher-vod-files.py:524-528 | an acting plan names the first record, in the resolved table, that satisfies the derived key |
| Dispatcher.NoMatchNoAction | decipher-vod-files.py:528-530 | with no matching record the notification fails, even when a reset is asked for |
| Dispatcher.PlanReadsAttributes | decipher-vod-files.py:515-533 | the decision depends on the records' attributes only, not on their variations |
| Dispatcher.SameLookupSamePlan | decipher-vod-files.py:515-533 | the decision depends on the resolved table only through the lookup |
| Dispatcher.EffectKeepsAttributes | decipher-vod-files.py:474-512 | an action keeps every attribute of every record |
| Dispatcher.RewrittenIdempotent | decipher-vod-files.py:474-512 | rewriting a record twice the same way equals rewriting it once |
| Dispatcher.EffectIdempotent | decipher-vod-files.py:515-533 | carrying out an action twice equals carrying it out once |
| Dispatcher.ReplayIsHarmless | decipher-vod-files.py:536-560 | redelivering a notification takes the same decision and leaves the tables as the first delivery left them |
| Dispatcher.PlanOfDecodedStem | decipher-vod-files.py:515-533 | once scroll and key are known, the outcome is fixed by the table resolution and the scan: no table, table not found, no match, or reset/update of the first match |
| Dispatcher.PlanOfNamedFile | decipher-vod-files.py:536-560 | a "Complete" notification for the https URL of any well-formed technique name resets or updates the first record carrying the technique's key (or fails for the stated reason); it resets exactly when a reset was named |
| Scenarios.GoshinInsideTwo | decipher-vod-files.py:322-336 | goshin stem `gi2` keys `Enter == "inside"` and `Number == "2"` |
| Scenarios.BasicNageThree | decipher-vod-files.py:138-156 | basic_nage stem `n3` keys `Number == "3"` |
| Scenarios.BasicNageTableName | decipher-vod-files.py:445-447 | basic_nage is looked up under `BasicNageModel` |
| Scenarios.UpdateOfEmptyList | decipher-vod-files.py:474-498 | updating an empty list leaves exactly the new URL |
| Scenarios.GoshinStemPlan | decipher-vod-files.py:515-533 | goshin inside/2 is updated without the marker and reset with it |
| Scenarios.ResetAndUpdateOfSameRecord | decipher-vod-files.py:515-533 | `gi2` updates and `gi2z` resets the same record |

## Left out

- Every scanned record is taken to carry a `Variations` list (`Catalog.Item` always has one). For a record without that attribute, `update_technique_list` raises a KeyError at `data['Variations']` (decipher-vod-files.py:486) and writes nothing, while `reset_technique_list` (decipher-vod-files.py:510) would create the attribute and write the record; neither case is modelled.
- The AWS SDK is not modelled (`boto3.client('dynamodb').list_tables`, `boto3.resource('dynamodb').Table`, `scan`, `put_item`). The DynamoDB tables are one `Store` object mapping a table name to a sequence of records.
- A record's primary key is its position in its table: `put_item` overwrites the record at the position the scan found it. Scan pagination and DynamoDB's result order are not modelled.
- The table name is not computed from `list_tables(ExclusiveStartTableName=..., Limit=1)`. It is a parameter `resolve`: for a prefix, it gives the first table name after it, or none. Only the camel-case prefix is computed.
- A resolved table name missing from the store (`TableNotFound`) stands for the error DynamoDB raises on a scan of a missing table; it is raised after the key is derived, as the scan is.
- The SNS event's JSON shape and `json.loads` are not modelled: the subject and `hlsUrl` are plain string inputs. The `context` argument and all `print` logging are left out.
- Failures are modelled as `Err` values. Python's `IndexError`/`KeyError`/`Exception` are not distinguished beyond the `Error` constructors.
- `urlparse` is simplified: it cuts at the first `#`, then at the first `?`, then drops a `scheme:` prefix (an ASCII letter, then letters, digits, `+`, `-` or `.`), then drops a `//authority`. Its other rules (netloc validation, IPv6 brackets, `;params`) are not modelled.
- `Path.stem` follows the rule of Python up to 3.12: the suffix is cut when the last `.` is neither the first nor the last character, and `"."` gives `""`. The 3.14 change, which treats a trailing `.` as a suffix, is not modelled.
- `str.capitalize`, `str.lower` and `\d` are modelled on ASCII only. Unicode title case and Unicode digits are not.
- Concurrency between Lambda invocations (last writer wins) is not modelled: each invocation runs alone.
- StubOrder.SortBy: Python's `list.sort` (Timsort) is modelled by a stable insertion sort. `StableSortUnique` shows that any stable sort by the same key gives the same list.
- Variations.ReconcileReplaces: the merge and sort are specified for any key function. The record's methods apply them with `GetStub`.
- Dispatcher.Plan: it does not state that a stub starting with `d` is never rejected as an invalid file name. It states the rejection for stubs without `d`, and `PlanOfNamedFile` covers the accepted names.
- Naming.Wellformed: the naming convention excludes a `z` as the last field of a technique. With the code as written, such a technique (for example shime flow 1, letter `z`, stem `s1z`) can only ever be reset, never updated.
