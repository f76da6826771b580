# Hestia core, modelled in Dafny

Hestia is a hierarchical storage management (HSM) system. This project models the self-contained logic at its core, and proves what that logic promises:

- **S3 path parsing.** `S3Path::from_path_only` is a four-state scanner. It splits a request path into a container name, an object id and a query string. The two constructors are modelled too: the path-only one and the one that reads the Host header.
- **The `Dictionary` tree.** A dictionary is a scalar, a sequence or a map of dictionaries. The model covers:
  - `merge`, `copy_from` and assignment;
  - `set_map`, `set_map_item` and `add_sequence_item`;
  - flattening into delimited keys;
  - `get_scalar` and `has_key_and_value` over nested keys;
  - `get_scalars` and `get_map_items`.
- **`CompositeLayer` bookkeeping in the HSM service.** A layer holds two offset-keyed extent lists with delete marks. Layers are ordered by priority alone.
- **The C API's mappings and formatters** from `hestia.cc`:
  - item kinds to HSM item types;
  - identifier and attribute flag sets to CRUD formats;
  - the response body built by `process_results`;
  - the NUL-terminated copy made by `str_to_char`.
- **The key-value CRUD client's keys.** This covers item, set, field and lock key names, `get_item_keys`, and the keys and requests that `remove` sends.
- **Scalar serialization fields.** The text round trips of the string, boolean, unsigned-integer and date-time fields. `std::stoul` and `std::stoull` are modelled in `Decimal`.
- **Object store backends.** The classification of backends by type, and the typed constructor, copy, assignment and tier-name accessors.
- **Key-value store requests.** The method names and the two constructors.

Where the source changes state in place, the model is a class with those fields. Each of its methods is proved against a function of the old state. Where the source computes a value, the model is a function, with lemmas stating what it computes.

Calls to the key-value store, the HTTP request object and the standard library are modelled as follows:
- The store's answers to `make_request` are parameters. The requests sent are results.
- An HTTP request is its Host header and path.
- `std::stoul`/`std::stoull` are written out in `Decimal` with their documented behaviour. That behaviour covers leading white space, an optional sign, negation modulo 2^64, `invalid_argument` and `out_of_range`.

Where a piece of the source evidently does not do what its authors intended, the code as written is kept in a function or lemma that exhibits the discrepancy. The corrected definition, with the intended property proved, is what the methods use. See "## Findings".

The S3 path parser puts a '?' that follows the leading slashes into the container name. So the container is free of '?' except possibly at its first character, not everywhere as one would expect. The model follows the code (`S3Path.ContainerShape`, `S3Path.LeadingQueryJoinsContainer`).

## Model

| member | source | states |
|---|---|---|
| S3Path.ScannerComputesSplit | src/base/protocol/s3/S3Path.cc:30-72 | Running the character-by-character state machine over a path ends in the state and parts given by the declarative split: container, then object id, then query |
| S3Path.EmptyPathsAreEmpty | src/base/protocol/s3/S3Path.cc:32-34 | The empty path and "/" give an empty container, object id and query string |
| S3Path.LeadingSlashIgnored | src/base/protocol/s3/S3Path.cc:38-41 | Slashes before the container are skipped: prefixing a '/' does not change the split |
| S3Path.ContainerShape | src/base/protocol/s3/S3Path.cc:38-57 | The container never holds '/', and holds '?' at most as its first character |
| S3Path.NoSlashAfterContainer | src/base/protocol/s3/S3Path.cc:38-45 | Every '/' after the container is dropped: neither object id nor query string contains '/' |
| S3Path.ObjectOrQuery | src/base/protocol/s3/S3Path.cc:51-69 | A '?' opens the query only right after the container or before any object-id character: a non-empty object id never starts with '?', leaves the scanner in the object state (so a later '?' joins the object id) and comes with an empty query string |
| S3Path.Conservation | src/base/protocol/s3/S3Path.cc:37-71 | The path's non-'/' characters, in order, are exactly container + object id + the '?' that opened the query (if any) + query string |
| S3Path.LengthConservation | src/base/protocol/s3/S3Path.cc:37-71 | The three parts together have as many characters as the path has non-'/' characters, less one when a query was opened |
| S3Path.BucketThenKey | src/base/protocol/s3/S3Path.cc:30-72 | "/bucket/key" with a plain bucket and a slash-free key not starting with '?' parses to (bucket, key, "") |
| S3Path.BucketThenQuery | src/base/protocol/s3/S3Path.cc:30-72 | "/bucket?query" with a slash-free query parses to (bucket, "", query) |
| S3Path.Examples | src/base/protocol/s3/S3Path.cc:30-72 | "/bucket/key" gives ("bucket", "key", "") and "/b?x" gives ("b", "", "x") |
| S3Path.LeadingQueryJoinsContainer | src/base/protocol/s3/S3Path.cc:47-50 | A '?' right after the leading slashes becomes the container's first character: "/?q" gives container "?q" and no query |
| S3Path.S3Path.Empty | src/base/protocol/s3/S3Path.cc:18-21 | A fresh path has empty container, object id and query string |
| S3Path.S3Path.FromPath | src/base/protocol/s3/S3Path.cc:18-21 | The path constructor holds the split of its path |
| S3Path.S3Path.FromRequest | src/base/protocol/s3/S3Path.cc:5-16 | With a Host header the container is the host and the object id the path minus its first character (an empty path is an error); without one the path is split |
| S3Path.S3Path.FromPathOnly | src/base/protocol/s3/S3Path.cc:30-72 | The loop leaves the members as the scanner's run over the path from the members' old values; "" and "/" change nothing |
| Decimal.NatToString | src/base/common/serialization/ScalarField.cc:85-88 | std::to_string of a non-negative number is a non-empty run of decimal digits with no leading zero |
| Decimal.DigitsOfNatToString | src/base/common/serialization/ScalarField.cc:85-88 | The digits of a number's text denote that number |
| Decimal.NatToStringInjective | src/base/common/serialization/ScalarField.cc:85-88 | Distinct numbers have distinct texts |
| Decimal.DropSpaces | src/base/common/serialization/ScalarField.cc:90-93 | stoul skips leading white space: the result is a suffix of the input that starts with no white space |
| Decimal.DigitRun | src/base/common/serialization/ScalarField.cc:90-93 | The digit run stoul reads is all digits and ends at the first non-digit |
| Decimal.DigitRunOfDigits | src/base/common/serialization/ScalarField.cc:90-93 | A text of digits is read to its end |
| Decimal.ParseUnsigned | src/base/common/serialization/ScalarField.cc:90-93 | A successful stoul yields a value within the target type's range |
| Decimal.ParseWithoutDigits | src/base/common/serialization/ScalarField.cc:90-93 | Text that starts with no digit, sign or white space is an invalid argument |
| Decimal.ParseNatToString | src/base/common/serialization/ScalarField.cc:85-93 | stoul reads back every in-range number from its std::to_string text |
| Decimal.ParseNegated | src/base/common/serialization/ScalarField.cc:39-42 | stoull of "-n" is 2^64 - n, the negation modulo 2^64 |
| ScalarField.BoolRoundTrip | src/base/common/serialization/ScalarField.cc:69-77 | Reading the text of a boolean gives it back, and the two texts differ |
| ScalarField.UIntRoundTrip | src/base/common/serialization/ScalarField.cc:85-93 | An unsigned-integer field's value is read back from its text |
| ScalarField.UIntTextInjective | src/base/common/serialization/ScalarField.cc:85-88 | Distinct unsigned values render as distinct texts |
| ScalarField.TimeRoundTrip | src/base/common/serialization/ScalarField.cc:34-42 | Every time_t, negative ones included, is read back from its text: stoull negates modulo 2^64 and the conversion to time_t undoes that |
| ScalarField.StringField.ValueFromString | src/base/common/serialization/ScalarField.cc:18-26 | The stored text is the text given, and value_as_string returns it |
| ScalarField.BooleanField.ValueFromString | src/base/common/serialization/ScalarField.cc:74-77 | The value becomes true exactly when the text is "true" |
| ScalarField.UIntegerField.ValueFromString | src/base/common/serialization/ScalarField.cc:90-93 | On a successful stoul the value is the number read; on invalid_argument or out_of_range the error is reported and the value is kept |
| ScalarField.DateTimeField.ValueFromString | src/base/common/serialization/ScalarField.cc:39-42 | On a successful stoull the value is the number read, as a time_t; on an error the error is reported and the value is kept |
| ScalarField.StringField.constructor | src/base/common/serialization/ScalarField.cc:12-16 | The field holds its name and default value |
| ScalarField.BooleanField.constructor | src/base/common/serialization/ScalarField.cc:64-67 | The field holds its name and default value |
| ScalarField.UIntegerField.constructor | src/base/common/serialization/ScalarField.cc:79-83 | The field holds its name and default value |
| ScalarField.DateTimeField.constructor | src/base/common/serialization/ScalarField.cc:28-32 | The field holds its name and default value |
| Dictionary.CopyIntoFresh | src/base/common/base_types/Dictionary.cc:376-391 | Copying into a dictionary with no map entries yields exactly the source dictionary |
| Dictionary.CopyKeepsReceiverEntries | src/base/common/base_types/Dictionary.cc:376-391 | copy_from emplaces: the keys are the union; entries the receiver already has are kept; the other entries come from the source |
| Dictionary.AssignKeepsStaleEntry | src/base/common/base_types/Dictionary.cc:393-401 | As written, assigning a map over a map with the same key keeps the receiver's old value, so the result differs from the source |
| Dictionary.AssignIntended | src/base/common/base_types/Dictionary.cc:393-401 | Assignment as intended: the receiver becomes equal to the source |
| Dictionary.MergeEmptyArgument | src/base/common/base_types/Dictionary.cc:46-48 | Merging an empty dictionary changes nothing |
| Dictionary.MergeScalars | src/base/common/base_types/Dictionary.cc:50-57 | A scalar merged into a scalar replaces the value; an empty receiver of any kind becomes a copy of the argument |
| Dictionary.MergeMaps | src/base/common/base_types/Dictionary.cc:50-76 | Merging maps gives a map with the union of keys; the argument wins on shared keys and the receiver's other entries are unchanged, also when an empty receiver of another kind is first copied from the argument |
| Dictionary.MergeSequences | src/base/common/base_types/Dictionary.cc:50-64 | A sequence merge appends the argument's items in order; an empty receiver is first copied from the argument, so its items appear twice |
| Dictionary.MergeIncompatible | src/base/common/base_types/Dictionary.cc:77-79 | Between non-empty dictionaries, merging fails exactly when their types differ |
| Dictionary.FlattenIsLeaves | src/base/common/base_types/Dictionary.cc:82-121 | A (key, value) pair is written by the flattening of a non-empty dictionary exactly when some path of map keys and "seq_<i>" indexes leads to a scalar leaf with that value and renders to that key ("value" for the root); an empty dictionary yields nothing |
| Dictionary.FlattenCount | src/base/common/base_types/Dictionary.cc:82-121 | The flattening of a non-empty dictionary makes one set_item call per scalar leaf |
| Dictionary.FlattenInto | src/base/common/base_types/Dictionary.cc:82-121 | In the caller's Map, which is not cleared, every scalar leaf's key is bound, each written key holds the value of some leaf rendering to it, and the caller's other entries are kept; an empty dictionary leaves the Map unchanged |
| Dictionary.FlattenKeysCollide | src/base/common/base_types/Dictionary.cc:82-111 | Under delimiter ".", the leaves at a → b and at "a.b" are both written under the key "a.b" |
| Dictionary.FlattenScalarRoot | src/base/common/base_types/Dictionary.cc:114-121 | A non-empty root scalar flattens to the single entry ("value", scalar) |
| Dictionary.ScalarAtFindsLeaf | src/base/common/base_types/Dictionary.cc:200-242 | When a path of map keys leads to a scalar leaf, get_scalar returns its value |
| Dictionary.ScalarAtPastScalar | src/base/common/base_types/Dictionary.cc:215-235 | A path that runs past a scalar before its last key gives "" |
| Dictionary.ScalarAtPastSequence | src/base/common/base_types/Dictionary.cc:215-235 | A path that reaches a sequence gives "" |
| Dictionary.ReachStops | src/base/common/base_types/Dictionary.cc:215-235 | Once a key is missing or a node is not a map, the walk reaches nothing |
| Dictionary.GetScalarsFinds | src/base/common/base_types/Dictionary.cc:264-283 | A value is among get_scalars exactly when some node reached through sequence items holds the key as a scalar entry with that value |
| Dictionary.Dictionary.constructor | src/base/common/base_types/Dictionary.cc:11 | A new dictionary of a type is empty |
| Dictionary.Dictionary.Copy | src/base/common/base_types/Dictionary.cc:13-16 | The copy constructor yields a dictionary equal to the source |
| Dictionary.Dictionary.AddSequenceItem | src/base/common/base_types/Dictionary.cc:23-26 | The item is appended to the sequence; nothing else changes |
| Dictionary.Dictionary.SetMapItem | src/base/common/base_types/Dictionary.cc:320-324 | The key now maps to the item; nothing else changes |
| Dictionary.Dictionary.SetMap | src/base/common/base_types/Dictionary.cc:326-334 | Every entry becomes a scalar item under its key; other keys are kept |
| Dictionary.Dictionary.CopyFrom | src/base/common/base_types/Dictionary.cc:376-391 | The new state is the copy function applied to the old state and the source |
| Dictionary.Dictionary.Assign | src/base/common/base_types/Dictionary.cc:393-401 | Corrected operator=: self-assignment changes nothing, and otherwise the receiver becomes equal to the source |
| Dictionary.Dictionary.Merge | src/base/common/base_types/Dictionary.cc:44-80 | The new state is the merge function's result; on an incompatible merge the error is reported and the state is unchanged |
| Dictionary.Dictionary.GetScalar | src/base/common/base_types/Dictionary.cc:200-242 | The walk returns the scalar the nested keys lead to through maps, and "" otherwise |
| Dictionary.Dictionary.HasKeyAndValue | src/base/common/base_types/Dictionary.cc:244-248 | True exactly when get_scalar on the keys equals the value |
| Dictionary.Dictionary.GetMapItems | src/base/common/base_types/Dictionary.cc:250-262 | Adds to the sink every scalar map entry whose key is not excluded; the sink's other entries are kept |
| CompositeLayer.NewMarkable | src/hsm_service/model/CompositeLayer.h:15 | The default markable extent is the empty extent and is not marked |
| CompositeLayer.MarkableOf | src/hsm_service/model/CompositeLayer.h:17-20 | The (offset, length) constructor keeps both and is not marked |
| CompositeLayer.FromExtent | src/hsm_service/model/CompositeLayer.h:22-23 | Converting an extent keeps offset and length and is not marked |
| CompositeLayer.ExtentRoundTrip | src/hsm_service/model/CompositeLayer.h:22 | Converting an extent to a markable extent and back gives the extent |
| CompositeLayer.MarkableDeterminedByExtent | src/hsm_service/model/CompositeLayer.h:13-24 | Unmarked markable extents are equal exactly when their extents are |
| CompositeLayer.AscendingMembers | src/hsm_service/model/CompositeLayer.h:40 | `std::map` iteration order over an extent list, and nothing more: each start offset is visited exactly once |
| CompositeLayer.AscendingSorted | src/hsm_service/model/CompositeLayer.h:40 | `std::map` iteration order over an extent list, and nothing more: start offsets are visited in strictly ascending order |
| CompositeLayer.CompositeLayer.constructor | src/hsm_service/model/CompositeLayer.h:61-67 | A new layer has nil ids, priority 0 and no read or write extents |
| CompositeLayer.CompositeLayer.SetExtents | src/hsm_service/model/CompositeLayer.h:41 | Writing through get_extents(is_write) changes the write list when is_write and the read list otherwise, and nothing else |
| CompositeLayer.CompositeLayer.AddExtent | src/hsm_service/model/CompositeLayer.h:28-29 | Interface level: only the selected list may change |
| CompositeLayer.CompositeLayer.AddMergeReadExtent | src/hsm_service/model/CompositeLayer.h:31 | Interface level: only the read list may change |
| CompositeLayer.CompositeLayer.ExtentSubtract | src/hsm_service/model/CompositeLayer.h:37-38 | Interface level: only the selected list may change; whether the layer became empty is returned |
| CompositeLayer.CompositeLayer.MarkForDeletion | src/hsm_service/model/CompositeLayer.h:47 | Interface level, inferred from the name: only marks in the selected list change, and only from unmarked to marked |
| CompositeLayer.CompositeLayer.DeleteMarkedExtents | src/hsm_service/model/CompositeLayer.h:33 | Inferred from the name: the selected list loses exactly its marked extents; the other list is unchanged |
| CompositeLayer.CompositeLayer.MatchExtent | src/hsm_service/model/CompositeLayer.h:49-54 | Interface level: the selected list changes only when previous matches are deleted |
| CompositeLayer.LessIrreflexive | src/hsm_service/model/CompositeLayer.h:56-59 | No layer is less than itself |
| CompositeLayer.LessTransitive | src/hsm_service/model/CompositeLayer.h:56-59 | The layer order is transitive |
| CompositeLayer.LessIsPriorityOrder | src/hsm_service/model/CompositeLayer.h:56-59 | Layers are mutually incomparable exactly when their priorities are equal, and the order is asymmetric |
| CompositeLayer.LessIgnoresIdsAndExtents | src/hsm_service/model/CompositeLayer.h:56-59 | Layers of equal priority compare alike against any layer, whatever their ids and extents |
| CompositeLayer.SweepIdempotent | src/hsm_service/model/CompositeLayer.h:33 | After sweeping, no extent is marked, no offset is new, and sweeping again changes nothing |
| CompositeLayer.SweepNothingMarked | src/hsm_service/model/CompositeLayer.h:33 | Sweeping a list with no marks leaves it as it is |
| HestiaApi.ToSubjectRoundTrip | src/hestia/hestia.cc:43-65 | Each of the seven item kinds maps to its own HSM item or system type and can be read back; the count and unknown values map to UNKNOWN, and only they do |
| HestiaApi.ToSubjectInjective | src/hestia/hestia.cc:43-59 | Distinct item kinds map to distinct types |
| HestiaApi.IdFormatRoundTrip | src/hestia/hestia.cc:67-106 | Each CRUD input format is produced by its own flag combination |
| HestiaApi.IdFormatRecognised | src/hestia/hestia.cc:67-106 | Exactly the seven listed flag combinations and the empty set are recognised; every other combination gives NONE |
| HestiaApi.AttrFormatBits | src/hestia/hestia.cc:108-119 | JSON exactly when the JSON bit is set, KEY_VALUE exactly when only that bit of the two is set, NONE otherwise; the IDS bit plays no part |
| HestiaApi.LinesOfJoin | src/hestia/hestia.cc:281-290 | Splitting the joined primary keys at '\n' gives the keys back: there is one separator between keys and none trailing |
| HestiaApi.BodyLayout | src/hestia/hestia.cc:281-298 | With the IDS bit only, the body's lines are the keys; with an attribute bit and non-empty ids, the attributes follow the keys after one '\n' |
| HestiaApi.NoneFormatLeavesLengthUnset | src/hestia/hestia.cc:275-278 | As written, the NONE format writes neither the response nor its length |
| HestiaApi.IntendedLengthIsBodySize | src/hestia/hestia.cc:275-306 | As intended, the length written is always the body's size (0 for NONE and for an empty body), and a response is written exactly when the body is non-empty |
| HestiaApi.Int32Of | src/hestia/hestia.cc:302 | The size stored in the int length is within 32-bit range and equals the size when that fits |
| HestiaApi.StrToChar | src/hestia/hestia.cc:259-266 | The buffer has size+1 characters: the string's characters followed by '\0' |
| HestiaApi.JoinIds | src/hestia/hestia.cc:281-290 | The loop builds the keys joined with '\n' |
| HestiaApi.ProcessResults | src/hestia/hestia.cc:268-308 | Corrected process_results: returns 0 and writes the response and length of the corrected reply function, so the length is also written for NONE |
| KeyValueCrudClient.KeyKindsDiffer | src/base/crud/client/KeyValueCrudClient.cc:541-575 | For one prefix, an item key is never the set key, a field key or a lock key, and the set key is neither a field nor a lock key |
| KeyValueCrudClient.ItemKeyInjective | src/base/crud/client/KeyValueCrudClient.cc:548-551 | Equal item keys come from equal ids |
| KeyValueCrudClient.LockKeyInjective | src/base/crud/client/KeyValueCrudClient.cc:541-546 | Equal lock keys come from the same id and lock type, so read and write locks on one id differ |
| KeyValueCrudClient.FieldKeyMeetsLockKey | src/base/crud/client/KeyValueCrudClient.cc:541-557 | A field named "lockr" or "lockw" indexes under the read or write lock key of its value |
| KeyValueCrudClient.GetItemKeys | src/base/crud/client/KeyValueCrudClient.cc:559-565 | The existing keys are untouched, one item key per id is appended in order, and distinct ids give distinct new keys |
| KeyValueCrudClient.PrimaryKeysMembers | src/base/crud/client/KeyValueCrudClient.cc:484-489 | A key is removed exactly when some identifier has it as its primary key |
| KeyValueCrudClient.RemoveKeys | src/base/crud/client/KeyValueCrudClient.cc:482-489 | For each identifier with a primary key, in order, its item key and the (set key, primary key) pair |
| KeyValueCrudClient.SetRemoveFailureIgnored | src/base/crud/client/KeyValueCrudClient.cc:496-499 | As written, the outcome of remove does not depend on the SET_REMOVE response: a failed set removal is reported as success |
| KeyValueCrudClient.RemoveOutcomeIntendedReports | src/base/crud/client/KeyValueCrudClient.cc:491-499 | As intended, remove succeeds exactly when both requests do, and an error names the request that failed |
| KeyValueCrudClient.Remove | src/base/crud/client/KeyValueCrudClient.cc:480-500 | Corrected remove: sends STRING_REMOVE with the item keys to the endpoint and, when that succeeds, SET_REMOVE with the set entries; each response is checked under its own name |
| KeyValueStoreRequest.WithPairs | src/base/storage/requests/KeyValueStoreRequest.cc:4-12 | The pairs constructor stores its method, pairs and url, and get_kv_pairs returns the pairs |
| KeyValueStoreRequest.WithKeys | src/base/storage/requests/KeyValueStoreRequest.cc:14-22 | The keys constructor stores its method, keys and url, and get_keys returns the keys |
| KeyValueStoreRequest.MethodNameRoundTrip | src/base/storage/requests/KeyValueStoreRequest.cc:34-54 | Each of the seven methods has its own name, from which it is read back; exactly the other values give "UNKNOWN" |
| KeyValueStoreRequest.MethodNamesDistinct | src/base/storage/requests/KeyValueStoreRequest.cc:36-50 | The seven method names are pairwise distinct |
| ObjectStoreBackend.MockIsPlugin | src/hsm/base_types/ObjectStoreBackend.cc:117-140 | Every mock backend is a plugin and not built in |
| ObjectStoreBackend.HsmPluginIsMotr | src/hsm/base_types/ObjectStoreBackend.cc:108-127 | MOTR is the only type that is both HSM and plugin; the other HSM types are built in |
| ObjectStoreBackend.MockAndOtherTypes | src/hsm/base_types/ObjectStoreBackend.cc:108-140 | No mock is HSM; any type not named by the predicates is built in, neither HSM nor mock |
| ObjectStoreBackend.ClassificationOfBackend | src/hsm/base_types/ObjectStoreBackend.cc:108-140 | For every backend, built-in is not-plugin, mock implies plugin, and HSM with plugin means MOTR |
| ObjectStoreBackend.ObjectStoreBackend.constructor | src/hsm/base_types/ObjectStoreBackend.cc:13-18 | The typed constructor's type is what get_backend returns |
| ObjectStoreBackend.ObjectStoreBackend.Copy | src/hsm/base_types/ObjectStoreBackend.cc:20-24 | The copy holds every field of the original |
| ObjectStoreBackend.ObjectStoreBackend.SetTierNames | src/hsm/base_types/ObjectStoreBackend.cc:77-86 | get_tier_names returns the names just set; no other field changes |
| ObjectStoreBackend.ObjectStoreBackend.Assign | src/hsm/base_types/ObjectStoreBackend.cc:26-42 | Every field takes the other backend's value; self-assignment changes nothing |

## Left out

- `S3Path`: the HTTP request is reduced to its Host header and path. `HttpRequest` is not part of this model.
- `Dictionary::get_scalar(key, delim)` splits its key with `StringUtils::split`, which is not part of this model. The model takes the already-split keys.
- `Dictionary::expand`, `to_string` and `for_each_scalar`: they depend on string utilities that are not part of this model. `expand` is not an inverse of flatten either, so no round trip is claimed.
- `Dictionary::operator==` (src/base/common/base_types/Dictionary.cc:403-446) is not modelled. No reflexivity or other property of equality is claimed.
- `Dictionary` quoting: the `should_quote` flag is not modelled, so `copy_from` is not modelled as skipping it.
- `Dictionary` flattening: `std::unordered_map` iteration order is unspecified, so `Flatten` is the multiset of (key, value) pairs that flatten passes to `set_item`, and the order of those calls is not captured.
- Dictionary.FlattenIsLeaves: it speaks of the `set_item` calls, not of the resulting `Map`; see the next line.
- Dictionary.FlattenCount: it counts the `set_item` calls, not the entries of the resulting `Map`. When two paths render to the same key (a map key that contains the delimiter, FlattenKeysCollide), the `Map` keeps one of their values, and which one depends on the iteration order. FlattenInto states what the `Map` then holds: one of the written values per key, plus the caller's untouched entries, since flatten does not clear the `Map`.
- `Dictionary.Dictionary.Merge`: a dictionary merged with itself is not modelled. The argument is a value, so aliasing between receiver and argument is not captured.
- `Dictionary.Dictionary.GetMapItems`: the sink is a value returned, not a map updated through a reference.
- `CompositeLayer`: only the header is available; Extent.h and Uuid.h are not part of this model. The bodies of `add_extent`, `add_merge_read_extent`, `extent_substract`, `mark_for_deletion` and `match_extent` are not shown. Their methods state only which list each may change, and return unconstrained status codes.
- `CompositeLayer.CompositeLayer.MarkForDeletion`: its contract is inferred from the name, not from a body.
- `CompositeLayer.CompositeLayer.DeleteMarkedExtents`: its contract is inferred from the name, not from a body.
- `CompositeLayer::dump_extents` is left out: it formats text for logging and its body is not shown.
- `has_read_extents`/`has_write_extents` are taken to mean that the list is non-empty. Their bodies are not shown.
- `CompositeLayer`: `Uuid` is two 64-bit halves and `std::size_t` is 64 bits wide. A default-constructed `Uuid` is taken to be nil: CompositeLayer.h:61-62 only default-constructs the id members.
- CompositeLayer.AscendingMembers: with AscendingSorted, it models `std::map`'s iteration order and nothing more. No operation's contract uses them, because the bodies that iterate an extent list are not shown, and DeleteMarkedExtents is specified by its result alone.
- `HestiaApi`: the values of `hestia_id_format_t` and `hestia_io_format_t` are not shown. A flag combination is modelled as a set of distinct flags, with NONE as the empty set. The `hestia_item_t` values beyond the seven kinds and the count are one "out of range" case.
- `hestia.cc` C API entry points (server start, create/update/read, data transfer): they work through a global client, streams and callbacks.
- `HestiaApi.ProcessResults`: the response buffer is returned as a string. The heap allocation and the address written through are not modelled.
- `KeyValueCrudClient`: `create`, `update`, `read`, `lock`, `unlock` and `is_locked` are I/O against the store through adapters that are not part of this model. `remove` is modelled with the store's answers as parameters.
- `KeyValueCrudClient.Remove`: the error is the failing request's name. The exception type and the message text built from the store's error are not modelled.
- `KeyValueCrudClient.GetItemKeys`: the key vector is returned, not updated through a reference.
- `ScalarField`: `TypedScalarField::update_value` is not part of this model; it is taken to store the value. `unsigned long` is 64 bits wide (LP64) and `std::time_t` a signed 64-bit count.
- `DateTimeField::set_as_now` reads the wall clock, and `UuidField` depends on UUID utilities that are not part of this model. Both are left out.
- `ObjectStoreBackend`: the default constructor and the `Model` base class (registration of fields, `Model::operator=`) are not modelled. The field wrappers' assignment is taken as a plain copy. For the configuration this is the corrected reading: if it is assigned through `Dictionary::operator=`, the code as written keeps stale map entries (see Findings). The full `Type` enum is not shown: the ten types the predicates name are explicit and every other value is one further case. The initial configuration of the typed constructor is taken to be an empty map dictionary, and the other fields empty.
- `ObjectStoreBackend`: `get_config`, `get_node_id`, `set_node_id`, `add_tier_id`, `set_tier_ids`, `get_tier_ids` and `to_string` are accessors over field classes that are not part of this model. Only the node id and tier ids are kept, as plain fields.

## Findings

| source | as written | input that shows it | evidently intended | confidence | as-written member | corrected member |
|---|---|---|---|---|---|---|
| src/base/common/base_types/Dictionary.cc:393-401 | assignment calls copy_from, whose emplace keeps the receiver's existing map entries | a map {"x": "a"} assigned {"x": "b"} keeps "a" | the receiver becomes equal to the assigned dictionary | medium, not executed | Dictionary.AssignKeepsStaleEntry | Dictionary.AssignIntended |
| src/hestia/hestia.cc:276 | `len_response = 0` assigns the local parameter, not the int it addresses | output format HESTIA_IO_NONE leaves the caller's length unwritten | `*len_response = 0` | high, not executed | HestiaApi.NoneFormatLeavesLengthUnset | HestiaApi.IntendedLengthIsBodySize |
| src/base/crud/client/KeyValueCrudClient.cc:499 | the SET_REMOVE check is given the STRING_REMOVE response | a store that fails SET_REMOVE after a successful STRING_REMOVE: remove reports success | check `set_response` | high, not executed | KeyValueCrudClient.SetRemoveFailureIgnored | KeyValueCrudClient.RemoveOutcomeIntendedReports |
