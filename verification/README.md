# libupsf: codec, client loops and thread registry

libupsf lets C programs talk to a UPSF server. Three parts of it decide something on their own, and this project
models them in Dafny and proves properties of the model:

* **The codec** (`upsf/upsf_c_mapping.cpp`) converts protobuf messages, whose strings, lists and maps have any size,
  into fixed C records (64-byte strings with a `len`, 16-slot arrays with a size, tagged unions) and back. The modules
  `Cells`, `CStrings`, `Heads`, `Endpoints`, `KeyValues`, `NcSpecs`, `NetworkConnections`, `Shards`, `Gateways` and
  `Sessions` follow its overloads; `Items` puts the six kinds of item behind one name; `Layout` says field by field
  which cells of the structures in upsf.h hold what; `Storable` says which messages the records can hold.
* **The client and the C API** (`upsf/upsf.hpp`, `upsf/upsf_c_wrapper.cpp`): reading streams, get, list, create,
  update, lookup and subscribe. Modules `Client`, `Wrapper`, `Subscriber`.
* **The table of connections, one per thread, and its three levels of locks** (`upsf/upsf_c_wrapper.cpp`). Modules
  `Registry` (what the operations do one at a time) and `Locking` (any number of threads at once).

## How to read the model

C memory is a flat `array<int>`: one cell for every `char` and one for every scalar. A C structure is a run of cells,
a field is an offset, a union is a run that several structures read through their own offsets. For a record there are
`...Image` (the cells a message is written to), `Wf...` (the cells can be read: strings are terminated, sizes are
within the arrays), `Decode...` (the message they are read as), `Canon...` (strings with a right `len` and zeros
behind the text, unused slots and unused parts of a union clear) and `Norm...` (a message after a pass through C). The
imperative overloads are the methods `Put...`/`Append...` (proto to C) and `Get...` (C to proto). Each is proved to
write exactly the image and to touch no cell outside its record, so the result does not depend on what the buffer held
before; the lemmas `...There` and `...Back` are the round trips. `Build` and `Building` are ghost bookkeeping: a
record that is written front to back after it was cleared.

A protobuf message field has presence, so it is an `Option`; a `oneof` is a datatype with an arm for "not set"; enums
are open, and the casts between C and C++ enums keep the number. All scalar fields are `int32` in the messages and
`int` in the records, so no conversion between widths takes place; the one that does, `size_t` to `int` in the list
functions, is written out (`Wrapper.ToInt`). A protobuf map promises no iteration order: the methods choose one, and
the theorems hold for every `order` with `Visits(order, keys)`.

A stream is any finite sequence of items that ends in any status, and a server is any function from requests to
responses.

In `Locking` a thread inside the library is at one of nineteen program points. A step moves one thread on; between two
steps every other thread may run. A subscription waits for its stream, runs a callback for an item, and waits again; a
callback may make calls, which return to it, to any depth. Slots are objects with an identity of their own, an RPC
keeps the raw pointer it took, `upsf_slots[tid]` inserts a null pointer when the key is missing, and erasing an entry
destroys the slot, so that the absence of dangling and null pointers is something to prove. `Run` is any interleaving
of calls of any number of threads. The history of a run records what every call of the table operations returned,
every RPC that found no slot and every request that was sent.

## Where the code does not keep what it is given

Each point below is a theorem with its exact condition.

* An `ss_mptp` without endpoints is written under its tag and comes back as "not set"; "not set" is written as tag 0,
  which is `SS_PTP`, and comes back as an `ss_ptp`. Passing a network connection through C is therefore stable after
  two passes and not after one, exactly when it has an `ss_mptp` without endpoints (`NetworkConnections.NcFixpoint`).
* `nc_active` flags come back true whatever they were, because a `char` array is converted to `bool`;
  `allocated_shards` of a network connection is read from C but never written to it. `NetworkConnections.NcBack` has
  the exact condition under which a record survives, `Storable.Losses` concrete messages that do not. A record with
  two flags under one key does not survive either, and no more does a shard with two entries under one key
  (`Shards.ShardBack`).
* Map keys that agree in their first 63 bytes are merged; the entry visited last wins (`KeyValues.CutKeys`,
  `Storable.LossOfKey`).
* Strings end at the first NUL byte or after 63 bytes, lists after 16 elements, timestamps are dropped.
  `Storable.Unchanged` says which messages come back as they were: these and no others. `Storable.LossesOfText` and
  `Storable.LossOfElement` are concrete losses.
* The count a list function returns is wrong from 2^31 items on (`Wrapper.ToInt`); the number of records it fills is
  wrong when both the items and the buffer reach 2^31 (`Wrapper.Filled`).
* `upsf_subscribe` is written to return 0 or -1, but can only ever return -1 (`Subscriber.Subscribe`).

## Model

| member | source | states |
|---|---|---|
| CStrings.FirstNul | upsf/upsf_c_mapping.cpp:49-53 | what `strlen` and `c_str` see: the index of the first NUL, no NUL before it |
| CStrings.Cut | upsf/upsf_c_mapping.cpp:49-52 | what is left of a string in a record: the prefix up to the first NUL, or of 63 bytes when that is shorter |
| CStrings.CutFixed | upsf/upsf_c_mapping.cpp:49-53 | a string is unchanged by cutting if and only if it has at most 63 bytes and no NUL; what is left after cutting once is always such a string |
| CStrings.StrThere | upsf/upsf_c_mapping.cpp:49-53 | every string is stored NUL-terminated, with `len` the index of the first NUL and zeros behind the text, and is read back as its cut |
| CStrings.StrBack | upsf/upsf.h:119-122 | every canonical C string is written again cell by cell as it was |
| CStrings.StrCells | upsf/upsf_c_mapping.cpp:49-53 | the cells of a stored string: its text, NULs up to the 64th char, and the length of the text in `len` |
| CStrings.CStrIs | upsf/upsf_c_mapping.cpp:72-73 | any record with a NUL among its 64 chars is read as the chars before the first one, whatever `len` says |
| CStrings.CStrOnText | upsf/upsf_c_mapping.cpp:72-73 | two records with the same chars are read as the same string, whatever their `len`; and a record is readable exactly when there is a NUL among its chars |
| CStrings.CopyText | upsf/upsf_c_mapping.cpp:49-52 | the copying half of `strncpy`: the bytes before the NUL, at most n |
| CStrings.Strncpy | upsf/upsf_c_mapping.cpp:49-52 | the bytes before the NUL, at most n of them, then NULs up to n, nothing outside |
| CStrings.PutString | upsf/upsf_c_mapping.cpp:49-53 | on a cleared last char, `strncpy` of 63 bytes and `strlen` give the canonical image of the string and touch nothing else |
| CStrings.GetString | upsf/upsf_c_mapping.cpp:72 | `std::string` from a C string: the bytes before the NUL; `len` is not consulted |
| Cells.Take | upsf/upsf.h:48-55 | the first 16 elements, or all of them when there are no more |
| CStrings.AppendStrings | upsf/upsf_c_mapping.cpp:179-191 | the list idiom with a clamped size stores the first 16 strings and the size, the rest of the array clear, and warns exactly when elements were dropped |
| CStrings.AppendStringsUntilFull | upsf/upsf_c_mapping.cpp:1210-1227 | the list idiom with a range-for and a break leaves the very same cells and warns in the same cases |
| CStrings.GetStrings | upsf/upsf_c_mapping.cpp:210-214 | reads back as many strings as the size says, each up to its NUL |
| CStrings.StrsThere | upsf/upsf_c_mapping.cpp:178-191 | a stored list is canonical and reads back as its first 16 elements, each cut |
| CStrings.StrsBack | upsf/upsf_c_mapping.cpp:178-214 | a canonical array of strings survives C to proto to C cell by cell |
| CStrings.NormStrsTwice | upsf/upsf_c_mapping.cpp:178-214 | a second pass changes nothing in a list of strings |
| Heads.AppendHead | upsf/upsf_c_mapping.cpp:48-63 | name, description and derived state land in their cells, behind what was written before |
| Heads.GetHead | upsf/upsf_c_mapping.cpp:72-83 | reads them back; the metadata is present and has no timestamps |
| Heads.HeadThere | upsf/upsf_c_mapping.cpp:48-83 | name and metadata read back cut, metadata present, timestamps gone, whatever was there |
| Heads.HeadBack | upsf/upsf_c_mapping.cpp:48-83 | a canonical head survives C to proto to C |
| Endpoints.PutTriple | upsf/upsf_c_mapping.cpp:1035-1056 | a string and two numbers (vtep, and likewise port_vlan and session_filter) are written over whatever the record held |
| Endpoints.PutL2vpn | upsf/upsf_c_mapping.cpp:1074-1085 | the one cell of an l2vpn |
| Endpoints.PutTransport | upsf/upsf_c_mapping.cpp:980-1004 | the arm that is set is written from offset 0 of the union with the tag before it, the rest of the union stays clear, and the result is false exactly for an unset transport |
| Endpoints.PutEndpoint | upsf/upsf_c_mapping.cpp:966-1005 | the whole endpoint is overwritten with its image; the nested clearing does not undo the name |
| Endpoints.GetEndpoint | upsf/upsf_c_mapping.cpp:1007-1033 | only the arm the tag selects is read; false exactly when no transport results |
| Endpoints.EpThere | upsf/upsf_c_mapping.cpp:966-1033 | every endpoint is stored canonically and comes back with the same arm and cut strings |
| Endpoints.EpBack | upsf/upsf_c_mapping.cpp:966-1033 | every canonical endpoint survives C to proto to C cell by cell |
| Endpoints.AppendEndpoints | upsf/upsf_c_mapping.cpp:489-503 | the first 16 endpoints and the size are stored, unused slots stay clear, the warning is logged exactly when some were dropped |
| Endpoints.GetEndpoints | upsf/upsf_c_mapping.cpp:409-414 | reads as many endpoints as the size cell says, from the array the base points to |
| Endpoints.EpsThere | upsf/upsf_c_mapping.cpp:409-503 | a stored list is canonical and reads back as its first 16 endpoints, each normalised |
| Endpoints.EpsBack | upsf/upsf_c_mapping.cpp:409-503 | a canonical array of endpoints survives C to proto to C |
| KeyValues.FoldLast | upsf/upsf_c_mapping.cpp:934-936 | after assigning pairs to a map in turn, each key has the value of the last pair with that key |
| KeyValues.FoldCount | upsf/upsf_c_mapping.cpp:934-936 | n assignments give at most n keys, and n exactly when no two pairs share a key |
| KeyValues.Permuted | upsf/upsf_c_mapping.cpp:896-936 | distinct pairs that go through a map come back as a permutation, in whatever order the map is visited |
| KeyValues.PairsBack | upsf/upsf_c_mapping.cpp:896-936 | pairs that go through a map come back as a permutation if and only if their keys are distinct |
| KeyValues.AllVisited | upsf/upsf_c_mapping.cpp:896-914 | a map of at most 16 entries is visited completely |
| KeyValues.CutKeys | upsf/upsf_c_mapping.cpp:896-936 | for any map and any order: no key that is not the cut of a visited one, no more keys than visited, as many exactly when the cuts are distinct, and on a collision the latest visited entry decides |
| KeyValues.FoldAgain | upsf/upsf_c_mapping.cpp:896-936 | a map of at most 16 entries, visited in any order and rebuilt, is the same map |
| KeyValues.KvThere | upsf/upsf_c_mapping.cpp:896-907 | a stored pair is canonical and reads back with key and value cut |
| KeyValues.KvsThere | upsf/upsf_c_mapping.cpp:896-936 | an array of pairs is canonical and reads back as the cut pairs in the same order |
| KeyValues.KvsBack | upsf/upsf_c_mapping.cpp:896-936 | a canonical array of pairs is rewritten cell by cell |
| NcSpecs.PutNcSpec | upsf/upsf_c_mapping.cpp:478-582 | the whole spec is overwritten: tag, the selected arm from offset 0, zeros in the rest of the union; one warning for each list that was cut |
| NcSpecs.AppendArm | upsf/upsf_c_mapping.cpp:488-578 | only the selected arm is written, every other cell of the union stays zero, and tag and arm agree |
| NcSpecs.AppendSsPtp | upsf/upsf_c_mapping.cpp:489-511 | the ss_ptp branch: tag, endpoints of the user planes, endpoint of the TSF, zeros behind; its warning |
| NcSpecs.AppendSsMptp | upsf/upsf_c_mapping.cpp:512-542 | the ss_mptp branch: tag and both arrays, which fill the union; a warning for each array that was cut |
| NcSpecs.AppendMsPtp | upsf/upsf_c_mapping.cpp:543-557 | the ms_ptp branch: tag and two endpoints, zeros behind |
| NcSpecs.AppendMsMptp | upsf/upsf_c_mapping.cpp:558-578 | the ms_mptp branch: tag, one endpoint, an array, zeros behind; its warning |
| NcSpecs.GetNcSpec | upsf/upsf_c_mapping.cpp:396-476 | the spec is read through the view of its tag; false exactly for a tag that is none of the four |
| NcSpecs.GetArm | upsf/upsf_c_mapping.cpp:404-473 | although the SS_MPTP branch reads its user plane endpoints through the `ss_ptp` view, it returns what the `ss_mptp` view holds, for every size up to 16 |
| NcSpecs.UnionThere | upsf/upsf_c_mapping.cpp:404-578 | every arm is stored canonically and comes back as itself normalised, except an empty `ss_mptp` (unset) and an unset one (`ss_ptp`) |
| NcSpecs.UnionBack | upsf/upsf_c_mapping.cpp:404-578 | a canonical union under a valid tag is rewritten cell by cell unless it is an `ss_mptp` without endpoints, which is read as unset |
| NcSpecs.NcSpecThere | upsf/upsf_c_mapping.cpp:396-582 | a written spec always has one of the four tags and reads back as the normalised spec |
| NcSpecs.NcSpecBack | upsf/upsf_c_mapping.cpp:396-582 | a canonical spec survives C to proto to C if and only if its tag is one of the four and it is not an `ss_mptp` with both sizes 0 |
| NcSpecs.NormArmTwice | upsf/upsf_c_mapping.cpp:396-582 | the third pass never changes an arm, the second only an `ss_mptp` without endpoints |
| NetworkConnections.AppendFlags | upsf/upsf_c_mapping.cpp:591-623 | the flags visited first, at most 16, are stored as "1" or "0" in the order of the iteration; the warning is logged exactly for more than 16 |
| NetworkConnections.GetFlags | upsf/upsf_c_mapping.cpp:632-635 | every stored key becomes a flag that is true, whatever its text |
| NetworkConnections.AppendNcStatus | upsf/upsf_c_mapping.cpp:584-626 | the status is its flags and a zero where `allocated_shards` belongs |
| NetworkConnections.GetNcStatus | upsf/upsf_c_mapping.cpp:628-641 | flags and `allocated_shards` are read back |
| NetworkConnections.PutNc | upsf/upsf_c_mapping.cpp:329-363 | the record is fully overwritten with the image of the message for some iteration order, nothing outside changes |
| NetworkConnections.GetNc | upsf/upsf_c_mapping.cpp:365-394 | the message the cells stand for |
| NetworkConnections.NcStatusThere | upsf/upsf_c_mapping.cpp:584-641 | a status reads back with all visited keys cut, all flags true and no allocated shards |
| NetworkConnections.NcThere | upsf/upsf_c_mapping.cpp:329-641 | for every message and every iteration order the record is canonical, readable and reads back as the normalised message |
| NetworkConnections.FlagsThere | upsf/upsf_c_mapping.cpp:591-635 | at most min(16, n) flags come back, exactly as many as were visited if and only if the cut keys differ, all true, no invented keys |
| NetworkConnections.NcFixpoint | upsf/upsf_c_mapping.cpp:329-641 | for every message and any three iteration orders, the third pass changes nothing, and the second pass changes something if and only if the arm is an `ss_mptp` without endpoints |
| NetworkConnections.FlagsBack | upsf/upsf_c_mapping.cpp:591-635 | stored flags come back as a permutation if and only if all of them are "1" and no two share a key |
| NetworkConnections.StatusBack | upsf/upsf_c_mapping.cpp:584-641 | the same for the cells of the status |
| NetworkConnections.NcBack | upsf/upsf_c_mapping.cpp:329-641 | a readable record survives C to proto to C up to the order of its flags, for every iteration order, if and only if it is canonical, its tag is valid, it is no `ss_mptp` without endpoints, all flags are "1" with distinct keys and `allocated_shards` is 0 |
| NetworkConnections.CanonNcWf | upsf/upsf_c_mapping.cpp:365-394 | every canonical record can be read, also one with an invalid tag |
| Shards.AppendTsfs | upsf/upsf_c_mapping.cpp:895-919 | the entries visited first, at most 16, are stored in the order of the iteration; the warning is logged exactly for more than 16 |
| Shards.GetTsfs | upsf/upsf_c_mapping.cpp:933-936 | the stored pairs assigned to a map in turn |
| Shards.AppendShardSpec | upsf/upsf_c_mapping.cpp:708-744 | the nested spec is written over its run and completes the record written so far; the warning is exact |
| Shards.AppendDesired | upsf/upsf_c_mapping.cpp:772-802 | the desired state nested in the spec, with an exact warning |
| Shards.AppendShardStatus | upsf/upsf_c_mapping.cpp:823-855 | the nested status likewise, with the entries of its map in the order visited |
| Shards.AppendCurrent | upsf/upsf_c_mapping.cpp:882-922 | the current state nested in the status, with an exact warning |
| Shards.AppendMbb | upsf/upsf_c_mapping.cpp:941-952 | the number of the state, also one outside the C enum |
| Shards.PutShard | upsf/upsf_c_mapping.cpp:643-677 | the record is fully overwritten with the image of the message for some iteration order, nothing outside changes |
| Shards.GetShard | upsf/upsf_c_mapping.cpp:679-706 | the message the cells stand for |
| Shards.GetShardSpec | upsf/upsf_c_mapping.cpp:746-770 | the spec the cells stand for |
| Shards.GetDesired | upsf/upsf_c_mapping.cpp:804-821 | the desired state the cells stand for |
| Shards.GetShardStatus | upsf/upsf_c_mapping.cpp:857-880 | the status the cells stand for |
| Shards.GetCurrent | upsf/upsf_c_mapping.cpp:924-939 | the current state the cells stand for, its map rebuilt from the pairs in turn |
| Shards.ShardSpecThere | upsf/upsf_c_mapping.cpp:708-821 | a spec is stored canonically and reads back with cut strings and lists and a desired state that is present |
| Shards.ShardSpecBack | upsf/upsf_c_mapping.cpp:708-821 | a canonical spec survives C to proto to C |
| Shards.ShardStatusThere | upsf/upsf_c_mapping.cpp:823-939 | a status is stored canonically and reads back as its normal form for the order visited |
| Shards.ShardThere | upsf/upsf_c_mapping.cpp:643-964 | for every message and every iteration order the record is canonical, readable and reads back as the normalised message |
| Shards.TsfsThere | upsf/upsf_c_mapping.cpp:895-936 | at most min(16, n) entries come back, exactly as many as were visited if and only if the cut keys differ, every key the cut of a source key, and on a collision the latest visited wins |
| Shards.ShardBack | upsf/upsf_c_mapping.cpp:643-964 | a readable shard survives C to proto to C up to the order of its map, for every iteration order and every number in its open enums, if and only if it is canonical and no two entries of the map share a key |
| Shards.ShardTwice | upsf/upsf_c_mapping.cpp:643-964 | one pass is enough: a second changes nothing, whatever the two orders |
| Shards.CanonShardWf | upsf/upsf_c_mapping.cpp:679-706 | every canonical shard can be read |
| Gateways.PutSg | upsf/upsf_c_mapping.cpp:41-66 | the record is fully overwritten with the image of the service gateway |
| Gateways.GetSg | upsf/upsf_c_mapping.cpp:68-86 | the service gateway the cells stand for |
| Gateways.SgThere | upsf/upsf_c_mapping.cpp:41-86 | proto to C to proto is the normal form, which a second pass does not change |
| Gateways.SgBack | upsf/upsf_c_mapping.cpp:41-86 | C to proto to C is the identity on canonical records |
| Gateways.PutSgup | upsf/upsf_c_mapping.cpp:88-251 | the record of a user plane is fully overwritten, nested spec and status included |
| Gateways.AppendSgupSpec | upsf/upsf_c_mapping.cpp:165-197 | the spec nested in the record, default endpoint nested in the spec, with an exact warning |
| Gateways.AppendSgupStatus | upsf/upsf_c_mapping.cpp:222-236 | the two counters of the status |
| Gateways.GetSgup | upsf/upsf_c_mapping.cpp:131-251 | the user plane the cells stand for |
| Gateways.GetSgupSpec | upsf/upsf_c_mapping.cpp:199-220 | the spec the cells stand for |
| Gateways.SgupThere | upsf/upsf_c_mapping.cpp:88-251 | proto to C to proto is the normal form: strings cut, 16 service groups, sub-messages present |
| Gateways.SgupTwice | upsf/upsf_c_mapping.cpp:88-251 | a second pass changes nothing |
| Gateways.SgupBack | upsf/upsf_c_mapping.cpp:88-251 | C to proto to C is the identity on canonical records |
| Gateways.PutTsf | upsf/upsf_c_mapping.cpp:253-317 | the record of a traffic steering function is fully overwritten |
| Gateways.AppendTsfSpec | upsf/upsf_c_mapping.cpp:306-317 | an endpoint nested in a spec nested in the record |
| Gateways.GetTsf | upsf/upsf_c_mapping.cpp:283-327 | the traffic steering function the cells stand for |
| Gateways.TsfThere | upsf/upsf_c_mapping.cpp:253-327 | proto to C to proto is the normal form, which a second pass does not change |
| Gateways.TsfBack | upsf/upsf_c_mapping.cpp:253-327 | C to proto to C is the identity on canonical records |
| Sessions.PutSessionSpec | upsf/upsf_c_mapping.cpp:1195-1260 | the spec is fully overwritten, filter and desired state nested in it included, and the warning is logged exactly when service groups were dropped |
| Sessions.PutSession | upsf/upsf_c_mapping.cpp:1136-1167 | the record of a session context is fully overwritten |
| Sessions.AppendFilter | upsf/upsf_c_mapping.cpp:1323-1344 | the filter nested in the spec does not disturb what was written before |
| Sessions.AppendSessionDesired | upsf/upsf_c_mapping.cpp:1296-1311 | the desired state likewise |
| Sessions.AppendSessionStatus | upsf/upsf_c_mapping.cpp:1362-1373 | the status is its current state, nested once more |
| Sessions.AppendSessionCurrent | upsf/upsf_c_mapping.cpp:1385-1407 | the two shard names, in this order |
| Sessions.GetSessionSpec | upsf/upsf_c_mapping.cpp:1262-1294 | the spec the cells stand for |
| Sessions.GetSession | upsf/upsf_c_mapping.cpp:1169-1193 | the session context the cells stand for |
| Sessions.GetFilter | upsf/upsf_c_mapping.cpp:1346-1360 | the filter the cells stand for |
| Sessions.SessionThere | upsf/upsf_c_mapping.cpp:1136-1420 | proto to C to proto is the normal form |
| Sessions.SessionTwice | upsf/upsf_c_mapping.cpp:1136-1420 | a second pass changes nothing |
| Sessions.SessionBack | upsf/upsf_c_mapping.cpp:1136-1420 | C to proto to C is the identity on canonical records |
| Items.There | upsf/upsf_c_mapping.cpp:41-1420 | for every item of every kind and every iteration order: the record is canonical at every depth, readable, and reads back as the normal form |
| Items.Back | upsf/upsf_c_mapping.cpp:41-1420 | for the four kinds without a map a readable record is unchanged by C to proto to C if and only if it is canonical |
| Items.CanonWf | upsf/upsf_c_mapping.cpp:41-1420 | canonical records of every kind can be read |
| Items.Put | upsf/upsf_c_mapping.cpp:41-1420 | the overload for the kind writes the image of the item for some iteration order and nothing outside the record |
| Items.Get | upsf/upsf_c_mapping.cpp:41-1420 | the overload for the kind returns the item the cells stand for |
| Layout.StrsCells | upsf/upsf.h:119-122 | element i of a list of strings is in the 65 cells from 65 i on, the number of elements behind the array |
| Layout.StrsRead | upsf/upsf_c_mapping.cpp:210-214 | element i of an array of strings is read from these cells |
| Layout.EpsCells | upsf/upsf.h:172-198 | element i of a list of endpoints is in the 133 cells from 133 i on, the number of elements behind the array |
| Layout.EpsRead | upsf/upsf_c_mapping.cpp:409-414 | element i of an array of endpoints is read from these cells |
| Layout.KvsCells | upsf/upsf.h:124-128 | pair i is in the 130 cells from 130 i on, key before value, the number of pairs behind the array |
| Layout.KvsRead | upsf/upsf_c_mapping.cpp:934-936 | pair i is read from these cells |
| Layout.EpCells | upsf/upsf.h:142-170 | name, tag (1, 2, 3, or 0 for none) and the fields of every transport, each in the cell of the field of that name |
| Layout.EpRead | upsf/upsf_c_mapping.cpp:1007-1033 | for any cells: the transport the tag 1, 2 or 3 selects, each field from its own cell |
| Layout.SgCells | upsf/upsf.h:243-247 | name, description and derived state of a service gateway in their cells; zeros and empty texts for absent metadata |
| Layout.SgRead | upsf/upsf_c_mapping.cpp:68-86 | a service gateway read field by field |
| Layout.SgupCells | upsf/upsf.h:228-257 | every field of a user plane in the cells of the field of that name, with zeros for what is absent |
| Layout.SgupRead | upsf/upsf_c_mapping.cpp:131-251 | every readable record: each field of the user plane from its own cells |
| Layout.TsfCells | upsf/upsf.h:259-269 | every field of a traffic steering function in its cells |
| Layout.TsfRead | upsf/upsf_c_mapping.cpp:283-327 | every readable record: each field of the traffic steering function from its own cells |
| Layout.UnionCells | upsf/upsf.h:172-209 | every arm of nc_spec from its first cell, in the order of its declaration, zeros behind |
| Layout.UnionRead | upsf/upsf_c_mapping.cpp:404-473 | any readable union under any tag: which arm it is, and where its endpoints are read from |
| Layout.NcCells | upsf/upsf_c_mapping.cpp:329-626 | every field of a network connection in its cells: tag 0 to 3, flag i in slot i as the text "1" when it is true and "0" when it is false, 0 in the cell of `allocated_shards` |
| Layout.NcRead | upsf/upsf_c_mapping.cpp:365-641 | every readable record: each field of the network connection from its own cells, `allocated_shards` from the last one |
| Layout.ShardCells | upsf/upsf_c_mapping.cpp:643-952 | every field of a shard in its cells, entry i of the map in slot i as key and value |
| Layout.ShardRead | upsf/upsf_c_mapping.cpp:679-964 | every readable record: each field of the shard from its own cells |
| Layout.SessionCells | upsf/upsf.h:342-359 | every field of a session context in its cells |
| Layout.SessionSpecCells | upsf/upsf.h:317-340 | every field of the spec of a session context in its cells |
| Layout.SessionRead | upsf/upsf_c_mapping.cpp:1169-1420 | every readable record: each field of the session context from its own cells |
| Layout.SessionSpecRead | upsf/upsf_c_mapping.cpp:1262-1294 | every readable spec: each field from its own cells |
| Layout.ReadableIs | upsf/upsf_c_mapping.cpp:41-1420 | a record of any kind can be read if and only if its sizes are at most 16 and every text that is used has a NUL among its chars: the preconditions of reading ask for nothing else |
| Layout.DefaultIsClear | upsf/upsf_c_mapping.cpp:41-1420 | a message of any kind in which nothing is set is written as a cleared record |
| Storable.Unchanged | upsf/upsf_c_mapping.cpp:41-1420 | an item comes back from C as it was if and only if it is storable: texts of at most 63 bytes without NUL, at most 16 elements in lists and maps, no timestamps, sub-messages present, and for a network connection a set arm that is not an empty `ss_mptp`, flags all true and no allocated shards |
| Storable.OnePassSettles | upsf/upsf_c_mapping.cpp:41-1420 | after one pass through C every item is storable, if and only if it was not a network connection with an `ss_mptp` without endpoints |
| Storable.ArmUnchanged | upsf/upsf_c_mapping.cpp:396-582 | an arm comes back as it was if and only if it is set, not an empty `ss_mptp`, and its endpoints are present and fit |
| Storable.FlagsUnchanged | upsf/upsf_c_mapping.cpp:591-635 | a map of flags comes back as it was, whatever the order, if and only if it has at most 16 entries, the keys fit and all flags are true |
| Storable.MapUnchanged | upsf/upsf_c_mapping.cpp:895-936 | a map of strings comes back as it was, whatever the order, if and only if it has at most 16 entries and keys and values fit |
| Storable.SomeOrder | upsf/upsf_c_mapping.cpp:896-914 | every map can be visited: the orders the other theorems speak about exist |
| Storable.Losses | upsf/upsf_c_mapping.cpp:396-641 | concrete network connections: a false flag comes back true, 7 allocated shards as 0, an unset arm as `ss_ptp`, an empty `ss_mptp` as unset |
| Storable.LossesOfText | upsf/upsf_c_mapping.cpp:41-86 | a concrete service gateway: of a name of 64 bytes 63 come back, and its time of creation is gone |
| Storable.LossOfElement | upsf/upsf_c_mapping.cpp:178-214 | of a concrete list of 17 strings 16 come back |
| Storable.LossOfKey | upsf/upsf_c_mapping.cpp:882-939 | two concrete keys that agree in their first 63 bytes: one comes back, with the value of whichever was visited later |
| Client.Reader.Read | upsf/upsf.hpp:542-547 | delivers the items ahead one by one; at the end it leaves the caller's item alone |
| Client.FirstIs | upsf/upsf.hpp:542-547 | the first item of a kind is the one at the lowest index that has the kind, and is missing exactly when no item has it |
| Client.AllConcat | upsf/upsf.hpp:892-896 | the items of a kind in two streams read one after the other are those of the first, then those of the second |
| Client.FirstOfAll | upsf/upsf.hpp:542-547 | reading by name sees the same item first that the list starts with |
| Client.ReadByName | upsf/upsf.hpp:523-560 | the reply becomes the first item of the kind, or stays; the result is true exactly when the final status is good and the name asked for is the name of that item, or empty when there was none |
| Client.ReadAll | upsf/upsf.hpp:877-905 | the vector grows by all items of the kind in stream order, also when the status is bad in the end |
| Client.CreateV1 | upsf/upsf.hpp:194-223 | the reply is overwritten whether or not the call succeeded |
| Client.UpdateV1 | upsf/upsf.hpp:312-346 | the reply is overwritten only when the call succeeded |
| Wrapper.Get | upsf/upsf_c_wrapper.cpp:395-429 | all or nothing over any stream: the buffer is filled if and only if there is a buffer, the thread is connected, the final status is good, the name is not empty and the first item of the kind has exactly this name; then it holds that item under an unchanged name, and otherwise no cell changed |
| Wrapper.List | upsf/upsf_c_wrapper.cpp:465-500 | on success the buffer is the records of the first items in stream order followed by zeros and the count is the number of items received, also beyond the size of the buffer; on failure -1 and no cell changed |
| Wrapper.Fill | upsf/upsf_c_wrapper.cpp:489-497 | clears all n records, then writes the first ones, each in its own slot and nothing outside the buffer |
| Wrapper.ListedSlot | upsf/upsf_c_wrapper.cpp:1289-1324 | slot i of a listed buffer is canonical and reads back as the normal form of item i, or is clear when no item reached it |
| Wrapper.ToInt | upsf/upsf_c_wrapper.cpp:499 | the returned count is the number of items if and only if that is below 2^31 |
| Wrapper.Filled | upsf/upsf_c_wrapper.cpp:492-493 | min(k, n) records are filled if and only if k or n is below 2^31 |
| Wrapper.Create | upsf/upsf_c_wrapper.cpp:322-353 | the buffer holds the reply if and only if there is a buffer, the thread is connected and the server accepted what the buffer said; otherwise no cell changed, whatever the client left in its reply object |
| Wrapper.Update | upsf/upsf_c_wrapper.cpp:358-390 | the same for update |
| Wrapper.Lookup | upsf/upsf_c_wrapper.cpp:1558-1595 | only the spec is sent; the whole buffer is the answer if and only if the call succeeded and the answer has a name, otherwise no cell changed |
| Wrapper.AnswerIsCanonical | upsf/upsf_c_wrapper.cpp:348-352 | whatever a server sends, the buffer written for it is canonical, can be sent back, and reads as the normal form |
| Wrapper.EchoUnchanged | upsf/upsf_c_wrapper.cpp:322-390 | against an echoing server a readable buffer of a service gateway, user plane, steering function or session context is unchanged if and only if it was canonical |
| Wrapper.EchoShard | upsf/upsf_c_wrapper.cpp:322-390 | a readable shard is unchanged up to the order of its map if and only if it was canonical with distinct map keys |
| Wrapper.EchoNetworkConnection | upsf/upsf_c_wrapper.cpp:322-390 | a readable network connection is unchanged up to the order of its flags if and only if it was canonical and faithful, that is, under the condition of `NetworkConnections.NcBack` |
| Subscriber.UpsfSubscriber.Notify | upsf/upsf_c_wrapper.cpp:94-169 | the callbacks have been handed, in order, the records of exactly those notified items whose callback is not null, whatever the local record held before; what they were handed earlier stays as it was |
| Subscriber.Serve | upsf/upsf.hpp:970-995 | one notification for every item whose `oneof` is set, in the order of arrival; earlier calls of callbacks stay as they were |
| Subscriber.ReadV1 | upsf/upsf.hpp:937-1006 | over any number of rounds the subscriber is notified of the set items of the rounds up to the first bad status, or of one round without `watch`, and the result is accordingly; calls of callbacks are only added |
| Subscriber.Served | upsf/upsf.hpp:969-1005 | the rounds read are those up to the first bad status, that one included, or one round without `watch` |
| Subscriber.StreamIs | upsf/upsf.hpp:969-1005 | what is received is all items of these rounds, also of the one that fails |
| Subscriber.StreamNext | upsf/upsf.hpp:969-1005 | one round alone delivers all its items; a further round adds all its items unless the loop ended before it |
| Subscriber.OutcomeIs | upsf/upsf.hpp:996-1005 | the result is the status of the last round read, and there is none while every round was good and `watch` is set |
| Subscriber.CallsFor | upsf/upsf_c_wrapper.cpp:94-169 | calls that deliver items one by one hand each kind its own items, once each and in order |
| Subscriber.Subscribe | upsf/upsf_c_wrapper.cpp:1601-1639 | the call is still serving, or has returned -1 because a round ended with a bad status, and there is no other way for it to return; the callback of every kind was called once for each item of its kind in the rounds up to the first bad status, that one included, in order, with its record |
| Subscriber.WatchOnlyFails | upsf/upsf.hpp:996-1005 | with `watch` the loop ends if and only if some round fails, and then with false |
| Subscriber.StreamGrows | upsf/upsf.hpp:969-1005 | serving on only adds to what was delivered, and adds nothing after the loop has ended |
| Subscriber.OncePerItem | upsf/upsf_c_wrapper.cpp:94-169 | the callback of a kind is called once for every item of that kind in the stream, in stream order, and for no other |
| Registry.SlotTable.Open | upsf/upsf_c_wrapper.cpp:249-271 | returns 0; a thread that has a connection keeps it, another gets the one asked for, other threads are not affected |
| Registry.SlotTable.Close | upsf/upsf_c_wrapper.cpp:276-296 | the entry of the thread is gone; 0 exactly when there was one, otherwise -1 |
| Registry.SlotTable.Exists | upsf/upsf_c_wrapper.cpp:305-313 | 1 exactly when the thread has a connection, otherwise 0 |
| Registry.BoundIsEntry | upsf/upsf_c_wrapper.cpp:249-296 | in a lawful history the table entry of a thread is the address of its first open since its last successful close, and there is none exactly when it is not bound |
| Registry.AnswersByBinding | upsf/upsf_c_wrapper.cpp:249-313 | in a lawful history close returns 0 and exists 1 exactly when the thread is bound, an RPC misses only when it is not, and a request goes where the thread is bound |
| Registry.LawfulPush | upsf/upsf_c_wrapper.cpp:249-313 | an event that answers as the sequential operations do extends a lawful history, and the table accordingly |
| Registry.OthersDoNotMatter | upsf/upsf_c_wrapper.cpp:249-296 | a thread is bound as if the events of all other threads had not happened |
| Locking.OpenRefines | upsf/upsf_c_wrapper.cpp:256-268 | the step that opens does to the concurrent table what the sequential operation does, and every thread still has a live slot of its own |
| Locking.CloseRefines | upsf/upsf_c_wrapper.cpp:283-292 | the same for closing; the slot it destroys is nobody else's |
| Locking.StepKeeps | upsf/upsf_c_wrapper.cpp:249-313 | a step of any thread keeps the invariant of all threads |
| Locking.ActKeeps | upsf/upsf_c_wrapper.cpp:249-353 | so does the beginning of a call, also from a callback, an item delivered to a subscription, and its end |
| Locking.RunKeeps | upsf/upsf_c_wrapper.cpp:249-353 | every interleaving of any number of threads keeps the invariant |
| Locking.MutatesAlone | upsf/upsf_c_wrapper.cpp:256-292 | in every reachable state the table changes only in a step of a thread that is alone inside the registry lock: no other thread is between its find and the release of its lock, and no slot or stub mutex is held |
| Locking.PointerIsOwnSlot | upsf/upsf_c_wrapper.cpp:330-336 | in every reachable state the raw pointer of an RPC is the live slot registered for its own thread and no other, and `upsf_slots[tid]` never inserts |
| Locking.LocksNest | upsf/upsf_c_wrapper.cpp:331-336 | a stub mutex is held only with the mutex of the same slot, that only inside the shared registry lock, and only by the thread the slot is registered for |
| Locking.AnsweredByBinding | upsf/upsf_c_wrapper.cpp:249-345 | every run is equivalent to its opens and closes done one at a time, and everything that happened in it answered by the binding of its own thread: the return codes of close and exists, whether an RPC found a slot, and the address of every request, which is that of the sender's first open since its last successful close |
| Locking.EveryCallTakesEffect | upsf/upsf_c_wrapper.cpp:249-353 | in every run, whatever the other threads do, everything a thread has done is what its calls do when it makes them alone, once each and in the order it made them: an open registers its own address, an RPC sends to the bound address or, without one, finds no slot, close and exists answer by the binding; outside every call and in a subscription none is missing, inside a call at most the last |
| Locking.StepEffects | upsf/upsf_c_wrapper.cpp:249-353 | a step leaves the history alone, or adds the one event its call owes; a call takes effect at most once |
| Locking.CallsNest | upsf/upsf_c_wrapper.cpp:1601-1638 | a thread is in the subscriptions it began and that have not failed, and in none when it is outside: a call made in a callback returns to that callback |
| Locking.HappensUnderLocks | upsf/upsf_c_wrapper.cpp:256-345 | every open and close happens under the exclusive registry lock, everything else under the shared one, and every request besides with the slot and the stub mutex of the thread's own slot held |
| Locking.SubscriptionHoldsNothing | upsf/upsf_c_wrapper.cpp:1601-1638 | a thread outside every call, or anywhere in a subscription, holds no lock; from outside and from a callback it may begin any call, a further subscription included; a stream that is waited for may deliver or fail |
| Locking.InsideNeverWaits | upsf/upsf_c_wrapper.cpp:331-336 | a thread that waits neither for the registry lock nor for a stream can always step: the inner mutexes never make it wait |
| Locking.SomebodyCanStep | upsf/upsf_c_wrapper.cpp:249-353 | no deadlock: in every reachable state with a thread in a call, other than waiting for a stream, some thread can step, and one that cannot waits for the registry lock while another is inside it and can step |
| Locking.Returns | upsf/upsf_c_wrapper.cpp:249-353 | a thread that can step finishes its call, and is back in the callback that made it or outside, within nine steps of its own, without any other thread moving; the history has then grown by exactly the event the call still owed, which is fixed by the call and the binding of the thread |
| Locking.EveryScheduleEnds | upsf/upsf_c_wrapper.cpp:249-353 | from every reachable state every schedule of steps, fair or not, has at most ten steps for each thread in a call; and wherever it cannot be continued, all calls have returned, only subscribers wait for their streams, and every lock is free |
| Locking.AllCanReturn | upsf/upsf_c_wrapper.cpp:249-353 | from every reachable state some schedule ends with all calls returned, subscribers waiting for their streams, and every lock free |

## Left out

- gRPC itself (channels, stubs, credentials, deadlines), allocation failure and logging text: library code or text output without an inverse. A warning is kept as a flag that says whether it was logged; where several nested overloads may warn, the flag of the innermost is dropped by the caller.
- What `Read` does after `Finish`: library behaviour. `Subscriber.ReadV1` takes the rounds of a subscription as any sequence; a subscription that is still being served at the end of that sequence has the result None.
- The UPSF server and its merge rules: not part of this repository. Update options are therefore no input of `Client.UpdateV1`; the server may do anything.
- `upsf_delete_...`, `upsf_dump_...`, the `..._to_name` tables and `UPSF_MAX_SLOTS`: one branch without data, text output, or never used.
- The `parent` and `name` filters of subscriber requests: the code indexes elements that were never added, so only the constructors that leave both empty are meaningful. The request of a subscription does not influence the model.
- Unterminated C strings and sizes above 16 in a buffer that is read: undefined behaviour in C, so `Wf...` is a precondition of reading. Messages that are filled from C are fresh, as in every call of the C API, because the overloads append to lists.
- Structure padding, UTF-8 validity of a string that was cut inside a character (serialisation of such a message may fail), and the reuse of a thread id by a later thread.
- The order of two writes to disjoint cells of one record: `Heads.AppendHead` writes the derived state of a user plane before, not after, its service gateway name. The cells that result are the same.
- The host and port of `upsf_open` are kept as a pair instead of the text they are joined to.
- Writer preference and fairness of the shared mutex: `Locking` lets any waiting thread take a lock that is free. An RPC is a step that ends; one that never returns keeps its thread inside. What a callback does besides calling the API is one step.
- The six copies of every C function: the kind is a parameter of `Wrapper.Get`, `Wrapper.List`, `Wrapper.Create` and `Wrapper.Update`.
- Wrapper.Get: assumes that the name in the buffer is terminated; nothing is said about the position of the reader after the call.
- The requests that select kind and name of a read: a stream may hold anything, also items that were not asked for.
- Subscriber.Subscribe: does not say that the call goes on forever, only how it can end.
