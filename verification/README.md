# Philips Hue bridge client: a verified model

This project models the core of a client for the Philips Hue bridge, written for Crestron control systems. It proves properties of that model in Dafny. The client keeps local copies of the bridge's objects: lights and their states, the bridge configuration, scenes, and the software-update device types. It refreshes those copies from the bridge's JSON answers, sends light commands, and runs three timed operations: checking for a software update, applying one, and searching for new lights.

The model covers six parts of the client.

- **Entity merge** (`HueObject.UpdateFrom` and its overrides in `State`, `Scene`, `BridgeConfiguration` and `SoftwareUpdateDeviceTypes`).
  - An object is a value: its kind plus a map from property name to value (`Entities`).
  - Each kind has a declared merge table. The merge walks the table and copies every property whose value differs. Nested objects are merged in place. The properties a kind merges by hand are replaced.
  - The merge is proved to conform to the snapshot, to be idempotent, and to report a change exactly when something differed (`Merging`, `MergeLaws`, `HueObjects`).
- **Collection synchroniser** (`RefreshHueObjects`, `RefreshHueObject`, `ExecuteRefreshLightBulbs`, `SortLightBulbs`).
  - The list, the dictionary by id and each object's `Index` are fields of a class. Its methods update those fields in place (`HueObjectLists`).
  - Each method is proved against a specification on values (`Collections`). The specification drops the ids the bridge no longer has, adds or merges the rest in order, keeps each surviving object's identity, sorts by the chosen order and re-indexes. It also rebuilds the unique-id dictionary, stopping at the first null or repeated id.
- **Command body builder and reconciliation** (`ExecuteSetHueProperties`, `ExecuteSetHueProperty`, `SendStateUpdate`).
  - The body is built from a light's requested properties (`Bodies`, `Colors`). A colour name or hex string is resolved. Colour modes are mutually exclusive, and offsets and the transition time are added.
  - The bridge's answer is reconciled pair by pair: a confirmed pair is stored in the light's state, and the colour mode is updated (`Commands`).
- **Asynchronous state machines**: the software-update check and apply, and the search for new lights (`SoftwareUpdates`, `LightSearches`, `Decisions`).
  - Each begin method tests its preconditions in a fixed order.
  - Each timer tick is a step function on the client's state.
  - The timeouts (60 ticks of 5 s, 900 ticks of 1 s, 65 ticks of 1 s) are proved by induction on the number of ticks.
- **Ramp controller** of a light: raise and lower, brightness/hue/saturation cycling, the timed stop and the temporary change (`LightBulbs`, `LightBulbSetters`, `LightBulbObjects`). The light is a class. One tick advances the running effects, and every setter stops the effects it conflicts with.
- **Small helpers**:
  - `PlatformConverter`'s boolean encoding (`Platform`);
  - `ObservableObject`'s change-notifying assignment (`Observable`);
  - the .NET conversions applied to decoded values (`Json`);
  - the clamping, colour-mode and echo round trips of a light's state (`LightStates`);
  - API paths, URLs and the one-tag XML reader used by discovery (`Addresses`).

`Common`, `Text`, `Progress`, `Prop`, `Entities`, `LightBulbProperties` and `LightOrder` hold shared datatypes, text functions, loop bookkeeping and the sort orders.

I/O becomes parameters:
- The bridge's HTTP answers enter the model as a parameter. For a request, the parameter is the decoded results array. For a refresh, it is the answer text, its decoding as an array of elements, and the decoded snapshot.
- The error events the client raises (`RaiseError`) are appended to an `ErrorChannel` object.
- A timer is a field, and each elapsed call is a method invoked by the caller.

## Model

| member | source | states |
|---|---|---|
| Platform.ToPlatformBool | Core/PlatformConverter.cs:10-13 | true encodes as 1 and false as 0 |
| Platform.ToBool | Core/PlatformConverter.cs:14-17 | a platform value reads as true exactly when it is not 0 |
| Platform.DecodeEncode | Core/PlatformConverter.cs:10-17 | decoding an encoded boolean gives it back |
| Platform.EncodeDecode | Core/PlatformConverter.cs:10-17 | encoding a decoded value gives it back exactly for 0 and 1; every other non-zero value becomes 1 |
| Platform.EncodeInjective | Core/PlatformConverter.cs:10-13 | two booleans encode alike exactly when they are equal |
| Observable.Assign | Core/ComponentModel/ObservableObject.cs:18-28 | after an assignment the property holds the new value, and it changed exactly when the old value was not equal to the new one |
| Observable.AssignIdempotent | Core/ComponentModel/ObservableObject.cs:18-28 | assigning the same value a second time reports no change |
| Observable.ObservableObject.constructor | Core/ComponentModel/ObservableObject.cs:9-11 | a new object has announced nothing |
| Observable.ObservableObject.UpdateProperty | Core/ComponentModel/ObservableObject.cs:18-28 | the field takes the new value and the property name is announced once, exactly when the values differ; otherwise field and announcements are unchanged and the answer is false |
| Observable.ObservableObject.UpdateAutomaticProperty | Core/ComponentModel/ObservableObject.cs:30-40 | the setter is called and the name announced exactly when the getter's value differs from the new one, and the answer says so |
| Observable.AutomaticPropertyIdempotent | Core/ComponentModel/ObservableObject.cs:30-40 | with a setter that stores what the getter reads, after an update the getter reads the new value, so a second update reports no change |
| Json.ToBool | PhilipsHue/HueObject.cs:71-77 | a JSON boolean converts to itself; text that does not read as a boolean throws `FormatException`; null and arrays cannot be converted to a boolean |
| Json.ToUShort | PhilipsHue/HueObject.cs:71-77 | a JSON integer converts to an unsigned 16-bit value exactly when it lies in 0..65535, and otherwise throws an overflow; text that does not convert throws a format or an overflow exception |
| Json.ParseBoolean | PhilipsHue/HueObject.cs:71-77 | `Boolean.Parse`: text that is not a boolean throws `FormatException` |
| Json.BooleanTextPadded | PhilipsHue/HueObject.cs:71-77 | "true" or "false" in any case, with white space or nulls around it, converts to that boolean |
| Json.ParseUInt16 | PhilipsHue/HueObject.cs:71-77 | `UInt16.Parse`: a failure is a format or an overflow exception |
| Json.ParseSigned | PhilipsHue/HueObject.cs:71-77 | signed digits without padding: a failure is a format or an overflow exception |
| Json.NumberCorePad | PhilipsHue/HueObject.cs:71-77 | white space in front, white space and then nulls behind the digits are trimmed away, leaving the digits |
| Json.ParseSignedText | PhilipsHue/HueObject.cs:71-77 | a number's digits after an optional sign parse to the number when it is at most 65535, and otherwise overflow; a minus sign overflows on any number but zero |
| Json.SignedDigitsUnpadded | PhilipsHue/HueObject.cs:71-77 | a signed number's text starts and ends with no padding |
| Json.PaddedNumber | PhilipsHue/HueObject.cs:71-77 | padding around the text of a number does not change what `UInt16.Parse` makes of it |
| Json.UShortTextPadded | PhilipsHue/HueObject.cs:71-77 | padded, optionally signed decimal text converts to its number when the number is at most 65535, overflows above that, and overflows for a minus sign on any number but zero |
| Json.ToText | PhilipsHue/HueObject.cs:71-77 | JSON text converts to itself and null stays null |
| Json.ToCoordinate | PhilipsHue/State.cs:61-62 | a JSON number converts to its value as a coordinate |
| Json.ToPair | PhilipsHue/State.cs:55-64 | the XY setter reads a pair only from an array of at least two items; two numbers give exactly those coordinates; null throws `ArgumentNullException` |
| Json.ParseEnum | PhilipsHue/State.cs:66-67 | alert and effect text that names a member ignoring case parses to that member; the model accepts no other text (numeric, padded and comma-list forms are listed under Left out) |
| Json.FindName | PhilipsHue/State.cs:66-67 | a member name is found exactly when it equals the text ignoring case; any other text throws `ArgumentException` in the model (the other forms `Enum.Parse` accepts are listed under Left out) |
| LightStates.ModeOfKeyOf | PhilipsHue/State.cs:296-368 | the key the `ColorMode` setter stores for a mode reads back, through the `ColorModeKey` setter, as that same mode |
| LightStates.KeyOfModeOf | PhilipsHue/State.cs:334-368 | a key survives the trip through its mode exactly when it is null, empty, "hs", "ct" or "xy"; any other key (upper case, unknown) does not |
| LightStates.ModeChainSets | PhilipsHue/State.cs:296-327 | the `ColorMode` setter and the key setter it triggers end with the mode asked for, a key that agrees with it, and no other property changed |
| LightStates.KeyChainSets | PhilipsHue/State.cs:337-367 | the `ColorModeKey` setter ends in a consistent pair: a new key leaves the mode that key reads as, the key stays as given unless the mode changed, and nothing else changes |
| LightStates.ClampBrightness | PhilipsHue/State.cs:222 | the stored brightness is at most 254, and a value within that limit is kept |
| LightStates.ClampSaturation | PhilipsHue/State.cs:242 | the stored saturation is at most 254, and a value within that limit is kept |
| LightStates.ClampColorTemperature | PhilipsHue/State.cs:264 | the stored colour temperature lies in 153..500, and a value within those limits is kept |
| LightStates.EchoRoundTrip | PhilipsHue/State.cs:47-70 | when the bridge echoes a setter's request value under its wire name, decoding it through the wire-name table and storing it gives the state the setter itself stores |
| LightStates.EchoPlain | PhilipsHue/State.cs:51-65 | the echo round trip for the on, bri, hue, sat, xy and ct setters, clamps included |
| LightStates.EchoMember | PhilipsHue/State.cs:66-67 | the echo round trip for the alert and effect setters, whose requests carry the lower-cased member name |
| LightStates.AlertEcho | PhilipsHue/State.cs:66 | an alert's lower-cased name parses back, ignoring case, to that alert |
| LightStates.EffectEcho | PhilipsHue/State.cs:67 | an effect's lower-cased name parses back, ignoring case, to that effect |
| LightStates.StoreKeepsLimits | PhilipsHue/State.cs:212-368 | any setter keeps brightness and saturation at most 254, colour temperature in 153..500, and the colour mode agreeing with its key |
| LightStates.LightState.constructor | PhilipsHue/State.cs:38-41 | a new state holds the given data, has announced nothing and has no request action installed |
| LightStates.LightState.SetColorMode | PhilipsHue/State.cs:293-328 | the mode is stored and announced only when it changed, and then the key is set to the mode's key (null, "", "hs", "ct", "xy"), with that setter's own effects |
| LightStates.LightState.SetColorModeKey | PhilipsHue/State.cs:334-368 | the key is stored and announced only when it changed, and then the mode is set to the one the lower-cased key names (null gives `NotSupported`, an unknown key `None`) |
| LightStates.LightState.Set | PhilipsHue/State.cs:154-170 | a public setter hands its clamped value, wire name, turn-on flag and colour mode to the request action, stores it only when no action is installed or the action accepts, and notifies in every case; the internal setters go through the change-notification primitive |
| LightStates.LightState.UpdateHueProperty | PhilipsHue/HueObject.cs:59-69 | an unknown wire name changes nothing; a value that does not convert raises the conversion's exception and stores nothing; otherwise the registered setter runs with the converted value |
| Merging.GetPut | PhilipsHue/SoftwareUpdateDeviceTypes.cs:43-47 | a platform-boolean property read through its getter and written back through its setter is unchanged, and two such properties read alike exactly when they are equal |
| Merging.MergeXYAsWrittenFailsWithoutPair | PhilipsHue/State.cs:180-188 | as written, the XY step throws when either state has no colour pair, where the corrected step merges a missing pair without a change; when both pairs are present the two steps agree |
| Merging.MergeWhiteListAsWritten | PhilipsHue/BridgeConfiguration.cs:214-244 | as written, the whitelist step throws `NullReferenceException` exactly when the incoming whitelist is null, or the local one is null while the incoming one has a key; otherwise it is the whitelist step the merge uses |
| Merging.WhiteListAsWrittenFailsWithoutList | PhilipsHue/BridgeConfiguration.cs:215 | a configuration answer without a whitelist makes the step as written throw, where the merge keeps the local whitelist unchanged |
| Merging.WhiteListAsWrittenFailsWithoutLocal | PhilipsHue/BridgeConfiguration.cs:215-217 | a null local whitelist facing a non-empty incoming one makes the step as written throw, where the merge leaves the whitelist null |
| Merging.MergeTypeAsWritten | PhilipsHue/LightBulb.cs:62-66 | as written, a light's type step throws `NullReferenceException` exactly when a null incoming type replaces a set one (the `Type` setter lower-cases it at LightBulb.cs:137); otherwise it is the table step the merge uses |
| Merging.TypeAsWrittenFailsWithoutType | PhilipsHue/LightBulb.cs:130-137 | a light answer without a type makes the step as written throw, where the merge stores the null type and reports a change |
| Merging.MergeXYAsWritten | PhilipsHue/State.cs:180-188 | as written, the XY step completes exactly when both pairs are present, and then takes the incoming pair, reporting a change exactly when the pairs differ |
| Merging.ReplaceIfDifferent | PhilipsHue/Scene.cs:109-116 | a hand-merged property takes the incoming value, reporting a change exactly when the two differ |
| Merging.StepOf | PhilipsHue/HueObject.cs:104-140 | a property takes a table step exactly when it is in its kind's table (reading platform booleans as integers exactly when it is one); only the bridge configuration has a whitelist step; a property is left alone exactly when it is neither in the table nor merged by hand |
| Merging.MergeValue | PhilipsHue/HueObject.cs:112-139 | a table step that reports no change leaves the value as it was |
| Merging.Merge | PhilipsHue/HueObject.cs:104-140 | a merge keeps the entity's kind and its set of properties, and a merge that reports no change leaves the entity exactly as it was |
| Merging.HandMergedDeclared | PhilipsHue/State.cs:106 | every property a kind merges by hand (XY, a scene's lights, the device types' lights and sensors, the whitelist) is declared by that kind and lies outside its merge table |
| MergeLaws.MergeConforms | PhilipsHue/HueObject.cs:104-140 | merging keeps the entity's kind and leaves every property of its declared type |
| MergeLaws.MergeSelf | PhilipsHue/HueObject.cs:112-139 | merging an entity with a snapshot equal to it changes nothing and reports no change |
| MergeLaws.MergeIdempotent | PhilipsHue/HueObject.cs:119-131 | after a merge, merging the same snapshot again changes nothing and reports false |
| MergeLaws.MergeChangedIff | PhilipsHue/HueObject.cs:112-139 | a merge reports a change exactly when the merged entity differs from the one before, nested entities included |
| MergeLaws.MergeValueIdempotent | PhilipsHue/HueObject.cs:119-136 | one table step, taken a second time with the same incoming value, changes nothing |
| MergeLaws.MergeValueChangedIff | PhilipsHue/HueObject.cs:120-136 | one table step reports a change exactly when the property's value changed, whether it was overwritten or merged in place |
| MergeLaws.WhiteListIdempotent | PhilipsHue/BridgeConfiguration.cs:214-244 | the whitelist step taken a second time with the same incoming whitelist changes nothing |
| MergeLaws.WhiteListChangedIff | PhilipsHue/BridgeConfiguration.cs:214-244 | the whitelist step reports a change exactly when the whitelist changed |
| MergeLaws.OtherKindUnchanged | PhilipsHue/Scene.cs:103-105 | a merge from a snapshot of another kind returns false and changes nothing |
| MergeLaws.UntabledKept | PhilipsHue/HueObject.cs:114-137 | a property outside the merge table that no override handles (such as the bridge's `PortalServices`) is never updated by a merge |
| MergeLaws.HandReplaced | PhilipsHue/Scene.cs:109-117 | the XY pair, a scene's `Lights` and the device types' `Lights` and `Sensors` end as the snapshot's, and the merge reports a change when they differed |
| MergeLaws.WhiteListReplaced | PhilipsHue/BridgeConfiguration.cs:215-226 | when an incoming whitelist key is missing locally, the whole whitelist is replaced by the incoming one and a change is reported |
| MergeLaws.LightCapabilities | PhilipsHue/LightBulb.cs:130-154 | a light has capabilities only when its type is set, and then they are the ones its type gives, always including on/off |
| MergeLaws.MergeSetsCapabilities | PhilipsHue/LightBulb.cs:130-154 | merging a light with a snapshot that has a type takes that type and leaves the capabilities it gives, as the `Type` setter recomputes them |
| HueObjects.UpdateValue | PhilipsHue/HueObject.cs:119-136 | one pass of the table loop computes exactly the specified table step: a differing scalar or a null current value is overwritten, a set entity is merged recursively in place |
| HueObjects.FindMissingKey | PhilipsHue/BridgeConfiguration.cs:215-227 | the first whitelist loop answers true exactly when some incoming key is missing locally |
| HueObjects.MergeEntries | PhilipsHue/BridgeConfiguration.cs:235-244 | the second whitelist loop merges each incoming entry into the local entry under the same key, keeps local-only entries, and reports whether any entry merge reported a change |
| HueObjects.UpdateWhiteList | PhilipsHue/BridgeConfiguration.cs:214-244 | the whitelist is replaced when an incoming key is new and merged entry by entry otherwise, exactly as the specified whitelist step |
| HueObjects.UpdateTable | PhilipsHue/HueObject.cs:104-140 | the loop over the merge table leaves every table property as its step gives it and reports the OR of the steps' flags |
| HueObjects.UpdateFrom | PhilipsHue/HueObject.cs:104-140 | the table walk followed by the kind's own steps (State.cs:172-191, Scene.cs:101-120, SoftwareUpdateDeviceTypes.cs:52-81, BridgeConfiguration.cs:206-247) computes exactly the specified merge and its change flag |
| BridgeResults.Classify | PhilipsHue/BridgeClient.cs:346-365 | an error is a user error exactly when its type is 101 (link button not pressed), and then carries the fixed link-button description; any other error passes its own description on |
| BridgeResults.Message | PhilipsHue/BridgeClient.cs:341-344 | an error raised from a plain message is never a user error |
| BridgeResults.ReportsCount | PhilipsHue/BridgeClient.cs:2329-2337 | one report is raised per failed result, so none is raised exactly when every result succeeded |
| BridgeResults.ErrorChannel.constructor | PhilipsHue/BridgeClient.cs:346-365 | a new channel has raised nothing |
| BridgeResults.ErrorChannel.Raise | PhilipsHue/BridgeClient.cs:361-364 | the report is appended to what the subscribers have seen |
| BridgeResults.ErrorChannel.ParseResults | PhilipsHue/BridgeClient.cs:2323-2345 | the answer is true exactly when no result carries an error, and the failed results' reports are raised in order |
| BridgeResults.ErrorChannel.CheckForErrors | PhilipsHue/BridgeClient.cs:2287-2321 | without the `"error"` marker or a decoded array nothing is raised and the answer is false; otherwise every error element is reported in order and the answer is whether there was one |
| Collections.WithId | PhilipsHue/BridgeClient.cs:2761 | the snapshot stored or merged under a key carries that key as its `Id`, and keeps every other property |
| Collections.DropElements | PhilipsHue/BridgeClient.cs:2700-2707 | after the removals a handle is listed exactly when it was listed and not removed |
| Collections.DropDistinct | PhilipsHue/BridgeClient.cs:2700-2707 | removing objects from a list without repeats leaves a list without repeats |
| Collections.DropTwice | PhilipsHue/BridgeClient.cs:2700-2707 | removing one set of objects and then another is removing both at once, so the order of the removal loop does not matter |
| Collections.RemoveFirstDrop | PhilipsHue/BridgeClient.cs:2706 | `List.Remove`, which removes the first occurrence, removes the object entirely from a list without repeats |
| Collections.DropAbsent | PhilipsHue/BridgeClient.cs:2700-2707 | removing objects that are not listed leaves the list as it is |
| Collections.Removed | PhilipsHue/BridgeClient.cs:2694-2708 | after the removal loop, the dictionary holds exactly the old ids the bridge still has, under their old objects; every other id's object is gone from the list; the objects themselves and their indexes are untouched |
| Collections.RemoveStep | PhilipsHue/BridgeClient.cs:2702-2706 | one turn of the removal loop removes the id and its object when the bridge no longer has it and changes nothing otherwise |
| Collections.AddOrUpdate | PhilipsHue/BridgeClient.cs:2745-2770 | adding or updating one object keeps the lists well formed: the list without repeats, every listed object in the dictionary, every dictionary entry listed |
| Collections.AddOrUpdateCases | PhilipsHue/BridgeClient.cs:2756-2769 | a known id has its object merged in place with the snapshot, the list, dictionary and indexes untouched, and the answer is the merge's change flag; a new id appends the snapshot, indexes it at its position (below 65536 objects), and answers true |
| Collections.AddOrUpdateFrame | PhilipsHue/BridgeClient.cs:2745-2770 | the dictionary gains the id and nothing else, the other ids keep their objects, and no other object changes |
| Collections.AddOrUpdateKeepsOrder | PhilipsHue/BridgeClient.cs:2766-2767 | objects are only ever appended: the old list is a prefix of the new one and old indexes are kept |
| Collections.AddOrUpdateTwice | PhilipsHue/BridgeClient.cs:2756-2762 | updating an object a second time with the same snapshot changes nothing and answers false |
| Collections.AddAll | PhilipsHue/BridgeClient.cs:2709-2715 | the add-or-update loop keeps the lists well formed |
| Collections.AddAllSnoc | PhilipsHue/BridgeClient.cs:2711-2714 | each turn of the loop adds or updates one entry and records its snapshot when that reported a change |
| Collections.AddAllKeys | PhilipsHue/BridgeClient.cs:2709-2715 | after the loop the dictionary holds the old ids and every decoded id |
| Collections.AddAllKeepsHandles | PhilipsHue/BridgeClient.cs:2756-2762 | an id known before the loop keeps its object through it |
| Collections.AddAllKeepsOrder | PhilipsHue/BridgeClient.cs:2709-2715 | the loop only appends, keeps old indexes, and reports at most one change per decoded entry |
| Collections.AddAllAppendsNew | PhilipsHue/BridgeClient.cs:2764-2767 | every object the loop appends is a new one |
| Collections.ChangesAreSnapshots | PhilipsHue/BridgeClient.cs:2713-2714 | every object in the change list is a decoded snapshot carrying its own key |
| Collections.NewIdsReported | PhilipsHue/BridgeClient.cs:2764-2769 | an id the client did not know is always in the change list |
| Collections.Sync | PhilipsHue/BridgeClient.cs:2694-2715 | a refresh (removal, then add or update) keeps the lists well formed |
| Collections.SyncIds | PhilipsHue/BridgeClient.cs:2694-2715 | after a refresh the dictionary holds exactly the decoded ids, and an id the client already knew keeps its object |
| Collections.SyncDrops | PhilipsHue/BridgeClient.cs:2700-2707 | after a refresh no object whose id the bridge no longer has is listed |
| Collections.SyncKeepsOrder | PhilipsHue/BridgeClient.cs:2694-2715 | the surviving objects keep their relative order at the front of the list and their indexes; new objects come after them |
| Collections.Keys | PhilipsHue/BridgeClient.cs:2103-2108 | every listed light has a sort key, its `Name` or its `Id` |
| Collections.SortLightBulbs | PhilipsHue/BridgeClient.cs:2103-2108 | the sorted list is a permutation of the list |
| Collections.Reindex | PhilipsHue/BridgeClient.cs:1509-1510 | re-indexing gives an index to every listed light and keeps the others |
| Collections.ReindexPositions | PhilipsHue/BridgeClient.cs:1509-1510 | each listed light's `Index` becomes its position, cast to 16 bits, and unlisted objects keep theirs |
| Collections.Sorted | PhilipsHue/BridgeClient.cs:1506-1511 | sorting and re-indexing keeps the lists well formed |
| Collections.SortedOrder | PhilipsHue/BridgeClient.cs:2088-2092 | the list after `ReSortLightBulbs` is a permutation of the old one, in ascending key order, and the dictionary and the objects are untouched |
| Collections.SortedPositions | PhilipsHue/BridgeClient.cs:2091-2092 | after sorting every light's `Index` is its position modulo 65536, and exactly its position when there are fewer than 65536 lights |
| Collections.UniqueIndexBuilt | PhilipsHue/BridgeClient.cs:1498-1504 | the dictionary is built without an exception exactly when every light has a unique id and no two share one, and it then maps each light's unique id to that light and holds nothing else |
| Collections.UniqueIndexStops | PhilipsHue/BridgeClient.cs:1502 | once the loop has thrown, the later lights change nothing |
| LightOrder.NotAfterTotal | PhilipsHue/BridgeClient.cs:2105-2107 | any two names compare one way or the other |
| LightOrder.NotAfterTransitive | PhilipsHue/BridgeClient.cs:2105-2107 | the comparison is transitive |
| LightOrder.KeyTotal | PhilipsHue/BridgeClient.cs:2105-2107 | the order on nullable keys, null first, is total |
| LightOrder.KeyTransitive | PhilipsHue/BridgeClient.cs:2105-2107 | the order on nullable keys is transitive |
| LightOrder.SortBy | PhilipsHue/BridgeClient.cs:2105-2107 | `OrderBy` returns a permutation of its input |
| LightOrder.SortBySorted | PhilipsHue/BridgeClient.cs:2105-2107 | `OrderBy` returns its input in ascending key order |
| LightOrder.SortByDistinct | PhilipsHue/BridgeClient.cs:2105-2107 | sorting a list without repeats gives a list without repeats |
| HueObjectLists.HueObjectList.constructor | PhilipsHue/BridgeClient.cs:2676-2679 | a new list starts empty, with an empty dictionary |
| HueObjectLists.HueObjectList.AddOrUpdateHueObject | PhilipsHue/BridgeClient.cs:2745-2770 | the lists and the answer are exactly the specified add-or-update |
| HueObjectLists.HueObjectList.RemoveMissing | PhilipsHue/BridgeClient.cs:2694-2708 | the removal loop over a copy of the dictionary leaves exactly the specified removal, whatever order the ids are visited in |
| HueObjectLists.HueObjectList.RemoveIfMissing | PhilipsHue/BridgeClient.cs:2702-2706 | one turn of the removal loop takes the specified step |
| HueObjectLists.HueObjectList.AddOrUpdateAll | PhilipsHue/BridgeClient.cs:2709-2715 | the add-or-update loop leaves the specified lists and change list |
| HueObjectLists.HueObjectList.RefreshHueObjects | PhilipsHue/BridgeClient.cs:2667-2718 | the answer's errors are reported; on an error answer nothing changes and the change list is null; otherwise the lists are synchronised with the decoded dictionary and the changed snapshots returned |
| HueObjectLists.HueObjectList.RefreshHueObject | PhilipsHue/BridgeClient.cs:2722-2743 | the answer's errors are reported; on an error answer or a null snapshot nothing changes and the answer is false; otherwise the snapshot is added or merged under its id |
| HueObjectLists.HueObjectList.SortAndIndex | PhilipsHue/BridgeClient.cs:2088-2092 | the list is sorted and re-indexed as specified |
| HueObjectLists.HueObjectList.IndexInListOrder | PhilipsHue/BridgeClient.cs:1509-1510 | every listed object's `Index` is set to its position, and nothing else changes |
| HueObjectLists.LightBulbList.constructor | PhilipsHue/BridgeClient.cs:246-247 | the client starts with no unique-id dictionary and sorts by name |
| HueObjectLists.LightBulbList.RebuildUniqueIds | PhilipsHue/BridgeClient.cs:1498-1504 | the loop leaves exactly the specified unique-id dictionary, or stops with its exception |
| HueObjectLists.LightBulbList.ExecuteRefreshLightBulbs | PhilipsHue/BridgeClient.cs:1487-1511 | the lights are refreshed, the unique-id dictionary rebuilt, and, when that did not throw and the order is not by Hue id, the list sorted and re-indexed; the sort order is untouched |
| HueObjectLists.LightBulbList.RefreshLightBulbs | PhilipsHue/BridgeClient.cs:1479-1485 | the refresh's errors are reported, followed by the exception's message when the unique-id dictionary could not be built |
| HueObjectLists.LightBulbList.ReSortLightBulbs | PhilipsHue/BridgeClient.cs:2088-2092 | the lights are sorted and re-indexed in the current order whatever it is |
| Commands.Spell | PhilipsHue/BridgeClient.cs:2241-2243 | the body sent holds one name/value pair per parameter, in order, each under its wire name |
| Commands.FailedPairsStay | PhilipsHue/BridgeClient.cs:2245-2261 | once writing back a confirmed value has thrown, nothing further is written back |
| Commands.FailedResultsStay | PhilipsHue/BridgeClient.cs:2245-2261 | once writing back has thrown, the remaining results of the answer write nothing back either |
| Commands.ResultsStop | PhilipsHue/BridgeClient.cs:2245-2261 | an exception while writing back one result ends the write-back: later results change nothing |
| Commands.PairsSplit | PhilipsHue/BridgeClient.cs:2249-2259 | writing back the confirmations of a body is writing back those of its first part and then those of the rest |
| Commands.ConfirmOne | PhilipsHue/BridgeClient.cs:2256-2258 | one confirmed value is written into the light's state by name exactly as the specified write-back, leaving the request flag set |
| Commands.ConfirmMap | PhilipsHue/BridgeClient.cs:2249-2259 | for one successful result, each body parameter whose address (`/lights/<id>/state/<name without _inc>`) the bridge confirmed is written back, in body order |
| Commands.ConfirmAll | PhilipsHue/BridgeClient.cs:2245-2261 | every successful result's confirmations are written back in order, stopping at the first exception |
| Commands.Client.constructor | PhilipsHue/BridgeClient.cs:242 | the default transition time starts at -1, the bridge's own, and nothing has been sent |
| Commands.Client.SetDefaultTransitionTime | PhilipsHue/BridgeClient.cs:2185-2189 | the default transition time is set and nothing is sent |
| Commands.Client.SendStateUpdate | PhilipsHue/BridgeClient.cs:2227-2279 | the light and the client end exactly as the specified send: nothing for an empty body; otherwise the body, with the transition time when asked, is put to `lights/<id>/state`, the answer's errors reported, confirmed values written back, then the chosen colour mode recorded when all succeeded or the light refreshed when something failed |
| Commands.Client.ExecuteSetHueProperties | PhilipsHue/BridgeClient.cs:1583-1796 | the multi-property command ends exactly as specified: true at once for a light inside a request, an invalid colour reported, otherwise the built body sent with the request's own transition time when it has one; the request flag is restored |
| Commands.Client.ExecuteSetHueProperty | PhilipsHue/BridgeClient.cs:1798-1817 | the one-property command ends exactly as specified: true at once inside a request, otherwise the turn-on pair when asked for and the light is off, then the value, sent with the transition time; the request flag is restored |
| Commands.Client.SetHuePropertiesAction | PhilipsHue/BridgeClient.cs:322-332 | the multi-property command under the `Execute` wrapper: an exception is reported and the answer is false |
| Commands.Client.SetHuePropertyAction | PhilipsHue/BridgeClient.cs:322-332 | the one-property command under the `Execute` wrapper |
| Commands.Client.Catch | PhilipsHue/BridgeClient.cs:322-332 | the wrapper answers the command's answer, or false after reporting the exception's message |
| Commands.Send | PhilipsHue/BridgeClient.cs:2227-2279 | an empty body sends nothing and answers true; otherwise exactly one put goes to the light's state address with the body (and the transition time when asked for) and the answer's errors are raised; true means every result succeeded; a read-back is asked for only after a failed request that chose a mode, answering false |
| Commands.SetProperties | PhilipsHue/BridgeClient.cs:1583-1796 | a light already inside a request answers true and nothing changes; at most one put is sent, after the earlier ones; an unknown colour name sends nothing, raises `Invalid color: <name>` and answers false; a builder exception changes nothing and escapes |
| Commands.SetProperty | PhilipsHue/BridgeClient.cs:1798-1817 | a light already inside a request answers true and nothing changes; otherwise exactly one put goes out, carrying the setter's body followed by the light's transition time |
| Commands.Execute | PhilipsHue/BridgeClient.cs:322-332 | the wrapper answers true exactly when the command answered true; an exception is raised as a message and nothing else changes |
| Commands.ReadyCommand | PhilipsHue/BridgeClient.cs:1783-1789 | a command whose body was built sends it with the request's own transition time appended when it is not negative, and asks the send to add the light's otherwise |
| Commands.SendIgnoresFlag | PhilipsHue/BridgeClient.cs:2227-2279 | the send does not depend on the request flag and leaves it as it found it |
| Commands.StripPlain | PhilipsHue/BridgeClient.cs:2252 | removing `_inc` leaves a name that holds none unchanged |
| Commands.StripInc | PhilipsHue/BridgeClient.cs:2252 | removing `_inc` from an offset's name gives the name of the value it offsets |
| Commands.StripWire | PhilipsHue/BridgeClient.cs:1614-1779 | every parameter name a command sends, stripped of `_inc`, is the name of a state value |
| Commands.DecodeName | PhilipsHue/State.cs:47-70 | a value written back by name is stored in the state field of that name |
| Commands.StoreFrame | PhilipsHue/State.cs:59-69 | writing back one value leaves every other state field as it was |
| Commands.ConfirmPairsFrame | PhilipsHue/BridgeClient.cs:2254-2258 | a state value whose address the bridge did not confirm is not written back |
| Commands.Unconfirmed | PhilipsHue/BridgeClient.cs:2245-2261 | a state value that no successful result confirms keeps its value, whatever the body held |
| Commands.InProgressAnswersTrue | PhilipsHue/BridgeClient.cs:1585-1586 | both commands answer true at once, sending nothing, while the light is inside a request |
| Commands.EmptyCommand | PhilipsHue/BridgeClient.cs:2233-2234 | a command that has nothing to set sends nothing and answers true |
| Commands.SendPuts | PhilipsHue/BridgeClient.cs:2236-2244 | a send puts exactly one body, with the transition time appended when asked, to the light's state address, and reports the answer's errors |
| Commands.CommandBody | PhilipsHue/BridgeClient.cs:1583-1796 | a command with something to set puts the built pairs followed by the chosen transition time to the light's state address |
| Commands.CommandMode | PhilipsHue/BridgeClient.cs:2263-2278 | the command answers whether every result succeeded; with a chosen colour mode the light then holds that mode, or is refreshed once when something failed; without one it is not refreshed |
| Commands.RequestKey | PhilipsHue/State.cs:154-170 | every setter's request names a plain state value that is neither the transition time nor, when it turns the light on, `on` itself |
| Commands.StripFixed | PhilipsHue/BridgeClient.cs:2252 | `on` and `transitiontime` pass through the `_inc` removal unchanged |
| Commands.PrefixDistinct | PhilipsHue/BridgeClient.cs:2253 | distinct names give distinct confirmation addresses |
| Commands.ConfirmOnePair | PhilipsHue/BridgeClient.cs:2249-2259 | one body parameter is written back exactly when its address is confirmed, with the confirmed value |
| Commands.ConfirmRequestBody | PhilipsHue/BridgeClient.cs:1806-1810 | for a setter's body, a confirmation of its value writes back that value and nothing else |
| Commands.ConfirmedSetter | PhilipsHue/State.cs:154-170 | a setter whose value the bridge confirms answers true and leaves the light holding that value, and the setter's colour mode with its mode-chain when it has one |
| Bodies.HasAppend | PhilipsHue/BridgeClient.cs:1592-1780 | a parameter appears in a body made of two parts exactly when it appears in one of them |
| Bodies.HasOne | PhilipsHue/BridgeClient.cs:1592-1780 | a one-pair body holds exactly its own parameter |
| Bodies.XYPart | PhilipsHue/BridgeClient.cs:1620-1637 | the XY group never reports an unknown colour: it either chooses XY or raises, on a missing pair or on a missing offset |
| Bodies.CTPart | PhilipsHue/BridgeClient.cs:1639-1656 | the colour temperature group always succeeds |
| Bodies.HSPart | PhilipsHue/BridgeClient.cs:1658-1690 | the hue and saturation group always succeeds |
| Bodies.ColorPart | PhilipsHue/BridgeClient.cs:1691-1763 | a resolved colour chooses the given mode and sends at most one pair, the `xy` pair |
| Bodies.OffsetPart | PhilipsHue/BridgeClient.cs:1764-1781 | the offset group always succeeds |
| Bodies.TransitionOrder | PhilipsHue/BridgeClient.cs:2157-2173 | the transition time sent is the first non-negative one of the request's own, the light's and the client's default, and none is sent when all three are negative |
| Bodies.PlanMode | PhilipsHue/BridgeClient.cs:1617-1781 | the colour mode a body implies is XY for an XY request, else colour temperature, else hue and saturation, else XY for a colour, else hue and saturation for an offset, else none |
| Bodies.Plan | PhilipsHue/BridgeClient.cs:1600-1781 | a built body starts with the turn-on pair and the brightness group; an unknown colour is reported only on the colour path, under the request's own colour text; an XY request with either pair missing raises `NullReferenceException` |
| Bodies.HeadHas | PhilipsHue/BridgeClient.cs:1592-1615 | the body opens with `on` exactly when the light is off, carries `bri` exactly when a brightness was asked for that differs from the light's, and `bri_inc` exactly when only an offset was asked for |
| Bodies.XYHas | PhilipsHue/BridgeClient.cs:1620-1637 | `xy` is sent exactly when a pair was asked for that differs from the light's or the light is out of XY mode; `xy_inc` exactly when only an XY offset was asked for |
| Bodies.CTHas | PhilipsHue/BridgeClient.cs:1639-1656 | `ct` is sent exactly when a temperature was asked for that differs or the light is out of the chosen mode; `ct_inc` exactly when only a temperature offset was asked for |
| Bodies.PairHas | PhilipsHue/BridgeClient.cs:1756-1762 | a group of at most one pair holds a parameter exactly when that pair is it |
| Bodies.LastHas | PhilipsHue/BridgeClient.cs:1658-1781 | with hue or saturation asked for, each is sent when the light is out of the chosen mode or it was asked for and differs; else a colour sends `xy` when it differs or the mode does; else each offset asked for is sent |
| Bodies.PlanHas | PhilipsHue/BridgeClient.cs:1592-1781 | the body holds a parameter exactly when one of its groups does |
| Bodies.PlanModes | PhilipsHue/BridgeClient.cs:1617-1694 | the colour mode follows the priority xy, then ct, then hue and saturation or colour: each later group keeps an earlier group's mode |
| Bodies.PlanSends | PhilipsHue/BridgeClient.cs:1592-1781 | a built body holds a parameter exactly when the request and the light's state call for it, the whole table of conditions written out |
| Bodies.PlanTurnsOn | PhilipsHue/BridgeClient.cs:1592-1597 | a light that is off is turned on by the first pair of the body; a light that is on is never sent `on` |
| Bodies.PlanExclusive | PhilipsHue/BridgeClient.cs:1600-1781 | a body never holds both a value and its offset for brightness, colour temperature, or hue and saturation, and sends `xy_inc` only when no XY pair was asked for |
| Bodies.ColorWithXYOffset | PhilipsHue/BridgeClient.cs:1632-1763 | an XY offset and a colour name can both be sent in one body: nothing in the builder excludes it |
| Bodies.PlanPairsHueSaturation | PhilipsHue/BridgeClient.cs:1665-1689 | when the light is out of the chosen mode both hue and saturation are sent, even if only one was asked for |
| Bodies.PlanFailures | PhilipsHue/BridgeClient.cs:1620-1752 | the builder raises when an XY pair is asked for and either pair is missing, or when an XY offset is asked for without one; reports an unknown colour exactly when the colour path is taken with a name the table does not hold; and raises on the colour path exactly when the hex form fails to parse or the light has no pair |
| Bodies.BuildBody | PhilipsHue/BridgeClient.cs:1583-1781 | the step-by-step builder appends exactly the specified body and chooses the specified mode |
| Bodies.AppendHead | PhilipsHue/BridgeClient.cs:1592-1615 | the first steps append the turn-on and brightness pairs |
| Bodies.AppendXY | PhilipsHue/BridgeClient.cs:1620-1637 | the XY step appends the XY group |
| Bodies.AppendCT | PhilipsHue/BridgeClient.cs:1639-1656 | the colour temperature step appends its group |
| Bodies.AppendLast | PhilipsHue/BridgeClient.cs:1658-1781 | the last step appends hue and saturation, the colour, or the offsets |
| Bodies.AppendHS | PhilipsHue/BridgeClient.cs:1658-1690 | the hue and saturation step appends its pairs |
| Bodies.AppendColor | PhilipsHue/BridgeClient.cs:1691-1763 | the colour step appends the converted pair or stops on an unknown name or an exception |
| Colors.HexDigit | PhilipsHue/BridgeClient.cs:1710-1712 | a hexadecimal digit's value is below 16 |
| Colors.DigitChar | PhilipsHue/BridgeClient.cs:1710-1712 | every value below 16 has a digit that reads back as it |
| Colors.HexValue | PhilipsHue/BridgeClient.cs:1723-1725 | the digits of an empty field read as zero |
| Colors.ParseHex | PhilipsHue/BridgeClient.cs:1710-1732 | `int.Parse` with `HexNumber` fails only with `FormatException` |
| Colors.TrimHashes | PhilipsHue/BridgeClient.cs:1707 | `TrimStart('#')` leaves no leading hash |
| Colors.HexValueOne | PhilipsHue/BridgeClient.cs:1710-1712 | one digit reads as its own value |
| Colors.HexValueTwo | PhilipsHue/BridgeClient.cs:1723-1725 | two digits read as sixteen times the first plus the second |
| Colors.ParseDigits | PhilipsHue/BridgeClient.cs:1710-1732 | a field without surrounding white space parses to its digits' value, or throws `FormatException` when a character is not a digit |
| Colors.ParseHexPair | PhilipsHue/BridgeClient.cs:1723-1732 | a byte written as two digits parses back to itself |
| Colors.ParseHexDigit | PhilipsHue/BridgeClient.cs:1710-1719 | a value below 16 written as one digit parses back to itself |
| Colors.TrimOneHash | PhilipsHue/BridgeClient.cs:1707 | the hash in front of a colour is trimmed and nothing else |
| Colors.LongFormRoundTrip | PhilipsHue/BridgeClient.cs:1721-1733 | `#rrggbb` and `#aarrggbb` written from a colour read back as that colour, the alpha byte ignored |
| Colors.ShortFormAsWrittenIsDark | PhilipsHue/BridgeClient.cs:1708-1713 | as written, `#fff` reads as (15, 15, 15), nearly black, while `#ffffff` reads as white |
| Colors.DoubledDigit | PhilipsHue/BridgeClient.cs:1708-1725 | a digit doubled reads as seventeen times the digit, and a non-digit doubled fails the same way |
| Colors.ShortFormDoubles | PhilipsHue/BridgeClient.cs:1708-1725 | corrected, `#rgb` reads as the colour `#rrggbb` does, failures included |
| Colors.ParseHexRgbAsWritten | PhilipsHue/BridgeClient.cs:1708-1733 | as written, a hex form that fails throws `FormatException`, and one whose length after the hashes is not 3, 4, 6 or 8 reads as black |
| Colors.ParseHexRgb | PhilipsHue/BridgeClient.cs:1708-1733 | corrected, the same failures and the same black for other lengths |
| Colors.CorrectedScalesShortForms | PhilipsHue/BridgeClient.cs:1708-1725 | the corrected and the as-written readings fail on the same texts, agree on every length but 3 and 4, and on those the corrected channels are seventeen times the as-written ones |
| Colors.Resolve | PhilipsHue/BridgeClient.cs:1699-1752 | a name is looked up ignoring case, unknown names giving no colour; a hex form gives a colour or throws |
| LightBulbs.Capabilities | PhilipsHue/LightBulb.cs:130-155 | a recognised type, compared lower-cased, gives on/off and its other capabilities, every colour light is also dimmable, and an unrecognised type gives none |
| LightBulbs.CapabilitiesIgnoreCase | PhilipsHue/LightBulb.cs:137 | two types that differ only in case give the same capabilities |
| LightBulbs.KnownColorTemperature | PhilipsHue/LightBulb.cs:410-419 | the temperature is reported as warm or daylight exactly when it equals that preset's mireds, and as custom otherwise |
| LightBulbs.BrightnessChange | PhilipsHue/LightBulb.cs:583-594 | a raise or lower step is the requested change held between 2 (one percent of 254) and 32767, and the change itself when already inside |
| LightBulbs.RaiseLowerOpposite | PhilipsHue/LightBulb.cs:583-612 | `Raise` and `Lower` hand over the same request except for the offset's sign: a positive brightness offset, flagged, and nothing else set |
| LightBulbs.High | PhilipsHue/LightBulb.cs:639-1011 | every ramp's range is a proper interval |
| LightBulbs.StoreValue | PhilipsHue/LightBulb.cs:1092-1108 | a value inside a ramp's bounds, stored through the state's setter, reads back unchanged |
| LightBulbs.Put | PhilipsHue/LightBulb.cs:1029-1144 | replacing one ramp's bookkeeping leaves the other five as they were |
| LightBulbs.IdleSound | PhilipsHue/LightBulb.cs:620-958 | a light that has run no ramp satisfies the ramp invariant: every timer agrees with its flag, raise and lower store no direction, at most one brightness ramp in progress |
| LightBulbs.PutSound | PhilipsHue/LightBulb.cs:1029-1144 | the conditions under which replacing one ramp keeps the invariant |
| LightBulbs.Stopped | PhilipsHue/LightBulb.cs:1126-1144 | a stopped ramp has no timer, is not in progress, and keeps its sweep time |
| LightBulbs.DirectedEffect | PhilipsHue/LightBulb.cs:1044-1049 | storing a direction changes no timer, flag, time or step |
| LightBulbs.DirectedSound | PhilipsHue/LightBulb.cs:1044-1049 | storing a direction keeps the invariant |
| LightBulbs.OrientationRule | PhilipsHue/LightBulb.cs:1044-1049 | a started ramp always has a direction, and runs down exactly when the light is on, the value is not below the minimum, and either it is at the maximum or the stored direction was down |
| LightBulbs.DivBounds | PhilipsHue/LightBulb.cs:1051-1054 | the integer divisions of the timing stay within their operands |
| LightBulbs.Timing | PhilipsHue/LightBulb.cs:1051-1054 | the repeat interval is at least 100 ms and the step between 1 and the maximum; the interval times the number of ticks does not exceed the sweep time; a sweep time below 100 ms divides by zero and throws |
| LightBulbs.Next | PhilipsHue/LightBulb.cs:1063-1113 | a tick turns exactly when the value is at or past its bound in the direction of travel, and otherwise steps towards the bound without passing it, moving by at least one |
| LightBulbs.StepsUpBound | PhilipsHue/LightBulb.cs:1100-1101 | a rising ramp needs no more ticks than its distance to the maximum, and one when the step covers it |
| LightBulbs.StepsDownBound | PhilipsHue/LightBulb.cs:1104-1110 | a falling ramp needs no more ticks than its distance to the minimum, and one when the step covers it |
| LightBulbs.RunUpReaches | PhilipsHue/LightBulb.cs:1069-1102 | a rising ramp reaches exactly its maximum, never leaves its bounds, and turns on the following tick |
| LightBulbs.RunDownReaches | PhilipsHue/LightBulb.cs:1084-1111 | a falling ramp reaches exactly its minimum, never leaves its bounds, and turns on the following tick |
| LightBulbs.WriteKeeps | PhilipsHue/State.cs:47-70 | a write through the state's setter changes no ramp, no request flag and nothing the light itself holds |
| LightBulbs.WriteStep | PhilipsHue/LightBulb.cs:1098-1108 | a ramp's step written through the state's setter is read back when the state stores it and leaves the value unchanged otherwise |
| LightBulbs.StopEffect | PhilipsHue/LightBulb.cs:1126-1144 | stopping a ramp clears its timer and flag, keeps its time, and touches no other ramp and nothing else of the light |
| LightBulbs.StopKeepsSound | PhilipsHue/LightBulb.cs:1126-1144 | stopping a ramp keeps the invariant |
| LightBulbs.StopDimsStopsDims | PhilipsHue/LightBulb.cs:523-528 | stopping the brightness ramps leaves none of them in progress and the other ramps untouched |
| LightBulbs.StopCyclesStopsAll | PhilipsHue/LightBulb.cs:1013-1027 | `StopCycles` leaves no ramp in progress and touches nothing but the ramps |
| LightBulbs.StopCyclesKeepsSound | PhilipsHue/LightBulb.cs:1013-1027 | `StopCycles` keeps the invariant |
| LightBulbs.StopDimsKeepsSound | PhilipsHue/LightBulb.cs:523-528 | stopping the brightness ramps keeps the invariant |
| LightBulbs.SetDirectionEffect | PhilipsHue/LightBulb.cs:714-719 | the lower ramp's direction setter turns the light off once its brightness is at the minimum and otherwise does nothing; raise ignores the direction; a cycle stores it |
| LightBulbs.OrientEffect | PhilipsHue/LightBulb.cs:1037-1049 | starting a ramp first drops its timer, then stores the direction chosen for it, if any |
| LightBulbs.LaunchRamps | PhilipsHue/LightBulb.cs:1029-1124 | a launch leaves the ramps and the exception of the oriented, timed launch |
| LightBulbs.AfterLaunch | PhilipsHue/LightBulb.cs:1029-1124 | a launch leaves the saved request, the handed requests and the request flags alone; without an exception the ramp runs and is in progress |
| LightBulbs.LaunchedEffect | PhilipsHue/LightBulb.cs:1051-1123 | after a launch the ramp runs, in progress, with the computed interval and step, or, when the timing throws, it neither runs nor is in progress; no other ramp changes |
| LightBulbs.LaunchedSound | PhilipsHue/LightBulb.cs:1029-1124 | a launch with no rival brightness ramp in progress keeps the invariant |
| LightBulbs.RivalsStopped | PhilipsHue/LightBulb.cs:639-790 | before a brightness ramp starts, the other two brightness ramps are stopped and the ramp itself is left as it was |
| LightBulbs.RivalsKeepSound | PhilipsHue/LightBulb.cs:639-790 | stopping the rivals keeps the invariant |
| LightBulbs.StartEffect | PhilipsHue/LightBulb.cs:639-958 | a start on a ramp already in progress changes nothing; a brightness ramp's start leaves no other brightness ramp in progress |
| LightBulbs.AfterStart | PhilipsHue/LightBulb.cs:639-958 | a start on a ramp already in progress changes nothing; a start leaves the saved request, the handed requests and the request flags alone |
| LightBulbs.StartKeepsSound | PhilipsHue/LightBulb.cs:639-958 | every start keeps the invariant |
| LightBulbs.PreparedEffect | PhilipsHue/LightBulb.cs:651-652 | setting the minimum brightness before a launch changes no ramp |
| LightBulbs.StartRaiseFromOff | PhilipsHue/LightBulb.cs:651-652 | `StartRaise` on a light that is off starts from the minimum brightness |
| LightBulbs.StartCycleDirection | PhilipsHue/LightBulb.cs:1044-1049 | a cycle keeps its stored direction when the light is on and the value is inside its bounds, and otherwise runs up below the minimum or when off, down at the maximum |
| LightBulbs.TickSteps | PhilipsHue/LightBulb.cs:1097-1110 | a tick that steps writes the step's value through the state and changes no ramp |
| LightBulbs.TickTurns | PhilipsHue/LightBulb.cs:1069-1108 | a tick at the bound keeps the value, stops the ramp, stores the opposite direction for a cycle, and turns the light off for the lower ramp at the minimum |
| LightBulbs.AfterTick | PhilipsHue/LightBulb.cs:1063-1113 | a tick with no timer changes nothing; a tick leaves the saved request, the handed requests, the request flags and the transition time alone |
| LightBulbs.TickKeepsSound | PhilipsHue/LightBulb.cs:1063-1113 | every tick keeps the invariant |
| LightBulbSetters.StopsForEffect | PhilipsHue/LightBulb.cs:277-466 | each property setter halts exactly its ramps (all six for `On` = false, `Alert` and `Effect`; the brightness ramps for `Brightness`; the property's own cycle for hue, saturation and the temperatures; none for `XY` or `On` = true) and changes nothing else before assigning |
| LightBulbSetters.SettingEffect | PhilipsHue/LightBulb.cs:277-466 | after a property setter, its ramps are halted, the others untouched, and the state holds what the state setter writes (nothing for a custom named temperature) |
| LightBulbSetters.AfterSetting | PhilipsHue/LightBulb.cs:277-466 | a property setter leaves the saved request, the handed requests, the request flags and the transition time alone; one with no state assignment leaves the state and the outbox alone |
| LightBulbSetters.SettingKeepsSound | PhilipsHue/LightBulb.cs:277-466 | every property setter keeps the ramp invariant |
| LightBulbSetters.StopIfEffect | PhilipsHue/LightBulb.cs:523-534 | one guarded stop of `SetProperties` halts its ramp when its flag is raised, changes nothing otherwise, and keeps the invariant |
| LightBulbSetters.SetPropertiesHalts | PhilipsHue/LightBulb.cs:521-537 | `SetProperties` halts every ramp fighting a value it sets: the brightness ramps for brightness, and each cycle for its own property |
| LightBulbSetters.SetPropertiesSpares | PhilipsHue/LightBulb.cs:521-537 | `SetProperties` leaves every other ramp as it was |
| LightBulbSetters.SetPropertiesKeepsSound | PhilipsHue/LightBulb.cs:521-537 | `SetProperties` keeps the ramp invariant |
| LightBulbSetters.RaiseLowerHandOffset | PhilipsHue/LightBulb.cs:583-612 | `Raise` and `Lower` stop no ramp and hand the client one request whose brightness offset is the clamped change, positive and negative respectively |
| LightBulbSetters.ToggleTwice | PhilipsHue/LightBulb.cs:539-542 | a toggle the state stores flips `On`, and two toggles give the light back its `On` |
| LightBulbSetters.InstantOnEffect | PhilipsHue/LightBulb.cs:544-562 | `InstantOn` sends only the maximum brightness, with a zero transition time, restores the light's transition time, and leaves the light at full brightness when the state stores it |
| LightBulbSetters.InstantOffEffect | PhilipsHue/LightBulb.cs:564-581 | `InstantOff` sends `on` = false with a zero transition time, asks for one refresh, restores the transition time, and leaves the light off when the state stores it |
| LightBulbSetters.SavedAsWrittenLosesBrightness | PhilipsHue/LightBulb.cs:962-991 | as written, the saved request never raises the brightness flag, so ending the change does not give back the saved brightness |
| LightBulbSetters.SavedRestores | PhilipsHue/LightBulb.cs:962-991 | corrected, the saved request gives back the light's brightness and the values of its colour mode, with no offset, colour name or transition time |
| LightBulbSetters.SavedAsWritten | PhilipsHue/LightBulb.cs:962-991 | as written, the saved request holds the light's brightness with its flag clear, its own transition time unset and no colour name |
| LightBulbSetters.Saved | PhilipsHue/LightBulb.cs:962-991 | corrected, the saved request raises the brightness flag and otherwise is the request as written |
| LightBulbSetters.TemporaryChangeRestores | PhilipsHue/LightBulb.cs:962-1009 | a change begun and ended hands the client exactly one request, which restores the light as it was when the change began, and leaves no change under way; beginning twice keeps the first saved look |
| LightBulbSetters.AfterBegin | PhilipsHue/LightBulb.cs:962-991 | a begin during a change changes nothing; otherwise it changes only the saved request, saving one that restores the light's look |
| LightBulbSetters.AfterEnd | PhilipsHue/LightBulb.cs:993-1009 | an end leaves no change under way; with no change under way it changes nothing; otherwise it hands the client the saved request and leaves the state and the outbox alone |
| LightBulbSetters.SetTimeEffect | PhilipsHue/LightBulb.cs:631-636 | a ramp's time setter stores the time for its next launch, keeps the invariant, and that launch throws exactly when the time is below 100 ms |
| LightBulbObjects.LightBulb.constructor | PhilipsHue/LightBulb.cs:30-37 | a new light holds its state, no requests, idle ramps with their default times, transition time -1 and no saved change, and satisfies the ramp invariant |
| LightBulbObjects.LightBulb.Write | PhilipsHue/LightBulb.cs:1098-1108 | a write through the state's setter leaves the light exactly as specified |
| LightBulbObjects.LightBulb.Stop | PhilipsHue/LightBulb.cs:666-677 | `StopRaise`, `StopLower`, `StopCycleDim`, ...: the ramp stopped behind its in-progress guard, the invariant kept |
| LightBulbObjects.LightBulb.StopDims | PhilipsHue/LightBulb.cs:300-307 | the three brightness ramps stopped in order, the invariant kept |
| LightBulbObjects.LightBulb.StopCycles | PhilipsHue/LightBulb.cs:1013-1027 | every ramp stopped in the source's order, the invariant kept |
| LightBulbObjects.LightBulb.SetDirection | PhilipsHue/LightBulb.cs:714-719 | the ramp's direction setter, as specified |
| LightBulbObjects.LightBulb.Orient | PhilipsHue/LightBulb.cs:1037-1049 | the timer dropped and the direction chosen, as specified |
| LightBulbObjects.LightBulb.Arm | PhilipsHue/LightBulb.cs:1051-1123 | the timing computed and the ramp started, or the exception, as specified; nothing but the ramps changes |
| LightBulbObjects.LightBulb.Launch | PhilipsHue/LightBulb.cs:1029-1124 | `StartCycleProperty`, as specified |
| LightBulbObjects.LightBulb.Start | PhilipsHue/LightBulb.cs:639-958 | `StartRaise`, `StartLower`, `StartCycleDim`, ...: the specified start, the invariant kept |
| LightBulbObjects.LightBulb.Turn | PhilipsHue/LightBulb.cs:1069-1094 | the turn at a bound: the opposite direction handed to the setter, then the ramp halted |
| LightBulbObjects.LightBulb.Advance | PhilipsHue/LightBulb.cs:1063-1113 | one timer tick of a running ramp, as specified |
| LightBulbObjects.LightBulb.Tick | PhilipsHue/LightBulb.cs:1063-1113 | one timer tick, nothing once the timer is gone, the invariant kept |
| LightBulbObjects.LightBulb.HaltFor | PhilipsHue/LightBulb.cs:277-466 | the stops a property setter performs, as specified |
| LightBulbObjects.LightBulb.Set | PhilipsHue/LightBulb.cs:277-466 | a property setter: its stops, then the state setter, the invariant kept |
| LightBulbObjects.LightBulb.SetProperties | PhilipsHue/LightBulb.cs:521-537 | the guarded stops, then the request handed to the client, the invariant kept |
| LightBulbObjects.LightBulb.Toggle | PhilipsHue/LightBulb.cs:539-542 | `On` written as its negation through the state |
| LightBulbObjects.LightBulb.Refresh | PhilipsHue/LightBulb.cs:515-519 | one more refresh is asked for and nothing else changes |
| LightBulbObjects.LightBulb.InstantOn | PhilipsHue/LightBulb.cs:544-562 | `InstantOn`, as specified |
| LightBulbObjects.LightBulb.InstantOff | PhilipsHue/LightBulb.cs:564-581 | `InstantOff`, as specified |
| LightBulbObjects.LightBulb.Raise | PhilipsHue/LightBulb.cs:583-594 | `Raise`: the raise request handed over through `SetProperties`, the invariant kept |
| LightBulbObjects.LightBulb.Lower | PhilipsHue/LightBulb.cs:601-612 | `Lower`: the lower request handed over through `SetProperties`, the invariant kept |
| LightBulbObjects.LightBulb.BeginTemporaryChange | PhilipsHue/LightBulb.cs:962-991 | the look saved (corrected to restore brightness) unless a change is under way |
| LightBulbObjects.LightBulb.EndTemporaryChange | PhilipsHue/LightBulb.cs:993-1009 | the saved request forgotten and handed over through `SetProperties`, the invariant kept |
| LightBulbObjects.LightBulb.SetTime | PhilipsHue/LightBulb.cs:631-636 | a ramp's time set, the invariant kept |
| LightBulbObjects.LightBulb.SetTransitionTime | PhilipsHue/LightBulb.cs:503-507 | the transition time set, nothing else changed |
| LightBulbObjects.LightBulb.SetType | PhilipsHue/LightBulb.cs:130-155 | the type set and its capabilities derived |
| SoftwareUpdates.BeginCheckStarted | PhilipsHue/BridgeClient.cs:1111-1182 | a check starts exactly when the client is initialised, no timer runs, the refresh succeeds, the bridge reports no update and no check under way, the API is 1.4 or later, the portal is signed on and every result of the request succeeds; a started check has the timer checking, a zero count and the check flag set |
| SoftwareUpdates.BeginCheckOrder | PhilipsHue/BridgeClient.cs:1137-1168 | the begin answers with the verdict of the first precondition test that holds, and leaves only the refreshed configuration behind |
| SoftwareUpdates.CheckRules | PhilipsHue/BridgeClient.cs:1137-1168 | six precondition tests, none of which answers `Started` or `CheckOrUpdateAlreadyInProgress` |
| SoftwareUpdates.BeginCheck | PhilipsHue/BridgeClient.cs:1111-1182 | an uninitialised client or one with a timer changes nothing; a begin that does not start keeps the timer and the count; `CheckOrUpdateAlreadyInProgress` is answered exactly when an initialised client has a timer |
| SoftwareUpdates.CheckTick | PhilipsHue/BridgeClient.cs:1183-1268 | a check tick never leaves the apply operation running |
| SoftwareUpdates.CheckTicks | PhilipsHue/BridgeClient.cs:1183-1268 | a run of check ticks never leaves the apply operation running |
| SoftwareUpdates.CheckTimesOut | PhilipsHue/BridgeClient.cs:1182-1236 | a check the bridge never finishes keeps its timer and reports nothing for 59 ticks; the 60th tick (five minutes at five seconds) stops the timer, clears the check flag and reports TimedOut |
| SoftwareUpdates.CheckLostConnectionKeepsRunning | PhilipsHue/BridgeClient.cs:1208-1243 | once the bridge clears its check flag, a signed-on portal completes the check and stops the timer, while a lost portal connection is reported with the timer left running |
| SoftwareUpdates.BeginApplyStarted | PhilipsHue/BridgeClient.cs:1304-1358 | an update starts being applied exactly when the client is initialised, no timer runs, the refresh succeeds, the update state is not none, downloading or applying, and every result of the request succeeds; the timer then applies from a zero count |
| SoftwareUpdates.BeginApplyOrder | PhilipsHue/BridgeClient.cs:1330-1346 | the begin answers with the verdict of the first precondition test that holds, and leaves only the refreshed configuration behind |
| SoftwareUpdates.ApplyRules | PhilipsHue/BridgeClient.cs:1330-1346 | three precondition tests, none of which answers `Started`, `Failed` or `CheckOrUpdateAlreadyInProgress` |
| SoftwareUpdates.BeginApply | PhilipsHue/BridgeClient.cs:1304-1358 | an uninitialised client or one with a timer changes nothing; a begin that does not start keeps the timer and the count; `CheckOrUpdateAlreadyInProgress` is answered exactly when an initialised client has a timer |
| SoftwareUpdates.ApplyTick | PhilipsHue/BridgeClient.cs:1359-1441 | an apply tick leaves either no timer or the apply timer |
| SoftwareUpdates.ApplyTicks | PhilipsHue/BridgeClient.cs:1359-1441 | a run of apply ticks leaves either no timer or the apply timer |
| SoftwareUpdates.ApplyCompletes | PhilipsHue/BridgeClient.cs:1359-1413 | a tick that sees the notify flag completes: the timer stops, `Completed` is raised, the answer to clearing the flag is reported, and the client's flag is cleared exactly when every result succeeded |
| SoftwareUpdates.ApplyRefreshFails | PhilipsHue/BridgeClient.cs:1422-1441 | a tick whose refresh throws stops the timer, clears the check flag, keeps the count, reports the exception and raises `Failed` |
| SoftwareUpdates.ApplyWaits | PhilipsHue/BridgeClient.cs:1370-1411 | a tick before the limit that does not see the notify flag only counts and keeps the refreshed status, raising nothing |
| SoftwareUpdates.ApplyTimesOut | PhilipsHue/BridgeClient.cs:1356-1414 | an update that never completes keeps the timer and reports nothing for 899 ticks; the 900th (fifteen minutes at one second) stops it and reports TimedOutWaitingForUpdateToComplete |
| SoftwareUpdates.SoftwareUpdater.constructor | PhilipsHue/BridgeClient.cs:236-239 | a new client has no timer and a zero count |
| SoftwareUpdates.SoftwareUpdater.BeginCheckForSoftwareUpdates | PhilipsHue/BridgeClient.cs:1111-1182 | the begin leaves the state, answer and raised errors of the check's begin specification |
| SoftwareUpdates.SoftwareUpdater.CheckTimerElapsed | PhilipsHue/BridgeClient.cs:1183-1302 | a timer tick leaves the state, completion event and raised errors of the check tick specification |
| SoftwareUpdates.SoftwareUpdater.BeginApplySoftwareUpdates | PhilipsHue/BridgeClient.cs:1304-1358 | the begin leaves the state, answer and raised errors of the apply's begin specification |
| SoftwareUpdates.SoftwareUpdater.ApplyTimerElapsed | PhilipsHue/BridgeClient.cs:1359-1469 | a timer tick leaves the state, completion event and raised errors of the apply tick specification |
| LightSearches.BeginSearchRestarts | PhilipsHue/BridgeClient.cs:1842-1869 | an initialised client whose request succeeds and is confirmed installs fresh search state (zero count, no ids, a timer) whatever state it had, raising nothing; the earlier timer is not modelled |
| LightSearches.BeginSearch | PhilipsHue/BridgeClient.cs:1819-1869 | a search starts exactly when the client is initialised and every result succeeds and confirms the lights' address; a failed begin changes nothing and raises at least one error; a started search has a timer, a zero count and no ids |
| LightSearches.AllConfirmed | PhilipsHue/BridgeClient.cs:1850-1861 | the loop over the results answers true exactly when no successful result lacks the lights' address |
| LightSearches.ScanStopsAtDate | PhilipsHue/BridgeClient.cs:1966-1972 | a lastscan member holding a date ends the walk: nothing after it is read |
| LightSearches.ScanFacts | PhilipsHue/BridgeClient.cs:1966-2009 | the walk reports Completed only when an earlier tick did or some lastscan member holds a finished scan; it only appends to the ids found, and every id it appends is a light member of the answer |
| LightSearches.ScanEntries | PhilipsHue/BridgeClient.cs:1966-2009 | the walk only appends to the ids, the announced lights and the errors; an outcome once reached stays; the only exceptions that stop it are a null reference and an invalid cast |
| LightSearches.LightKeysGrow | PhilipsHue/BridgeClient.cs:1998 | an id that is a light member of the rest of the answer is one of the whole answer |
| LightSearches.SearchTimesOut | PhilipsHue/BridgeClient.cs:1865-1913 | a scan that stays active keeps the timer and reports nothing for 64 ticks; the 65th stops it and reports Completed with no light to refresh |
| LightSearches.Finish | PhilipsHue/BridgeClient.cs:1887-1910 | a tick counts once and changes nothing else of the state but the timer; an outcome stops the timer; reaching the 65-second limit always gives an outcome |
| LightSearches.AfterScan | PhilipsHue/BridgeClient.cs:1957-2022 | the ids found are kept; an exception stops the timer and raises `Failed`, refreshing nothing; lights are refreshed only when the search completed, and then exactly the ids found |
| LightSearches.SearchTick | PhilipsHue/BridgeClient.cs:1869-1950 | without a timer a tick does nothing; otherwise it counts at most once and only adds ids; an outcome stops the timer; lights are refreshed only on completion, and they are the ids found |
| LightSearches.LightSearch.constructor | PhilipsHue/BridgeClient.cs:248 | a new client has no search timer, a zero count and no ids found |
| LightSearches.LightSearch.BeginSearchForNewLightBulbs | PhilipsHue/BridgeClient.cs:1819-1869 | the begin leaves the state, answer and raised errors of the search's begin specification |
| LightSearches.LightSearch.ScanNewLights | PhilipsHue/BridgeClient.cs:1963-2009 | the loop over the answer's members leaves the ids, outcome, announced lights, raised errors and exception of the walk's specification |
| LightSearches.LightSearch.SearchTimerElapsed | PhilipsHue/BridgeClient.cs:1869-2022 | a timer tick leaves the state, completion event, announced lights and lights to refresh of the tick specification |
| LightSearches.LightSearch.ReadNewLights | PhilipsHue/BridgeClient.cs:1957-2022 | reading the answer leaves what the walk and the end of the tick specify |
| LightSearches.LightSearch.CountTick | PhilipsHue/BridgeClient.cs:1888-1913 | the count goes up and the timer stops on an outcome or at the limit, a time-out counting as Completed |
| Addresses.MakeApi | PhilipsHue/BridgeClient.cs:2629-2632 | no parts make the empty path |
| Addresses.SplitSegment | PhilipsHue/BridgeClient.cs:2629-2632 | a segment followed by a slash splits into that segment and the split of the rest |
| Addresses.SplitMakeApi | PhilipsHue/BridgeClient.cs:2629-2632 | a path made of segments splits back into exactly those segments |
| Addresses.UrlPath | PhilipsHue/BridgeClient.cs:2621-2632 | a request's URL is the bridge's address followed by `api/<user name>/<parts>`, which splits back into those segments |
| Addresses.FirstIsIndexOf | PhilipsHue/BridgeClient.cs:652-670 | the first occurrence of a tag at or after a position is the one the search finds |
| Addresses.ReadXmlValueFinds | PhilipsHue/BridgeClient.cs:652-670 | a value is read exactly when the document has a first start tag followed, after some text, by an end tag, and the value is that text |
| Addresses.ReadXmlValueOfElement | PhilipsHue/BridgeClient.cs:652-670 | the non-empty value of an element holding no end tag is read back from it |
| Addresses.ElementEnd | PhilipsHue/BridgeClient.cs:660-664 | in such an element the first end tag after the start tag is the element's own |
| Decisions.Decide | PhilipsHue/BridgeClient.cs:1137-1168 | the list gives no answer exactly when none of its tests holds |
| Decisions.DecideFirst | PhilipsHue/BridgeClient.cs:1330-1346 | the list answers with the verdict of its first test that holds, whatever the later tests say |
| Decisions.DecideSome | PhilipsHue/BridgeClient.cs:1137-1168 | any answer the list gives is the verdict of its first test that holds |
| Json.RoundToEven | PhilipsHue/HueObject.cs:76 | a double converted to an integer property lands on a nearest integer, within one half of it, and a value half-way between two integers goes to the even one |
| Json.ParseDecimalText | PhilipsHue/HueObject.cs:76 | the decimal text of a number, as a number converted to a text property is written, parses back to that number |

## Left out

- Transport is not modelled. HTTP requests, SSDP and portal discovery, and the JSON decoding of answers (`JsonConvert`) are left out. Answers enter already decoded, as parameters: a results array, an answer text with its element array, a decoded snapshot, or the members of the new-lights object in order.
- `MakeBody`'s JSON text is not modelled. A request body is the ordered list of (name, value) pairs it serialises.
- Threads, locks (`LockScope`) and timers are left out. A timer is a field, and each elapsed callback is a method the caller invokes. Because ticks cannot overlap, the `inProgress` guard against overlapping timer callbacks is not modelled.
- `SoftwareUpdates.ApplyTick`: the model does not cover a tick after the apply timer has stopped, because it requires the apply timer to be running. Unlike the check's callback, the source's apply callback has no test for a stopped timer.
- Exceptions raised inside a tick are modelled only where the model has an exception to raise. These are:
  - the configuration refresh of an update tick;
  - the conversion exceptions of the new-lights walk.
- `new Version(...)` parsing of the bridge's API version is not modelled. Whether the version is older than 1.4 enters as a flag, or as the exception the parse raised.
- Logging and events are modelled only in part:
  - Logging is left out.
  - Events are not modelled, except error reports (an `ErrorChannel`), the completion result of each timed operation and the lights announced during a search. The events left out are `PropertyChanged` of ordinary properties, `LightBulbPropertiesChanged` and `BridgeConfigurationPropertiesChanged`.
  - For `UpdateFrom`, the model keeps the reported changed flag, not the sequence of notifications.
- `SendStateUpdateAndRaiseChangedEvent` follows its non-`SIMPL_SHARP` branch. The `SIMPL_SHARP` build passes `true` for `addTransitionTime` and raises `LightBulbPropertiesChanged`, which is not modelled.
- Colour conversion enters as parameters:
  - `RgbToXY` (floating-point colour conversion) is the parameter `toXY`.
  - The table of colour names is the parameter `colors`.
- Floating-point arithmetic is not modelled. Coordinates are exact reals.
- The percentage setters of a light (`BrightnessPercentage`, `SaturationPercentage`, `RaisePercentage`, `LowerPercentage` and the like) are not modelled. They scale through floating point into the integer setters that are modelled.
- Case folding (`ToLower`, `OrdinalIgnoreCase`) covers ASCII letters only, which is all the client's keys, tags and type names use.
- `OrderBy` on names is modelled as a character-by-character comparison. .NET's default comparison is culture-sensitive.
- `InitializeLightBulbObject` is not modelled as code. It installs a light's request actions and the model takes them as installed: a setter hands its request to the action and, when the bridge confirms it, the value is stored.
- `ExecuteRefreshLightBulb` and `ExecuteDeleteLightBulb` are not modelled. A completed search returns the ids of the lights to refresh and re-sort. Refreshing one light is `RefreshHueObject`.
- Exceptions are modelled by the name of their type, and `Execute` reports that name on the error channel.
- The date values of the configuration and of a scene (`Utc`, `LocalTime`, `LastUpdated`) are held as the text the bridge sends. The merge compares them for equality only. The daily bridge refresh that depends on the clock is not modelled.
- Groups (`Group`, `GroupState`) and the client's periodic refresh timer are outside this model.
- `SoftwareUpdates.CheckTick`: the function's own `ensures` states only which timer can remain. What a tick does is stated by `CheckTimesOut`, `CheckLostConnectionKeepsRunning` and `SoftwareUpdater.CheckTimerElapsed`.
- `SoftwareUpdates.CheckTicks`: the same, for a run of check ticks.
- `SoftwareUpdates.ApplyTicks`: its own `ensures` states only which timer can remain. The time-out is stated by `ApplyTimesOut`, and a single tick by `SoftwareUpdater.ApplyTimerElapsed`.
- `Addresses.MakeApi`: its own `ensures` covers only the empty path. The join is stated by `SplitMakeApi` and `UrlPath`, and those cover parts without slashes only.
- `Decisions.Decide`: its own `ensures` states only when there is no answer. Which answer it gives is stated by `DecideFirst` and `DecideSome`.
- The main path follows the corrected behaviour of each row under "## Findings". The code as written is modelled beside it by `Colors.ParseHexRgbAsWritten`, `Merging.MergeXYAsWritten` and `LightBulbSetters.SavedAsWritten`, and each difference is exhibited by a lemma. The members below are therefore stated for the corrected behaviour only:
- Colors.Resolve: reads a three- or four-digit hex colour with each digit doubled (`Colors.ParseHexRgb`), where the source reads each digit as a whole byte (`Colors.ParseHexRgbAsWritten`).
- Bodies.ColorPart: uses the corrected hex reading of `Colors.Resolve`.
- Bodies.AppendColor: uses the corrected hex reading of `Colors.Resolve`.
- Bodies.PlanSends: states the body built with the corrected hex reading of `Colors.Resolve`.
- Bodies.BuildBody: builds the body with the corrected hex reading of `Colors.Resolve`.
- Commands.Client.ExecuteSetHueProperties: sends the body built with the corrected hex reading of `Colors.Resolve`.
- Commands.Client.SetHuePropertiesAction: the same as `Commands.Client.ExecuteSetHueProperties`.
- HueObjects.UpdateFrom: merges the XY pair with the corrected `Merging.ReplaceIfDifferent`, which treats a missing pair as a value. The source throws `NullReferenceException` when either pair is null (`Merging.MergeXYAsWritten`).
- HueObjects.UpdateFrom: does not represent a null id list. A scene's `Lights` and a device type's `Lights` and `Sensors` are always lists, so the `ArgumentNullException` that `SequenceEqual` throws on a null list (Scene.cs:109 and 132, SoftwareUpdateDeviceTypes.cs:60, 70, 99 and 105) is not modelled.
- MergeLaws.HandReplaced: stated for the corrected XY merge and for id lists that are never null, as for `HueObjects.UpdateFrom`.
- HueObjectLists.HueObjectList.RefreshHueObjects: merges through `HueObjects.UpdateFrom`, so it follows the corrected XY merge and has no null id lists.
- HueObjectLists.HueObjectList.RefreshHueObject: the same as `HueObjectLists.HueObjectList.RefreshHueObjects`.
- HueObjectLists.LightBulbList.ExecuteRefreshLightBulbs: the same as `HueObjectLists.HueObjectList.RefreshHueObjects`.
- HueObjectLists.LightBulbList.RefreshLightBulbs: the same as `HueObjectLists.HueObjectList.RefreshHueObjects`.
- LightBulbSetters.AfterBegin: saves a request that also restores brightness (`LightBulbSetters.Saved`). The source never sets `SetBrightness` in the saved request (`LightBulbSetters.SavedAsWritten`).
- LightBulbObjects.LightBulb.BeginTemporaryChange: the same as `LightBulbSetters.AfterBegin`.
- Json.ToText: a JSON number with a fraction throws `FormatException` in the model. .NET formats the double as text, and that formatting is not modelled.
- Json.ToCoordinate: JSON text throws `FormatException` in the model. .NET parses the text as a float, and that parsing is not modelled. `Json.ToPair` inherits this.
- Json.ToBool: its own `ensures` does not state the number cases (a number is true when it is not zero). Which texts convert is stated by `Json.BooleanTextPadded`.
- Json.ToUShort: its own `ensures` does not state the conversion of booleans, or of fractional numbers (rounded to even). Which texts convert is stated by `Json.UShortTextPadded`.
- LightSearches.BeginSearchRestarts: a search begun while another runs replaces the timer field, and the model drops the old timer. The source does not stop it (BridgeClient.cs:1869), so the old timer keeps firing and its ticks are not modelled.
- LightSearches.LightSearch.BeginSearchForNewLightBulbs: the same as `LightSearches.BeginSearchRestarts`.
- Merging.Merge: does not throw on a null whitelist. A bridge configuration's `WhiteList` is null when the answer has no "whitelist" (BridgeConfiguration.cs:269 gives it no initial value). The source then throws `NullReferenceException`: at BridgeConfiguration.cs:215 when the incoming whitelist is null, and at :217 when the local one is null and the incoming one has a key. The merge keeps the local whitelist with no change instead. `Merging.MergeWhiteListAsWritten` models the throw.
- Merging.MergeWhiteList: the same as `Merging.Merge`, for the whitelist step alone.
- HueObjects.UpdateWhiteList: the same as `Merging.Merge`, for the whitelist step alone.
- HueObjects.UpdateFrom: also does not throw on a null whitelist, as for `Merging.Merge`.
- HueObjectLists.HueObjectList.RefreshHueObject: merges through `HueObjects.UpdateFrom`, so a null whitelist does not throw, as for `Merging.Merge`.
- HueObjectLists.HueObjectList.RefreshHueObjects: the same as `HueObjectLists.HueObjectList.RefreshHueObject`.
- Json.ParseEnum: accepts only a member name, ignoring case. `Enum.Parse(type, text, true)` (State.cs:66-67) accepts three more forms, where the model throws `ArgumentException`: numeric text ("1", and also an undefined value such as "9"); a name padded with white space (" select "); and a comma-separated list of names, whose values are OR'ed ("none, select").
- Json.FindName: the same as `Json.ParseEnum`.
- LightStates.LightState.UpdateHueProperty: an alert or effect given in one of the forms that `Json.ParseEnum` does not accept raises in the model, where the source stores a value.
- Merging.Merge: does not throw on a light answer without a type. The merge table hands a different incoming type to the `Type` setter (LightBulb.cs:62-66), and the setter lower-cases it (LightBulb.cs:137). A null type replacing a set one therefore throws `NullReferenceException` in the source, while the merge stores the null type. `Merging.MergeTypeAsWritten` models the throw. A light's capabilities are not a stored field: `MergeLaws.LightCapabilities` derives them from the merged type, which `MergeLaws.MergeSetsCapabilities` states.
- HueObjects.UpdateFrom: also does not throw on a light answer without a type, as for `Merging.Merge`.
- HueObjects.UpdateTable: the same as `HueObjects.UpdateFrom`, for the table walk.
- HueObjectLists.HueObjectList.RefreshHueObjects: inherits the missing null-type throw of `HueObjects.UpdateFrom`.
- HueObjectLists.HueObjectList.RefreshHueObject: the same as `HueObjectLists.HueObjectList.RefreshHueObjects`.
- HueObjectLists.LightBulbList.ExecuteRefreshLightBulbs: the same as `HueObjectLists.HueObjectList.RefreshHueObjects`.
- HueObjectLists.LightBulbList.RefreshLightBulbs: the same as `HueObjectLists.HueObjectList.RefreshHueObjects`.

## Findings

| source | as written | input that shows it | evidently intended | confidence | as-written member | corrected member |
|---|---|---|---|---|---|---|
| PhilipsHue/LightBulb.cs:962-991 | `BeginTemporaryChange` saves `Brightness` but never sets `SetBrightness`, so `EndTemporaryChange` sends no brightness | a light at brightness 254 in HS mode starts a temporary change, is dimmed to 10, and ends the change: hue and saturation come back, the brightness stays 10 | the saved request restores the brightness along with the colour values | not executed | LightBulbSetters.SavedAsWrittenLosesBrightness | LightBulbSetters.SavedRestores |
| PhilipsHue/State.cs:180-188 | the XY merge indexes both `_xy` and the snapshot's `XY` without a null test | a dimmable light, whose state has no `xy`, is refreshed: `UpdateFrom` throws `NullReferenceException` | a missing pair merges like any other value: no change when both are missing, a replacement otherwise | not executed | Merging.MergeXYAsWrittenFailsWithoutPair | MergeLaws.HandReplaced |
| PhilipsHue/BridgeClient.cs:1708-1713 | a three-digit hex colour reads each digit as a whole byte | `#fff` gives (15, 15, 15), nearly black, where `#ffffff` gives white | the CSS short form: each digit doubled, `#fff` as `#ffffff` | not executed | Colors.ShortFormAsWrittenIsDark | Colors.ShortFormDoubles |
