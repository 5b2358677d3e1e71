# Show request facade — a Dafny model

SmartDeviceLink represents every remote-procedure message as an untyped,
string-keyed parameter table (a `Hashtable<String, Object>`), and gives each
message kind a typed facade of getters and setters over that table. This
project models the facade of the `Show` request: the text fields
`mainField1`–`mainField4`, `statusBar`, `mediaClock` and `mediaTrack`, the
`alignment` enumeration, the `graphic` and `secondaryGraphic` images, and the
`softButtons` and `customPresets` lists.

The parameter table is an immutable `map<string, Value>` (module
`ParamStore`), where `Value` classifies a stored object by the Java class the
accessors test with `instanceof`: a string, an already-typed
`TextAlignment`/`Image`/`SoftButton`, a nested table as decoded from the wire,
a list, `null` (only inside a list, since a `Hashtable` holds no null value)
or anything else. Each setter maps a table to a table, except that `setSoftButtons` and
`setCustomPresets` as written return a `Result`, which is
`Failure(NullPointer)` on a null list; each
getter maps a table to an `Option` (`None` for Java `null`) or, where the
source can throw, to a `Result`. Module `Show` holds the keys, setters and
getters; `getSoftButtons` and `getCustomPresets` are also written as methods
that make the getter's single pass over the list, with its early exits, and
are proved equal to declarative definitions. Module `ShowProperties` proves round trips, the list-field
rules, and that a setter call on one field never changes what another field
reads.

The classes `Image`, `SoftButton` and `TextAlignment` are not part of this
model: they are opaque handles (`RpcTypes`), and the three conversions the
getters call — `TextAlignment.valueForString`, `new Image(Hashtable)` and
`new SoftButton(Hashtable)` — are function parameters of the getters, so
every property holds whatever those conversions do.

## Model

| member | source | states |
|---|---|---|
| `ParamStore.Lookup` | sdl_android_lib/src/com/smartdevicelink/proxy/rpc/Show.java:194 | Hashtable.get (as used by every getter): None exactly when the key is absent, otherwise the stored value |
| `Show.Key` | sdl_android_lib/src/com/smartdevicelink/proxy/rpc/Show.java:157-168 | each field is stored under its KEY_* constant, and that key names this field and no other |
| `Show.ButtonList` | sdl_android_lib/src/com/smartdevicelink/proxy/rpc/Show.java:611 | the stored soft-button list has the argument's length and holds its buttons in order |
| `Show.StringList` | sdl_android_lib/src/com/smartdevicelink/proxy/rpc/Show.java:666 | the stored custom-presets list has the argument's length and holds its strings in order |
| `Show.KeyInjective` | sdl_android_lib/src/com/smartdevicelink/proxy/rpc/Show.java:157-168 | the twelve parameter keys are pairwise distinct, so two fields never share a key |
| `ParamStore.Put` | sdl_android_lib/src/com/smartdevicelink/proxy/rpc/Show.java:215 | storing a non-null value makes the key read that value and leaves every other key as it was |
| `ParamStore.Remove` | sdl_android_lib/src/com/smartdevicelink/proxy/rpc/Show.java:217 | removing a key makes it absent (not present with null) and leaves every other key as it was |
| `Show.PutOrRemove` | sdl_android_lib/src/com/smartdevicelink/proxy/rpc/Show.java:213-219 | the shared setter shape: a non-null argument is what the key then reads, null leaves the key absent, no other key changes |
| `Show.SetText` | sdl_android_lib/src/com/smartdevicelink/proxy/rpc/Show.java:213-219 | setMainField1 (and likewise mainField2–4, statusBar, mediaClock, mediaTrack) stores a non-null string as a string under its own key, removes the key on null, and changes no other key |
| `Show.GetText` | sdl_android_lib/src/com/smartdevicelink/proxy/rpc/Show.java:193-195 | a stored string is returned; an absent key reads as null; any value of another class makes the unchecked cast throw ClassCastException |
| `Show.SetAlignment` | sdl_android_lib/src/com/smartdevicelink/proxy/rpc/Show.java:361-367 | a non-null alignment is stored as a typed enumeration value under "alignment", null removes the key, no other key changes |
| `Show.GetAlignment` | sdl_android_lib/src/com/smartdevicelink/proxy/rpc/Show.java:336-344 | a stored TextAlignment comes back unchanged; a stored string yields valueForString of it; an absent key or any other class reads as null |
| `Show.SetImage` | sdl_android_lib/src/com/smartdevicelink/proxy/rpc/Show.java:473-479 | setGraphic (and setSecondaryGraphic, lines 504-510) stores a non-null Image under its key, removes the key on null, changes no other key |
| `Show.GetImage` | sdl_android_lib/src/com/smartdevicelink/proxy/rpc/Show.java:489-501 | getGraphic (and getSecondaryGraphic, lines 514-526) returns a stored Image unchanged, converts a nested table (a failed conversion reads as null, never throws), and reads anything else or an absent key as null |
| `Show.SetSoftButtonsAsWritten` | sdl_android_lib/src/com/smartdevicelink/proxy/rpc/Show.java:600-616 | a null list throws NullPointerException; otherwise the list is stored exactly when it is non-empty with no null element, else the key is removed; no other key changes |
| `Show.SetSoftButtons` | sdl_android_lib/src/com/smartdevicelink/proxy/rpc/Show.java:600-616 | the list is stored exactly when it is non-null, non-empty and null-free, and the key is removed otherwise (null list included); no other key changes |
| `Show.SetCustomPresetsAsWritten` | sdl_android_lib/src/com/smartdevicelink/proxy/rpc/Show.java:655-670 | a null list throws NullPointerException; otherwise the list is stored exactly when non-empty with no null element, else the key is removed; no other key changes |
| `Show.SetCustomPresets` | sdl_android_lib/src/com/smartdevicelink/proxy/rpc/Show.java:655-670 | the list is stored exactly when it is non-null, non-empty and null-free, otherwise the key is removed; no other key changes |
| `Show.SoftButtonsIn` | sdl_android_lib/src/com/smartdevicelink/proxy/rpc/Show.java:573-577 | the buttons of a uniform list keep its length and order: a typed element is itself, a nested table is its conversion |
| `Show.SoftButtonsOf` | sdl_android_lib/src/com/smartdevicelink/proxy/rpc/Show.java:537-581 | getSoftButtons yields a value exactly when the key holds a non-empty list that is all typed SoftButtons or all nested tables, and then yields its buttons in order |
| `Show.GetSoftButtons` | sdl_android_lib/src/com/smartdevicelink/proxy/rpc/Show.java:537-581 | getSoftButtons makes one pass with a typed-seen and a table-seen flag and early exits, and yields exactly the declarative result |
| `Show.StringsIn` | sdl_android_lib/src/com/smartdevicelink/proxy/rpc/Show.java:635 | the strings of an all-string list, same length and order as stored |
| `Show.CustomPresetsOf` | sdl_android_lib/src/com/smartdevicelink/proxy/rpc/Show.java:626-639 | getCustomPresets returns the stored list exactly when it is a non-empty list of strings, otherwise null |
| `Show.GetCustomPresets` | sdl_android_lib/src/com/smartdevicelink/proxy/rpc/Show.java:626-639 | getCustomPresets stops at the first non-string element, and yields exactly the declarative result |
| `ShowProperties.Apply` | sdl_android_lib/src/com/smartdevicelink/proxy/rpc/Show.java:213-670 | a setter call (list setters given a non-null list, which is the only way they return normally) changes only its own key, never stores null, and for the list setters equals the setter as written |
| `ShowProperties.ApplyOwnKeyIndependent` | sdl_android_lib/src/com/smartdevicelink/proxy/rpc/Show.java:213-670 | what a setter leaves under its key depends on its argument only, not on the prior contents |
| `ShowProperties.ApplyCommutes` | sdl_android_lib/src/com/smartdevicelink/proxy/rpc/Show.java:213-670 | setter calls on different fields commute |
| `ShowProperties.ApplyLastWins` | sdl_android_lib/src/com/smartdevicelink/proxy/rpc/Show.java:213-670 | of two setter calls on the same field that return normally the second wins, so repeating a call is idempotent |
| `ShowProperties.TextRoundTrip` | sdl_android_lib/src/com/smartdevicelink/proxy/rpc/Show.java:193-219 | a text field reads back the string that was set, or null after setting null |
| `ShowProperties.AlignmentRoundTrip` | sdl_android_lib/src/com/smartdevicelink/proxy/rpc/Show.java:336-367 | the alignment reads back what was set, whatever valueForString does |
| `ShowProperties.ImageRoundTrip` | sdl_android_lib/src/com/smartdevicelink/proxy/rpc/Show.java:473-501 | an image field reads back what was set, whatever the Image conversion does |
| `ShowProperties.SoftButtonsRoundTrip` | sdl_android_lib/src/com/smartdevicelink/proxy/rpc/Show.java:537-616 | setSoftButtons with a non-null list returns normally; the getter then returns the same buttons in order when the list was non-empty and null-free, and null for an empty list or one holding null |
| `ShowProperties.CustomPresetsRoundTrip` | sdl_android_lib/src/com/smartdevicelink/proxy/rpc/Show.java:626-670 | setCustomPresets with a non-null list returns normally; the getter then returns the list unchanged when it was non-empty and null-free, and null for an empty list or one holding null |
| `ShowProperties.NullButtonDropsField` | sdl_android_lib/src/com/smartdevicelink/proxy/rpc/Show.java:602-615 | setSoftButtons returns normally and a single null element removes the whole softButtons key instead of being filtered out |
| `ShowProperties.NullPresetDropsField` | sdl_android_lib/src/com/smartdevicelink/proxy/rpc/Show.java:657-669 | setCustomPresets returns normally and a single null element removes the whole customPresets key instead of being filtered out |
| `ShowProperties.MixedButtonListRejected` | sdl_android_lib/src/com/smartdevicelink/proxy/rpc/Show.java:547-569 | a soft-button list holding both a typed SoftButton and a nested table reads as null, in either order |
| `ShowProperties.ForeignButtonElementRejected` | sdl_android_lib/src/com/smartdevicelink/proxy/rpc/Show.java:567-569 | an element that is neither a SoftButton nor a nested table (null included) makes the soft-button list read as null |
| `ShowProperties.TableButtonsConvertedInOrder` | sdl_android_lib/src/com/smartdevicelink/proxy/rpc/Show.java:559-576 | a non-empty list of nested tables reads as their conversions, element i from stored element i |
| `ShowProperties.UpdateIsolated` | sdl_android_lib/src/com/smartdevicelink/proxy/rpc/Show.java:193-670 | a setter call on one field leaves every getter of every other field reading what it read before |
| `ShowProperties.NullSoftButtonsThrows` | sdl_android_lib/src/com/smartdevicelink/proxy/rpc/Show.java:600-616 | as written, setSoftButtons(null) throws NullPointerException, while the corrected setter removes the key |
| `ShowProperties.NullCustomPresetsThrows` | sdl_android_lib/src/com/smartdevicelink/proxy/rpc/Show.java:655-670 | as written, setCustomPresets(null) throws NullPointerException, while the corrected setter removes the key |
| `ShowProperties.CorrectedSettersAgreeOnNonNull` | sdl_android_lib/src/com/smartdevicelink/proxy/rpc/Show.java:600-670 | on every non-null list the corrected list setters behave exactly as written |

## Left out

- The `Show()` and `Show(Hashtable)` constructors and the `RPCRequest` superclass with the function id: the base class is not part of this model; a facade here is just a table.
- The `DebugTool.logError` calls in the image getters: a logging side effect with no effect on the result.
- The internals of `Image`, `SoftButton` and `TextAlignment`, including `valueForString` and the conversion constructors: not part of this model; they are opaque handles and function parameters.
- Show.SoftButtonsOf: the `SoftButton(Hashtable)` conversion is modelled as total; an exception it might throw would escape `getSoftButtons` unguarded, and that path is not modelled.
- The "Maxlength = 500" and "Array Maxsize 8 / 6" limits in the documentation comments: the code never enforces them.
- Aliasing: the Java setters store the caller's list object itself, so later mutation of that list shows through the getter; the model stores a value.
- The sample application's service wiring and the logging-flag tests: I/O plumbing over calls into other components, with no logic of the facade.

## Findings

| source | as written | input that shows it | evidently intended | confidence | as-written member | corrected member |
|---|---|---|---|---|---|---|
| sdl_android_lib/src/com/smartdevicelink/proxy/rpc/Show.java:604-610 | the list is iterated before the `softButtons != null` test, so that test can never be false | `setSoftButtons(null)` throws NullPointerException | a null list removes the `softButtons` key, like an empty one | high; not executed | `ShowProperties.NullSoftButtonsThrows` (on `Show.SetSoftButtonsAsWritten`) | `Show.SetSoftButtons` |
| sdl_android_lib/src/com/smartdevicelink/proxy/rpc/Show.java:659-665 | the list is iterated before the `customPresets != null` test | `setCustomPresets(null)` throws NullPointerException | a null list removes the `customPresets` key | high; not executed | `ShowProperties.NullCustomPresetsThrows` (on `Show.SetCustomPresetsAsWritten`) | `Show.SetCustomPresets` |
