# mkr events and SVG constructs, modelled in Dafny

This project models two parts of the `mkr` animation toolkit.

**The event stack in `src/mkr.js`:**
- The js-signals `Signal` bundled at the end of the file: a priority-ordered list of bindings, a (listener, context) uniqueness rule, one-shot bindings, and dispatch over a snapshot that `false` or `halt()` can stop.
- `mkr.SignalManager`: named channels, created on first use.
- `mkr.map`: a dictionary keyed by strings or by objects. An object is tagged with a hidden numeric id shared by every map.
- `mkr.TriggerMatrix`: per target element, a manager whose channels are event types, plus one native trigger per (target, type) registered with the browser.
- `mkr.on`, `mkr.once` and `mkr.off`, together with `mkr.each`.
- The value helpers `mkr.default`, `mkr.getDefault` and `mkr.setDefault`.

**The SVG constructs:**
- `SVGConstruct` (`scripts/SVGConstruct.js`) and the downloadable `star` and `ellps` constructs: the option and attribute defaults each constructor settles on, and its generated instance id.
- The stroke `slice` setter and getter, which all three share.
- The star's vertex list, its `getPoint` and its geometry setters.
- The ellipse's centre and radius accessors.

Operations that change state in place are classes with `modifies` clauses:
- `Signals.Signal`, `SignalManagers.SignalManager`, `IdentityMaps.MkrMap` and `IdentityMaps.TagTable`;
- `TriggerMatrices.TriggerMatrix`;
- `SvgConstructs.SvgConstruct`, `Stars.Star` and `Ellipses.Ellipse`.

Each method is proved against a specification function (`Registered`, `Drop`, `Fired`/`Keep`, `AddSpec`, `RemoveSpec`, `FireSpec`, `Configure`, `SetSlice`, `Outline`). The properties the library promises are proved as lemmas about those functions. Where the code falls short of a property (see Findings), it is proved of the corrected model and the code's behaviour is shown by a counterexample:
- dispatch order, and where a new binding lands;
- the uniqueness and order invariants;
- a (target, type) has a native trigger exactly when its channel has listeners (corrected `add` and trigger);
- the slice round trip (corrected getter);
- the constructors never overwrite what the caller supplied.

The browser is modelled as follows:
- Its `addEventListener` registry is the ghost set `TriggerMatrix.installed`.
- An event delivered to a trigger is the method `TriggerMatrix.Fire`.
- What each listener does when it runs is a parameter `behaviour`: continue, return `false`, or call `halt`.
- The total length of a stroke is a parameter `len`.
- The static instance counter is a parameter `count`.

## Model

| member | source | states |
|---|---|---|
| JsBase.Default | src/mkr.js:663-665 | only `undefined` is replaced by the fallback; a defined fallback always gives a defined result |
| JsBase.GetDefault | src/mkr.js:677-683 | a present key yields its value, an absent key the supplied value |
| JsBase.SetDefault | src/mkr.js:695-698 | the returned value is what `getDefault` gives and is what the key now reads; a present key leaves the object unchanged; other keys are untouched |
| JsBase.SetDefaultIdempotent | src/mkr.js:695-698 | a second `setDefault` on a key that was defaulted to a value changes nothing and returns the same value |
| JsBase.Put | src/mkr.js:696 | assigning a key makes it read back the value and leaves every other key alone |
| JsBase.DecimalInjective | src/mkr.js:1220 | distinct ids have distinct decimal texts, so tags and generated ids never collide |
| Signals.IndexOf | src/mkr.js:1426 | `_indexOfListener` finds a binding of the pair, and none lies after it; -1 means none |
| Signals.IndexOfFindsBound | src/mkr.js:1426 | `_indexOfListener` answers -1 exactly when the pair is not bound |
| Signals.Registered | src/mkr.js:1425 | `_registerListener` as a function of the bindings: the existing binding when its once flag matches, the mixed add/addOnce error when it does not, else a new binding inserted by priority; its properties are `RegisteredResult` and `RegisteredBinds` |
| Signals.Inserted | src/mkr.js:1426 | `_addBinding`: the new binding goes in front of every binding of equal or higher priority; its properties are `InsertedValid` and `DispatchPositionOfNewBinding` |
| Signals.RegisteredResult | src/mkr.js:1425 | registering keeps the list ordered and duplicate-free; the returned binding has the pair and the once flag asked for; an error happens exactly when the pair is bound with the other once flag; re-registering changes nothing; a new pair adds exactly one binding |
| Signals.RegisteredBinds | src/mkr.js:1425-1426 | after registering, the pair is bound whatever the outcome, and every pair bound before still is |
| Signals.InsertedValid | src/mkr.js:1426 | `_addBinding` keeps the list ascending by priority and duplicate-free, adding exactly the new binding |
| Signals.DispatchOrderDescends | src/mkr.js:1427-1428 | dispatch runs bindings by non-increasing priority |
| Signals.DispatchPositionOfNewBinding | src/mkr.js:1426-1428 | a new binding runs after every binding of equal or higher priority and before every lower one; the others keep their order |
| Signals.Drop | src/mkr.js:1427 | `remove`: the bindings without the one of the pair; its properties are `DropUnbinds`, `DropAt` and `DropValid` |
| Signals.Fired | src/mkr.js:1427-1428 | the bindings one dispatch runs, from the last binding, stopping after the first listener that returns `false` or halts; its properties are `FiredIsPrefix`, `FiredContinuesUntilLast`, `FiredAllWhenNobodyStops` and `ShortWalkWasStopped` |
| Signals.Keep | src/mkr.js:1423-1424 | the bindings left once the once-bindings that ran detach themselves; its properties are `KeepMembers` and `KeepValid` |
| Signals.DropUnbinds | src/mkr.js:1427 | after `remove` the pair is unbound and every other binding is kept |
| Signals.DropAt | src/mkr.js:1427 | `remove` splices out exactly the one binding found |
| Signals.DropValid | src/mkr.js:1427 | `remove` keeps the list ordered and duplicate-free |
| Signals.FiredIsPrefix | src/mkr.js:1427-1428 | the bindings a dispatch runs are the first ones in dispatch order |
| Signals.FiredContinuesUntilLast | src/mkr.js:1428 | every listener before the last one that ran let the dispatch go on |
| Signals.FiredAllWhenNobodyStops | src/mkr.js:1428 | when no listener returns `false` or halts, every binding runs in dispatch order |
| Signals.ShortWalkWasStopped | src/mkr.js:1428 | a dispatch that ran fewer bindings than there are was stopped by its last listener |
| Signals.KeepMembers | src/mkr.js:1423-1424 | after dispatch, a once-binding that ran is gone and every other binding stays |
| Signals.KeepValid | src/mkr.js:1423-1424 | once-bindings detaching themselves keep the list ordered and duplicate-free |
| Signals.Signal.constructor | src/mkr.js:1423 | a new signal has no bindings and propagates |
| Signals.Signal.IndexOfListener | src/mkr.js:1426 | the loop from the end returns the last index binding the pair, or -1 when none does |
| Signals.Signal.InsertionPoint | src/mkr.js:1426 | the walk down from the end stops at the rank of the priority: lower priorities before it, equal or higher after |
| Signals.Signal.AddBinding | src/mkr.js:1426 | the splice inserts the binding at its rank and keeps the list valid |
| Signals.Signal.RegisterListener | src/mkr.js:1425 | the new bindings and the result are those `Registered` specifies |
| Signals.Signal.Add | src/mkr.js:1426 | `add` registers a persistent binding as `Registered` specifies |
| Signals.Signal.AddOnce | src/mkr.js:1426-1427 | `addOnce` registers a once-binding as `Registered` specifies |
| Signals.Signal.Has | src/mkr.js:1426 | `has` is true exactly when the pair is bound |
| Signals.Signal.Remove | src/mkr.js:1427 | the bindings become `Drop` of the old ones and stay valid |
| Signals.Signal.RemoveAll | src/mkr.js:1427 | no binding is left |
| Signals.Signal.NumListeners | src/mkr.js:1427 | the number of bindings |
| Signals.Signal.Halt | src/mkr.js:1427 | stops propagation and changes no binding |
| Signals.Signal.Dispatch | src/mkr.js:1427-1428 | the bindings that run are `Fired` of the snapshot; afterwards the once-bindings that ran are gone; propagation is off exactly when the last one halted |
| Signals.Signal.Run | src/mkr.js:1423-1424 | running one binding calls its listener, halts when it halts, and detaches it when it is a once-binding |
| Signals.Signal.Dispose | src/mkr.js:1428 | no binding is left |
| SignalManagers.OrNull | src/mkr.js:1092 | a missing context becomes `null`; a given one is kept |
| SignalManagers.OrZero | src/mkr.js:1093 | a missing priority becomes 0; a given one is kept |
| SignalManagers.SignalManager.constructor | src/mkr.js:1077-1078 | a new manager has no channel |
| SignalManagers.SignalManager.Channel | src/mkr.js:1081-1083 | the channel exists afterwards with its old bindings, or with none when it was new; no other channel changes |
| SignalManagers.SignalManager.Register | src/mkr.js:1080-1084 | creates the channel when it is missing and changes nothing else |
| SignalManagers.SignalManager.Add | src/mkr.js:1086-1096 | creates the channel if missing, then registers a persistent binding with the defaulted context and priority; other channels are untouched |
| SignalManagers.SignalManager.AddOnce | src/mkr.js:1098-1108 | as `Add`, with a once-binding |
| SignalManagers.SignalManager.Dispatch | src/mkr.js:1110-1116 | a missing channel runs nothing; otherwise the channel is dispatched as `Fired`/`Keep` specify |
| SignalManagers.SignalManager.Dispose | src/mkr.js:1118-1125 | the channel is emptied and forgotten; no other channel changes |
| SignalManagers.SignalManager.GetNumListeners | src/mkr.js:1135-1141 | the number of bindings on the channel, 0 when it is missing |
| SignalManagers.SignalManager.Halt | src/mkr.js:1143-1149 | halts the channel when it exists; no binding and no other channel's propagation flag changes |
| SignalManagers.SignalManager.Has | src/mkr.js:1151-1157 | true exactly when the channel binds the pair, with the context defaulted to `null` |
| SignalManagers.SignalManager.Remove | src/mkr.js:1159-1165 | the channel's bindings become `Drop` of the old ones; a missing channel stays missing |
| SignalManagers.SignalManager.RemoveAll | src/mkr.js:1167-1173 | the channel is emptied when it exists |
| SignalManagers.SignalManager.Destroy | src/mkr.js:1175-1180 | every channel is emptied and forgotten |
| IdentityMaps.TagTable.constructor | src/mkr.js:1188 | the shared counter starts at -1 with no tags |
| IdentityMaps.TagTable.Tag | src/mkr.js:1217-1223 | an untagged object gets the next id, above every tag in use; a tagged one keeps its tag |
| IdentityMaps.TagTable.Untag | src/mkr.js:1250 | strips exactly that object's tag |
| IdentityMaps.FreshTagIsUnused | src/mkr.js:1220 | a newly drawn tag's text differs from the text of every tag in use |
| IdentityMaps.MkrMap.constructor | src/mkr.js:1190-1200 | a new map is empty and shares the tag table |
| IdentityMaps.MkrMap.Slot | src/mkr.js:1204-1210 | a string addresses itself; an object addresses its tag's text, or nothing when it is untagged |
| IdentityMaps.MkrMap.Has | src/mkr.js:1230-1238 | `has`: the key's slot is present; `ObjectLookup` and `Get` state what it answers |
| IdentityMaps.MkrMap.Get | src/mkr.js:1203-1211 | defined exactly when `has` is true |
| IdentityMaps.MkrMap.ObjectLookup | src/mkr.js:1230-1238 | in a consistent map of objects, `has(obj)` is true exactly when the object is stored, and it then addresses its own slot |
| IdentityMaps.MkrMap.ForEachKey | src/mkr.js:1265 | a slot in `_keys` is reported as its object, any other as its string |
| IdentityMaps.MkrMap.ForEachKeyFindsValue | src/mkr.js:1263-1267 | the key `forEach` reports retrieves the value it reports |
| IdentityMaps.MkrMap.Set | src/mkr.js:1212-1229 | `get` then returns the value; an object is tagged first when needed, with the next id; only that slot changes |
| IdentityMaps.MkrMap.Delete | src/mkr.js:1239-1253 | removes the key's slot, and for an object its `_keys` entry and its tag; the result is whether the key was present; a consistent map stays consistent |
| IdentityMaps.MkrMap.Clear | src/mkr.js:1254-1262 | a consistent map ends empty, with the tag of every object it held stripped |
| IdentityMaps.DeleteResultAsWritten | src/mkr.js:1239-1253 | the value `delete` returns as written: `false` for every string key, and presence for an object |
| IdentityMaps.StringDeleteReportsMissing | src/mkr.js:1239-1253 | deleting a present string key reports, as written, that nothing was there |
| TriggerMatrices.AtMostOneTrigger | src/mkr.js:1288-1292 | the browser never holds two matrix triggers for the same (target, type) |
| TriggerMatrices.AddSpec | src/mkr.js:1280-1312 | `add` with the registration checked first: a refused registration changes nothing, otherwise the channel gets the binding and the (target, type) a fresh trigger; its properties are `AddInstallsExactlyOne`, `AddKeepsLive` and `AddKeepsWellFormed` |
| TriggerMatrices.RemoveSpec | src/mkr.js:1320-1341 | `remove`: a no-op unless the target, the trigger and the pair exist; the trigger goes when the channel empties; its properties are `RemoveUninstallsWhenEmpty`, `RemoveKeepsLive` and `RemoveKeepsWellFormed` |
| TriggerMatrices.RemoveAllSpec | src/mkr.js:1344-1358 | `removeAll`: when the type has a trigger, its channel is emptied and the trigger uninstalled; its properties are `RemoveAllKeepsLive` and `RemoveAllKeepsWellFormed` |
| TriggerMatrices.FireSpec | src/mkr.js:1295-1306 | the trigger dispatches its channel and uninstalls itself when the channel is left empty; its properties are `FireKeepsLive`, `FireKeepsWellFormed` and `FireSpecUninstallsEmptied` |
| TriggerMatrices.FireAsWritten | src/mkr.js:1295-1309 | the trigger closures as written: only the one from `addOnce` checks for an empty channel; `PersistentTriggerOutlivesListeners` shows the difference |
| TriggerMatrices.AddInstallsExactlyOne | src/mkr.js:1288-1311 | after `add`, the fresh trigger is the only registration for (target, type); every other registration is untouched |
| TriggerMatrices.AddKeepsLive | src/mkr.js:1280-1312 | `add` keeps every (target, type) triggered exactly when its channel has listeners |
| TriggerMatrices.AddAsWritten | src/mkr.js:1280-1312 | `add` in the code's order: the old trigger is uninstalled and deleted first, so a refused registration leaves the (target, type) with no trigger |
| TriggerMatrices.AddAsWrittenStrandsListeners | src/mkr.js:1288-1307 | as written, `once(el, 'click', f)` then `on(el, 'click', f)` throws, and the click trigger is gone while `f` is still bound: the matrix is no longer live |
| TriggerMatrices.AddSpecKeepsTriggerOnError | src/mkr.js:1288-1307 | on the same input, the corrected `add` reports the error and leaves the matrix as it was |
| TriggerMatrices.AddKeepsWellFormed | src/mkr.js:1280-1312 | `add` keeps every channel ordered and duplicate-free |
| TriggerMatrices.RemoveUninstallsWhenEmpty | src/mkr.js:1333-1340 | `remove` unbinds the pair, and the trigger goes exactly when the channel empties |
| TriggerMatrices.RemoveKeepsLive | src/mkr.js:1320-1341 | `remove` keeps every (target, type) triggered exactly when its channel has listeners |
| TriggerMatrices.RemoveKeepsWellFormed | src/mkr.js:1320-1341 | `remove` keeps every channel ordered and duplicate-free |
| TriggerMatrices.RemoveAllKeepsLive | src/mkr.js:1344-1358 | `removeAll` keeps every (target, type) triggered exactly when its channel has listeners |
| TriggerMatrices.RemoveAllKeepsWellFormed | src/mkr.js:1344-1358 | `removeAll` keeps every channel ordered and duplicate-free |
| TriggerMatrices.FireKeepsLive | src/mkr.js:1295-1306 | delivering an event keeps every (target, type) triggered exactly when its channel has listeners: the trigger leaves as soon as its channel is empty |
| TriggerMatrices.FireKeepsWellFormed | src/mkr.js:1295-1306 | delivering an event keeps every channel ordered and duplicate-free |
| TriggerMatrices.PersistentTriggerOutlivesListeners | src/mkr.js:1306 | as written, a plain trigger stays installed after its channel empties through a once-binding, so the matrix is no longer live |
| TriggerMatrices.FireSpecUninstallsEmptied | src/mkr.js:1295-1306 | on the same input, the corrected trigger uninstalls itself and the matrix stays live |
| TriggerMatrices.DeleteKeepsLive | src/mkr.js:1361-1374 | forgetting a target keeps the others live and well formed |
| TriggerMatrices.DeleteUninstallsEverything | src/mkr.js:1367-1371 | after `delete`, no registration for the target remains, and other targets' registrations are unchanged |
| TriggerMatrices.AddCountsTrigger | src/mkr.js:1295-1311 | every trigger `add` leaves installed was made before the next one |
| TriggerMatrices.UninstallOne | src/mkr.js:1290-1291 | `removeEventListener` takes away exactly that registration |
| TriggerMatrices.InstallOne | src/mkr.js:1310-1311 | `addEventListener` adds exactly that registration |
| TriggerMatrices.IndexStore | src/mkr.js:1283 | storing a target's record in `_mngrs` under its tag keeps every target in its own slot |
| TriggerMatrices.IndexDelete | src/mkr.js:1373 | deleting a target from `_mngrs` keeps every other target in its own slot |
| TriggerMatrices.TriggerMatrix.constructor | src/mkr.js:1276-1277 | a new matrix has no target and no registration |
| TriggerMatrices.TriggerMatrix.Lookup | src/mkr.js:1282-1285 | `_mngrs.get(target)` finds the target's record exactly when it has one |
| TriggerMatrices.TriggerMatrix.Store | src/mkr.js:1283 | stores the target's record; nothing is installed |
| TriggerMatrices.TriggerMatrix.RemoveTrigger | src/mkr.js:1290-1291 | uninstalls the one trigger and deletes it from the record |
| TriggerMatrices.TriggerMatrix.AddTrigger | src/mkr.js:1310-1311 | installs a fresh trigger and records it |
| TriggerMatrices.TriggerMatrix.ReplaceTrigger | src/mkr.js:1288-1311 | the (target, type) ends with exactly one fresh trigger |
| TriggerMatrices.TriggerMatrix.Add | src/mkr.js:1280-1312 | the matrix becomes `AddSpec` of the old one: refused registrations change nothing; otherwise the binding is added and the trigger replaced; every listener stays reachable |
| TriggerMatrices.TriggerMatrix.AddOnce | src/mkr.js:1315-1317 | `add` with the once flag set, in the corrected order |
| TriggerMatrices.TriggerMatrix.Remove | src/mkr.js:1320-1341 | the matrix becomes `RemoveSpec` of the old one and stays valid |
| TriggerMatrices.TriggerMatrix.RemoveAll | src/mkr.js:1344-1358 | the matrix becomes `RemoveAllSpec` of the old one and stays valid |
| TriggerMatrices.TriggerMatrix.Fire | src/mkr.js:1295-1306 | the installed trigger dispatches its channel as `FireSpec` specifies and uninstalls itself once its channel is empty; the matrix stays valid |
| TriggerMatrices.TriggerMatrix.UninstallAll | src/mkr.js:1367-1371 | every trigger of the target is uninstalled |
| TriggerMatrices.TriggerMatrix.Delete | src/mkr.js:1361-1374 | the target is forgotten, along with its slot in `_mngrs`, and nothing of it stays installed |
| TriggerMatrices.TriggerMatrix.Clear | src/mkr.js:1377-1382 | no target and no registration is left |
| Events.ContextFor | src/mkr.js:379 | a listener's context is the one given, else the element itself |
| Events.ModeOf | src/mkr.js:417-421 | `off` deletes the target when no type is given, removes the whole type when no callback is given, and otherwise removes one listener |
| Events.Elements | src/mkr.js:347-357 | `mkr.each`: no element for a missing target, the query's matches for a selector, the array's elements, else the value itself |
| Events.ListenSpec | src/mkr.js:376-402 | `on`/`once`: one corrected matrix `add` per element, in order, with the element as the default context, until one throws; its properties are `ListenBindsEveryElement`, `ListenKeepsBinding` and `ListenCountsTriggers` |
| Events.OffOne | src/mkr.js:419-425 | `off` on one element: `delete`, `removeAll` or `remove`, as `ModeOf` picks |
| Events.OffSpec | src/mkr.js:417-428 | `off` over the elements in order; its properties are `OffWithoutTypeForgets`, `OffWithoutCallbackUninstalls` and `OffRemovesListener` |
| Events.ListenBindsEveryElement | src/mkr.js:376-402 | a successful `on`/`once` leaves every element with a trigger for the type and the listener bound with the element's context |
| Events.ListenKeepsBinding | src/mkr.js:376-402 | with the corrected `add`, `on`/`once` keeps every trigger and binding that was already there |
| Events.ListenCountsTriggers | src/mkr.js:347-402 | `on`/`once` makes exactly one trigger per element when nothing throws, and fewer when an element throws, the walk stopping there |
| Events.OffWithoutTypeForgets | src/mkr.js:417-428 | `off(target)` forgets exactly the elements and no other target |
| Events.OffWithoutCallbackUninstalls | src/mkr.js:417-428 | on a live matrix, `off(target, type)` leaves no element with a trigger or listener for the type |
| Events.OffRemovesListener | src/mkr.js:417-428 | `off(target, type, callback, context)` leaves the callback bound on no element under that element's context |
| Events.RemoveBindsNothing | src/mkr.js:1320-1341 | `remove` never binds a pair |
| Events.On | src/mkr.js:376-383 | the matrix becomes `ListenSpec` (corrected `add`) over the elements `mkr.each` visits, with persistent bindings |
| Events.Once | src/mkr.js:396-402 | as `On`, with once-bindings |
| Events.Listen | src/mkr.js:359-363 | the loop calls the corrected `add` element by element and stops at the first error; the matrix becomes `ListenSpec` |
| Events.Off | src/mkr.js:417-428 | the matrix becomes `OffSpec` over the elements `mkr.each` visits |
| Events.OffElement | src/mkr.js:419-425 | the operation `off` picked is applied to one element |
| Constructs.SetDefaultsResolves | scripts/SVGConstruct.js:59-64 | after a run of `setDefault` calls, a key holds the caller's value, else the first defined default it was given |
| Constructs.SetDefaultsKeeps | scripts/SVGConstruct.js:59-64 | a run of `setDefault` calls never changes a value the caller supplied |
| Constructs.SetDefaultsMerges | scripts/SVGConstruct.js:59-64 | a run of `setDefault` calls is the defaults merged under the object |
| Constructs.Collected | scripts/SVGConstruct.js:59-64 | each key maps to the first defined default it is given |
| Constructs.SetDefaults | src/mkr.js:695-698 | a run of `mkr.setDefault` calls on one object, in call order; its properties are `SetDefaultsResolves`, `SetDefaultsKeeps` and `SetDefaultsMerges` |
| Constructs.StyleKeysMerge | scripts/SVGConstruct.js:59-61 | the three stroke-style defaults merge `transparent`, `#000000` and 1 under the options |
| Constructs.InstanceId | scripts/SVGConstruct.js:46-47 | `options.id` when truthy, else the class name, a dash and the counter; `GeneratedIdsDiffer` states what it promises |
| Constructs.GeneratedIdsDiffer | scripts/SVGConstruct.js:46-47 | two instances built without an id get different generated ids |
| Constructs.StyleAttr | scripts/SVGConstruct.js:66-68 | `fill`, `stroke` and `stroke-width` are offered from the options of those names, and no other attribute is |
| Constructs.IdentifiedAttr | scripts/SVGConstruct.js:55-56 | the supplied attributes are kept, and `id` is the one given, else the instance id |
| Constructs.StyleResolves | scripts/SVGConstruct.js:59-68 | each stroke-style attribute is the one given, else the option, else its default |
| SvgConstructs.LineAttr | scripts/SVGConstruct.js:62-71 | line style attributes are offered only from line style options that are set |
| SvgConstructs.OptionsDefaulted | scripts/SVGConstruct.js:54-64 | the defaulted options keep every supplied option |
| SvgConstructs.OptionsDefaultedStyle | scripts/SVGConstruct.js:54-61 | `type` defaults to `line`, and the stroke style to `transparent`, `#000000` and 1 |
| SvgConstructs.OptionsDefaultedElsewhere | scripts/SVGConstruct.js:54-64 | options other than `type` and the stroke style are left as supplied |
| SvgConstructs.AttrDefaulted | scripts/SVGConstruct.js:55-71 | the element's attributes keep every supplied attribute |
| SvgConstructs.AttrDefaultedStyle | scripts/SVGConstruct.js:66-68 | each stroke-style attribute is the one given, else the option |
| SvgConstructs.AttrDefaultedLine | scripts/SVGConstruct.js:56-69 | the line cap is the one given, else the option; the id is the one given, else the instance id |
| SvgConstructs.CssDefaults | scripts/SVGConstruct.js:73-85 | each transform property offered from the option of that name, else 0 (1 for the scales); `ConfigureCss` states the outcome |
| SvgConstructs.Configure | scripts/SVGConstruct.js:44-85 | the id, options, attributes and CSS the constructor settles on; its properties are `ConfigureKeepsSupplied`, `ConfigureStyle` and `ConfigureCss` |
| SvgConstructs.ConfigureKeepsSupplied | scripts/SVGConstruct.js:45-85 | the constructor never overwrites a supplied option, attribute or CSS property |
| SvgConstructs.ConfigureStyle | scripts/SVGConstruct.js:47-71 | the element's stroke style is the attribute, else the option, else `transparent`, `#000000` and 1; line cap, id and `type` are defaulted the same way |
| SvgConstructs.ConfigureCss | scripts/SVGConstruct.js:73-85 | each transform property is the CSS value, else the option of that name, else 0 (1 for the scales) |
| SvgConstructs.SvgConstruct.constructor | scripts/SVGConstruct.js:44-91 | the instance holds the id, attributes and CSS `Configure` settles on; no dash yet |
| SvgConstructs.SvgConstruct.SetSlice | scripts/SVGConstruct.js:248-291 | unit flags and dash as `SetSlice` specifies; attributes and CSS unchanged; two ordered ends read back as given by the corrected getter |
| SvgConstructs.SvgConstruct.Slice | scripts/SVGConstruct.js:222-247 | the corrected getter on the construct's own unit flags and dash |
| Slices.DashIgnoresOrder | scripts/SVGConstruct.js:278-279 | the dash does not depend on the order of the two ends |
| Slices.DashFor | scripts/SVGConstruct.js:277-288 | the dash for two ends: a segment from the smaller end to the larger, shifted back to the smaller, with the full-length special case; its properties are `DashIgnoresOrder` and `EndsRecovered` |
| Slices.SetSlice | scripts/SVGConstruct.js:248-291 | the setter on the tokens: nothing for no token; one token is the end; otherwise the first two are the ends; each text token sets its unit flag; its properties are `GapIsFixed` and `SliceRoundTrip` |
| Slices.Ends | scripts/SVGConstruct.js:233-240 | the corrected reading of the ends from a dash, adding the numbers; `EndsRecovered` states that it inverts `DashFor` |
| Slices.GetSlice | scripts/SVGConstruct.js:222-247 | the corrected getter: `0 100%` with no dash, otherwise both ends printed by their flags; `SliceRoundTrip` and `PercentRecovered` state what it reads back |
| Slices.EndsRecovered | scripts/SVGConstruct.js:234-287 | reading a dash back gives the smaller and the larger end, unless the slice runs from 0 to the full length |
| Slices.FullSliceReadsLong | scripts/SVGConstruct.js:238-283 | a full slice from 0 reads back with an end of `len + 1`, one past the stroke length |
| Slices.PercentRecovered | scripts/SVGConstruct.js:243-266 | a percentage end reads back as the percentage set, on a stroke with a length |
| Slices.SliceRoundTrip | scripts/SVGConstruct.js:222-291 | setting two ordered ends, lengths or percentages, and reading the slice back with the corrected getter prints them as given |
| Slices.SingleTokenRoundTrip | scripts/SVGConstruct.js:252-254 | one token is the end; the start reads as 0, and the start flag is kept |
| Slices.GapIsFixed | scripts/SVGConstruct.js:250-288 | only an empty token list writes nothing, and the gap is always `len + 11` |
| Slices.Resolve | scripts/SVGConstruct.js:263-275 | the length a token stands for: its number, or `len * p / 100` for a percentage |
| Slices.Show | scripts/SVGConstruct.js:243-244 | how the getter prints an end: the number, or `x / len * 100` percent when its flag is set, not finite on a zero length |
| Slices.NoDashTestAsWritten | scripts/SVGConstruct.js:228 | the no-dash test as written: the text `mkr.unitless` returns, strictly equal to the number 0, and a segment that is not a number |
| Slices.GetSliceAsWritten | scripts/SVGConstruct.js:222-247 | the getter's no-dash case as written: `0` and a non-finite end; with a dash, as `GetSlice` |
| Slices.EndTextAsWritten | scripts/SVGConstruct.js:236 | `da0 + start` as written: the digits of the start appended to the segment's text |
| Slices.NoDashTestNeverPasses | scripts/SVGConstruct.js:228 | the getter's no-dash test never passes |
| Slices.NoDashReadsNaN | scripts/SVGConstruct.js:228-244 | before any slice is set, the getter as written reads `0 NaN`, where `0 100%` is meant |
| Slices.ConcatenatedEnd | scripts/SVGConstruct.js:236 | for the slice `10 40`, the getter as written prints the end `3010` instead of `40` |
| Stars.OutlineAlternates | docs/downloads/constructs/svg/star.js:353-366 | two vertices per point, starting on `r1`, ending on `r2`, alternating, each one step further round |
| Stars.VertexCount | docs/downloads/constructs/svg/star.js:356-358 | `update` builds two vertices per point, none for a count below 1 |
| Stars.Vertex | docs/downloads/constructs/svg/star.js:359 | vertex `i` lies on `r1` at an even position and on `r2` at an odd one |
| Stars.Outline | docs/downloads/constructs/svg/star.js:353-366 | the vertex list `update` builds; `OutlineAlternates` states its shape |
| Stars.PointIndex | docs/downloads/constructs/svg/star.js:341-345 | the index `getPoint` reads, -1 by default and counted from the end when negative; `Star.GetPoint` states the outcome |
| Stars.PointsOption | docs/downloads/constructs/svg/star.js:76 | the documented point count is `options.points`, else 5 |
| Stars.PointsAsWritten | docs/downloads/constructs/svg/star.js:76 | the point count as written: `options._points`, else 5, whatever `options.points` says |
| Stars.PointsOptionIgnored | docs/downloads/constructs/svg/star.js:76 | asking for three points as documented yields five, with ten vertices instead of six |
| Stars.Configure | docs/downloads/constructs/svg/star.js:52-72 | the id, options, attributes and CSS the constructor settles on; its properties are `ConfigureKeepsSupplied` and `ConfigureStyle` |
| Stars.ConfigureKeepsSupplied | docs/downloads/constructs/svg/star.js:52-72 | the constructor never overwrites a supplied option or attribute |
| Stars.ConfigureStyle | docs/downloads/constructs/svg/star.js:62-72 | the polygon's stroke style is the attribute, else the option, else `transparent`, `#000000` and 1; the id likewise |
| Stars.Star.constructor | docs/downloads/constructs/svg/star.js:52-84 | origin (0, 0) and radii 25 and 50 unless given, the point count from the documented `options.points` else 5; the vertices match them; no dash yet |
| Stars.Star.Update | docs/downloads/constructs/svg/star.js:353-366 | the loop rebuilds the vertex list as `Outline` of the current radii and point count, two vertices per point |
| Stars.Star.SetX | docs/downloads/constructs/svg/star.js:261-264 | stores `x`; the vertices do not move; the other geometry and the slice state are unchanged |
| Stars.Star.SetY | docs/downloads/constructs/svg/star.js:275-278 | stores `y`; the vertices do not move; the other geometry and the slice state are unchanged |
| Stars.Star.SetR1 | docs/downloads/constructs/svg/star.js:300-303 | stores `r1` and rebuilds the vertices; the other geometry and the slice state are unchanged |
| Stars.Star.SetR2 | docs/downloads/constructs/svg/star.js:314-317 | stores `r2` and rebuilds the vertices; the other geometry and the slice state are unchanged |
| Stars.Star.SetPoints | docs/downloads/constructs/svg/star.js:328-331 | stores the point count and rebuilds two vertices per point; the other geometry and the slice state are unchanged |
| Stars.Star.GetPoint | docs/downloads/constructs/svg/star.js:341-345 | the last vertex by default, the vertex at a non-negative index, counting from the end for a negative one, `undefined` exactly out of range |
| Stars.Star.SetSlice | docs/downloads/constructs/svg/star.js:207-250 | as the `SVGConstruct` setter, read back by the corrected getter; the geometry and the vertices are unchanged |
| Stars.Star.Slice | docs/downloads/constructs/svg/star.js:181-206 | the corrected getter on the star's own unit flags and dash |
| Stars.LastPointOnSecondRadius | docs/downloads/constructs/svg/star.js:341-345 | with no argument `getPoint` returns a vertex on the second radius |
| Stars.NegativeIndexWraps | docs/downloads/constructs/svg/star.js:343 | a negative index reads the same vertex as `length + index` |
| Ellipses.GeometryAttr | docs/downloads/constructs/svg/ellps.js:38-41 | a centre or radius attribute is the one supplied, else the documented option, else its default |
| Ellipses.ConfigureGeometry | docs/downloads/constructs/svg/ellps.js:38-41 | the centre and radii are the attributes supplied, else the documented options, else (0, 0), 50 and 50 |
| Ellipses.ConfigureGeometryAsWritten | docs/downloads/constructs/svg/ellps.js:69-72 | as written, a centre or radius attribute is the one supplied, else its fixed default, whatever the options say |
| Ellipses.GeometryOptionsIgnored | docs/downloads/constructs/svg/ellps.js:40 | `new ellps({rx: 10})` draws an x radius of 50 as written, where the documented option gives 10 |
| Ellipses.GeometryOf | docs/downloads/constructs/svg/ellps.js:38-41 | the documented `options.cx`, `options.cy`, `options.rx` and `options.ry`, each else its default |
| Ellipses.AttrAsWritten | docs/downloads/constructs/svg/ellps.js:61-76 | the attributes as written: supplied attributes, then the id, the fixed centre and radii and the stroke style; the geometry options are never read |
| Ellipses.ConfigureAsWritten | docs/downloads/constructs/svg/ellps.js:51-76 | the constructor as written, with `AttrAsWritten` as the element's attributes |
| Ellipses.Configure | docs/downloads/constructs/svg/ellps.js:51-76 | the id, options, attributes and CSS the constructor settles on, the geometry read as documented; its properties are `ConfigureGeometry`, `ConfigureKeepsSupplied` and `ConfigureStyle` |
| Ellipses.ConfigureKeepsSupplied | docs/downloads/constructs/svg/ellps.js:51-76 | the constructor never overwrites a supplied option or attribute |
| Ellipses.ConfigureStyle | docs/downloads/constructs/svg/ellps.js:61-76 | the ellipse's stroke style is the attribute, else the option, else `transparent`, `#000000` and 1; the id likewise |
| Ellipses.Ellipse.constructor | docs/downloads/constructs/svg/ellps.js:51-80 | the instance holds the id, attributes and CSS `Configure` settles on, the geometry options read as documented; no dash yet |
| Ellipses.Ellipse.SetAttribute | docs/downloads/constructs/svg/ellps.js:258 | the attribute reads back the value; no other attribute changes |
| Ellipses.Ellipse.SetCx | docs/downloads/constructs/svg/ellps.js:257-259 | `cx` reads back the value; every other attribute and the slice state are unchanged |
| Ellipses.Ellipse.SetCy | docs/downloads/constructs/svg/ellps.js:268-270 | `cy` reads back the value; every other attribute and the slice state are unchanged |
| Ellipses.Ellipse.SetRx | docs/downloads/constructs/svg/ellps.js:279-281 | `rx` reads back the value; every other attribute and the slice state are unchanged |
| Ellipses.Ellipse.SetRy | docs/downloads/constructs/svg/ellps.js:290-292 | `ry` reads back the value; every other attribute and the slice state are unchanged |
| Ellipses.Ellipse.Cx | docs/downloads/constructs/svg/ellps.js:256 | the `cx` getter: the element's `cx` attribute, `Undefined` (the DOM's `null`) when it lacks one |
| Ellipses.Ellipse.Cy | docs/downloads/constructs/svg/ellps.js:267 | the `cy` getter: the element's `cy` attribute, `Undefined` (the DOM's `null`) when it lacks one |
| Ellipses.Ellipse.Rx | docs/downloads/constructs/svg/ellps.js:278 | the `rx` getter: the element's `rx` attribute, `Undefined` (the DOM's `null`) when it lacks one |
| Ellipses.Ellipse.Ry | docs/downloads/constructs/svg/ellps.js:289 | the `ry` getter: the element's `ry` attribute, `Undefined` (the DOM's `null`) when it lacks one |
| Ellipses.Ellipse.SetSlice | docs/downloads/constructs/svg/ellps.js:205-248 | as the `SVGConstruct` setter, read back by the corrected getter; the attributes are unchanged |
| Ellipses.Ellipse.Attribute | docs/downloads/constructs/svg/ellps.js:256 | `el.getAttribute(name)`: the attribute's value, `Undefined` (the DOM's `null`) when the element lacks it |
| Ellipses.Ellipse.Slice | docs/downloads/constructs/svg/ellps.js:179-204 | the corrected getter on the ellipse's own unit flags and dash |

## Left out

- DOM work is not modelled:
  - creating elements and the parent lookup (`mkr.create`, `mkr.query`, `SVGElement`, the `parent` option);
  - the per-class `_instances` registries and `getInstance`;
  - the undeclared `type` passed to `mkr.create` at scripts/SVGConstruct.js:87.
- The constructs' element attributes are the map each constructor builds; an attribute's text is modelled as its value. `getAttribute` on a missing attribute returns `null` in the DOM; the model's `Undefined` stands for it.
- The constructors mutate `options` in place; the model returns the settled options as a value.
- Runs of `setDefault` on literal keys are stated as map merges. `Constructs.SetDefaultsMerges` proves that equivalence for any run.
- The static instance counter is a parameter `count`.
- `TweenMax.set` is modelled as an assignment of the dash. The stroke's `getTotalLength()` is a parameter.
- `mkr.fix` is taken as the identity.
- `mkr.unitless` is documented as returning a number, but the code (src/mkr.js:889-891) returns the text with the unit stripped. The setter's tokens arrive as numbers. The getter the classes use adds numbers, so it follows the documented reading; the two getter findings below show what the code does with the text instead.
- Setter tokens: a `%` token goes through `mkr.unitless` (scripts/SVGConstruct.js:266, 273); a plain token stays text until `Math.min`/`Math.max` (278-279) convert it with `Number`. Each token arrives as that number with a percent flag. A plain token with a unit suffix (such as `10px`, which `Number` turns into NaN) or any other token that does not parse is not modelled.
- Floating point is modelled as exact reals. `NaN` and `Infinity%` are collapsed into one `NotFinite` reading.
- `value.split(' ')` never yields an empty list. The setter's empty-list guard at scripts/SVGConstruct.js:250 is kept as the `None` case.
- Star vertices keep their radius and angle step. The cosines, sines and the `points` attribute text of `update` are not modelled.
- Star geometry options are numbers, not strings.
- Stars.Star.Update: the loop builds the list by appending, where the source assigns `_coords[i]`. The results are equal.
- The `ellps` doc comment says `ry` defaults to 30, while the code uses 50. The model follows the code.
- `Signal` features the library does not use are not modelled:
  - `memorize`/`forget` (and `SignalManager.forget`), `active`, binding `params`;
  - the listener-is-a-function check.
- Listeners' effects are limited to continue, return `false` or `halt()`. A listener that adds or removes bindings during a dispatch (re-entrancy) is not modelled.
- TriggerMatrices.TriggerMatrix: each target's record (its manager's channels and its triggers) is held as a value in `mkr.map`, not as nested `SignalManager`/`Signal` objects. The channel operations use the same specification functions (`Registered`, `Drop`, `Fired`, `Keep`) that `Signal` and `SignalManager` are proved against.
- TriggerMatrices.TriggerMatrix.Add: follows the corrected order (see Findings).
- TriggerMatrices.TriggerMatrix.AddOnce: follows `Add`'s corrected order. When an element's `add` throws (the mixed add/addOnce error), the code has already uninstalled and deleted that element's (target, type) trigger; the model keeps the old one (see Findings).
- SignalManagers.SignalManager.Channel: a channel named like an `Object.prototype` member (`constructor`, `toString`, …) is created like any other. The source's `in` test finds the inherited member, so it creates no channel.
- SignalManagers.SignalManager.Register: a channel named like an `Object.prototype` member (`constructor`, `toString`, …) is created like any other. The source's `in` test finds the inherited member, so it creates no channel.
- SignalManagers.SignalManager.Add: a channel named like an `Object.prototype` member is created and bound like any other. The source creates no channel and then throws a TypeError.
- SignalManagers.SignalManager.AddOnce: a channel named like an `Object.prototype` member is created and bound like any other. The source creates no channel and then throws a TypeError.
- SignalManagers.SignalManager.Dispatch: a channel named like an `Object.prototype` member is treated like any other name. The source finds the inherited member and throws a TypeError.
- SignalManagers.SignalManager.Dispose: a channel named like an `Object.prototype` member is treated like any other name. The source finds the inherited member and throws a TypeError.
- SignalManagers.SignalManager.GetNumListeners: a channel named like an `Object.prototype` member is treated like any other name. The source finds the inherited member and throws a TypeError.
- SignalManagers.SignalManager.Halt: a channel named like an `Object.prototype` member is treated like any other name. The source finds the inherited member and throws a TypeError.
- SignalManagers.SignalManager.Has: a channel named like an `Object.prototype` member is treated like any other name. The source finds the inherited member and throws a TypeError.
- SignalManagers.SignalManager.Remove: a channel named like an `Object.prototype` member is treated like any other name. The source finds the inherited member and throws a TypeError.
- SignalManagers.SignalManager.RemoveAll: a channel named like an `Object.prototype` member is treated like any other name. The source finds the inherited member and throws a TypeError.
- IdentityMaps.MkrMap.Has: a string key named like an `Object.prototype` member is modelled as absent, where the source's `in` answers true.
- IdentityMaps.MkrMap.Get: a string key named like an `Object.prototype` member is modelled as absent, where the source returns the inherited member.
- IdentityMaps.MkrMap.ForEachKey: a stored string named like an `Object.prototype` member is reported as itself, where the source's `in this._keys` test reports the inherited member.
- IdentityMaps.MkrMap.Clear: a stored string named like an `Object.prototype` member is deleted as itself, where the source passes the inherited member to `delete`.
- Events.On: an event type named like an `Object.prototype` member behaves like any other type, where the source's manager throws a TypeError (see `SignalManagers.SignalManager.Add`).
- Events.Once: an event type named like an `Object.prototype` member behaves like any other type, where the source throws a TypeError.
- Events.ListenSpec: built on the corrected `add`. When an element's `add` throws (the mixed add/addOnce error), the code has already uninstalled and deleted that element's (target, type) trigger; the model keeps the old one (see Findings).
- Events.Listen: built on the corrected `add`. When an element's `add` throws (the mixed add/addOnce error), the code has already uninstalled and deleted that element's (target, type) trigger; the model keeps the old one (see Findings).
- Events.On: built on the corrected `add`. When an element's `add` throws (the mixed add/addOnce error), the code has already uninstalled and deleted that element's (target, type) trigger; the model keeps the old one (see Findings).
- Events.Once: built on the corrected `add`. When an element's `add` throws (the mixed add/addOnce error), the code has already uninstalled and deleted that element's (target, type) trigger; the model keeps the old one (see Findings).
- Events.ListenKeepsBinding: stated of the corrected `add`; for the code it holds only when no error escapes.
- Slices.GetSliceAsWritten: models the getter's no-dash test as written. With a dash it reads as the corrected getter; the text concatenation of the end is shown on its own, by `Slices.EndTextAsWritten`.
- SvgConstructs.SvgConstruct.Slice: the corrected getter (see Findings). The code reads `0 NaN` for a fresh construct and concatenates the end when the offset is negative.
- Stars.Star.Slice: the corrected getter, as `SvgConstructs.SvgConstruct.Slice`.
- Ellipses.Ellipse.Slice: the corrected getter, as `SvgConstructs.SvgConstruct.Slice`.
- Slices.SliceRoundTrip: the round trip is stated through the corrected getter. With the code's getter, a slice whose smaller end is not 0 reads back a concatenated end.
- SvgConstructs.SvgConstruct.SetSlice: the round trip in its contract is read through the corrected getter, as `Slices.SliceRoundTrip`.
- Stars.Star.SetSlice: the round trip in its contract is read through the corrected getter, as `Slices.SliceRoundTrip`.
- Ellipses.Ellipse.SetSlice: the round trip in its contract is read through the corrected getter, as `Slices.SliceRoundTrip`.
- Stars.Star.constructor: reads the documented `options.points` (see Findings). The code reads `options._points`, so it draws five points unless `_points` is given.
- Ellipses.Ellipse.constructor: reads the documented `options.cx`, `options.cy`, `options.rx` and `options.ry` (see Findings). The code ignores them and uses only the attributes and the fixed defaults.
- TriggerMatrices.TriggerMatrix.Fire: every trigger uninstalls itself once its channel is empty (see Findings). In the code only the trigger from `addOnce` does; the one from `add` stays installed.
- IdentityMaps.MkrMap.Delete: returns whether the key was present (see Findings for the code's answer on strings).
- IdentityMaps.MkrMap.Clear: proves its outcome only for a consistent map, one in which no string key shares an object's tag text.
- `mkr.map.forEach` is modelled only through the key it reports (`IdentityMaps.MkrMap.ForEachKey`). `TriggerMatrix.Clear` deletes every target.
- `src/constructs/3d/prsm.js` and mkr's numeric helpers (distance, rotation, angle, `randomRange`) are not part of this model.

## Findings

| source | as written | input that shows it | evidently intended | confidence | as-written member | corrected member |
|---|---|---|---|---|---|---|
| src/mkr.js:1288-1307 | `add` uninstalls and deletes the (target, type) trigger before the channel may throw the mixed add/addOnce error | `once(el, 'click', f)` then `on(el, 'click', f)`: the error escapes, the click trigger is gone and `f` is still bound, stranded until another listener of that type is added on the target | check the registration first and leave the trigger in place when it fails | not executed | TriggerMatrices.AddAsWritten, TriggerMatrices.AddAsWrittenStrandsListeners | TriggerMatrices.AddSpec, TriggerMatrices.AddSpecKeepsTriggerOnError, TriggerMatrices.AddKeepsLive, Events.ListenKeepsBinding |
| src/mkr.js:1240-1247 | `delete` on a string key removes the entry, then reads `_mkrmapid` of the string (undefined) and returns `false` | `m.set('color', 1); m.delete('color')` returns `false` | return whether the key was present | not executed | IdentityMaps.DeleteResultAsWritten, IdentityMaps.StringDeleteReportsMissing | IdentityMaps.MkrMap.Delete |
| scripts/SVGConstruct.js:236 | `end = da0 + start`, where `da0` is the string `mkr.unitless` returns, so `+` concatenates | slice `10 40` on a stroke of length 100 reads back `10 3010` | add the numbers: the end is the segment plus the start | not executed | Slices.EndTextAsWritten, Slices.ConcatenatedEnd | Slices.Ends, Slices.EndsRecovered |
| scripts/SVGConstruct.js:228 | `offset === 0` compares a string with a number, so the no-dash early return never happens | a fresh construct's `slice` reads `0 NaN` | `0 100%` when no dash has been set | not executed | Slices.GetSliceAsWritten, Slices.NoDashReadsNaN | Slices.GetSlice |
| docs/downloads/constructs/svg/star.js:76 | the point count is read from `options._points` | `new star({points: 3})` draws five points | read the documented `options.points` | not executed | Stars.PointsAsWritten, Stars.PointsOptionIgnored | Stars.PointsOption |
| src/mkr.js:1306 | the trigger from `add` dispatches without checking for an empty channel, so it stays installed once its channel empties | `once(el, 'click', f)`, `on(el, 'click', g)`, `off(el, 'click', g)`, then one click: `f` runs and detaches, and the click trigger stays installed over an empty channel | every trigger uninstalls itself once its channel is empty, so a (target, type) has a trigger exactly when it has listeners | not executed | TriggerMatrices.FireAsWritten, TriggerMatrices.PersistentTriggerOutlivesListeners | TriggerMatrices.FireSpec, TriggerMatrices.FireSpecUninstallsEmptied, TriggerMatrices.FireKeepsLive |
| docs/downloads/constructs/svg/ellps.js:69-72 | the centre and radii attributes default to fixed values; the documented `options.cx`, `options.cy`, `options.rx` and `options.ry` are never read | `new ellps({rx: 10})` draws an x radius of 50 | default each attribute to the option of that name, then to the code's defaults (see Left out for `ry`) | not executed | Ellipses.ConfigureAsWritten, Ellipses.GeometryOptionsIgnored | Ellipses.Configure, Ellipses.ConfigureGeometry |
