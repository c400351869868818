# Annotator bootstrap and configuration coercions

This project models two parts of the Hypothesis annotation client in Dafny.

The first is the entry point of the annotator bundle, `src/annotator/index.js`. When the bundle loads it looks up the sidebar `<link>` and waits for the document to be ready. Then `init` reads the annotator configuration and decides whether this frame is the host frame. It builds one EventBus and a Guest. In a host frame it also builds a Sidebar and a Notebook on the same bus. Finally it registers a `destroy` listener on the sidebar link. That listener destroys the sidebar, the notebook and then the guest, and removes every node the boot script injected (those marked `data-hypothesis-asset`).

This part is the class `Annotator.Page`:

- its fields are the document, the ready-state, the document-ready gate, the count of `init` runs and the registered listeners;
- its methods are the bundle load (`Boot`), a `readystatechange` event, `init` itself and the dispatch of `destroy`;
- a ghost log records every construction of a collaborator and every `destroy()` call on one.

The invariant `Page.Valid` ties the log to a history function, `Annotator.History`. The lemmas about `History` state the existence, sharing, ordering and teardown properties.

The second part is the coercions in `src/shared/type-coercions.js`. They turn unsanitised configuration values into the types the client expects: `toBoolean`, `toObject`, `toString` and `downcastRef`. They are pure functions over a datatype of JavaScript values, `JsValues.JsValue`. `Number(...)` is reduced to three outcomes: NaN, zero or non-zero. For strings that outcome is computed by a parser of JavaScript numeric literals, `JsStrings.StringToNumber`, which trims whitespace, reads `0x`/`0o`/`0b` literals, signed `Infinity` and decimal literals with an exponent.

Modules:

- `Wrappers`: `Option`.
- `JsValues`: JavaScript values.
- `JsStrings`: `trim`, lower-casing and string-to-number.
- `TypeCoercions`: the coercions.
- `Document`: the page's elements and the asset filter.
- `Annotator`: the bootstrap.

Two points of the code that the model keeps on purpose:

- The host-frame test `subFrameIdentifier === null` is strict, so an `undefined` identifier is not a host frame.
- A second `destroy` calls `destroy()` on every collaborator again; nothing in the code makes teardown idempotent. After `n` rounds each collaborator has had `destroy()` called `n` times (`Annotator.DestroyedPerRound`).

## Model

| member | source | states |
|---|---|---|
| `Annotator.IsHostFrame` | src/annotator/index.js:43-44 | the host-frame test is strict: a config whose `subFrameIdentifier` is `undefined` or a string is not a host frame |
| `Annotator.Page.Init` | src/annotator/index.js:42-69 | `init` runs once more; it builds a fresh EventBus and a fresh Guest, plus a fresh Sidebar and Notebook exactly in a host frame, all wired as `Wired` says (same bus, `document.body`, each scope's config, the Guest handed to the Sidebar); it logs these constructions in order; it registers its collaborators as a `destroy` listener exactly when the sidebar link exists, and otherwise reports failure (`addEventListener` on `null` throws) |
| `Annotator.Page.Resolve` | src/annotator/index.js:77-88 | the first `resolve()` sets the gate and runs `init` with fresh collaborators; a later one changes nothing |
| `Annotator.Page.Boot` | src/annotator/index.js:24-88 | loading the bundle records the first sidebar link of the document; the gate resolves and `init` runs exactly when the document is not `loading`; a loading document has built and registered nothing |
| `Annotator.Page.ReadyStateChange` | src/annotator/index.js:82-84 | a `readystatechange` after the bundle loaded resolves the gate; `init` has run exactly once afterwards, however many events fire, and later events leave the log and listeners unchanged |
| `Annotator.Page.RemoveClientAssets` | src/annotator/index.js:65-68 | removing the queried asset nodes one by one leaves exactly `NonAssets` of the document: no marked node, and the unmarked ones in their order |
| `Annotator.Page.RunDestroyListener` | src/annotator/index.js:60-69 | one run of the listener appends `DestroyCalls` (sidebar, notebook, guest, skipping absent ones) to the log and leaves `NonAssets` of the document |
| `Annotator.Page.RunDestroyListeners` | src/annotator/index.js:60 | dispatching runs every registered listener in registration order |
| `Annotator.Page.DispatchDestroy` | src/annotator/index.js:60-69 | a `destroy` event keeps the invariant; with the listener registered it removes every asset, extends the log by one round of `destroy()` calls and, from the second event on, removes no further element; with no listener (no sidebar link) nothing changes |
| `Annotator.InitConstructs` | src/annotator/index.js:47-58 | one run of `init` constructs exactly one EventBus and one Guest, and one Sidebar and one Notebook exactly in a host frame |
| `Annotator.ConstructionCount` | src/annotator/index.js:60-63 | teardown rounds construct nothing, so the history constructs exactly what `init` did |
| `Annotator.ConstructedOnce` | src/annotator/index.js:43-58 | a host frame is one whose annotator config has `subFrameIdentifier === null`; however many teardowns follow, the history holds exactly one EventBus construction and one Guest construction, and one Sidebar and one Notebook construction exactly in a host frame, none otherwise |
| `Annotator.DestroyOrder` | src/annotator/index.js:61-63 | the listener's calls are strictly ordered sidebar, then notebook, then guest |
| `Annotator.DestroyMatchesConstruction` | src/annotator/index.js:50-63 | every constructed Guest, Sidebar and Notebook is destroyed exactly once per run of the listener, and nothing that was not constructed is destroyed |
| `Annotator.HistoryStep` | src/annotator/index.js:60-63 | one more run of the listener extends the history by exactly its `destroy()` calls |
| `Annotator.RepeatHasNoConstruction` | src/annotator/index.js:60-63 | the listener constructs nothing |
| `Annotator.RepeatCountOnce` | src/annotator/index.js:60-63 | a call made once per run is made `n` times in `n` runs |
| `Annotator.RepeatCountNone` | src/annotator/index.js:60-63 | a call never made in a run is never made in `n` runs |
| `Annotator.DestroyCallsDistinct` | src/annotator/index.js:61-63 | each `destroy()` call the listener makes, it makes once per run |
| `Annotator.DestroyCount` | src/annotator/index.js:60-63 | after `n` runs, `destroy()` has been called `n` times on each of the listener's collaborators and never on anything else |
| `Annotator.GuestDestroyedPerRound` | src/annotator/index.js:63 | after `n` runs the guest has had `destroy()` called `n` times |
| `Annotator.SidebarDestroyedPerRound` | src/annotator/index.js:61 | after `n` runs an existing sidebar has had `destroy()` called `n` times |
| `Annotator.NotebookDestroyedPerRound` | src/annotator/index.js:62 | after `n` runs an existing notebook has had `destroy()` called `n` times |
| `Annotator.DestroyedPerRound` | src/annotator/index.js:60-63 | after `n` runs every existing collaborator has had `destroy()` called `n` times (once after the first `destroy`) |
| `Annotator.NothingElseDestroyed` | src/annotator/index.js:60-63 | no `destroy()` is ever called on anything but the listener's own collaborators |
| `Document.Assets` | src/annotator/index.js:67 | `querySelectorAll('[data-hypothesis-asset]')` holds exactly the marked elements |
| `Document.NonAssets` | src/annotator/index.js:65-68 | the document after removing the assets holds exactly the unmarked elements, and none marked |
| `Document.Except` | src/annotator/index.js:68 | the document after `el.remove()` on each node of a set holds exactly the elements not in the set |
| `Document.SidebarLinkIndex` | src/annotator/index.js:24-28 | `querySelector` finds the first sidebar link in document order, or none |
| `Document.QuerySidebarLink` | src/annotator/index.js:24-28 | the result is `null` exactly when the document has no sidebar link, and otherwise is a sidebar link of the document |
| `Document.ExceptNothing` | src/annotator/index.js:67-68 | removing no node leaves the document unchanged |
| `Document.ExceptStep` | src/annotator/index.js:68 | removing one more node is removing the enlarged set |
| `Document.ExceptAssets` | src/annotator/index.js:67-68 | removing exactly the marked nodes leaves `NonAssets` |
| `Document.NonAssetsOfAssetFree` | src/annotator/index.js:67-68 | on a document without assets the removal changes nothing |
| `Document.NonAssetsOfAllAssets` | src/annotator/index.js:65-68 | a document made only of marked elements is emptied |
| `Document.NonAssetsIdempotent` | src/annotator/index.js:67-68 | a second removal removes nothing more |
| `Document.NonAssetsAppend` | src/annotator/index.js:65-68 | the removal distributes over concatenation, so unmarked elements keep their relative order |
| `Document.NonAssetsIsSubsequence` | src/annotator/index.js:65-68 | the remaining elements are a subsequence of the document |
| `Document.AssetsPartition` | src/annotator/index.js:67-68 | the removed and the kept elements together are exactly the document's elements |
| `JsStrings.TrimStart` | src/shared/type-coercions.js:19 | the result is a suffix of `s`, only whitespace was dropped, and it does not start with whitespace |
| `JsStrings.TrimEnd` | src/shared/type-coercions.js:19 | the result is a prefix of `s`, only whitespace was dropped, and it does not end with whitespace |
| `JsStrings.PrefixOfSuffix` | src/shared/type-coercions.js:19 | a prefix of a suffix of `s` is a slice of `s`, with whitespace outside it when the cut-off parts are whitespace |
| `JsStrings.Trim` | src/shared/type-coercions.js:19 | `trim()` returns a slice `s[i..j]` of its argument with only whitespace before `i` and after `j`, and it neither starts nor ends with whitespace |
| `JsStrings.TrimSkipsLeadingWhitespace` | src/shared/type-coercions.js:19 | leading whitespace does not change the trim |
| `JsStrings.TrimUnpadded` | src/shared/type-coercions.js:19 | a string without surrounding whitespace is its own trim |
| `JsStrings.AsciiLower` | src/shared/type-coercions.js:19 | lower-casing keeps the length and maps each character on its own |
| `JsStrings.LowerCharInverse` | src/shared/type-coercions.js:19 | a lower-case letter comes from itself and its upper-case form only |
| `JsStrings.SpellsFalse` | src/shared/type-coercions.js:19-20 | the strings that lower-case to "false" are exactly the case variants of "false" |
| `JsStrings.IndexOfEither` | src/shared/type-coercions.js:24 | the position of the first of two characters, or the length |
| `JsStrings.DigitsAreDecimal` | src/shared/type-coercions.js:24 | a run of decimal digits parses as a decimal literal, zero exactly when all digits are `0` |
| `JsStrings.NumeralToNumber` | src/shared/type-coercions.js:24-25 | `Number` of a run of decimal digits is not NaN, and is zero exactly when all digits are `0` |
| `JsStrings.NonNumericStartIsNaN` | src/shared/type-coercions.js:24-25 | a string starting with neither a digit nor `.` is not a decimal literal |
| `JsStrings.NonNumericStringIsNaN` | src/shared/type-coercions.js:24-25 | an unpadded string that starts with neither a digit, a sign nor `.` and is not `Infinity` converts to NaN |
| `JsStrings.StringToNumber` | src/shared/type-coercions.js:24 | `Number` of a string: an empty or all-whitespace string is zero and a signed or unsigned `Infinity` is non-zero (more in `NumeralToNumber` and `NonNumericStringIsNaN`) |
| `TypeCoercions.ToNumber` | src/shared/type-coercions.js:24 | `Number(value)`: `undefined` is NaN, and for `undefined`, `null`, booleans and numbers the number is non-zero exactly when the value is truthy |
| `TypeCoercions.ToBoolean` | src/shared/type-coercions.js:17-30 | `toBoolean` of a non-string is true exactly when its number is non-zero; of a string, exactly when it is not false-like and its number is not zero |
| `TypeCoercions.FalseLikeSpelling` | src/shared/type-coercions.js:19 | a string is false-like exactly when its trim is a case variant of "false" |
| `TypeCoercions.FalseLikeIsNaN` | src/shared/type-coercions.js:19-25 | a false-like string's numeric conversion is NaN |
| `TypeCoercions.FalseLikeToBoolean` | src/shared/type-coercions.js:18-22 | every string whose trimmed, lower-cased form is "false" coerces to `false` |
| `TypeCoercions.CaseVariantIsFalseLike` | src/shared/type-coercions.js:19-20 | every case variant of "false" is false-like |
| `TypeCoercions.PaddedFalseIsFalseLike` | src/shared/type-coercions.js:19-20 | " false" is false-like |
| `TypeCoercions.DocumentedFalseStrings` | src/shared/type-coercions.js:20 | "false", "False", " false" and "FALSE" all coerce to `false` |
| `TypeCoercions.NumericToBoolean` | src/shared/type-coercions.js:24-27 | a value whose numeric conversion is not NaN coerces to `false` exactly when that number is zero |
| `TypeCoercions.NonNumericToBoolean` | src/shared/type-coercions.js:28-29 | a value whose numeric conversion is NaN coerces to `true` exactly when it is a string that is not false-like |
| `TypeCoercions.ToBooleanOfBool` | src/shared/type-coercions.js:24-26 | `toBoolean` returns a boolean unchanged |
| `TypeCoercions.ToBooleanOfPrimitive` | src/shared/type-coercions.js:24-29 | on `undefined`, `null`, booleans and numbers `toBoolean` is JavaScript truthiness |
| `TypeCoercions.NumeralToBoolean` | src/shared/type-coercions.js:24-26 | a string of decimal digits coerces to `false` exactly when every digit is `0` |
| `TypeCoercions.ToBooleanDepartsFromTruthiness` | src/shared/type-coercions.js:24-29 | the truthy string "0" and the truthy object `{}` both coerce to `false` |
| `TypeCoercions.ToObject` | src/shared/type-coercions.js:49-55 | `toObject` always returns an object |
| `TypeCoercions.ToObjectKeepsObjects` | src/shared/type-coercions.js:50-52 | `toObject` returns its argument itself exactly when it is a non-null object |
| `TypeCoercions.ToObjectOfNonObject` | src/shared/type-coercions.js:53-54 | `null` and every primitive give a freshly allocated empty object, whose numeric conversion is NaN |
| `TypeCoercions.ToObjectIdempotent` | src/shared/type-coercions.js:49-55 | `toObject(toObject(v))` is the very object `toObject(v)` gave |
| `TypeCoercions.ToString` | src/shared/type-coercions.js:64-69 | `toString` of a falsy value is `""`, and a non-empty result comes only from a value with a `toString` method |
| `TypeCoercions.FalsyToString` | src/shared/type-coercions.js:57-68 | every falsy value (`undefined`, `null`, `false`, `0`, NaN, `''`) gives `''` |
| `TypeCoercions.TruthyToString` | src/shared/type-coercions.js:65-66 | a truthy value whose `toString` is a function gives what that function returns |
| `TypeCoercions.ObjectWithoutToString` | src/shared/type-coercions.js:65-68 | an object whose `toString` is not a function gives `''` |
| `TypeCoercions.ToStringOfString` | src/shared/type-coercions.js:64-69 | a string comes back unchanged, the empty one included |
| `TypeCoercions.ToStringOfBool` | src/shared/type-coercions.js:64-69 | `true` gives "true" and `false`, being falsy, gives `''` |
| `TypeCoercions.TrueIsNotFalseLike` | src/shared/type-coercions.js:19 | "true" is not false-like |
| `TypeCoercions.TrueIsNaN` | src/shared/type-coercions.js:24-25 | "true" converts to NaN |
| `TypeCoercions.TrueStringToBoolean` | src/shared/type-coercions.js:17-30 | the string "true" coerces to `true` |
| `TypeCoercions.BoolStringRoundTrip` | src/shared/type-coercions.js:17-69 | a boolean survives `toString` followed by `toBoolean` |
| `TypeCoercions.DowncastRef` | src/shared/type-coercions.js:89-91 | `downcastRef` returns its argument unchanged, `undefined` included |

## Left out

- `toInteger` (src/shared/type-coercions.js:38-41) is a bare `parseInt`. Its result is a floating-point number, which is not modelled.
- `Number(...)` is reduced to NaN, zero or non-zero. Magnitudes, rounding and underflow are not modelled. For example, `"1e-400"` counts as non-zero here, although the double it parses to is 0.
- `JsStrings.AsciiLower`: `toLocaleLowerCase` is modelled on ASCII letters only. Other characters are kept as they are, and locale rules are ignored.
- Functions, symbols and bigints are not among the modelled JavaScript values. `Number` of an object and the result of its `toString` are fields of the object value, because they depend on code outside this model.
- The identity of the `{}` that `toObject` allocates is a parameter of `ToObject`.
- `getConfig` and the internals of Guest, Sidebar, Notebook and EventBus (src/annotator/config/index.js, guest.js, sidebar.js, notebook.js, util/emitter.js) are not part of this model. They are opaque: only what `init` hands them is recorded. The EventBus publish/subscribe behaviour, what each `destroy()` does, and any failure of a constructor are not modelled.
- Promise scheduling is not modelled. `init` runs as soon as `resolve()` is first called, not in a later microtask.
- The document is a flat sequence of elements. Nesting, attributes other than the asset marker and the sidebar-link type, and the rest of the DOM are not modelled. `document.body` is a fixed element of the page.
- `Annotator.Page.Init`: when the sidebar link is `null`, `addEventListener` throws. The model records this as `ok == false` with no listener registered. The exception's propagation into the promise it escapes from is not modelled.
- `Annotator.Page.RunDestroyListener`: a `destroy()` that throws stops the rest of the listener (src/annotator/index.js:61-68), so no later `destroy()` call is made and no asset is removed. The model does not capture this: every `destroy()` returns normally.
- `Annotator.Page.RemoveClientAssets`: the loop removes the queried nodes one at a time, as `forEach(el => el.remove())` does. Live DOM mutation observers are not modelled.
- The polyfill and debug imports and the icon registration (src/annotator/index.js:5-14) are module loads with no logic here.
- src/sidebar/components/LoginPromptPanel.js and src/shared/renderer-options.js are not part of this model. They are a UI component reading a store outside this model, and a browser feature-detection shim over a rendering library.
