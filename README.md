# CallChooser navigation, number handling and trial texts in Dafny

This project models three parts of the CallChooser Android app and proves
properties about them.

- **The multi-stack navigator** (`Navigator` in
  `core/navigation/.../Navigator.kt`). It keeps one back stack per top-level
  route in an insertion-ordered registry (Kotlin's `LinkedHashMap`). It also
  keeps an ownership map for shared routes and an active top-level key. Its
  flattened `backStack` is the concatenation of all stacks.
  - `NavigationState` holds the state as a value, with one pure step function
    per operation.
  - `Navigator.Navigator` is the class itself. Its fields are updated in place
    by methods that mirror the Kotlin private functions. Every method is
    specified by the step functions.
  - `NavigationProperties` proves the invariant that every reachable state
    satisfies, together with what each kind of `navigate` and `goBack` does to
    the registry, the ownership map, the active key and the back stack.
  - `LinkedMap` models the registry as a sequence of key/value entries, so that
    insertion order is explicit.
- **Phone-number normalisation** (`normalizeNumber`, defined identically in
  both `MainActivity.kt` files), in `PhoneNumber`.
- **Contact actions** (`ContactActions`): the dial and messenger deep-link
  URIs, with the fall-back to dialling, and the rule that starts a contact
  search from two characters on.
- **Trial texts** (`TrialTexts`): the Ukrainian and English day-count messages
  with their plural choice, the four-entry premium feature lists, and the
  dispatch on the language.

In three places the model keeps behaviour a reader might not expect:

- `navigate(startRoute)` leaves `sharedRoutes` as it is. It does not drop the
  ownership records of the stacks it discards, so stale owners are allowed and
  modelled.
- `goBack` removes the registry entry whose key equals the popped route, as
  coded. It does not use the "remove a stack when it becomes empty" rule.
  `GoBackRulesCoincide` proves that the two rules agree on every state that
  satisfies the invariant.
- `Navigator.kt:108` reads `topLevelStacks.put(.route, topLevelStack)`, which
  does not compile. It is modelled as `put(route, topLevelStack)`.

`Navigator.GoBack` reports `thrown` where `keys.last()` would throw
`NoSuchElementException` on an empty registry. The pure `GoBack` returns
`None` in that case. Under the invariant this never happens.

## Model

| member | source | states |
|---|---|---|
| LinkedMap.Get | core/navigation/src/main/java/android/template/core/navigation/Navigator.kt:116 | `map[k]` is `None` exactly when `k` is not a key; otherwise the value is the one stored under `k` |
| LinkedMap.Keys | core/navigation/src/main/java/android/template/core/navigation/Navigator.kt:166 | `keys` lists one key per entry, in insertion order, so `keys.last()` is the most recently inserted surviving key |
| LinkedMap.Remove | core/navigation/src/main/java/android/template/core/navigation/Navigator.kt:102 | `remove(k)` drops `k` and nothing else: every other lookup is unchanged, distinct keys stay distinct, removing a missing key changes nothing, and when `k` is present the result is the map with that one entry cut out, every other entry in its old order |
| LinkedMap.Put | core/navigation/src/main/java/android/template/core/navigation/Navigator.kt:108 | `put(k, v)` makes `k` map to `v` and leaves every other lookup unchanged; the key order is kept for an existing key, and a new key is appended last |
| Wrappers.Option.GetOr | core/navigation/src/main/java/android/template/core/navigation/Navigator.kt:102 | the `?:` fallback: the held value when there is one, the default otherwise |
| NavigationState.Flatten | core/navigation/src/main/java/android/template/core/navigation/Navigator.kt:59 | the flattened back stack contains every route of every registry stack |
| NavigationState.Init | core/navigation/src/main/java/android/template/core/navigation/Navigator.kt:121-124 | after construction the registry has the single key `startRoute`, mapped to `[startRoute]`, so the back stack is `[startRoute]`; start is active and no shared route has an owner |
| NavigationState.ClearAllExceptStart | core/navigation/src/main/java/android/template/core/navigation/Navigator.kt:114-119 | afterwards the start route is the only key; its stack is the old one when there was one, and `[startRoute]` otherwise |
| NavigationState.AddTopLevel | core/navigation/src/main/java/android/template/core/navigation/Navigator.kt:96-112 | the route becomes active, the ownership map is untouched, and the route's stack is its old stack (history kept) or a new `[route]` |
| NavigationState.RemoveFirst | core/navigation/src/main/java/android/template/core/navigation/Navigator.kt:137 | `MutableList.remove(x)` shortens the list by one exactly when `x` occurs in it; `RemoveFirstCount` and `RemoveFirstConcat` state which occurrence goes and that the order is kept |
| NavigationState.RemoveFirstCount | core/navigation/src/main/java/android/template/core/navigation/Navigator.kt:137 | `MutableList.remove(x)` takes exactly one occurrence of `x` out of the list when there is one, and changes nothing otherwise |
| NavigationProperties.RemoveFirstConcat | core/navigation/src/main/java/android/template/core/navigation/Navigator.kt:137 | `MutableList.remove(x)` takes the first occurrence: on `a + b` it removes `x` from `a` when `a` holds it and from `b` otherwise, keeping every other route in order |
| NavigationState.MoveToTop | core/navigation/src/main/java/android/template/core/navigation/Navigator.kt:137-143 | removing `x` and then appending it leaves `x` on top; the multiset of routes is the old one with one `x` taken out (if there was one) and one `x` added, so it is unchanged exactly when `x` was already present |
| NavigationState.DetachShared | core/navigation/src/main/java/android/template/core/navigation/Navigator.kt:134-138 | taking a shared route out of its recorded owner's stack keeps the registry keys and touches no stack other than that owner's |
| NavigationState.PushActive | core/navigation/src/main/java/android/template/core/navigation/Navigator.kt:143 | pushing onto the active stack keeps the registry keys, leaves every other stack alone, and appends the route to the active stack when it exists |
| NavigationState.AddShared | core/navigation/src/main/java/android/template/core/navigation/Navigator.kt:132-143 | a shared push keeps the registry keys and the active route, records the active route as the route's owner, and keeps every other ownership record |
| NavigationState.AddPlain | core/navigation/src/main/java/android/template/core/navigation/Navigator.kt:140-143 | a plain push keeps the registry keys, the ownership map and the active route |
| NavigationState.Navigate | core/navigation/src/main/java/android/template/core/navigation/Navigator.kt:126-146 | the active route becomes the route itself exactly for a top-level route; other routes keep the registry keys, and a plain route leaves the ownership map alone |
| NavigationState.PopActive | core/navigation/src/main/java/android/template/core/navigation/Navigator.kt:163 | `removeLastOrNull` on the active stack keeps the registry keys and every other stack, and pops a route exactly when the active stack exists and is not empty |
| NavigationState.GoBack | core/navigation/src/main/java/android/template/core/navigation/Navigator.kt:159-168 | `goBack` can only throw past the guard, never touches the ownership map, and past the guard makes the last remaining key active |
| NavigationProperties.InitState | core/navigation/src/main/java/android/template/core/navigation/Navigator.kt:121-124 | after `init` the registry is exactly `startRoute ↦ [startRoute]`, the back stack is `[startRoute]`, start is active, and the invariant holds |
| NavigationProperties.BackStackRootedAtStart | core/navigation/src/main/java/android/template/core/navigation/Navigator.kt:56-63 | under the invariant the flattened back stack is never empty and has the start route at its bottom |
| NavigationProperties.FlattenFront | core/navigation/src/main/java/android/template/core/navigation/Navigator.kt:59 | the flattened back stack begins with the first registry stack, followed by the flattening of the rest |
| NavigationProperties.SharedRouteLiveOnce | core/navigation/src/main/java/android/template/core/navigation/Navigator.kt:132-139 | under the invariant a shared route occurs at most once across the whole back stack |
| NavigationProperties.SharedCountInStacks | core/navigation/src/main/java/android/template/core/navigation/Navigator.kt:135-139 | across well-formed stacks a shared route is live at most once, and when it is live its recorded owner is a registry key |
| NavigationProperties.NavigateStartResets | core/navigation/src/main/java/android/template/core/navigation/Navigator.kt:97-119 | `navigate(startRoute)` leaves only the start stack, with its old contents or `[startRoute]` if it was missing; start becomes active and the ownership map is untouched |
| NavigationProperties.NavigateTopLevelMovesLast | core/navigation/src/main/java/android/template/core/navigation/Navigator.kt:100-111 | `navigate(x)` for another top-level route reuses `x`'s stack with its history (or creates `[x]`) and places it last. Without coexistence the registry becomes exactly start and `x`; with it, the other stacks keep their order. `x` becomes active and the invariant holds |
| NavigationProperties.AddTopLevelShape | core/navigation/src/main/java/android/template/core/navigation/Navigator.kt:102-108 | the registry a top-level navigation builds: the start stack stays first, `x` is no longer a key of the rest, and `x`'s entry is appended after what is kept |
| NavigationProperties.NavigatePlainPushes | core/navigation/src/main/java/android/template/core/navigation/Navigator.kt:140-143 | `navigate(p)` for a plain route appends `p` to the active stack only: the back stack gains `p` on top, keys and every other stack are unchanged, and so are the ownership map and the active key |
| NavigationProperties.NavigatePlainKeepsInv | core/navigation/src/main/java/android/template/core/navigation/Navigator.kt:140-143 | a plain push keeps the invariant |
| NavigationProperties.NavigateSharedMovesToTop | core/navigation/src/main/java/android/template/core/navigation/Navigator.kt:132-143 | `navigate(s)` for a shared route removes `s` from where it was and puts it on top of the back stack, live exactly once. Registry keys are unchanged, `s` is recorded as owned by the active key, and the invariant holds |
| NavigationProperties.NavigateSharedPerStack | core/navigation/src/main/java/android/template/core/navigation/Navigator.kt:135-143 | per stack: every non-active stack loses its first `s` if it has one, the active stack gets `s` moved to its top, and any stack that held `s` was its recorded owner |
| NavigationProperties.NavigateKeepsInv | core/navigation/src/main/java/android/template/core/navigation/Navigator.kt:151-154 | every kind of `navigate` preserves the invariant |
| NavigationProperties.GoBackAtRoot | core/navigation/src/main/java/android/template/core/navigation/Navigator.kt:160-162 | `goBack` with at most one back-stack entry changes nothing |
| NavigationProperties.GoBackPopsTop | core/navigation/src/main/java/android/template/core/navigation/Navigator.kt:163-167 | under the invariant `goBack` never throws, drops exactly the top of the back stack, removes the active stack's entry only when its root was popped, keeps the ownership map, and keeps the invariant |
| NavigationProperties.GoBackKeepsStack | core/navigation/src/main/java/android/template/core/navigation/Navigator.kt:163-165 | popping a route above a stack's root removes no registry entry, because a non-top-level route is never a key |
| NavigationProperties.GoBackDropsStack | core/navigation/src/main/java/android/template/core/navigation/Navigator.kt:163-166 | popping the active stack's root removes that stack's entry, and the previous key becomes active |
| NavigationProperties.GoBackRulesCoincide | core/navigation/src/main/java/android/template/core/navigation/Navigator.kt:163-165 | under the invariant, removing the entry keyed by the popped route gives the same result as removing the active stack only when the pop empties it |
| NavigationProperties.GoBackKeepsInv | core/navigation/src/main/java/android/template/core/navigation/Navigator.kt:159-168 | `goBack` on a state satisfying the invariant never throws and preserves the invariant |
| NavigationProperties.RunKeepsInv | core/navigation/src/main/java/android/template/core/navigation/Navigator.kt:151-168 | any sequence of `navigate`/`goBack` calls from a state satisfying the invariant runs without an exception and ends in a state satisfying it |
| NavigationProperties.ReachableInv | core/navigation/src/main/java/android/template/core/navigation/Navigator.kt:52-54 | every state reachable from construction with a top-level start route satisfies the invariant: start stack first, distinct keys, each stack rooted at its own key with unique shared routes, active key last |
| NavigationProperties.TabDetailBackScenario | core/navigation/src/main/java/android/template/core/navigation/Navigator.kt:96-168 | from the home stack, opening a second tab and then a shared detail screen gives the back stacks `[home, tab]` and `[home, tab, detail]`; going back returns to the tab's registry and keeps the detail screen's ownership record |
| Navigator.Navigator.constructor | core/navigation/src/main/java/android/template/core/navigation/Navigator.kt:40-54 | the fields start as `Init`: registry `startRoute ↦ [startRoute]`, `backStack == [startRoute]`, start active, no ownership records |
| Navigator.Navigator.UpdateBackStack | core/navigation/src/main/java/android/template/core/navigation/Navigator.kt:56-63 | the loop rebuilds `backStack` as the concatenation of all stacks in registry order, changing nothing else |
| Navigator.Navigator.ClearAllExceptStartStack | core/navigation/src/main/java/android/template/core/navigation/Navigator.kt:114-119 | only the start stack is left, keeping its contents or re-created as `[startRoute]` |
| Navigator.Navigator.AddTopLevel | core/navigation/src/main/java/android/template/core/navigation/Navigator.kt:96-112 | the fields take the step `NavigationState.AddTopLevel` |
| Navigator.Navigator.Add | core/navigation/src/main/java/android/template/core/navigation/Navigator.kt:126-146 | the fields take the step `NavigationState.Navigate`, dispatching on the route's kind |
| Navigator.Navigator.Navigate | core/navigation/src/main/java/android/template/core/navigation/Navigator.kt:151-154 | the fields take the step `NavigationState.Navigate`, `backStack` is the flattened registry afterwards, and the invariant is preserved |
| Navigator.Navigator.RemoveLastOfActive | core/navigation/src/main/java/android/template/core/navigation/Navigator.kt:163 | `removeLastOrNull` on the active stack, if there is one, as `PopActive` |
| Navigator.Navigator.PopActiveStack | core/navigation/src/main/java/android/template/core/navigation/Navigator.kt:163-167 | the pop and the removal by popped key; then either the registry is empty (the exception) or the last key becomes active and `backStack` is rebuilt |
| Navigator.Navigator.GoBack | core/navigation/src/main/java/android/template/core/navigation/Navigator.kt:159-168 | the fields take the step `NavigationState.GoBack`, `thrown` exactly when it fails, and under the invariant it never fails and the invariant is preserved |
| PhoneNumber.KeepDigits | app/src/main/java/android/template/MainActivity.kt:232 | the filter keeps only digits, never lengthens its input, and keeps an all-digit input as it is |
| PhoneNumber.IsDigit | app/src/main/java/android/template/MainActivity.kt:232 | `Char.isDigit` on the ASCII digits: a character is a digit exactly when its value lies 0 to 9 above `0` |
| PhoneNumber.StartsWith | app/src/main/java/android/template/MainActivity.kt:234-238 | `startsWith(prefix)` holds exactly when the string is at least as long as the prefix and agrees with it character by character |
| PhoneNumber.KeepDigitsAppend | app/src/main/java/android/template/MainActivity.kt:232 | filtering a concatenation filters each part |
| PhoneNumber.KeepDigitsCounts | app/src/main/java/android/template/ui/MainActivity.kt:197 | every digit of the input survives the filter as often as it occurs, and every non-digit is removed |
| PhoneNumber.NormalizeNumber | app/src/main/java/android/template/MainActivity.kt:231-243 | the normalised number consists of digits only |
| PhoneNumber.NormalizeAddsCountryCode | app/src/main/java/android/template/MainActivity.kt:234-236 | a 10-digit number with a leading `0` becomes `38` followed by it: 12 digits starting with `380` |
| PhoneNumber.NormalizeTruncates | app/src/main/java/android/template/MainActivity.kt:238-240 | a `380…` number longer than 12 digits is cut to its first 12 |
| PhoneNumber.NormalizeKeepsOthers | app/src/main/java/android/template/MainActivity.kt:232-242 | in every other case the filtered digits are returned unchanged |
| PhoneNumber.NormalizeBoundsInternational | app/src/main/java/android/template/ui/MainActivity.kt:198-199 | a normalised number that starts with `380` has at most 12 digits |
| PhoneNumber.NormalizeIdempotent | app/src/main/java/android/template/ui/MainActivity.kt:196-201 | normalising a normalised number changes nothing |
| ContactActions.IsWhitespace | app/src/main/java/android/template/MainActivity.kt:203 | `Char.isWhitespace` on the JVM: no digit is whitespace |
| ContactActions.IsBlank | app/src/main/java/android/template/MainActivity.kt:203 | `isBlank`: the empty string is blank, and a blank string holds no digit |
| ContactActions.DigitsBlankIffEmpty | app/src/main/java/android/template/MainActivity.kt:203 | a string of digits is blank exactly when it is empty |
| ContactActions.DialPrefix | app/src/main/java/android/template/ui/MainActivity.kt:171 | both dial schemes start with `tel:`; only the `tel:+` of the other activity is five characters long |
| ContactActions.OpenGsm | app/src/main/java/android/template/MainActivity.kt:202-205 | a blank number dials nothing; any other number is dialled with the URI `DialPrefix(style)` followed by the number |
| ContactActions.OpenGsmCarriesNumber | app/src/main/java/android/template/MainActivity.kt:202-205 | the dial URI reads back as exactly the number dialled |
| ContactActions.DialStylesDiffer | app/src/main/java/android/template/ui/MainActivity.kt:169-172 | this activity dials `tel:` + number, while the other dials `tel:+` + number; the two intents differ |
| ContactActions.LinkPrefix | app/src/main/java/android/template/MainActivity.kt:207-217 | the `https://wa.me/`, `tg://resolve?phone=` and `viber://chat?number=` prefixes differ in their first character |
| ContactActions.Package | app/src/main/java/android/template/MainActivity.kt:207-217 | the packages `com.whatsapp`, `org.telegram.messenger` and `com.viber.voip` differ in their fifth character, so each names one messenger |
| ContactActions.MessengerUri | app/src/main/java/android/template/MainActivity.kt:207-217 | the deep link is the messenger's prefix followed by the number, and reading past the prefix gives back exactly the number |
| ContactActions.OpenMessenger | app/src/main/java/android/template/MainActivity.kt:207-228 | when starting the app succeeds, the intent views messenger `m`'s own deep link (its prefix followed by the number) in `m`'s own package; otherwise the call is exactly `openGsm`, which does nothing only for a blank number |
| ContactActions.OpenMessengerCarriesNumber | app/src/main/java/android/template/MainActivity.kt:207-228 | whether the messenger opens (`https://wa.me/`, `tg://resolve?phone=`, `viber://chat?number=`) or the call falls back to dialling, the intent reads back as exactly the number |
| ContactActions.MessengerUriInjective | app/src/main/java/android/template/ui/MainActivity.kt:174-184 | two deep links are equal only for the same messenger and the same number |
| ContactActions.DialNormalized | app/src/main/java/android/template/MainActivity.kt:149 | the GSM button, which passes the normalised number, dials nothing exactly when the number has no digits |
| ContactActions.Utf16Length | app/src/main/java/android/template/MainActivity.kt:82 | `String.length` counts UTF-16 units: between one and two per character |
| ContactActions.OnQueryChange | app/src/main/java/android/template/MainActivity.kt:78-88 | typing stores the text and its normalised number, then launches a search exactly when the text has at least 2 UTF-16 units, and clears the results otherwise |
| ContactActions.SearchThreshold | app/src/main/java/android/template/ui/MainActivity.kt:84-89 | two or more characters always launch a search; a single character does so only when it lies outside the Basic Multilingual Plane; clearing the text empties the results at once |
| TrialTexts.NatToString | app/src/main/java/android/template/TrialStrings.kt:47 | the decimal text of a count is non-empty, all digits, and has no leading zero |
| TrialTexts.NatToStringRoundTrip | app/src/main/java/android/template/TrialStrings.kt:47 | the decimal text of a natural number reads back as that number |
| TrialTexts.IntToString | app/src/main/java/android/template/TrialStrings.kt:47 | the text of a count is non-empty; a count of zero or more is all digits, a negative one is `-` followed by digits |
| TrialTexts.IntToStringRoundTrip | app/src/main/java/android/template/TrialStrings.kt:48 | the text `"$days"` of any integer, negative ones included, reads back as that integer |
| TrialTexts.DaysLeftUK | app/src/main/java/android/template/TrialStrings.kt:44-50 | every Ukrainian day-count message starts with the warning sign and `Залиш`, and ends with ` trial` |
| TrialTexts.DaysLeftUKShape | app/src/main/java/android/template/TrialStrings.kt:44-50 | every Ukrainian message is its head, the text of the count, and its tail; the hard-coded `1` of the singular is the text of 1 |
| TrialTexts.UkPluralChoice | app/src/main/java/android/template/TrialStrings.kt:45-49 | the Ukrainian message ends in `день` exactly for 1, in `дні` exactly for 2 to 4, and in `днів` for every other count, including 0, negative counts and 22 to 24 |
| TrialTexts.DaysLeftEN | app/src/main/java/android/template/TrialStrings.kt:90-95 | every English day-count message starts with the warning sign and ends with ` left` |
| TrialTexts.DaysLeftENShape | app/src/main/java/android/template/TrialStrings.kt:90-95 | every English message is `⚠️ `, the text of the count, and its tail; the hard-coded `1` of the singular is the text of 1 |
| TrialTexts.EnPluralChoice | app/src/main/java/android/template/TrialStrings.kt:91-94 | the English message says `day` exactly for 1 and `days` for every other count |
| TrialTexts.Feature | app/src/main/java/android/template/TrialStrings.kt:55-60 | a feature line is a check mark and a space followed by the feature's text |
| TrialTexts.TrialStringsUK | app/src/main/java/android/template/TrialStrings.kt:41-82 | the Ukrainian table uses the Ukrainian day-count message and lists four features, each a check-marked line |
| TrialTexts.TrialStringsEN | app/src/main/java/android/template/TrialStrings.kt:87-127 | the English table uses the English day-count message and lists four features, each a check-marked line |
| TrialTexts.GetTrialStrings | app/src/main/java/android/template/TrialStrings.kt:132-137 | `getTrialStrings(UK)` hands out the Ukrainian day-count message and `getTrialStrings(EN)` the English one; each language's table has exactly four premium features, so `premiumFeatures[3]` in the premium dialog is in bounds and names the one-time payment |
| TrialTexts.EveryLanguageShowsDays | app/src/main/java/android/template/TrialStrings.kt:132-137 | in either language the day-count message contains the count as a separate word, which reads back as the count |

## Left out

- Debug output is not modelled: `navlog`, `printBackStack`, `printTopLevelStacks` and `getDebugString` only print.
- The navigator's unused `coroutineScope` and ignored `navOptions` parameter are not modelled, and neither are the Compose snapshot-state wrappers. `backStack` is a plain sequence field.
- Navigator stacks are modelled as values. Every Kotlin stack list is created fresh and never shared between registry entries, so no aliasing is lost.
- A route is modelled with exactly one kind. A Kotlin class implementing both `Route.TopLevel` and `Route.Shared` takes the top-level branch; the model gives it kind `TopLevel`.
- The invariant and its lemmas assume a `Route.TopLevel` start route, as the app's navigation graph uses. The constructor accepts any start route. The default `startRoute = Unit` is not top-level, and the model does not prove the invariant for it.
- PhoneNumber.IsDigit: covers the ASCII digits only. Kotlin's `Char.isDigit` also accepts the other Unicode decimal digits; the model treats them as non-digits.
- Billing, premium state, permission requests and the contact search are not modelled. The search itself is a ContentResolver query on a background dispatcher. `OnQueryChange` returns the query it would search for and leaves the results as they were.
- Starting activities is not modelled: `startActivity`, `Intent` and `Uri.parse`. The URI strings and the intent kind are modelled, and whether starting a messenger throws is the parameter `opens`.
- The clear button and picking a search result are not modelled; they only assign UI state.
- Only two fields of the trial tables are modelled: `trialDaysLeft` and `premiumFeatures`. The other 18 `TrialStrings` fields are fixed texts with no logic.
- TrialTexts.DaysLeftUK: takes an `Int32`, the range of Kotlin's `Int`, and writes it in decimal. Kotlin's own integer formatting is not modelled beyond that.
- ContactActions.OnQueryChange: a launched search is returned, not run, so searches that finish out of order are not modelled. A search still running when the text is cleared or changed again can later overwrite `results` with matches for an older query; the model states only the handler's immediate step.
- ContactActions.SearchThreshold: "clearing the text empties the results" holds for the handler's immediate step only; a search launched earlier and finishing afterwards can refill them, which the model does not capture.
