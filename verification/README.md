# Chameleon theming core in Dafny

A model of the theme-propagation core of Chameleon, an Android library that
switches view styles and typefaces at run time. Three pieces are modelled as
pure transition functions over explicit state:

- **The theme registry** (`ThemeManager`, `ListenerList`). It holds the
  current theme index, the identity-keyed listener list and the lazily
  filled style cache. The cache maps a style-group id to its per-theme list
  of style resources.
- **The per-view style delegate** (`ViewStyleDelegate`). On attach it
  registers and styles its view. On a theme change it re-resolves the style
  and applies it only when it changed. On detach it unregisters.
  `ThemingWorld` composes delegates with the registry. A theme change fans
  out to the delegates in reverse registration order and records every
  `applyStyle(view, style)` call in a trace.
- **The typeface span** (`TypefaceSpan`). The fake-style mask
  `oldStyle & ~newStyle` decides whether fake bold and the italic skew are
  switched on. The paint's typeface is always replaced.

Modelling choices:

- The main-thread test is a boolean parameter of `SetCurrentTheme`.
- A view's weak reference is `Option<View>`; `None` means the view was
  collected.
- The host resource system is a `Context` value: a map from array resource
  id to its entries. An entry is a resource reference or not; a non-reference
  reads as 0. A null context is `None`.
- Theme indices and resource ids are Java `int`s. The code only compares
  and indexes them, so they are unbounded `int`s here.
- Style masks are `bv32`. The skew is a `real` that is only assigned.

In these places the model follows the code as written:

- `getStyle` indexes the cached list without a bounds check
  (ThemeManager.java:145). An out-of-range theme therefore throws; it does
  not fall back to the 0 sentinel. The model returns
  `Fault.ArrayIndexOutOfBounds`, and the list stays cached because the load
  already happened.
- `obtainTypedArray` on an id that names no array resource throws. The
  model returns `Fault.ResourceNotFound` and caches nothing.
- A fault propagates like the exception it stands for. It ends the
  delegate's callback and the fan-out at that listener. The new theme index
  and the effects on earlier listeners remain.
- A null list is stored in the cache, but a later read cannot tell it from
  a missing entry. So a lookup without a context is retried on the next
  call.

## Model

| member | source | states |
|---|---|---|
| ListenerList.Register | chameleon/src/main/java/com/rey/chameleon/theme/ThemeManager.java:152-160 | registration is idempotent by identity; afterwards the listener is present, nothing else is added, the old list is a prefix, and a listener seen at most once is now there exactly once |
| ListenerList.RegisterScan | chameleon/src/main/java/com/rey/chameleon/theme/ThemeManager.java:152-160 | the reverse identity scan followed by a conditional append computes exactly `Register` |
| ListenerList.RegisterKeepsUnique | chameleon/src/main/java/com/rey/chameleon/theme/ThemeManager.java:152-160 | registering never creates a duplicate, and the registered listener occurs exactly once |
| ListenerList.Unregister | chameleon/src/main/java/com/rey/chameleon/theme/ThemeManager.java:166-171 | every occurrence of the listener is removed, the other members stay, and unregistering an absent listener is a no-op |
| ListenerList.UnregisterScan | chameleon/src/main/java/com/rey/chameleon/theme/ThemeManager.java:166-171 | the in-place removal loop that walks from the end computes exactly `Unregister`, so no occurrence is skipped |
| ListenerList.UnregisterCounts | chameleon/src/main/java/com/rey/chameleon/theme/ThemeManager.java:166-171 | every other listener keeps its number of occurrences |
| ListenerList.UnregisterKeepsUnique | chameleon/src/main/java/com/rey/chameleon/theme/ThemeManager.java:166-171 | unregistering never creates a duplicate |
| ListenerList.UnregisterAppend | chameleon/src/main/java/com/rey/chameleon/theme/ThemeManager.java:166-171 | unregistering distributes over concatenation, so the others keep their relative order |
| ListenerList.RegisterThenUnregister | chameleon/src/main/java/com/rey/chameleon/theme/ThemeManager.java:152-171 | registering a new listener and then unregistering it gives back the original list |
| ThemeManager.Init | chameleon/src/main/java/com/rey/chameleon/theme/ThemeManager.java:26-28 | a new registry is on theme 0 with no listeners and an empty cache |
| ThemeManager.LoadStyleList | chameleon/src/main/java/com/rey/chameleon/theme/ThemeManager.java:68-79 | a null context gives null; an id with no array resource throws; otherwise the array's references, with 0 for a non-reference |
| ThemeManager.GetStyleList | chameleon/src/main/java/com/rey/chameleon/theme/ThemeManager.java:81-92 | a cached list is returned without calling `loadStyleList`; a miss calls it and stores the result, null included; a non-null result is cached afterwards; other groups and the theme and listeners are untouched |
| ThemeManager.GetStyle | chameleon/src/main/java/com/rey/chameleon/theme/ThemeManager.java:143-146 | a null list gives the 0 sentinel; otherwise the entry at `theme`; an out-of-range theme throws |
| ThemeManager.GetCurrentStyle | chameleon/src/main/java/com/rey/chameleon/theme/ThemeManager.java:132-134 | the current style is the style at the registry's current theme |
| ThemeManager.CachedLookupIsDirect | chameleon/src/main/java/com/rey/chameleon/theme/ThemeManager.java:143-146 | with a cache that agrees with the context, a lookup equals reading the resource table directly, and the cache keeps agreeing |
| ThemeManager.NoLoadOnceCached | chameleon/src/main/java/com/rey/chameleon/theme/ThemeManager.java:85-89 | once a non-null list is cached, any number of later lookups make no host query |
| ThemeManager.AtMostOneLoad | chameleon/src/main/java/com/rey/chameleon/theme/ThemeManager.java:81-92 | repeated lookups of one group, each with a context that declares it, call `loadStyleList` at most once |
| ThemeManager.NullListIsRetried | chameleon/src/main/java/com/rey/chameleon/theme/ThemeManager.java:68-92 | a lookup without a context calls `loadStyleList`, which returns null without touching resources; the result is the sentinel and the group stays uncached, so the next lookup calls `loadStyleList` again |
| ThemeManager.Dispatch | chameleon/src/main/java/com/rey/chameleon/theme/ThemeManager.java:94-98 | the k-th callback goes to the k-th listener from the end, and every callback carries the same theme |
| ThemeManager.DispatchThemeChanged | chameleon/src/main/java/com/rey/chameleon/theme/ThemeManager.java:94-98 | the index loop from the end produces exactly the `Dispatch` order |
| ThemeManager.DispatchCallsEachOnce | chameleon/src/main/java/com/rey/chameleon/theme/ThemeManager.java:94-98 | the callbacks are a permutation of the listener list, so on a duplicate-free list each listener is called exactly once |
| ThemeManager.DispatchReverseOrder | chameleon/src/main/java/com/rey/chameleon/theme/ThemeManager.java:94-98 | listeners registered as L1, L2, L3 are called as L3, L2, L1 |
| ThemeManager.SetCurrentTheme | chameleon/src/main/java/com/rey/chameleon/theme/ThemeManager.java:113-124 | returns true exactly on the main thread with a different theme; then the theme is updated and one reverse-order dispatch carries it; otherwise everything is unchanged and nothing is dispatched |
| ThemeManager.SetCurrentThemeTwice | chameleon/src/main/java/com/rey/chameleon/theme/ThemeManager.java:113-124 | setting the same theme again returns false and dispatches nothing |
| ViewStyleDelegate.NewDelegate | chameleon/src/main/java/com/rey/chameleon/ViewStyleDelegate.java:15-20 | a new delegate holds its view and group and remembers the undefined style 0 |
| ViewStyleDelegate.OnThemeChanged | chameleon/src/main/java/com/rey/chameleon/ViewStyleDelegate.java:23-32 | with the view gone nothing happens; otherwise it applies the resolved current style exactly when it differs from the remembered one and then remembers it; a lookup exception applies nothing |
| ViewStyleDelegate.NotifyTwiceAppliesOnce | chameleon/src/main/java/com/rey/chameleon/ViewStyleDelegate.java:27-31 | two callbacks in a row without a theme change apply at most once; the second changes nothing |
| ViewStyleDelegate.FreshDelegateSkipsUndefined | chameleon/src/main/java/com/rey/chameleon/ViewStyleDelegate.java:15-31 | a fresh delegate whose group resolves to 0 applies nothing |
| ViewStyleDelegate.OnViewAttached | chameleon/src/main/java/com/rey/chameleon/ViewStyleDelegate.java:35-40 | group 0 does nothing; otherwise the delegate is registered and reacts at once as to a theme change |
| ViewStyleDelegate.AttachRegistersOnce | chameleon/src/main/java/com/rey/chameleon/ViewStyleDelegate.java:35-40 | after attaching, the delegate is in a duplicate-free listener list exactly once |
| ViewStyleDelegate.OnViewDetached | chameleon/src/main/java/com/rey/chameleon/ViewStyleDelegate.java:43-46 | group 0 changes nothing; otherwise the delegate is no longer a listener |
| ViewStyleDelegate.DetachTwice | chameleon/src/main/java/com/rey/chameleon/ViewStyleDelegate.java:43-46 | a second detach is a no-op |
| ViewStyleDelegate.AttachThenDetach | chameleon/src/main/java/com/rey/chameleon/ViewStyleDelegate.java:35-46 | attach followed by detach restores the listener list of a delegate that was not registered |
| ThemingWorld.Deliver | chameleon/src/main/java/com/rey/chameleon/theme/ThemeManager.java:94-98 | callbacks leave the theme and listeners alone, change delegates only in their remembered style, make at most as many `applyStyle` calls as there are callbacks, style only views of called delegates, and leave uncalled delegates untouched |
| ThemingWorld.SetTheme | chameleon/src/main/java/com/rey/chameleon/theme/ThemeManager.java:113-124 | off the main thread or for the current theme nothing happens and false is returned; otherwise the theme is set and true is returned unless a lookup throws; only views of listening delegates are styled, with at most as many `applyStyle` calls as listeners |
| ThemingWorld.DeliverRestyles | chameleon/src/main/java/com/rey/chameleon/theme/ThemeManager.java:94-98 | delivering to distinct live delegates whose groups resolve through a cache that agrees with their context: nothing throws, each remembers the table's style, and its view gets that style exactly once if it changed and otherwise not at all |
| ThemingWorld.SetThemeRestyles | chameleon/src/main/java/com/rey/chameleon/ViewStyleDelegate.java:27-31 | when every listening live view resolves in one context that the cache agrees with, a main-thread switch to a new theme returns true and restyles every listening live delegate: it remembers the new theme's style, and its view gets that style once exactly when it differs from the last one applied |
| ThemingWorld.Attach | chameleon/src/main/java/com/rey/chameleon/ViewStyleDelegate.java:35-40 | attaching a view with group 0 changes nothing; otherwise its delegate is registered in the listener list, and the trace, fault and delegate update are those of the delegate's attach callback |
| ThemingWorld.Detach | chameleon/src/main/java/com/rey/chameleon/ViewStyleDelegate.java:43-46 | detaching a view with group 0 changes nothing; otherwise exactly that delegate is unregistered and the rest of the registry is unchanged |
| ThemingWorld.AttachKeepsValid | chameleon/src/main/java/com/rey/chameleon/ViewStyleDelegate.java:35-40 | attach keeps the listeners duplicate-free and all of them known delegates |
| ThemingWorld.DetachKeepsValid | chameleon/src/main/java/com/rey/chameleon/ViewStyleDelegate.java:43-46 | detach keeps the listeners duplicate-free and all of them known delegates |
| ThemingWorld.SetThemeKeepsValid | chameleon/src/main/java/com/rey/chameleon/theme/ThemeManager.java:113-124 | a theme change keeps the world valid, also when it ends in an exception |
| ThemingWorld.DetachedViewIsNotStyled | chameleon/src/main/java/com/rey/chameleon/ViewStyleDelegate.java:43-46 | after a styled view is detached, no later theme change applies a style to it |
| ThemingWorld.UnlistenedDelegateUntouched | chameleon/src/main/java/com/rey/chameleon/theme/ThemeManager.java:94-98 | a delegate that is not a listener is not changed by a theme change |
| ThemingWorld.LightDarkAttach | chameleon/src/main/java/com/rey/chameleon/ViewStyleDelegate.java:35-40 | attaching view 7 under theme 0 registers its delegate, caches the group's list and applies the light style once |
| ThemingWorld.LightDarkSwitch | chameleon/src/main/java/com/rey/chameleon/theme/ThemeManager.java:113-124 | switching the attached world to theme 1 returns true, calls the delegate once and applies the dark style once |
| ThemingWorld.LightDarkDetachedSwitch | chameleon/src/main/java/com/rey/chameleon/ViewStyleDelegate.java:43-46 | after the detach, switching back to theme 0 returns true and applies nothing |
| ThemingWorld.LightDarkScenario | chameleon/src/main/java/com/rey/chameleon/ViewStyleDelegate.java:23-46 | with group [light, dark]: attach applies light once, switching to theme 1 applies dark once, and after detach switching back applies nothing |
| TypefaceSpan.NewSpan | chameleon/src/main/java/com/rey/chameleon/ChameleonTypefaceSpan.java:15-21 | a null typeface is refused with an illegal-argument error; otherwise the span holds the typeface |
| TypefaceSpan.FakeStyle | chameleon/src/main/java/com/rey/chameleon/ChameleonTypefaceSpan.java:34-36 | the mask has BOLD (ITALIC) exactly when the old style has it and the new lacks it; it shares no bit with the new style and has no bit outside the old one |
| TypefaceSpan.Apply | chameleon/src/main/java/com/rey/chameleon/ChameleonTypefaceSpan.java:33-47 | the typeface becomes the span's; fake bold is set, never cleared, exactly when bold is lost; the skew becomes -0.25 exactly when italic is lost and is kept otherwise |
| TypefaceSpan.UpdateDrawState | chameleon/src/main/java/com/rey/chameleon/ChameleonTypefaceSpan.java:23-26 | drawing sets the span's typeface, sets fake bold exactly when bold is lost (never clearing it), and sets the -0.25 skew exactly when italic is lost |
| TypefaceSpan.UpdateMeasureState | chameleon/src/main/java/com/rey/chameleon/ChameleonTypefaceSpan.java:28-31 | measuring has the same effect as drawing |
| TypefaceSpan.ApplyIdempotent | chameleon/src/main/java/com/rey/chameleon/ChameleonTypefaceSpan.java:33-47 | applying the span twice equals applying it once |
| TypefaceSpan.ApplyToPlainPaint | chameleon/src/main/java/com/rey/chameleon/ChameleonTypefaceSpan.java:34-46 | on a paint without a typeface only the typeface changes |
| TypefaceSpan.BoldItalicToNormal | chameleon/src/main/java/com/rey/chameleon/ChameleonTypefaceSpan.java:36-44 | from a bold-italic to a normal typeface both fake bold and the skew are switched on |

## Left out

- Singleton creation with double-checked locking and the `volatile` field:
  this is concurrency. The registry is an explicit value.
- The `Looper`/`Thread` comparison is host state. It is the `onMainThread`
  parameter.
- `getStyleId` and the `TypedArray` plumbing are calls into the Android
  resource system. The context's resource table stands in for them.
- The `mStyles == null` test in `getStyleList` can never succeed. The field
  is private and initialised, so that branch is not modelled.
- `applyStyle` and the `ViewStyler`/`Styler` internals are host calls. Each
  call is recorded as an `Application` in the trace.
- Garbage collection of views is not modelled; any delegate may simply have
  no view.
- Listeners that add or remove listeners during a dispatch are not
  modelled. The only listeners here are delegates, and their callback does
  not touch the list. The fan-out runs over the list as it was when the
  dispatch began.
- A registered listener that is not a modelled delegate is skipped by the
  fan-out. Its behaviour is outside the model.
- The float value of the skew and the rest of the paint are not modelled.
- The context wrapper and inflater wiring, the demo activity and the
  `HasTypeface` interface have no theming logic.
