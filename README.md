# ImageViewer paging and image-loading model

A Dafny model of the state machine inside the `ImageViewer` component of
react-native-image-viewer: a full-screen gallery that shows one image at a
time on a horizontal strip of pages.

- **Paging.** The viewer keeps the shown index (`currentShowIndex`), the
  resting offset of the current page (`standardPositionX`) and the live offset
  of the strip (`positionXNumber`). Dragging past an image's edge moves the
  strip. Releasing turns the page when the fling velocity exceeds 0.7, or else
  when the drag exceeds `flipThreshold`; otherwise the strip goes back to rest.
  `goBack` and `goNext` only reset on the first and last page. Right-to-left
  layout mirrors every offset.
- **Image sizes.** `init` creates one `loading` size entry per image.
  `loadImage` requests each index once (the `loadedIndex` map) and settles its
  entry to `success` or `fail`. The outcome comes from dimensions already known,
  dimensions given with the image, `Image.getSize`, or `Image.resolveAssetSource`.
  `saveImageSize` only writes over an entry that is still `loading`.
- **Rendering window and fit.** Only the shown page and its two neighbours are
  rendered live. An image larger than the screen is scaled down, keeping its
  aspect ratio.

Files:
- `paging.dfy`: module `Paging`. The paging operations as functions on a
  `Pager` value, the release decision, and the neighbour loads the gesture
  handlers request. It also holds the lemmas: range, alignment, inverse, RTL
  mirror, and event sequences.
- `image_loading.dfy`: module `ImageLoading`. The size entries, the effect of
  one `loadImage` call (`Load`), the `init` loop, and the lemmas on loading.
- `content.dfy`: module `Content`. The ±1 render-window test of `getContent`
  and the fit-to-screen scaling, over `real`.
- `image_viewer.dfy`: module `Viewer`. The class `ImageViewer`, whose fields
  are the component's state and instance fields and whose methods are its
  handlers. The paging and loading methods are proved against the function
  in `Paging` or `ImageLoading` that gives the new state. The menu handlers,
  `SaveToLocal` and `ApplyDerivedState` state their new fields directly.
- `wrappers.dfy`: `Option`.

Modelling choices:
- Positions, width, velocity, threshold and image dimensions are `real`. This
  is an exact idealisation of JavaScript numbers. Indices are `int`.
- `setState` takes effect when the handler that called it returns. So
  `handleResponderRelease` reads the index from before `goBack`/`goNext`
  changed it. That is the image the comment at line 379 wants loaded.
- The guards `currentShowIndex || 0 < n - 1` (lines 353 and 387) and
  `currentShowIndex || 0 > 0` (lines 357 and 380) are modelled as JavaScript
  parses them: `idx != 0 || 0 < n - 1` and `idx != 0` (`Paging.NextGuard`,
  `Paging.PreviousGuard`). `Viewer.PrecedenceSlipIsHarmless` proves that they
  reach the same state as the evidently intended `idx < n - 1` and `idx > 0`.
  The reason is the range guard at line 249.
- An empty gallery is allowed. `goNext` then compares the index with -1 and
  advances (`Paging.EmptyGalleryGoNextAdvances`). Range invariants are stated
  for `n >= 1` only.
- `isRTL`, the container width, `flipThreshold`, `enablePreload`,
  `saveToLocalByLongPress` and `imageUrls` are constant fields. `indexProp`
  is the `index` prop at mount. A later `index` prop is the argument of
  `ApplyDerivedState`, which records it in `prevIndexProp`. The default threshold is 80 (built/image-viewer.type.js:19).
- The answers of `Image.getSize` and `Image.resolveAssetSource` are a `Probe`
  parameter. `Image.prefetch` calls are recorded, in order, in `prefetched`.
- The `loadedIndex` map only ever stores `true`, so it is a `set<int>`.
- The constructor is the initial state of lines 125-148 followed by
  `componentDidMount`, which runs `init`. There is one exception: the
  container width is the measured width, not the 0 of line 132.

## Model

| member | source | states |
|---|---|---|
| `ImageLoading.InitialSizes` | src/image-viewer.component.tsx:191-198 | exactly one entry per image, in order; each is `loading` with the given width and height, or 0 when absent |
| `ImageLoading.BuildImageSizes` | src/image-viewer.component.tsx:191-198 | the push loop of `init` builds exactly one `loading` entry per image, in order, with the given width/height or 0 |
| `ImageLoading.Resolve` | src/image-viewer.component.tsx:273-332 | loadImage stops early exactly when the entry is already a success; otherwise the entry it settles on is never `loading` |
| `ImageLoading.IsLocal` | src/image-viewer.component.tsx:290 | an image counts as already loaded exactly when its url is empty or starts with `file:` |
| `ImageLoading.PrefetchOf` | src/image-viewer.component.tsx:287-298 | at most one prefetch per load, only of the image's own url; it happens exactly on the given-size branch, with preloading enabled, for a url that is neither empty nor `file:` |
| `ImageLoading.Save` | src/image-viewer.component.tsx:262-271 | saveImageSize writes `st` at the index while the entry is `loading`, changes nothing once it has left `loading`, and never changes another entry |
| `ImageLoading.Load` | src/image-viewer.component.tsx:248-333 | loadImage keeps the number of entries; it records the index in `loadedIndex` exactly when the index has an entry; it changes no entry other than `imageSizes[index]`, and that one only while it is `loading` |
| `ImageLoading.LoadGuards` | src/image-viewer.component.tsx:249-255 | loadImage changes nothing for an index without an entry, or for an index already in `loadedIndex` |
| `ImageLoading.LoadTwiceIsOnce` | src/image-viewer.component.tsx:253-256 | calling loadImage twice on an index equals calling it once, whatever the platform answers the second time |
| `ImageLoading.LoadSettles` | src/image-viewer.component.tsx:262-332 | the first request of a `loading` entry leaves it `success` or `fail` |
| `ImageLoading.LoadKnownSize` | src/image-viewer.component.tsx:278-283 | an entry with positive width and height becomes `success` with the same dimensions |
| `ImageLoading.LoadGivenSize` | src/image-viewer.component.tsx:294-304 | otherwise, an image given a non-zero width and height becomes `success` with exactly those |
| `ImageLoading.LoadFetched` | src/image-viewer.component.tsx:306-320 | otherwise, an image with a url becomes `success` with the size `Image.getSize` reports, or `fail` keeping its dimensions when getSize fails |
| `ImageLoading.LoadFromAsset` | src/image-viewer.component.tsx:321-327 | otherwise, an image without a url but with a `props.source` becomes `success` with the resolved asset's width and height |
| `ImageLoading.LoadWithoutSourceFails` | src/image-viewer.component.tsx:321-331 | otherwise, an image with neither a url nor a `props.source` becomes `fail` |
| `ImageLoading.LoadPrefetches` | src/image-viewer.component.tsx:273-298 | for an entry as init built it, the first load prefetches the url exactly when preloading is on, the url is remote, and the given width and height are both non-zero but not both positive |
| `ImageLoading.PrefetchDeadForPositiveDims` | src/image-viewer.component.tsx:194-195 | an image given a positive width and height is never prefetched: init copies those sizes into the entry, and the known-size return at 279-283 comes first |
| `ImageLoading.LoadKeepsBookkeeping` | src/image-viewer.component.tsx:253-271 | every load keeps "an unrequested entry is still loading" and "a requested entry has left loading" |
| `ImageLoading.LoadAllKeepsSettled` | src/image-viewer.component.tsx:262-271 | over any sequence of loads a `success` or `fail` entry is never changed again, and `loadedIndex` grows by exactly the in-range indices requested |
| `Paging.PageOffset` | src/image-viewer.component.tsx:234 | the jump target of a page is width * index, negated in left-to-right layout |
| `Paging.Reset` | src/image-viewer.component.tsx:478-485 | resetPosition brings the live offset to the resting offset and changes neither the index nor the resting offset |
| `Paging.GoBack` | src/image-viewer.component.tsx:410-439 | at index 0 it only resets; otherwise the index drops by one and the resting offset moves back by one page offset (+width, or -width under RTL); afterwards the strip is at rest |
| `Paging.GoNext` | src/image-viewer.component.tsx:444-473 | at index n-1 it only resets; otherwise the index rises by one and the resting offset moves by one page offset (-width, or +width under RTL); afterwards the strip is at rest |
| `Paging.Drag` | src/image-viewer.component.tsx:346-348 | the live offset becomes resting offset + offsetX; the resting offset and the index do not change |
| `Paging.Jump` | src/image-viewer.component.tsx:231-243 | nothing changes when the live offset already equals width * index * (RTL ? 1 : -1); otherwise both offsets become that target |
| `Paging.ReleaseDecision` | src/image-viewer.component.tsx:366-404 | a directed velocity past +0.7 goes back and one past -0.7 goes forward, whatever the displacement; otherwise a displacement beyond the threshold decides; otherwise the page stays |
| `Paging.Release` | src/image-viewer.component.tsx:366-405 | after a release the strip is at rest and the index has moved by at most one; a decision for the previous page is `goBack`, one for the next page is `goNext`, and one to stay only resets |
| `Paging.NextGuard` | src/image-viewer.component.tsx:353 | the guard as parsed holds whenever the intended `idx < n - 1` does; where only the parsed one holds, idx + 1 is past the last image |
| `Paging.PreviousGuard` | src/image-viewer.component.tsx:357 | the guard as parsed holds whenever the intended `idx > 0` does; where only the parsed one holds, idx - 1 is negative |
| `Paging.DragLoad` | src/image-viewer.component.tsx:350-360 | a drag with no directed offset loads nothing; a directed offset below 0 asks only for idx + 1, and does ask for it on a page before the last; a directed offset above 0 asks only for idx - 1, and does ask for it after the first |
| `Paging.ReleaseLoad` | src/image-viewer.component.tsx:375-390 | a release that is not a fling loads nothing; a backward fling asks only for the old idx - 1, and does ask for it when idx > 0; a forward fling asks only for the old idx + 1, and does ask for it when idx < n - 1 |
| `Paging.FlingIgnoresDrag` | src/image-viewer.component.tsx:375-391 | two fling releases with the same velocity decide the same whatever their drag distances |
| `Paging.PageStep` | src/image-viewer.component.tsx:234 | neighbouring page offsets differ by one width, against the reading direction |
| `Paging.StepsKeepAligned` | src/image-viewer.component.tsx:417-420 | when the resting offset shows the current page, goBack and goNext keep it showing the new current page |
| `Paging.StepsKeepRange` | src/image-viewer.component.tsx:410-473 | for n >= 1, an index in [0, n-1] stays in [0, n-1] through goBack, goNext and release; reset, drag and jump keep the index |
| `Paging.EmptyGalleryGoNextAdvances` | src/image-viewer.component.tsx:445 | with no images, goNext at index 0 compares with -1 and advances to 1 |
| `Paging.BackAndNextAreInverse` | src/image-viewer.component.tsx:417-465 | on interior pages at rest, goNext undoes goBack and goBack undoes goNext |
| `Paging.RightToLeftGesturesMirror` | src/image-viewer.component.tsx:350-391 | under RTL a release, and the images a drag or a release requests, are the left-to-right ones with the pager mirrored and the velocity and drag negated |
| `Paging.MountWithZeroWidth` | src/image-viewer.component.tsx:231-238 | with width 0 the jump from the initial pager does nothing; for an index other than 0 that pager is not on the page for any other width |
| `Paging.MirrorSteps` | src/image-viewer.component.tsx:419-453 | under RTL goBack, goNext and the jump are the left-to-right ones on the pager with its offsets negated |
| `Paging.MirrorDecision` | src/image-viewer.component.tsx:367-373 | under RTL a release decides as the left-to-right one on the negated pager with the velocity negated |
| `Paging.RunKeepsPageInvariant` | src/image-viewer.component.tsx:346-485 | from an aligned pager on a valid page, any sequence of drags, releases, goBack/goNext, resets and jumps keeps the index in range and the resting offset on the shown page |
| `Content.IsLivePage` | src/image-viewer.component.tsx:555 | a page is rendered live exactly when its index is within one of the shown index |
| `Content.LiveCountIsWindow` | src/image-viewer.component.tsx:554-557 | the pages rendered live are exactly those of index-1 .. index+1 that exist |
| `Content.LiveWindowBounds` | src/image-viewer.component.tsx:555 | at most three pages are live; an existing current page is live; an interior one has both neighbours live |
| `Content.FitFacts` | src/image-viewer.component.tsx:573-585 | given the two shrink steps' factors and sizes, the result fits, keeps the ratio, is unchanged when it fits, never enlarges, and fills one side when it shrinks |
| `Content.FitToScreen` | src/image-viewer.component.tsx:573-585 | the result fits the screen, keeps the aspect ratio, leaves an image that already fits unchanged, never enlarges, and fills one screen side when it shrinks |
| `Viewer.ImageViewer.constructor` | src/image-viewer.component.tsx:125-156 | after mount the shown index is the `index` prop, the sizes are init's entries with the shown image loaded, and the strip has jumped to the shown page |
| `Viewer.ImageViewer.DerivedStateFromProps` | src/image-viewer.component.tsx:158-163 | an update is returned exactly when the `index` prop differs from the last one seen, and then it sets both the shown index and the remembered prop to it |
| `Viewer.ImageViewer.DerivedStateSettles` | src/image-viewer.component.tsx:158-163 | once the update is merged, the same prop asks for no further change |
| `Viewer.ImageViewer.ApplyDerivedState` | src/image-viewer.component.tsx:158-163 | a new `index` prop replaces the shown index; an unchanged prop keeps the page the user moved to |
| `Viewer.ImageViewer.Init` | src/image-viewer.component.tsx:184-220 | one loading entry per image, the shown index set from the prop, then the shown image loaded and the strip jumped to it |
| `Viewer.ImageViewer.JumpToCurrentImage` | src/image-viewer.component.tsx:231-243 | the pager becomes `Paging.Jump` of the old pager |
| `Viewer.ImageViewer.LoadImage` | src/image-viewer.component.tsx:248-333 | the image state becomes `ImageLoading.Load` of the old one, and "an unrequested entry is still loading" is kept |
| `Viewer.ImageViewer.SaveImageSize` | src/image-viewer.component.tsx:262-271 | the entry is overwritten only while it is still loading |
| `Viewer.ImageViewer.PreloadImage` | src/image-viewer.component.tsx:338-342 | for an index below the number of entries, the next image is loaded; nothing happens otherwise |
| `Viewer.ImageViewer.HandleHorizontalOuterRangeOffset` | src/image-viewer.component.tsx:346-361 | the strip follows the drag, and the neighbour in the drag's direction is requested, with the guards as written |
| `Viewer.ImageViewer.HandleResponderRelease` | src/image-viewer.component.tsx:366-405 | the pager becomes `Paging.Release` of the old one; only a fling loads, the image next to the index read before the page change |
| `Viewer.ImageViewer.GoBack` | src/image-viewer.component.tsx:410-439 | the pager becomes `Paging.GoBack` of the old one |
| `Viewer.ImageViewer.GoNext` | src/image-viewer.component.tsx:444-473 | the pager becomes `Paging.GoNext` of the old one |
| `Viewer.ImageViewer.ResetPosition` | src/image-viewer.component.tsx:478-485 | the live offset returns to the resting offset |
| `Viewer.ImageViewer.HandleLongPress` | src/image-viewer.component.tsx:490-499 | the menu opens exactly when saving by long press is enabled, and otherwise keeps its state |
| `Viewer.ImageViewer.HandleLeaveMenu` | src/image-viewer.component.tsx:790-792 | the menu is closed |
| `Viewer.ImageViewer.SaveToLocal` | src/image-viewer.component.tsx:747-756 | the shown image's url is handed to the save routine and the menu closes; with no image at the shown index the source fails before closing the menu |
| `Viewer.PrecedenceSlipIsHarmless` | src/image-viewer.component.tsx:350-360 | the neighbour-load guards as parsed reach the same state as the intended `idx < n - 1` and `idx > 0` |
| `Viewer.MountedViewerStaysOnPage` | src/image-viewer.component.tsx:206-243 | after mount, with n >= 1 and a valid index, any gestures keep the index in range and the resting offset on the shown page |

## Left out

- Rendering: `render`, and the element trees of `getContent` and `getMenu`. Styles and the header, footer, indicator and arrow renderers are UI output. Of `getContent`, only the window test and the fit-to-screen scaling are modelled.
- `Animated` values, animation durations, `fadeAnim`, `forceUpdate` and the native driver flag. Each `Animated.timing` is reduced to the value it animates to.
- `handleLayout`. The container width is a fixed, already measured constant, and the container height is not modelled.
- `componentDidUpdate`. It reloads and jumps when the `index` prop changes. The model only merges the new index (`ApplyDerivedState`).
- Prop callbacks are not recorded: `onChange`, called with the new index after goBack/goNext, and `onLongPress`, `onClick`, `onDoubleClick`, `onCancel`, `onSwipeDown`, `onSave`, `onSaveToCamera`. Likewise `handleClick`, `handleDoubleClick`, `handleCancel` and `handleSwipeDown`, which only call them. `CameraRoll.saveToCameraRoll` is a native call.
- The `ImageZoom` component, `imageRefs` and `resetImageByIndex`. Their behaviour is in a third-party library.
- Asynchrony of `Image.getSize`: each load applies its callback at once, so the model does not interleave other events between the request and the answer. A request that never answers is not modelled either.
- `Image.resolveAssetSource` returning nothing for an invalid source. The source would then throw while reading `data.width`.
- JavaScript number corner cases: NaN, infinities, `-0`, floating-point rounding in the offsets and the fit scaling, and an `undefined` index prop (`|| 0`). All are reals or integers here.
- The placeholder `getContent` renders for a missing or status-less size entry. The model assumes, as part of its class invariant `Valid`, that every image has exactly one entry (`|imageSizes| == |imageUrls|`). The source does not guarantee this; see the next line.
- A changing `imageUrls` prop. `init` runs only from `componentDidMount` (line 155), although its comment at line 182 says it runs when the props change. In the source, a new `imageUrls` prop therefore leaves `imageSizes` stale: the model's `Valid` would fail, and `loadImage` would ignore the new indices at line 249. The model keeps `imageUrls` constant.
- Viewer.ImageViewer.constructor: "the strip has jumped to the shown page" holds only because the model takes a container width measured before mount. In the source the width is 0 at mount (line 132), so the jump of lines 206-210 does nothing (`Paging.MountWithZeroWidth`). For an index other than 0, the strip then waits for the jump of `handleLayout`, which is not modelled.
- Viewer.MountedViewerStaysOnPage: "the resting offset stays on the shown page" holds for the same reason, a width measured before mount. For the source's zero width at mount, alignment depends on the unmodelled `handleLayout` jump.
- The `preloadImage` call made while rendering a successful page. `PreloadImage` models the method itself.
- The class invariant `Valid` does not include "a requested entry has left loading". `init` does not clear `loadedIndex`, so that half holds only when `init` runs once at mount, as the source does. It is proved for loads alone in `ImageLoading.LoadKeepsBookkeeping`.

## Observations

Read from the source and the lemmas above; not executed.

- `Image.prefetch` (line 297) never runs for an image given a positive width and height. `init` copies those sizes into its entry (lines 194-195), so the known-size return at lines 279-283 is taken first (`ImageLoading.PrefetchDeadForPositiveDims`). The branch at lines 294-298 is reached only when a given width or height is non-zero but not both are positive (`ImageLoading.LoadPrefetches`).
- `handleLayout` calls `setState` with the new container size (line 539) and then `jumpToCurrentImage` (line 543). If `setState` takes effect only after the handler returns, that jump reads the old width from `this.state.containerDimensions`. With the width 0 of mount, it then does nothing.
