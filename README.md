# Immersive portfolio camera and project-documentation renderer — a Dafny model

This project models the logic in the `dev-portfolio` web application, in two parts.

- **The scroll- and touch-driven camera of the 3D page.**
  - The refactored pipeline:
    - `useImmersiveState` turns window scroll and touch drags into a `progress` value in [0, 1]. It also derives `currentSection` and provides `goToSection`.
    - `CameraController` maps progress to the two waypoints of the `SECTIONS` catalog that bracket it. It eases with smoothstep and lerps between the two, then moves the camera 6 % of the way to the target each frame.
  - The older `CameraRig` of `ImmersiveScene.tsx`. It counts touch progress in waypoint units, lerps linearly along its own six-point path, follows with factor 0.1, and derives the highlighted label from its own scroll reading.
- **The project-documentation renderer.** This part covers:
  - the gallery's overlay state machine and its keyboard commands;
  - the single-open module accordion;
  - the table-of-contents filter, and how it lines up with the body's section guards;
  - the grouping of roadmap features under headings of the form "Phase N (…):";
  - the label parsers that split at the first colon, in the design, analytics, problem and overview sections;
  - the architecture and security panels, which filter a fixed layer list by the truthiness of data keys.

Modules follow the source files one to one. Helper modules supply the JavaScript pieces that the components rely on:

| module | what it provides |
|---|---|
| `Wrappers` | `Option` |
| `JsValue` | JavaScript values, truthiness and `?.length > 0` |
| `JsText` | `trim`, `indexOf`, `split` and `join`, and decimal rendering of numbers |
| `Seqs` | filter and subsequence |
| `Vec` | 3-vectors, lerp and exponential follow |
| `Viewport` | the 768 px breakpoint and the scroll metrics |

Where the source updates state step by step, the model is a class with `modifies` clauses:

| source state | class |
|---|---|
| the hook's state and its touch ref | `ImmersiveState.ProgressState` |
| the camera refs | `CameraController.Camera` |
| the rig refs | `ImmersiveScene.Scene` |
| `activeIndex` | `Gallery.Viewer` |
| `openIndex` | `ModuleAccordion.Accordion` |

The roadmap grouping is a loop: `PhaseGrouping.Collect` is proved against the specification functions `Buckets` and `General`.

Progress, pixel offsets and coordinates are exact `real`s, and `Math.floor` is `.Floor`. The browser supplies the window width, the scroll metrics (`scrollY`, `scrollHeight`, `innerHeight`) and touch coordinates. In the model these are parameters of the handlers.

Where the prose design and the code disagree, the model follows the code:
- `currentSection` is `min(floor(progress × N), N − 1)`. It is not computed over N − 1 intervals.
- `goToSection` does not clamp its index. An index outside the catalog drives progress outside [0, 1].
- A scroll range that is not positive leaves progress as it was. It does not pin progress to 0.
- A switch of device class does not always keep progress. Becoming mobile keeps it. Becoming desktop re-runs the scroll effect, and its immediate `handleScroll()` (`useImmersiveState.ts:43`) re-reads progress from the scroll position.

## Model

| member | source | states |
|---|---|---|
| Viewport.DeviceClassIsThreshold | src/components/immersive/useImmersiveState.ts:17 | the device class is a threshold at 768 px: a 767 px window is mobile and a 768 px one is not; when a window is mobile every narrower one is too, and when one is desktop every wider one is too |
| Sections.Count | src/components/immersive/types.ts:22-53 | the catalog size, at least 2, so a bracketing pair of waypoints exists |
| Sections.CatalogShape | src/components/immersive/types.ts:22-53 | exactly five sections, in the fixed order hero, about, skills, projects, contact |
| Sections.IdsDistinct | src/components/immersive/types.ts:24-51 | section ids are pairwise distinct |
| Vec.Clamp | src/components/immersive/useImmersiveState.ts:37 | the result lies in [lo, hi], is x inside the interval and the nearer bound outside it |
| Vec.Lerp | src/components/immersive/CameraController.tsx:33-37 | lerp gives a at 0 and b at 1, lies between a and b for t in [0, 1], and moves by t·(b − a) |
| Vec.LerpVec | src/components/immersive/CameraController.tsx:33-44 | the componentwise lerp has the same end points and stays componentwise between them |
| Vec.Approach | src/components/immersive/CameraController.tsx:47-48 | one smoothing step scales the remaining distance by 1 − f and does not overshoot |
| Vec.Follow | src/components/immersive/CameraController.tsx:47-48 | `Vector3.lerp` toward a target stays between the start and the target, fixes the target, and reaches it at f = 1 |
| Vec.FollowContracts | src/components/immersive/CameraController.tsx:47-48 | the gap to the target after a follow step is (1 − f) times the gap before it |
| Vec.FractionBetween | src/components/immersive/useImmersiveState.ts:88-89 | a fraction t in [0, 1] of a length d lies in [0, d] |
| ImmersiveState.ScrollProgress | src/components/immersive/useImmersiveState.ts:34-40 | no reading at all without a positive scroll range; otherwise the clamped fraction, in [0, 1], 1 at or past the end, 0 at or before the top, and exactly scrollY/range in between |
| ImmersiveState.TouchMoveProgress | src/components/immersive/useImmersiveState.ts:57-64 | a drag moves progress by 0.0015 per pixel, clamped into [0, 1]; a zero drag keeps it |
| ImmersiveState.DragThereAndBack | src/components/immersive/useImmersiveState.ts:58-66 | a drag of D px followed by one of −D px that hits no clamp returns progress exactly to its start |
| ImmersiveState.SectionOfInRange | src/components/immersive/useImmersiveState.ts:78-81 | for progress in [0, 1] and N ≥ 1, `min(floor(progress × N), N − 1)` is a valid index |
| ImmersiveState.SectionOfInRangeWhen | src/components/immersive/useImmersiveState.ts:78-81 | the same bound for the five-section catalog, stated for every progress value |
| ImmersiveState.SectionOf | src/components/immersive/useImmersiveState.ts:78-81 | the derived section never exceeds N − 1; with N ≥ 1 it is not negative for non-negative progress, and it is the last section at or past progress 1 |
| ImmersiveState.TargetProgress | src/components/immersive/useImmersiveState.ts:84 | `goToSection`'s target i/(N − 1) lies in [0, 1] exactly when i is a valid index; it is below 0 or above 1 otherwise |
| ImmersiveState.GoToSectionRoundTrip | src/components/immersive/useImmersiveState.ts:78-86 | jumping to section i and deriving the section from the new progress gives back i |
| ImmersiveState.ScrollTarget | src/components/immersive/useImmersiveState.ts:87-89 | the requested scroll offset for a valid index lies within the scroll range |
| ImmersiveState.DesktopGoToSectionRoundTrip | src/components/immersive/useImmersiveState.ts:34-40 | scrolling to the offset that desktop `goToSection` requests makes the scroll handler produce the target progress, and so section i |
| ImmersiveState.ProgressState.CurrentSection | src/components/immersive/useImmersiveState.ts:78-81 | the derived section is a valid index whenever progress is in range |
| ImmersiveState.ProgressState.constructor | src/components/immersive/useImmersiveState.ts:10-43 | mount: device class from the width, progress from the first scroll read (0 without a range), not loaded, touch ref zeroed |
| ImmersiveState.ProgressState.Resize | src/components/immersive/useImmersiveState.ts:17-43 | the device class is re-checked; becoming mobile keeps progress, becoming desktop re-reads it from the scroll position |
| ImmersiveState.ProgressState.Scroll | src/components/immersive/useImmersiveState.ts:34-40 | on desktop, progress becomes the scroll reading and is unchanged without a range; on mobile nothing changes |
| ImmersiveState.ProgressState.TouchStart | src/components/immersive/useImmersiveState.ts:52-55 | on mobile the touch ref takes the touch height and the current progress |
| ImmersiveState.ProgressState.TouchMove | src/components/immersive/useImmersiveState.ts:57-67 | on mobile progress becomes the clamped drag result and both halves of the touch ref are replaced |
| ImmersiveState.ProgressState.MarkLoaded | src/components/immersive/useImmersiveState.ts:22 | the one-shot timer sets the loaded flag |
| ImmersiveState.ProgressState.GoToSection | src/components/immersive/useImmersiveState.ts:83-91 | on mobile progress becomes the unclamped target and the current section is then the requested one; on desktop progress is kept and a scroll to `scrollHeight × target` is requested |
| CameraController.BracketIndex | src/components/immersive/CameraController.tsx:22-30 | for progress in [0, 1], the lower waypoint index lies in [0, N − 2]; it is pinned to N − 2 at progress 1 and is negative exactly for negative progress |
| CameraController.PathParameter | src/components/immersive/CameraController.tsx:22 | t = progress × (N − 1) lies in [0, N − 1] for progress in [0, 1] and reaches N − 1 at progress 1 |
| CameraController.LocalFraction | src/components/immersive/CameraController.tsx:24 | alpha = t − index lies in [0, 1] and is 1 at progress 1 |
| CameraController.Smoothstep | src/components/immersive/CameraController.tsx:27 | smoothstep maps [0, 1] into [0, 1], 0 to 0 and 1 to 1 |
| CameraController.SmoothstepBounds | src/components/immersive/CameraController.tsx:27 | the polynomial alpha²(3 − 2·alpha) stays in [0, 1] on [0, 1] |
| CameraController.SmoothstepMonotone | src/components/immersive/CameraController.tsx:27 | smoothstep does not decrease on [0, 1] |
| CameraController.SmoothstepLipschitz | src/components/immersive/CameraController.tsx:27 | on [0, 1], smoothstep rises by at least 0 and at most 1.5 times the step in alpha (its slope at 1/2) |
| CameraController.SmoothstepPolyLipschitz | src/components/immersive/CameraController.tsx:27 | the same upper bound for the polynomial alpha²(3 − 2·alpha) itself |
| CameraController.TargetPose | src/components/immersive/CameraController.tsx:22-44 | there is no target for negative progress (the source reads an undefined waypoint); for progress in [0, 1], position and look-at lie componentwise between the bracketing waypoints |
| CameraController.SegmentCovers | src/components/immersive/CameraController.tsx:22-37 | wherever 4·progress lies in [i, i + 1], each number of the target pose is the eased lerp between waypoints i and i + 1, including at the upper end, where the source has already moved on to the next pair |
| CameraController.SegmentsMeet | src/components/immersive/CameraController.tsx:22-37 | at an inner waypoint k the segment ending there and the one starting there both give waypoint k's pose: the target does not jump at a boundary |
| CameraController.SegmentLipschitz | src/components/immersive/CameraController.tsx:27-37 | within one segment, a number of the target pose moves by at most 6·g per unit of progress, for g a bound on neighbouring waypoints' distance on that axis |
| CameraController.ComponentLipschitz | src/components/immersive/CameraController.tsx:22-37 | the same bound between any p ≤ q in [0, 1], across any number of waypoint boundaries |
| CameraController.TargetPoseLipschitz | src/components/immersive/CameraController.tsx:22-44 | the target pose is Lipschitz in progress: on every axis, for p and q in [0, 1], it moves by at most 6·g·|q − p| |
| CameraController.CatalogGaps | src/components/immersive/types.ts:27-51 | neighbouring waypoints of the catalog are at most 16 apart on every axis, so the target moves by at most 96 per unit of progress |
| CameraController.TargetAtWaypoint | src/components/immersive/CameraController.tsx:22-44 | at progress k/(N − 1) the target is exactly waypoint k's camera, the last at progress 1 |
| CameraController.SixTenths | src/components/immersive/CameraController.tsx:22-37 | at progress 0.6: index 2, alpha 0.4, eased 0.352, and the resulting target pose |
| CameraController.FollowStep | src/components/immersive/CameraController.tsx:47-48 | each 0.06 step shrinks every component's gap to 0.94×, with no overshoot, and the target is a fixed point |
| CameraController.Camera.constructor | src/components/immersive/CameraController.tsx:14-18 | the refs start at the origin and the camera at its initial position |
| CameraController.Camera.Frame | src/components/immersive/CameraController.tsx:20-49 | a frame sets both targets from the eased lerp and moves position and look-at 6 % toward them; negative progress changes nothing (`ok` false) |
| ImmersiveScene.LastWaypoint | src/components/ImmersiveScene.tsx:87 | the upper touch clamp `cameraPath.length − 1` is 5: the sixth waypoint, the label-less outro of line 65, closes the path |
| ImmersiveScene.PathOutnumbersLabels | src/components/ImmersiveScene.tsx:58-68 | the path has six waypoints and the label list five (with line 293) |
| ImmersiveScene.ScrollFraction | src/components/ImmersiveScene.tsx:101-105 | the reading is 0 without a positive range and scrollY/range otherwise; it lies in [0, 1] within the page and above 1 past it (not clamped) (with lines 218-222) |
| ImmersiveScene.TouchStep | src/components/ImmersiveScene.tsx:82-88 | touch progress moves by 1/280 per pixel of drag, clamped into [0, len − 1] |
| ImmersiveScene.PathParameter | src/components/ImmersiveScene.tsx:118-120 | on mobile the path parameter is the touch progress; on desktop it is the scroll reading × 5, in [0, 5] for a reading in [0, 1] and 5 at 1 |
| ImmersiveScene.NextIndex | src/components/ImmersiveScene.tsx:123 | the following waypoint is index + 1 below the last one, the last one at or past the end, and a valid index for every non-negative index |
| ImmersiveScene.RigTarget | src/components/ImmersiveScene.tsx:117-136 | a target exists exactly when floor(t) indexes the path; for t in [0, len − 1] it is the linear lerp between waypoint floor(t) and the next, capped at the last |
| ImmersiveScene.RigIndices | src/components/ImmersiveScene.tsx:122-124 | for t in [0, len − 1] both indices are valid and alpha is in [0, 1); at t = len − 1 both are the last waypoint and alpha is 0 |
| ImmersiveScene.RigAtWaypoint | src/components/ImmersiveScene.tsx:117-136 | at t = k the target is waypoint k |
| ImmersiveScene.ScrollPastPathHasNoTarget | src/components/ImmersiveScene.tsx:101-127 | on desktop, a scroll reading of 1.2 or more, or below 0, indexes past the path |
| ImmersiveScene.Highlighted | src/components/ImmersiveScene.tsx:293-305 | exactly the label at the current section is highlighted, and none for an index outside the list |
| ImmersiveScene.HighlightedFrom | src/components/ImmersiveScene.tsx:293-305 | the same, over a suffix of the label list |
| ImmersiveScene.LabelIndexAsWritten | src/components/ImmersiveScene.tsx:230 | `floor(progress × 5)` is a valid label index for progress in [0, 1), equals the label count 5 at progress 1, and is at least 5 past it |
| ImmersiveScene.BottomHighlightsNoLabel | src/components/ImmersiveScene.tsx:230 | as written, progress 1 gives section 5 and highlights no label |
| ImmersiveScene.LabelIndex | src/components/ImmersiveScene.tsx:230 | the proposed fix `min(floor(progress × 5), 4)` agrees with the code below progress 1 and gives the last label at 1 |
| ImmersiveScene.OneLabelHighlighted | src/components/ImmersiveScene.tsx:230-305 | with the proposed fix, exactly one label is highlighted for every progress in [0, 1] |
| ImmersiveScene.Scene.FrameTarget | src/components/ImmersiveScene.tsx:117-127 | on mobile a frame target always exists |
| ImmersiveScene.Scene.CurrentSection | src/components/ImmersiveScene.tsx:230 | as the code computes it: below progress 1 the index is a valid label index and exactly one label is highlighted; at progress 1 it is 5 and no label is highlighted |
| ImmersiveScene.Scene.constructor | src/components/ImmersiveScene.tsx:28-33 | mount: the device class from the width, both scroll readings taken, touch progress 0, camera at its start (with lines 50-51, 101-108, 217-225) |
| ImmersiveScene.Scene.Resize | src/components/ImmersiveScene.tsx:31-111 | the device class is re-checked; a switch to mobile resets `startY`, and a switch to desktop re-reads the rig's scroll progress |
| ImmersiveScene.Scene.Scroll | src/components/ImmersiveScene.tsx:101-105 | the UI reading always updates; the rig's reading updates only on desktop (with lines 218-222) |
| ImmersiveScene.Scene.TouchStart | src/components/ImmersiveScene.tsx:78-80 | on mobile `startY` takes the touch height |
| ImmersiveScene.Scene.TouchMove | src/components/ImmersiveScene.tsx:82-90 | on mobile touch progress takes the clamped step and `startY` is replaced |
| ImmersiveScene.Scene.Frame | src/components/ImmersiveScene.tsx:117-138 | the camera moves 10 % toward the frame target, which always exists on mobile; the frame does nothing where the source would read past the path |
| Gallery.NextIndex | src/components/projects/documents/Gallery.tsx:509-512 | next stays in [0, len) and wraps from len − 1 to 0 |
| Gallery.PrevIndex | src/components/projects/documents/Gallery.tsx:514-519 | prev stays in [0, len) and wraps from 0 to len − 1 |
| Gallery.NextPrevInverse | src/components/projects/documents/Gallery.tsx:509-519 | next then prev, and prev then next, give back the index |
| Gallery.NextTimes | src/components/projects/documents/Gallery.tsx:511 | k presses of next keep the index in range |
| Gallery.NextTimesAdd | src/components/projects/documents/Gallery.tsx:511 | a + b presses of next are a presses followed by b |
| Gallery.NextTimesClimb | src/components/projects/documents/Gallery.tsx:511 | presses that do not reach the end add to the index |
| Gallery.NextFullCircle | src/components/projects/documents/Gallery.tsx:511 | len presses of next return to the start |
| Gallery.Counter | src/components/projects/documents/Gallery.tsx:309-311 | the counter shows a position in 1..len out of len (with lines 442-447) |
| Gallery.CaptionNoun | src/components/projects/documents/Gallery.tsx:543 | the caption says "image" exactly for one image and "images" otherwise |
| Gallery.Caption | src/components/projects/documents/Gallery.tsx:543 | the caption opens with the image count in decimal, a space and the noun, followed by a space and the rest of the text |
| Gallery.CaptionShowsCount | src/components/projects/documents/Gallery.tsx:543 | the caption's text before its first space reads back as the image count; "image" follows, with a space right after it exactly when there is one image |
| Gallery.KeyCommand | src/components/projects/documents/Gallery.tsx:355-361 | Escape closes, ArrowRight shows the next image, ArrowLeft the previous one, and every other key is ignored |
| Gallery.Viewer.constructor | src/components/projects/documents/Gallery.tsx:495-496 | the overlay starts closed |
| Gallery.Viewer.Select | src/components/projects/documents/Gallery.tsx:501-557 | selecting image i opens the overlay on i |
| Gallery.Viewer.Close | src/components/projects/documents/Gallery.tsx:505-507 | closing clears the active index |
| Gallery.Viewer.Next | src/components/projects/documents/Gallery.tsx:509-512 | next does nothing while closed and advances cyclically while open |
| Gallery.Viewer.Prev | src/components/projects/documents/Gallery.tsx:514-519 | prev does nothing while closed and steps back cyclically while open |
| Gallery.Viewer.Key | src/components/projects/documents/Gallery.tsx:355-361 | a key press while open applies its command; closed, or for an ignored key, nothing changes |
| Gallery.Viewer.ShownCounter | src/components/projects/documents/Gallery.tsx:442-447 | while open, the shown counter is a position in 1..count out of count |
| ModuleAccordion.Toggled | src/components/projects/documents/Moduleaccordion.tsx:19 | the toggle yields i exactly when i was not the open module, and nothing otherwise |
| ModuleAccordion.ToggleTwice | src/components/projects/documents/Moduleaccordion.tsx:19 | from a closed accordion, or from one with module i open, toggling module i twice restores the state (with another module open, the first toggle replaces it and the second closes all) |
| ModuleAccordion.Renders | src/components/projects/documents/Moduleaccordion.tsx:17 | missing data and an empty module list render nothing; rendering needs at least one module |
| ModuleAccordion.Accordion.constructor | src/components/projects/documents/Moduleaccordion.tsx:15 | every module starts closed |
| ModuleAccordion.Accordion.Toggle | src/components/projects/documents/Moduleaccordion.tsx:19-89 | after a header or chip click on i, module i is open exactly when it was closed, and every other module is closed |
| ModuleAccordion.Accordion.AtMostOneOpen | src/components/projects/documents/Moduleaccordion.tsx:15-62 | at most one module is open |
| DocumentationPage.ActiveToc | src/components/projects/documents/Documentationpage.tsx:49-97 | empty without data; an entry is kept exactly when its data key is truthy and, for an array, non-empty; order-preserving subsequence of at most 12 entries |
| DocumentationPage.BadgesConsecutive | src/components/projects/documents/Documentationpage.tsx:171 | badges run 1..|activeToc| |
| DocumentationPage.TocMatchesSections | src/components/projects/documents/Documentationpage.tsx:89-97 | for well-shaped data, the k-th TOC entry names the k-th body section and is listed exactly when that section renders (with lines 183-251) |
| DocumentationPage.TablesAligned | src/components/projects/documents/Documentationpage.tsx:49-62 | the TOC table and the body guards name the same ids and keys, in the same order (with lines 183-251) |
| DocumentationPage.LinksReachRenderedSections | src/components/projects/documents/Documentationpage.tsx:158-171 | for data of the declared shape, every TOC link points at the anchor "#" + id of a section the body renders (with lines 183-251) |
| DocumentationPage.RenderedSectionsHaveLinks | src/components/projects/documents/Documentationpage.tsx:183-251 | for data of the declared shape, every section the body renders has a TOC link to its anchor (with lines 158-171) |
| DocumentationPage.TocAndBodyDisagreeOnObjectGallery | src/components/projects/documents/Documentationpage.tsx:93-188 | outside the declared shape, a non-array object under `gallery` is listed in the TOC while the body's length guard hides it |
| DocumentationPage.JoinedStack | src/components/projects/documents/Documentationpage.tsx:257 | no tech stack, or an empty one, renders nothing; otherwise the first technology opens the line |
| DocumentationPage.StackSplitsBack | src/components/projects/documents/Documentationpage.tsx:257 | when no technology name holds a comma, splitting the joined stack at the commas gives the names back in order, each after the first behind the separator's space |
| DocumentationPage.FooterStatusRecovered | src/components/projects/documents/Documentationpage.tsx:257-258 | when no technology name holds a bullet, a set status is the footer text after its first bullet and space, behind the joined stack and a space; without a status the footer holds no bullet |
| FutureScope.DigitRun | src/components/projects/documents/Futurescopesection.tsx:22 | the run of leading digits is maximal |
| FutureScope.HeadingAtIsPrefix | src/components/projects/documents/Futurescopesection.tsx:22-24 | the character-level heading shape matches exactly when "Phase d (detail):" is a prefix |
| FutureScope.MatchPhase | src/components/projects/documents/Futurescopesection.tsx:22 | a match has at least one digit and a non-empty detail free of ')', and the feature starts with that heading |
| FutureScope.MatchPhaseFinds | src/components/projects/documents/Futurescopesection.tsx:22 | every well-formed heading at the start of a feature is found |
| FutureScope.MatchPhaseIff | src/components/projects/documents/Futurescopesection.tsx:22-23 | a feature matches with given parts exactly when it begins with "Phase d (detail):" |
| FutureScope.Classify | src/components/projects/documents/Futurescopesection.tsx:22-28 | a feature is filed under a phase exactly when it matches; the key is the heading, and the item is the rest after the colon, trimmed |
| FutureScope.Filings | src/components/projects/documents/Futurescopesection.tsx:21 | every feature is classified, in order |
| FutureScope.FeatureList | src/components/projects/documents/Futurescopesection.tsx:21 | absent features are the empty list |
| FutureScope.Render | src/components/projects/documents/Futurescopesection.tsx:16-62 | null data renders nothing; the roadmap shows exactly when non-empty; the phase groups and the general list are those of the grouping specification |
| FutureScope.Group | src/components/projects/documents/Futurescopesection.tsx:18-32 | the loop's buckets and general list are the specification's, and together they hold every feature once |
| PhaseGrouping.General | src/components/projects/documents/Futurescopesection.tsx:28 | the general list is no longer than the input |
| PhaseGrouping.GeneralIsPlain | src/components/projects/documents/Futurescopesection.tsx:27-28 | a feature is in `general` exactly when it was not filed under a phase |
| PhaseGrouping.ItemsFor | src/components/projects/documents/Futurescopesection.tsx:24-26 | no bucket is longer than the input |
| PhaseGrouping.Buckets | src/components/projects/documents/Futurescopesection.tsx:32 | one bucket per distinct key |
| PhaseGrouping.BucketsAt | src/components/projects/documents/Futurescopesection.tsx:24-32 | bucket j holds key j's items, in input order |
| PhaseGrouping.KeysDistinct | src/components/projects/documents/Futurescopesection.tsx:25 | features with the same key merge into one bucket, so keys are distinct |
| PhaseGrouping.KeyListedIffItems | src/components/projects/documents/Futurescopesection.tsx:25-26 | a key has a bucket exactly when some feature was filed under it |
| PhaseGrouping.TotalItemsUpdate | src/components/projects/documents/Futurescopesection.tsx:26 | replacing a bucket changes the item total by the difference in size |
| PhaseGrouping.TotalItemsAppend | src/components/projects/documents/Futurescopesection.tsx:25 | a new bucket adds its size to the total |
| PhaseGrouping.BucketIndex | src/components/projects/documents/Futurescopesection.tsx:25 | the lookup of `phaseMap[phaseKey]` finds the bucket with that key, or reports that none exists |
| PhaseGrouping.Snoc | src/components/projects/documents/Futurescopesection.tsx:21-30 | one more feature extends `general` or its bucket, and adds a key only on its first occurrence |
| PhaseGrouping.PlainStep | src/components/projects/documents/Futurescopesection.tsx:28 | a plain feature leaves the buckets alone |
| PhaseGrouping.NewPhaseStep | src/components/projects/documents/Futurescopesection.tsx:25-26 | a new key appends a bucket holding the one item |
| PhaseGrouping.KnownPhaseStep | src/components/projects/documents/Futurescopesection.tsx:26 | a known key appends the item to its bucket |
| PhaseGrouping.Collect | src/components/projects/documents/Futurescopesection.tsx:18-32 | the `forEach` loop builds exactly the specified buckets, in first-occurrence order, and the specified general list; every feature lands in exactly one place |
| PhaseGrouping.FileOne | src/components/projects/documents/Futurescopesection.tsx:22-29 | one loop step keeps the loop invariant |
| DesignSection.Pattern | src/components/projects/documents/Designsection.tsx:61-64 | the name has no colon; without a colon the name is the whole pattern and there is no description; otherwise the name is the text before the first colon and the description is the rest, trimmed |
| DesignSection.PatternRoundTrip | src/components/projects/documents/Designsection.tsx:63-64 | the name, a colon and the untrimmed rest rejoin to the pattern, and parsing a joined pattern gives its parts back |
| DesignSection.EmptyDescriptionHidden | src/components/projects/documents/Designsection.tsx:64-68 | a description of only spaces becomes "" and is not rendered |
| DesignSection.Render | src/components/projects/documents/Designsection.tsx:15-64 | null data renders nothing; each list block shows exactly when its array is non-empty; themes and principles show the data's lists, and patterns are parsed one by one |
| AnalyticsSection.Metric | src/components/projects/documents/Analyticssection.tsx:34-37 | without a colon the label is "Metric i+1" and the value the whole metric; otherwise the label is the colon-free text before the first colon and the value the rest, trimmed |
| AnalyticsSection.MetricOfJoined | src/components/projects/documents/Analyticssection.tsx:34-37 | parsing heading + ":" + rest gives back heading and rest trimmed |
| AnalyticsSection.FallbackLabelsDistinct | src/components/projects/documents/Analyticssection.tsx:36 | fallback labels of different positions differ |
| AnalyticsSection.FallbackLabelHasNoColon | src/components/projects/documents/Analyticssection.tsx:36 | a fallback label never contains a colon |
| AnalyticsSection.Render | src/components/projects/documents/Analyticssection.tsx:15-61 | null data renders nothing; metrics and visuals need non-empty arrays and logic a non-empty string; visuals and logic show the data's own, and metrics are parsed by position |
| ProblemSection.PainPoint | src/components/projects/documents/Problemsection.tsx:36-39 | without a colon there is no title and the body is the whole point; otherwise the title is the text before the first colon and the body the rest, trimmed |
| ProblemSection.PainPointOfJoined | src/components/projects/documents/Problemsection.tsx:36-39 | parsing title + ":" + rest gives back title and rest trimmed |
| ProblemSection.LeadingColonShowsNoTitle | src/components/projects/documents/Problemsection.tsx:38-44 | a leading colon gives an empty title, which is not rendered bold |
| ProblemSection.Render | src/components/projects/documents/Problemsection.tsx:15-39 | null data renders nothing; the summary needs a non-empty string and shows that string; the list needs a non-empty array and its points are parsed one by one |
| OverviewSection.Benefit | src/components/projects/documents/Overviewsection.tsx:49-59 | a benefit is shown whole exactly when it has no colon |
| OverviewSection.BenefitIsFirstColon | src/components/projects/documents/Overviewsection.tsx:49-56 | `split(':')` plus `rest.join(':')` agrees with a split at the first colon: the title is the text before it and the description the trimmed text after it |
| OverviewSection.BenefitOfJoined | src/components/projects/documents/Overviewsection.tsx:49-56 | parsing title + ":" + rest gives back title and rest trimmed, whatever colons the rest holds |
| OverviewSection.Render | src/components/projects/documents/Overviewsection.tsx:15-44 | null data renders nothing; purpose, target users and benefits each show exactly when present; purpose and target users show the data's own, and benefits are parsed one by one |
| LayerPanels.Shown | src/components/projects/documents/Architecturepanel.tsx:15-23 | nothing without data; a layer shows exactly when its key is truthy, in the fixed order |
| LayerPanels.AllShown | src/components/projects/documents/Securitypanel.tsx:17-21 | with every key truthy, every layer is shown |
| LayerPanels.NoneShown | src/components/projects/documents/Securitypanel.tsx:17-21 | no layer shows exactly when every key is falsy |
| ArchitecturePanel.Rows | src/components/projects/documents/Architecturepanel.tsx:15-23 | at most five rows, none without data, each exactly when its key is truthy |
| ArchitecturePanel.ApiRow | src/components/projects/documents/Architecturepanel.tsx:22 | the api key shows as "API / Integrations" exactly when it is truthy |
| ArchitecturePanel.OnlyDeclaredKeys | src/components/projects/documents/Architecturepanel.tsx:17-23 | keys outside the five declared ones do not affect the rows |
| SecurityPanel.Rows | src/components/projects/documents/Securitypanel.tsx:15-21 | at most three rows, none without data, each exactly when its key is truthy |
| SecurityPanel.PrivacyOnly | src/components/projects/documents/Securitypanel.tsx:17-21 | data with only a non-empty privacy text shows only the privacy row |
| JsText.LeadingSpaces | src/components/projects/documents/Designsection.tsx:64 | the leading whitespace run is maximal |
| JsText.TrailingSpaces | src/components/projects/documents/Designsection.tsx:64 | the trailing whitespace run is maximal |
| JsText.Trim | src/components/projects/documents/Designsection.tsx:64 | `trim` does not lengthen the string and leaves no whitespace at either end |
| JsText.TrimRemovesOnlySpace | src/components/projects/documents/Designsection.tsx:64 | the trimmed text sits inside the input with only whitespace before and after it |
| JsText.TrimIdempotent | src/components/projects/documents/Designsection.tsx:64 | trimming twice is trimming once |
| JsText.TrimUnchanged | src/components/projects/documents/Designsection.tsx:64 | a string without surrounding whitespace is unchanged by `trim` |
| JsText.TrimAllSpace | src/components/projects/documents/Designsection.tsx:64 | a string of only whitespace trims to "" |
| JsText.IndexOf | src/components/projects/documents/Designsection.tsx:62 | `indexOf` is −1 exactly when the character is absent, and otherwise its first position |
| JsText.IndexOfAfter | src/components/projects/documents/Designsection.tsx:62 | in a + c + b with no c in a, `indexOf` finds position \|a\| |
| JsText.SplitFirst | src/components/projects/documents/Designsection.tsx:62-64 | the split at the first occurrence rejoins to the input, and the head holds no occurrence |
| JsText.SplitFirstOfJoined | src/components/projects/documents/Designsection.tsx:62-64 | splitting a + c + b with no c in a gives back (a, b) |
| JsText.Split | src/components/projects/documents/Overviewsection.tsx:49 | `split` gives at least one part, and no part holds the separator |
| JsText.JoinSplit | src/components/projects/documents/Overviewsection.tsx:49-56 | joining the parts of a split gives back the string |
| JsText.SplitJoin | src/components/projects/documents/Overviewsection.tsx:49-56 | splitting a join of separator-free parts gives back the parts |
| JsText.SplitHeadRest | src/components/projects/documents/Overviewsection.tsx:49-56 | the first part of `split` is the head of the first-occurrence split, and the rest joins to its tail |
| JsText.Join | src/components/projects/documents/Overviewsection.tsx:56 | joining no parts gives "", and otherwise the first part opens the result |
| JsText.JoinAvoids | src/components/projects/documents/Documentationpage.tsx:257 | a character in no part and not in the separator is not in the join |
| JsText.DigitChar | src/components/projects/documents/Analyticssection.tsx:36 | a decimal digit's character has that value |
| JsText.NatToString | src/components/projects/documents/Analyticssection.tsx:36 | a number's decimal text is all digits without a leading zero |
| JsText.NatToStringValue | src/components/projects/documents/Analyticssection.tsx:36 | the decimal text reads back as the number |
| Seqs.Filter | src/components/projects/documents/Documentationpage.tsx:91 | `filter` keeps exactly the elements satisfying the predicate, in order |
| Seqs.FilterAll | src/components/projects/documents/Documentationpage.tsx:91 | filtering with a predicate that every element satisfies changes nothing |
| Seqs.FilterEmpty | src/components/projects/documents/Documentationpage.tsx:91 | the filter is empty exactly when no element satisfies the predicate |
| Seqs.FilterSameOn | src/components/projects/documents/Architecturepanel.tsx:23 | predicates that agree on every element filter alike |

## Left out

- Browser and event plumbing is not modelled: listener registration and removal, `setTimeout`, smooth `scrollTo` animation, the body scroll lock, focus management and the focus trap. Window width, scroll metrics and touch heights are handler parameters. A desktop `goToSection` returns the scroll offset it would request.
- Three.js orientation maths is not modelled. `camera.lookAt`, and `getWorldDirection` in the older rig (`ImmersiveScene.tsx:142-148`), need the library's rotation code. The rig's look-at lerp therefore has no model. `CameraController`'s look-at point is modelled, because it is plain vector arithmetic.
- Floating point: every quantity is an exact `real`, with the literal constants 0.0015, 1/280, 0.06 and 0.1. Rounding, `NaN` and infinities are not modelled.
- CameraController.Camera.Frame: it states one frame. The n-frame geometric decay follows by induction on `Vec.FollowContracts` but is not stated.
- Gallery.Viewer: the image count is fixed when the viewer is created. A new `images` prop while the overlay is open is not modelled.
- ImmersiveState.ProgressState.MarkLoaded: the 100 ms delay is not modelled. The timer's firing is a method call.
- ImmersiveState.ProgressState.constructor: the mount is one step. The first scroll read runs while `isMobile` is still false, so progress comes from the scroll position on every device. The render between the hook's initial state and its mount effects is not a separate state.
- FutureScope.Render: `Object.entries` is taken to list keys in insertion order. That holds because every phase key starts with "Phase ", so no key is an array index.
- The header, the gallery's image loading, the workflow timeline, the feature grid and the code-example section only render, and are not modelled.
- The TOC's hover and scroll links are not modelled.

## Findings

| source | as written | input that shows it | evidently intended | confidence | as-written member | corrected member |
|---|---|---|---|---|---|---|
| src/components/ImmersiveScene.tsx:230 | `currentSection = floor(scrollProgress × 5)` | scroll to the bottom of the page: progress 1.0 gives 5, and no label of the five is highlighted | the last label is highlighted at the bottom: `min(floor(progress × 5), 4)`, as in `useImmersiveState.ts:79-80` | not executed | ImmersiveScene.BottomHighlightsNoLabel | ImmersiveScene.OneLabelHighlighted |

`ImmersiveScene.Scene` keeps the code as written: its `CurrentSection` is `LabelIndexAsWritten`. `ImmersiveScene.LabelIndex` and `ImmersiveScene.OneLabelHighlighted` state the proposed correction beside it. The intent is not certain. The path's sixth waypoint, the label-less outro at `src/components/ImmersiveScene.tsx:65`, leaves room for a bottom of the page at which no label is meant to be highlighted.

The table of contents and the body also disagree when `gallery` holds a truthy object that is not an array (`DocumentationPage.TocAndBodyDisagreeOnObjectGallery`). This is not a finding. `src/components/projects/documents/types.ts:95` declares `gallery` as an array, so data of the declared type never reaches that case, and for such data the two agree (`DocumentationPage.TocMatchesSections`).
