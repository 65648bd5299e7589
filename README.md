# PhotoBooth capture core, in Dafny

The PhotoBooth page connects a webcam to a canvas. The user takes a photo by
clicking snap, by waiting out a 0/3/5/10-second countdown, or by holding up a
peace sign in front of the camera. Each photo goes first in a gallery that
local storage keeps. A crop box can be dragged over the last photo. Under the
DOM and canvas glue sit four small pieces of sequential logic, and this
project models and proves each of them:

- **Gallery store** (`gallery.dfy`, module `Gallery`). `galleryImages` is the
  list of image references, newest first. `addToGallery` puts an entry at the
  front with `unshift`, and `deleteFromGallery` removes one with
  `splice(index, 1)`. The model follows JavaScript's rules for `splice`: a
  negative index counts back from the end, and an index past the end removes
  nothing. After each change the whole list is written to storage again, the
  preview strip shows the first three entries (or "No photos yet"), and the
  counter shows the full length. The class `GalleryStore` holds the list, a
  ghost copy of what storage holds, the rendered preview and the counter.
  Its invariant `Valid()` ties all three to the list.
- **Capture session** (`capture.dfy`, module `Capture`). `busy` and `snapped`
  are the page's flags. `snap()` is async. Once a call gets past the `busy`
  check, it stops at each one-second countdown wait and again while `toBlob`
  runs. Other events can come in between. So the model keeps every such call
  as a *pending session* with the stage where it is stopped. The events are
  the snap click, the end of a countdown wait, the `toBlob` callback, the
  retake click and a run of `detect` on one video frame. Each event is a pure
  step function on the `Session` value and a method of the `Booth` class,
  which holds the same fields. The postcondition of each event method is the
  matching step function.
- **`isPeace`** (`gesture.dfy`, module `Gesture`). Four comparisons of
  landmark y coordinates, evaluated the way `&&` evaluates them: left to
  right, stopping at the first false one. Reading a landmark index that the
  list lacks throws a TypeError. Inside `detect` that exception rejects the
  call before the next frame is scheduled, so gesture detection stops for
  good.
- **Crop drag** (`crop.dfy`, module `Crop`). Mousedown on the box records
  the offset inside the box. Mousemove moves the box's origin only while a
  drag is on. Mouseup ends the drag. The width and height never change.

What the proofs show about the source as written:

- Without a retake, the gesture path calls `snap()` at most once. A capture
  clears `busy` but not `snapped`, and only a retake clears `snapped`. So,
  starting with nothing pending and with no snap click, a held peace sign
  adds at most one photo, whatever countdown waits and callbacks come in
  between (`Capture.GestureAddsAtMostOnePhoto`).
- If the only pending session is in its countdown, a retake followed by that
  session's next wait ends the session with nothing captured. With delay 5
  and the retake while 3 is shown, this is `Capture.RetakeAbortsCountdown`
  with k = 2.
- A retake clears `snapped` but does not stop a countdown. The countdown only
  checks the flag when a wait ends. If a new snap comes before then, it sets
  `snapped` again, the old countdown carries on, and the two calls add two
  photos (`Capture.RetakeThenSnapKeepsOldCountdown`). A retake therefore
  does not guarantee one session at a time.
- A retake during encoding does not stop the photo being stored.
- Each capture revokes the previous capture's object URL. If no photo was
  deleted since the previous capture, that URL is still the second entry of
  the gallery and of the stored copy, so its thumbnail points at a revoked
  URL. Deleting a photo never revokes its URL.

## Model

| member | source | states |
|---|---|---|
| `Gallery.SpliceInRange` | script.js:58-60 | deleting at an index inside the list gives `old[..i] + old[i+1..]`: length one less, every other entry in its old order, the removed entry exactly `old[i]` (as multisets) |
| `Gallery.SplicePastEnd` | script.js:59 | an index at or past the end removes nothing |
| `Gallery.SpliceFromEnd` | script.js:59 | a negative index within the list removes the entry that many places from the end |
| `Gallery.BuildPreview` | script.js:66-74 | the preview is the "No photos yet" placeholder if and only if the list is empty; otherwise exactly `min(3, n)` thumbnails, the k-th showing entry k and wired to delete index k |
| `Gallery.PreviewShowsNewest` | script.js:66-74 | placeholder iff empty, the strip shows the first `min(3, n)` entries in order, and with more than three entries the strip shows fewer than the counter's full length |
| `Gallery.PreviewAfterAdd` | script.js:47-55 | after an add the new image is the first thumbnail and the previously shown ones move one place right, with at most three shown |
| `Gallery.DeleteButtonRemovesItsImage` | script.js:93-99 | the delete button of thumbnail k removes exactly the image that thumbnail shows and keeps the rest in order |
| `Gallery.LengthAccount` | script.js:47-62 | over any sequence of adds and deletes, the final length equals the starting length plus the adds minus the deletes that removed something |
| `Gallery.AddsAreNewestFirst` | script.js:51 | a run of adds leaves the new entries newest first, in front of the old ones in their old order |
| `Gallery.AddThenDeleteFirst` | script.js:51-59 | deleting index 0 right after an add restores the list |
| `Gallery.GalleryStore.Load` | script.js:2 | page load: the stored list, or the empty list when nothing is stored, with storage, preview and counter consistent |
| `Gallery.GalleryStore.RenderGalleryPreview` | script.js:66-104 | the gallery element shows the preview of the current list |
| `Gallery.GalleryStore.UpdatePhotoCount` | script.js:28-31 | the counter equals the full length of the list |
| `Gallery.GalleryStore.Add` | script.js:47-56 | the list becomes `[url] + old`; the persisted copy equals it; preview and counter re-rendered from it |
| `Gallery.GalleryStore.Delete` | script.js:58-64 | the list becomes `splice(index, 1)` of the old one (`old[..i] + old[i+1..]` for an index inside it); persisted copy, preview and counter follow |
| `Gesture.IsPeace` | script.js:221-228 | on a hand with at least 21 landmarks the verdict is exactly the four comparisons (index and middle tips above joints 6 and 10, ring and pinky tips below joints 14 and 18); a true verdict needs all 21 landmarks; a shorter list may throw, a complete one never does |
| `Gesture.PeaceIgnoresVerticalPosition` | script.js:221-228 | moving the hand up or down in the frame does not change the verdict |
| `Gesture.UpsideDownPeaceIsNot` | script.js:221-228 | a peace sign mirrored top to bottom is not a peace sign |
| `Gesture.PeaceReadsEightHeights` | script.js:221-228 | the verdict depends only on the list length and the y coordinates of landmarks 6, 8, 10, 12, 14, 16, 18, 20 |
| `Capture.SnapGuard` | script.js:134-137 | snap while busy changes nothing; otherwise it sets `busy` and `snapped` and adds exactly one pending session under a fresh id, with the others unchanged |
| `Capture.TickAfterRetakeAborts` | script.js:143-150 | after a retake, the next countdown wait ends its session, clears `busy`, and leaves every other pending session alone |
| `Capture.RetakeDuringEncodingStillCaptures` | script.js:163-175 | a retake while the frame is encoding does not stop the `toBlob` callback from storing the photo |
| `Capture.StepKeepsInv` | script.js:134-187 | every event keeps ids fresh, countdown numbers positive and `busy` only while a session is pending |
| `Capture.RunKeepsInv` | script.js:134-187 | the same over any sequence of events |
| `Capture.StepKeepsExclusive` | script.js:134-187 | at most one pending session, `busy` exactly while one is pending and `snapped` while one is: every event keeps this except a retake while a session is pending |
| `Capture.RetakeThenTickRestoresExclusive` | script.js:181-187 | a retake during the only countdown, then that countdown's next wait: nothing captured, nothing pending, `busy` false |
| `Capture.CountdownRuns` | script.js:143-151 | with `snapped` set, n waits of a countdown with more than n numbers left only count it down, and capture nothing |
| `Capture.RetakeAbortsCountdown` | script.js:141-150 | snap with delay d, k < d waits, retake, next wait: no photo captured, nothing pending, both flags clear |
| `Capture.SnappedStays` | script.js:186 | only a retake clears `snapped` |
| `Capture.GestureAtMostOnce` | script.js:234-235 | over any event sequence with no retake, the gesture path calls `snap` at most once, and never once `snapped` is set |
| `Capture.PeaceEpisodeFiresOnce` | script.js:230-238 | a run of peace-sign frames, starting with no flag set, calls `snap` exactly once and starts exactly one session |
| `Capture.StepBoundsCaptures` | script.js:143-175 | an event other than a snap click stores a photo only by ending a pending call, and adds a pending call only when the gesture fires |
| `Capture.CapturesBoundedBySessions` | script.js:134-187 | over any run without snap clicks, photos stored plus calls still pending are at most the calls pending at the start plus the gesture's `snap` calls |
| `Capture.GestureAddsAtMostOnePhoto` | script.js:174-235 | from a page with nothing pending, frames, countdown waits and `toBlob` callbacks without a snap click or retake store at most one photo, and none if `snapped` is already set |
| `Capture.FrameStepSnapsExactlyWhenFires` | script.js:234-235 | a `detect` run starts a session exactly when there is a hand, neither flag is set and `isPeace` is true, and then it is the snap of an idle page; otherwise the flags and pending sessions are unchanged |
| `Capture.FramesStartOneSessionPerFire` | script.js:230-238 | over a run of frames, the number of sessions started equals the number of frames on which the gesture fires |
| `Capture.StoppedDetectionNeverFires` | script.js:230-237 | once `detect` has thrown, no later event fires the gesture trigger or restarts detection |
| `Capture.ShortHandStopsDetection` | script.js:233-237 | a hand missing landmark 12 whose first comparison holds makes `isPeace` throw and stops detection |
| `Capture.RetakeThenSnapKeepsOldCountdown` | script.js:143-150 | snap, retake, snap within one second: the first countdown is not aborted, and the two sessions add two photos |
| `Capture.Booth.constructor` | script.js:22-25 | the page starts with both flags clear, nothing pending, no last image URL, and the gallery loaded from storage |
| `Capture.Booth.Snap` | script.js:134-153 | the page's flags and pending sessions change as `SnapStep` says; the last image URL is untouched |
| `Capture.Booth.Tick` | script.js:143-151 | one countdown wait ends as `TickStep` says: abort when `snapped` is clear, otherwise count down or start encoding |
| `Capture.Booth.RunCountdown` | script.js:141-153 | the uninterrupted countdown loop: with `snapped` set the session reaches encoding with the flags unchanged; without it the session ends at the first wait with `busy` cleared |
| `Capture.Booth.BlobReady` | script.js:163-175 | the previous capture's URL is revoked, the new URL becomes the last image and goes first in the gallery, `busy` is cleared and `snapped` is kept |
| `Capture.Booth.Retake` | script.js:181-189 | both flags cleared; pending sessions, gallery and URLs untouched |
| `Capture.Booth.Detect` | script.js:230-238 | one `detect` run changes the state as `FrameStep` says: snap on a peace sign when no flag is set, stop on a TypeError |
| `Crop.MoveKeepsGrip` | script.js:122-129 | during a drag a move places the box so that the pointer is at the pressed offset inside it; size, drag flag and offsets unchanged |
| `Crop.MoveWithoutDragIsIgnored` | script.js:123 | without a drag a move changes nothing |
| `Crop.BoxFollowsPointer` | script.js:124-126 | two moves within a drag shift the box by exactly the pointer's displacement |
| `Crop.SizeNeverChanges` | script.js:116-131 | no sequence of mouse events changes the box's width or height |
| `Crop.ReleasedBoxStays` | script.js:131 | after a release, moves and releases leave the state unchanged until the next press |
| `Crop.MovesWhileDragging` | script.js:122-129 | a drag's moves keep the drag on with the same offsets and leave the box where the last move put it |
| `Crop.DragEndsAtLastMove` | script.js:116-131 | press, moves, release: the drag is off and the box is where the last move put it, or where it was if there was no move |
| `Crop.CropTool.constructor` | script.js:112-114 | a 200 by 200 box at (120, 90), no drag, offsets 0 |
| `Crop.CropTool.MouseDown` | script.js:116-120 | the drag starts and the offsets are recorded; the box does not move |
| `Crop.CropTool.MouseMove` | script.js:122-129 | while dragging, `x = clientX - left - offsetX` and `y = clientY - top - offsetY`; otherwise no change; never `w` or `h` |
| `Crop.CropTool.MouseUp` | script.js:131 | the drag ends; the box does not move |

## Left out

- Camera acquisition (`getUserMedia`, `video.play`, the canvas size taken from the video) is browser I/O.
- The hand-pose model is left out: loading it, and `estimateHands`. Its output comes in as the `hands` parameter of `Detect`. The `!model` branch of `detect` is also left out, because the loop only starts after the model has loaded.
- Canvas pixel work is left out as foreign canvas calls: `drawImage`, `clearRect`, the content of the `toBlob` output, and the image reload when a thumbnail is clicked.
- Apply-crop is left out. It scales by `canvas.width / canvas.clientWidth`, a floating-point ratio of layout-dependent sizes, then draws and exposes the cropped image. The URL of the cropped image is never revoked, and that is not modelled either.
- Object-URL creation is a foreign call. The URL comes in as a parameter of `BlobReady`, and the browser's promise that it is new is that method's precondition. Revocation is recorded in a ghost set.
- Local storage and JSON encoding are modelled as a ghost copy of the list. The copy equals what a reload would read, and a missing key reads as the empty list.
- DOM construction, style, the status text, the countdown digits, the download link and the navigation to the gallery page are UI. The countdown digit equals the `shown` number of the `Counting` stage.
- The timer select's `parseInt` is not modelled. The delay comes in as an integer. A value that does not parse gives NaN, and since `NaN > 0` is false, the caller passes 0.
- Coordinates are exact reals, not IEEE doubles. NaN and rounding in the comparisons of `isPeace` and the subtractions of the crop drag are not modelled.
- Each landmark is a record with fields `x`, `y` and `z` instead of a three-element array. A landmark with fewer than two elements is not modelled.
- Every event runs to completion, one at a time. Which event comes next is the caller's choice, and each `Booth` method requires that the session it resumes is stopped at that stage. This is the event loop's order, not an extra restriction.
- Booth.BlobReady and Gallery.GalleryStore.Add: a throw inside the `toBlob` callback is not modelled. `localStorage.setItem` can throw when storage is full, and `URL.createObjectURL` throws on a null blob. The callback would then stop before `busy = false`, leaving `busy` set until a retake, and after a failed `setItem` the new entry would be in `galleryImages` but not in storage. The model always completes the callback and keeps the stored copy equal to the list.
- The time between page load and the end of initialisation is not modelled. The `Booth` constructor stands for the page after its first render, with `detect` running.
