# Galeria: navigation, gallery cursors and background music

Galeria is a small Android (Jetpack Compose) presentation app. It has a cover screen, a photo
gallery of 22 pictures and a video gallery of 2 clips, with one looping background track. Almost
all of `MainActivity.kt` is layout. Beneath it sits a small state machine, and this project models
and proves that state machine:

- **Gallery cursors** (`cyclic_index.dfy`, `gallery.dfy`, `assets.dfy`). Each gallery keeps a
  `remember`ed index into a fixed, non-empty list. "Next" is `(i + 1) % size`, with Kotlin's
  truncating `%` written out as `Rem`. "Previous" is `if (i - 1 < 0) size - 1 else i - 1`.
  `Gallery.Cursor<T>` is the generic class holding that index. A ghost record of the clicks it
  has received ties the index to the pure function `CyclicIndex.Clicks`. Resource IDs are opaque
  datatype constructors named after the drawables and raw files.
- **Navigation** (`navigation.dfy`, `app.dfy`). `currentScreen` becomes the datatype
  `Screen = Cover | Gallery | VideoGallery`. The four callbacks wired in `GaleriaApp` become the
  datatype `Action`. `Edge` is the transition relation they induce, and `Path` is a run that
  starts at the cover and follows edges. `Galeria.App` holds `screen`, the branch currently in
  composition, the two cursors and the music view model. It also holds a ghost log of screen
  assignments and music requests, because the source depends on their order. `Compose` models a
  composition of `GaleriaApp`:
  - Entering a gallery branch creates a fresh cursor at 0. The `remember`ed index of a branch
    that left composition is gone.
  - The cover and photo branches call `resumeMusic` each time they are composed.
  - The click callbacks are separate methods. Each one requires the UI to show the current
    screen's branch (`Settled`).
- **Background music** (`music.dfy`). The player is `Absent | Present(status, looping)`. A call on
  it is one of `Create | SetLooping | Start | Pause | Release`. `AfterCall` says what one call
  does, and `Replay` folds a whole call log. `Music.MusicViewModel` holds the optional player and
  a ghost log of every call that reached the platform. Its invariant is `player == Replay(calls)`.
  Every `mediaPlayer?.x()` is the method `Issue`: it issues the call if a player exists and does
  nothing otherwise. One atomic `Initialise(created)` models the background initialisation. It
  may run before or after any UI step, and `created == false` models `MediaPlayer.create`
  returning null.

The code is narrower than a reader of the UI might assume:

- Navigation is not fully connected. There are exactly four edges, with none between the two
  galleries and no self-loops (`Navigation.EdgeExactly`).
- Teardown is not idempotent. `onCleared` releases whenever a player object exists, and nothing
  guards `start`/`pause` after release (`Music.NoGuardAfterRelease`).
- Opening the photo gallery makes no music call in its callback. The `resumeMusic` comes from
  composing the gallery branch (`Galeria.App.OpenGallery`, `Galeria.App.Compose`).
- `resumeMusic` and `pauseMusic` reach the player whatever its status. Only an absent player
  makes them no-ops.
- A pause issued before initialisation completes is lost. The video gallery can then play with
  the music on (`Galeria.EarlyPauseScenario`).

## Model

| member | source | states |
|---|---|---|
| `CyclicIndex.Rem` | app/src/main/java/com/example/galeria/MainActivity.kt:347 | Kotlin's truncating `%` for a positive divisor: equal to the Euclidean remainder for a non-negative dividend; for a negative one it is 0 when the divisor divides it and the Euclidean remainder minus the divisor otherwise, so it lies in (-b, 0] |
| `CyclicIndex.NextWraps` | app/src/main/java/com/example/galeria/MainActivity.kt:347 | for a valid index, Next stays in `[0, size)`; it gives 0 at `size - 1` and `i + 1` elsewhere (same expression at line 482) |
| `CyclicIndex.PreviousWraps` | app/src/main/java/com/example/galeria/MainActivity.kt:328 | for a valid index, Previous stays in `[0, size)`; it gives `size - 1` at 0 and `i - 1` elsewhere (same expression at line 465) |
| `CyclicIndex.PreviousUndoesNext` | app/src/main/java/com/example/galeria/MainActivity.kt:328-347 | Previous after Next returns every valid index to itself |
| `CyclicIndex.NextUndoesPrevious` | app/src/main/java/com/example/galeria/MainActivity.kt:328-347 | Next after Previous returns every valid index to itself |
| `CyclicIndex.ClicksInRange` | app/src/main/java/com/example/galeria/MainActivity.kt:265-347 | from a valid start, any sequence of Previous/Next clicks ends at a valid index, so `images[indice]` cannot fail |
| `CyclicIndex.NextTimesValue` | app/src/main/java/com/example/galeria/MainActivity.kt:347 | `k <= size` presses of Next from `i` reach `i + k`, or `i + k - size` once past the end |
| `CyclicIndex.FullCycle` | app/src/main/java/com/example/galeria/MainActivity.kt:347 | `size` presses of Next return to the starting index |
| `CyclicIndex.CycleIsMinimal` | app/src/main/java/com/example/galeria/MainActivity.kt:347 | fewer than `size` (but at least one) presses of Next never return to the start |
| `Assets.PhotoCycle` | app/src/main/java/com/example/galeria/MainActivity.kt:240-263 | the photo list has 22 entries; 22 Next clicks return to the same photo and 1 to 21 clicks do not |
| `Assets.VideoCycle` | app/src/main/java/com/example/galeria/MainActivity.kt:411-414 | the video list has 2 entries; 2 Next clicks return to the same video and 1 does not |
| `Gallery.Cursor.constructor` | app/src/main/java/com/example/galeria/MainActivity.kt:265 | a new cursor over a non-empty list points at index 0 with no clicks recorded |
| `Gallery.Cursor.Current` | app/src/main/java/com/example/galeria/MainActivity.kt:309 | the item on show is always an element of the list |
| `Gallery.Cursor.Previous` | app/src/main/java/com/example/galeria/MainActivity.kt:328 | the index becomes Previous of the old one, the click is recorded, and the invariant (index == replay of all clicks from 0, in range) is kept |
| `Gallery.Cursor.Next` | app/src/main/java/com/example/galeria/MainActivity.kt:347 | the index becomes Next of the old one, the click is recorded, and the invariant is kept |
| `Navigation.EdgeExactly` | app/src/main/java/com/example/galeria/MainActivity.kt:54-78 | some callback leads from s to t if and only if exactly one of s, t is the cover: cover→gallery, cover→videoGallery, gallery→cover and videoGallery→cover exist, and no other edge does |
| `Navigation.PathExtend` | app/src/main/java/com/example/galeria/MainActivity.kt:59-74 | taking a callback offered by the last screen of a path yields a path |
| `Navigation.PathAlternates` | app/src/main/java/com/example/galeria/MainActivity.kt:54-78 | along any path from the cover, the cover shows exactly at the even steps |
| `Music.IssuedKeepsInStep` | app/src/main/java/com/example/galeria/MainActivity.kt:529-539 | a `mediaPlayer?.x()` keeps the call log and the player in step: replaying the log extended by what the call issued (one call if a player exists, none if absent) gives the call's effect on the player |
| `Music.AbsentIsInert` | app/src/main/java/com/example/galeria/MainActivity.kt:529-539 | while the player is absent, pause, resume and release issue nothing and change nothing |
| `Music.InitialisedPlays` | app/src/main/java/com/example/galeria/MainActivity.kt:523-525 | create, set looping, start leaves the player present, looping and playing |
| `Music.PauseThenResume` | app/src/main/java/com/example/galeria/MainActivity.kt:529-535 | pause followed by resume returns any unreleased player to playing with its looping flag kept |
| `Music.ReleasedStaysReleased` | app/src/main/java/com/example/galeria/MainActivity.kt:537-540 | once released, no sequence of calls without a new creation brings the player out of the released state |
| `Music.LoopingSurvives` | app/src/main/java/com/example/galeria/MainActivity.kt:524 | pause, resume and release calls never change the looping flag set at initialisation |
| `Music.NoGuardAfterRelease` | app/src/main/java/com/example/galeria/MainActivity.kt:537-540 | after a release, a second release and a resume are still issued to the platform; the status stays released |
| `Music.MusicViewModel.constructor` | app/src/main/java/com/example/galeria/MainActivity.kt:518 | the view model starts with no player, an empty call log and initialisation pending |
| `Music.MusicViewModel.Initialise` | app/src/main/java/com/example/galeria/MainActivity.kt:521-527 | if creation succeeds the player ends present, looping and playing after exactly the calls create, set looping, start; if it fails the player stays absent and nothing is issued |
| `Music.MusicViewModel.Issue` | app/src/main/java/com/example/galeria/MainActivity.kt:530 | the `?.` call: the player becomes AfterCall of the old one, and the log grows by that call exactly when a player exists |
| `Music.MusicViewModel.PauseMusic` | app/src/main/java/com/example/galeria/MainActivity.kt:529-531 | `pauseMusic`: one pause reaches a present player, nothing happens to an absent one, and the invariant is kept |
| `Music.MusicViewModel.ResumeMusic` | app/src/main/java/com/example/galeria/MainActivity.kt:533-535 | `resumeMusic`: one start reaches a present player, nothing happens to an absent one |
| `Music.MusicViewModel.OnCleared` | app/src/main/java/com/example/galeria/MainActivity.kt:537-540 | `onCleared`: one release reaches a present player, whatever its status |
| `Galeria.Visited` | app/src/main/java/com/example/galeria/MainActivity.kt:52 | the screens `currentScreen` has held always begin with the initial cover |
| `Galeria.App.constructor` | app/src/main/java/com/example/galeria/MainActivity.kt:52 | the app starts on the cover, with nothing composed, an empty event log and the music view model untouched |
| `Galeria.App.Compose` | app/src/main/java/com/example/galeria/MainActivity.kt:54-78 | afterwards the current screen's branch is composed; entering a gallery gives it a fresh cursor at 0, staying keeps the cursor; composing cover or gallery issues exactly one resume request (one start if a player exists); composing the video gallery makes no music call |
| `Galeria.App.EnterBranch` | app/src/main/java/com/example/galeria/MainActivity.kt:265 | a gallery branch entering composition gets a fresh cursor at 0; a branch already composed keeps its cursor |
| `Galeria.App.RequestResume` | app/src/main/java/com/example/galeria/MainActivity.kt:57 | a `resumeMusic()` from the app: one resume request logged, the player receives at most one start, the screen is unchanged |
| `Galeria.App.RequestPause` | app/src/main/java/com/example/galeria/MainActivity.kt:62 | a `pauseMusic()` from the app: one pause request logged, the player receives at most one pause, the screen is unchanged |
| `Galeria.App.Navigate` | app/src/main/java/com/example/galeria/MainActivity.kt:59-74 | assigning `currentScreen` along a wired edge logs the new screen, keeps the visited screens a path ending at the current screen, and touches nothing else |
| `Galeria.App.OpenGallery` | app/src/main/java/com/example/galeria/MainActivity.kt:59 | from the cover, the screen becomes the gallery and no music call is made |
| `Galeria.App.OpenVideoGallery` | app/src/main/java/com/example/galeria/MainActivity.kt:60-63 | from the cover, the screen becomes the video gallery and then exactly one pause is requested |
| `Galeria.App.BackFromGallery` | app/src/main/java/com/example/galeria/MainActivity.kt:69 | from the gallery, the screen becomes the cover and no music call is made |
| `Galeria.App.BackFromVideos` | app/src/main/java/com/example/galeria/MainActivity.kt:73-76 | from the video gallery, the screen becomes the cover and then exactly one resume is requested |
| `Galeria.App.PreviousPhoto` | app/src/main/java/com/example/galeria/MainActivity.kt:328 | the photo index becomes Previous of the old one over 22 photos, the video index is untouched |
| `Galeria.App.NextPhoto` | app/src/main/java/com/example/galeria/MainActivity.kt:347 | the photo index becomes Next of the old one over 22 photos, the video index is untouched |
| `Galeria.App.PreviousVideo` | app/src/main/java/com/example/galeria/MainActivity.kt:465 | the video index becomes Previous of the old one over 2 videos, the photo index is untouched |
| `Galeria.App.NextVideo` | app/src/main/java/com/example/galeria/MainActivity.kt:482 | the video index becomes Next of the old one over 2 videos, the photo index is untouched |
| `Galeria.App.ShownPhoto` | app/src/main/java/com/example/galeria/MainActivity.kt:309 | the photo on show is always one of the 22 bundled photos |
| `Galeria.CoverBetweenGalleries` | app/src/main/java/com/example/galeria/MainActivity.kt:54-78 | of any two consecutive screens in a session one is the cover: moving between the galleries always passes through the cover |
| `Galeria.VisitVideos` | app/src/main/java/com/example/galeria/MainActivity.kt:57-76 | from the cover with music playing, a visit to the videos and back leaves it playing again, after exactly the calls pause, start (back), start (cover composed) |
| `Galeria.RevisitPhotos` | app/src/main/java/com/example/galeria/MainActivity.kt:67-69 | leaving the photo gallery and coming back gives a fresh cursor at the first photo |

## Left out

- Compose layout and styling (images, text, spacers, colours, sizes, the `alpha` of the cover's
  box) are not modelled: they are presentation with no behaviour.
- The LinkedIn and Instagram buttons only hand an `Intent` to the platform browser.
- `VideoView` creation and playback are platform calls. The `factory` runs once per view, so the
  clip on show does not follow `indiceVideos`. The model tracks the index only.
- The `Dispatchers.IO` coroutine is concurrency. Its body is one atomic step
  (`Music.MusicViewModel.Initialise`) that a caller may place before or after any UI step.
- `MediaPlayer` internals: the platform raises an error for `start` or `pause` after `release`.
  The model keeps the status `Released` and records the call.
- Android lifecycle (when `onCleared` runs, `viewModels()`, activity recreation) is outside the
  model. The view model is passed to the app as a parameter, as `GaleriaApp` receives it.
- `CyclicIndex.Next`: does not model 32-bit `Int` overflow of `indice + 1`, because the index
  never exceeds 21.
- `Gallery.Cursor.constructor`: requires a non-empty list. Both lists are literal constants with
  22 and 2 entries, so the source has no empty-list path.
- `Galeria.App.OpenGallery`: like every click method, it requires the current screen's branch to
  be composed (`Settled`). A second tap delivered between a state change and the next
  recomposition is not modelled.
- `Galeria.App.Compose`: runs when the caller chooses. The model does not say when Compose
  schedules recompositions; any number of them is allowed.
