# image-watch, modelled in Dafny

image-watch is a PHP daemon (`src/app.php`). It reads up to nine camera URLs from
the environment (`CAM_IMAGE_URL1` .. `CAM_IMAGE_URL9`). Then it loops forever. Each
cycle it fetches one 640x480 image per camera and lays the images out on a black
canvas whose size and insert positions depend only on the camera count. It shrinks
the canvas to the configured maximum width if it is wider, stamps a timestamp on
it, saves it as a JPEG and uploads it to a Seafile library. On two independent
timers it also deletes files older than the retention period from the library and
asks Seafile to decrypt the library again. Finally it sleeps for the rest of the
capture interval.

The model covers the logic of that loop. Time is integers, images are opaque
tokens, and every Seafile or image-library call is replaced by the outcome it
returned:

- `layout.dfy`, module `Layout`: the layout table (camera count to canvas size and
  ordered insert positions), the insertion of each fetched image at its slot's
  position, and the downscale rule.
- `cameras.dfy`, module `Cameras`: the scan for camera variables and the per-cycle
  fetch, where a failed fetch leaves an empty slot.
- `schedule.dfy`, module `Schedule`: the two "last fired" timers, the sleep
  formula with PHP's `round`, and the upload failure counter.
- `retention.dfy`, module `Retention`: the retention sweep over a directory
  listing.
- `daemon.dfy`, module `Daemon`: the configuration, and the class `Watcher`. It
  holds the state the main loop keeps between cycles: both timer marks, the
  upload counter, and whether the process has ended. It also has start-up and
  one full cycle (`RunCycle`).
- `wrappers.dfy`: the `Option` type used for empty camera slots.

Clock readings are in integer microseconds, the resolution of PHP's
`microtime(true)`. So "more than `mins * 60` seconds since the mark" is the exact
integer test `now - mark > mins * 60 * 1000000`. The retention pass compares whole
seconds, as `DateTime::getTimeStamp` gives them.

Behaviour of the code the model keeps:
- The positions are the image library's names `top-left`, `top`, `top-right`,
  `left`, `center`, `right`, `bottom-left`, `bottom` and `bottom-right`.
- Both timers fire only when strictly more than their interval has passed.
- A decrypt call that raises is as fatal as one that is refused. At start-up the
  exception is caught and the script exits. In the loop nothing catches it.
- The decryption timer runs whether or not a key is configured. Without a key the
  decryption step does nothing.
- The sweep drops listed entries whose type is not `"file"`. It does not filter by
  file extension.
- A remove call that returns false is logged and the sweep goes on. A remove call
  that raises ends the whole pass, because the one `try` block wraps the loop.
- A failed upload is swallowed only five times per process lifetime. The counter
  is never reset, and the sixth failure, cumulative, is rethrown and ends the
  process.

## Model

| member | source | states |
|---|---|---|
| `Layout.GridFor` | src/app.php:229-301 | For every N in 1..9: one insert position per slot, the positions of a row pairwise distinct, the canvas a whole number of 640x480 tiles with at most 3 columns and 3 rows, and none of its rows left empty when all N slots are filled |
| `Layout.SlotsFillRowMajor` | src/app.php:229-301 | Under the image library's anchor rule, slot i of row N lands on the i-th 640x480 tile of the canvas, counted row by row from the top-left |
| `Layout.TilesInsideAndDisjoint` | src/app.php:229-301 | The N tiles of a row lie inside the canvas and no two of them overlap |
| `Layout.AnchorListsExtend` | src/app.php:239-300 | The position lists for N = 4, 6, 8 and 9 are those for N = 3, 5, 7 and 8 plus one trailing position (bottom-right, bottom-right, bottom, bottom-right) |
| `Layout.PositionNameInjective` | src/app.php:232-300 | Distinct positions are distinct position strings |
| `Layout.RowPositionNamesDistinct` | src/app.php:229-301 | No two slots of a row pass the same position string to the insert call |
| `Layout.NineCameraPositionNames` | src/app.php:292-300 | The nine-camera row passes top-left, top, top-right, left, center, right, bottom-left, bottom, bottom-right, in slot order |
| `Layout.PlaceFrom` | src/app.php:232-300 | The inserts for slots from..N-1 are in strictly increasing slot order. Each one carries that slot's own image and that slot's position. Every slot holding an image gets one |
| `Layout.PlacementsCountPresent` | src/app.php:232-300 | There are exactly as many inserts as slots holding an image |
| `Layout.Compose` | src/app.php:229-302 | The canvas has the table's size for N = number of slots, whichever slots are empty. Slot i is inserted, at the row's i-th position, if and only if its image is not null. The number of inserts is the number of non-null slots, at most N |
| `Layout.PresentCountBound` | src/app.php:232-300 | The number of non-null slots is at most N, and it is zero exactly when every slot is null |
| `Layout.AllAbsentIsBlankCanvas` | src/app.php:229-302 | When every fetch failed the composite is the bare black canvas of the table's size, with no insert |
| `Layout.SizeIgnoresAbsence` | src/app.php:229-301 | Two slot lists of the same length give canvases of the same size |
| `Layout.ThreeCamerasAllFetched` | src/app.php:239-244 | Three fetched images give a 1280x960 canvas with inserts at top-left, top-right and bottom-left, in that order |
| `Layout.TwoCamerasFirstFailed` | src/app.php:234-238 | With two cameras and the first fetch failed, the canvas is 640x960 and its one insert is the second image at bottom-left |
| `Layout.Downscale` | src/app.php:305-312 | A composite at most `max_width` wide is left alone. A wider one becomes exactly `max_width` wide. The image is never enlarged. The height keeps the aspect ratio to within half a pixel, exactly when that is an integer |
| `Layout.RoundedRatio` | src/app.php:309-311 | The height rounded from `max_width * h / w` is within half a pixel of it, is no taller than before, and is exact when the division is exact |
| `Layout.DefaultWidthScaling` | src/app.php:307-312 | With the default maximum width of 1280, the 640- and 1280-wide canvases are unchanged, 1920x960 becomes 1280x640 and 1920x1440 becomes 1280x960 |
| `Cameras.UrlsFrom` | src/app.php:460-470 | The URLs collected from variables i..9 are at most 10 - i. A URL is collected if and only if one of those variables is set to it |
| `Cameras.OneUrlPerSetVariable` | src/app.php:460-470 | Exactly one URL is collected per camera variable that is set |
| `Cameras.UrlPlacement` | src/app.php:460-470 | The value of set variable j sits at the position equal to the number of set variables below j. With the count above this fixes the whole list: index order, one entry per set variable, so camera k feeds slot k |
| `Cameras.NoVariablesNoUrls` | src/app.php:194-198 | With no camera variable set nothing is collected, which is the case in which the daemon exits at start-up |
| `Cameras.CollectCameraUrls` | src/app.php:453-473 | The loop over indices 1..9 returns exactly the values of the set variables, in index order, and at most nine of them |
| `Cameras.AcquireImages` | src/app.php:210-226 | The fetch loop gives one slot per URL, in URL order: the fetched image, or null where that URL's fetch failed |
| `Schedule.RoundToSeconds` | src/app.php:355 | PHP `round` of a duration to whole seconds: the nearest integer, with halves rounded away from zero |
| `Schedule.SleepSeconds` | src/app.php:354-355 | The sleep is at least one second. It equals `interval - round(exec)` whenever that is at least one, and is one second otherwise |
| `Schedule.CadenceHeld` | src/app.php:351-359 | When a cycle ends more than half a second before its interval is up, cycle time plus sleep equals the interval to within half a second |
| `Schedule.OverrunSleepsOneSecond` | src/app.php:351-359 | A cycle that lasted the whole interval or longer is followed by the one-second minimum sleep, so no backlog builds up |
| `Schedule.TimerStep` | src/app.php:338-349 | One check of a timer, shared by the trace and by `Watcher.Tick`: it fires only when strictly more than the interval has passed since the mark, a firing moves the mark to the reading, no firing leaves it, and the mark never moves past the reading |
| `Schedule.FireTrace` | src/app.php:338-349 | One firing flag per clock reading at which a timer is checked, each the `TimerStep` from the mark the previous check left |
| `Schedule.FiringsAfterMark` | src/app.php:338-349 | Every firing of a timer comes strictly more than its interval after the initial mark |
| `Schedule.FiringsSpacedApart` | src/app.php:338-349 | Any two firings of one timer are strictly more than its interval apart, whatever the clock readings, so cleanup and decryption each run at most once per interval |
| `Schedule.UploadStep` | src/app.php:386-398 | An upload never lowers the counter. A success leaves it unchanged and is not rethrown. An exception raises it by one and is rethrown exactly when the counter is then above 5 |
| `Schedule.AttemptsCountFailures` | src/app.php:390-393 | The counter is the number of failed uploads since process start. It is never reset |
| `Schedule.RethrowsIffPastLimit` | src/app.php:394-397 | An upload is rethrown if and only if it failed and is the sixth or a later failure since process start |
| `Schedule.SurvivesIffFewFailures` | src/app.php:386-398 | A history of uploads has no rethrow if and only if it holds at most five failures |
| `Schedule.FatalOnSixthFailure` | src/app.php:55-56 | The first rethrow, which ends the process, happens on exactly the sixth cumulative failure |
| `Retention.ExpiredPaths` | src/app.php:422-436 | The removal paths of a listing, in listing order and at most one per entry |
| `Retention.ExpiredPathsMembers` | src/app.php:424-435 | A path is due for removal if and only if some listed entry of type "file" with `now - mtime > retention_hours * 3600` has the path `directory + "/" + name` |
| `Retention.Succeeded` | src/app.php:438-443 | A path is among the successful removes if and only if it was attempted and its remove call returned true, and there are no more of them than attempts |
| `Retention.SucceededInOrder` | src/app.php:438-443 | The successful removes are a subsequence of the attempts: they keep the order in which the removes were made |
| `Retention.NoneRaisedAt` | src/app.php:410-450 | "No remove raised" holds of a path list if and only if no remove call for any of its paths raised |
| `Retention.RemoveOldFiles` | src/app.php:404-451 | A failed listing ends the pass with no remove attempted. Otherwise the pass keeps the sweep contract: removes are attempted on a prefix of the due paths, in order. The prefix is all of them unless a remove raised, and then it ends at the one that raised. A remove that returned false does not stop the later ones. The removed paths are the attempts that succeeded |
| `Retention.SweepItems` | src/app.php:422-446 | The loop over the listed entries keeps the sweep contract above |
| `Retention.SecondSweepRemovesNothing` | src/app.php:422-445 | A second listing at the same instant, from which every path that was due is gone, has nothing due for removal |
| `Retention.SweepIsIdempotent` | src/app.php:422-446 | After a sweep that went through the whole listing with every remove succeeding, relisting at the same instant without the removed paths leaves nothing due |
| `Retention.DirectoriesAreKept` | src/app.php:424-435 | In any listing, an entry that is not a file is never removed, however old, unless a file entry shares its name |
| `Retention.DayRetentionScenario` | src/app.php:427-432 | With a 24-hour retention a file 25 hours old is removed and one 23 hours old is kept |
| `Daemon.DefaultsAccepted` | src/app.php:52-162 | The default settings (maximum width 1280, 60 s interval, 60 min cleanup, 24 h retention, 60 min decryption, and the unset key and root directory of lines 150-162) pass the width check, and with them the decryption step never ends the process |
| `Daemon.Renew` | src/app.php:476-492 | Without a key (absent or empty) nothing is sent. With a key the library is renewed only on a successful decrypt, and a refusal or an exception is fatal |
| `Daemon.Watcher.constructor` | src/app.php:46-198 | At start-up each timer mark takes its own clock reading, the counter is zero and the camera URLs are collected. The process ends when the initial decryption fails or no camera is configured |
| `Daemon.Watcher.SendFile` | src/app.php:367-401 | The new counter and the rethrow are those of the pure upload step |
| `Daemon.Watcher.Tick` | src/app.php:338-355 | Each timer takes one `TimerStep`, the step whose traces `Schedule.FiringsSpacedApart` is about: it fires when strictly more than its interval has passed since its own mark. A firing resets only that timer's mark to its reading and leaves the other mark alone. The sleep is `max(1, interval - round(exec))` |
| `Daemon.Watcher.RunCycle` | src/app.php:205-361 | One cycle: the composite of the fetched images, scaled. A rethrown upload ends the process before cleanup, decryption and sleep, with both marks unchanged. Otherwise the cleanup runs exactly when its timer fires and keeps the sweep contract, and the decryption runs exactly when its timer fires. The process ends exactly when that decryption is fatal, and otherwise sleeps the computed time |

## Left out

- Seafile calls (library lookup, upload, directory listing, remove, decrypt): foreign network calls. Each is replaced by the outcome it returned: success, a false result, or an exception.
- A library lookup that fails at start-up also ends the process. The constructor models only the decryption and the camera-count exits.
- Image-library work (download, decode, resize to 640x480, canvas, pixel compositing, JPEG encoding at the output quality): treated as opaque. Images are tokens of a type parameter. A fetch is a function from URL to an optional image, so the model assumes one answer per URL within a cycle.
- `Layout.Offset`: the anchor-to-pixel rule of the image library's insert call is an assumption about that library, not code of this repository. It is used only to state the tiling lemmas.
- `Layout.Downscale`: rounding the new height to the nearest pixel is an assumption about the image library's resize. The source only asks for a resize to `max_width` that keeps the aspect ratio.
- The timestamp text overlay, its font settings and its position: font rendering and date formatting. It is drawn after the resize and does not change the canvas size.
- The file name `Y-m-d-H-i-s.jpg`, the local save and `unlink`: wall-clock formatting and filesystem effects.
- `sleep`: the cycle returns the number of seconds to sleep instead.
- Logging through Monolog and the `log_*` helpers: output only.
- Time-zone setup and the environment checks that exit when a setting is not numeric: start-up plumbing. What remains is `max_width >= 10` (`Daemon.ValidConfig`). Settings are integers, while the source accepts any numeric string, fractional ones included.
- `Daemon.Watcher.Tick`: the timer check and the mark reset take one clock reading. The source reads the clock twice for them, microseconds apart.
- Process termination (`exit(1)`, an uncaught exception): modelled as the `halted` flag of `Watcher`. Every method of `Watcher` requires a watcher that has not halted and keeps its invariant, so nothing runs on a halted watcher.
- Only the Seafile storage path exists.
