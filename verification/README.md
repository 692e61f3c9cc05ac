# Quick-settings overlay panel: decision logic in Dafny

This project models the decision logic inside an Android quick-settings panel app. The app shows a floating panel with four buttons: Wi-Fi, mobile data, location and Bluetooth. Each button flips its capability by sending a command to a root (`su`) shell. The panel appears when the user pulls the status bar down, which an accessibility service detects, or when the user presses a transparent trigger view laid over the status bar.

The model covers four things:

- **Root shell results** (`RootShell`). A process outcome is one of: the call threw, the process hung, or it exited with an exit code, a flag for "exited in time" and the lines read from stderr and stdout. Three pure functions classify an outcome the way the app's three helpers do.
- **Toggles** (`Toggles`, `Commands`). For each capability, the model decides which literal command is sent and how the textual state reads are parsed. It also fixes the asymmetric icon-update policy:
  - Wi-Fi shows the new state at once on success and schedules a refresh only on failure.
  - Data, location and Bluetooth never update at once. They schedule a refresh 1500 ms later, and only on success.

  `Commands.EffectOf` interprets every command independently of how the toggles choose it. This makes "every toggle asks for the inverse of the state shown" a provable statement.
- **Panel lifecycle** (`OverlayPanel`, `Session`). The `isRunning` flag, the attached view, the queue of delayed refreshes, the icons and the log of attempted commands form a small state machine. It covers `onCreate`, `onDestroy`, button presses, due refreshes and the shared `startOverlay` gate. An invariant is proved to hold over any sequence of events.
- **Triggers** (`StatusBarClick`, `TriggerView`). The accessibility event filter sends the collapse command before starting the overlay. The trigger view's press filter starts the overlay. The module also covers the status-bar-height fallback and the trigger view's bookkeeping.

`KotlinText` models the Kotlin library behaviour the reads depend on: `Char.isWhitespace`, `String.trim`, `String.toInt` with 32-bit overflow, `Int.toString`, and the newline-joined stdout. `Device` holds the platform facts: SDK level, overlay permission, the Bluetooth connect permission, and direct state queries that may be absent or throw.

Platform calls are inputs, not behaviour. Process outcomes, query answers, whether the view inflates and attaches, and the resource metrics are all parameters. A delayed refresh is a recorded `Scheduled` entry, not a timer.

Four behaviours of the code that are easy to misread:

- The panel's boolean helper `executeRootCommand` never reads stderr. It succeeds on exit code 0 within 5 seconds even when stderr has output. Only the output helper treats a stderr line as failure (`RootShell.StderrDemotesOnlyOutput`).
- The accessibility service's helper waits for the shell with no timeout. If the collapse command never exits, `startOverlay` is never reached on that path (`StatusBarClick.OnAccessibilityEvent`).
- `onCreate` sets `isRunning` as soon as the overlay permission check passes, before the view is built. If the view then fails to build or attach, the flag stays set until `onDestroy` (`OverlayPanel.OnCreate`).
- The gate that keeps the panel single is a read-then-start of the `isRunning` flag. It is not atomic. The model is sequential, so this race is outside it.

## Model

| member | source | states |
|---|---|---|
| `KotlinText.Trim` | app/src/main/java/com/chriskinda/qs/OverlayService.kt:205 | `trim()` keeps an infix of the input with no whitespace at either edge, and everything it removes is whitespace (the JVM `isWhitespace` set) |
| `KotlinText.TrimUnique` | app/src/main/java/com/chriskinda/qs/OverlayService.kt:205 | padding a string that has no edge whitespace with whitespace on both sides and trimming gives back exactly that string |
| `KotlinText.TrimIdempotent` | app/src/main/java/com/chriskinda/qs/OverlayService.kt:143 | trimming the helper's already-trimmed output again changes nothing |
| `KotlinText.TrimIndices` | app/src/main/java/com/chriskinda/qs/OverlayService.kt:205 | the library's index scan finds indices whose outside is all whitespace, whose inside has no whitespace edge, and whose slice equals `Trim` |
| `KotlinText.TrimSingleLine` | app/src/main/java/com/chriskinda/qs/OverlayService.kt:205 | one stdout line without edge blanks, joined with its newline and trimmed, is that line |
| `KotlinText.ParseInt` | app/src/main/java/com/chriskinda/qs/OverlayService.kt:147 | `toInt()` gives a value exactly when the text after an optional `+` or `-` is a non-empty run of decimal digits and the signed value fits 32 bits; the value is that signed value. `None` stands for the `NumberFormatException` the caller catches |
| `KotlinText.ParseIntRejects` | app/src/main/java/com/chriskinda/qs/OverlayService.kt:147 | a non-digit anywhere except a leading sign makes `toInt` throw; a sign alone throws; `-0` and `+7` are numbers |
| `KotlinText.ParseIntOverflow` | app/src/main/java/com/chriskinda/qs/OverlayService.kt:147 | one past `Int.MAX_VALUE` throws, while `Int.MIN_VALUE` is read as itself |
| `KotlinText.IntToStringRoundTrip` | app/src/main/java/com/chriskinda/qs/OverlayService.kt:147 | every 32-bit mode written with `toString` into the put command is read back by `toInt` as the same number |
| `KotlinText.IntToStringTrimmed` | app/src/main/java/com/chriskinda/qs/OverlayService.kt:147 | a number's decimal form has no edge whitespace, so `trim` leaves it unchanged |
| `RootShell.RunChecked` | app/src/main/java/com/chriskinda/qs/OverlayService.kt:204 | true exactly when the process exited within the 5 s wait with exit code 0; a throw, a hang or a late exit gives false |
| `RootShell.RunForOutput` | app/src/main/java/com/chriskinda/qs/OverlayService.kt:205 | an answer exists exactly for exit 0 in time with no stderr line and stdout read to the end; it is the newline-joined stdout, trimmed, with no edge whitespace |
| `RootShell.RunUnbounded` | app/src/main/java/com/chriskinda/qs/StatusBarClickService.kt:134-157 | with no timeout, the call never returns exactly when the process hangs; otherwise it is true exactly for exit code 0 (a throw gives false) |
| `RootShell.OutputImpliesChecked` | app/src/main/java/com/chriskinda/qs/OverlayService.kt:204-205 | every outcome that yields output meets the conservative success rule `Succeeded`, and every such success passes the boolean helper |
| `RootShell.StderrDemotesOnlyOutput` | app/src/main/java/com/chriskinda/qs/OverlayService.kt:204-205 | exit 0 in time with a stderr line: the output helper fails but the boolean helper succeeds |
| `RootShell.TimeoutIsFailure` | app/src/main/java/com/chriskinda/qs/OverlayService.kt:204-205 | a process that hangs or exits after the timeout fails for both of the panel's helpers |
| `RootShell.UnboundedAgreesWithChecked` | app/src/main/java/com/chriskinda/qs/StatusBarClickService.kt:146-148 | the unbounded helper accepts whatever the bounded one accepts, and also accepts late exits, but nothing else |
| `RootShell.SingleLineOutput` | app/src/main/java/com/chriskinda/qs/OverlayService.kt:205 | a clean run printing one line without edge blanks answers with exactly that line |
| `Commands.LocationPutReadBack` | app/src/main/java/com/chriskinda/qs/OverlayService.kt:147 | the put command built from a 32-bit mode with `toString` is recognised as a location write whose number `toInt` reads back as that same mode |
| `Commands.LocationPutEffect` | app/src/main/java/com/chriskinda/qs/OverlayService.kt:147 | the put command for a 32-bit mode stores that mode, and it means "location on" exactly when the mode is not 0 |
| `Commands.ReadsHaveNoEffect` | app/src/main/java/com/chriskinda/qs/OverlayService.kt:143 | the two settings reads and the status-bar collapse switch no capability |
| `Toggles.DataOnAnswer` | app/src/main/java/com/chriskinda/qs/OverlayService.kt:143 | for an answer of the output helper, data counts as on exactly when the answer is `1`; no answer counts as off |
| `Toggles.ReadIcons` | app/src/main/java/com/chriskinda/qs/OverlayService.kt:157-189 | a refresh sets all four icons from scratch. Wi-Fi: the manager says enabled. Data: the answer is `1`. Location: an answer whose mode (0 when unparsable) is not 0. Bluetooth: the adapter says enabled and the permission allows asking (the parsing helpers `DataOn`, `ReadMode` and `LocationOn`) |
| `Toggles.LocationReadBack` | app/src/main/java/com/chriskinda/qs/OverlayService.kt:147 | a clean read printing a mode makes the toggle read that mode, and the refresh shows on exactly when it is not 0 |
| `Toggles.DataReadExamples` | app/src/main/java/com/chriskinda/qs/OverlayService.kt:176 | a read printing `1` shows data on; a read printing `0` shows it off |
| `Toggles.LocationOscillates` | app/src/main/java/com/chriskinda/qs/OverlayService.kt:43-44 | off goes to high accuracy and back to off; any other mode goes to off; two toggles always end in off or high accuracy |
| `Toggles.ToggleWifi` | app/src/main/java/com/chriskinda/qs/OverlayService.kt:118-140 | a command is sent exactly when the manager answers, and it asks for the inverse of that answer. On success the icon shows the inverse at once and no refresh is queued. On failure a 1500 ms refresh is queued and no icon changes |
| `Toggles.ToggleMobileData` | app/src/main/java/com/chriskinda/qs/OverlayService.kt:142-144 | the read is always sent, then a switch asking for the inverse of "answer is `1`" (so a failed read enables). Nothing changes at once. A 1500 ms refresh is queued exactly on success |
| `Toggles.ToggleLocation` | app/src/main/java/com/chriskinda/qs/OverlayService.kt:146-148 | with no answer, only the read is sent and no refresh is queued. Otherwise the command is exactly `settings put secure location_mode 3` when the mode read was 0 (an unparsable answer counts as 0) and `settings put secure location_mode 0` for any other mode, and a 1500 ms refresh is queued exactly on success (the mode read is `ReadMode`, the mode stored is `NextMode`) |
| `Toggles.ToggleBluetooth` | app/src/main/java/com/chriskinda/qs/OverlayService.kt:150-152 | no command without an adapter, or on S and later without the connect permission, or when the query throws. Otherwise the switch asks for the inverse state, and a 1500 ms refresh is queued exactly on success |
| `Toggles.ToggleCapability` | app/src/main/java/com/chriskinda/qs/OverlayService.kt:113 | the update policy per button: only Wi-Fi updates at once (on success) and refreshes on failure; the others refresh only on success; every write targets the pressed capability and reads switch nothing |
| `Toggles.ToggleInvertsShown` | app/src/main/java/com/chriskinda/qs/OverlayService.kt:118-189 | a toggle always asks for the inverse of what a refresh from the same readings would show. Wi-Fi and location send no write exactly when their state could not be read; Bluetooth also when not permitted; mobile data always writes |
| `Toggles.LocationToggleTwiceFromOff` | app/src/main/java/com/chriskinda/qs/OverlayService.kt:147 | from a reported 0 the toggle stores 3; once 3 is reported back, it stores 0 |
| `OverlayPanel.UpdateButtonStates` | app/src/main/java/com/chriskinda/qs/OverlayService.kt:157-160 | without a view nothing happens; with one every icon is recomputed and the two reads are logged |
| `OverlayPanel.OnCreate` | app/src/main/java/com/chriskinda/qs/OverlayService.kt:59-96 | running exactly when overlay permission holds; a view exactly when the view also inflates and attaches; otherwise stop is requested; with a view the icons are exactly those of one full refresh (`ReadIcons`) and its two reads are logged |
| `OverlayPanel.OnDestroy` | app/src/main/java/com/chriskinda/qs/OverlayService.kt:99-106 | afterwards not running, no view, no pending refresh; the command log is kept |
| `OverlayPanel.Click` | app/src/main/java/com/chriskinda/qs/OverlayService.kt:113-151 | a press logs the toggle's commands. Only Wi-Fi's icon can change, and only to the inverse on success. At most one 1500 ms refresh is queued: for Wi-Fi exactly when the manager answered and the write failed, for the others exactly when a write succeeded. A press never asks the service to stop, and the lifecycle invariant is kept |
| `OverlayPanel.FireRefresh` | app/src/main/java/com/chriskinda/qs/OverlayService.kt:134 | a due refresh leaves the queue and recomputes every icon while the view exists; apart from the queue, the icons and the logged reads nothing changes (in particular no stop is requested); with an empty queue nothing happens |
| `OverlayPanel.PanelTouch` | app/src/main/java/com/chriskinda/qs/OverlayService.kt:81 | the listener exists only on the attached view; there, only a touch outside the panel is consumed, and it asks the service to stop; any other touch, or any touch without a view, changes nothing |
| `OverlayPanel.HandleTap` | app/src/main/java/com/chriskinda/qs/OverlayService.kt:113 | with the view attached, a tap on the drag handle requests `stopSelf`; without a view nothing happens; nothing else changes and the lifecycle invariant is kept |
| `OverlayPanel.StartGate` | app/src/main/java/com/chriskinda/qs/StatusBarClickService.kt:112-131 | a start is requested exactly when the panel is not running and overlay permission holds |
| `OverlayPanel.StartOverlay` | app/src/main/java/com/chriskinda/qs/TriggerService.kt:180-199 | a running panel or missing permission means no change. From no instance with permission, the panel is created and running. At most the refresh reads are added to the log |
| `OverlayPanel.StartOverlayIdempotent` | app/src/main/java/com/chriskinda/qs/StatusBarClickService.kt:112-130 | starting twice is starting once, whatever the platform does while the view is built |
| `OverlayPanel.DestroyCancelsRefreshes` | app/src/main/java/com/chriskinda/qs/OverlayService.kt:99-105 | after destruction no refresh is left to fire, and destroying again changes nothing |
| `StatusBarClick.OnAccessibilityEvent` | app/src/main/java/com/chriskinda/qs/StatusBarClickService.kt:63-105 | only a window-state change whose source id is exactly the notification panel has an effect. The collapse command is sent first. `startOverlay` follows whatever the collapse returned, unless it never returns. While running, only the collapse is sent |
| `StatusBarClick.SecondPullDownOnlyCollapses` | app/src/main/java/com/chriskinda/qs/StatusBarClickService.kt:84-93 | after a pull-down has started the panel, a second pull-down only sends another collapse command |
| `TriggerView.StatusBarHeight` | app/src/main/java/com/chriskinda/qs/TriggerService.kt:166-177 | the resource size when the resource exists and is positive, else the fallback; positive exactly when one of the two is |
| `TriggerView.RemoveTriggerView` | app/src/main/java/com/chriskinda/qs/TriggerService.kt:149-162 | afterwards neither the view nor its parameters are held |
| `TriggerView.SetupTriggerView` | app/src/main/java/com/chriskinda/qs/TriggerService.kt:73-147 | a view exists exactly with overlay permission, a positive height and a successful attach. Parameters of that height exist exactly with permission and a positive height. Every other outcome requests a stop |
| `TriggerView.SetupReplacesExisting` | app/src/main/java/com/chriskinda/qs/TriggerService.kt:75 | setup removes any earlier view first, so its view and parameters never depend on the earlier state |
| `TriggerView.OnDestroy` | app/src/main/java/com/chriskinda/qs/TriggerService.kt:63-69 | destroying the trigger service leaves no view and no parameters |
| `TriggerView.OnTouch` | app/src/main/java/com/chriskinda/qs/TriggerService.kt:101-110 | only a press is consumed, and it runs `startOverlay`; every other action changes nothing; while the panel runs a press changes nothing |
| `TriggerView.RepeatedPressStartsOnce` | app/src/main/java/com/chriskinda/qs/TriggerService.kt:180-198 | a second press changes nothing beyond what the first did |
| `Session.ApplyKeepsInvariant` | app/src/main/java/com/chriskinda/qs/OverlayService.kt:59-106 | every event keeps the lifecycle invariant and only appends to the command log |
| `Session.SessionKeepsInvariant` | app/src/main/java/com/chriskinda/qs/OverlayService.kt:59-106 | over any sequence of events, the rule holds: only a live instance runs, only a running one has a view, and refreshes are queued only with a view. No attempted command is dropped from the log |
| `Session.DestroyEndsSession` | app/src/main/java/com/chriskinda/qs/OverlayService.kt:99-105 | however a session went, after destruction the panel is not running, has no view and has nothing queued |

## Left out

- Spawning `su`, writing the command and `exit`, flushing, `waitFor`, reading and closing the streams, and destroying the process are I/O. Only their observable outcome (`RootShell.ProcOutcome`) is modelled.
- Time is not modelled. The 5-second wait is reduced to the `inTime` flag of an exit, and a delayed refresh is a queued `Scheduled` entry with its delay.
- Work posted to the UI handler without a delay is modelled as running at once. This covers the initial refresh in `onCreate` and the Wi-Fi icon update. So are the coroutines the accessibility service launches.
- Concurrency is not modelled: the unsynchronised check-then-start on `isRunning` across the two trigger services, and refresh reads that block the UI thread for up to 5 seconds each.
- Toast texts are not modelled. A toggle's notice is reduced to the `Toggles.Notice` value.
- Window construction, layout parameters, inflation details, icon drawables and the 255/130 alpha values are out of scope. A view is a Boolean: attached or not. The layout's initial icons are unknown, so an icon not yet set by a refresh is a missing map key.
- The float arithmetic of the `24 * density` fallback height is not modelled. It is an abstract, already truncated integer in `TriggerView.Metrics`.
- `KotlinText.ParseInt`: accepts ASCII digits only. Kotlin's `toInt` also accepts other Unicode decimal digits through `Character.digit`. Settings answers are ASCII.
- `StatusBarClickService.onServiceConnected` is left out. It only sends an `echo` probe whose result is ignored and sets accessibility flags. So is the cancellation of the coroutine scope in its `onDestroy`.
- The notification channel, the foreground notification and the `START_STICKY` / `START_NOT_STICKY` restart policies are platform plumbing.
- `MainActivity.kt` is not part of this model. It only checks a permission and launches another app.
- An exception thrown by `startService` is only logged or shown as a toast in the source. The model treats a start request as delivered.
