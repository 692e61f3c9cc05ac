/**
 * The overlay panel service (`OverlayService`) as a sequential state machine:
 * its process-wide `isRunning` flag, whether its view is attached, the refreshes
 * queued on its UI handler, the icons it shows, and the log of every root
 * command the app has attempted. Also the gate both trigger services use to start it.
 */
module OverlayPanel {
  import opened RootShell
  import opened Commands
  import opened Device
  import opened Toggles

  /** `MotionEvent.ACTION_OUTSIDE`: a touch outside the panel's window. */
  const ActionOutside: int := 4

  /** A refresh posted to the UI handler with a delay. */
  datatype Scheduled = Refresh(delayMs: nat)

  /**
   * `alive`: a service instance exists (between `onCreate` and `onDestroy`);
   * `running`: the companion's `isRunning`; `view`: the overlay view is attached;
   * `stopRequested`: `stopSelf` was called and `onDestroy` is due;
   * `icons`: the state each button shows (a missing key is the layout's default icon);
   * `log`: every root command attempted so far, in order (including those whose `su` failed to start).
   */
  datatype Panel = Panel(
    alive: bool,
    running: bool,
    view: bool,
    stopRequested: bool,
    pending: seq<Scheduled>,
    icons: map<Capability, bool>,
    log: seq<string>)

  /** Before any service instance exists. */
  const Idle: Panel := Panel(false, false, false, false, [], map[], [])

  /**
   * The lifecycle invariant: only a live instance can be running, only a running
   * one has a view, refreshes are queued only while a view exists, and icons
   * exist only on an attached view.
   */
  predicate Valid(p: Panel) {
    && (p.running ==> p.alive)
    && (p.view ==> p.running)
    && (p.pending != [] ==> p.view)
    && (!p.view ==> p.icons == map[])
  }

  /** What the platform does when the service builds its view. */
  datatype Surface = Surface(inflates: bool, attaches: bool)

  /**
   * `updateButtonStates`: with no view nothing happens; otherwise every icon is
   * recomputed from created readings, which sends the two textual reads.
   */
  function UpdateButtonStates(p: Panel, r: Readings, plat: Platform): (q: Panel)
    ensures !p.view ==> q == p
    ensures p.view ==> q.icons.Keys == {Wifi, MobileData, Location, Bluetooth}
    ensures p.view ==> forall c :: c in q.icons ==> q.icons[c] == ReadIcons(r, plat)[c]
    ensures p.view ==> q.log == p.log + [DataRead, LocationRead]
    ensures q.(icons := p.icons, log := p.log) == p
  {
    if !p.view then p else p.(icons := ReadIcons(r, plat), log := p.log + RefreshReads)
  }

  /**
   * `onCreate`: the flag is cleared, then set only once the overlay permission
   * is confirmed. Without permission the service stops itself not running;
   * if the view cannot be built or attached it stops itself while the flag is
   * still set; otherwise the view is attached and one full refresh runs.
   */
  function OnCreate(p: Panel, plat: Platform, s: Surface, r: Readings): (q: Panel)
    ensures q.alive && Valid(q)
    ensures q.running <==> OverlayPermitted(plat)
    ensures q.view <==> OverlayPermitted(plat) && s.inflates && s.attaches
    ensures q.stopRequested <==> !q.view
    ensures q.pending == []
    ensures !q.view ==> q.log == p.log
    ensures q.view ==> q.icons.Keys == {Wifi, MobileData, Location, Bluetooth} && q.log == p.log + RefreshReads
    ensures q.view ==> q.icons == ReadIcons(r, plat)
  {
    var created := Panel(true, false, false, false, [], map[], p.log);
    if !OverlayPermitted(plat) then created.(stopRequested := true)
    else if !s.inflates || !s.attaches then created.(running := true, stopRequested := true)
    else UpdateButtonStates(created.(running := true, view := true), r, plat)
  }

  /** `onDestroy`: the flag is cleared, pending refreshes are dropped and the view is removed. */
  function OnDestroy(p: Panel): (q: Panel)
    ensures !q.alive && !q.running && !q.view && !q.stopRequested
    ensures q.pending == [] && q.log == p.log
    ensures Valid(q)
  {
    Panel(false, false, false, false, [], map[], p.log)
  }

  /**
   * A button press: the capability's toggle runs and its commands are logged;
   * Wi-Fi's icon follows at once on success, and any refresh it asks for is queued.
   * Without a view there is no button to press.
   */
  function Click(p: Panel, c: Capability, r: Readings, plat: Platform, write: ProcOutcome): (q: Panel)
    ensures !p.view ==> q == p
    ensures p.view ==> q.log == p.log + Issued(ToggleCapability(c, r, plat, write))
    ensures c != Wifi ==> q.icons == p.icons
    ensures p.view && c == Wifi && r.wifi.Reads? && RunChecked(write) ==>
      q.icons == p.icons[Wifi := !r.wifi.enabled] && q.pending == p.pending
    ensures p.view && c == Wifi && !(r.wifi.Reads? && RunChecked(write)) ==> q.icons == p.icons
    ensures q.pending == p.pending || q.pending == p.pending + [Refresh(UpdateDelayMs)]
    ensures p.view && c != Wifi ==>
      (q.pending == p.pending + [Refresh(UpdateDelayMs)] <==> ToggleCapability(c, r, plat, write).write.Some? && RunChecked(write))
    ensures p.view && c == Wifi ==>
      (q.pending == p.pending + [Refresh(UpdateDelayMs)] <==> r.wifi.Reads? && !RunChecked(write))
    ensures Valid(p) ==> Valid(q)
    ensures q.running == p.running && q.alive == p.alive && q.view == p.view
    ensures q.stopRequested == p.stopRequested
  {
    if !p.view then p
    else
      var t := ToggleCapability(c, r, plat, write);
      var icons := if t.optimistic.Some? then p.icons[c := t.optimistic.value] else p.icons;
      var pending := if t.refreshAfterMs.Some? then p.pending + [Refresh(t.refreshAfterMs.value)] else p.pending;
      p.(log := p.log + Issued(t), icons := icons, pending := pending)
  }

  /** The next queued refresh comes due: it leaves the queue and refreshes every icon if the view is still there. */
  function FireRefresh(p: Panel, r: Readings, plat: Platform): (q: Panel)
    ensures p.pending == [] ==> q == p
    ensures p.pending != [] ==> q.pending == p.pending[1..]
    ensures p.pending != [] && p.view ==> q.icons == ReadIcons(r, plat) && q.log == p.log + RefreshReads
    ensures p.pending != [] ==> q.(pending := p.pending, icons := p.icons, log := p.log) == p
    ensures Valid(p) ==> Valid(q)
  {
    if p.pending == [] then p
    else UpdateButtonStates(p.(pending := p.pending[1..]), r, plat)
  }

  /**
   * The panel's own touch listener, present only on the attached view: a touch
   * outside the panel asks the service to stop and is consumed.
   */
  function PanelTouch(p: Panel, action: int): (res: (bool, Panel))
    ensures res.0 <==> p.view && action == ActionOutside
    ensures res.0 ==> res.1 == p.(stopRequested := true)
    ensures !res.0 ==> res.1 == p
  {
    if p.view && action == ActionOutside then (true, p.(stopRequested := true)) else (false, p)
  }

  /**
   * The drag handle's click listener, present only on the attached view: a tap
   * calls `stopSelf`, so the service is due to be destroyed, and nothing else
   * changes until `onDestroy` runs.
   */
  function HandleTap(p: Panel): (q: Panel)
    ensures !p.view ==> q == p
    ensures p.view ==> q.stopRequested
    ensures q.(stopRequested := p.stopRequested) == p
    ensures Valid(p) ==> Valid(q)
  {
    if !p.view then p else p.(stopRequested := true)
  }

  /** The outcome of the start gate the trigger services share. */
  datatype StartDecision = AlreadyRunning | OverlayPermissionMissing | StartRequested

  /** `startOverlay`'s gate: nothing while the panel runs, nothing without overlay permission, else a start request. */
  function StartGate(running: bool, plat: Platform): (d: StartDecision)
    ensures d == StartRequested <==> !running && OverlayPermitted(plat)
    ensures running ==> d == AlreadyRunning
  {
    if running then AlreadyRunning
    else if !OverlayPermitted(plat) then OverlayPermissionMissing
    else StartRequested
  }

  /**
   * `startOverlay` followed by what the platform does with the request: a new
   * instance is created when none is alive; a live instance only receives
   * `onStartCommand`, which changes nothing.
   */
  function StartOverlay(p: Panel, plat: Platform, s: Surface, r: Readings): (q: Panel)
    ensures p.running ==> q == p
    ensures !OverlayPermitted(plat) ==> q == p
    ensures p.alive ==> q == p
    ensures !p.alive && !p.running && OverlayPermitted(plat) ==> q == OnCreate(p, plat, s, r) && q.running
    ensures q.log == p.log || q.log == p.log + RefreshReads
    ensures Valid(p) ==> Valid(q)
  {
    match StartGate(p.running, plat)
    case StartRequested => if p.alive then p else OnCreate(p, plat, s, r)
    case _ => p
  }

  /**
   * Starting is idempotent: a second start, whatever the platform does while
   * building the view, changes nothing, so repeated triggers build at most one
   * view and run one initial refresh.
   */
  lemma StartOverlayIdempotent(p: Panel, plat: Platform, s1: Surface, r1: Readings, s2: Surface, r2: Readings)
    ensures StartOverlay(StartOverlay(p, plat, s1, r1), plat, s2, r2) == StartOverlay(p, plat, s1, r1)
  {
  }

  /** Once destroyed, the panel has no refresh left to fire, and stopping twice is stopping once. */
  lemma DestroyCancelsRefreshes(p: Panel, r: Readings, plat: Platform)
    ensures FireRefresh(OnDestroy(p), r, plat) == OnDestroy(p)
    ensures OnDestroy(OnDestroy(p)) == OnDestroy(p)
  {
  }
}
