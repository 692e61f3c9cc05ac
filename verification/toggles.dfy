/**
 * The per-capability toggles of the overlay panel and the state reads of its
 * full refresh (`updateButtonStates`). Each toggle reads the current state,
 * issues the literal command that flips it, and decides how the panel's icon
 * follows: Wi-Fi optimistically and at once on success, everything else only
 * through a refresh scheduled after the settle delay.
 */
module Toggles {
  import opened Wrappers
  import opened KotlinText
  import opened RootShell
  import opened Commands
  import opened Device

  /** `UPDATE_DELAY_MS`: the settle delay before a scheduled refresh re-reads every state. */
  const UpdateDelayMs: nat := 1500

  /** Everything a toggle or a refresh observes: the two direct queries and the two textual reads. */
  datatype Readings = Readings(wifi: Query, bluetooth: Query, dataRead: ProcOutcome, locationRead: ProcOutcome)

  /** The short notice (toast) a toggle ends with. */
  datatype Notice =
    | Enabling
    | Disabling
    | LocationSet(mode: int)
    | ToggleFailed
    | ServiceUnavailable
    | PermissionMissing
    | StateReadFailed
    | ToggleError

  /**
   * What one toggle does: the read commands it sends, the write command (if it
   * gets that far), the icon state it shows at once (Wi-Fi only), the delay of
   * the refresh it schedules, and its notice.
   */
  datatype Toggle = Toggle(
    queries: seq<string>,
    write: Option<string>,
    optimistic: Option<bool>,
    refreshAfterMs: Option<nat>,
    notice: Notice)

  /** The commands a toggle sends, in order. */
  function Issued(t: Toggle): seq<string> {
    t.queries + (if t.write.Some? then [t.write.value] else [])
  }

  // ----- parsing the textual reads -----

  /** Mobile data is on when the trimmed answer is `1`; no answer counts as off. */
  function DataOn(out: Option<string>): bool {
    out.Some? && Trim(out.value) == "1"
  }

  /** The location mode read before a toggle: the number in the answer, or off when it is not a number. */
  function ReadMode(answer: string): int {
    ParseInt(Trim(answer)).GetOr(LocationModeOff)
  }

  /** The mode a toggle stores: high accuracy when the mode read was off, off for any other mode. */
  function NextMode(mode: int): int {
    if mode == LocationModeOff then LocationModeHighAccuracy else LocationModeOff
  }

  /** The refresh shows location on for a numeric answer other than off; no answer or no number shows off. */
  function LocationOn(out: Option<string>): bool {
    out.Some? && match ParseInt(Trim(out.value))
      case Some(mode) => mode != LocationModeOff
      case None => false
  }

  /** The refresh's Wi-Fi state: what the manager answers; an absent manager or a failing query shows off. */
  function WifiShown(q: Query): bool {
    q == Reads(true)
  }

  /** The refresh's Bluetooth state: the adapter's answer when the runtime permission allows asking, else off. */
  function BluetoothShown(q: Query, p: Platform): bool {
    q == Reads(true) && BluetoothPermitted(p)
  }

  /** The commands one full refresh sends, in order. */
  const RefreshReads: seq<string> := [DataRead, LocationRead]

  /** An answer of the output helper is already trimmed, so trimming it again changes nothing. */
  lemma AnswerIsTrimmed(out: Option<string>)
    requires out.Some? ==> NoEdgeWhitespace(out.value)
    ensures out.Some? ==> Trim(out.value) == out.value
  {
  }

  /** For an answer of the output helper, mobile data is on exactly when the answer is `1`. */
  lemma DataOnAnswer(out: Option<string>)
    requires out.Some? ==> NoEdgeWhitespace(out.value)
    ensures DataOn(out) <==> out == Some("1")
  {
    AnswerIsTrimmed(out);
  }

  /** The icons one full refresh shows: every capability recomputed from scratch. */
  function ReadIcons(r: Readings, p: Platform): (icons: map<Capability, bool>)
    ensures icons.Keys == {Wifi, MobileData, Location, Bluetooth}
    ensures icons[Wifi] <==> r.wifi == Reads(true)
    ensures icons[MobileData] <==> RunForOutput(r.dataRead) == Some("1")
    ensures icons[Location] <==>
      RunForOutput(r.locationRead).Some? && ReadMode(RunForOutput(r.locationRead).value) != LocationModeOff
    ensures icons[Bluetooth] <==> r.bluetooth == Reads(true) && BluetoothPermitted(p)
  {
    var dataOut := RunForOutput(r.dataRead);
    DataOnAnswer(dataOut);
    map[
      Wifi := WifiShown(r.wifi),
      MobileData := DataOn(dataOut),
      Location := LocationOn(RunForOutput(r.locationRead)),
      Bluetooth := BluetoothShown(r.bluetooth, p)]
  }

  /**
   * A clean location read printing a mode's decimal form: the toggle reads
   * exactly that mode, and the refresh shows on exactly when it is not off.
   */
  lemma LocationReadBack(mode: int)
    requires IntMin <= mode <= IntMax
    ensures var out := RunForOutput(CleanRead(IntToString(mode)));
      && out == Some(IntToString(mode))
      && ReadMode(out.value) == mode
      && (LocationOn(out) <==> mode != LocationModeOff)
  {
    IntToStringTrimmed(mode);
    TrimSingleLine(IntToString(mode));
    IntToStringRoundTrip(mode);
  }

  /** A clean mobile-data read printing `1` is on, and one printing `0` is off. */
  lemma DataReadExamples()
    ensures DataOn(RunForOutput(CleanRead("1")))
    ensures !DataOn(RunForOutput(CleanRead("0")))
  {
  }

  /** The location mode oscillates between off and high accuracy: two toggles from off come back to off. */
  lemma LocationOscillates(mode: int)
    ensures NextMode(LocationModeOff) == LocationModeHighAccuracy
    ensures NextMode(NextMode(LocationModeOff)) == LocationModeOff
    ensures mode != LocationModeOff ==> NextMode(mode) == LocationModeOff
    ensures NextMode(NextMode(mode)) in {LocationModeOff, LocationModeHighAccuracy}
  {
  }

  // ----- the toggles -----

  /**
   * `toggleWifi`: ask the manager, send the inverse switch; on success show the
   * new state at once, on failure schedule a full refresh instead.
   */
  function ToggleWifi(q: Query, write: ProcOutcome): (t: Toggle)
    ensures t.queries == []
    ensures t.write.Some? <==> q.Reads?
    ensures t.write.Some? ==> EffectOf(t.write.value) == Some(Effect(Wifi, !q.enabled))
    ensures t.optimistic.Some? <==> q.Reads? && RunChecked(write)
    ensures t.optimistic.Some? ==> t.optimistic.value == !q.enabled && t.refreshAfterMs.None?
    ensures t.refreshAfterMs.Some? <==> q.Reads? && !RunChecked(write)
    ensures t.refreshAfterMs.Some? ==> t.refreshAfterMs.value == UpdateDelayMs
    ensures q.Unavailable? ==> t.notice == ServiceUnavailable
  {
    match q
    case Unavailable => Toggle([], None, None, None, ServiceUnavailable)
    case Throws => Toggle([], None, None, None, ToggleError)
    case Reads(wasEnabled) =>
      var cmd := if wasEnabled then WifiDisable else WifiEnable;
      if RunChecked(write) then
        Toggle([], Some(cmd), Some(!wasEnabled), None, if wasEnabled then Disabling else Enabling)
      else
        Toggle([], Some(cmd), None, Some(UpdateDelayMs), ToggleFailed)
  }

  /**
   * `toggleMobileData`: read the setting, send the inverse switch (a failed
   * read counts as off, so it enables), and on success schedule a refresh.
   */
  function ToggleMobileData(read: ProcOutcome, write: ProcOutcome): (t: Toggle)
    ensures t.queries == [DataRead]
    ensures t.write.Some?
    ensures EffectOf(t.write.value) == Some(Effect(MobileData, RunForOutput(read) != Some("1")))
    ensures t.optimistic.None?
    ensures t.refreshAfterMs.Some? <==> RunChecked(write)
    ensures t.refreshAfterMs.Some? ==> t.refreshAfterMs.value == UpdateDelayMs
  {
    var out := RunForOutput(read);
    DataOnAnswer(out);
    var on := DataOn(out);
    var cmd := if on then DataDisable else DataEnable;
    if RunChecked(write) then
      Toggle([DataRead], Some(cmd), None, Some(UpdateDelayMs), if on then Disabling else Enabling)
    else
      Toggle([DataRead], Some(cmd), None, None, ToggleFailed)
  }

  /**
   * `toggleLocation`: read the mode; with no answer stop there. Otherwise store
   * high accuracy if the mode was off and off for any other mode (an unparsable
   * answer counts as off), and on success schedule a refresh.
   */
  function ToggleLocation(read: ProcOutcome, write: ProcOutcome): (t: Toggle)
    ensures t.queries == [LocationRead]
    ensures t.write.Some? <==> RunForOutput(read).Some?
    ensures t.write.None? ==> t.refreshAfterMs.None? && t.notice == StateReadFailed
    ensures t.write.Some? ==>
      var mode := ReadMode(RunForOutput(read).value);
      && LocationModeWritten(t.write.value)
         == Some(if mode == LocationModeOff then LocationModeHighAccuracy else LocationModeOff)
      && EffectOf(t.write.value) == Some(Effect(Location, mode == LocationModeOff))
    ensures RunForOutput(read).Some? && ParseInt(RunForOutput(read).value).None? ==>
      t.write == Some(LocationPut(LocationModeHighAccuracy))
    ensures t.write.Some? ==>
      t.write.value == "settings put secure location_mode "
        + (if ReadMode(RunForOutput(read).value) == LocationModeOff then "3" else "0")
    ensures t.optimistic.None?
    ensures t.refreshAfterMs.Some? <==> t.write.Some? && RunChecked(write)
    ensures t.refreshAfterMs.Some? ==> t.refreshAfterMs.value == UpdateDelayMs
  {
    var out := RunForOutput(read);
    if out.None? then
      Toggle([LocationRead], None, None, None, StateReadFailed)
    else
      AnswerIsTrimmed(out);
      var newMode := NextMode(ReadMode(out.value));
      LocationPutEffect(newMode);
      var cmd := LocationPut(newMode);
      if RunChecked(write) then
        Toggle([LocationRead], Some(cmd), None, Some(UpdateDelayMs), LocationSet(newMode))
      else
        Toggle([LocationRead], Some(cmd), None, None, ToggleFailed)
  }

  /**
   * `toggleBluetooth`: refuse without an adapter, then refuse on S and later
   * without the connect permission, both before any command; otherwise send
   * the inverse switch and on success schedule a refresh.
   */
  function ToggleBluetooth(q: Query, p: Platform, write: ProcOutcome): (t: Toggle)
    ensures t.queries == []
    ensures t.write.Some? <==> q.Reads? && BluetoothPermitted(p)
    ensures t.write.Some? ==> EffectOf(t.write.value) == Some(Effect(Bluetooth, !q.enabled))
    ensures q.Unavailable? ==> t.notice == ServiceUnavailable
    ensures !q.Unavailable? && !BluetoothPermitted(p) ==> t.notice == PermissionMissing
    ensures t.optimistic.None?
    ensures t.refreshAfterMs.Some? <==> t.write.Some? && RunChecked(write)
    ensures t.refreshAfterMs.Some? ==> t.refreshAfterMs.value == UpdateDelayMs
  {
    if q.Unavailable? then Toggle([], None, None, None, ServiceUnavailable)
    else if p.sdk >= SdkS && !p.bluetoothConnectGranted then Toggle([], None, None, None, PermissionMissing)
    else match q
      case Throws => Toggle([], None, None, None, ToggleError)
      case Reads(on) =>
        var cmd := if on then BluetoothDisable else BluetoothEnable;
        if RunChecked(write) then
          Toggle([], Some(cmd), None, Some(UpdateDelayMs), if on then Disabling else Enabling)
        else
          Toggle([], Some(cmd), None, None, ToggleFailed)
  }

  /**
   * The toggle behind each button. The update policy is asymmetric: Wi-Fi shows
   * the new state at once on success and refreshes only on failure; the others
   * never show anything at once and refresh only on success.
   */
  function ToggleCapability(c: Capability, r: Readings, p: Platform, write: ProcOutcome): (t: Toggle)
    ensures forall cmd | cmd in t.queries :: EffectOf(cmd).None?
    ensures c == Wifi ==> (t.optimistic.Some? <==> t.write.Some? && RunChecked(write))
    ensures c == Wifi ==> (t.refreshAfterMs.Some? <==> t.write.Some? && !RunChecked(write))
    ensures c != Wifi ==> t.optimistic.None?
    ensures c != Wifi ==> (t.refreshAfterMs.Some? <==> t.write.Some? && RunChecked(write))
    ensures t.refreshAfterMs.Some? ==> t.refreshAfterMs.value == UpdateDelayMs
    ensures t.write.Some? ==> EffectOf(t.write.value).Some? && EffectOf(t.write.value).value.capability == c
  {
    ReadsHaveNoEffect();
    match c
    case Wifi => ToggleWifi(r.wifi, write)
    case MobileData => ToggleMobileData(r.dataRead, write)
    case Location => ToggleLocation(r.locationRead, write)
    case Bluetooth => ToggleBluetooth(r.bluetooth, p, write)
  }

  /**
   * Every toggle asks for the inverse of the state a refresh taken from the
   * same readings would show, never for the state already shown; and it writes
   * nothing only when it could not learn the state (or, for Bluetooth, was not
   * allowed to).
   */
  lemma ToggleInvertsShown(c: Capability, r: Readings, p: Platform, write: ProcOutcome)
    ensures var t := ToggleCapability(c, r, p, write);
      t.write.Some? ==> EffectOf(t.write.value) == Some(Effect(c, !ReadIcons(r, p)[c]))
    ensures var t := ToggleCapability(c, r, p, write);
      t.write.None? <==>
        match c
        case Wifi => !r.wifi.Reads?
        case MobileData => false
        case Location => RunForOutput(r.locationRead).None?
        case Bluetooth => !(r.bluetooth.Reads? && BluetoothPermitted(p))
  {
  }

  /**
   * Two location toggles from off: the first stores high accuracy; when the
   * system then reports that mode, the second stores off again.
   */
  lemma LocationToggleTwiceFromOff(write1: ProcOutcome, write2: ProcOutcome)
    ensures ToggleLocation(CleanRead(IntToString(LocationModeOff)), write1).write
      == Some(LocationPut(LocationModeHighAccuracy))
    ensures ToggleLocation(CleanRead(IntToString(LocationModeHighAccuracy)), write2).write
      == Some(LocationPut(LocationModeOff))
  {
    LocationReadBack(LocationModeOff);
    LocationReadBack(LocationModeHighAccuracy);
  }
}
