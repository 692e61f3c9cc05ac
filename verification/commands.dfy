/**
 * The literal shell commands the panel sends as root, and what each write
 * command asks of the system. The interpretation `EffectOf` is independent of
 * how the toggles pick their commands, so the toggles can be checked against it.
 */
module Commands {
  import opened Wrappers
  import opened KotlinText

  /** The four device facilities the panel switches. */
  datatype Capability = Wifi | MobileData | Location | Bluetooth

  const WifiEnable: string := "svc wifi enable"
  const WifiDisable: string := "svc wifi disable"
  const DataEnable: string := "svc data enable"
  const DataDisable: string := "svc data disable"
  const BluetoothEnable: string := "svc bluetooth enable"
  const BluetoothDisable: string := "svc bluetooth disable"
  const DataRead: string := "settings get global mobile_data"
  const LocationRead: string := "settings get secure location_mode"
  const LocationPutPrefix: string := "settings put secure location_mode "
  const CollapseStatusBar: string := "service call statusbar 2"

  /** `Settings.Secure.LOCATION_MODE_OFF` and `LOCATION_MODE_HIGH_ACCURACY`. */
  const LocationModeOff: int := 0
  const LocationModeHighAccuracy: int := 3

  /** The command that stores `mode` as the location mode, the number written by `Int.toString`. */
  function LocationPut(mode: int): string {
    LocationPutPrefix + IntToString(mode)
  }

  /** What a write command asks for: the capability it drives and whether it switches it on. */
  datatype Effect = Effect(capability: Capability, on: bool)

  /** The mode stored by a `settings put secure location_mode` command, when `cmd` is one. */
  function LocationModeWritten(cmd: string): Option<int> {
    var n := |LocationPutPrefix|;
    if n <= |cmd| && cmd[..n] == LocationPutPrefix then ParseInt(cmd[n..]) else None
  }

  /**
   * The system-side meaning of a command: the `svc` switches turn their radio
   * on or off, and a stored location mode means "on" unless it is off.
   * Reads and the status-bar collapse change no capability.
   */
  function EffectOf(cmd: string): Option<Effect> {
    if cmd == WifiEnable then Some(Effect(Wifi, true))
    else if cmd == WifiDisable then Some(Effect(Wifi, false))
    else if cmd == DataEnable then Some(Effect(MobileData, true))
    else if cmd == DataDisable then Some(Effect(MobileData, false))
    else if cmd == BluetoothEnable then Some(Effect(Bluetooth, true))
    else if cmd == BluetoothDisable then Some(Effect(Bluetooth, false))
    else match LocationModeWritten(cmd)
      case Some(m) => Some(Effect(Location, m != LocationModeOff))
      case None => None
  }

  /** The put command for a 32-bit mode is recognised as one, and its number reads back as that mode. */
  lemma LocationPutReadBack(mode: int)
    requires IntMin <= mode <= IntMax
    ensures LocationModeWritten(LocationPut(mode)) == Some(mode)
  {
    var cmd := LocationPut(mode);
    var n := |LocationPutPrefix|;
    assert cmd[..n] == LocationPutPrefix;
    assert cmd[n..] == IntToString(mode);
    IntToStringRoundTrip(mode);
  }

  /** No put command is one of the `svc` switches: their tenth characters differ. */
  lemma LocationPutIsNoSwitch(mode: int)
    ensures LocationPut(mode) !in {WifiEnable, WifiDisable, DataEnable, DataDisable, BluetoothEnable, BluetoothDisable}
  {
    assert LocationPut(mode)[9] == 'p';
    assert WifiEnable[9] != 'p' && DataEnable[9] != 'p' && BluetoothEnable[9] != 'p';
    assert WifiDisable[9] != 'p' && DataDisable[9] != 'p' && BluetoothDisable[9] != 'p';
  }

  /** Storing a 32-bit mode is read back as that mode, and means "on" exactly when the mode is not off. */
  lemma LocationPutEffect(mode: int)
    requires IntMin <= mode <= IntMax
    ensures LocationModeWritten(LocationPut(mode)) == Some(mode)
    ensures EffectOf(LocationPut(mode)) == Some(Effect(Location, mode != LocationModeOff))
  {
    LocationPutReadBack(mode);
    LocationPutIsNoSwitch(mode);
  }

  /** The commands that only read state, and the collapse, ask nothing of any capability. */
  lemma ReadsHaveNoEffect()
    ensures EffectOf(DataRead) == None
    ensures EffectOf(LocationRead) == None
    ensures EffectOf(CollapseStatusBar) == None
  {
  }
}
