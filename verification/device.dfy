/** What the panel asks the platform directly rather than through the root shell. */
module Device {

  /** `Build.VERSION_CODES.M` and `Build.VERSION_CODES.S`. */
  const SdkM: int := 23
  const SdkS: int := 31

  /** The platform facts the decisions depend on. */
  datatype Platform = Platform(sdk: int, canDrawOverlays: bool, bluetoothConnectGranted: bool)

  /**
   * A direct state query (`WifiManager.isWifiEnabled`, `BluetoothAdapter.isEnabled`):
   * the manager or adapter is absent, the query throws, or it answers.
   */
  datatype Query = Unavailable | Throws | Reads(enabled: bool)

  /** Drawing overlays is allowed: granted by default before Android M, otherwise by the user. */
  predicate OverlayPermitted(p: Platform) {
    p.sdk < SdkM || p.canDrawOverlays
  }

  /** The Bluetooth runtime permission is held, or the OS is older than S and does not ask for it. */
  predicate BluetoothPermitted(p: Platform) {
    p.sdk < SdkS || p.bluetoothConnectGranted
  }
}
