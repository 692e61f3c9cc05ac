/**
 * The accessibility trigger (`StatusBarClickService`): among all window events
 * it reacts only to the notification panel changing state, then tries to
 * collapse the system panel through the root shell and starts the overlay
 * whatever the collapse returned.
 */
module StatusBarClick {
  import opened Wrappers
  import opened RootShell
  import opened Commands
  import opened Device
  import opened Toggles
  import opened OverlayPanel

  /** The resource id of the system UI's notification panel. */
  const NotificationPanelResId: string := "com.android.systemui:id/notification_panel"

  /** `AccessibilityEvent.TYPE_WINDOW_STATE_CHANGED`. */
  const TypeWindowStateChanged: int := 0x20

  /** The event's source node: none, one whose access throws, or one with an optional view id. */
  datatype SourceNode = NoSource | SourceThrows | Node(viewId: Option<string>)

  datatype WindowEvent = WindowEvent(eventType: int, source: SourceNode)

  /** The only signature that counts as the user pulling the status bar down. */
  predicate PanelPulledDown(ev: Option<WindowEvent>) {
    && ev.Some?
    && ev.value.eventType == TypeWindowStateChanged
    && ev.value.source == Node(Some(NotificationPanelResId))
  }

  /**
   * `onAccessibilityEvent` together with the work it launches: every other
   * event changes nothing; a match sends the collapse command first and then
   * runs `startOverlay`, unless the collapse never returns (this helper waits
   * without a timeout).
   */
  function OnAccessibilityEvent(
    p: Panel, ev: Option<WindowEvent>, collapse: ProcOutcome, plat: Platform, s: Surface, r: Readings): (q: Panel)
    ensures !PanelPulledDown(ev) ==> q == p
    ensures PanelPulledDown(ev) ==> |q.log| > |p.log| && q.log[..|p.log|] == p.log && q.log[|p.log|] == CollapseStatusBar
    ensures PanelPulledDown(ev) && collapse.Hung? ==> q == p.(log := p.log + [CollapseStatusBar])
    ensures PanelPulledDown(ev) && !collapse.Hung? ==>
      q == StartOverlay(p.(log := p.log + [CollapseStatusBar]), plat, s, r)
    ensures PanelPulledDown(ev) && p.running ==> q == p.(log := p.log + [CollapseStatusBar])
    ensures Valid(p) ==> Valid(q)
  {
    match ev
    case None => p
    case Some(e) =>
      if e.eventType != TypeWindowStateChanged then p
      else match e.source
        case NoSource => p
        case SourceThrows => p
        case Node(id) =>
          var resourceId := id.GetOr("NO ID");
          if resourceId != NotificationPanelResId then p
          else
            var collapsing := p.(log := p.log + [CollapseStatusBar]);
            match RunUnbounded(collapse)
            case None => collapsing
            case Some(_) => StartOverlay(collapsing, plat, s, r)
  }

  /**
   * Pulling the status bar down twice starts the panel once: after the first
   * pull has started it, the second only sends another collapse command.
   */
  lemma SecondPullDownOnlyCollapses(
    p: Panel, ev: Option<WindowEvent>, plat: Platform,
    c1: ProcOutcome, s1: Surface, r1: Readings, c2: ProcOutcome, s2: Surface, r2: Readings)
    requires PanelPulledDown(ev) && !p.alive && !p.running && OverlayPermitted(plat) && !c1.Hung?
    ensures var q1 := OnAccessibilityEvent(p, ev, c1, plat, s1, r1);
      && q1.running
      && OnAccessibilityEvent(q1, ev, c2, plat, s2, r2) == q1.(log := q1.log + [CollapseStatusBar])
  {
  }
}
