/**
 * The touch trigger (`TriggerService`): a transparent view as tall as the
 * status bar whose touch listener starts the overlay on a press, and the
 * bookkeeping of that view and its layout parameters.
 */
module TriggerView {
  import opened Wrappers
  import opened Device
  import opened Toggles
  import OverlayPanel

  /** `MotionEvent.ACTION_DOWN`. */
  const ActionDown: int := 0

  /**
   * `view`: the trigger view is attached; `paramsHeight`: the height held by
   * `triggerParams`, if any; `stopRequested`: `stopSelf` was called.
   */
  datatype TriggerService = TriggerService(view: bool, paramsHeight: Option<int>, stopRequested: bool)

  /**
   * What the resources say about the status bar: the identifier of
   * `status_bar_height`, the pixel size it resolves to, and the fallback
   * estimate `24 * density` (float arithmetic left abstract, already truncated).
   */
  datatype Metrics = Metrics(resourceId: int, dimension: int, fallback: int)

  /** `getStatusBarHeight`: the resource's size when the resource exists and is positive, else the fallback. */
  function StatusBarHeight(m: Metrics): (h: int)
    ensures m.resourceId > 0 && m.dimension > 0 ==> h == m.dimension
    ensures !(m.resourceId > 0 && m.dimension > 0) ==> h == m.fallback
    ensures h > 0 <==> (m.resourceId > 0 && m.dimension > 0) || m.fallback > 0
  {
    var fromResource := if m.resourceId > 0 then m.dimension else 0;
    if fromResource <= 0 then m.fallback else fromResource
  }

  /** `removeTriggerView`: afterwards neither the view nor its parameters are held. */
  function RemoveTriggerView(t: TriggerService): (u: TriggerService)
    ensures !u.view && u.paramsHeight.None?
    ensures u.stopRequested == t.stopRequested
  {
    t.(view := false, paramsHeight := None)
  }

  /**
   * `setupTriggerView`: first remove whatever view exists; then give up (and
   * stop) without overlay permission or without a positive height; otherwise
   * prepare parameters of that height and attach the view, stopping if the
   * platform refuses it (the parameters stay set in that case).
   */
  function SetupTriggerView(t: TriggerService, plat: Platform, m: Metrics, attaches: bool): (u: TriggerService)
    ensures u.view <==> OverlayPermitted(plat) && StatusBarHeight(m) > 0 && attaches
    ensures u.paramsHeight.Some? <==> OverlayPermitted(plat) && StatusBarHeight(m) > 0
    ensures u.paramsHeight.Some? ==> u.paramsHeight.value == StatusBarHeight(m) > 0
    ensures u.stopRequested <==> t.stopRequested || !u.view
  {
    var cleared := RemoveTriggerView(t);
    if !OverlayPermitted(plat) then cleared.(stopRequested := true)
    else
      var h := StatusBarHeight(m);
      if h <= 0 then cleared.(stopRequested := true)
      else if attaches then cleared.(view := true, paramsHeight := Some(h))
      else cleared.(paramsHeight := Some(h), stopRequested := true)
  }

  /** Setting up never depends on a view that was there before: apart from a pending stop, the result is the same. */
  lemma SetupReplacesExisting(t1: TriggerService, t2: TriggerService, plat: Platform, m: Metrics, attaches: bool)
    ensures SetupTriggerView(t1, plat, m, attaches).view == SetupTriggerView(t2, plat, m, attaches).view
    ensures SetupTriggerView(t1, plat, m, attaches).paramsHeight == SetupTriggerView(t2, plat, m, attaches).paramsHeight
  {
  }

  /** `onDestroy`: the trigger view is removed. */
  function OnDestroy(t: TriggerService): (u: TriggerService)
    ensures !u.view && u.paramsHeight.None?
  {
    RemoveTriggerView(t)
  }

  /**
   * The trigger view's touch listener: a press runs `startOverlay` and is
   * consumed; every other action is left alone and changes nothing.
   */
  function OnTouch(p: OverlayPanel.Panel, action: int, plat: Platform, s: OverlayPanel.Surface, r: Readings)
    : (res: (bool, OverlayPanel.Panel))
    ensures res.0 <==> action == ActionDown
    ensures action != ActionDown ==> res.1 == p
    ensures action == ActionDown ==> res.1 == OverlayPanel.StartOverlay(p, plat, s, r)
    ensures p.running ==> res.1 == p
    ensures OverlayPanel.Valid(p) ==> OverlayPanel.Valid(res.1)
  {
    if action == ActionDown then (true, OverlayPanel.StartOverlay(p, plat, s, r)) else (false, p)
  }

  /** A second press changes nothing more than the first did. */
  lemma RepeatedPressStartsOnce(
    p: OverlayPanel.Panel, plat: Platform, s1: OverlayPanel.Surface, r1: Readings, s2: OverlayPanel.Surface, r2: Readings)
    ensures var q := OnTouch(p, ActionDown, plat, s1, r1).1;
      OnTouch(q, ActionDown, plat, s2, r2).1 == q
  {
  }
}
