/**
 * A whole session of the app as a sequence of events the platform delivers
 * one at a time: status-bar pulls, presses on the trigger view, button
 * presses, due refreshes, touches on the panel, taps on its drag handle
 * (which asks the service to stop) and the panel's destruction.
 */
module Session {
  import opened Wrappers
  import opened RootShell
  import opened Commands
  import opened Device
  import opened Toggles
  import opened OverlayPanel
  import StatusBarClick
  import TriggerView

  datatype Step =
    | PullDown(ev: Option<StatusBarClick.WindowEvent>, collapse: ProcOutcome, plat: Platform, s: Surface, r: Readings)
    | TriggerTouch(action: int, plat: Platform, s: Surface, r: Readings)
    | Button(c: Capability, r: Readings, plat: Platform, write: ProcOutcome)
    | RefreshDue(r: Readings, plat: Platform)
    | PanelTouched(action: int)
    | HandleTapped
    | Destroyed

  function Apply(p: Panel, step: Step): Panel {
    match step
    case PullDown(ev, collapse, plat, s, r) => StatusBarClick.OnAccessibilityEvent(p, ev, collapse, plat, s, r)
    case TriggerTouch(action, plat, s, r) => TriggerView.OnTouch(p, action, plat, s, r).1
    case Button(c, r, plat, write) => Click(p, c, r, plat, write)
    case RefreshDue(r, plat) => FireRefresh(p, r, plat)
    case PanelTouched(action) => PanelTouch(p, action).1
    case HandleTapped => HandleTap(p)
    case Destroyed => OnDestroy(p)
  }

  function RunAll(p: Panel, steps: seq<Step>): Panel
    decreases |steps|
  {
    if steps == [] then p else RunAll(Apply(p, steps[0]), steps[1..])
  }

  /** Every single event keeps the lifecycle invariant and only appends to the command log. */
  lemma ApplyKeepsInvariant(p: Panel, step: Step)
    requires Valid(p)
    ensures Valid(Apply(p, step))
    ensures |Apply(p, step).log| >= |p.log| && Apply(p, step).log[..|p.log|] == p.log
  {
  }

  /**
   * Over any session the lifecycle invariant holds after every event (only a
   * live, running instance has a view; refreshes are queued only with a view),
   * and no command once attempted is ever dropped from the log.
   */
  lemma {:induction false} SessionKeepsInvariant(p: Panel, steps: seq<Step>)
    requires Valid(p)
    ensures Valid(RunAll(p, steps))
    ensures |RunAll(p, steps).log| >= |p.log| && RunAll(p, steps).log[..|p.log|] == p.log
    decreases |steps|
  {
    if steps != [] {
      var q := Apply(p, steps[0]);
      ApplyKeepsInvariant(p, steps[0]);
      SessionKeepsInvariant(q, steps[1..]);
      var end := RunAll(q, steps[1..]);
      assert end.log[..|p.log|] == end.log[..|q.log|][..|p.log|];
    }
  }

  /** However a session went, once the panel is destroyed it is not running and has nothing left to refresh. */
  lemma DestroyEndsSession(p: Panel, steps: seq<Step>)
    requires Valid(p)
    ensures var q := RunAll(p, steps + [Destroyed]);
      !q.running && !q.view && q.pending == []
  {
    RunAllAppend(p, steps, Destroyed);
  }

  lemma {:induction false} RunAllAppend(p: Panel, steps: seq<Step>, last: Step)
    ensures RunAll(p, steps + [last]) == Apply(RunAll(p, steps), last)
    decreases |steps|
  {
    if steps == [] {
      assert steps + [last] == [last];
    } else {
      assert (steps + [last])[1..] == steps[1..] + [last];
      RunAllAppend(Apply(p, steps[0]), steps[1..], last);
    }
  }
}
