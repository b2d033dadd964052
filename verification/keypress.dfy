/**
  The keyboard draw-mode switch of the drawing client
  (packages/client/src/keypress.ts): holding Shift selects straight lines,
  holding Ctrl selects circles, and letting go of both returns to freehand
  lines. A latch, `down`, ignores key repeats while a modifier is held.

  The draw mode lives on the shared data object. Key events and the tool radio
  buttons (packages/client/src/visual/tools.tsx) set it; nothing sets it at
  start, so it starts unset.
 */
module Keypress {
  import opened Wrappers

  datatype DrawMode = LINE | STRAIGHT | CIRCLE

  /** The draw mode (unset until the first key event that sets it) and the latch. */
  datatype Keys = Keys(mode: Option<DrawMode>, down: bool)

  const InitialKeys := Keys(None, false)

  /** The modifier keys a keyboard event reports as held. */
  datatype Modifiers = Modifiers(shiftKey: bool, ctrlKey: bool)

  /** `onKeyDown`: ignored while latched; otherwise Shift selects straight
      lines, else Ctrl selects circles, and either latches. Other keys do
      nothing. */
  function OnKeyDown(k: Keys, ev: Modifiers): (r: Keys)
    ensures k.down ==> r == k
    ensures !k.down && ev.shiftKey ==> r == Keys(Some(STRAIGHT), true)
    ensures !k.down && !ev.shiftKey && ev.ctrlKey ==> r == Keys(Some(CIRCLE), true)
    ensures !ev.shiftKey && !ev.ctrlKey ==> r == k
  {
    if k.down then k
    else if ev.shiftKey then Keys(Some(STRAIGHT), true)
    else if ev.ctrlKey then Keys(Some(CIRCLE), true)
    else k
  }

  /** `onKeyUp`: once neither modifier is held, freehand lines again and the
      latch opens; while one is still held, nothing changes. */
  function OnKeyUp(k: Keys, ev: Modifiers): (r: Keys)
    ensures !ev.shiftKey && !ev.ctrlKey ==> r == Keys(Some(LINE), false)
    ensures ev.shiftKey || ev.ctrlKey ==> r == k
  {
    if !ev.shiftKey && !ev.ctrlKey then Keys(Some(LINE), false) else k
  }

  datatype KeyEvent = KeyDown(mods: Modifiers) | KeyUp(mods: Modifiers)

  function OnKey(k: Keys, ev: KeyEvent): Keys
  {
    match ev
    case KeyDown(m) => OnKeyDown(k, m)
    case KeyUp(m) => OnKeyUp(k, m)
  }

  /** A run of key events from `k`. */
  function OnKeys(k: Keys, evs: seq<KeyEvent>): Keys
    decreases |evs|
  {
    if |evs| == 0 then k else OnKeys(OnKey(k, evs[0]), evs[1..])
  }

  /** The latch is closed exactly while a modifier mode is selected. */
  predicate Latched(k: Keys)
  {
    k.down <==> (k.mode == Some(STRAIGHT) || k.mode == Some(CIRCLE))
  }

  /** Every key event keeps the latch in step with the mode. */
  lemma OnKeyKeepsLatched(k: Keys, ev: KeyEvent)
    requires Latched(k)
    ensures Latched(OnKey(k, ev))
  {
  }

  /** From the start, whatever keys are pressed and released, the latch is
      closed exactly while straight lines or circles are selected. */
  lemma {:induction false} AlwaysLatched(k: Keys, evs: seq<KeyEvent>)
    requires Latched(k)
    ensures Latched(OnKeys(k, evs))
    decreases |evs|
  {
    if |evs| > 0 {
      OnKeyKeepsLatched(k, evs[0]);
      AlwaysLatched(OnKey(k, evs[0]), evs[1..]);
    }
  }

  lemma InitialLatched()
    ensures Latched(InitialKeys)
  {
  }

  /** Once latched, pressing further keys cannot switch between straight
      lines and circles; only a release of both modifiers frees the mode. */
  lemma {:induction false} LatchHoldsMode(k: Keys, evs: seq<KeyEvent>)
    requires k.down
    requires forall i :: 0 <= i < |evs| ==> evs[i].KeyDown? || evs[i].mods.shiftKey || evs[i].mods.ctrlKey
    ensures OnKeys(k, evs) == k
    decreases |evs|
  {
    if |evs| > 0 {
      assert OnKey(k, evs[0]) == k;
      LatchHoldsMode(k, evs[1..]);
    }
  }

  /** A tool radio button: assigns the mode and leaves the latch alone. */
  function OnRadio(k: Keys, m: DrawMode): (r: Keys)
    ensures r.mode == Some(m) && r.down == k.down
  {
    k.(mode := Some(m))
  }

  /** The latch invariant holds for key events only: choosing freehand lines
      on the radio while Shift is latched leaves the latch closed in line
      mode, and key-downs are then ignored. */
  lemma RadioCanBreakLatch(ev: Modifiers)
    ensures var k := OnKeyDown(InitialKeys, Modifiers(true, false));
            var k' := OnRadio(k, LINE);
            && Latched(k) && !Latched(k')
            && k'.mode == Some(LINE) && OnKeyDown(k', ev) == k'
  {
  }
}
