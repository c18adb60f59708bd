/**
 * The rotary encoder of the ESP32 firmware,
 * firmware/esp32/esp32_micropython/Encoder.cpp: a Gray-code quadrature
 * decoder whose steps count only when two equal deltas follow each other, a
 * reset of the count after 150 ms without a step, one volume step per
 * detent towards the count, and a debounced push button.
 *
 * The pin levels and `millis()` are parameters of `update()`; `millis()` is
 * 32 bits wide, so time differences wrap modulo 2^32 (`ElapsedU32`). The
 * callbacks are recorded as the sequence of their calls.
 */
module EspEncoder {
  import opened Common

  const IDLE_RESET_MS: u32 := 150
  const BUTTON_DEBOUNCE_MS: u32 := 25

  /** `ENC_TABLE`, indexed by `(prev << 2) | curr`. */
  const ENC_TABLE: seq<int> := [0, -1, 1, 0, 1, 0, 0, -1, -1, 0, 0, 1, 0, 1, -1, 0]

  /** A two-bit reading `(CLK << 1) | DT`. */
  type Phase = p: int | 0 <= p < 4

  /** The reading of the two encoder pins, HIGH as 1. */
  function Reading(clk: bool, dt: bool): Phase
  {
    (if clk then 2 else 0) + (if dt then 1 else 0)
  }

  /** The place of a reading on the quadrature cycle 00, 10, 11, 01. */
  function CyclePlace(p: Phase): int
  {
    if p == 0 then 0 else if p == 2 then 1 else if p == 3 then 2 else 3
  }

  /** A move one place forward on the cycle counts +1, one place back -1, anything else 0. */
  function Delta(prev: Phase, curr: Phase): int
  {
    var d := (CyclePlace(curr) - CyclePlace(prev) + 4) % 4;
    if d == 1 then 1 else if d == 3 then -1 else 0
  }

  /** `ENC_TABLE[(prev << 2) | curr]`, where the shift and the OR make `prev * 4 + curr`, below 16. */
  lemma TableIsDelta(prev: Phase, curr: Phase)
    ensures ENC_TABLE[prev * 4 + curr] == Delta(prev, curr)
  {
  }

  /** Every entry is -1, 0 or 1; it is 0 without a change and when both bits change. */
  lemma DeltaValues(prev: Phase, curr: Phase)
    ensures Delta(prev, curr) in {-1, 0, 1}
    ensures prev == curr ==> Delta(prev, curr) == 0
    ensures prev + curr == 3 ==> Delta(prev, curr) == 0
  {
  }

  /** A change of exactly one bit always counts as a step. */
  lemma DeltaOneBit(prev: Phase, curr: Phase)
    requires prev != curr && prev + curr != 3
    ensures Delta(prev, curr) != 0
  {
  }

  /** Going back undoes going forward: the table is antisymmetric. */
  lemma DeltaAntisymmetric(prev: Phase, curr: Phase)
    ensures Delta(curr, prev) == -Delta(prev, curr)
  {
  }

  // ----------------------------------------------------------- the state

  /**
   * The fields `update()` reads and writes: `_lastState`, `_pendingDelta`,
   * `_position`, `_reportedPos`, `_lastDeltaTime`, `_lastVolumeSent`,
   * `_btnPressed`, `_btnStable` and `_btnLastChg`.
   */
  datatype EncState = EncState(lastState: Phase, pendingDelta: int, position: int, reportedPos: int,
                               lastDeltaTime: u32, lastVolumeSent: u32,
                               btnPressed: bool, btnStable: bool, btnLastChg: u32)

  /**
   * How the volume block is built: `ENABLE_ENCODER_VOLUME` and
   * `ENC_VOLUME_COOLDOWN_MS`, which no header of the firmware defines.
   */
  datatype VolumeConfig = VolumeConfig(enabled: bool, cooldownMs: u32)

  /** What one `update()` does: the new fields and the calls of the two callbacks. */
  datatype Update = Update(state: EncState, rotations: seq<int>, buttons: seq<bool>)

  /** Lines 30-46: the table step and the two-equal-deltas filter. */
  function Rotate(s: EncState, curr: Phase, now: u32): (r: EncState)
    ensures r.lastState == curr && r.pendingDelta in {-1, 0, 1}
    ensures r.position - s.position in {-1, 0, 1} && (r.position != s.position ==> r.pendingDelta == 0)
    ensures r.reportedPos == s.reportedPos && r.lastVolumeSent == s.lastVolumeSent
  {
    var delta := Delta(s.lastState, curr);
    var s1 := s.(lastState := curr);
    if delta != 0 then
      if delta == s.pendingDelta then s1.(lastDeltaTime := now, position := s.position + delta, pendingDelta := 0)
      else s1.(lastDeltaTime := now, pendingDelta := delta)
    else s1.(pendingDelta := 0)
  }

  /** Lines 49-53: the count is dropped after more than 150 ms without a step. */
  function IdleReset(s: EncState, now: u32): (r: EncState)
    ensures r != s ==> ElapsedU32(now, s.lastDeltaTime) > IDLE_RESET_MS && r.position == r.reportedPos == r.pendingDelta == 0
    ensures r.lastState == s.lastState && r.lastDeltaTime == s.lastDeltaTime
  {
    if ElapsedU32(now, s.lastDeltaTime) > IDLE_RESET_MS then s.(position := 0, reportedPos := 0, pendingDelta := 0)
    else s
  }

  /** Lines 55-65: one volume step towards the count once the cooldown has passed. */
  function Volume(s: EncState, now: u32, cfg: VolumeConfig, rotateCb: bool): (r: (EncState, seq<int>))
    ensures r.0.position == s.position && |r.1| <= 1
    ensures var d, d' := s.position - s.reportedPos, r.0.position - r.0.reportedPos;
      d' == d || (d > 0 && d' == d - 1) || (d < 0 && d' == d + 1)
    ensures |r.1| == 1 ==> r.1[0] == r.0.reportedPos - s.reportedPos != 0
  {
    var diff := s.position - s.reportedPos;
    if cfg.enabled && diff != 0 && ElapsedU32(now, s.lastVolumeSent) >= cfg.cooldownMs then
      var dir := if diff > 0 then 1 else -1;
      (s.(reportedPos := s.reportedPos + dir, lastVolumeSent := now), if rotateCb then [dir] else [])
    else (s, [])
  }

  /** Lines 68-76: the button, `raw` true when the switch pin reads LOW. */
  function Button(s: EncState, raw: bool, now: u32, buttonCb: bool): (r: (EncState, seq<bool>))
    ensures r.0.btnPressed == raw
    ensures r.1 == [] || (r.1 == [true] && r.0.btnStable && !s.btnStable)
  {
    var s1 := if raw != s.btnPressed then s.(btnPressed := raw, btnLastChg := now) else s;
    if s1.btnPressed != s1.btnStable && ElapsedU32(now, s1.btnLastChg) >= BUTTON_DEBOUNCE_MS then
      (s1.(btnStable := s1.btnPressed), if buttonCb && s1.btnPressed then [true] else [])
    else (s1, [])
  }

  /** `update()` with the pins reading `clk`, `dt` and `swLow` at time `now`. */
  function Step(s: EncState, clk: bool, dt: bool, swLow: bool, now: u32, cfg: VolumeConfig,
                rotateCb: bool, buttonCb: bool): (u: Update)
    ensures u.state.lastState == Reading(clk, dt) && u.state.btnPressed == swLow
    ensures |u.rotations| <= 1 && |u.buttons| <= 1
  {
    var s1 := IdleReset(Rotate(s, Reading(clk, dt), now), now);
    var v := Volume(s1, now, cfg, rotateCb);
    var b := Button(v.0, swLow, now, buttonCb);
    Update(b.0, v.1, b.1)
  }

  // ---------------------------------------------------------- properties

  /** The pending delta is always -1, 0 or 1. */
  predicate PendingValid(s: EncState)
  {
    s.pendingDelta in {-1, 0, 1}
  }

  /** `_lastState` ends as the reading of this update. */
  lemma StepKeepsReading(s: EncState, clk: bool, dt: bool, swLow: bool, now: u32, cfg: VolumeConfig,
                         rotateCb: bool, buttonCb: bool)
    ensures Step(s, clk, dt, swLow, now, cfg, rotateCb, buttonCb).state.lastState == Reading(clk, dt)
    ensures PendingValid(Step(s, clk, dt, swLow, now, cfg, rotateCb, buttonCb).state)
  {
    var s1 := Rotate(s, Reading(clk, dt), now);
    RotateFilter(s, Reading(clk, dt), now);
    var s2 := IdleReset(s1, now);
    var s3 := Volume(s2, now, cfg, rotateCb).0;
    VolumeKeeps(s2, now, cfg, rotateCb);
    ButtonKeeps(s3, swLow, now, buttonCb);
  }

  /** The volume block changes only `_reportedPos` and `_lastVolumeSent`. */
  lemma VolumeKeeps(s: EncState, now: u32, cfg: VolumeConfig, rotateCb: bool)
    ensures Volume(s, now, cfg, rotateCb).0.(reportedPos := s.reportedPos, lastVolumeSent := s.lastVolumeSent) == s
  {
  }

  /** The button block changes only the three button fields. */
  lemma ButtonKeeps(s: EncState, raw: bool, now: u32, buttonCb: bool)
    ensures Button(s, raw, now, buttonCb).0.(btnPressed := s.btnPressed, btnStable := s.btnStable, btnLastChg := s.btnLastChg) == s
  {
  }

  /**
   * Without an idle reset the count moves by at most one, and only when a
   * nonzero delta repeats the pending one, which is then cleared; a zero
   * delta clears the pending delta; a new nonzero delta becomes pending.
   */
  lemma RotateFilter(s: EncState, curr: Phase, now: u32)
    ensures var r := Rotate(s, curr, now); var delta := Delta(s.lastState, curr);
      (r.position != s.position <==> delta != 0 && delta == s.pendingDelta)
      && (r.position != s.position ==> r.position == s.position + delta && r.pendingDelta == 0)
      && (delta == 0 ==> r.pendingDelta == 0 && r.lastDeltaTime == s.lastDeltaTime)
      && (delta != 0 && delta != s.pendingDelta ==> r.pendingDelta == delta)
      && (delta != 0 ==> r.lastDeltaTime == now)
  {
    DeltaValues(s.lastState, curr);
  }

  /** A detent counts after two equal table steps in a row, starting from nothing pending. */
  lemma TwoEqualSteps(s: EncState, mid: Phase, curr: Phase, t1: u32, t2: u32)
    requires s.pendingDelta == 0 && Delta(s.lastState, mid) != 0 && Delta(mid, curr) == Delta(s.lastState, mid)
    ensures Rotate(Rotate(s, mid, t1), curr, t2).position == s.position + Delta(s.lastState, mid)
    ensures Rotate(s, mid, t1).position == s.position
  {
  }

  /** After more than 150 ms without a step the count, the reported count and the pending delta are 0. */
  lemma IdleResetClears(s: EncState, now: u32)
    ensures var r := IdleReset(s, now);
      ElapsedU32(now, s.lastDeltaTime) > IDLE_RESET_MS ==> r.position == 0 && r.reportedPos == 0 && r.pendingDelta == 0
    ensures ElapsedU32(now, s.lastDeltaTime) <= IDLE_RESET_MS ==> IdleReset(s, now) == s
  {
  }

  /** Over a whole update, the count changes by at most one unless it was reset to 0. */
  lemma StepPositionBounded(s: EncState, clk: bool, dt: bool, swLow: bool, now: u32, cfg: VolumeConfig,
                            rotateCb: bool, buttonCb: bool)
    ensures var p := Step(s, clk, dt, swLow, now, cfg, rotateCb, buttonCb).state.position;
      p == 0 || s.position - 1 <= p <= s.position + 1
  {
    var s1 := Rotate(s, Reading(clk, dt), now);
    RotateFilter(s, Reading(clk, dt), now);
    DeltaValues(s.lastState, Reading(clk, dt));
    var s2 := IdleReset(s1, now);
    var s3 := Volume(s2, now, cfg, rotateCb).0;
    VolumeKeeps(s2, now, cfg, rotateCb);
    ButtonKeeps(s3, swLow, now, buttonCb);
  }

  /** The sign of a nonzero count difference. */
  function Sign(d: int): int
  {
    if d > 0 then 1 else if d < 0 then -1 else 0
  }

  /**
   * A volume step is made exactly when the volume block is built, the count
   * differs from the reported one and the cooldown has passed; it moves the
   * reported count one step towards the count without passing it, stamps
   * the time, and gives the callback the direction.
   */
  lemma VolumeTowardsCount(s: EncState, now: u32, cfg: VolumeConfig, rotateCb: bool)
    ensures var (r, calls) := Volume(s, now, cfg, rotateCb);
      var sent := cfg.enabled && s.position != s.reportedPos && ElapsedU32(now, s.lastVolumeSent) >= cfg.cooldownMs;
      (r.reportedPos != s.reportedPos <==> sent)
      && (sent ==> r.reportedPos == s.reportedPos + Sign(s.position - s.reportedPos) && r.lastVolumeSent == now)
      && (sent ==> Sign(s.position - r.reportedPos) != -Sign(s.position - s.reportedPos))
      && (calls == if sent && rotateCb then [Sign(s.position - s.reportedPos)] else [])
      && r.position == s.position
  {
  }

  /** Two volume steps are at least the cooldown apart. */
  lemma VolumeStepsSpaced(s: EncState, t1: u32, t2: u32, cfg: VolumeConfig, rotateCb: bool)
    requires Volume(s, t1, cfg, rotateCb).0.reportedPos != s.reportedPos
    ensures var s1 := Volume(s, t1, cfg, rotateCb).0;
      Volume(s1, t2, cfg, rotateCb).0.reportedPos != s1.reportedPos ==> ElapsedU32(t2, t1) >= cfg.cooldownMs
  {
  }

  /** As built, with `ENABLE_ENCODER_VOLUME` undefined, no volume step is ever made. */
  lemma VolumeCompiledOut(s: EncState, clk: bool, dt: bool, swLow: bool, now: u32, cooldownMs: u32,
                          rotateCb: bool, buttonCb: bool)
    ensures var u := Step(s, clk, dt, swLow, now, VolumeConfig(false, cooldownMs), rotateCb, buttonCb);
      u.rotations == [] && u.state.lastVolumeSent == s.lastVolumeSent
      && (u.state.reportedPos == s.reportedPos || u.state.reportedPos == 0)
  {
    var s1 := Rotate(s, Reading(clk, dt), now);
    assert s1.reportedPos == s.reportedPos && s1.lastVolumeSent == s.lastVolumeSent;
    var s2 := IdleReset(s1, now);
    var s3 := Volume(s2, now, VolumeConfig(false, cooldownMs), rotateCb).0;
    ButtonKeeps(s3, swLow, now, buttonCb);
  }

  /**
   * The stable button state changes only when the reading has stayed the
   * same through this update for at least 25 ms, and then takes the
   * reading; the callback is called with `true` exactly on a change to
   * pressed with a callback set.
   */
  lemma ButtonDebounced(s: EncState, raw: bool, now: u32, buttonCb: bool)
    ensures var (r, calls) := Button(s, raw, now, buttonCb);
      (r.btnStable != s.btnStable <==>
         raw == s.btnPressed && raw != s.btnStable && ElapsedU32(now, s.btnLastChg) >= BUTTON_DEBOUNCE_MS)
      && (r.btnStable != s.btnStable ==> r.btnStable == raw)
      && (calls == if buttonCb && r.btnStable && !s.btnStable then [true] else [])
      && r.btnPressed == raw
  {
  }

  /** A changed reading restarts the debounce: the stable state cannot follow it in the same update. */
  lemma ButtonChangeWaits(s: EncState, raw: bool, now: u32, buttonCb: bool)
    requires raw != s.btnPressed
    ensures Button(s, raw, now, buttonCb).0.btnStable == s.btnStable
    ensures Button(s, raw, now, buttonCb).0.btnLastChg == now
  {
  }

  /** A bounce shorter than 25 ms is ignored: pressed at `t1` and released at `t2` leaves the stable state released. */
  lemma ShortPressIgnored(s: EncState, t1: u32, t2: u32, buttonCb: bool)
    requires !s.btnPressed && !s.btnStable
    ensures var (s1, c1) := Button(s, true, t1, buttonCb);
      var (s2, c2) := Button(s1, false, t2, buttonCb);
      !s2.btnStable && c1 == [] && c2 == []
  {
  }

  // ----------------------------------------------------------- the class

  /** `Encoder`: the fields `update()` works on, the callbacks, and the calls made so far. */
  class Encoder {
    var lastState: Phase
    var pendingDelta: int
    var position: int
    var reportedPos: int
    var lastDeltaTime: u32
    var lastVolumeSent: u32
    var btnPressed: bool
    var btnStable: bool
    var btnLastChg: u32
    var rotateCb: bool
    var buttonCb: bool
    const cfg: VolumeConfig
    var rotations: seq<int>
    var buttons: seq<bool>

    function State(): EncState
      reads this
    {
      EncState(lastState, pendingDelta, position, reportedPos, lastDeltaTime, lastVolumeSent,
               btnPressed, btnStable, btnLastChg)
    }

    /** A statically allocated encoder: every field 0 or false, no callback. */
    constructor(cfg: VolumeConfig)
      ensures State() == EncState(0, 0, 0, 0, 0, 0, false, false, 0)
      ensures !rotateCb && !buttonCb && this.cfg == cfg && rotations == [] && buttons == []
    {
      lastState, pendingDelta, position, reportedPos := 0, 0, 0, 0;
      lastDeltaTime, lastVolumeSent := 0, 0;
      btnPressed, btnStable, btnLastChg := false, false, 0;
      rotateCb, buttonCb := false, false;
      this.cfg := cfg;
      rotations, buttons := [], [];
    }

    /** `begin()`: the reading of the two pins and the time become the starting point. */
    method Begin(clk: bool, dt: bool, now: u32)
      modifies this`lastState, this`lastDeltaTime
      ensures State() == old(State()).(lastState := Reading(clk, dt), lastDeltaTime := now)
    {
      lastState := (if clk then 2 else 0) + (if dt then 1 else 0);
      lastDeltaTime := now;
    }

    /** `setRotateCallback(cb)`: whether `cb` is a callback or null. */
    method SetRotateCallback(present: bool)
      modifies this`rotateCb
      ensures rotateCb == present
    {
      rotateCb := present;
    }

    /** `setButtonCallback(cb)`: whether `cb` is a callback or null. */
    method SetButtonCallback(present: bool)
      modifies this`buttonCb
      ensures buttonCb == present
    {
      buttonCb := present;
    }

    /** Lines 30-46 of `update()`: the table step and the filter. */
    method RotateStep(curr: Phase, now: u32)
      modifies this`lastState, this`pendingDelta, this`position, this`lastDeltaTime
      ensures State() == Rotate(old(State()), curr, now)
    {
      var delta := ENC_TABLE[lastState * 4 + curr];
      TableIsDelta(lastState, curr);
      lastState := curr;
      if delta != 0 {
        lastDeltaTime := now;
        if delta == pendingDelta {
          position := position + delta;
          pendingDelta := 0;
        } else {
          pendingDelta := delta;
        }
      } else {
        pendingDelta := 0;
      }
    }

    /** Lines 49-53 of `update()`: the idle reset. */
    method IdleStep(now: u32)
      modifies this`position, this`reportedPos, this`pendingDelta
      ensures State() == IdleReset(old(State()), now)
    {
      if ElapsedU32(now, lastDeltaTime) > IDLE_RESET_MS {
        position := 0;
        reportedPos := 0;
        pendingDelta := 0;
      }
    }

    /** Lines 55-65 of `update()`: the volume block, present when `cfg.enabled`. */
    method VolumeStep(now: u32)
      modifies this`reportedPos, this`lastVolumeSent, this`rotations
      ensures State() == Volume(old(State()), now, cfg, rotateCb).0
      ensures rotations == old(rotations) + Volume(old(State()), now, cfg, rotateCb).1
    {
      if cfg.enabled {
        var diff := position - reportedPos;
        if diff != 0 && ElapsedU32(now, lastVolumeSent) >= cfg.cooldownMs {
          var dir := if diff > 0 then 1 else -1;
          reportedPos := reportedPos + dir;
          lastVolumeSent := now;
          if rotateCb {
            rotations := rotations + [dir];
          }
        }
      }
    }

    /** Lines 68-76 of `update()`: the button debounce, `raw` true when the switch pin reads LOW. */
    method ButtonStep(raw: bool, now: u32)
      modifies this`btnPressed, this`btnStable, this`btnLastChg, this`buttons
      ensures State() == Button(old(State()), raw, now, buttonCb).0
      ensures buttons == old(buttons) + Button(old(State()), raw, now, buttonCb).1
    {
      if raw != btnPressed {
        btnPressed := raw;
        btnLastChg := now;
      }
      if btnPressed != btnStable && ElapsedU32(now, btnLastChg) >= BUTTON_DEBOUNCE_MS {
        btnStable := btnPressed;
        if buttonCb && btnStable {
          buttons := buttons + [true];
        }
      }
    }

    /** `update()` with the pins reading `clk`, `dt` and `swLow` (the switch pin LOW) at time `now`. */
    method Update(clk: bool, dt: bool, swLow: bool, now: u32)
      modifies this`lastState, this`pendingDelta, this`position, this`reportedPos, this`lastDeltaTime,
               this`lastVolumeSent, this`btnPressed, this`btnStable, this`btnLastChg, this`rotations, this`buttons
      ensures var u := Step(old(State()), clk, dt, swLow, now, cfg, rotateCb, buttonCb);
        State() == u.state && rotations == old(rotations) + u.rotations && buttons == old(buttons) + u.buttons
    {
      var curr: Phase := (if clk then 2 else 0) + (if dt then 1 else 0);
      RotateStep(curr, now);
      IdleStep(now);
      VolumeStep(now);
      ButtonStep(swLow, now);
    }
  }
}
