/** A tempo change: a tracker on the tempo track that fixes the tempo (bpm)
    and swing from its beat onwards, and converts between beats and seconds
    for the stretch of the timeline it governs.

    The swing and tempo conversion helpers are not part of this model; they
    enter as a `Helpers` value of four functions, and every property that
    depends on them says which of their properties it assumes. */
module Tempo {
  import opened Wrappers

  /** The tempo bounds `scroll` keeps to. */
  const MinTempo: real := 1.0
  const MaxTempo: real := 600.0

  /** Tempo changes are instantaneous: their tracker width is always 0. */
  const TrackerWidth: real := 0.0

  /** The swing grid a tempo change warps: one beat. */
  const SwingDivision: real := 1.0

  const Int32Min: int := -0x8000_0000
  const Int32Max: int := 0x7FFF_FFFF

  /** Kotlin's `Int`. */
  type Int32 = x: int | Int32Min <= x <= Int32Max

  /** Two's-complement wrap-around of an `Int` product. */
  function Wrap32(x: int): (r: Int32)
    ensures (r - x) % 0x1_0000_0000 == 0
    ensures Int32Min <= x <= Int32Max ==> r == x
  {
    var m := x % 0x1_0000_0000;
    if m > Int32Max then m - 0x1_0000_0000 else m
  }

  /** The swing of a tempo change; `ratio` is a percentage (50 = straight). */
  datatype Swing = Swing(ratio: real)

  /** `seconds` is the cached second at which `beat` occurs. The owning
      collection recomputes it; a freshly built tempo change holds 0. */
  datatype TempoChange = TempoChange(beat: real, bpm: real, swing: Swing, seconds: real)

  /** The constructor: the anchor second starts at 0 and is not validated. */
  function NewTempoChange(beat: real, bpm: real, swing: Swing): (tc: TempoChange)
    ensures tc.beat == beat && tc.bpm == bpm && tc.swing == swing
    ensures tc.seconds == 0.0
  {
    TempoChange(beat, bpm, swing, 0.0)
  }

  function EndBeat(tc: TempoChange): real {
    tc.beat + TrackerWidth
  }

  /** Resizing tempo changes is a removed legacy feature. */
  function AllowsResize(tc: TempoChange): (r: bool)
    ensures !r
  {
    false
  }

  /** Kotlin's `coerceIn(lo, hi)`. */
  function Clamp(x: real, lo: real, hi: real): (r: real)
    requires lo <= hi
    ensures lo <= r <= hi
    ensures lo <= x <= hi ==> r == x
    ensures x < lo ==> r == lo
    ensures x > hi ==> r == hi
  {
    if x < lo then lo else if x > hi then hi else x
  }

  function Multiplier(control: bool): int {
    if control then 5 else 1
  }

  function ShiftFactor(shift: bool): real {
    if shift then 0.1 else 1.0
  }

  /** Whether the `Int` product `amount * multiplier` stays within 32 bits. */
  predicate NoOverflow(amount: Int32, control: bool) {
    Int32Min <= amount * Multiplier(control) <= Int32Max
  }

  /** The bpm step of one scroll: the multiplier is applied in `Int`
      arithmetic, the shift factor in floating point. */
  function ScrollStep(amount: Int32, control: bool, shift: bool): (step: real)
    ensures NoOverflow(amount, control) ==>
              step == (amount as real) * (Multiplier(control) as real) * ShiftFactor(shift)
    ensures NoOverflow(amount, control) ==> (step > 0.0 <==> amount > 0)
    ensures NoOverflow(amount, control) ==> (step < 0.0 <==> amount < 0)
    ensures amount == 0 ==> step == 0.0
  {
    (Wrap32(amount * Multiplier(control)) as real) * ShiftFactor(shift)
  }

  /** Scrolling over a tempo change: `None` when the step would push past a
      tempo bound the bpm is already at or beyond, otherwise a new tempo change with
      the clamped bpm. */
  function Scroll(tc: TempoChange, amount: Int32, control: bool, shift: bool): (r: Option<TempoChange>)
    ensures r.Some? ==> MinTempo <= r.value.bpm <= MaxTempo
    ensures r.Some? ==> r.value.beat == tc.beat && r.value.swing == tc.swing && r.value.seconds == 0.0
    ensures r.Some? && ScrollStep(amount, control, shift) > 0.0 ==> r.value.bpm > tc.bpm
    ensures r.Some? && ScrollStep(amount, control, shift) < 0.0 ==> r.value.bpm < tc.bpm
    ensures r.Some? && MinTempo <= tc.bpm + ScrollStep(amount, control, shift) <= MaxTempo ==>
              r.value.bpm == tc.bpm + ScrollStep(amount, control, shift)
    ensures r.Some? && tc.bpm + ScrollStep(amount, control, shift) > MaxTempo ==> r.value.bpm == MaxTempo
    ensures r.Some? && tc.bpm + ScrollStep(amount, control, shift) < MinTempo ==> r.value.bpm == MinTempo
    ensures amount == 0 ==> r.Some? && r.value.bpm == Clamp(tc.bpm, MinTempo, MaxTempo)
  {
    var change := ScrollStep(amount, control, shift);
    if (change < 0.0 && tc.bpm <= MinTempo) || (change > 0.0 && tc.bpm >= MaxTempo) then
      None
    else
      Some(NewTempoChange(tc.beat, Clamp(tc.bpm + change, MinTempo, MaxTempo), tc.swing))
  }

  /** When the `Int` product does not wrap, scroll refuses exactly when it
      pushes against a bound the bpm is already at or beyond; a zero amount
      is never refused. */
  lemma ScrollRefusesIff(tc: TempoChange, amount: Int32, control: bool, shift: bool)
    requires NoOverflow(amount, control)
    ensures Scroll(tc, amount, control, shift).None? <==>
              (amount < 0 && tc.bpm <= MinTempo) || (amount > 0 && tc.bpm >= MaxTempo)
  {
  }

  /** Negating the amount negates the step, as long as neither product
      wraps around. */
  lemma ScrollStepNegates(amount: Int32, control: bool, shift: bool)
    requires -Int32Max <= amount
    requires NoOverflow(amount, control)
    ensures NoOverflow(-amount, control)
    ensures ScrollStep(-amount, control, shift) == -ScrollStep(amount, control, shift)
  {
    var m := Multiplier(control);
    assert (-amount) * m == -(amount * m);
    assert -Int32Max <= amount * m by {
      if control {
        assert amount * m != Int32Min;
      }
    }
    assert ((-amount) as real) * (m as real) == -((amount as real) * (m as real));
  }

  /** Scrolling back by the same amount with the same keys undoes a scroll
      that did not have to clamp. */
  lemma ScrollUndo(tc: TempoChange, amount: Int32, control: bool, shift: bool)
    requires MinTempo <= tc.bpm <= MaxTempo
    requires -Int32Max <= amount
    requires NoOverflow(amount, control)
    requires MinTempo <= tc.bpm + ScrollStep(amount, control, shift) <= MaxTempo
    ensures Scroll(tc, amount, control, shift).Some?
    ensures Scroll(Scroll(tc, amount, control, shift).value, -amount, control, shift)
              == Some(NewTempoChange(tc.beat, tc.bpm, tc.swing))
  {
    ScrollStepNegates(amount, control, shift);
  }

  /** Two concrete scrolls: at the maximum tempo an upward scroll is
      refused, and two notches with Control and Shift add one bpm. */
  lemma ScrollExamples(beat: real, swing: Swing)
    ensures Scroll(NewTempoChange(beat, 600.0, swing), 1, false, false) == None
    ensures Scroll(NewTempoChange(beat, 120.0, swing), 2, true, true) == Some(NewTempoChange(beat, 121.0, swing))
  {
  }

  /** The legacy resize copy: takes the requested beat, keeps bpm and swing. */
  function CreateResizeCopy(tc: TempoChange, beat: real, width: real): (r: TempoChange)
    ensures r.beat == beat && EndBeat(r) == beat
    ensures r.bpm == tc.bpm && r.swing == tc.swing && r.seconds == 0.0
  {
    NewTempoChange(beat, tc.bpm, tc.swing)
  }

  /** The requested width has no effect: the copy is the same for every
      width, stays instantaneous, cannot be resized, and copying again is a
      no-op. */
  lemma ResizeCopyIgnoresWidth(tc: TempoChange, beat: real, w1: real, w2: real)
    ensures CreateResizeCopy(tc, beat, w1) == CreateResizeCopy(tc, beat, w2)
    ensures var c := CreateResizeCopy(tc, beat, w1);
            c.beat == beat && EndBeat(c) == beat && c.bpm == tc.bpm && c.swing == tc.swing
            && !AllowsResize(c)
    ensures CreateResizeCopy(CreateResizeCopy(tc, beat, w1), beat, w2) == CreateResizeCopy(tc, beat, w1)
  {
  }

  /** Remnants of stretchable tempo changes: the tempo is the same at every
      beat and every second. */
  function TempoAt(tc: TempoChange, beat: real): (bpm: real)
    ensures bpm == tc.bpm
  {
    tc.bpm
  }

  function TempoAtSeconds(tc: TempoChange, seconds: real): (bpm: real)
    ensures bpm == tc.bpm
  {
    tc.bpm
  }

  lemma TempoIsConstant(tc: TempoChange, b1: real, b2: real, s: real)
    ensures TempoAt(tc, b1) == TempoAt(tc, b2) == TempoAtSeconds(tc, s) == tc.bpm
  {
  }

  /** The swing and tempo helpers the conversions delegate to:
      `swingToLinear(value, ratio, division)` and its partner
      `linearToSwing`; `beatsToSeconds(beats, bpm)` and its partner
      `secondsToBeats`. */
  datatype Helpers = Helpers(
    swingToLinear: (real, real, real) -> real,
    linearToSwing: (real, real, real) -> real,
    beatsToSeconds: (real, real) -> real,
    secondsToBeats: (real, real) -> real)

  /** The swing ratio as the helpers take it: a fraction, not a percentage. */
  function SwingFraction(tc: TempoChange): real {
    tc.swing.ratio / 100.0
  }

  /** The helpers map a zero offset to zero at this tempo change's swing
      and bpm. */
  predicate ZeroFixed(h: Helpers, tc: TempoChange) {
    && h.swingToLinear(0.0, SwingFraction(tc), SwingDivision) == 0.0
    && h.linearToSwing(0.0, SwingFraction(tc), SwingDivision) == 0.0
    && h.beatsToSeconds(0.0, tc.bpm) == 0.0
    && h.secondsToBeats(0.0, tc.bpm) == 0.0
  }

  /** The second at which `beat` occurs, counted from the anchor. */
  function BeatsToSeconds(h: Helpers, tc: TempoChange, beat: real): (seconds: real)
    ensures ZeroFixed(h, tc) && beat == tc.beat ==> seconds == tc.seconds
  {
    tc.seconds
      + h.beatsToSeconds(h.swingToLinear(beat - EndBeat(tc), SwingFraction(tc), SwingDivision),
                         TempoAt(tc, beat))
  }

  /** The beat at which `seconds` occurs, counted from the tempo change. */
  function SecondsToBeats(h: Helpers, tc: TempoChange, seconds: real): (beat: real)
    ensures ZeroFixed(h, tc) && seconds == tc.seconds ==> beat == tc.beat
  {
    EndBeat(tc)
      + h.linearToSwing(h.secondsToBeats(seconds - tc.seconds, TempoAtSeconds(tc, seconds)),
                        SwingFraction(tc), SwingDivision)
  }

  /** `linearToSwing` undoes `swingToLinear` at this ratio. */
  ghost predicate SwingUndoesLinear(h: Helpers, ratio: real) {
    forall x: real :: h.linearToSwing(h.swingToLinear(x, ratio, SwingDivision), ratio, SwingDivision) == x
  }

  /** `swingToLinear` undoes `linearToSwing` at this ratio. */
  ghost predicate LinearUndoesSwing(h: Helpers, ratio: real) {
    forall x: real :: h.swingToLinear(h.linearToSwing(x, ratio, SwingDivision), ratio, SwingDivision) == x
  }

  /** `secondsToBeats` undoes `beatsToSeconds` at this tempo. */
  ghost predicate SecondsUndoBeats(h: Helpers, bpm: real) {
    forall d: real :: h.secondsToBeats(h.beatsToSeconds(d, bpm), bpm) == d
  }

  /** `beatsToSeconds` undoes `secondsToBeats` at this tempo. */
  ghost predicate BeatsUndoSeconds(h: Helpers, bpm: real) {
    forall d: real :: h.beatsToSeconds(h.secondsToBeats(d, bpm), bpm) == d
  }

  /** Converting a beat to seconds and back gives the beat, provided each
      helper pair is mutually inverse at this tempo change's swing and bpm. */
  lemma BeatsRoundTrip(h: Helpers, tc: TempoChange, beat: real)
    requires SwingUndoesLinear(h, SwingFraction(tc))
    requires SecondsUndoBeats(h, tc.bpm)
    ensures SecondsToBeats(h, tc, BeatsToSeconds(h, tc, beat)) == beat
  {
    var lin := h.swingToLinear(beat - EndBeat(tc), SwingFraction(tc), SwingDivision);
    assert h.secondsToBeats(h.beatsToSeconds(lin, tc.bpm), tc.bpm) == lin;
    assert h.linearToSwing(lin, SwingFraction(tc), SwingDivision) == beat - EndBeat(tc);
  }

  /** Converting seconds to a beat and back gives the seconds, under the
      opposite inverse hypotheses. */
  lemma SecondsRoundTrip(h: Helpers, tc: TempoChange, seconds: real)
    requires LinearUndoesSwing(h, SwingFraction(tc))
    requires BeatsUndoSeconds(h, tc.bpm)
    ensures BeatsToSeconds(h, tc, SecondsToBeats(h, tc, seconds)) == seconds
  {
    var tb := h.secondsToBeats(seconds - tc.seconds, tc.bpm);
    assert h.swingToLinear(h.linearToSwing(tb, SwingFraction(tc), SwingDivision), SwingFraction(tc), SwingDivision) == tb;
    assert h.beatsToSeconds(tb, tc.bpm) == seconds - tc.seconds;
  }

  /** The conversions are relative to the anchor: moving the tempo change
      and its anchor second moves the conversion by the same amounts. */
  lemma ConversionsAreRelative(h: Helpers, tc: TempoChange, db: real, ds: real, beat: real, seconds: real)
    ensures var moved := tc.(beat := tc.beat + db, seconds := tc.seconds + ds);
            BeatsToSeconds(h, moved, beat + db) == BeatsToSeconds(h, tc, beat) + ds
            && SecondsToBeats(h, moved, seconds + ds) == SecondsToBeats(h, tc, seconds) + db
  {
  }

  /** When the helpers map a zero offset to zero, the tempo change's own beat
      converts to its anchor second and back. */
  lemma AnchorIsFixed(h: Helpers, tc: TempoChange)
    requires ZeroFixed(h, tc)
    ensures BeatsToSeconds(h, tc, tc.beat) == tc.seconds
    ensures SecondsToBeats(h, tc, tc.seconds) == tc.beat
  {
  }
}
