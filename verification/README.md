# Rhythm Heaven Remix Editor: tempo changes, metadata values, pattern expansion

A Dafny model of three small pieces of the editor's timeline and entity
logic, written as immutable datatypes and pure functions over reals.

- **Tempo changes** (module `Tempo`, `tempo_change.dfy`). A tempo change
  is a tracker with a beat, a tempo in bpm, a swing and a cached anchor
  second. Scrolling over it steps the bpm by the scroll amount, times 5 with
  Control held and 0.1 with Shift held. It refuses (Kotlin `null`, here
  `None`) to push against a tempo bound the bpm is already at or beyond; otherwise
  it clamps the new bpm to 1..600. Resizing is a legacy no-op. The
  beat/second conversions compose a swing warp with a tempo conversion,
  relative to the anchor. The swing and tempo helpers are not part of this
  model: they are passed in as a `Helpers` value of four functions, and the
  round-trip lemmas take as hypotheses that each helper pair is mutually
  inverse.
- **Metadata values** (module `Metadata`, `metadata_value.dfy`). A
  metadata value is either a constant string, or a width lookup. The lookup
  scans an insertion-ordered list of (width range, string) pairs and returns
  the first whose range matches the entity's width. A single-width range
  matches within `Epsilon` = 0.0001, any other range by a closed interval
  test. With a null entity or no match, it returns the fallback string.
- **Pattern expansion** (module `Pattern`, `pattern_entity.dfy`). Building a
  pattern entity maps each cue pointer, in order, to a child created from
  the object registry. The child sits at the pattern's x + cue beat and
  y + cue track, its width is the cue duration, and it takes the cue's
  semitone if it can be repitched. The pattern's width reaches the furthest
  child end. An unknown object id and an empty cue list are errors.
  The registry is a map from object id to the entity its `createEntity` yields.

`wrappers.dfy` holds `Option`/`Result`; `entities.dfy` holds the entity
bounds and pitch shared by the last two modules.

Details of the code the model keeps:
- The constructor (`core/src/main/kotlin/io/github/chrislo27/rhre3/track/tracker/tempo/TempoChange.kt:12`) does not validate the bpm, so
  `NewTempoChange` accepts any bpm. Only `Scroll` clamps.
- `Scroll` and `CreateResizeCopy` build a new tempo change. Its anchor
  second is the field's initial value 0 (`core/src/main/kotlin/io/github/chrislo27/rhre3/track/tracker/tempo/TempoChange.kt:23`); it is not copied.
- `SecondsToBeats` passes the tempo at the queried second to the tempo
  helper, as the code does (`core/src/main/kotlin/io/github/chrislo27/rhre3/track/tracker/tempo/TempoChange.kt:48`). That tempo is always the bpm.

## Model

| member | source | states |
|---|---|---|
| Tempo.NewTempoChange | core/src/main/kotlin/io/github/chrislo27/rhre3/track/tracker/tempo/TempoChange.kt:12-23 | a new tempo change keeps the given beat, bpm and swing unvalidated, and its anchor second starts at 0 |
| Tempo.AllowsResize | core/src/main/kotlin/io/github/chrislo27/rhre3/track/tracker/tempo/TempoChange.kt:22 | a tempo change never allows resizing |
| Tempo.ScrollStep | core/src/main/kotlin/io/github/chrislo27/rhre3/track/tracker/tempo/TempoChange.kt:30 | the step is amount × (5 with Control, else 1) × (0.1 with Shift, else 1) whenever the `Int` product does not wrap; when that product does not wrap, the step also has the sign of the amount; a zero amount gives a zero step |
| Tempo.Scroll | core/src/main/kotlin/io/github/chrislo27/rhre3/track/tracker/tempo/TempoChange.kt:29-36 | a result keeps the beat and swing, gets a fresh anchor second of 0, and has a bpm equal to bpm + step clamped to [1, 600]: exactly 600 when bpm + step exceeds 600, exactly 1 when it is below 1, and bpm + step otherwise; a positive step strictly raises the bpm and a negative one strictly lowers it; amount 0 is never refused |
| Tempo.ScrollRefusesIff | core/src/main/kotlin/io/github/chrislo27/rhre3/track/tracker/tempo/TempoChange.kt:30-33 | when the `Int` product amount × multiplier does not wrap, a scroll is refused exactly when the amount is negative and the bpm is at most 1, or the amount is positive and the bpm is at least 600 |
| Tempo.ScrollStepNegates | core/src/main/kotlin/io/github/chrislo27/rhre3/track/tracker/tempo/TempoChange.kt:30 | negating the amount negates the step when neither product wraps |
| Tempo.ScrollUndo | core/src/main/kotlin/io/github/chrislo27/rhre3/track/tracker/tempo/TempoChange.kt:17-36 | for a bpm in range, an amount other than the most negative `Int` and an `Int` product amount × multiplier that does not wrap, scrolling back by the negated amount with the same keys restores the original bpm, beat and swing, if the first scroll did not clamp |
| Tempo.ScrollExamples | core/src/main/kotlin/io/github/chrislo27/rhre3/track/tracker/tempo/TempoChange.kt:29-36 | at 600 bpm an upward scroll of 1 is refused; at 120 bpm a scroll of 2 with Control and Shift gives 121 bpm |
| Tempo.CreateResizeCopy | core/src/main/kotlin/io/github/chrislo27/rhre3/track/tracker/tempo/TempoChange.kt:38-41 | the copy starts and ends at the requested beat, keeps bpm and swing, and has a fresh anchor second; ResizeCopyIgnoresWidth states that the width has no effect |
| Tempo.ResizeCopyIgnoresWidth | core/src/main/kotlin/io/github/chrislo27/rhre3/track/tracker/tempo/TempoChange.kt:38-41 | the resize copy takes the requested beat, keeps bpm and swing, is the same for every requested width, stays zero-width, cannot be resized, and is idempotent |
| Tempo.TempoAt | core/src/main/kotlin/io/github/chrislo27/rhre3/track/tracker/tempo/TempoChange.kt:57-59 | the tempo at any beat is the bpm |
| Tempo.TempoAtSeconds | core/src/main/kotlin/io/github/chrislo27/rhre3/track/tracker/tempo/TempoChange.kt:61-63 | the tempo at any second is the bpm |
| Tempo.TempoIsConstant | core/src/main/kotlin/io/github/chrislo27/rhre3/track/tracker/tempo/TempoChange.kt:57-63 | the tempo at every beat and at every second is the bpm |
| Tempo.BeatsToSeconds | core/src/main/kotlin/io/github/chrislo27/rhre3/track/tracker/tempo/TempoChange.kt:51-53 | when the helpers map a zero offset to zero, the change's own beat converts to its anchor second; BeatsRoundTrip, SecondsRoundTrip and ConversionsAreRelative state the rest |
| Tempo.SecondsToBeats | core/src/main/kotlin/io/github/chrislo27/rhre3/track/tracker/tempo/TempoChange.kt:47-49 | when the helpers map a zero offset to zero, the anchor second converts to the change's own beat; the round-trip lemmas state the rest |
| Tempo.BeatsRoundTrip | core/src/main/kotlin/io/github/chrislo27/rhre3/track/tracker/tempo/TempoChange.kt:47-53 | if linearToSwing undoes swingToLinear at the change's swing ratio and the tempo helpers' secondsToBeats undoes beatsToSeconds at its bpm, then secondsToBeats(beatsToSeconds(b)) == b |
| Tempo.SecondsRoundTrip | core/src/main/kotlin/io/github/chrislo27/rhre3/track/tracker/tempo/TempoChange.kt:47-53 | under the opposite inverse hypotheses, beatsToSeconds(secondsToBeats(s)) == s |
| Tempo.ConversionsAreRelative | core/src/main/kotlin/io/github/chrislo27/rhre3/track/tracker/tempo/TempoChange.kt:47-53 | both conversions depend only on the offset from the anchor: moving the change's beat and anchor second moves the results by the same amounts |
| Tempo.AnchorIsFixed | core/src/main/kotlin/io/github/chrislo27/rhre3/track/tracker/tempo/TempoChange.kt:47-53 | when the helpers map a zero offset to zero, the change's own beat converts to its anchor second and back |
| Metadata.Matches | core/src/main/kotlin/io/github/chrislo27/rhre3/modding/MetadataValue.kt:29-36 | every width inside the closed range matches, and a matching width lies within 0.0001 of the range; ProperRangeMatch and DegenerateRangeMatch give both directions |
| Metadata.FirstMatch | core/src/main/kotlin/io/github/chrislo27/rhre3/modding/MetadataValue.kt:28-37 | the scan finds nothing exactly when no range matches, and otherwise returns the value of a matching entry that no earlier entry precedes |
| Metadata.GetValue | core/src/main/kotlin/io/github/chrislo27/rhre3/modding/MetadataValue.kt:7-40 | a static value returns its string; a width lookup returns the fallback for a null entity, and otherwise either the fallback or one of the stored values |
| Metadata.StaticIgnoresEntity | core/src/main/kotlin/io/github/chrislo27/rhre3/modding/MetadataValue.kt:11-12 | a static value gives its string for every entity, null included |
| Metadata.FirstMatchWins | core/src/main/kotlin/io/github/chrislo27/rhre3/modding/MetadataValue.kt:28-36 | when entry i matches the entity's width and no earlier entry does, the lookup returns entry i's value |
| Metadata.NoMatchGivesElse | core/src/main/kotlin/io/github/chrislo27/rhre3/modding/MetadataValue.kt:39 | when no range matches the entity's width, the lookup returns the fallback |
| Metadata.AppendedEntries | core/src/main/kotlin/io/github/chrislo27/rhre3/modding/MetadataValue.kt:28-39 | entries after a matching entry are never consulted; after only non-matching entries, the later entries decide alone |
| Metadata.ProperRangeMatch | core/src/main/kotlin/io/github/chrislo27/rhre3/modding/MetadataValue.kt:34-35 | a range whose ends differ matches exactly the widths between its ends, both included, and a reversed range matches nothing |
| Metadata.DegenerateRangeMatch | core/src/main/kotlin/io/github/chrislo27/rhre3/modding/MetadataValue.kt:31-33 | a range whose ends are equal matches exactly the widths within 0.0001 of it, on either side, the bound included |
| Pattern.PlaceChild | core/src/main/kotlin/io/github/chrislo27/rhre3/entity/model/multipart/PatternEntity.kt:21-27 | the child keeps the created entity's id and height, sits at parent x + beat and parent y + track, is as wide as the cue duration, takes the cue's semitone only if repitchable, and ends at parent x + beat + duration |
| Pattern.ExpandCues | core/src/main/kotlin/io/github/chrislo27/rhre3/entity/model/multipart/PatternEntity.kt:20-29 | succeeds exactly when every cue's id is registered; then there is one child per cue, in cue order, each placed from its cue; otherwise it fails with the id of the first unknown cue |
| Pattern.ArgMaxRight | core/src/main/kotlin/io/github/chrislo27/rhre3/entity/model/multipart/PatternEntity.kt:31-32 | the chosen child has the largest right edge, and every earlier child's right edge is strictly smaller |
| Pattern.MaxCueEnd | core/src/main/kotlin/io/github/chrislo27/rhre3/entity/model/multipart/PatternEntity.kt:31-32 | the reference width is at least every cue's beat + duration and equals one of them |
| Pattern.Build | core/src/main/kotlin/io/github/chrislo27/rhre3/entity/model/multipart/PatternEntity.kt:15-34 | succeeds exactly when there are cues and all their ids are registered; no cues gives the empty-cache error, the first unknown id gives its not-found error; a built pattern has semitone 0, one placed child per cue in order, and bounds whose width is the largest cue beat + duration |
| Pattern.ChildrenWithinPattern | core/src/main/kotlin/io/github/chrislo27/rhre3/entity/model/multipart/PatternEntity.kt:31-32 | every child ends at or before the pattern's right edge, and some child ends exactly there |
| Pattern.BuildMovesWithParent | core/src/main/kotlin/io/github/chrislo27/rhre3/entity/model/multipart/PatternEntity.kt:22-32 | building at a moved position moves every child by the same offset and keeps the width |

## Left out

- IEEE single-precision arithmetic: `Float` is modelled as `real`. The 0.1 shift factor, the clamping, the epsilon test and the width arithmetic are exact. In the code, `x + beat + duration - x` may round, and `0.1f` is not exactly one tenth. NaN widths are not modelled.
- The swing and tempo helpers (`SwingUtils`, `TempoUtils`) are not part of this model. They are parameters, and no formula is assumed for them.
- The `Tracker` base class is not part of this model. `endBeat` is taken as beat + width, with the width fixed at 0 (`core/src/main/kotlin/io/github/chrislo27/rhre3/track/tracker/tempo/TempoChange.kt:13`).
- The `TempoChanges` container is not part of this model: the back-reference each tempo change holds, and how it recomputes anchor seconds. The anchor second is a plain field.
- The tempo label text (`core/src/main/kotlin/io/github/chrislo27/rhre3/track/tracker/tempo/TempoChange.kt:25-27`) and `getColour` (`core/src/main/kotlin/io/github/chrislo27/rhre3/track/tracker/tempo/TempoChange.kt:43-45`): these only render.
- `WidthRangeValue.REGEX` (`core/src/main/kotlin/io/github/chrislo27/rhre3/modding/MetadataValue.kt:18`): the parser that uses it is not part of this model. The ranges are modelled as a list, so the key uniqueness of the `LinkedHashMap` is not enforced; the lookup does not depend on it.
- `canBeRepitched` and `isStretchable` (`core/src/main/kotlin/io/github/chrislo27/rhre3/entity/model/multipart/PatternEntity.kt:16-17`) delegate to code that is not part of this model.
- `updateInternalCache` (`core/src/main/kotlin/io/github/chrislo27/rhre3/entity/model/multipart/PatternEntity.kt:36-38`) delegates to code that is not part of this model.
- The registry lookup and `createEntity` are modelled as one map from object id to the created entity. The remix argument and the registry's contents are not modelled.
- The error paths model Kotlin's `error(...)` exceptions as `Failure` values. The not-found message carries the id.
