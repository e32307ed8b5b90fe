/** A pattern entity: a multipart entity that, when built, expands each cue
    pointer of its pattern into a child entity placed relative to itself,
    and takes as its width the distance to the furthest child end. */
module Pattern {
  import opened Wrappers
  import opened Entities

  /** One cue of a pattern: which object, where relative to the pattern
      (beat offset, track offset), how long, and at which semitone. */
  datatype CuePointer = CuePointer(id: string, beat: real, track: real, duration: real, semitone: int)

  /** For each known object id, the entity its `createEntity` yields. */
  type Registry = map<string, Entity>

  datatype PatternError =
    | ObjectNotFound(id: string)   // a cue names an object the registry does not know
    | NothingInInternalCache       // the pattern has no cues

  /** `internal` holds the children in cue order. */
  datatype PatternEntity = PatternEntity(bounds: Rect, semitone: int, internal: seq<Entity>)

  /** Where a cue ends, relative to the pattern's start. */
  function CueEnd(cue: CuePointer): real {
    cue.beat + cue.duration
  }

  /** The child for one cue: moved to the cue's place, stretched to its
      duration, and repitched to its semitone if it can be repitched. */
  function PlaceChild(parent: Rect, cue: CuePointer, created: Entity): (child: Entity)
    ensures PlacedFrom(parent, cue, created, child)
    ensures child.bounds.Right() == parent.x + CueEnd(cue)
  {
    var bounds := created.bounds.(x := parent.x + cue.beat, y := parent.y + cue.track, width := cue.duration);
    var pitch := if created.pitch.Repitchable? then Repitchable(cue.semitone) else created.pitch;
    created.(bounds := bounds, pitch := pitch)
  }

  /** `child` is what `created` becomes when placed for `cue` under a
      pattern whose bounds are `parent`. */
  ghost predicate PlacedFrom(parent: Rect, cue: CuePointer, created: Entity, child: Entity) {
    && child.id == created.id
    && child.bounds.x == parent.x + cue.beat
    && child.bounds.y == parent.y + cue.track
    && child.bounds.width == cue.duration
    && child.bounds.height == created.bounds.height
    && (created.pitch.Repitchable? ==> child.pitch == Repitchable(cue.semitone))
    && (created.pitch.NotRepitchable? ==> child.pitch == NotRepitchable)
  }

  /** Cue `i` is the first whose object id is unknown. */
  ghost predicate FirstMissing(cues: seq<CuePointer>, registry: Registry, i: int) {
    && 0 <= i < |cues|
    && cues[i].id !in registry
    && forall j :: 0 <= j < i ==> cues[j].id in registry
  }

  /** Maps the cues, in order, to children; fails at the first cue whose
      object id is unknown. */
  function ExpandCues(parent: Rect, cues: seq<CuePointer>, registry: Registry): (r: Result<seq<Entity>, PatternError>)
    ensures r.Success? <==> forall i :: 0 <= i < |cues| ==> cues[i].id in registry
    ensures r.Success? ==> |r.value| == |cues|
    ensures r.Success? ==> forall i :: 0 <= i < |cues| ==>
              PlacedFrom(parent, cues[i], registry[cues[i].id], r.value[i])
    ensures r.Failure? ==> exists i :: FirstMissing(cues, registry, i) && r.error == ObjectNotFound(cues[i].id)
  {
    if |cues| == 0 then Success([])
    else if cues[0].id !in registry then
      assert FirstMissing(cues, registry, 0);
      Failure(ObjectNotFound(cues[0].id))
    else
      var rest := ExpandCues(parent, cues[1..], registry);
      if rest.Failure? then
        assert exists i :: FirstMissing(cues, registry, i) && rest.error == ObjectNotFound(cues[i].id) by {
          var i :| FirstMissing(cues[1..], registry, i) && rest.error == ObjectNotFound(cues[1..][i].id);
          assert FirstMissing(cues, registry, i + 1);
        }
        Failure(rest.error)
      else
        var children := [PlaceChild(parent, cues[0], registry[cues[0].id])] + rest.value;
        assert forall i :: 1 <= i < |cues| ==> children[i] == rest.value[i - 1] && cues[i] == cues[1..][i - 1];
        Success(children)
  }

  /** Kotlin's `maxBy { it.bounds.x + it.bounds.width }`: a left-to-right
      scan that replaces the best only on a strictly larger right edge, so
      the first of several maximal children is chosen. */
  function ArgMaxRight(children: seq<Entity>): (k: nat)
    requires |children| > 0
    ensures k < |children|
    ensures forall j :: 0 <= j < |children| ==> children[j].bounds.Right() <= children[k].bounds.Right()
    ensures forall j :: 0 <= j < k ==> children[j].bounds.Right() < children[k].bounds.Right()
  {
    if |children| == 1 then 0
    else
      var last := |children| - 1;
      var best := ArgMaxRight(children[..last]);
      assert forall j :: 0 <= j < last ==> children[..last][j] == children[j];
      if children[last].bounds.Right() > children[best].bounds.Right() then last else best
  }

  /** The furthest cue end, as an independent reference for the width. */
  function MaxCueEnd(cues: seq<CuePointer>): (m: real)
    requires |cues| > 0
    ensures forall j :: 0 <= j < |cues| ==> CueEnd(cues[j]) <= m
    ensures exists j :: 0 <= j < |cues| && CueEnd(cues[j]) == m
  {
    if |cues| == 1 then CueEnd(cues[0])
    else
      var rest := MaxCueEnd(cues[1..]);
      assert forall j :: 1 <= j < |cues| ==> cues[j] == cues[1..][j - 1];
      assert exists j :: 0 <= j < |cues| && CueEnd(cues[j]) == rest by {
        var j :| 0 <= j < |cues[1..]| && CueEnd(cues[1..][j]) == rest;
        assert cues[j + 1] == cues[1..][j];
      }
      if CueEnd(cues[0]) >= rest then CueEnd(cues[0]) else rest
  }

  /** The pattern's `init`: a fresh pattern has semitone 0, its children
      come from the cues, and its width reaches the furthest child end. */
  function Build(parent: Rect, cues: seq<CuePointer>, registry: Registry): (r: Result<PatternEntity, PatternError>)
    ensures r.Success? <==> |cues| > 0 && forall i :: 0 <= i < |cues| ==> cues[i].id in registry
    ensures |cues| == 0 ==> r == Failure(NothingInInternalCache)
    ensures forall i :: FirstMissing(cues, registry, i) ==> r == Failure(ObjectNotFound(cues[i].id))
    ensures r.Success? ==>
              && r.value.semitone == 0
              && |r.value.internal| == |cues|
              && (forall i :: 0 <= i < |cues| ==>
                    PlacedFrom(parent, cues[i], registry[cues[i].id], r.value.internal[i]))
              && r.value.bounds == parent.(width := MaxCueEnd(cues))
  {
    var internal :- ExpandCues(parent, cues, registry);
    if |internal| == 0 then
      Failure(NothingInInternalCache)
    else
      var k := ArgMaxRight(internal);
      var width := internal[k].bounds.Right() - parent.x;
      assert width == MaxCueEnd(cues) by {
        assert forall j :: 0 <= j < |cues| ==> internal[j].bounds.Right() == parent.x + CueEnd(cues[j]);
        var j0 :| 0 <= j0 < |cues| && CueEnd(cues[j0]) == MaxCueEnd(cues);
        assert internal[j0].bounds.Right() <= internal[k].bounds.Right();
      }
      Success(PatternEntity(parent.(width := width), 0, internal))
  }

  /** Every child ends within the pattern, and some child ends exactly at
      the pattern's right edge. */
  lemma ChildrenWithinPattern(parent: Rect, cues: seq<CuePointer>, registry: Registry)
    requires Build(parent, cues, registry).Success?
    ensures var p := Build(parent, cues, registry).value;
            && (forall i :: 0 <= i < |p.internal| ==> p.internal[i].bounds.Right() <= p.bounds.Right())
            && (exists i :: 0 <= i < |p.internal| && p.internal[i].bounds.Right() == p.bounds.Right())
  {
  }

  /** Building a pattern elsewhere moves every child by the same offset and
      leaves the width unchanged. */
  lemma BuildMovesWithParent(parent: Rect, dx: real, dy: real, cues: seq<CuePointer>, registry: Registry)
    requires Build(parent, cues, registry).Success?
    ensures var moved := parent.(x := parent.x + dx, y := parent.y + dy);
            var p := Build(parent, cues, registry).value;
            var q := Build(moved, cues, registry).value;
            && Build(moved, cues, registry).Success?
            && q.bounds.width == p.bounds.width
            && |q.internal| == |p.internal|
            && (forall i :: 0 <= i < |p.internal| ==>
                  q.internal[i].bounds == p.internal[i].bounds.(x := p.internal[i].bounds.x + dx, y := p.internal[i].bounds.y + dy))
  {
    var moved := parent.(x := parent.x + dx, y := parent.y + dy);
    var p := Build(parent, cues, registry).value;
    var q := Build(moved, cues, registry).value;
    forall i | 0 <= i < |p.internal|
      ensures q.internal[i].bounds == p.internal[i].bounds.(x := p.internal[i].bounds.x + dx, y := p.internal[i].bounds.y + dy)
    {
      assert PlacedFrom(parent, cues[i], registry[cues[i].id], p.internal[i]);
      assert PlacedFrom(moved, cues[i], registry[cues[i].id], q.internal[i]);
    }
  }
}
