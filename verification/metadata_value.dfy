/** Metadata values attached to game objects: either a constant string, or
    a string chosen by the width of the entity it describes, from an
    insertion-ordered list of width ranges with a fallback. */
module Metadata {
  import opened Wrappers
  import opened Entities

  /** Tolerance for a range that names a single width. */
  const Epsilon: real := 0.0001

  /** A closed range of widths, `start..endInclusive`. */
  datatype WidthRange = WidthRange(start: real, end: real)

  datatype MetadataValue =
    | StaticValue(value: string)
    | WidthRangeValue(elseValue: string, exactValues: seq<(WidthRange, string)>)

  function Abs(x: real): real {
    if x < 0.0 then -x else x
  }

  /** libGDX's `MathUtils.isEqual(a, b, tolerance)`. */
  predicate IsEqual(a: real, b: real, tolerance: real) {
    Abs(a - b) <= tolerance
  }

  /** Whether a width falls in a range: a single-width range by tolerance,
      any other range by the closed interval test. */
  predicate Matches(range: WidthRange, width: real)
    ensures range.start <= width <= range.end ==> Matches(range, width)
    ensures Matches(range, width) ==> range.start - Epsilon <= width <= range.end + Epsilon
  {
    if range.start == range.end then IsEqual(range.start, width, Epsilon)
    else range.start <= width <= range.end
  }

  /** Entry `i` decides the lookup: it matches, and no earlier entry does. */
  ghost predicate DecidedBy(entries: seq<(WidthRange, string)>, width: real, i: int) {
    && 0 <= i < |entries|
    && Matches(entries[i].0, width)
    && forall j :: 0 <= j < i ==> !Matches(entries[j].0, width)
  }

  /** The loop over the entries in insertion order, returning at the first
      range that matches. */
  function FirstMatch(entries: seq<(WidthRange, string)>, width: real): (r: Option<string>)
    ensures r.None? <==> forall i :: 0 <= i < |entries| ==> !Matches(entries[i].0, width)
    ensures r.Some? ==> exists i :: DecidedBy(entries, width, i) && r.value == entries[i].1
  {
    if |entries| == 0 then None
    else if Matches(entries[0].0, width) then
      assert DecidedBy(entries, width, 0);
      Some(entries[0].1)
    else
      var rest := FirstMatch(entries[1..], width);
      assert rest.Some? ==> exists i :: DecidedBy(entries, width, i) && rest.value == entries[i].1 by {
        if rest.Some? {
          var i :| DecidedBy(entries[1..], width, i) && rest.value == entries[1..][i].1;
          assert DecidedBy(entries, width, i + 1);
        }
      }
      rest
  }

  /** `getValue(entity)`; `None` stands for a null entity. */
  function GetValue(mv: MetadataValue, entity: Option<Entity>): (r: string)
    ensures mv.StaticValue? ==> r == mv.value
    ensures mv.WidthRangeValue? && entity.None? ==> r == mv.elseValue
    ensures mv.WidthRangeValue? ==>
              r == mv.elseValue || exists i :: 0 <= i < |mv.exactValues| && r == mv.exactValues[i].1
  {
    match mv
    case StaticValue(value) => value
    case WidthRangeValue(elseValue, exactValues) =>
      if entity.None? then elseValue
      else
        match FirstMatch(exactValues, entity.value.bounds.width)
        case Some(value) => value
        case None => elseValue
  }

  /** A static value ignores the entity entirely. */
  lemma StaticIgnoresEntity(value: string, e1: Option<Entity>, e2: Option<Entity>)
    ensures GetValue(StaticValue(value), e1) == GetValue(StaticValue(value), e2) == value
  {
  }

  /** The first matching entry in insertion order decides the result. */
  lemma FirstMatchWins(elseValue: string, entries: seq<(WidthRange, string)>, e: Entity, i: int)
    requires DecidedBy(entries, e.bounds.width, i)
    ensures GetValue(WidthRangeValue(elseValue, entries), Some(e)) == entries[i].1
  {
  }

  /** With no matching entry the fallback is returned. */
  lemma NoMatchGivesElse(elseValue: string, entries: seq<(WidthRange, string)>, e: Entity)
    requires forall i :: 0 <= i < |entries| ==> !Matches(entries[i].0, e.bounds.width)
    ensures GetValue(WidthRangeValue(elseValue, entries), Some(e)) == elseValue
  {
  }

  /** Entries added after a matching one are never consulted; entries added
      after only non-matching ones decide on their own. */
  lemma {:induction false} AppendedEntries(entries: seq<(WidthRange, string)>, more: seq<(WidthRange, string)>, width: real)
    ensures FirstMatch(entries, width).Some? ==>
              FirstMatch(entries + more, width) == FirstMatch(entries, width)
    ensures FirstMatch(entries, width).None? ==>
              FirstMatch(entries + more, width) == FirstMatch(more, width)
  {
    if |entries| > 0 {
      assert (entries + more)[0] == entries[0];
      assert (entries + more)[1..] == entries[1..] + more;
      AppendedEntries(entries[1..], more, width);
    } else {
      assert entries + more == more;
    }
  }

  /** A range that is not degenerate matches exactly the widths between its
      ends, both ends included; a reversed range matches nothing. */
  lemma ProperRangeMatch(range: WidthRange, width: real)
    requires range.start != range.end
    ensures Matches(range, width) <==> range.start <= width <= range.end
    ensures range.start > range.end ==> !Matches(range, width)
    ensures range.start < range.end ==> Matches(range, range.start) && Matches(range, range.end)
  {
  }

  /** A degenerate range matches exactly the widths within `Epsilon` of it,
      on either side, the bound included. */
  lemma DegenerateRangeMatch(range: WidthRange, width: real)
    requires range.start == range.end
    ensures Matches(range, width) <==> range.start - Epsilon <= width <= range.start + Epsilon
  {
  }
}
