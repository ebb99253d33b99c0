/** Timeline: events placed before, at and after now on an axis, their texts below it.

    Models timeline in apps/api/internal/ai/grammar_visual_render.go. */
module Timeline {
  import opened Rows
  import opened Layout

  const LEFT: real := 52.0
  const RIGHT: real := 748.0
  const NOW_X: real := 400.0

  const MARK := Style(12.0, true, Middle, 1)
  const END := Style(13.0, false, Start, 1)
  const NAME := Style(16.0, true, Middle, 2)
  const REMARK := Style(13.0, false, Middle, 3)

  function ZoneOf(e: Event): string { if e.zone == "past" || e.zone == "future" then e.zone else "now" }

  function InZone(events: seq<Event>, zone: string): seq<Event> {
    if events == [] then []
    else
      var n := |events| - 1;
      InZone(events[..n], zone) + if ZoneOf(events[n]) == zone then [events[n]] else []
  }

  function Strokes(axisY: real, top: real): seq<Shape> {
    [Stroke(LEFT, axisY, RIGHT, axisY),
     Stroke(RIGHT - 6.0, axisY - 6.0, RIGHT + 4.0, axisY + 6.0),
     Stroke(NOW_X, top + 8.0, NOW_X, axisY + 14.0)]
  }

  function Axis(axisY: real, top: real): seq<Shape> {
    Strokes(axisY, top)
    + BlockShapes("NOW", NOW_X, top - 10.0, 80.0, MARK)
    + BlockShapes("Past", LEFT, axisY + 14.0, 80.0, END)
    + BlockShapes("Future", RIGHT - 60.0, axisY + 14.0, 80.0, END)
  }

  function Step(from: real, to: real, n: nat): real { (to - from) / (n + 1) as real }

  function EventX(from: real, to: real, n: nat, i: nat): real { from + Step(from, to, n) * (i + 1) as real }

  function EventWidth(from: real, to: real, n: nat): Length
    requires from <= to
  {
    var w := Step(from, to, n) * 1.8;
    if w < 170.0 then w else 170.0
  }

  /** An event, where it stands on the axis, and the width its text is wrapped to. */
  datatype Placed = Placed(event: Event, x: real, width: Length)

  function InSpan(list: seq<Event>, from: real, to: real): (placed: seq<Placed>)
    requires from <= to
    ensures |placed| == |list|
  {
    seq(|list|, i requires 0 <= i < |list| =>
      Placed(list[i], EventX(from, to, |list|, i), EventWidth(from, to, |list|)))
  }

  function Places(events: seq<Event>): seq<Placed> {
    var shown := AtMost(events, 6);
    InSpan(InZone(shown, "past"), LEFT, NOW_X - 30.0)
    + InSpan(AtMost(InZone(shown, "now"), 1), NOW_X - 80.0, NOW_X + 80.0)
    + InSpan(InZone(shown, "future"), NOW_X + 30.0, RIGHT)
  }

  // An event's name and then its note, from y.
  function EventTexts(p: Placed, y: real): Drawing {
    var name := WithBlock([], p.event.name, p.x, y, p.width, NAME);
    if Blank(p.event.note) then name else WithBlock(name.shapes, p.event.note, p.x, name.bottom + 2.0, p.width, REMARK)
  }

  function EventShapes(p: Placed, axisY: real): seq<Shape> {
    [Dot(p.x, axisY, 7.0)] + EventTexts(p, axisY + 26.0).shapes
  }

  function WithEvent(d: Drawing, p: Placed, axisY: real): Drawing {
    var low := EventTexts(p, axisY + 26.0).bottom;
    Drawing(d.shapes + EventShapes(p, axisY), if d.bottom > low then d.bottom else low)
  }

  function WithEvents(d: Drawing, list: seq<Placed>, axisY: real): Drawing {
    if list == [] then d else WithEvent(WithEvents(d, list[..|list| - 1], axisY), list[|list| - 1], axisY)
  }

  function WithTimeline(before: seq<Shape>, events: seq<Event>, top: real): Drawing {
    var axisY := top + 70.0;
    WithEvents(Drawing(before + Axis(axisY, top), axisY + 40.0), Places(events), axisY)
  }

  predicate IsTimeline(spec: Spec) { spec.kind == "timeline" && spec.events != [] }

  /** The diagram of a spec, of either kind. */
  function Diagram(spec: Spec): Drawing {
    if IsTimeline(spec) then
      var head := Header(spec);
      WithFooter(WithTimeline(head.shapes, spec.events, head.bottom + 18.0), spec)
    else PanelsDiagram(spec)
  }
}
