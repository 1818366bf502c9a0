/** The canvas's mouse handling (DPanel): a press picks the first mote under
    the pointer, each drag moves the picked mote by the pointer's travel
    since the last point seen, and a release drops it. The last point seen
    is (-1, -1) while nothing is being dragged. */
module Canvas {
  import opened Motes
  import opened Registry

  /** `withinRange`: `low <= val <= high`. */
  predicate WithinRange(val: int, low: int, high: int) {
    low <= val && val <= high
  }

  /** A click at (`ex`, `ey`) lies in the closed box reaching 20 pixels
      around the mote's location. */
  predicate Hits(m: Mote, ex: int, ey: int)
    reads m
  {
    WithinRange(ex, m.x - 20, m.x + 20) && WithinRange(ey, m.y - 20, m.y + 20)
  }

  /** The position of the first listed mote a click at (`ex`, `ey`) hits,
      or -1 when it hits none. */
  function FirstHit(ms: seq<Mote>, ex: int, ey: int): (k: int)
    reads ms
    ensures -1 <= k < |ms|
    ensures k == -1 <==> forall i :: 0 <= i < |ms| ==> !Hits(ms[i], ex, ey)
    ensures k >= 0 ==> Hits(ms[k], ex, ey) && forall i :: 0 <= i < k ==> !Hits(ms[i], ex, ey)
    decreases |ms|
  {
    if |ms| == 0 then -1
    else if Hits(ms[0], ex, ey) then 0
    else
      var k := FirstHit(ms[1..], ex, ey);
      if k < 0 then -1 else k + 1
  }

  /** The move one drag applies along an axis: the new pointer coordinate
      minus the last one seen, where a last coordinate of -1 counts as
      unseen and is replaced by the new one. */
  function Delta(last: int, p: int): int {
    p - (if last == -1 then p else last)
  }

  /** The last pointer coordinate seen after the drags `ps` that follow a
      press at `start`. */
  function LastSeen(start: int, ps: seq<int>): int {
    if |ps| == 0 then start else ps[|ps| - 1]
  }

  /** How far the picked mote travels along one axis over the drags `ps`
      that follow a press at `start`: the sum of the per-drag moves. */
  function Travel(start: int, ps: seq<int>): int
    decreases |ps|
  {
    if |ps| == 0 then 0
    else
      var before := ps[..|ps| - 1];
      Travel(start, before) + Delta(LastSeen(start, before), ps[|ps| - 1])
  }

  /** The per-drag moves add up to the pointer's total displacement from
      the press point, as long as no coordinate along the way is -1. */
  lemma {:induction false} TravelTelescopes(start: int, ps: seq<int>)
    requires start != -1
    requires forall i :: 0 <= i < |ps| ==> ps[i] != -1
    ensures Travel(start, ps) == LastSeen(start, ps) - start
    decreases |ps|
  {
    if |ps| > 0 {
      var before := ps[..|ps| - 1];
      TravelTelescopes(start, before);
      assert LastSeen(start, before) != -1;
    }
  }

  /** A pointer that passes through coordinate -1 (it may leave the canvas
      while dragging) loses that step: pressed at 0 and dragged through -1
      to 5, the mote travels -1 while the pointer moved 5. */
  lemma TravelThroughSentinel()
    ensures Travel(0, [-1, 5]) == -1
    ensures LastSeen(0, [-1, 5]) - 0 == 5
  {
    assert [-1, 5][..1] == [-1];
    assert [-1][..0] == [];
  }

  class Panel {
    const doc: Document
    var lastX: int
    var lastY: int

    constructor(doc: Document)
      ensures this.doc == doc && lastX == -1 && lastY == -1
    {
      this.doc := doc;
      lastX := -1;
      lastY := -1;
    }

    /** `mousePressed`: remembers the click point and picks the first
        listed mote the click hits; a click that hits none leaves the
        selection as it was. */
    method MousePressed(ex: int, ey: int)
      modifies this`lastX, this`lastY, doc`selected
      ensures lastX == ex && lastY == ey
      ensures var k := FirstHit(doc.motes, ex, ey);
        doc.selected == if k < 0 then old(doc.selected) else doc.motes[k]
      ensures old(doc.Valid()) ==> doc.Valid()
    {
      lastX := ex;
      lastY := ey;
      var i := 0;
      while i < |doc.motes|
        invariant 0 <= i <= |doc.motes|
        invariant forall j :: 0 <= j < i ==> !Hits(doc.motes[j], ex, ey)
      {
        var model := doc.motes[i];
        if WithinRange(ex, model.x - 20, model.x + 20) && WithinRange(ey, model.y - 20, model.y + 20) {
          break;
        }
        i := i + 1;
      }
      if i < |doc.motes| {
        doc.selected := doc.motes[i];
      }
    }

    /** `mouseReleased`: drops the picked mote and forgets the last point. */
    method MouseReleased()
      modifies this`lastX, this`lastY, doc`selected
      ensures doc.selected == null
      ensures old(doc.selected) != null ==> lastX == -1 && lastY == -1
      ensures old(doc.selected) == null ==> lastX == old(lastX) && lastY == old(lastY)
      ensures old(doc.Valid()) ==> doc.Valid()
    {
      if doc.selected != null {
        doc.selected := null;
        lastX := -1;
        lastY := -1;
      }
    }

    /** `mouseDragged`: moves the picked mote by the pointer's move since
        the last point seen and remembers the new point; with nothing
        picked, nothing changes. */
    method MouseDragged(ex: int, ey: int) returns (notified: seq<ListenerId>)
      modifies this`lastX, this`lastY, doc.selected
      ensures old(doc.selected) == null ==> lastX == old(lastX) && lastY == old(lastY) && notified == []
      ensures old(doc.selected) != null ==>
        && lastX == ex && lastY == ey
        && doc.selected.x == old(doc.selected.x) + Delta(old(lastX), ex)
        && doc.selected.y == old(doc.selected.y) + Delta(old(lastY), ey)
        && notified == doc.selected.Registered()
        && doc.selected.listeners == old(doc.selected.listeners)
    {
      notified := [];
      var m := doc.selected;
      if m != null {
        if lastY == -1 {
          lastY := ey;
        }
        if lastX == -1 {
          lastX := ex;
        }
        var dx := ex - lastX;
        var dy := ey - lastY;
        lastX := ex;
        lastY := ey;
        notified := m.Move(m.x + dx, m.y + dy);
      }
    }
  }
}
