/**
 What whole gestures send: one finger tapping or dragging, two fingers scrolling or tapping.
 */
module TouchGestures {
  import opened Options
  import opened TouchModel

  // ---- One finger ----

  function Buttons(outs: seq<Out>): seq<Out> {
    if outs == [] then [] else (if outs[0].Click? then [outs[0]] else []) + Buttons(outs[1..])
  }

  lemma {:induction false} ButtonsConcat(a: seq<Out>, b: seq<Out>)
    ensures Buttons(a + b) == Buttons(a) + Buttons(b)
  {
    if a == [] {
      assert a + b == b;
    } else {
      assert (a + b)[0] == a[0] && (a + b)[1..] == a[1..] + b;
      ButtonsConcat(a[1..], b);
    }
  }

  /** A run in which no screen is resized. */
  ghost predicate Steady(run: seq<Event>) {
    forall k | 0 <= k < |run| :: !run[k].ViewResized? && !run[k].RemoteResized?
  }

  lemma {:induction false} AfterParts(s: Screen, h: Handler, x: seq<Event>, y: seq<Event>)
    requires Steady(x)
    ensures After(s, h, x + y) == After(s, After(s, h, x), y)
    decreases |x|
  {
    if x == [] {
      assert x + y == y;
    } else {
      assert (x + y)[0] == x[0] && (x + y)[1..] == x[1..] + y;
      AfterParts(s, Step(s, h, x[0]).0, x[1..], y);
    }
  }

  lemma {:induction false} SentParts(s: Screen, h: Handler, x: seq<Event>, y: seq<Event>, later: seq<Out>)
    requires Steady(x) && later == Sent(s, After(s, h, x), y)
    ensures Sent(s, h, x + y) == Sent(s, h, x) + later
    decreases |x|
  {
    if x == [] {
      assert x + y == y;
    } else {
      var g, out := SentFirst(s, h, x, y);
      SentParts(s, g, x[1..], y, later);
      Reassociate(out, Sent(s, g, x[1..]), later);
    }
  }

  /** What the first event of two runs in a row leaves and sends. */
  lemma SentFirst(s: Screen, h: Handler, x: seq<Event>, y: seq<Event>) returns (g: Handler, out: seq<Out>)
    requires x != [] && Steady(x)
    ensures Steady(x[1..]) && After(s, h, x) == After(s, g, x[1..])
    ensures Sent(s, h, x) == out + Sent(s, g, x[1..]) && Sent(s, h, x + y) == out + Sent(s, g, x[1..] + y)
  {
    assert (x + y)[0] == x[0] && (x + y)[1..] == x[1..] + y;
    g, out := Step(s, h, x[0]).0, Step(s, h, x[0]).1;
  }

  lemma Reassociate(a: seq<Out>, b: seq<Out>, c: seq<Out>)
    ensures a + (b + c) == a + b + c
  {
  }

  lemma Parts(s: Screen, h: Handler, x: seq<Event>, y: seq<Event>)
    requires Steady(x)
    ensures After(s, h, x + y) == After(s, After(s, h, x), y)
    ensures Sent(s, h, x + y) == Sent(s, h, x) + Sent(s, After(s, h, x), y)
  {
    AfterParts(s, h, x, y);
    SentParts(s, h, x, y, Sent(s, After(s, h, x), y));
  }

  lemma Single(s: Screen, h: Handler, e: Event)
    requires !e.ViewResized? && !e.RemoteResized?
    ensures After(s, h, [e]) == Step(s, h, e).0 && Sent(s, h, [e]) == Step(s, h, e).1
  {
    assert [e][1..] == [];
  }

  /** The first point more than three points away from the start. */
  function FirstFar(start: Point, path: seq<Point>): Option<Point> {
    if path == [] then None
    else if Distance2(path[0], start) > 9.0 then Some(path[0])
    else FirstFar(start, path[1..])
  }

  /** The moves of finger t along a path. */
  function Dragging(t: Id, path: seq<Point>): seq<Event> {
    if path == [] then [] else [TouchesMoved([Touch(t, path[0])], t, t)] + Dragging(t, path[1..])
  }

  lemma OneTouch(active: map<Id, TouchInfo>, x: Touch, now: real)
    ensures Track(active, [x], now) == active[x.id := TouchInfo(x.at, x.at, x.at, now)]
    ensures x.id in active ==>
              Follow(active, [x]) == active[x.id := active[x.id].(previous := active[x.id].current, current := x.at)]
    ensures Drop(active, [x]) == active - {x.id}
  {
    assert [x][..0] == [];
  }

  lemma ButtonsOfFew(outs: seq<Out>)
    requires |outs| <= 2
    ensures Buttons(outs) == (if |outs| >= 1 && outs[0].Click? then [outs[0]] else [])
                             + (if |outs| == 2 && outs[1].Click? then [outs[1]] else [])
  {
    if |outs| >= 1 {
      assert |outs| == 1 ==> outs[1..] == [];
      assert |outs| == 2 ==> outs[1..] == [outs[1]] && outs[1..][1..] == [];
    }
  }

  lemma OneMove(s: Screen, h: Handler, t: Id, p: Point)
    requires h.active.Keys == {t}
    ensures var start, q := h.active[t].start, ToRemote(s, p);
      var (g, out) := Step(s, h, TouchesMoved([Touch(t, p)], t, t));
      var press := !h.mouseIsDown && Distance2(p, start) > 9.0;
      && g.active.Keys == {t} && g.active[t].start == start
      && g.mouseIsDown == (h.mouseIsDown || press)
      && Buttons(out) == (if press then [Click(LEFT, q, true)] else [])
      && g.last.Some? && Near(q, g.last.value) && g.gesture == (if press then Idle else h.gesture)
  {
    assert t in h.active.Keys;
    OneTouch(h.active, Touch(t, p), 0.0);
    var active := Follow(h.active, [Touch(t, p)]);
    assert active.Keys == {t};
    assert |active| == |active.Keys|;
    ButtonsOfFew(Step(s, h, TouchesMoved([Touch(t, p)], t, t)).1);
  }

  /** One move of a lone finger in front of others. */
  lemma MoveFirst(s: Screen, h: Handler, t: Id, p: Point, rest: seq<Event>) returns (g: Handler, out: seq<Out>)
    requires h.active.Keys == {t}
    ensures var run := [TouchesMoved([Touch(t, p)], t, t)] + rest;
      After(s, h, run) == After(s, g, rest) && Sent(s, h, run) == out + Sent(s, g, rest)
    ensures var start, q := h.active[t].start, ToRemote(s, p);
      var press := !h.mouseIsDown && Distance2(p, start) > 9.0;
      && g.active.Keys == {t} && g.active[t].start == start
      && g.mouseIsDown == (h.mouseIsDown || press)
      && Buttons(out) == (if press then [Click(LEFT, q, true)] else [])
      && g.last.Some? && Near(q, g.last.value)
  {
    var e := TouchesMoved([Touch(t, p)], t, t);
    assert ([e] + rest)[0] == e && ([e] + rest)[1..] == rest;
    OneMove(s, h, t, p);
    g, out := Step(s, h, e).0, Step(s, h, e).1;
  }

  lemma {:induction false} Drag(s: Screen, h: Handler, t: Id, path: seq<Point>)
    requires h.active.Keys == {t}
    ensures var far := FirstFar(h.active[t].start, path);
      var g := After(s, h, Dragging(t, path));
      && g.active.Keys == {t} && g.mouseIsDown == (h.mouseIsDown || far.Some?)
      && Buttons(Sent(s, h, Dragging(t, path)))
         == (if !h.mouseIsDown && far.Some? then [Click(LEFT, ToRemote(s, far.value), true)] else [])
      && (path != [] ==> g.last.Some? && Near(ToRemote(s, path[|path| - 1]), g.last.value))
    decreases |path|
  {
    if path != [] {
      var rest := Dragging(t, path[1..]);
      var g, out := MoveFirst(s, h, t, path[0], rest);
      Drag(s, g, t, path[1..]);
      ButtonsConcat(out, Sent(s, g, rest));
      var tail := FirstFar(h.active[t].start, path[1..]);
      assert Buttons(Sent(s, g, rest))
          == if !g.mouseIsDown && tail.Some? then [Click(LEFT, ToRemote(s, tail.value), true)] else [];
      assert |path| > 1 ==> path[1..][|path| - 2] == path[|path| - 1];
    }
  }

  /** The left button comes up. */
  predicate Comes(up: Out) {
    up.Click? && up.button == LEFT && !up.down
  }

  /** What a finger left alone with the button up sends on a path and when it lifts; `up` is the release of a drag. */
  function LoneClicks(s: Screen, start: Point, path: seq<Point>, end: Point, up: Out): seq<Out> {
    match FirstFar(start, path)
    case None => Tap(LEFT, ToRemote(s, end))
    case Some(far) => [Click(LEFT, ToRemote(s, far), true), up]
  }

  lemma LoneFinger(s: Screen, h: Handler, t: Id, path: seq<Point>, end: Point) returns (up: Out)
    requires h.active.Keys == {t} && !h.mouseIsDown
    ensures Comes(up) && (path != [] ==> Near(ToRemote(s, path[|path| - 1]), up.at))
    ensures Buttons(Sent(s, h, Dragging(t, path) + [TouchesEnded([Touch(t, end)])]))
            == LoneClicks(s, h.active[t].start, path, end, up)
  {
    var lift := TouchesEnded([Touch(t, end)]);
    DraggingSteady(t, path);
    Drag(s, h, t, path);
    var g := After(s, h, Dragging(t, path));
    LastTouchLifts(s, g, t, end);
    LastPart(s, h, Dragging(t, path), lift);
    up := Release(g).1[0];
  }

  /**
   A finger that comes down alone, moves along any path and lifts presses the left button
   once and releases it once. If it never strayed three points from its start that is a tap
   where it lifted; otherwise the press is where it first strayed and the release within a
   pixel of where it last moved.
   */
  lemma OneFingerIsOneClick(s: Screen, h: Handler, t: Id, start: Point, path: seq<Point>, end: Point, now: real)
    returns (up: Out)
    requires h.active == map[] && !h.mouseIsDown
    ensures Comes(up) && (path != [] ==> Near(ToRemote(s, path[|path| - 1]), up.at))
    ensures Buttons(Sent(s, h, [TouchesBegan([Touch(t, start)], t, now)]
              + (Dragging(t, path) + [TouchesEnded([Touch(t, end)])])))
            == LoneClicks(s, start, path, end, up)
  {
    var begin := TouchesBegan([Touch(t, start)], t, now);
    OneTouchBegins(s, h, t, start, now);
    up := LoneFinger(s, Step(s, h, begin).0, t, path, end);
    FirstPart(s, h, begin, Dragging(t, path) + [TouchesEnded([Touch(t, end)])]);
  }

  lemma {:induction false} DraggingSteady(t: Id, path: seq<Point>)
    ensures Steady(Dragging(t, path))
  {
    if path != [] {
      DraggingSteady(t, path[1..]);
    }
  }

  /** What the first event of a run sends, and then the rest. */
  lemma FirstPart(s: Screen, h: Handler, e: Event, rest: seq<Event>)
    requires !e.ViewResized? && !e.RemoteResized?
    ensures var (g, out) := Step(s, h, e);
      && After(s, h, [e] + rest) == After(s, g, rest)
      && Buttons(Sent(s, h, [e] + rest)) == Buttons(out) + Buttons(Sent(s, g, rest))
  {
    assert ([e] + rest)[0] == e && ([e] + rest)[1..] == rest;
    var (g, out) := Step(s, h, e);
    ButtonsConcat(out, Sent(s, g, rest));
  }

  /** What a run sends up to its last event, and then that. */
  lemma LastPart(s: Screen, h: Handler, run: seq<Event>, e: Event)
    requires Steady(run) && !e.ViewResized? && !e.RemoteResized?
    ensures var g := After(s, h, run);
      && After(s, h, run + [e]) == Step(s, g, e).0
      && Buttons(Sent(s, h, run + [e])) == Buttons(Sent(s, h, run)) + Buttons(Step(s, g, e).1)
  {
    var g := After(s, h, run);
    Parts(s, h, run, [e]);
    Single(s, g, e);
    ButtonsConcat(Sent(s, h, run), Step(s, g, e).1);
  }

  lemma OneTouchBegins(s: Screen, h: Handler, t: Id, p: Point, now: real)
    requires h.active == map[]
    ensures var (g, out) := Step(s, h, TouchesBegan([Touch(t, p)], t, now));
      && g.active.Keys == {t} && g.active[t].start == p && g.mouseIsDown == h.mouseIsDown
      && Buttons(out) == []
  {
    OneTouch(h.active, Touch(t, p), now);
    var active := Track(h.active, [Touch(t, p)], now);
    assert active.Keys == {t};
    assert |active| == |active.Keys|;
    ButtonsOfFew(Step(s, h, TouchesBegan([Touch(t, p)], t, now)).1);
  }

  lemma LastTouchLifts(s: Screen, h: Handler, t: Id, p: Point)
    requires h.active.Keys == {t}
    ensures var out := Step(s, h, TouchesEnded([Touch(t, p)])).1;
      Buttons(out) == (if h.mouseIsDown then Release(h).1 else Tap(LEFT, ToRemote(s, p)))
  {
    OneTouch(h.active, Touch(t, p), 0.0);
    assert Drop(h.active, [Touch(t, p)]) == map[];
    assert |h.active| == |h.active.Keys|;
    ButtonsOfFew(Step(s, h, TouchesEnded([Touch(t, p)])).1);
  }

  /**
   After one finger lands and moves along any path, the last move sent is within a pixel, on
   both sides, of where the finger last was.
   */
  lemma PointerFollowsTheFinger(s: Screen, h: Handler, t: Id, start: Point, path: seq<Point>, now: real)
    requires h.active == map[]
    ensures var run := [TouchesBegan([Touch(t, start)], t, now)] + Dragging(t, path);
      var g, q := After(s, h, run), ToRemote(s, EndOf(start, path));
      && g.last.Some? && g.last == LastOf(h.last, Moves(Sent(s, h, run)))
      && -1.0 < q.x - g.last.value.x < 1.0 && -1.0 < q.y - g.last.value.y < 1.0
  {
    var begin := TouchesBegan([Touch(t, start)], t, now);
    MovesAreDebounced(s, h, [begin] + Dragging(t, path));
    OneTouchBegins(s, h, t, start, now);
    FirstPart(s, h, begin, Dragging(t, path));
    var h1 := Step(s, h, begin).0;
    LandsNear(s, h, t, start, now);
    Drag(s, h1, t, path);
    var g := After(s, h1, Dragging(t, path));
    if path == [] {
      assert Dragging(t, path) == [];
    }
    NearMeaning(ToRemote(s, EndOf(start, path)), g.last.value);
  }

  lemma LandsNear(s: Screen, h: Handler, t: Id, p: Point, now: real)
    ensures var g := Step(s, h, TouchesBegan([Touch(t, p)], t, now)).0;
      g.last.Some? && Near(ToRemote(s, p), g.last.value)
  {
  }

  /** Touches that begin click nothing, except for a finger that comes alone as the second: a right click. */
  lemma BeganClicks(s: Screen, h: Handler, touches: seq<Touch>, first: Id, now: real)
    ensures var (g, out) := Began(s, h, touches, first, now);
      var active := Track(h.active, touches, now);
      && g.active == active && g.mouseIsDown == h.mouseIsDown
      && Buttons(out) == if |active| == 2 && |touches| == 1 && first in active
                         then Tap(1, ToRemote(s, active[first].current)) else []
    ensures var (g, out) := Began(s, h, touches, first, now);
      var active := Track(h.active, touches, now);
      && (|active| == 1 && first in active ==> g.gesture == PossibleScroll(active[first].start, now))
      && (|active| == 2 && |touches| == 1 && first in active ==> g.gesture == Idle)
      && (touches != [] ==> g.last.Some? && Near(ToRemote(s, touches[0].at), g.last.value))
  {
    var h0 := h.(active := Track(h.active, touches, now));
    var (h1, taps) := Settled(s, h0, |touches| == 1, first, now);
    SettledClicks(s, h0, |touches| == 1, first, now);
    if touches != [] {
      ClicklessMove(s, h1, taps, touches[0].at);
    }
  }

  lemma SettledClicks(s: Screen, h: Handler, one: bool, first: Id, now: real)
    ensures var (g, taps) := Settled(s, h, one, first, now);
      && g.active == h.active && g.mouseIsDown == h.mouseIsDown
      && Buttons(taps) == if |h.active| == 2 && one && first in h.active
                          then Tap(1, ToRemote(s, h.active[first].current)) else []
    ensures var g := Settled(s, h, one, first, now).0;
      && (|h.active| == 1 && first in h.active ==> g.gesture == PossibleScroll(h.active[first].start, now))
      && (|h.active| == 2 && one && first in h.active ==> g.gesture == Idle)
  {
    ButtonsOfFew(Settled(s, h, one, first, now).1);
  }

  lemma ClicklessMove(s: Screen, h: Handler, before: seq<Out>, p: Point)
    ensures var (g, out) := MoveTo(s, h, p);
      && g.active == h.active && g.mouseIsDown == h.mouseIsDown && g.gesture == h.gesture
      && g.last.Some? && Near(ToRemote(s, p), g.last.value)
      && Buttons(before + out) == Buttons(before)
  {
    var out := MoveTo(s, h, p).1;
    ButtonsConcat(before, out);
    ButtonsOfFew(out);
  }

  // ---- Two fingers ----

  function Middle(p: Point, q: Point): Point {
    Point((p.x + q.x) / 2.0, (p.y + q.y) / 2.0)
  }

  /** Fingers a and b are down, and no other. */
  ghost predicate TwoDown(h: Handler, a: Id, b: Id) {
    a != b && h.active.Keys == {a, b}
  }

  function MiddleOf(h: Handler, a: Id, b: Id): Point
    requires a in h.active && b in h.active
  {
    Middle(h.active[a].current, h.active[b].current)
  }

  /** The sum of the scrolls among some events. */
  function TotalScroll(outs: seq<Out>): Point {
    if outs == [] then Point(0.0, 0.0)
    else
      var rest := TotalScroll(outs[1..]);
      if outs[0].Scroll? then Point(outs[0].dx + rest.x, outs[0].dy + rest.y) else rest
  }

  /** Three times the way from p to q. */
  function Thrice(p: Point, q: Point): Point {
    Point((q.x - p.x) * 3.0, (q.y - p.y) * 3.0)
  }

  lemma TwoTouches(active: map<Id, TouchInfo>, x: Touch, y: Touch)
    requires x.id != y.id && x.id in active && y.id in active
    ensures Follow(active, [x, y])
            == active[x.id := active[x.id].(previous := active[x.id].current, current := x.at)]
                     [y.id := active[y.id].(previous := active[y.id].current, current := y.at)]
  {
    OneTouch(active, x, 0.0);
    assert [x, y][..1] == [x];
  }

  /** How the system reports a movement: which finger its event lists first, and which the dictionary. */
  datatype Listing = Listing(eventSwapped: bool, tableSwapped: bool)

  function First(l: Listing, a: Id, b: Id): Id {
    if l.tableSwapped then b else a
  }

  function Second(l: Listing, a: Id, b: Id): Id {
    if l.tableSwapped then a else b
  }

  function Both(swapped: bool, x: Touch, y: Touch): seq<Touch> {
    if swapped then [y, x] else [x, y]
  }

  /** Both fingers move, to p and q. */
  function MoveBoth(l: Listing, a: Id, b: Id, p: Point, q: Point): Event {
    TouchesMoved(Both(l.eventSwapped, Touch(a, p), Touch(b, q)), First(l, a, b), Second(l, a, b))
  }

  /** Whether a step of the midpoint is sent as a scroll. */
  predicate Scrolls(scrolling: bool, from: Point, to: Point) {
    scrolling || Distance2(to, from) > 4.0
  }

  /** Both fingers move in one event: the way of the midpoint is sent, if it is far enough or scrolling has begun. */
  lemma BothMove(s: Screen, h: Handler, l: Listing, a: Id, b: Id, p: Point, q: Point)
    requires TwoDown(h, a, b)
    ensures var (g, out) := Step(s, h, MoveBoth(l, a, b, p, q));
      var from, to := MiddleOf(h, a, b), Middle(p, q);
      && TwoDown(g, a, b) && MiddleOf(g, a, b) == to
      && (if Scrolls(h.gesture == Scrolling, from, to)
          then g.gesture == Scrolling && out == [Scroll(Thrice(from, to).x, Thrice(from, to).y)]
          else g.gesture == h.gesture && out == [])
  {
    assert a in h.active.Keys && b in h.active.Keys;
    FollowBoth(h.active, l.eventSwapped, Touch(a, p), Touch(b, q));
    var active := Follow(h.active, Both(l.eventSwapped, Touch(a, p), Touch(b, q)));
    assert |active| == |active.Keys|;
  }

  lemma FollowBoth(active: map<Id, TouchInfo>, swapped: bool, x: Touch, y: Touch)
    requires x.id != y.id && active.Keys == {x.id, y.id}
    ensures var after := Follow(active, Both(swapped, x, y));
      && after.Keys == {x.id, y.id}
      && x.id in active && after[x.id] == active[x.id].(previous := active[x.id].current, current := x.at)
      && y.id in active && after[y.id] == active[y.id].(previous := active[y.id].current, current := y.at)
  {
    assert x.id in active.Keys && y.id in active.Keys;
    TwoTouches(active, x, y);
    TwoTouches(active, y, x);
  }

  /**
   Only finger a moves in an event. Once scrolling, the other's last movement is counted
   again, so the scroll is three times the way of the midpoint exactly when the other had
   not moved before.
   */
  lemma OneMovesIff(s: Screen, h: Handler, l: Listing, a: Id, b: Id, p: Point)
    requires TwoDown(h, a, b) && h.gesture == Scrolling
    ensures var (g, out) := Step(s, h, TouchesMoved([Touch(a, p)], First(l, a, b), Second(l, a, b)));
      && TwoDown(g, a, b) && |out| == 1 && out[0].Scroll?
      && (Point(out[0].dx, out[0].dy) == Thrice(MiddleOf(h, a, b), MiddleOf(g, a, b))
          <==> h.active[b].previous == h.active[b].current)
  {
    assert a in h.active.Keys && b in h.active.Keys;
    OneTouch(h.active, Touch(a, p), 0.0);
    var active := Follow(h.active, [Touch(a, p)]);
    assert active.Keys == {a, b};
    assert |active| == |active.Keys|;
  }

  datatype Pace = Pace(listing: Listing, p: Point, q: Point)

  /** The moves of two fingers along a path, both in every event. */
  function DraggingBoth(a: Id, b: Id, path: seq<Pace>): seq<Event> {
    if path == [] then []
    else [MoveBoth(path[0].listing, a, b, path[0].p, path[0].q)] + DraggingBoth(a, b, path[1..])
  }

  /** Where scrolling starts: the midpoint before the first step that is sent, or where the path ends. */
  function ScrollStart(scrolling: bool, from: Point, path: seq<Pace>): Point
    decreases |path|
  {
    if path == [] then from
    else
      var to := Middle(path[0].p, path[0].q);
      if Scrolls(scrolling, from, to) then from else ScrollStart(false, to, path[1..])
  }

  /**
   When both fingers move in every event, the scrolls of the whole path add up to three times
   the way of their midpoint, from where scrolling starts.
   */
  lemma {:induction false} ScrollsAddUp(s: Screen, h: Handler, a: Id, b: Id, path: seq<Pace>)
    requires TwoDown(h, a, b)
    ensures var g := After(s, h, DraggingBoth(a, b, path));
      && TwoDown(g, a, b)
      && TotalScroll(Sent(s, h, DraggingBoth(a, b, path)))
         == Thrice(ScrollStart(h.gesture == Scrolling, MiddleOf(h, a, b), path), MiddleOf(g, a, b))
    decreases |path|
  {
    if path != [] {
      var rest := DraggingBoth(a, b, path[1..]);
      var g, sent := PaceFirst(s, h, a, b, path[0], rest);
      ScrollsAddUp(s, g, a, b, path[1..]);
      StartsAtOnce(MiddleOf(g, a, b), path[1..]);
    }
  }

  /** One pace of both fingers in front of others: `sent` is what it adds to the scrolls. */
  lemma PaceFirst(s: Screen, h: Handler, a: Id, b: Id, pace: Pace, rest: seq<Event>) returns (g: Handler, sent: Point)
    requires TwoDown(h, a, b)
    ensures var run := [MoveBoth(pace.listing, a, b, pace.p, pace.q)] + rest;
      var total := TotalScroll(Sent(s, g, rest));
      After(s, h, run) == After(s, g, rest) && TotalScroll(Sent(s, h, run)) == Point(sent.x + total.x, sent.y + total.y)
    ensures var from, to := MiddleOf(h, a, b), Middle(pace.p, pace.q);
      var scrolls := Scrolls(h.gesture == Scrolling, from, to);
      && TwoDown(g, a, b) && MiddleOf(g, a, b) == to
      && (g.gesture == Scrolling <==> scrolls)
      && sent == if scrolls then Thrice(from, to) else Point(0.0, 0.0)
  {
    var e := MoveBoth(pace.listing, a, b, pace.p, pace.q);
    assert ([e] + rest)[0] == e && ([e] + rest)[1..] == rest;
    BothMove(s, h, pace.listing, a, b, pace.p, pace.q);
    var out := Step(s, h, e).1;
    g := Step(s, h, e).0;
    ScrollFirst(out, Sent(s, g, rest));
    sent := if out == [] then Point(0.0, 0.0) else Point(out[0].dx, out[0].dy);
  }

  lemma ScrollFirst(out: seq<Out>, rest: seq<Out>)
    requires out == [] || (|out| == 1 && out[0].Scroll?)
    ensures TotalScroll(out + rest)
            == if out == [] then TotalScroll(rest)
               else Point(out[0].dx + TotalScroll(rest).x, out[0].dy + TotalScroll(rest).y)
  {
    if out == [] {
      assert out + rest == rest;
    } else {
      assert (out + rest)[0] == out[0] && (out + rest)[1..] == rest;
    }
  }

  lemma StartsAtOnce(from: Point, path: seq<Pace>)
    ensures ScrollStart(true, from, path) == from
  {
  }

  // ---- Two fingers down and up ----

  /** How two fingers a and b land: in one event, or a first, moving along a path before b lands. */
  datatype Landing = InOneEvent(swapped: bool) | InTwoEvents(path: seq<Point>)

  /** How they lift: in one event, or one first, the other moving along a path before it lifts too. */
  datatype Lifting = AtOnce(swapped: bool) | AFirst(path: seq<Point>) | BFirst(path: seq<Point>)

  /** The landing of a at p and b at q; `first` is the one the dictionary then lists first. */
  function Land(l: Landing, a: Id, b: Id, p: Point, q: Point, first: Id, now: real, later: real): seq<Event> {
    match l
    case InOneEvent(swapped) => [TouchesBegan(Both(swapped, Touch(a, p), Touch(b, q)), first, now)]
    case InTwoEvents(path) =>
      [TouchesBegan([Touch(a, p)], a, now)] + Dragging(a, path) + [TouchesBegan([Touch(b, q)], first, later)]
  }

  /** The lifting of a at p and b at q. */
  function Lift(l: Lifting, a: Id, b: Id, p: Point, q: Point): seq<Event> {
    match l
    case AtOnce(swapped) => [TouchesEnded(Both(swapped, Touch(a, p), Touch(b, q)))]
    case AFirst(path) => [TouchesEnded([Touch(a, p)])] + Dragging(b, path) + [TouchesEnded([Touch(b, q)])]
    case BFirst(path) => [TouchesEnded([Touch(b, q)])] + Dragging(a, path) + [TouchesEnded([Touch(a, p)])]
  }

  /** Whether the first finger strayed, and so pressed the left button, before the second landed. */
  predicate Strayed(l: Landing, p: Point) {
    l.InTwoEvents? && FirstFar(p, l.path).Some?
  }

  /** Fingers a and b have landed at p and q. */
  ghost predicate Landed(h: Handler, a: Id, b: Id, p: Point, q: Point, pressed: bool) {
    TwoDown(h, a, b) && h.active[a].start == p && h.active[b].start == q && h.mouseIsDown == pressed
  }

  lemma LandsInOneEvent(s: Screen, h: Handler, swapped: bool, a: Id, b: Id, p: Point, q: Point, first: Id, now: real)
    requires h.active == map[] && !h.mouseIsDown && a != b
    ensures var (g, out) := Step(s, h, TouchesBegan(Both(swapped, Touch(a, p), Touch(b, q)), first, now));
      Landed(g, a, b, p, q, false) && Buttons(out) == []
  {
    var touches := Both(swapped, Touch(a, p), Touch(b, q));
    assert touches[..1] == [touches[0]];
    OneTouch(h.active, touches[0], now);
    var active := Track(h.active, touches, now);
    assert active == map[touches[0].id := TouchInfo(touches[0].at, touches[0].at, touches[0].at, now)]
                        [touches[1].id := TouchInfo(touches[1].at, touches[1].at, touches[1].at, now)];
    assert active.Keys == {a, b};
    assert |active| == |active.Keys|;
    ButtonsOfFew(Step(s, h, TouchesBegan(touches, first, now)).1);
  }

  /** The second finger arrives: a right click where the touch listed first is. */
  lemma SecondTouchClicks(s: Screen, h: Handler, a: Id, b: Id, q: Point, first: Id, now: real)
    requires h.active.Keys == {a} && a != b && (first == a || first == b)
    ensures var (g, out) := Step(s, h, TouchesBegan([Touch(b, q)], first, now));
      && Landed(g, a, b, h.active[a].start, q, h.mouseIsDown)
      && Buttons(out) == Tap(RIGHT, ToRemote(s, if first == b then q else h.active[a].current))
  {
    assert a in h.active.Keys;
    OneTouch(h.active, Touch(b, q), now);
    var h1 := h.(active := Track(h.active, [Touch(b, q)], now));
    assert h1.active.Keys == {a, b};
    assert |h1.active| == |h1.active.Keys|;
    var (h2, taps) := Settled(s, h1, true, first, now);
    ButtonsConcat(taps, MoveTo(s, h2, q).1);
    ButtonsOfFew(taps);
    ButtonsOfFew(MoveTo(s, h2, q).1);
  }

  /** Where finger a is after moving along a path. */
  function EndOf(p: Point, path: seq<Point>): Point {
    if path == [] then p else path[|path| - 1]
  }

  lemma {:induction false} DragEnds(s: Screen, h: Handler, t: Id, path: seq<Point>)
    requires h.active.Keys == {t}
    ensures var g := After(s, h, Dragging(t, path));
      g.active.Keys == {t} && g.active[t].current == EndOf(h.active[t].current, path)
          && g.active[t].start == h.active[t].start
    decreases |path|
  {
    if path != [] {
      var run := Dragging(t, path);
      assert run[0] == TouchesMoved([Touch(t, path[0])], t, t) && run[1..] == Dragging(t, path[1..]);
      assert t in h.active.Keys;
      OneTouch(h.active, Touch(t, path[0]), 0.0);
      assert Follow(h.active, [Touch(t, path[0])]).Keys == {t};
      DragEnds(s, Step(s, h, run[0]).0, t, path[1..]);
    }
  }

  /** What landing sends: nothing in one event; in two a right click, after a press if the first finger strayed. */
  lemma Lands(s: Screen, h: Handler, l: Landing, a: Id, b: Id, p: Point, q: Point, first: Id, now: real, later: real)
    requires h.active == map[] && !h.mouseIsDown && a != b && (first == a || first == b)
    ensures var run := Land(l, a, b, p, q, first, now, later);
      && Landed(After(s, h, run), a, b, p, q, Strayed(l, p))
      && Buttons(Sent(s, h, run)) == LandingClicks(s, l, p, if first == b then q else EndOf(p, Alone(l)))
  {
    match l
    case InOneEvent(swapped) =>
      Single(s, h, TouchesBegan(Both(swapped, Touch(a, p), Touch(b, q)), first, now));
      LandsInOneEvent(s, h, swapped, a, b, p, q, first, now);
    case InTwoEvents(path) =>
      LandsInTwoEvents(s, h, path, a, b, p, q, first, now, later);
  }

  function LandingClicks(s: Screen, l: Landing, p: Point, at: Point): seq<Out> {
    match l
    case InOneEvent(_) => []
    case InTwoEvents(path) =>
      (if FirstFar(p, path).Some? then [Click(LEFT, ToRemote(s, FirstFar(p, path).value), true)] else [])
      + Tap(RIGHT, ToRemote(s, at))
  }

  lemma LandsInTwoEvents(s: Screen, h: Handler, path: seq<Point>, a: Id, b: Id, p: Point, q: Point, first: Id,
                         now: real, later: real)
    requires h.active == map[] && !h.mouseIsDown && a != b && (first == a || first == b)
    ensures var run := Land(InTwoEvents(path), a, b, p, q, first, now, later);
      && Landed(After(s, h, run), a, b, p, q, FirstFar(p, path).Some?)
      && Buttons(Sent(s, h, run)) == LandingClicks(s, InTwoEvents(path), p, if first == b then q else EndOf(p, path))
  {
    var begin, second := TouchesBegan([Touch(a, p)], a, now), TouchesBegan([Touch(b, q)], first, later);
    OneTouchBegins(s, h, a, p, now);
    OneTouch(h.active, Touch(a, p), now);
    var h1 := Step(s, h, begin).0;
    DraggingSteady(a, path);
    Drag(s, h1, a, path);
    DragEnds(s, h1, a, path);
    SecondTouchClicks(s, After(s, h1, Dragging(a, path)), a, b, q, first, later);
    LastPart(s, h1, Dragging(a, path), second);
    FirstPart(s, h, begin, Dragging(a, path) + [second]);
    assert [begin] + Dragging(a, path) + [second] == [begin] + (Dragging(a, path) + [second]);
  }

  /** While both fingers are down, moves touch no button. */
  lemma {:induction false} MovesOfBoth(s: Screen, h: Handler, a: Id, b: Id, p: Point, q: Point, pressed: bool,
                                       moves: seq<Event>)
    requires Landed(h, a, b, p, q, pressed) && forall k | 0 <= k < |moves| :: moves[k].TouchesMoved?
    ensures Landed(After(s, h, moves), a, b, p, q, pressed) && Buttons(Sent(s, h, moves)) == []
    decreases |moves|
  {
    if moves != [] {
      var e := moves[0];
      FollowKeys(h.active, e.touches);
      FollowStarts(h.active, e.touches);
      var active := Follow(h.active, e.touches);
      assert |active| == |active.Keys|;
      var (g, out) := Step(s, h, e);
      ButtonsOfFew(out);
      MovesOfBoth(s, g, a, b, p, q, pressed, moves[1..]);
      ButtonsConcat(out, Sent(s, g, moves[1..]));
    }
  }

  lemma {:induction false} FollowStarts(active: map<Id, TouchInfo>, touches: seq<Touch>)
    ensures var after := Follow(active, touches);
      after.Keys == active.Keys && forall t | t in active :: after[t].start == active[t].start
  {
    if touches != [] {
      FollowStarts(active, touches[..|touches| - 1]);
    }
  }

  lemma LiftsAtOnce(s: Screen, h: Handler, swapped: bool, a: Id, b: Id, p: Point, q: Point)
    requires TwoDown(h, a, b)
    ensures Step(s, h, TouchesEnded(Both(swapped, Touch(a, p), Touch(b, q)))).1
              == if h.mouseIsDown then Release(h).1 else []
  {
    var touches := Both(swapped, Touch(a, p), Touch(b, q));
    assert touches[..1] == [touches[0]];
    OneTouch(h.active, touches[0], 0.0);
    assert Drop(h.active, touches) == map[];
    assert |h.active| == |h.active.Keys|;
  }

  /** One of two fingers lifts: a pressed button comes up, and the other finger is left alone. */
  lemma OneOfTwoLifts(s: Screen, h: Handler, t: Id, other: Id, p: Point)
    requires TwoDown(h, t, other)
    ensures var (g, out) := Step(s, h, TouchesEnded([Touch(t, p)]));
      && g.active.Keys == {other} && g.active[other].start == h.active[other].start && !g.mouseIsDown
      && out == if h.mouseIsDown then Release(h).1 else []
  {
    OneTouch(h.active, Touch(t, p), 0.0);
    var active := Drop(h.active, [Touch(t, p)]);
    assert active.Keys == {other};
    assert |active| == |active.Keys|;
  }

  lemma LiftsApart(s: Screen, h: Handler, t: Id, other: Id, p: Point, path: seq<Point>, end: Point)
    returns (up: Out)
    requires TwoDown(h, t, other)
    ensures Comes(up)
    ensures Buttons(Sent(s, h, [TouchesEnded([Touch(t, p)])] + Dragging(other, path)
              + [TouchesEnded([Touch(other, end)])]))
            == (if h.mouseIsDown then Release(h).1 else []) + LoneClicks(s, h.active[other].start, path, end, up)
  {
    OneOfTwoLifts(s, h, t, other, p);
    var first, rest := TouchesEnded([Touch(t, p)]), Dragging(other, path) + [TouchesEnded([Touch(other, end)])];
    var (g, out) := Step(s, h, first);
    up := LoneFinger(s, g, other, path, end);
    FirstPart(s, h, first, rest);
    ButtonsOfFew(out);
    assert [first] + Dragging(other, path) + [TouchesEnded([Touch(other, end)])] == [first] + rest;
  }

  // -- The whole gesture --

  /** Which button a click is of, and whether it goes down. */
  datatype Kind = Kind(button: nat, down: bool)

  function Kinds(clicks: seq<Out>): seq<Kind> {
    if clicks == [] then []
    else (if clicks[0].Click? then [Kind(clicks[0].button, clicks[0].down)] else []) + Kinds(clicks[1..])
  }

  lemma {:induction false} KindsConcat(a: seq<Out>, b: seq<Out>)
    ensures Kinds(a + b) == Kinds(a) + Kinds(b)
  {
    if a == [] {
      assert a + b == b;
    } else {
      assert (a + b)[0] == a[0] && (a + b)[1..] == a[1..] + b;
      KindsConcat(a[1..], b);
    }
  }

  lemma KindsOfFew(clicks: seq<Out>)
    requires |clicks| <= 2 && forall k | 0 <= k < |clicks| :: clicks[k].Click?
    ensures Kinds(clicks) == seq(|clicks|, k requires 0 <= k < |clicks| => Kind(clicks[k].button, clicks[k].down))
  {
    if |clicks| >= 1 {
      assert |clicks| == 1 ==> clicks[1..] == [];
      assert |clicks| == 2 ==> clicks[1..] == [clicks[1]] && clicks[1..][1..] == [];
    }
  }

  const LEFT_CLICK := [Kind(LEFT, true), Kind(LEFT, false)]
  const RIGHT_CLICK := [Kind(RIGHT, true), Kind(RIGHT, false)]

  /** The button events of a gesture of two fingers. */
  function GestureKinds(strayed: bool, landsInTwo: bool, liftsInTwo: bool): seq<Kind> {
    (if strayed then [Kind(LEFT, true)] else [])
    + (if landsInTwo then RIGHT_CLICK else [])
    + (if strayed then [Kind(LEFT, false)] else [])
    + (if liftsInTwo then LEFT_CLICK else [])
  }

  lemma LiftKinds(s: Screen, h: Handler, l: Lifting, a: Id, b: Id, p: Point, q: Point)
    requires TwoDown(h, a, b)
    ensures Kinds(Buttons(Sent(s, h, Lift(l, a, b, p, q))))
            == (if h.mouseIsDown then [Kind(LEFT, false)] else []) + (if l.AtOnce? then [] else LEFT_CLICK)
  {
    var up := if h.mouseIsDown then Release(h).1 else [];
    KindsOfFew(up);
    match l {
      case AtOnce(swapped) =>
        Single(s, h, TouchesEnded(Both(swapped, Touch(a, p), Touch(b, q))));
        LiftsAtOnce(s, h, swapped, a, b, p, q);
        ButtonsOfFew(up);
      case AFirst(path) =>
        var last := LiftsApart(s, h, a, b, p, path, q);
        LastKinds(s, h.active[b].start, path, q, last);
        KindsConcat(up, LoneClicks(s, h.active[b].start, path, q, last));
      case BFirst(path) =>
        var last := LiftsApart(s, h, b, a, q, path, p);
        LastKinds(s, h.active[a].start, path, p, last);
        KindsConcat(up, LoneClicks(s, h.active[a].start, path, p, last));
    }
  }

  lemma LastKinds(s: Screen, start: Point, path: seq<Point>, end: Point, up: Out)
    requires Comes(up)
    ensures Kinds(LoneClicks(s, start, path, end, up)) == LEFT_CLICK
  {
    KindsOfFew(LoneClicks(s, start, path, end, up));
  }

  lemma LandKinds(s: Screen, l: Landing, p: Point, at: Point)
    ensures Kinds(LandingClicks(s, l, p, at))
            == (if Strayed(l, p) then [Kind(LEFT, true)] else []) + (if l.InTwoEvents? then RIGHT_CLICK else [])
  {
    if l.InTwoEvents? {
      var press :=
        if FirstFar(p, l.path).Some? then [Click(LEFT, ToRemote(s, FirstFar(p, l.path).value), true)] else [];
      KindsOfFew(press);
      KindsOfFew(Tap(RIGHT, ToRemote(s, at)));
      KindsConcat(press, Tap(RIGHT, ToRemote(s, at)));
    }
  }

  /** The path of the first finger before the second lands. */
  function Alone(l: Landing): seq<Point> {
    if l.InOneEvent? then [] else l.path
  }

  /** A gesture of two fingers: what landing sends, and then what the rest sends from where that leaves the handler. */
  lemma GestureParts(s: Screen, h: Handler, land: Landing, moves: seq<Event>, rest: seq<Event>, a: Id, b: Id,
                     p: Point, q: Point, first: Id, now: real, later: real)
    returns (g: Handler, clicks: seq<Out>)
    requires h.active == map[] && !h.mouseIsDown && a != b && (first == a || first == b)
    requires forall k | 0 <= k < |moves| :: moves[k].TouchesMoved?
    ensures Landed(g, a, b, p, q, Strayed(land, p))
    ensures clicks == LandingClicks(s, land, p, if first == b then q else EndOf(p, Alone(land)))
    ensures Buttons(Sent(s, h, Land(land, a, b, p, q, first, now, later) + moves + rest))
              == clicks + Buttons(Sent(s, g, rest))
  {
    var down := Land(land, a, b, p, q, first, now, later);
    LandSteady(land, a, b, p, q, first, now, later);
    Lands(s, h, land, a, b, p, q, first, now, later);
    var h1 := After(s, h, down);
    MovesOfBoth(s, h1, a, b, p, q, Strayed(land, p), moves);
    ButtonParts(s, h, down, moves);
    ButtonParts(s, h, down + moves, rest);
    g := After(s, h1, moves);
    clicks := Buttons(Sent(s, h, down));
    assert clicks + [] == clicks;
  }

  lemma ButtonParts(s: Screen, h: Handler, x: seq<Event>, y: seq<Event>)
    requires Steady(x)
    ensures After(s, h, x + y) == After(s, After(s, h, x), y)
    ensures Buttons(Sent(s, h, x + y)) == Buttons(Sent(s, h, x)) + Buttons(Sent(s, After(s, h, x), y))
  {
    Parts(s, h, x, y);
    ButtonsConcat(Sent(s, h, x), Sent(s, After(s, h, x), y));
  }

  /**
   Two fingers land, move in any way while both are down, and lift. The right button is
   clicked exactly if they land in two events, the left button exactly if they lift in two,
   and the left button is held from before the one to the lift if the first finger strayed
   before the second landed. So the gesture is one right click and no more if and only if
   they land in two events, the first without straying, and lift in one.
   */
  lemma TwoFingerGesture(s: Screen, h: Handler, land: Landing, moves: seq<Event>, lift: Lifting, a: Id, b: Id,
                         p: Point, q: Point, first: Id, now: real, later: real, p': Point, q': Point)
    requires h.active == map[] && !h.mouseIsDown && a != b && (first == a || first == b)
    requires forall k | 0 <= k < |moves| :: moves[k].TouchesMoved?
    ensures var kinds := Kinds(Buttons(Sent(s, h, Land(land, a, b, p, q, first, now, later) + moves
              + Lift(lift, a, b, p', q'))));
      && kinds == GestureKinds(Strayed(land, p), land.InTwoEvents?, !lift.AtOnce?)
      && (kinds == RIGHT_CLICK <==> land.InTwoEvents? && !Strayed(land, p) && lift.AtOnce?)
  {
    var g, clicks := GestureParts(s, h, land, moves, Lift(lift, a, b, p', q'), a, b, p, q, first, now, later);
    LiftKinds(s, g, lift, a, b, p', q');
    LandKinds(s, land, p, if first == b then q else EndOf(p, Alone(land)));
    KindsConcat(clicks, Buttons(Sent(s, g, Lift(lift, a, b, p', q'))));
    KindsCompose(Strayed(land, p), land.InTwoEvents?, !lift.AtOnce?);
  }

  lemma LandSteady(l: Landing, a: Id, b: Id, p: Point, q: Point, first: Id, now: real, later: real)
    ensures Steady(Land(l, a, b, p, q, first, now, later))
  {
    if l.InTwoEvents? {
      DraggingSteady(a, l.path);
    }
  }

  lemma KindsCompose(strayed: bool, landsInTwo: bool, liftsInTwo: bool)
    ensures ((if strayed then [Kind(LEFT, true)] else []) + (if landsInTwo then RIGHT_CLICK else []))
            + ((if strayed then [Kind(LEFT, false)] else []) + (if liftsInTwo then LEFT_CLICK else []))
            == GestureKinds(strayed, landsInTwo, liftsInTwo)
    ensures GestureKinds(strayed, landsInTwo, liftsInTwo) == RIGHT_CLICK <==> landsInTwo && !strayed && !liftsInTwo
  {
    var g := GestureKinds(strayed, landsInTwo, liftsInTwo);
    assert |g| == (if strayed then 2 else 0) + (if landsInTwo then 2 else 0) + (if liftsInTwo then 2 else 0);
    if g == RIGHT_CLICK {
      assert g[0] == Kind(RIGHT, true);
    }
  }

  /** Where the clicks of a tap are: two fingers land and lift with no finger moving alone far. */
  lemma TwoFingerTap(s: Screen, h: Handler, land: Landing, moves: seq<Event>, lift: Lifting, a: Id, b: Id,
                     p: Point, q: Point, first: Id, now: real, later: real, p': Point, q': Point)
    requires h.active == map[] && !h.mouseIsDown && a != b && (first == a || first == b)
    requires forall k | 0 <= k < |moves| :: moves[k].TouchesMoved?
    requires !Strayed(land, p)
    requires lift.AFirst? ==> FirstFar(q, lift.path).None?
    requires lift.BFirst? ==> FirstFar(p, lift.path).None?
    ensures Buttons(Sent(s, h, Land(land, a, b, p, q, first, now, later) + moves + Lift(lift, a, b, p', q')))
            == (if land.InOneEvent? then []
                else Tap(RIGHT, ToRemote(s, if first == b then q else EndOf(p, Alone(land)))))
               + TapLift(s, lift, p', q')
  {
    var g, clicks := GestureParts(s, h, land, moves, Lift(lift, a, b, p', q'), a, b, p, q, first, now, later);
    LiftOfTap(s, g, lift, a, b, p', q');
    Unstrayed(s, land, p, if first == b then q else EndOf(p, Alone(land)));
  }

  lemma Unstrayed(s: Screen, l: Landing, p: Point, at: Point)
    requires !Strayed(l, p)
    ensures LandingClicks(s, l, p, at) == if l.InOneEvent? then [] else Tap(RIGHT, ToRemote(s, at))
  {
    assert l.InTwoEvents? ==> [] + Tap(RIGHT, ToRemote(s, at)) == Tap(RIGHT, ToRemote(s, at));
  }

  /** What a lift sends when nothing was pressed and neither finger strays: a left click where the last finger lifts. */
  function TapLift(s: Screen, l: Lifting, p: Point, q: Point): seq<Out> {
    match l
    case AtOnce(_) => []
    case AFirst(_) => Tap(LEFT, ToRemote(s, q))
    case BFirst(_) => Tap(LEFT, ToRemote(s, p))
  }

  lemma LiftOfTap(s: Screen, h: Handler, l: Lifting, a: Id, b: Id, p: Point, q: Point)
    requires TwoDown(h, a, b) && !h.mouseIsDown
    requires l.AFirst? ==> FirstFar(h.active[b].start, l.path).None?
    requires l.BFirst? ==> FirstFar(h.active[a].start, l.path).None?
    ensures Buttons(Sent(s, h, Lift(l, a, b, p, q)))
            == TapLift(s, l, p, q)
  {
    match l
    case AtOnce(swapped) =>
      Single(s, h, TouchesEnded(Both(swapped, Touch(a, p), Touch(b, q))));
      LiftsAtOnce(s, h, swapped, a, b, p, q);
    case AFirst(path) =>
      var last := LiftsApart(s, h, a, b, p, path, q);
    case BFirst(path) =>
      var last := LiftsApart(s, h, b, a, q, path, p);
  }
}
