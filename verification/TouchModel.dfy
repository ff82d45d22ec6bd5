/**
 Translation of touches into mouse events, on values. Points have exact coordinates. A
 handler's `first` and `second` name the entries of the dictionary of tracked touches in
 the order in which it happens to list them.
 */
module TouchModel {
  import opened Options

  type Id = nat

  datatype Point = Point(x: real, y: real)

  datatype Touch = Touch(id: Id, at: Point)

  datatype TouchInfo = TouchInfo(start: Point, previous: Point, current: Point, time: real)

  datatype Gesture = Idle | PossibleScroll(start: Point, time: real) | Scrolling

  datatype Screen = Screen(viewW: real, viewH: real, remoteW: real, remoteH: real)

  const LEFT: nat := 0
  const RIGHT: nat := 1

  datatype Out = Move(at: Point) | Click(button: nat, at: Point, down: bool) | Scroll(dx: real, dy: real)

  datatype Handler = Handler(active: map<Id, TouchInfo>, mouseIsDown: bool, last: Option<Point>, gesture: Gesture)

  const FRESH := Handler(map[], false, None, Idle)

  // ---- Coordinates ----

  function MaxReal(a: real, b: real): real {
    if a < b then b else a
  }

  function Clamp(v: real, hi: real): real {
    if v < 0.0 then 0.0 else if v > hi then hi else v
  }

  /** The remote position of a point of the view. */
  function ToRemote(s: Screen, p: Point): Point {
    Point(Clamp(p.x * (s.remoteW / MaxReal(s.viewW, 1.0)), s.remoteW),
          Clamp(p.y * (s.remoteH / MaxReal(s.viewH, 1.0)), s.remoteH))
  }

  lemma Cancels(v: real, remote: real, view: real)
    requires view >= 1.0
    ensures v * (remote / view) * view == v * remote
  {
    assert remote / view * view == remote;
    assert v * (remote / view) * view == v * (remote / view * view);
  }

  lemma NotBeyond(v: real, remote: real, view: real)
    requires view >= 1.0 && 0.0 <= v <= view && remote >= 0.0
    ensures 0.0 <= v * (remote / view) <= remote
  {
    var scale := remote / view;
    assert scale * view == remote;
    assert scale >= 0.0;
    assert 0.0 * scale <= v * scale <= view * scale;
  }

  /**
   A point of the view keeps its proportions: its position on the screen is to the screen as the
   point is to the view.
   */
  lemma PointsKeepTheirProportions(s: Screen, p: Point)
    requires s.viewW >= 1.0 && s.viewH >= 1.0 && s.remoteW >= 0.0 && s.remoteH >= 0.0
    requires 0.0 <= p.x <= s.viewW && 0.0 <= p.y <= s.viewH
    ensures ToRemote(s, p).x * s.viewW == p.x * s.remoteW
    ensures ToRemote(s, p).y * s.viewH == p.y * s.remoteH
  {
    Cancels(p.x, s.remoteW, s.viewW);
    Cancels(p.y, s.remoteH, s.viewH);
    NotBeyond(p.x, s.remoteW, s.viewW);
    NotBeyond(p.y, s.remoteH, s.viewH);
  }

  /**
   A point beyond an edge of the view is on that edge of the screen, and a view under one
   point wide or high counts as one.
   */
  lemma PointsOutsideAreOnTheEdge(s: Screen, p: Point)
    requires s.remoteW > 0.0 && s.remoteH > 0.0
    ensures p.x <= 0.0 ==> ToRemote(s, p).x == 0.0
    ensures p.y <= 0.0 ==> ToRemote(s, p).y == 0.0
    ensures p.x >= s.viewW && p.x >= 1.0 ==> ToRemote(s, p).x == s.remoteW
    ensures p.y >= s.viewH && p.y >= 1.0 ==> ToRemote(s, p).y == s.remoteH
  {
    Edge(p.x, s.remoteW, MaxReal(s.viewW, 1.0));
    Edge(p.y, s.remoteH, MaxReal(s.viewH, 1.0));
  }

  lemma Edge(v: real, remote: real, view: real)
    requires view >= 1.0 && remote > 0.0
    ensures v <= 0.0 ==> v * (remote / view) <= 0.0
    ensures v >= view ==> v * (remote / view) >= remote
  {
    var scale := remote / view;
    assert scale * view == remote;
    assert scale > 0.0;
    if v <= 0.0 {
      assert v * scale <= 0.0;
    }
    if v >= view {
      assert v * scale >= view * scale;
    }
  }

  function Distance2(p: Point, q: Point): real {
    (p.x - q.x) * (p.x - q.x) + (p.y - q.y) * (p.y - q.y)
  }

  function AbsReal(x: real): real {
    if x < 0.0 then -x else x
  }

  /** Less than one pixel apart in both directions. */
  predicate Near(p: Point, q: Point) {
    AbsReal(p.x - q.x) < 1.0 && AbsReal(p.y - q.y) < 1.0
  }

  /** Near is a two-sided distance in both directions. */
  lemma NearMeaning(p: Point, q: Point)
    ensures Near(p, q) <==> -1.0 < p.x - q.x < 1.0 && -1.0 < p.y - q.y < 1.0
  {
  }

  /** For r the length of the way from p to q: the way is longer than three points, or two, exactly if r is. */
  lemma LengthMeaning(p: Point, q: Point, r: real)
    requires r >= 0.0 && r * r == (p.x - q.x) * (p.x - q.x) + (p.y - q.y) * (p.y - q.y)
    ensures Distance2(p, q) > 9.0 <==> r > 3.0
    ensures Distance2(p, q) > 4.0 <==> r > 2.0
  {
    SquareOrder(r, 3.0);
    SquareOrder(r, 2.0);
  }

  lemma SquareOrder(r: real, n: real)
    requires r >= 0.0 && n >= 0.0
    ensures r > n <==> r * r > n * n
  {
    assert r * r - n * n == (r - n) * (r + n);
    if r > n {
      Positive(r - n, r + n);
    } else {
      assert (n - r) * (r + n) >= 0.0;
    }
  }

  lemma Positive(x: real, y: real)
    requires x > 0.0 && y > 0.0
    ensures x * y > 0.0
  {
  }

  // ---- Tracking ----

  function Track(active: map<Id, TouchInfo>, touches: seq<Touch>, now: real): map<Id, TouchInfo> {
    if touches == [] then active
    else
      var t := touches[|touches| - 1];
      Track(active, touches[..|touches| - 1], now)[t.id := TouchInfo(t.at, t.at, t.at, now)]
  }

  function Follow(active: map<Id, TouchInfo>, touches: seq<Touch>): map<Id, TouchInfo> {
    if touches == [] then active
    else
      var t := touches[|touches| - 1];
      var before := Follow(active, touches[..|touches| - 1]);
      if t.id !in before then before
      else before[t.id := before[t.id].(previous := before[t.id].current, current := t.at)]
  }

  function Drop(active: map<Id, TouchInfo>, touches: seq<Touch>): map<Id, TouchInfo> {
    if touches == [] then active
    else Drop(active, touches[..|touches| - 1]) - {touches[|touches| - 1].id}
  }

  // ---- Sending ----

  /** A move, unless it is near the last one reported. */
  function MoveTo(s: Screen, h: Handler, p: Point): (Handler, seq<Out>) {
    var q := ToRemote(s, p);
    if h.last.Some? && Near(q, h.last.value) then (h, [])
    else (h.(last := Some(q)), [Move(q)])
  }

  function Tap(button: nat, p: Point): seq<Out> {
    [Click(button, p, true), Click(button, p, false)]
  }

  function Release(h: Handler): (Handler, seq<Out>) {
    (h.(mouseIsDown := false), [Click(LEFT, if h.last.Some? then h.last.value else Point(0.0, 0.0), false)])
  }

  /**
   A move is sent, and remembered, if and only if none was before or the position differs from
   the last one sent by a pixel or more, to the left, to the right, up or down.
   */
  lemma SendsMoveIff(s: Screen, h: Handler, p: Point)
    ensures var (g, out) := MoveTo(s, h, p);
      var q := ToRemote(s, p);
      if || h.last.None?
         || q.x - h.last.value.x >= 1.0 || h.last.value.x - q.x >= 1.0
         || q.y - h.last.value.y >= 1.0 || h.last.value.y - q.y >= 1.0
      then out == [Move(q)] && g == h.(last := Some(q))
      else out == [] && g == h
  {
    if h.last.Some? {
      NearMeaning(ToRemote(s, p), h.last.value);
    }
  }

  // ---- The four touch handlers ----

  function Began(s: Screen, h: Handler, touches: seq<Touch>, first: Id, now: real): (Handler, seq<Out>) {
    var (h1, taps) := Settled(s, h.(active := Track(h.active, touches, now)), |touches| == 1, first, now);
    if touches == [] then (h1, taps)
    else
      var (h2, moves) := MoveTo(s, h1, touches[0].at);
      (h2, taps + moves)
  }

  /** A lone touch may become a scroll; a second finger that comes alone is a right click. */
  function Settled(s: Screen, h: Handler, one: bool, first: Id, now: real): (Handler, seq<Out>) {
    if |h.active| == 1 && first in h.active then (h.(gesture := PossibleScroll(h.active[first].start, now)), [])
    else if |h.active| == 2 && one && first in h.active then
      (h.(gesture := Idle), Tap(RIGHT, ToRemote(s, h.active[first].current)))
    else (h, [])
  }

  function Moved(s: Screen, h: Handler, touches: seq<Touch>, first: Id, second: Id): (Handler, seq<Out>) {
    var active := Follow(h.active, touches);
    var h1 := h.(active := active);
    if |active| == 1 && first in active then
      var t := active[first];
      if !h.mouseIsDown && Distance2(t.current, t.start) > 9.0 then
        var (h2, moves) := MoveTo(s, h1.(mouseIsDown := true, gesture := Idle), t.current);
        (h2, [Click(LEFT, ToRemote(s, t.current), true)] + moves)
      else MoveTo(s, h1, t.current)
    else if |active| == 2 && first in active && second in active then
      Scrolled(h1, active[first], active[second])
    else (h1, [])
  }

  function Scrolled(h: Handler, a: TouchInfo, b: TouchInfo): (Handler, seq<Out>) {
    var before := Point((a.previous.x + b.previous.x) / 2.0, (a.previous.y + b.previous.y) / 2.0);
    var after := Point((a.current.x + b.current.x) / 2.0, (a.current.y + b.current.y) / 2.0);
    if Distance2(after, before) > 4.0 || h.gesture == Scrolling then
      (h.(gesture := Scrolling), [Scroll((after.x - before.x) * 3.0, (after.y - before.y) * 3.0)])
    else (h, [])
  }

  function Ended(s: Screen, h: Handler, touches: seq<Touch>): (Handler, seq<Out>) {
    Lifted(h.(active := Drop(h.active, touches)), |h.active| > 1,
           if touches == [] then [] else Tap(LEFT, ToRemote(s, touches[0].at)))
  }

  /** What is left after touches end, and what that sends: `taps` is the click of a lone finger. */
  function Lifted(h: Handler, wasMultiTouch: bool, taps: seq<Out>): (Handler, seq<Out>) {
    if |h.active| > 1 then (h, [])
    else
      var (h1, out) :=
        if h.mouseIsDown then Release(h) else (h, if |h.active| == 0 && !wasMultiTouch then taps else []);
      (h1.(gesture := Idle), out)
  }

  function Cancelled(h: Handler, touches: seq<Touch>): (Handler, seq<Out>) {
    var active := Drop(h.active, touches);
    var h1 := h.(active := active);
    if |active| > 0 then (h1, [])
    else
      var (h2, out) := if h.mouseIsDown then Release(h1) else (h1, []);
      (h2.(gesture := Idle), out)
  }

  // ---- Runs ----

  datatype Event =
    | TouchesBegan(touches: seq<Touch>, first: Id, now: real)
    | TouchesMoved(touches: seq<Touch>, first: Id, second: Id)
    | TouchesEnded(touches: seq<Touch>)
    | TouchesCancelled(touches: seq<Touch>)
    | ViewResized(w: real, h: real)
    | RemoteResized(w: real, h: real)

  function Resized(s: Screen, e: Event): Screen {
    match e
    case ViewResized(w, h) => s.(viewW := w, viewH := h)
    case RemoteResized(w, h) => s.(remoteW := w, remoteH := h)
    case _ => s
  }

  function Step(s: Screen, h: Handler, e: Event): (Handler, seq<Out>) {
    match e
    case TouchesBegan(touches, first, now) => Began(s, h, touches, first, now)
    case TouchesMoved(touches, first, second) => Moved(s, h, touches, first, second)
    case TouchesEnded(touches) => Ended(s, h, touches)
    case TouchesCancelled(touches) => Cancelled(h, touches)
    case _ => (h, [])
  }

  function After(s: Screen, h: Handler, run: seq<Event>): Handler
    decreases |run|
  {
    if run == [] then h else After(Resized(s, run[0]), Step(s, h, run[0]).0, run[1..])
  }

  function Sent(s: Screen, h: Handler, run: seq<Event>): seq<Out>
    decreases |run|
  {
    if run == [] then [] else Step(s, h, run[0]).1 + Sent(Resized(s, run[0]), Step(s, h, run[0]).0, run[1..])
  }

  /** A resize sends nothing, and the later events are handled with the new size. */
  lemma ResizesTakeEffect(s: Screen, h: Handler, w: real, h': real, run: seq<Event>)
    ensures var view, remote := ViewResized(w, h'), RemoteResized(w, h');
      && Sent(s, h, [view] + run) == Sent(s.(viewW := w, viewH := h'), h, run)
      && After(s, h, [view] + run) == After(s.(viewW := w, viewH := h'), h, run)
      && Sent(s, h, [remote] + run) == Sent(s.(remoteW := w, remoteH := h'), h, run)
      && After(s, h, [remote] + run) == After(s.(remoteW := w, remoteH := h'), h, run)
  {
    var view, remote := ViewResized(w, h'), RemoteResized(w, h');
    assert ([view] + run)[0] == view && ([view] + run)[1..] == run;
    assert ([remote] + run)[0] == remote && ([remote] + run)[1..] == run;
    assert [] + Sent(s.(viewW := w, viewH := h'), h, run) == Sent(s.(viewW := w, viewH := h'), h, run);
    assert [] + Sent(s.(remoteW := w, remoteH := h'), h, run) == Sent(s.(remoteW := w, remoteH := h'), h, run);
  }

  // ---- Button balance ----

  /**
   Plays events on a mouse whose left button is up or down: the state it ends in, or None
   if a button goes down while down or up while up, or the right button does not come up
   right after it goes down and where it went down.
   */
  function Play(outs: seq<Out>, down: bool): Option<bool>
    decreases |outs|
  {
    if outs == [] then Some(down)
    else if !outs[0].Click? then Play(outs[1..], down)
    else if outs[0].button == LEFT then
      if outs[0].down == down then None else Play(outs[1..], outs[0].down)
    else
      if outs[0].down && |outs| > 1 && outs[1] == outs[0].(down := false) then Play(outs[2..], down) else None
  }

  lemma {:induction false} PlayConcat(a: seq<Out>, b: seq<Out>, down: bool)
    requires Play(a, down).Some?
    ensures Play(a + b, down) == Play(b, Play(a, down).value)
    decreases |a|
  {
    if a == [] {
      assert a + b == b;
    } else {
      assert (a + b)[0] == a[0] && (a + b)[1..] == a[1..] + b;
      if !a[0].Click? {
        PlayConcat(a[1..], b, down);
      } else if a[0].button == LEFT {
        PlayConcat(a[1..], b, a[0].down);
      } else {
        assert (a + b)[1] == a[1] && (a + b)[2..] == a[2..] + b;
        PlayConcat(a[2..], b, down);
      }
    }
  }

  ghost predicate Inv(h: Handler) {
    h.active == map[] ==> !h.mouseIsDown
  }

  lemma PlayOne(x: Out, down: bool)
    requires !x.Click? || (x.button == LEFT && x.down != down)
    ensures Play([x], down) == Some(if x.Click? then x.down else down)
  {
    assert [x][1..] == [];
  }

  lemma PlayTap(button: nat, p: Point, down: bool)
    requires button == LEFT ==> !down
    ensures Play(Tap(button, p), down) == Some(down)
  {
    var t := Tap(button, p);
    assert t[1..] == [Click(button, p, false)] && t[2..] == [];
    if button == LEFT {
      PlayOne(t[1], true);
    }
  }

  lemma PlayMoves(s: Screen, h: Handler, p: Point)
    ensures var (g, out) := MoveTo(s, h, p);
      && g.active == h.active && g.mouseIsDown == h.mouseIsDown
      && forall down :: Play(out, down) == Some(down)
  {
    forall down ensures Play(MoveTo(s, h, p).1, down) == Some(down) {
      PlayOne(Move(ToRemote(s, p)), down);
    }
  }

  lemma {:induction false} TrackSome(active: map<Id, TouchInfo>, touches: seq<Touch>, now: real)
    ensures active.Keys <= Track(active, touches, now).Keys
  {
    if touches != [] {
      TrackSome(active, touches[..|touches| - 1], now);
    }
  }

  lemma {:induction false} FollowKeys(active: map<Id, TouchInfo>, touches: seq<Touch>)
    ensures Follow(active, touches).Keys == active.Keys
  {
    if touches != [] {
      FollowKeys(active, touches[..|touches| - 1]);
    }
  }

  lemma BeganBalanced(s: Screen, h: Handler, touches: seq<Touch>, first: Id, now: real)
    requires Inv(h)
    ensures var (g, out) := Began(s, h, touches, first, now);
      Inv(g) && g.mouseIsDown == h.mouseIsDown && Play(out, h.mouseIsDown) == Some(g.mouseIsDown)
  {
    var active := Track(h.active, touches, now);
    TrackSome(h.active, touches, now);
    assert active == map[] ==> h.active == map[] by {
      assert active == map[] ==> h.active.Keys <= {};
    }
    var (h1, taps) := Settled(s, h.(active := active), |touches| == 1, first, now);
    if first in active {
      PlayTap(RIGHT, ToRemote(s, active[first].current), h.mouseIsDown);
    }
    if touches != [] {
      PlayMoves(s, h1, touches[0].at);
      PlayConcat(taps, MoveTo(s, h1, touches[0].at).1, h.mouseIsDown);
    }
  }

  lemma MovedBalanced(s: Screen, h: Handler, touches: seq<Touch>, first: Id, second: Id)
    requires Inv(h)
    ensures var (g, out) := Moved(s, h, touches, first, second);
      Inv(g) && Play(out, h.mouseIsDown) == Some(g.mouseIsDown)
  {
    var active := Follow(h.active, touches);
    FollowKeys(h.active, touches);
    assert active == map[] ==> h.active == map[] by {
      assert active == map[] ==> h.active.Keys == {};
    }
    var h1 := h.(active := active);
    if |active| == 1 && first in active {
      var t := active[first];
      PlayMoves(s, h1, t.current);
      var h2 := h1.(mouseIsDown := true, gesture := Idle);
      PlayMoves(s, h2, t.current);
      var down := Click(LEFT, ToRemote(s, t.current), true);
      if !h.mouseIsDown {
        PlayOne(down, false);
        PlayConcat([down], MoveTo(s, h2, t.current).1, false);
      }
    } else if |active| == 2 && first in active && second in active {
      var out := Scrolled(h1, active[first], active[second]).1;
      if out != [] {
        PlayOne(out[0], h.mouseIsDown);
      }
    }
  }

  lemma LiftedBalanced(s: Screen, h: Handler, touches: seq<Touch>)
    requires Inv(h)
    ensures var (g, out) := Ended(s, h, touches); Inv(g) && Play(out, h.mouseIsDown) == Some(g.mouseIsDown)
    ensures var (g, out) := Cancelled(h, touches); Inv(g) && Play(out, h.mouseIsDown) == Some(g.mouseIsDown)
  {
    if h.mouseIsDown {
      PlayOne(Release(h).1[0], true);
    } else if touches != [] {
      PlayTap(LEFT, ToRemote(s, touches[0].at), false);
    }
  }

  /**
   In every run, with screens resizing at will: the left button goes down and up in strict
   turn and ends as the handler believes it to be, the right button only ever taps, and
   with no touch tracked the left button is up.
   */
  lemma {:induction false} ButtonsBalance(s: Screen, h: Handler, run: seq<Event>)
    requires Inv(h)
    ensures var g := After(s, h, run);
      && Play(Sent(s, h, run), h.mouseIsDown) == Some(g.mouseIsDown)
      && (g.active == map[] ==> !g.mouseIsDown)
    decreases |run|
  {
    if run != [] {
      var e := run[0];
      match e {
        case TouchesBegan(touches, first, now) => BeganBalanced(s, h, touches, first, now);
        case TouchesMoved(touches, first, second) => MovedBalanced(s, h, touches, first, second);
        case TouchesEnded(touches) => LiftedBalanced(s, h, touches);
        case TouchesCancelled(touches) => LiftedBalanced(s, h, touches);
        case _ =>
      }
      var (g, out) := Step(s, h, e);
      ButtonsBalance(Resized(s, e), g, run[1..]);
      PlayConcat(out, Sent(Resized(s, e), g, run[1..]), h.mouseIsDown);
    }
  }

  // ---- Lifting and cancelling ----

  function Ids(touches: seq<Touch>): set<Id> {
    set t | t in touches :: t.id
  }

  lemma {:induction false} DropKeys(active: map<Id, TouchInfo>, touches: seq<Touch>)
    ensures Drop(active, touches).Keys == active.Keys - Ids(touches)
  {
    if touches != [] {
      var n := |touches| - 1;
      DropKeys(active, touches[..n]);
      assert touches == touches[..n] + [touches[n]];
      assert Ids(touches) == Ids(touches[..n]) + {touches[n].id};
    }
  }

  /** The release of a pressed button, at the last position reported. */
  ghost predicate IsRelease(h: Handler, out: seq<Out>) {
    out == [Click(0, if h.last.Some? then h.last.value else Point(0.0, 0.0), false)]
  }

  /**
   What ending touches sends, by the fingers left: nothing while two or more are down; else
   the release of a pressed button; else a left click if the one finger down, or none, has
   lifted; else nothing.
   */
  lemma EndedMeaning(s: Screen, h: Handler, touches: seq<Touch>)
    ensures var (g, out) := Ended(s, h, touches);
      var left := h.active.Keys - Ids(touches);
      && g.active.Keys == left && g.last == h.last && g.mouseIsDown == (h.mouseIsDown && |left| >= 2)
      && g.gesture == (if |left| >= 2 then h.gesture else Idle)
      && (if |left| >= 2 then out == []
          else if h.mouseIsDown then IsRelease(h, out)
          else if |left| == 0 && |h.active.Keys| <= 1 && touches != [] then
            var at := ToRemote(s, touches[0].at);
            out == [Click(0, at, true), Click(0, at, false)]
          else out == [])
  {
    DropKeys(h.active, touches);
    var active := Drop(h.active, touches);
    assert |active| == |active.Keys| && |h.active| == |h.active.Keys|;
  }

  /** Cancelling never clicks: it releases a pressed button when the last finger goes, and else sends nothing. */
  lemma CancelledMeaning(h: Handler, touches: seq<Touch>)
    ensures var (g, out) := Cancelled(h, touches);
      var left := h.active.Keys - Ids(touches);
      && g.active.Keys == left && g.last == h.last && g.mouseIsDown == (h.mouseIsDown && left != {})
      && g.gesture == (if left != {} then h.gesture else Idle)
      && (if h.mouseIsDown && left == {} then IsRelease(h, out) else out == [])
  {
    DropKeys(h.active, touches);
    var active := Drop(h.active, touches);
    assert |active| == |active.Keys|;
  }

  /** Moves with no finger tracked, or more than two, send nothing. */
  lemma OtherMovesSendNothing(s: Screen, h: Handler, touches: seq<Touch>, first: Id, second: Id)
    requires |h.active.Keys| == 0 || |h.active.Keys| > 2
    ensures var (g, out) := Moved(s, h, touches, first, second);
      out == [] && g.active.Keys == h.active.Keys && g.mouseIsDown == h.mouseIsDown
  {
    FollowKeys(h.active, touches);
    var active := Follow(h.active, touches);
    assert |active| == |active.Keys|;
  }

  // ---- Coordinates stay on the screen ----

  predicate OnScreen(s: Screen, p: Point) {
    0.0 <= p.x <= s.remoteW && 0.0 <= p.y <= s.remoteH
  }

  predicate Shown(s: Screen, x: Out) {
    match x
    case Move(at) => OnScreen(s, at)
    case Click(_, at, _) => OnScreen(s, at)
    case Scroll(_, _) => true
  }

  ghost predicate AllShown(s: Screen, outs: seq<Out>) {
    forall k | 0 <= k < |outs| :: Shown(s, outs[k])
  }

  predicate LastShown(s: Screen, h: Handler) {
    h.last.Some? ==> OnScreen(s, h.last.value)
  }

  lemma ToRemoteShown(s: Screen, p: Point)
    requires s.remoteW >= 0.0 && s.remoteH >= 0.0
    ensures OnScreen(s, ToRemote(s, p))
  {
  }

  lemma MoveShown(s: Screen, h: Handler, p: Point)
    requires s.remoteW >= 0.0 && s.remoteH >= 0.0 && LastShown(s, h)
    ensures LastShown(s, MoveTo(s, h, p).0) && AllShown(s, MoveTo(s, h, p).1)
  {
    ToRemoteShown(s, p);
  }

  lemma BeganShown(s: Screen, h: Handler, touches: seq<Touch>, first: Id, now: real)
    requires s.remoteW >= 0.0 && s.remoteH >= 0.0 && LastShown(s, h)
    ensures var (g, out) := Began(s, h, touches, first, now); LastShown(s, g) && AllShown(s, out)
  {
    var active := Track(h.active, touches, now);
    if first in active {
      ToRemoteShown(s, active[first].current);
    }
    if touches != [] {
      MoveShown(s, Settled(s, h.(active := active), |touches| == 1, first, now).0, touches[0].at);
    }
  }

  lemma MovedShown(s: Screen, h: Handler, touches: seq<Touch>, first: Id, second: Id)
    requires s.remoteW >= 0.0 && s.remoteH >= 0.0 && LastShown(s, h)
    ensures var (g, out) := Moved(s, h, touches, first, second); LastShown(s, g) && AllShown(s, out)
  {
    var h1 := h.(active := Follow(h.active, touches));
    if first in h1.active {
      var p := h1.active[first].current;
      ToRemoteShown(s, p);
      MoveShown(s, h1, p);
      MoveShown(s, h1.(mouseIsDown := true, gesture := Idle), p);
    }
  }

  lemma LiftedShown(s: Screen, h: Handler, wasMultiTouch: bool, taps: seq<Out>)
    requires s.remoteW >= 0.0 && s.remoteH >= 0.0 && LastShown(s, h) && AllShown(s, taps)
    ensures var (g, out) := Lifted(h, wasMultiTouch, taps); LastShown(s, g) && AllShown(s, out)
  {
  }

  lemma EndedShown(s: Screen, h: Handler, touches: seq<Touch>)
    requires s.remoteW >= 0.0 && s.remoteH >= 0.0 && LastShown(s, h)
    ensures var (g, out) := Ended(s, h, touches); LastShown(s, g) && AllShown(s, out)
  {
    if touches != [] {
      ToRemoteShown(s, touches[0].at);
    }
    LiftedShown(s, h.(active := Drop(h.active, touches)), |h.active| > 1,
                if touches == [] then [] else Tap(LEFT, ToRemote(s, touches[0].at)));
  }

  lemma CancelledShown(s: Screen, h: Handler, touches: seq<Touch>)
    requires s.remoteW >= 0.0 && s.remoteH >= 0.0 && LastShown(s, h)
    ensures var (g, out) := Cancelled(h, touches); LastShown(s, g) && AllShown(s, out)
  {
  }

  lemma StepShown(s: Screen, h: Handler, e: Event)
    requires s.remoteW >= 0.0 && s.remoteH >= 0.0 && LastShown(s, h)
    ensures LastShown(s, Step(s, h, e).0) && AllShown(s, Step(s, h, e).1)
  {
    match e
    case TouchesBegan(touches, first, now) => BeganShown(s, h, touches, first, now);
    case TouchesMoved(touches, first, second) => MovedShown(s, h, touches, first, second);
    case TouchesEnded(touches) => EndedShown(s, h, touches);
    case TouchesCancelled(touches) => CancelledShown(s, h, touches);
    case _ =>
  }

  /** While the remote screen keeps its size, every position sent is on it. */
  lemma {:induction false} EveryPositionIsOnScreen(s: Screen, h: Handler, run: seq<Event>)
    requires s.remoteW >= 0.0 && s.remoteH >= 0.0 && LastShown(s, h)
    requires forall k | 0 <= k < |run| :: !run[k].RemoteResized?
    ensures AllShown(s, Sent(s, h, run)) && LastShown(s, After(s, h, run))
    decreases |run|
  {
    if run != [] {
      var e := run[0];
      StepShown(s, h, e);
      var s1 := Resized(s, e);
      EveryPositionIsOnScreen(s1, Step(s, h, e).0, run[1..]);
      var rest := Sent(s1, Step(s, h, e).0, run[1..]);
      assert forall x :: Shown(s, x) == Shown(s1, x);
    }
  }

  // ---- Moves are debounced ----

  function Moves(outs: seq<Out>): seq<Point> {
    if outs == [] then [] else (if outs[0].Move? then [outs[0].at] else []) + Moves(outs[1..])
  }

  lemma {:induction false} MovesConcat(a: seq<Out>, b: seq<Out>)
    ensures Moves(a + b) == Moves(a) + Moves(b)
  {
    if a == [] {
      assert a + b == b;
    } else {
      assert (a + b)[0] == a[0] && (a + b)[1..] == a[1..] + b;
      MovesConcat(a[1..], b);
    }
  }

  /** No two consecutive moves are near each other, starting from the last one reported. */
  ghost predicate Apart(last: Option<Point>, moves: seq<Point>) {
    && (last.Some? && moves != [] ==> !Near(moves[0], last.value))
    && forall k | 0 < k < |moves| :: !Near(moves[k], moves[k - 1])
  }

  function LastOf(last: Option<Point>, moves: seq<Point>): Option<Point> {
    if moves == [] then last else Some(moves[|moves| - 1])
  }

  lemma {:induction false} NoMoves(outs: seq<Out>)
    requires forall k | 0 <= k < |outs| :: !outs[k].Move?
    ensures Moves(outs) == []
  {
    if outs != [] {
      NoMoves(outs[1..]);
    }
  }

  /** At most one move, apart from the last and remembered as the new last. */
  ghost predicate Debounced(last: Option<Point>, out: seq<Out>, after: Option<Point>) {
    Apart(last, Moves(out)) && |Moves(out)| <= 1 && after == LastOf(last, Moves(out))
  }

  lemma MoveDebounced(s: Screen, h: Handler, p: Point)
    ensures var (g, out) := MoveTo(s, h, p); Debounced(h.last, out, g.last)
  {
    var out := MoveTo(s, h, p).1;
    assert out != [] ==> out[1..] == [];
  }

  lemma ClicksThenMove(s: Screen, h: Handler, clicks: seq<Out>, p: Point)
    requires forall k | 0 <= k < |clicks| :: !clicks[k].Move?
    ensures var (g, out) := MoveTo(s, h, p); Debounced(h.last, clicks + out, g.last)
  {
    MoveDebounced(s, h, p);
    NoMoves(clicks);
    MovesConcat(clicks, MoveTo(s, h, p).1);
  }

  lemma SettledMoves(s: Screen, h: Handler, one: bool, first: Id, now: real)
    ensures var (g, taps) := Settled(s, h, one, first, now);
      g.last == h.last && forall k | 0 <= k < |taps| :: !taps[k].Move?
  {
  }

  lemma BeganMoves(s: Screen, h: Handler, touches: seq<Touch>, first: Id, now: real)
    ensures var (g, out) := Began(s, h, touches, first, now); Debounced(h.last, out, g.last)
  {
    var h0 := h.(active := Track(h.active, touches, now));
    var (h1, taps) := Settled(s, h0, |touches| == 1, first, now);
    SettledMoves(s, h0, |touches| == 1, first, now);
    if touches == [] {
      StillDebounced(h.last, taps);
    } else {
      ClicksThenMove(s, h1, taps, touches[0].at);
    }
  }

  lemma LiftedMoves(h: Handler, wasMultiTouch: bool, taps: seq<Out>)
    requires forall k | 0 <= k < |taps| :: !taps[k].Move?
    ensures var (g, out) := Lifted(h, wasMultiTouch, taps); Debounced(h.last, out, g.last)
  {
    StillDebounced(h.last, Lifted(h, wasMultiTouch, taps).1);
  }

  lemma EndedMoves(s: Screen, h: Handler, touches: seq<Touch>)
    ensures var (g, out) := Ended(s, h, touches); Debounced(h.last, out, g.last)
  {
    LiftedMoves(h.(active := Drop(h.active, touches)), |h.active| > 1,
                if touches == [] then [] else Tap(LEFT, ToRemote(s, touches[0].at)));
  }

  lemma StillDebounced(last: Option<Point>, out: seq<Out>)
    requires forall k | 0 <= k < |out| :: !out[k].Move?
    ensures Debounced(last, out, last)
  {
    NoMoves(out);
  }

  lemma CancelledMoves(h: Handler, touches: seq<Touch>)
    ensures var (g, out) := Cancelled(h, touches); Debounced(h.last, out, g.last)
  {
    NoMoves(Cancelled(h, touches).1);
  }

  lemma StepMoves(s: Screen, h: Handler, e: Event)
    ensures var (g, out) := Step(s, h, e); Debounced(h.last, out, g.last)
  {
    match e
    case TouchesBegan(touches, first, now) => BeganMoves(s, h, touches, first, now);
    case TouchesMoved(touches, first, second) => MovedMoves(s, h, touches, first, second);
    case TouchesEnded(touches) => EndedMoves(s, h, touches);
    case TouchesCancelled(touches) => CancelledMoves(h, touches);
    case _ =>
  }

  lemma MovedMoves(s: Screen, h: Handler, touches: seq<Touch>, first: Id, second: Id)
    ensures var (g, out) := Moved(s, h, touches, first, second); Debounced(h.last, out, g.last)
  {
    var h1 := h.(active := Follow(h.active, touches));
    if |h1.active| == 1 && first in h1.active {
      var p := h1.active[first].current;
      MoveDebounced(s, h1, p);
      ClicksThenMove(s, h1.(mouseIsDown := true, gesture := Idle), [Click(LEFT, ToRemote(s, p), true)], p);
    } else {
      NoMoves(Moved(s, h, touches, first, second).1);
    }
  }

  /** In every run, each move sent differs by a pixel or more from the one sent before it. */
  lemma {:induction false} MovesAreDebounced(s: Screen, h: Handler, run: seq<Event>)
    ensures Apart(h.last, Moves(Sent(s, h, run)))
    ensures After(s, h, run).last == LastOf(h.last, Moves(Sent(s, h, run)))
    decreases |run|
  {
    if run != [] {
      var e := run[0];
      StepMoves(s, h, e);
      var (g, out) := Step(s, h, e);
      var rest := Sent(Resized(s, e), g, run[1..]);
      MovesAreDebounced(Resized(s, e), g, run[1..]);
      MovesConcat(out, rest);
    }
  }
}
