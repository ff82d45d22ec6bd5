/** The touch handler as an object; what it hands to the remote service is appended to `sent`. */
module TouchObjects {
  import opened Options
  import opened TouchModel

  class TouchHandler {
    var screen: Screen
    var activeTouchInfo: map<Id, TouchInfo>
    var mouseIsDown: bool
    var lastReported: Option<Point>
    var gesture: Gesture
    var sent: seq<Out>

    constructor (screen: Screen)
      ensures this.screen == screen && Contents() == FRESH && sent == []
    {
      this.screen := screen;
      activeTouchInfo, mouseIsDown, lastReported, gesture, sent := map[], false, None, Idle, [];
    }

    function Contents(): Handler
      reads this
    {
      Handler(activeTouchInfo, mouseIsDown, lastReported, gesture)
    }

    method TouchesBegan(touches: seq<Touch>, first: Id, now: real)
      modifies this
      ensures var (h, out) := Began(screen, old(Contents()), touches, first, now);
        Contents() == h && sent == old(sent) + out && screen == old(screen)
    {
      for n := 0 to |touches|
        invariant activeTouchInfo == Track(old(activeTouchInfo), touches[..n], now)
        invariant unchanged(this`screen, this`mouseIsDown, this`lastReported, this`gesture, this`sent)
      {
        assert touches[..n + 1][..n] == touches[..n];
        var at := touches[n].at;
        activeTouchInfo := activeTouchInfo[touches[n].id := TouchInfo(at, at, at, now)];
      }
      assert touches[..|touches|] == touches;
      Settle(|touches| == 1, first, now);
      if touches != [] {
        SendMouseMove(touches[0].at);
      }
    }

    method Settle(one: bool, first: Id, now: real)
      modifies this`gesture, this`sent
      ensures var (h, out) := Settled(screen, old(Contents()), one, first, now);
        Contents() == h && sent == old(sent) + out
    {
      var count := |activeTouchInfo|;
      if count == 1 {
        if first in activeTouchInfo {
          gesture := PossibleScroll(activeTouchInfo[first].start, now);
        }
      } else if count == 2 && one {
        if first in activeTouchInfo {
          SendTap(RIGHT, ToRemote(screen, activeTouchInfo[first].current));
          gesture := Idle;
        }
      }
    }

    method TouchesMoved(touches: seq<Touch>, first: Id, second: Id)
      modifies this
      ensures var (h, out) := Moved(screen, old(Contents()), touches, first, second);
        Contents() == h && sent == old(sent) + out && screen == old(screen)
    {
      for n := 0 to |touches|
        invariant activeTouchInfo == Follow(old(activeTouchInfo), touches[..n])
        invariant unchanged(this`screen, this`mouseIsDown, this`lastReported, this`gesture, this`sent)
      {
        assert touches[..n + 1][..n] == touches[..n];
        var t := touches[n];
        if t.id in activeTouchInfo {
          var info := activeTouchInfo[t.id];
          activeTouchInfo := activeTouchInfo[t.id := info.(previous := info.current, current := t.at)];
        }
      }
      assert touches[..|touches|] == touches;
      var count := |activeTouchInfo|;
      if count == 1 && first in activeTouchInfo {
        var info := activeTouchInfo[first];
        if !mouseIsDown && Distance2(info.current, info.start) > 9.0 {
          SendMouseClick(LEFT, ToRemote(screen, info.current), true);
          mouseIsDown := true;
          gesture := Idle;
        }
        SendMouseMove(info.current);
      } else if count == 2 && first in activeTouchInfo && second in activeTouchInfo {
        HandleTwoFingerScroll(activeTouchInfo[first], activeTouchInfo[second]);
      }
    }

    method HandleTwoFingerScroll(a: TouchInfo, b: TouchInfo)
      modifies this`gesture, this`sent
      ensures var (h, out) := Scrolled(old(Contents()), a, b); Contents() == h && sent == old(sent) + out
    {
      var before := Point((a.previous.x + b.previous.x) / 2.0, (a.previous.y + b.previous.y) / 2.0);
      var after := Point((a.current.x + b.current.x) / 2.0, (a.current.y + b.current.y) / 2.0);
      if Distance2(after, before) > 4.0 || gesture == Scrolling {
        gesture := Scrolling;
        sent := sent + [Scroll((after.x - before.x) * 3.0, (after.y - before.y) * 3.0)];
      }
    }

    method RemoveTouches(touches: seq<Touch>)
      modifies this`activeTouchInfo
      ensures activeTouchInfo == Drop(old(activeTouchInfo), touches)
    {
      for n := 0 to |touches|
        invariant activeTouchInfo == Drop(old(activeTouchInfo), touches[..n])
      {
        assert touches[..n + 1][..n] == touches[..n];
        activeTouchInfo := activeTouchInfo - {touches[n].id};
      }
      assert touches[..|touches|] == touches;
    }

    method TouchesEnded(touches: seq<Touch>)
      modifies this
      ensures var (h, out) := Ended(screen, old(Contents()), touches);
        Contents() == h && sent == old(sent) + out && screen == old(screen)
    {
      var wasMultiTouch := |activeTouchInfo| > 1;
      RemoveTouches(touches);
      var remaining := |activeTouchInfo|;
      if remaining == 0 {
        if mouseIsDown {
          SendMouseUp();
          mouseIsDown := false;
        } else if !wasMultiTouch && touches != [] {
          SendTap(LEFT, ToRemote(screen, touches[0].at));
        }
        gesture := Idle;
      } else if remaining == 1 {
        if mouseIsDown {
          SendMouseUp();
          mouseIsDown := false;
        }
        gesture := Idle;
      }
    }

    method TouchesCancelled(touches: seq<Touch>)
      modifies this
      ensures var (h, out) := Cancelled(old(Contents()), touches);
        Contents() == h && sent == old(sent) + out && screen == old(screen)
    {
      RemoveTouches(touches);
      if |activeTouchInfo| == 0 {
        if mouseIsDown {
          SendMouseUp();
          mouseIsDown := false;
        }
        gesture := Idle;
      }
    }

    method SendMouseMove(p: Point)
      modifies this`lastReported, this`sent
      ensures var (h, out) := MoveTo(screen, old(Contents()), p); Contents() == h && sent == old(sent) + out
    {
      var q := ToRemote(screen, p);
      if lastReported.Some? {
        var dx, dy := AbsReal(q.x - lastReported.value.x), AbsReal(q.y - lastReported.value.y);
        if dx < 1.0 && dy < 1.0 {
          return;
        }
      }
      lastReported := Some(q);
      sent := sent + [Move(q)];
    }

    method SendMouseClick(button: nat, at: Point, down: bool)
      modifies this`sent
      ensures sent == old(sent) + [Click(button, at, down)]
    {
      sent := sent + [Click(button, at, down)];
    }

    method SendMouseUp()
      modifies this`sent
      ensures sent == old(sent) + Release(old(Contents())).1
    {
      var at := Point(0.0, 0.0);
      if lastReported.Some? {
        at := lastReported.value;
      }
      SendMouseClick(LEFT, at, false);
    }

    method SendTap(button: nat, at: Point)
      modifies this`sent
      ensures sent == old(sent) + Tap(button, at)
    {
      SendMouseClick(button, at, true);
      SendMouseClick(button, at, false);
    }
  }
}
