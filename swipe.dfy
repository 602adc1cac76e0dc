/**
 * The swipe card's drag gesture: press, move and release, with the like and
 * nope indicators shown past 50 pixels and a swipe committed past 100.
 *
 * The release handler runs from document listeners that are registered when
 * dragging begins, so it sees the component state of that moment. The model
 * keeps both readings: `EndDragAsWritten` decides on the horizontal offset
 * captured when the listeners were registered (`listenerOffsetX`), and
 * `EndDrag` decides on the offset the drag has reached.
 */
module Swipe {
  import opened Wrappers

  const IndicatorThreshold := 50
  const CommitThreshold := 100

  datatype Direction = Left | Right

  function Abs(x: int): nat {
    if x < 0 then -x else x
  }

  datatype Indicators = Indicators(like: bool, nope: bool)

  /** The indicators for a horizontal offset: never both, "like" to the right. */
  function IndicatorsFor(deltaX: int): (r: Indicators)
    ensures !(r.like && r.nope)
    ensures r.like <==> deltaX > IndicatorThreshold
    ensures r.nope <==> deltaX < -IndicatorThreshold
    ensures r.like || r.nope <==> Abs(deltaX) > IndicatorThreshold
  {
    if Abs(deltaX) > IndicatorThreshold then
      if deltaX > 0 then Indicators(true, false) else Indicators(false, true)
    else Indicators(false, false)
  }

  /** Where a release at horizontal offset `x` sends the card, if anywhere. */
  function Verdict(x: int): (r: Option<Direction>)
    ensures r == Some(Right) <==> x > CommitThreshold
    ensures r == Some(Left) <==> x < -CommitThreshold
    ensures r.None? <==> Abs(x) <= CommitThreshold
  {
    if Abs(x) > CommitThreshold then
      if x > 0 then Some(Right) else Some(Left)
    else None
  }

  /** Which of the optional `onSwipeLeft` / `onSwipeRight` props were passed. */
  datatype Callbacks = Callbacks(onSwipeLeft: bool, onSwipeRight: bool)

  /** The callback calls a committed swipe makes: its direction's, when passed. */
  function Invoked(d: Direction, cb: Callbacks): (r: seq<Direction>)
    ensures |r| <= 1
    ensures r == [d] <==> (d == Left && cb.onSwipeLeft) || (d == Right && cb.onSwipeRight)
    ensures r != [d] ==> r == []
  {
    if (d == Left && cb.onSwipeLeft) || (d == Right && cb.onSwipeRight) then [d] else []
  }

  /**
   * The component state. Rotation is kept in tenths of a degree, which is
   * the horizontal offset itself; `fired` records the callbacks called.
   */
  datatype Card = Card(
    isDragging: bool,
    startX: int,
    startY: int,
    offsetX: int,
    offsetY: int,
    rotationTenths: int,
    showLike: bool,
    showNope: bool,
    listenerOffsetX: int,
    fired: seq<Direction>)

  const Initial := Card(false, 0, 0, 0, 0, 0, false, false, 0, [])

  /** Rotation and indicators agree with the horizontal offset. */
  predicate Consistent(c: Card) {
    c.rotationTenths == c.offsetX && Indicators(c.showLike, c.showNope) == IndicatorsFor(c.offsetX)
  }

  /**
   * `handleStart`: record the start point and begin dragging. Only a press
   * that begins a drag registers new listeners, which then see the current offset.
   */
  function StartDrag(c: Card, x: int, y: int): (r: Card)
    ensures r.isDragging && r.startX == x && r.startY == y
    ensures !c.isDragging ==> r.listenerOffsetX == c.offsetX
    ensures c.isDragging ==> r.listenerOffsetX == c.listenerOffsetX
    ensures r.offsetX == c.offsetX && r.offsetY == c.offsetY && r.fired == c.fired
    ensures Consistent(c) ==> Consistent(r)
  {
    c.(isDragging := true, startX := x, startY := y,
       listenerOffsetX := if c.isDragging then c.listenerOffsetX else c.offsetX)
  }

  /** `handleMove`: while dragging, the offset is the pointer's distance from the start point. */
  function MoveTo(c: Card, x: int, y: int): (r: Card)
    ensures !c.isDragging ==> r == c
    ensures c.isDragging ==> r.offsetX == x - c.startX && r.offsetY == y - c.startY && Consistent(r)
    ensures r.isDragging == c.isDragging && r.startX == c.startX && r.startY == c.startY
    ensures r.listenerOffsetX == c.listenerOffsetX && r.fired == c.fired
    ensures Consistent(c) ==> Consistent(r)
  {
    if !c.isDragging then c
    else
      var dx := x - c.startX;
      var ind := IndicatorsFor(dx);
      c.(offsetX := dx, offsetY := y - c.startY, rotationTenths := dx, showLike := ind.like, showNope := ind.nope)
  }

  /**
   * The body of `handleEnd`, deciding on horizontal offset `x`: stop
   * dragging, then either call the direction's callback and leave the card
   * where it is, or snap it back to the centre with both indicators off.
   */
  function Release(c: Card, x: int, cb: Callbacks): (r: Card)
    ensures !c.isDragging ==> r == c
    ensures c.isDragging ==> !r.isDragging
    ensures c.isDragging && Verdict(x).Some? ==>
      r == c.(isDragging := false, fired := c.fired + Invoked(Verdict(x).value, cb))
    ensures c.isDragging && Verdict(x).None? ==>
      && r.offsetX == 0 && r.offsetY == 0 && r.rotationTenths == 0
      && !r.showLike && !r.showNope && r.fired == c.fired
    ensures r.listenerOffsetX == c.listenerOffsetX
    ensures Consistent(c) ==> Consistent(r)
  {
    if !c.isDragging then c
    else
      var c' := c.(isDragging := false);
      match Verdict(x)
      case Some(d) => c'.(fired := c'.fired + Invoked(d, cb))
      case None => c'.(offsetX := 0, offsetY := 0, rotationTenths := 0, showLike := false, showNope := false)
  }

  /** A release that decides on the offset the drag has reached. */
  function EndDrag(c: Card, cb: Callbacks): Card {
    Release(c, c.offsetX, cb)
  }

  /** A release that decides on the offset captured when its listener was registered. */
  function EndDragAsWritten(c: Card, cb: Callbacks): Card {
    Release(c, c.listenerOffsetX, cb)
  }

  datatype Gesture = Start(x: int, y: int) | Move(x: int, y: int) | End

  function Step(c: Card, g: Gesture, cb: Callbacks, asWritten: bool): Card {
    match g
    case Start(x, y) => StartDrag(c, x, y)
    case Move(x, y) => MoveTo(c, x, y)
    case End => if asWritten then EndDragAsWritten(c, cb) else EndDrag(c, cb)
  }

  /** The card after a sequence of gestures, applied first to last. */
  function Run(c: Card, gs: seq<Gesture>, cb: Callbacks, asWritten: bool): Card
    decreases |gs|
  {
    if gs == [] then c else Step(Run(c, gs[..|gs| - 1], cb, asWritten), gs[|gs| - 1], cb, asWritten)
  }

  /** Whatever the gestures, rotation and indicators keep following the offset. */
  lemma {:induction false} RunKeepsConsistent(c: Card, gs: seq<Gesture>, cb: Callbacks, asWritten: bool)
    requires Consistent(c)
    ensures Consistent(Run(c, gs, cb, asWritten))
    decreases |gs|
  {
    if gs != [] {
      RunKeepsConsistent(c, gs[..|gs| - 1], cb, asWritten);
    }
  }

  /**
   * The as-written machine's invariant: nothing fired, a card at rest sits
   * at offset 0, and a card being dragged has listeners that saw offset 0.
   */
  predicate NeverCommitted(c: Card) {
    && c.fired == []
    && (!c.isDragging ==> c.offsetX == 0)
    && (c.isDragging ==> c.listenerOffsetX == 0)
  }

  lemma {:induction false} AsWrittenStaysUncommitted(c: Card, gs: seq<Gesture>, cb: Callbacks)
    requires NeverCommitted(c)
    ensures NeverCommitted(Run(c, gs, cb, true))
    decreases |gs|
  {
    if gs != [] {
      AsWrittenStaysUncommitted(c, gs[..|gs| - 1], cb);
    }
  }

  /** As written, no sequence of gestures from a fresh card ever calls a swipe callback. */
  lemma AsWrittenNeverSwipes(gs: seq<Gesture>, cb: Callbacks)
    ensures Run(Initial, gs, cb, true).fired == []
  {
    AsWrittenStaysUncommitted(Initial, gs, cb);
  }

  /**
   * Press at (0, 0), drag to (200, 0), release: deciding on the current
   * offset swipes right, but the as-written release calls nothing.
   */
  lemma StaleReleaseLosesSwipe()
    ensures Run(Initial, [Start(0, 0), Move(200, 0), End], Callbacks(true, true), true).fired == []
    ensures Run(Initial, [Start(0, 0), Move(200, 0), End], Callbacks(true, true), false).fired == [Right]
  {
    AsWrittenNeverSwipes([Start(0, 0), Move(200, 0), End], Callbacks(true, true));
    DragCommitsPastThreshold(Initial, 0, 0, 200, 0, Callbacks(true, true));
  }

  /**
   * Deciding on the current offset, a press, one move and a release from a
   * card at rest commit exactly when the move went more than 100 pixels
   * from the press, in the move's direction; otherwise the card is centred.
   */
  lemma DragCommitsPastThreshold(c: Card, x0: int, y0: int, x1: int, y1: int, cb: Callbacks)
    requires !c.isDragging
    ensures var r := Run(c, [Start(x0, y0), Move(x1, y1), End], cb, false);
      && !r.isDragging
      && (x1 - x0 > CommitThreshold ==> r.fired == c.fired + Invoked(Right, cb) && r.offsetX == x1 - x0)
      && (x1 - x0 < -CommitThreshold ==> r.fired == c.fired + Invoked(Left, cb) && r.offsetX == x1 - x0)
      && (Abs(x1 - x0) <= CommitThreshold ==> r.fired == c.fired && r.offsetX == 0 && r.offsetY == 0)
  {
    var gs := [Start(x0, y0), Move(x1, y1), End];
    assert gs[..2] == [Start(x0, y0), Move(x1, y1)] && gs[..2][..1] == [Start(x0, y0)];
    var pressed := StartDrag(c, x0, y0);
    assert Run(c, gs[..2][..1], cb, false) == pressed;
    var moved := MoveTo(pressed, x1, y1);
    assert Run(c, gs[..2], cb, false) == moved;
    assert moved.offsetX == x1 - x0 && moved.isDragging;
  }

  /** The component, its state held in fields that its handlers update. */
  class SwipeCard {
    const callbacks: Callbacks
    var isDragging: bool
    var startX: int
    var startY: int
    var offsetX: int
    var offsetY: int
    var rotationTenths: int
    var showLike: bool
    var showNope: bool
    var listenerOffsetX: int
    var fired: seq<Direction>

    function State(): Card
      reads this
    {
      Card(isDragging, startX, startY, offsetX, offsetY, rotationTenths, showLike, showNope, listenerOffsetX, fired)
    }

    constructor (callbacks: Callbacks)
      ensures this.callbacks == callbacks && State() == Initial
    {
      this.callbacks := callbacks;
      isDragging, startX, startY, offsetX, offsetY := false, 0, 0, 0, 0;
      rotationTenths, showLike, showNope, listenerOffsetX, fired := 0, false, false, 0, [];
    }

    method HandleStart(x: int, y: int)
      modifies this
      ensures State() == StartDrag(old(State()), x, y)
    {
      if !isDragging {
        listenerOffsetX := offsetX;
      }
      isDragging := true;
      startX, startY := x, y;
    }

    method HandleMove(x: int, y: int)
      modifies this
      ensures State() == MoveTo(old(State()), x, y)
    {
      if !isDragging {
        return;
      }
      var dx, dy := x - startX, y - startY;
      offsetX, offsetY := dx, dy;
      rotationTenths := dx;
      if Abs(dx) > IndicatorThreshold {
        if dx > 0 {
          showLike, showNope := true, false;
        } else {
          showLike, showNope := false, true;
        }
      } else {
        showLike, showNope := false, false;
      }
    }

    /** `handleEnd`, deciding on the current offset. */
    method HandleEnd()
      modifies this
      ensures State() == EndDrag(old(State()), callbacks)
    {
      ReleaseAt(offsetX);
    }

    /** `handleEnd` as the document listener runs it, on the offset it captured. */
    method HandleEndAsWritten()
      modifies this
      ensures State() == EndDragAsWritten(old(State()), callbacks)
    {
      ReleaseAt(listenerOffsetX);
    }

    method ReleaseAt(x: int)
      modifies this
      ensures State() == Release(old(State()), x, callbacks)
    {
      if !isDragging {
        return;
      }
      isDragging := false;
      if Abs(x) > CommitThreshold {
        if x > 0 {
          if callbacks.onSwipeRight {
            fired := fired + [Right];
          }
        } else {
          if callbacks.onSwipeLeft {
            fired := fired + [Left];
          }
        }
      } else {
        offsetX, offsetY := 0, 0;
        rotationTenths := 0;
        showLike, showNope := false, false;
      }
    }
  }

  /**
   * Drive a fresh card through the gestures and report the callbacks it
   * called: those of `Run`, and none at all with the as-written release.
   */
  method Replay(gs: seq<Gesture>, cb: Callbacks, asWritten: bool) returns (fired: seq<Direction>)
    ensures fired == Run(Initial, gs, cb, asWritten).fired
    ensures asWritten ==> fired == []
  {
    var card := new SwipeCard(cb);
    var i := 0;
    while i < |gs|
      invariant 0 <= i <= |gs|
      invariant card.State() == Run(Initial, gs[..i], cb, asWritten)
    {
      assert gs[..i + 1][..i] == gs[..i];
      match gs[i] {
        case Start(x, y) => card.HandleStart(x, y);
        case Move(x, y) => card.HandleMove(x, y);
        case End =>
          if asWritten {
            card.HandleEndAsWritten();
          } else {
            card.HandleEnd();
          }
      }
      i := i + 1;
    }
    assert gs[..|gs|] == gs;
    fired := card.fired;
    if asWritten {
      AsWrittenNeverSwipes(gs, cb);
    }
  }
}
