/** The drag-selection window of boxcutter.cpp: the fields BoxCutterWindow's
    mouse callbacks update, a value-level transition function for them, and
    what a run of mouse events leaves in have_coords and get_coords. */
module Selection {

  /** A cursor position as GetCursorPos reports it. */
  datatype Point = Point(x: int, y: int)

  /** The three mouse messages the window procedure routes, each carrying the
      cursor position the callback reads (the button-up callback reads none). */
  datatype Event = Down(pos: Point) | Move(pos: Point) | Up

  /** The window's selection fields: m_active, m_drag, m_draw, m_have_coords,
      m_start, m_end. */
  datatype State = State(active: bool, drag: bool, draw: bool, haveCoords: bool,
                         start: Point, end: Point)

  /** The constructor sets the flags; m_start and m_end are left as they were
      allocated, so their contents are a parameter here. */
  function Initial(start: Point, end: Point): (s: State)
    ensures s.active && !s.drag && !s.draw && !s.haveCoords
  {
    State(true, false, false, false, start, end)
  }

  /** One callback: on_mouse_down, on_mouse_move or on_mouse_up. */
  function Step(s: State, e: Event): (r: State)
    ensures e.Up? ==> !r.active
    ensures e.Down? ==> r.drag && r.start == e.pos
    ensures e.Move? && !s.drag ==> r == s
    ensures e.Move? && s.drag ==> r.draw && r.end == e.pos
    ensures s.haveCoords ==> r.haveCoords
  {
    match e
    case Down(pos) => s.(drag := true, start := pos)
    case Up => if s.draw then s.(drag := false, draw := false, haveCoords := true, active := false)
               else s.(active := false)
    case Move(pos) => if s.drag then s.(draw := true, end := pos) else s
  }

  /** The callbacks a sequence of events triggers, in order, every event
      dispatched. main_loop does not do this past the first button-up; that
      is Pump below. */
  function Run(s: State, es: seq<Event>): State
    decreases |es|
  {
    if es == [] then s else Run(Step(s, es[0]), es[1..])
  }

  /** A rectangle is drawn only while dragging. */
  predicate Valid(s: State) {
    s.draw ==> s.drag
  }

  /** How far a run has come towards a selection: 0 nothing, 1 button down,
      2 button down and moved, 3 finished (have_coords). */
  function Phase(s: State): nat {
    if s.haveCoords then 3 else if s.draw then 2 else if s.drag then 1 else 0
  }

  /** The phase automaton, written over events alone: a down, then a move,
      then an up, each advancing it one place. */
  function Advance(p: nat, e: Event): (q: nat)
    ensures p <= q
    ensures p <= 3 ==> q <= 3
  {
    if p == 0 && e.Down? then 1
    else if p == 1 && e.Move? then 2
    else if p == 2 && e.Up? then 3
    else p
  }

  function Progress(es: seq<Event>, p: nat): nat
    decreases |es|
  {
    if es == [] then p else Progress(es[1..], Advance(p, es[0]))
  }

  /** There is a button-down, later a move, and later a button-up. */
  predicate DownMoveUp(es: seq<Event>) {
    exists i, j, k :: 0 <= i < j < k < |es| && es[i].Down? && es[j].Move? && es[k].Up?
  }

  /** A callback keeps Valid and advances Phase as Advance does. */
  lemma StepPhase(s: State, e: Event)
    requires Valid(s)
    ensures Valid(Step(s, e))
    ensures Phase(Step(s, e)) == Advance(Phase(s), e)
  {
  }

  lemma {:induction false} RunPhase(s: State, es: seq<Event>)
    requires Valid(s)
    ensures Valid(Run(s, es))
    ensures Phase(Run(s, es)) == Progress(es, Phase(s))
    decreases |es|
  {
    if es != [] {
      StepPhase(s, es[0]);
      RunPhase(Step(s, es[0]), es[1..]);
    }
  }

  lemma {:induction false} ProgressBounds(es: seq<Event>, p: nat)
    ensures p <= Progress(es, p)
    ensures p <= 3 ==> Progress(es, p) <= 3
    decreases |es|
  {
    if es != [] {
      ProgressBounds(es[1..], Advance(p, es[0]));
    }
  }

  lemma {:induction false} ProgressAppend(a: seq<Event>, b: seq<Event>, p: nat)
    ensures Progress(a + b, p) == Progress(b, Progress(a, p))
    decreases |a|
  {
    if a == [] {
      assert a + b == b;
    } else {
      assert (a + b)[1..] == a[1..] + b;
      ProgressAppend(a[1..], b, Advance(p, a[0]));
    }
  }

  /** Progress through an event: the phase before it, then Advance, then
      the rest. */
  lemma ProgressSplit(es: seq<Event>, i: nat, p: nat)
    requires i < |es| && p <= 3
    ensures Progress(es, p) == Progress(es[i + 1..], Advance(Progress(es[..i], p), es[i]))
    ensures p <= Progress(es[..i], p) <= 3
  {
    var rest := [es[i]] + es[i + 1..];
    assert es == es[..i] + rest;
    ProgressAppend(es[..i], rest, p);
    assert rest[1..] == es[i + 1..];
    ProgressBounds(es[..i], p);
  }

  /** A down, a move and an up, in that order, finish the automaton. */
  lemma ProgressOfPattern(es: seq<Event>, i: nat, j: nat, k: nat)
    requires i < j < k < |es| && es[i].Down? && es[j].Move? && es[k].Up?
    ensures Progress(es, 0) == 3
  {
    ProgressSplit(es, i, 0);
    var p1 := Advance(Progress(es[..i], 0), es[i]);
    var t := es[i + 1..];
    assert t[j - i - 1] == es[j];
    ProgressSplit(t, j - i - 1, p1);
    var p2 := Advance(Progress(t[..j - i - 1], p1), es[j]);
    var u := t[j - i..];
    assert u[k - j - 1] == es[k];
    ProgressSplit(u, k - j - 1, p2);
    var p3 := Advance(Progress(u[..k - j - 1], p2), es[k]);
    ProgressBounds(u[k - j..], p3);
  }

  /** Conversely, the automaton finishes only through such a pattern; from a
      later phase, less of the pattern is still needed. */
  lemma {:induction false} PatternOfProgress(es: seq<Event>, p: nat)
    requires p < 3 && Progress(es, p) == 3
    ensures p == 0 ==> DownMoveUp(es)
    ensures p == 1 ==> exists j, k :: 0 <= j < k < |es| && es[j].Move? && es[k].Up?
    ensures p == 2 ==> exists k :: 0 <= k < |es| && es[k].Up?
    decreases |es|
  {
    assert es != [];
    var q := Advance(p, es[0]);
    if q == 3 {
      assert p == 2 && es[0].Up?;
    } else {
      PatternOfProgress(es[1..], q);
      var t := es[1..];
      if p == 0 && q == 0 {
        var i, j, k :| 0 <= i < j < k < |t| && t[i].Down? && t[j].Move? && t[k].Up?;
        assert es[i + 1].Down? && es[j + 1].Move? && es[k + 1].Up?;
      } else if p == 0 {
        var j, k :| 0 <= j < k < |t| && t[j].Move? && t[k].Up?;
        assert es[0].Down? && es[j + 1].Move? && es[k + 1].Up?;
      } else if p == 1 && q == 1 {
        var j, k :| 0 <= j < k < |t| && t[j].Move? && t[k].Up?;
        assert es[j + 1].Move? && es[k + 1].Up?;
      } else if p == 1 {
        var k :| 0 <= k < |t| && t[k].Up?;
        assert es[0].Move? && es[k + 1].Up?;
      } else {
        var k :| 0 <= k < |t| && t[k].Up?;
        assert es[k + 1].Up?;
      }
    }
  }

  /** have_coords is true after a run of callbacks exactly when some
      button-down was followed by a move and later by a button-up. */
  lemma HaveCoordsIff(start: Point, end: Point, es: seq<Event>)
    ensures Run(Initial(start, end), es).haveCoords <==> DownMoveUp(es)
  {
    var s := Initial(start, end);
    RunPhase(s, es);
    ProgressBounds(es, 0);
    if DownMoveUp(es) {
      var i, j, k :| 0 <= i < j < k < |es| && es[i].Down? && es[j].Move? && es[k].Up?;
      ProgressOfPattern(es, i, j, k);
    }
    if Run(s, es).haveCoords {
      PatternOfProgress(es, 0);
    }
  }

  /** The positions of the moves made after some button-down. */
  function DraggedMoves(es: seq<Event>, dragging: bool): seq<Point>
    decreases |es|
  {
    if es == [] then []
    else match es[0]
      case Down(_) => DraggedMoves(es[1..], true)
      case Move(p) => (if dragging then [p] else []) + DraggedMoves(es[1..], dragging)
      case Up => DraggedMoves(es[1..], dragging)
  }

  /** The position of the last button-down, or `d` when there is none. */
  function LastDown(es: seq<Event>, d: Point): Point
    decreases |es|
  {
    if es == [] then d
    else LastDown(es[1..], if es[0].Down? then es[0].pos else d)
  }

  function LastOr(ps: seq<Point>, d: Point): Point {
    if ps == [] then d else ps[|ps| - 1]
  }

  function HasDown(es: seq<Event>): bool {
    exists i :: 0 <= i < |es| && es[i].Down?
  }

  function HasUp(es: seq<Event>): bool {
    exists i :: 0 <= i < |es| && es[i].Up?
  }

  lemma LastOrPrepend(p: seq<Point>, q: seq<Point>, d: Point)
    ensures LastOr(p + q, d) == LastOr(q, LastOr(p, d))
  {
  }

  /** While the button has not been released, a run drags from the first
      button-down on, m_start is the last button-down and m_end the last
      move after a button-down. */
  lemma {:induction false} RunWithoutUp(s: State, es: seq<Event>)
    requires Valid(s) && !HasUp(es)
    ensures var r := Run(s, es);
      && r.active == s.active && r.haveCoords == s.haveCoords
      && r.drag == (s.drag || HasDown(es))
      && r.draw == (s.draw || DraggedMoves(es, s.drag) != [])
      && r.start == LastDown(es, s.start)
      && r.end == LastOr(DraggedMoves(es, s.drag), s.end)
    decreases |es|
  {
    if es != [] {
      var t := es[1..];
      assert !HasUp(t) by {
        forall i | 0 <= i < |t| ensures !t[i].Up? { assert t[i] == es[i + 1]; }
      }
      var s' := Step(s, es[0]);
      RunWithoutUp(s', t);
      assert HasDown(es) == (es[0].Down? || HasDown(t)) by {
        if HasDown(t) {
          var i :| 0 <= i < |t| && t[i].Down?;
          assert es[i + 1].Down?;
        }
        if HasDown(es) && !es[0].Down? {
          var i :| 0 <= i < |es| && es[i].Down?;
          assert t[i - 1].Down?;
        }
      }
      assert !es[0].Up? by { assert es[0] == es[0]; }
      match es[0]
      case Down(_) =>
      case Move(p) =>
        LastOrPrepend(if s.drag then [p] else [], DraggedMoves(t, s.drag), s.end);
    }
  }

  /** What the window reports once the message pump has seen the first
      button-up (the message loop stops when on_mouse_up clears m_active):
      have_coords holds exactly when a button-down was followed by a move,
      and then get_coords gives the last button-down and the last move made
      while the button was down. */
  lemma FirstUpSelection(start: Point, end: Point, es: seq<Event>)
    requires !HasUp(es)
    ensures var r := Run(Initial(start, end), es + [Up]);
      && !r.active
      && (r.haveCoords <==> DraggedMoves(es, false) != [])
      && (r.haveCoords ==>
            HasDown(es)
            && r.start == LastDown(es, start)
            && r.end == DraggedMoves(es, false)[|DraggedMoves(es, false)| - 1])
  {
    var s := Initial(start, end);
    RunWithoutUp(s, es);
    RunAppend(s, es, [Up]);
    var m := Run(s, es);
    assert Run(m, [Up]) == Step(m, Up);
  }

  lemma {:induction false} RunAppend(s: State, a: seq<Event>, b: seq<Event>)
    ensures Run(s, a + b) == Run(Run(s, a), b)
    decreases |a|
  {
    if a == [] {
      assert a + b == b;
    } else {
      assert (a + b)[1..] == a[1..] + b;
      RunAppend(Step(s, a[0]), a[1..], b);
    }
  }

  /** main_loop: messages are dispatched only while the window is active,
      so everything after the callback that clears m_active is dropped. */
  function Pump(s: State, es: seq<Event>): State
    decreases |es|
  {
    if es == [] || !s.active then s else Pump(Step(s, es[0]), es[1..])
  }

  /** Before the first button-up the pump dispatches every event. */
  lemma {:induction false} PumpPrefix(s: State, pre: seq<Event>, tail: seq<Event>)
    requires Valid(s) && s.active && !HasUp(pre)
    ensures Pump(s, pre + tail) == Pump(Run(s, pre), tail)
    decreases |pre|
  {
    if pre == [] {
      assert pre + tail == tail;
    } else {
      var t := pre[1..];
      assert !HasUp(t) by {
        forall i | 0 <= i < |t| ensures !t[i].Up? { assert t[i] == pre[i + 1]; }
      }
      assert !pre[0].Up? by { assert pre[0] == pre[0]; }
      assert (pre + tail)[1..] == t + tail;
      StepPhase(s, pre[0]);
      PumpPrefix(Step(s, pre[0]), t, tail);
    }
  }

  /** The pump stops at the first button-up: what it leaves is the run of the
      events up to and including that button-up, whatever follows. The
      selection is then as FirstUpSelection describes it. */
  lemma PumpStopsAtFirstUp(start: Point, end: Point, pre: seq<Event>, post: seq<Event>)
    requires !HasUp(pre)
    ensures Pump(Initial(start, end), pre + [Up] + post) == Run(Initial(start, end), pre + [Up])
  {
    var s := Initial(start, end);
    assert pre + [Up] + post == pre + ([Up] + post);
    PumpPrefix(s, pre, [Up] + post);
    RunWithoutUp(s, pre);
    var m := Run(s, pre);
    assert ([Up] + post)[1..] == post;
    assert Pump(m, [Up] + post) == Pump(Step(m, Up), post);
    RunAppend(s, pre, [Up]);
    assert Run(m, [Up]) == Step(m, Up);
  }

  /** Without a button-up the pump runs dry with no selection. */
  lemma PumpWithoutUp(start: Point, end: Point, es: seq<Event>)
    requires !HasUp(es)
    ensures Pump(Initial(start, end), es) == Run(Initial(start, end), es)
    ensures !Pump(Initial(start, end), es).haveCoords
  {
    var s := Initial(start, end);
    assert es + [] == es;
    PumpPrefix(s, es, []);
    RunWithoutUp(s, es);
  }

  /** BoxCutterWindow's selection fields and callbacks. Drawing the XOR
      rectangle, the window handle and the window class are not modelled. */
  class BoxCutterWindow {
    var active: bool
    var drag: bool
    var draw: bool
    var haveCoords: bool
    var start: Point
    var end: Point

    /** The fields as a value. */
    function Model(): State
      reads this
    {
      State(active, drag, draw, haveCoords, start, end)
    }

    /** `start0` and `end0` stand for whatever the uninitialised POINT
        members hold. */
    constructor (start0: Point, end0: Point)
      ensures Model() == Initial(start0, end0)
    {
      active := true;
      drag := false;
      draw := false;
      haveCoords := false;
      start := start0;
      end := end0;
    }

    /** on_mouse_down at cursor position `pos`. */
    method OnMouseDown(pos: Point)
      modifies this
      ensures Model() == Step(old(Model()), Down(pos))
    {
      drag := true;
      start := pos;
    }

    /** on_mouse_up: a drawn rectangle becomes the selection; the window
        stops in any case. */
    method OnMouseUp()
      modifies this
      ensures Model() == Step(old(Model()), Up)
    {
      if draw {
        drag := false;
        draw := false;
        haveCoords := true;
      }
      active := false;
    }

    /** on_mouse_move at cursor position `pos`. */
    method OnMouseMove(pos: Point)
      modifies this
      ensures Model() == Step(old(Model()), Move(pos))
    {
      if drag {
        draw := true;
        end := pos;
      }
    }

    /** main_loop over the mouse messages `es`: the loop ends when the
        messages run out or a callback has made the window inactive. */
    method MainLoop(es: seq<Event>)
      modifies this
      ensures Model() == Pump(old(Model()), es)
    {
      ghost var s0 := Model();
      var i := 0;
      while i < |es| && IsActive()
        invariant 0 <= i <= |es|
        invariant Pump(s0, es) == Pump(Model(), es[i..])
      {
        match es[i] {
          case Down(p) => OnMouseDown(p);
          case Move(p) => OnMouseMove(p);
          case Up => OnMouseUp();
        }
        assert es[i..][1..] == es[i + 1..];
        i := i + 1;
      }
    }

    function IsActive(): (b: bool)
      reads this
      ensures b == Model().active
    {
      active
    }

    function HaveCoords(): (b: bool)
      reads this
      ensures b == Model().haveCoords
    {
      haveCoords
    }

    /** get_coords: the corners of the selection, start first. */
    method GetCoords() returns (x1: int, y1: int, x2: int, y2: int)
      ensures x1 == Model().start.x && y1 == Model().start.y
      ensures x2 == Model().end.x && y2 == Model().end.y
    {
      x1, y1, x2, y2 := start.x, start.y, end.x, end.y;
    }
  }
}
