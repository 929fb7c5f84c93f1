/** The main loop's state changes: key presses, mouse clicks and the physics
    tick of each frame. Drawing, colours and the help panel's text are not
    modelled; the random speed of a new point is supplied by the caller. */
module Screensaver {
  import opened Vectors
  import opened Physics
  import opened Joints

  /** The keys the loop reacts to, and every other key. */
  datatype Key = Escape | R | P | KeypadPlus | F1 | KeypadMinus | OtherKey

  /** One input event. A click carries its position and the speed drawn for
      the new point (each component uniform in `[0, 2)`). */
  datatype Event = Quit | KeyDown(key: Key) | MouseDown(pos: Vector, speed: Vector)

  /** The loop's flags and its sample count `steps`. */
  datatype Controls = Controls(working: bool, pause: bool, showHelp: bool, steps: int)

  /** The controls at start-up: running, not paused, no help panel, 20
      samples per span. */
  function Initial(): (c: Controls)
    ensures c.working && !c.pause && !c.showHelp
    ensures c.steps >= 1
  {
    Controls(true, false, false, 20)
  }

  /** The effect of a key on the controls; the reset key `R` changes the line
      instead, and other keys change nothing. */
  function OnKey(c: Controls, key: Key): Controls
  {
    match key
    case Escape => c.(working := false)
    case P => c.(pause := !c.pause)
    case KeypadPlus => c.(steps := c.steps + 1)
    case F1 => c.(showHelp := !c.showHelp)
    case KeypadMinus => c.(steps := c.steps - (if c.steps > 1 then 1 else 0))
    case _ => c
  }

  /** `steps` never drops below one: decrementing at one leaves it at one. */
  lemma StepsStayPositive(c: Controls, key: Key)
    requires c.steps >= 1
    ensures OnKey(c, key).steps >= 1
    ensures c.steps == 1 ==> OnKey(c, KeypadMinus).steps == 1
  {
  }

  /** The minus key undoes the plus key, and the plus key undoes the minus key
      above one. */
  lemma PlusMinusInverse(c: Controls)
    requires c.steps >= 1
    ensures OnKey(OnKey(c, KeypadPlus), KeypadMinus) == c
    ensures c.steps > 1 ==> OnKey(OnKey(c, KeypadMinus), KeypadPlus) == c
  {
  }

  /** Pressing the pause key or the help key twice restores the controls. */
  lemma TogglesInvolutive(c: Controls)
    ensures OnKey(OnKey(c, P), P) == c
    ensures OnKey(OnKey(c, F1), F1) == c
  {
  }

  /** Only the escape key stops the loop; no key restarts it. */
  lemma OnlyEscapeStops(c: Controls, key: Key)
    ensures OnKey(c, key).working <==> c.working && key != Escape
  {
  }

  /** The effect of one event on the controls: quit stops the loop, a key
      acts as `OnKey` says, a click leaves the controls alone. */
  function OnEvent(c: Controls, e: Event): Controls
  {
    match e
    case Quit => c.(working := false)
    case KeyDown(key) => OnKey(c, key)
    case MouseDown(_, _) => c
  }

  /** The controls after a frame's events, handled in order. */
  function OnEvents(c: Controls, events: seq<Event>): Controls
  {
    if events == [] then c else OnEvent(OnEvents(c, events[..|events| - 1]), events[|events| - 1])
  }

  /** The two objects' lists: the plain line's and the joint's. */
  datatype Lists = Lists(linePoints: seq<Vector>, lineSpeeds: seq<Vector>,
                         jointPoints: seq<Vector>, jointSpeeds: seq<Vector>)

  /** Both objects have a speed for every point and a point for every speed. */
  predicate BothPaired(s: Lists)
  {
    |s.linePoints| == |s.lineSpeeds| && |s.jointPoints| == |s.jointSpeeds|
  }

  /** The effect of one event on the lists: the reset key empties the plain
      line, a click (as intended) adds the point with its speed to both
      objects, every other event changes nothing. */
  function ListsOnEvent(s: Lists, e: Event): Lists
  {
    match e
    case KeyDown(R) => s.(linePoints := [], lineSpeeds := [])
    case MouseDown(pos, speed) =>
      Lists(s.linePoints + [pos], s.lineSpeeds + [speed], s.jointPoints + [pos], s.jointSpeeds + [speed])
    case _ => s
  }

  /** The lists after a frame's events, handled in order. */
  function ListsOnEvents(s: Lists, events: seq<Event>): Lists
  {
    if events == [] then s else ListsOnEvent(ListsOnEvents(s, events[..|events| - 1]), events[|events| - 1])
  }

  /** Handling events keeps both objects paired, and a click on a paired
      session leaves no point without a speed, whatever came before it. */
  lemma {:induction false} EventsKeepPairing(s: Lists, events: seq<Event>)
    requires BothPaired(s)
    ensures BothPaired(ListsOnEvents(s, events))
  {
    if events != [] {
      EventsKeepPairing(s, events[..|events| - 1]);
    }
  }

  /** The positions of the frame's clicks, in order. */
  function Clicked(events: seq<Event>): (r: seq<Vector>)
    ensures |r| <= |events|
  {
    if events == [] then []
    else Clicked(events[..|events| - 1]) + (if events[|events| - 1].MouseDown? then [events[|events| - 1].pos] else [])
  }

  /** With the corrected click, the joint is never reset: its points after
      the events are its old points
      followed by the positions of the frame's clicks, in order. */
  lemma {:induction false} JointGrowsByClicks(s: Lists, events: seq<Event>)
    ensures ListsOnEvents(s, events).jointPoints == s.jointPoints + Clicked(events)
  {
    if events != [] {
      JointGrowsByClicks(s, events[..|events| - 1]);
    }
  }

  /** A click as the source handles it: the position goes to the plain line
      but the speed goes to the joint. It always unbalances both objects. */
  method ClickAsWritten(line: Line, joint: Joint, pos: Vector, speed: Vector)
    requires line != joint.line
    modifies line, joint.line
    ensures line.points == old(line.points) + [pos] && line.speeds == old(line.speeds)
    ensures joint.line.points == old(joint.line.points) && joint.line.speeds == old(joint.line.speeds) + [speed]
    ensures old(line.Paired()) ==> |line.points| == |line.speeds| + 1
    ensures old(joint.line.Paired()) ==> |joint.line.speeds| == |joint.line.points| + 1
  {
    line.points := line.points + [pos];
    joint.line.speeds := joint.line.speeds + [speed];
  }

  /** A click as intended: the new point and its speed are added together to
      the plain line and to the joint, which keeps both paired. */
  method Click(line: Line, joint: Joint, pos: Vector, speed: Vector)
    requires line != joint.line && joint.count != 0
    modifies line, joint.line
    ensures line.points == old(line.points) + [pos] && line.speeds == old(line.speeds) + [speed]
    ensures joint.line.points == old(joint.line.points) + [pos]
    ensures joint.line.speeds == old(joint.line.speeds) + [speed]
    ensures old(line.Paired()) ==> line.Paired()
    ensures old(joint.line.Paired()) ==> joint.line.Paired()
  {
    line.Add(pos, speed);
    joint.Add(pos, speed);
  }

  /** One event: quit and the keys change the controls, the reset key empties
      the plain line (the joint keeps its points), a click adds a point. The
      click branch is the corrected `Click`; the click as the source writes it
      is `ClickAsWritten`. */
  method HandleEvent(line: Line, joint: Joint, c: Controls, e: Event) returns (next: Controls)
    requires line != joint.line && joint.count != 0
    modifies line, joint.line
    ensures next == OnEvent(c, e)
    ensures Lists(line.points, line.speeds, joint.line.points, joint.line.speeds) ==
      ListsOnEvent(Lists(old(line.points), old(line.speeds), old(joint.line.points), old(joint.line.speeds)), e)
    ensures e == KeyDown(R) ==> line.points == [] && line.speeds == [] && unchanged(joint.line)
    ensures e.MouseDown? ==>
      line.points == old(line.points) + [e.pos] && line.speeds == old(line.speeds) + [e.speed] &&
      joint.line.points == old(joint.line.points) + [e.pos] &&
      joint.line.speeds == old(joint.line.speeds) + [e.speed]
    ensures !e.MouseDown? && e != KeyDown(R) ==> unchanged(line) && unchanged(joint.line)
    ensures old(line.Paired()) ==> line.Paired()
    ensures old(joint.line.Paired()) ==> joint.line.Paired()
  {
    match e
    case Quit =>
      next := c.(working := false);
    case KeyDown(key) =>
      if key == R {
        line.points := [];
        line.speeds := [];
      }
      next := OnKey(c, key);
    case MouseDown(pos, speed) =>
      Click(line, joint, pos, speed);
      next := c;
  }

  /** The physics of one frame: unless paused, the joint ticks and then the
      plain line. A tick that fails stops the frame; `ok` says whether both
      ticks completed. */
  method Tick(line: Line, joint: Joint, c: Controls) returns (ok: bool)
    requires line != joint.line && joint.count != 0
    modifies line, joint.line
    ensures c.pause ==> ok && unchanged(line) && unchanged(joint.line)
    ensures !c.pause ==>
      joint.line.points == Advanced(old(joint.line.points), old(joint.line.speeds)) &&
      joint.line.speeds == Reflected(old(joint.line.points), old(joint.line.speeds))
    ensures !c.pause && |old(joint.line.points)| <= |old(joint.line.speeds)| ==>
      line.points == Advanced(old(line.points), old(line.speeds)) &&
      line.speeds == Reflected(old(line.points), old(line.speeds))
    ensures !c.pause && |old(joint.line.points)| > |old(joint.line.speeds)| ==> unchanged(line)
    ensures !c.pause ==>
      (ok <==> |old(joint.line.points)| <= |old(joint.line.speeds)| && |old(line.points)| <= |old(line.speeds)|)
  {
    ok := true;
    if !c.pause {
      ok := joint.SetPoints();
      if ok {
        ok := line.SetPoints();
      }
    }
  }

  /** The first click of a fresh session, handled as the source does, makes
      the next unpaused frame fail: the plain line has a point without a speed. */
  method FirstClickAsWrittenFails() returns (ok: bool)
    ensures !ok
  {
    var joint := new Joint(Initial().steps);
    var line := new Line([], []);
    ClickAsWritten(line, joint, Vector(640.0, 360.0), Vector(1.0, 1.0));
    ok := Tick(line, joint, Initial());
  }

  /** The same click handled as intended leaves a frame that completes. */
  method FirstClickRuns() returns (ok: bool)
    ensures ok
  {
    var joint := new Joint(Initial().steps);
    var line := new Line([], []);
    Click(line, joint, Vector(640.0, 360.0), Vector(1.0, 1.0));
    ok := Tick(line, joint, Initial());
  }

  /** One frame from paired lines: the events in order, with the corrected
      click, then the tick. The controls and the lists are those the events
      give, the tick then moves both objects unless paused, and it completes. */
  method RunFrame(line: Line, joint: Joint, c: Controls, events: seq<Event>) returns (next: Controls, ok: bool)
    requires line != joint.line && joint.count != 0
    requires line.Paired() && joint.line.Paired()
    modifies line, joint.line
    ensures next == OnEvents(c, events)
    ensures var s := ListsOnEvents(Lists(old(line.points), old(line.speeds), old(joint.line.points), old(joint.line.speeds)), events);
      if next.pause then
        line.points == s.linePoints && line.speeds == s.lineSpeeds &&
        joint.line.points == s.jointPoints && joint.line.speeds == s.jointSpeeds
      else
        line.points == Advanced(s.linePoints, s.lineSpeeds) &&
        line.speeds == Reflected(s.linePoints, s.lineSpeeds) &&
        joint.line.points == Advanced(s.jointPoints, s.jointSpeeds) &&
        joint.line.speeds == Reflected(s.jointPoints, s.jointSpeeds)
    ensures line.Paired() && joint.line.Paired()
    ensures ok
  {
    ghost var s0 := Lists(line.points, line.speeds, joint.line.points, joint.line.speeds);
    next := c;
    var i := 0;
    while i < |events|
      invariant 0 <= i <= |events|
      invariant next == OnEvents(c, events[..i])
      invariant Lists(line.points, line.speeds, joint.line.points, joint.line.speeds) == ListsOnEvents(s0, events[..i])
      invariant line.Paired() && joint.line.Paired()
    {
      assert events[..i + 1][..i] == events[..i];
      next := HandleEvent(line, joint, next, events[i]);
      i := i + 1;
    }
    assert events[..|events|] == events;
    ok := Tick(line, joint, next);
  }
}
