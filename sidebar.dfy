/**
 * Sidebar input handling (src/utils/sidebar.py): the play/pause and restart
 * buttons, and the selection of a train line by clicking its selector.
 */
module Sidebar {

  import opened Wrappers
  import opened Geometry
  import opened TrainLines

  /** The part of a pygame event the sidebar looks at. */
  datatype Event = MouseButtonDown(pos: Point) | OtherEvent

  /**
   * `handle_sidebar_events`: the new (running, restart_pressed) pair. A click
   * on the play button toggles running; a click on the restart button (and
   * not on play) requests a restart; anything else changes nothing.
   */
  function HandleSidebarEvents(event: Event, playButton: Rect, restartButton: Rect, running: bool): (r: (bool, bool))
    ensures r.0 == (if event.MouseButtonDown? && playButton.CollidePoint(event.pos) then !running else running)
    ensures r.1 <==> event.MouseButtonDown? && !playButton.CollidePoint(event.pos) && restartButton.CollidePoint(event.pos)
    ensures r.1 ==> r.0 == running
    ensures !event.MouseButtonDown? ==> r == (running, false)
  {
    if event.MouseButtonDown? then
      if playButton.CollidePoint(event.pos) then (!running, false)
      else if restartButton.CollidePoint(event.pos) then (running, true)
      else (running, false)
    else (running, false)
  }

  /** Clicking play twice at the same place restores the running state. */
  lemma PlayTwiceRestores(pos: Point, playButton: Rect, restartButton: Rect, running: bool)
    requires playButton.CollidePoint(pos)
    ensures var once := HandleSidebarEvents(MouseButtonDown(pos), playButton, restartButton, running);
      HandleSidebarEvents(MouseButtonDown(pos), playButton, restartButton, once.0) == (running, false)
  {
  }

  /** The selector of this line catches the click. */
  predicate Hits(line: TrainLine, pos: Point)
    reads line
    ensures Hits(line, pos) ==> line.sidebarRect.Some? && line.sidebarRect.value.width > 0 && line.sidebarRect.value.height > 0
  {
    line.sidebarRect.Some? && line.sidebarRect.value.CollidePoint(pos)
  }

  /** The index of the last of lines[..k] whose selector catches the click. */
  function LastHit(lines: seq<TrainLine>, k: nat, pos: Point): (r: Option<nat>)
    requires k <= |lines|
    reads lines
    ensures r.None? ==> forall j :: 0 <= j < k ==> !Hits(lines[j], pos)
    ensures r.Some? ==> r.value < k && Hits(lines[r.value], pos)
    ensures r.Some? ==> forall j :: r.value < j < k ==> !Hits(lines[j], pos)
  {
    if k == 0 then None
    else if Hits(lines[k - 1], pos) then Some(k - 1)
    else LastHit(lines, k - 1, pos)
  }

  /**
   * `handle_sidebar_click`: for each line whose selector catches the click, in
   * list order, deactivates every line and activates that one. Only `active`
   * flags change.
   */
  method HandleSidebarClick(lines: seq<TrainLine>, mousePos: Point)
    requires forall i :: 0 <= i < |lines| ==> lines[i].sidebarRect.Some?
    modifies (set l | l in lines)`active
    ensures LastHit(lines, |lines|, mousePos).None? ==>
      forall i :: 0 <= i < |lines| ==> lines[i].active == old(lines[i].active)
    ensures LastHit(lines, |lines|, mousePos).Some? ==>
      forall i :: 0 <= i < |lines| ==> lines[i].active == (lines[i] == lines[LastHit(lines, |lines|, mousePos).value])
    ensures LastHit(lines, |lines|, mousePos).Some? && (forall i, j :: 0 <= i < j < |lines| ==> lines[i] != lines[j]) ==>
      forall i :: 0 <= i < |lines| ==> (lines[i].active <==> i == LastHit(lines, |lines|, mousePos).value)
    ensures forall i :: 0 <= i < |lines| ==>
      lines[i].stations == old(lines[i].stations) && lines[i].sidebarRect == old(lines[i].sidebarRect)
  {
    for k := 0 to |lines|
      invariant LastHit(lines, k, mousePos).None? ==>
        forall i :: 0 <= i < |lines| ==> lines[i].active == old(lines[i].active)
      invariant LastHit(lines, k, mousePos).Some? ==>
        forall i :: 0 <= i < |lines| ==> lines[i].active == (lines[i] == lines[LastHit(lines, k, mousePos).value])
    {
      var line := lines[k];
      if line.sidebarRect.value.CollidePoint(mousePos) {
        for j := 0 to |lines|
          invariant forall t :: 0 <= t < j ==> !lines[t].active
        {
          lines[j].active := false;
        }
        line.active := true;
      }
    }
  }

  /** Selectors whose centres are 40 or more apart vertically on one column never catch the same click. */
  lemma SelectorsDisjoint(c1: Point, c2: Point, pos: Point)
    requires c1.x == c2.x && c2.y - c1.y >= 2 * SelectorHalfSide
    ensures !(SelectorRect(c1).CollidePoint(pos) && SelectorRect(c2).CollidePoint(pos))
  {
  }
}
