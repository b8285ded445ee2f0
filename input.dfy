/** The keyboard handlers: arrow keys set the car's velocity, last writer wins. */
module Input {
  import opened Entities

  datatype Option<T> = None | Some(value: T)

  /** The keys the handlers tell apart; every other key is `Other`. */
  datatype Key = ArrowLeft | ArrowRight | Other

  /** A key being pressed or released. */
  datatype KeyEvent = KeyDown(key: Key) | KeyUp(key: Key)

  predicate IsArrow(k: Key) {
    k == ArrowLeft || k == ArrowRight
  }

  /** The velocities the car can have: still, or full speed either way. */
  predicate ValidVelocity(v: real) {
    v == -CarMoveSpeed || v == 0.0 || v == CarMoveSpeed
  }

  /** The car's velocity after one key event, given the velocity before it.
      Pressing an arrow sets full speed in its direction; releasing either
      arrow stops the car, even if the other arrow is still held; any other
      key is ignored. */
  function Apply(e: KeyEvent, v: real): (r: real)
    ensures !IsArrow(e.key) ==> r == v
    ensures IsArrow(e.key) ==> ValidVelocity(r)
    ensures e.KeyUp? && IsArrow(e.key) ==> r == 0.0
    ensures e.KeyDown? && IsArrow(e.key) ==> r != 0.0 && (r > 0.0 <==> e.key == ArrowRight)
  {
    match e
    case KeyDown(ArrowRight) => CarMoveSpeed
    case KeyDown(ArrowLeft) => -CarMoveSpeed
    case KeyDown(Other) => v
    case KeyUp(k) => if IsArrow(k) then 0.0 else v
  }

  /** The velocity after handling `events` in order, starting from `v0`. */
  function VelocityAfter(events: seq<KeyEvent>, v0: real): real {
    if events == [] then v0
    else Apply(events[|events| - 1], VelocityAfter(events[..|events| - 1], v0))
  }

  /** The most recent event that concerns an arrow key, if any: there is none
      exactly when no event concerns an arrow key, and the one found is an
      arrow event with no arrow event after it. */
  function LastArrowEvent(events: seq<KeyEvent>): (r: Option<KeyEvent>)
    ensures r.None? <==> forall i :: 0 <= i < |events| ==> !IsArrow(events[i].key)
    ensures r.Some? ==> IsArrow(r.value.key)
    ensures r.Some? ==>
              exists i :: 0 <= i < |events| && events[i] == r.value &&
                (forall j :: i < j < |events| ==> !IsArrow(events[j].key))
  {
    if events == [] then None
    else if IsArrow(events[|events| - 1].key) then Some(events[|events| - 1])
    else
      var front := events[..|events| - 1];
      assert forall i :: 0 <= i < |front| ==> front[i] == events[i];
      LastArrowEvent(front)
  }

  /** Last writer wins: the velocity depends only on the most recent arrow
      event (and on the starting velocity when there is none), not on which
      keys are still held or on anything that happened before it. */
  lemma {:induction false} LastWriterWins(events: seq<KeyEvent>, v0: real)
    ensures VelocityAfter(events, v0) ==
            match LastArrowEvent(events)
            case None => v0
            case Some(KeyUp(_)) => 0.0
            case Some(KeyDown(k)) => if k == ArrowRight then CarMoveSpeed else -CarMoveSpeed
  {
    if events != [] {
      LastWriterWins(events[..|events| - 1], v0);
    }
  }

  /** Starting still or at full speed, the car is always still or at full speed. */
  lemma VelocityStaysValid(events: seq<KeyEvent>, v0: real)
    requires ValidVelocity(v0)
    ensures ValidVelocity(VelocityAfter(events, v0))
  {
    LastWriterWins(events, v0);
  }
}
