/**
 The wake-up handshake between nudgers and a worker loop. A nudger adds its room
 to the pending set and then tries to put a token into a channel of depth one;
 the loop takes the token and then drains the set. The two halves of each side
 are separate steps, so any number of nudgers interleave with the loop.
*/
module NudgeHandshake {
  type Room = string

  const OFFICE: Room := "office"

  /** Where the loop stands: at its select (or stopped), between receive and drain, or working. */
  datatype Loop = Selecting | Woken | Working

  /** `adding` is the set of nudgers between their two steps. */
  datatype Handshake = Handshake(pending: set<Room>, token: bool, adding: set<nat>, loop: Loop)

  datatype Step =
    | AddRoom(nudger: nat, room: Room)
    | TrySend(nudger: nat)
    | Receive
    | Drain
    | Tick
    | Resume

  predicate Enabled(s: Handshake, step: Step) {
    match step
    case AddRoom(n, _) => n !in s.adding
    case TrySend(n) => n in s.adding
    case Receive => s.loop == Selecting && s.token
    case Drain => s.loop == Woken
    case Tick => s.loop == Selecting
    case Resume => s.loop == Working
  }

  function Next(s: Handshake, step: Step): Handshake {
    if !Enabled(s, step) then s else
    match step
    case AddRoom(n, room) => s.(pending := s.pending + {room}, adding := s.adding + {n})
    case TrySend(n) => s.(token := true, adding := s.adding - {n})
    case Receive => s.(token := false, loop := Woken)
    case Drain => s.(pending := {}, loop := Working)
    case Tick => s.(loop := Working)
    case Resume => s.(loop := Selecting)
  }

  /** The rooms a drain hands to the loop; a wake without a recorded room re-checks the office. */
  function Drained(s: Handshake): set<Room> { if s.pending == {} then {OFFICE} else s.pending }

  function Run(s: Handshake, steps: seq<Step>): Handshake {
    if steps == [] then s else Next(Run(s, steps[..|steps| - 1]), steps[|steps| - 1])
  }

  const QUIET := Handshake({}, false, {}, Selecting)

  /** Something pending is never forgotten. */
  predicate NoLostWake(s: Handshake) {
    s.pending != {} ==> s.token || s.adding != {} || s.loop == Woken
  }

  lemma {:induction false} NeverLosesAWake(steps: seq<Step>)
    ensures NoLostWake(Run(QUIET, steps))
  {
    if steps != [] { NeverLosesAWake(steps[..|steps| - 1]); }
  }

  /** The rooms added by some nudger since the last drain of a run. */
  function Owed(steps: seq<Step>): set<Room> {
    if steps == [] then {} else
      var before, last := steps[..|steps| - 1], steps[|steps| - 1];
      if last.AddRoom? && Enabled(Run(QUIET, before), last) then Owed(before) + {last.room}
      else if last.Drain? && Enabled(Run(QUIET, before), last) then {}
      else Owed(before)
  }

  /** However the nudgers interleaved, once they are done the loop's next wake is there to be taken,
      and it hands over every room nudged since the last drain, and no other. */
  lemma {:induction false} EveryNudgedRoomIsDelivered(steps: seq<Step>)
    ensures Run(QUIET, steps).pending == Owed(steps)
    ensures var s := Run(QUIET, steps);
            Owed(steps) != {} && s.adding == {} && s.loop == Selecting ==>
              && Enabled(s, Receive) && Enabled(Next(s, Receive), Drain)
              && Drained(Next(s, Receive)) == Owed(steps)
              && Next(Next(s, Receive), Drain).pending == {}
  {
    NeverLosesAWake(steps);
    if steps != [] { EveryNudgedRoomIsDelivered(steps[..|steps| - 1]); }
  }
}
