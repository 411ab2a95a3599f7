/** A trial's raw player event log and the queries trial.py answers from it directly
    (the events accessor and get_duration). */
module TrialEvents {
  import opened Optional
  import opened Grid

  const START := "start"
  const MOVE := "move"
  const COLLECT := "collect"
  const ORACLE_REQUEST := "oracle_request"

  /** One logged player event: its type, its timestamp and the node it refers to, if any. */
  datatype Event = Event(eventType: string, time: real, nodeId: Option<int>)

  /** What `trial_data.TrialEventData` holds in a trial document: the key may be missing,
      its value may be null, or it is the ordered event list. */
  datatype EventData = Missing | Null | Present(events: seq<Event>)

  /** A loaded trial: its map and its player's event data. */
  datatype Trial = Trial(problem: Problem, data: EventData)

  /** The order-preserving selection of the `move` events of a list. */
  function MovesOnly(evs: seq<Event>): (r: seq<Event>)
    ensures |r| <= |evs|
    ensures forall i :: 0 <= i < |r| ==> r[i] in evs && r[i].eventType == MOVE
  {
    if evs == [] then []
    else (if evs[0].eventType == MOVE then [evs[0]] else []) + MovesOnly(evs[1..])
  }

  /** Selecting moves distributes over concatenation, so the relative order of moves is kept. */
  lemma {:induction false} MovesOnlyAppend(a: seq<Event>, b: seq<Event>)
    ensures MovesOnly(a + b) == MovesOnly(a) + MovesOnly(b)
  {
    if a == [] {
      assert a + b == b;
    } else {
      var head := if a[0].eventType == MOVE then [a[0]] else [];
      assert (a + b)[0] == a[0];
      assert (a + b)[1..] == a[1..] + b;
      MovesOnlyAppend(a[1..], b);
      calc {
        MovesOnly(a + b);
        head + MovesOnly(a[1..] + b);
        head + (MovesOnly(a[1..]) + MovesOnly(b));
        (head + MovesOnly(a[1..])) + MovesOnly(b);
      }
    }
  }

  /** An event is selected exactly when it is in the list and is a move. */
  lemma {:induction false} MovesOnlyMembership(evs: seq<Event>)
    ensures forall e :: e in MovesOnly(evs) <==> e in evs && e.eventType == MOVE
  {
    if evs != [] {
      MovesOnlyMembership(evs[1..]);
      assert evs == [evs[0]] + evs[1..];
    }
  }

  /** The filter keeps each move as often as it occurs in the log and drops every other event. */
  lemma {:induction false} MovesOnlyCount(evs: seq<Event>)
    ensures forall e :: multiset(MovesOnly(evs))[e] == if e.eventType == MOVE then multiset(evs)[e] else 0
  {
    if evs != [] {
      MovesOnlyCount(evs[1..]);
      assert evs == [evs[0]] + evs[1..];
    }
  }

  /** A list of moves only is returned unchanged. */
  lemma {:induction false} MovesOnlyOfMoves(evs: seq<Event>)
    requires forall i :: 0 <= i < |evs| ==> evs[i].eventType == MOVE
    ensures MovesOnly(evs) == evs
  {
    if evs != [] {
      MovesOnlyOfMoves(evs[1..]);
    }
  }

  /** The events accessor: no event data (a missing key or a null value) reads as the empty list;
      with `movesOnly` only the move events are kept, otherwise the list is returned as stored. */
  function EventsOf(data: EventData, movesOnly: bool): (r: seq<Event>)
    ensures !data.Present? ==> r == []
    ensures data.Present? && !movesOnly ==> r == data.events
    ensures movesOnly ==> forall i :: 0 <= i < |r| ==> r[i].eventType == MOVE
    ensures data.Present? && movesOnly ==> forall e :: e in r <==> e in data.events && e.eventType == MOVE
  {
    match data
    case Missing => []
    case Null => []
    case Present(evs) =>
      if movesOnly then
        MovesOnlyMembership(evs);
        MovesOnly(evs)
      else evs
  }

  /** get_duration: the time of the last logged event, and no answer at all (an index error in
      the source) when the trial has no events. */
  function Duration(t: Trial): (r: Option<real>)
    ensures r.None? <==> EventsOf(t.data, false) == []
    ensures r.Some? ==> r.value == EventsOf(t.data, false)[|EventsOf(t.data, false)| - 1].time
  {
    var evs := EventsOf(t.data, false);
    if evs == [] then None else Some(evs[|evs| - 1].time)
  }
}
