/** Reconstruction of a player's state timeline from the event log (trial.py, state_timeseries). */
module Timeline {
  import opened Optional
  import opened Grid
  import opened TrialEvents

  /** The `nodeId` entry of a state: the synthetic start state has no such key; every later state
      has one, holding the event's node id or null. */
  datatype NodeField = Absent | Field(id: Option<int>)

  /** One reconstructed player state. */
  datatype State = State(eventType: string, loc: Loc, nodeId: NodeField, time: real)

  /** Every node an event refers to is on the map. */
  predicate NodesKnown(p: Problem, evs: seq<Event>) {
    forall i :: 0 <= i < |evs| && evs[i].nodeId.Some? ==> evs[i].nodeId.value in p.nodes
  }

  /** What state_timeseries needs of a trial: the start node and every node an event names exist. */
  predicate WellFormed(t: Trial) {
    t.problem.middleNode in t.problem.nodes && NodesKnown(t.problem, EventsOf(t.data, false))
  }

  /** The synthetic first state: `start`, on the middle node, at time 0, without a node id. */
  function Seed(p: Problem): State
    requires p.middleNode in p.nodes
  {
    State(START, NodeLoc(p, p.middleNode), Absent, 0.0)
  }

  /** The state after event `e`: type, time and node id come from the event; the location moves to
      the event's node when it names one and otherwise stays where the previous state was. */
  function Step(p: Problem, prev: State, e: Event): State
    requires e.nodeId.Some? ==> e.nodeId.value in p.nodes
  {
    State(e.eventType, if e.nodeId.Some? then NodeLoc(p, e.nodeId.value) else prev.loc, Field(e.nodeId), e.time)
  }

  /** The timeline as a left-to-right fold over the events, seeded with the start state. */
  function Reconstruct(p: Problem, evs: seq<Event>): (r: seq<State>)
    requires p.middleNode in p.nodes && NodesKnown(p, evs)
    ensures |r| == |evs| + 1
    ensures r[0] == Seed(p)
    decreases |evs|
  {
    if evs == [] then [Seed(p)]
    else
      var prev := Reconstruct(p, evs[..|evs| - 1]);
      prev + [Step(p, prev[|prev| - 1], evs[|evs| - 1])]
  }

  /** Reconstructing a prefix of the log gives a prefix of the timeline. */
  lemma {:induction false} ReconstructPrefix(p: Problem, evs: seq<Event>, k: nat)
    requires p.middleNode in p.nodes && NodesKnown(p, evs)
    requires k <= |evs|
    ensures NodesKnown(p, evs[..k])
    ensures Reconstruct(p, evs[..k]) == Reconstruct(p, evs)[..k + 1]
    decreases |evs|
  {
    if k < |evs| {
      var init := evs[..|evs| - 1];
      assert evs[..k] == init[..k];
      ReconstructPrefix(p, init, k);
    } else {
      assert evs[..k] == evs;
    }
  }

  /** State i (i >= 1) takes type, time and node id from event i-1, even when that event names no
      node (the node id is then null, not carried forward); its location is that event's node, or
      the previous state's location when the event names none. */
  lemma ReconstructAt(p: Problem, evs: seq<Event>, i: nat)
    requires p.middleNode in p.nodes && NodesKnown(p, evs)
    requires 1 <= i <= |evs|
    ensures var r := Reconstruct(p, evs);
            r[i].eventType == evs[i - 1].eventType && r[i].time == evs[i - 1].time
            && r[i].nodeId == Field(evs[i - 1].nodeId)
            && r[i].loc == (if evs[i - 1].nodeId.Some? then NodeLoc(p, evs[i - 1].nodeId.value) else r[i - 1].loc)
  {
    ReconstructPrefix(p, evs, i);
    ReconstructPrefix(p, evs, i - 1);
    var pre := evs[..i];
    assert pre[..|pre| - 1] == evs[..i - 1];
  }

  /** The id of the last event in the list that names a node, if any. */
  function LastNode(evs: seq<Event>): (r: Option<int>)
    ensures r.Some? ==> exists j :: 0 <= j < |evs| && evs[j].nodeId == r
                                 && forall k :: j < k < |evs| ==> evs[k].nodeId.None?
    ensures r.None? ==> forall j :: 0 <= j < |evs| ==> evs[j].nodeId.None?
  {
    if evs == [] then None
    else if evs[|evs| - 1].nodeId.Some? then evs[|evs| - 1].nodeId
    else LastNode(evs[..|evs| - 1])
  }

  /** The location of state i is the last node named by the first i events, or the middle node when
      none of them names one: every location on the path is the start or a node the log visited. */
  lemma {:induction false} ReconstructLoc(p: Problem, evs: seq<Event>, i: nat)
    requires p.middleNode in p.nodes && NodesKnown(p, evs)
    requires i <= |evs|
    ensures LastNode(evs[..i]).GetOr(p.middleNode) in p.nodes
    ensures Reconstruct(p, evs)[i].loc == NodeLoc(p, LastNode(evs[..i]).GetOr(p.middleNode))
  {
    if i > 0 {
      ReconstructLoc(p, evs, i - 1);
      ReconstructAt(p, evs, i);
      assert evs[..i][..i - 1] == evs[..i - 1];
    }
  }

  /** If the log's timestamps are non-negative and non-decreasing, so are the timeline's. */
  lemma ReconstructTimesMonotone(p: Problem, evs: seq<Event>, i: nat)
    requires p.middleNode in p.nodes && NodesKnown(p, evs)
    requires forall j :: 0 <= j < |evs| ==> 0.0 <= evs[j].time
    requires forall j :: 0 < j < |evs| ==> evs[j - 1].time <= evs[j].time
    requires 0 < i <= |evs|
    ensures Reconstruct(p, evs)[i - 1].time <= Reconstruct(p, evs)[i].time
  {
    ReconstructAt(p, evs, i);
    if i > 1 {
      ReconstructAt(p, evs, i - 1);
    }
  }

  /** get_duration is the time of the last reconstructed state whenever the trial has events. */
  lemma DurationIsLastStateTime(t: Trial)
    requires WellFormed(t)
    ensures var r := Reconstruct(t.problem, EventsOf(t.data, false));
            Duration(t).Some? <==> |r| > 1
    ensures var r := Reconstruct(t.problem, EventsOf(t.data, false));
            Duration(t).Some? ==> Duration(t).value == r[|r| - 1].time
  {
    var evs := EventsOf(t.data, false);
    if evs != [] {
      ReconstructAt(t.problem, evs, |evs|);
    }
  }

  /** Two nodes (0,0) and (1,0), start on the first, one move to the second at time T. */
  lemma SingleMoveTimeline(T: real)
    ensures var p := Problem(map[0 := (0, 0), 1 := (1, 0)], 0);
            Reconstruct(p, [Event(MOVE, T, Some(1))])
            == [State(START, (0, 0), Absent, 0.0), State(MOVE, (1, 0), Field(Some(1)), T)]
  {
  }

  /** state_timeseries: walks the log once, copying the previous state forward and tracking the
      player's location separately from the node id. */
  method StateTimeseries(t: Trial) returns (states: seq<State>)
    requires WellFormed(t)
    ensures states == Reconstruct(t.problem, EventsOf(t.data, false))
  {
    var p := t.problem;
    var middleLoc := NodeLoc(p, p.middleNode);
    states := [State(START, middleLoc, Absent, 0.0)];
    var evs := EventsOf(t.data, false);
    var playerLoc := middleLoc;
    for i := 0 to |evs|
      invariant NodesKnown(p, evs[..i])
      invariant states == Reconstruct(p, evs[..i])
      invariant playerLoc == states[|states| - 1].loc
    {
      var e := evs[i];
      var nextMove := e.nodeId;
      if nextMove.Some? {
        playerLoc := NodeLoc(p, nextMove.value);
      }
      var next := State(e.eventType, playerLoc, Field(nextMove), e.time);
      states := states + [next];
      assert evs[..i + 1][..i] == evs[..i];
    }
    assert evs[..|evs|] == evs;
  }
}
