/** Facts trial.py derives from a reconstructed timeline: the gem count at the oracle request
    (oracle_request_index) and the inter-event delays behind the timing histogram (render_timing_hist). */
module Analytics {
  import opened TrialEvents
  import opened Timeline

  /** The number of `collect` states in a timeline. */
  function CountCollects(states: seq<State>): (n: nat)
    ensures n <= |states|
  {
    if states == [] then 0
    else CountCollects(states[..|states| - 1]) + (if states[|states| - 1].eventType == COLLECT then 1 else 0)
  }

  /** The position of the first `oracle_request` state, or -1 when there is none. */
  function FirstOracleRequest(states: seq<State>): (k: int)
    ensures k == -1 <==> forall i :: 0 <= i < |states| ==> states[i].eventType != ORACLE_REQUEST
    ensures k != -1 ==> 0 <= k < |states| && states[k].eventType == ORACLE_REQUEST
    ensures k != -1 ==> forall i :: 0 <= i < k ==> states[i].eventType != ORACLE_REQUEST
  {
    if states == [] then -1
    else if states[0].eventType == ORACLE_REQUEST then 0
    else
      var k := FirstOracleRequest(states[1..]);
      if k == -1 then -1 else k + 1
  }

  /** The gems collected before the oracle was first requested, or -1 if it never was. */
  function GemsAtOracle(states: seq<State>): int {
    var k := FirstOracleRequest(states);
    if k == -1 then -1 else CountCollects(states[..k])
  }

  /** Whatever happens after the first oracle request, collects included, does not change the answer. */
  lemma GemsAtOracleIgnoresLater(s: seq<State>, later: seq<State>)
    requires exists i :: 0 <= i < |s| && s[i].eventType == ORACLE_REQUEST
    ensures GemsAtOracle(s + later) == GemsAtOracle(s)
  {
    var k := FirstOracleRequest(s);
    var k' := FirstOracleRequest(s + later);
    assert (s + later)[k] == s[k];
    assert k' == k;
    assert (s + later)[..k] == s[..k];
  }

  /** The answer is -1 exactly when the oracle is never requested, and otherwise lies between 0
      and the total number of collects. */
  lemma {:induction false} GemsAtOracleRange(states: seq<State>)
    ensures GemsAtOracle(states) == -1 <==> forall i :: 0 <= i < |states| ==> states[i].eventType != ORACLE_REQUEST
    ensures 0 <= GemsAtOracle(states) ==> GemsAtOracle(states) <= CountCollects(states)
  {
    var k := FirstOracleRequest(states);
    if k != -1 {
      CountCollectsPrefix(states, k);
    }
  }

  /** Collects only accumulate: a prefix never has more than the whole. */
  lemma {:induction false} CountCollectsPrefix(states: seq<State>, k: nat)
    requires k <= |states|
    ensures CountCollects(states[..k]) <= CountCollects(states)
    decreases |states|
  {
    if k < |states| {
      var init := states[..|states| - 1];
      assert states[..k] == init[..k];
      CountCollectsPrefix(init, k);
    } else {
      assert states[..k] == states;
    }
  }

  /** oracle_request_index: counts collects while scanning and stops at the first oracle request. */
  method OracleRequestIndex(states: seq<State>) returns (idx: int)
    ensures idx == -1 <==> forall i :: 0 <= i < |states| ==> states[i].eventType != ORACLE_REQUEST
    ensures idx == GemsAtOracle(states)
  {
    idx := -1;
    var nGems := 0;
    var i := 0;
    while i < |states|
      invariant 0 <= i <= |states|
      invariant idx == -1
      invariant nGems == CountCollects(states[..i])
      invariant forall j :: 0 <= j < i ==> states[j].eventType != ORACLE_REQUEST
    {
      var s := states[i];
      if s.eventType == COLLECT {
        nGems := nGems + 1;
      } else if s.eventType == ORACLE_REQUEST {
        idx := nGems;
        break;
      }
      assert states[..i + 1][..i] == states[..i];
      i := i + 1;
    }
    assert i == |states| ==> states[..i] == states;
  }

  /** Sum of a list of delays. */
  function Sum(xs: seq<real>): real {
    if xs == [] then 0.0 else Sum(xs[..|xs| - 1]) + xs[|xs| - 1]
  }

  /** The delay loop of render_timing_hist: one delay per state, measured from the previous state's
      time (from 0 for the first), so the delays add up to the last state's time; and the positions
      of the `collect` states, in increasing order. */
  method TimingDeltas(states: seq<State>) returns (deltas: seq<real>, collectIdxs: seq<nat>)
    ensures |deltas| == |states|
    ensures forall i :: 0 <= i < |states| ==> deltas[i] == states[i].time - (if i == 0 then 0.0 else states[i - 1].time)
    ensures Sum(deltas) == if states == [] then 0.0 else states[|states| - 1].time
    ensures forall k :: 0 <= k < |collectIdxs| ==> collectIdxs[k] < |states| && states[collectIdxs[k]].eventType == COLLECT
    ensures forall i :: 0 <= i < |states| && states[i].eventType == COLLECT ==> i in collectIdxs
    ensures forall k, l :: 0 <= k < l < |collectIdxs| ==> collectIdxs[k] < collectIdxs[l]
  {
    var lastTime := 0.0;
    deltas := [];
    collectIdxs := [];
    for i := 0 to |states|
      invariant |deltas| == i
      invariant forall j :: 0 <= j < i ==> deltas[j] == states[j].time - (if j == 0 then 0.0 else states[j - 1].time)
      invariant lastTime == (if i == 0 then 0.0 else states[i - 1].time)
      invariant Sum(deltas) == lastTime
      invariant forall k :: 0 <= k < |collectIdxs| ==> collectIdxs[k] < i && states[collectIdxs[k]].eventType == COLLECT
      invariant forall j :: 0 <= j < i && states[j].eventType == COLLECT ==> j in collectIdxs
      invariant forall k, l :: 0 <= k < l < |collectIdxs| ==> collectIdxs[k] < collectIdxs[l]
    {
      var state := states[i];
      if state.eventType == COLLECT {
        collectIdxs := collectIdxs + [i];
      }
      var delta := state.time - lastTime;
      assert (deltas + [delta])[..i] == deltas;
      deltas := deltas + [delta];
      lastTime := state.time;
    }
  }
}
