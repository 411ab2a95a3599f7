# Trial event-log processing, modelled in Dafny

This project models the event-log processing of the `Trial` class of an analysis toolkit for a
grid-navigation experiment. In each trial a player moves between the nodes of a map, collects gems
and may request an oracle hint once. The trial's log is an ordered list of events (`move`,
`collect`, `oracle_request`), each with a timestamp and an optional node id. The model covers:

- **The map** (`grid.dfy`, module `Grid`): nodes with integer grid coordinates and a start (middle)
  node. It also covers node lookup (`node_loc`) and the direction of a one-step move (`move_dir`).
- **The event accessor and the duration** (`trial_events.dfy`, module `TrialEvents`). Event data
  can be missing, null or a list. The accessor can keep only the `move` events. `get_duration` is
  the time of the last event.
- **The state timeline** (`timeline.dfy`, module `Timeline`). `state_timeseries` is a left-to-right
  fold from a synthetic `start` state on the middle node at time 0. It is specified by the function
  `Reconstruct` and implemented by the loop method `StateTimeseries`.
- **The analytics** (`analytics.dfy`, module `Analytics`). `oracle_request_index` is a scan that
  stops at the first oracle request. The delay loop of `render_timing_hist` (per-state time deltas
  and the positions of `collect` states) is taken out of the plotting code as a method of its own.
- **`cap`** (`strings.dfy`, module `Strings`): upper-case the first character of a string.

A trial is a value (`TrialEvents.Trial`). The source sets its fields only while loading documents
and never changes them afterwards. The three loops of the modelled functions (`state_timeseries`,
`oracle_request_index` and the delay loop of `render_timing_hist`) are methods with loop
invariants, proved against specification functions. Event times are `real`s: the code only copies
and subtracts them.

Points of the code's behaviour that the model keeps:

- The node id is not carried forward. When an event names no node, the state's location stays
  where it was, but its node id is overwritten with null (trial.py:83-87).
  `Timeline.ReconstructAt` states this.
- `move_dir` asserts only that the components of the step sum to plus or minus 1 (trial.py:116).
  See "Findings".
- For an unknown node id, the dictionary lookup at trial.py:53 yields None. Reading `X` from that
  None then raises an `AttributeError` at trial.py:54. This happens for an event that names an
  unknown node, and for a map whose middle node is unknown. The model makes known nodes a
  precondition (`Timeline.WellFormed`, `Grid.NodeLoc`) rather than an error result.

## Model

| member | source | states |
|---|---|---|
| `Grid.NodeLoc` | trial.py:52-54 | The result is the coordinates recorded for a node on the map; an unknown id is excluded, because the lookup fails on it. |
| `Grid.MoveDir` | trial.py:112-124 | With the assertion as a precondition, a direction is returned exactly when the two nodes are grid-adjacent, and its step is their coordinate difference; otherwise the result is None. |
| `Grid.MoveDirInverse` | trial.py:117-124 | `move_dir` reports direction d if and only if d's unit step equals the difference of the two nodes. |
| `Grid.MoveDirAssertionAdmitsNonAdjacent` | trial.py:116-124 | The assertion rejects every step whose components cancel (zero, (1,-1)), but admits the non-adjacent step (2,-1), for which `move_dir` returns None. |
| `Grid.AdjacentPassesAssertion` | trial.py:116 | Every grid-adjacent step passes the assertion, so adjacency is a strictly stronger guard. |
| `Grid.MoveDirAdjacent` | trial.py:112-124 | Corrected `move_dir`: for adjacent nodes it always returns the direction whose unit step is their difference. |
| `TrialEvents.MovesOnly` | trial.py:134 | The move filter returns no more events than it is given, and every returned event is a `move` from the input. |
| `TrialEvents.MovesOnlyAppend` | trial.py:134 | Filtering distributes over concatenation, so the relative order of the kept events is the log's order. |
| `TrialEvents.MovesOnlyMembership` | trial.py:134 | An event is kept if and only if it is in the log and is a `move`. |
| `TrialEvents.MovesOnlyCount` | trial.py:134 | The filter keeps each distinct move event exactly as often as it occurs in the log, and drops every other event. |
| `TrialEvents.MovesOnlyOfMoves` | trial.py:134 | A log made only of moves is returned unchanged. |
| `TrialEvents.EventsOf` | trial.py:126-135 | Missing or null event data reads as the empty list. Without the filter, the stored list is returned as is. With it, only `move` events are returned, and every stored move is among them. |
| `TrialEvents.Duration` | trial.py:56-64 | There is no duration exactly when the log is empty (an index error in the source). Otherwise the duration is the last event's time. |
| `Timeline.Reconstruct` | trial.py:66-91 | The timeline has one state more than the log has events, and its first state is `start` on the middle node at time 0 with no node id. |
| `Timeline.ReconstructPrefix` | trial.py:77-90 | Reconstructing the first k events gives the first k+1 states: the fold never revisits earlier states. |
| `Timeline.ReconstructAt` | trial.py:81-90 | State i takes its type, its time and its node id from event i-1. The node id is null when the event names no node, so it is not carried forward. The location is the event's node, or the previous state's location when the event names none. |
| `Timeline.LastNode` | trial.py:83-85 | The result is the node id of an event in the log after which no event names a node, so it is the last one named. There is none only if no event names a node. |
| `Timeline.ReconstructLoc` | trial.py:70-86 | State i is on the last node named by the first i events, or on the middle node if none names one. So every location on the path is the start or a node the log visited. |
| `Timeline.ReconstructTimesMonotone` | trial.py:88 | If event times are non-negative and non-decreasing, the timeline's times are non-decreasing from the start state's 0. |
| `Timeline.DurationIsLastStateTime` | trial.py:56-91 | The duration exists exactly when the timeline has more than the start state, and it equals the last state's time. |
| `Timeline.SingleMoveTimeline` | trial.py:66-91 | With nodes (0,0) and (1,0) and one move to the second at time T, the timeline is `start` at (0,0) at time 0, then `move` at (1,0) at time T. |
| `Timeline.StateTimeseries` | trial.py:66-91 | The loop, which tracks the player's location apart from the copied state, builds exactly the folded timeline. |
| `Analytics.FirstOracleRequest` | trial.py:100-105 | Returns -1 if and only if no state is an oracle request; otherwise the index of an oracle request with none before it. |
| `Analytics.CountCollectsPrefix` | trial.py:100-102 | A prefix of a timeline has no more collects than the whole timeline. |
| `Analytics.GemsAtOracleRange` | trial.py:93-106 | The gem count at the oracle is -1 if and only if the oracle is never requested. Otherwise it lies between 0 and the total number of collects. |
| `Analytics.GemsAtOracleIgnoresLater` | trial.py:98-106 | Once a timeline contains an oracle request, appending any states (collects included) does not change the answer. |
| `Analytics.OracleRequestIndex` | trial.py:93-106 | The scan with early stop returns -1 if and only if there is no oracle request. Otherwise it returns the number of collects strictly before the first one. |
| `Analytics.TimingDeltas` | trial.py:139-149 | There is one delay per state, measured from the previous state's time (from 0 for the first), and the delays sum to the last state's time. The collect positions are strictly increasing and are exactly the indices of `collect` states. |
| `Strings.UpperChar` | util.py:11 | An ASCII lower-case letter becomes the capital at the same alphabet position; any other character is unchanged; the result is never lower-case. |
| `Strings.Cap` | util.py:10-11 | For a non-empty string: the length is kept, the first character is upper-cased, and the tail is unchanged. |
| `Strings.CapIdempotent` | util.py:11 | Capitalising twice is the same as capitalising once. |

## Findings

| source | as written | input that shows it | evidently intended | confidence | as-written member | corrected member |
|---|---|---|---|---|---|---|
| trial.py:116-124 | `move_dir` asserts that the absolute value of dx + dy is 1. | Nodes at (0,0) and (2,-1): the assertion passes, no branch matches, and the result is None. | Reject any step that is not grid-adjacent (Manhattan distance 1), so that a direction is always returned. | medium; not executed | `Grid.MoveDirAssertionAdmitsNonAdjacent` (on `Grid.MoveDir`) | `Grid.MoveDirAdjacent` |

## Left out

- Loading: reading match metadata, map and trial documents from disk (`load_metadata`, `load_trial`, the constructor), and the batch loader `All` with its catch-and-continue loop. This is file I/O and exception plumbing. A trial is taken as already loaded.
- Rendering: `render`, `render_problem` and the bar drawing in `render_timing_hist` are plotting-library calls. The delay computation of `render_timing_hist` is modelled as `Analytics.TimingDeltas`, which takes the states that `state_timeseries` returns.
- plots.py (grouped bar charts and least-squares regression plots): plotting and floating-point statistics.
- `util.dist`: a floating-point square root.
- The warning printed by the event accessor for an empty log: output only.
- `start_node`: a one-line getter of the middle node; the model reads `Problem.middleNode` directly.
- Events without an `eventType` or `time` entry, and nodes without `X`/`Y`: the model's records always have these fields. The source would read them as null.
- Node ids: the source looks nodes up by the decimal string of the id; the model keys nodes by integer id.
- `Strings.UpperChar`: only ASCII letters are upper-cased. Python's `str.upper` also maps other Unicode letters and can lengthen a character (for example ß becomes SS), so for non-ASCII input the source's `cap` may change the length.
