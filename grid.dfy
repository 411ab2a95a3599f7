/** The map of a trial (its nodes on an integer grid and the start node),
    node lookup and the direction of a one-step move (trial.py, node_loc and move_dir). */
module Grid {
  import opened Optional

  /** Integer grid coordinates (X, Y) of a node. */
  type Loc = (int, int)

  /** A trial's map: the coordinates of every node, by node id, and the node the player starts on. */
  datatype Problem = Problem(nodes: map<int, Loc>, middleNode: int)

  /** The coordinates of a node. For an id missing from the map the source's lookup yields null,
      and reading a coordinate from it raises an error, so callers must only ask about known nodes. */
  function NodeLoc(p: Problem, id: int): (r: Loc)
    requires id in p.nodes
    ensures r in p.nodes.Values
  {
    p.nodes[id]
  }

  /** The four cardinal directions move_dir can report. */
  datatype Direction = Right | Left | Up | Down

  /** The unit grid step of each direction. */
  function Offset(d: Direction): (int, int) {
    match d
    case Right => (1, 0)
    case Left => (-1, 0)
    case Up => (0, 1)
    case Down => (0, -1)
  }

  /** The coordinate difference from one node to another. */
  function Delta(p: Problem, from: int, to: int): (int, int)
    requires from in p.nodes && to in p.nodes
  {
    (NodeLoc(p, to).0 - NodeLoc(p, from).0, NodeLoc(p, to).1 - NodeLoc(p, from).1)
  }

  function Abs(x: int): nat {
    if x < 0 then -x else x
  }

  /** The assertion move_dir makes on the difference: the absolute value of the sum of its components is 1. */
  predicate SumIsUnit(delta: (int, int)) {
    Abs(delta.0 + delta.1) == 1
  }

  /** Grid adjacency: Manhattan distance exactly 1. */
  predicate Adjacent(delta: (int, int)) {
    Abs(delta.0) + Abs(delta.1) == 1
  }

  /** move_dir as written: the assertion is its precondition, and a difference that passes the
      assertion without being a unit step falls through every branch and yields None. */
  function MoveDir(p: Problem, from: int, to: int): (r: Option<Direction>)
    requires from in p.nodes && to in p.nodes
    requires SumIsUnit(Delta(p, from, to))
    ensures r.Some? <==> Adjacent(Delta(p, from, to))
    ensures r.Some? ==> Offset(r.value) == Delta(p, from, to)
  {
    var v := Delta(p, from, to);
    if v == (1, 0) then Some(Right)
    else if v == (-1, 0) then Some(Left)
    else if v == (0, 1) then Some(Up)
    else if v == (0, -1) then Some(Down)
    else None
  }

  /** A direction is reported exactly when it is the step between the two nodes. */
  lemma MoveDirInverse(p: Problem, from: int, to: int, d: Direction)
    requires from in p.nodes && to in p.nodes
    requires SumIsUnit(Delta(p, from, to))
    ensures MoveDir(p, from, to) == Some(d) <==> Offset(d) == Delta(p, from, to)
  {
  }

  /** The assertion rejects every difference whose components cancel, the zero step and the
      diagonal (1, -1) among them, but it admits (2, -1), which is not a grid step, and for
      which move_dir then returns None. */
  lemma MoveDirAssertionAdmitsNonAdjacent(dx: int)
    ensures !SumIsUnit((dx, -dx))
    ensures var p := Problem(map[0 := (0, 0), 1 := (2, -1)], 0);
            SumIsUnit(Delta(p, 0, 1)) && !Adjacent(Delta(p, 0, 1)) && MoveDir(p, 0, 1) == None
  {
  }

  /** Every grid step passes the assertion, so adjacency is the stronger guard. */
  lemma AdjacentPassesAssertion(delta: (int, int))
    requires Adjacent(delta)
    ensures SumIsUnit(delta)
  {
  }

  /** move_dir with the adjacency check the assertion evidently intends: for neighbouring nodes it
      always yields the direction whose step is their difference. */
  function MoveDirAdjacent(p: Problem, from: int, to: int): (r: Direction)
    requires from in p.nodes && to in p.nodes
    requires Adjacent(Delta(p, from, to))
    ensures Offset(r) == Delta(p, from, to)
  {
    AdjacentPassesAssertion(Delta(p, from, to));
    MoveDir(p, from, to).value
  }
}
