/** The simulation driver of slime.py: start-up and one tick of the world,
    stated against a value-level reference for the whole tick. */
module Slime {
  import opened Wrappers
  import opened Base
  import opened Objects

  const Width := 720
  const Height := 720
  const CellSize := 70
  const TrailLength := 100
  /** Agent `i` senses on the ticks where `(steps + i) % SensePeriod == 0`. */
  const SensePeriod := 5
  const TurnAlpha := 10

  // ---------------------------------------------------------------------------
  // Value-level reference for one tick
  // ---------------------------------------------------------------------------

  /** Every agent's position after `move`. */
  function MovedPositions(ps: seq<Point>, vs: seq<Point>): (r: seq<Point>)
    requires |ps| == |vs|
    ensures |r| == |ps|
    ensures forall k :: 0 <= k < |r| ==> r[k] == Add(ps[k], vs[k])
  {
    seq(|ps|, k requires 0 <= k < |ps| => Add(ps[k], vs[k]))
  }

  /** Every agent's velocity after `check_bounds` at its moved position. */
  function Bounced(ps: seq<Point>, vs: seq<Point>): (r: seq<Point>)
    requires |ps| == |vs|
    ensures |r| == |ps|
    ensures forall k :: 0 <= k < |r| ==> r[k] == Reflect(ps[k], vs[k], Width, Height)
  {
    seq(|ps|, k requires 0 <= k < |ps| => Reflect(ps[k], vs[k], Width, Height))
  }

  /** The grid cell of every position. */
  function Cells(ps: seq<Point>): (r: seq<Cell>)
    ensures |r| == |ps|
    ensures forall k :: 0 <= k < |r| ==> r[k] == CellOf(ps[k], CellSize)
  {
    seq(|ps|, k requires 0 <= k < |ps| => CellOf(ps[k], CellSize))
  }

  /** Each agent's position, keyed by the agent. */
  function PositionMap(agents: seq<Agent>, ps: seq<Point>): (m: map<Agent, Point>)
    requires |agents| == |ps|
    ensures m.Keys == set a | a in agents
  {
    if agents == [] then map[]
    else
      var n := |agents| - 1;
      PositionMap(agents[..n], ps[..n])[agents[n] := ps[n]]
  }

  /** With no agent listed twice, the map gives each agent its own position. */
  lemma {:induction false} PositionMapAt(agents: seq<Agent>, ps: seq<Point>, k: nat)
    requires |agents| == |ps| && k < |agents|
    requires forall i, j :: 0 <= i < j < |agents| ==> agents[i] != agents[j]
    ensures PositionMap(agents, ps)[agents[k]] == ps[k]
  {
    var n := |agents| - 1;
    if k < n {
      PositionMapAt(agents[..n], ps[..n], k);
    }
  }

  /** The positions of `others`, looked up. */
  function Lookup(pos: map<Agent, Point>, others: seq<Agent>): (r: seq<Point>)
    requires forall a :: a in others ==> a in pos
    ensures |r| == |others|
    ensures forall k :: 0 <= k < |r| ==> r[k] == pos[others[k]]
  {
    seq(|others|, k requires 0 <= k < |others| => pos[others[k]])
  }

  /** The agent `self.sense(candidates)` returns, on positions looked up in
      `pos`, when `self` heads along `heading`. */
  function TargetOf(self: Agent, candidates: seq<Agent>, pos: map<Agent, Point>, heading: Point): (t: Option<Agent>)
    requires self in pos && forall a :: a in candidates ==> a in pos
    ensures t.Some? ==> t.value in candidates && t.value != self
  {
    var others := self.NonSelfAgents(candidates);
    match Closest(pos[self], heading, Lookup(pos, others))
    case None => None
    case Some(k) => Some(others[k])
  }

  /** The grid the first half of a tick builds: every agent, in order, in
      the bucket of its moved position. */
  function TickGrid(agents: seq<Agent>, moved: seq<Point>): map<Cell, seq<Agent>>
    requires |agents| == |moved|
  {
    Filled(Cells(moved), agents)
  }

  /** The agent that agent `i` senses in a tick: `sense` over the grid
      query around its moved position, on the moved positions, heading along
      its bounced velocity. */
  function TickTarget(agents: seq<Agent>, i: nat, moved: seq<Point>, bounced: seq<Point>): (t: Option<Agent>)
    requires |agents| == |moved| == |bounced| && i < |agents|
    ensures t.Some? ==> t.value in agents && t.value != agents[i]
  {
    NearbyFromAgents(agents, moved, CellOf(moved[i], CellSize));
    TargetOf(agents[i], Nearby(TickGrid(agents, moved), CellOf(moved[i], CellSize)),
             PositionMap(agents, moved), bounced[i])
  }

  /** The velocity agent `i` ends the tick with: the bounced velocity,
      steered towards its target on the ticks it senses, when it finds one. */
  function SteeredVelocity(agents: seq<Agent>, i: nat, moved: seq<Point>, bounced: seq<Point>,
                           steps: int, renormalise: Point -> Point): Point
    requires |agents| == |moved| == |bounced| && i < |agents|
  {
    if (steps + i) % SensePeriod != 0 then bounced[i]
    else match TickTarget(agents, i, moved, bounced)
      case None => bounced[i]
      case Some(t) => renormalise(Blend(bounced[i], moved[i], PositionMap(agents, moved)[t], TurnAlpha))
  }

  /** Every agent's velocity at the end of the tick. */
  function TickVelocities(agents: seq<Agent>, moved: seq<Point>, bounced: seq<Point>,
                          steps: int, renormalise: Point -> Point): (r: seq<Point>)
    requires |agents| == |moved| == |bounced|
    ensures |r| == |agents|
  {
    SteeredPrefix(agents, moved, bounced, steps, renormalise, |agents|)
  }

  /** The end-of-tick velocities of the first `n` agents. */
  function SteeredPrefix(agents: seq<Agent>, moved: seq<Point>, bounced: seq<Point>,
                         steps: int, renormalise: Point -> Point, n: nat): (r: seq<Point>)
    requires |agents| == |moved| == |bounced| && n <= |agents|
    ensures |r| == n
  {
    if n == 0 then []
    else SteeredPrefix(agents, moved, bounced, steps, renormalise, n - 1) +
         [SteeredVelocity(agents, n - 1, moved, bounced, steps, renormalise)]
  }

  /** Each agent's entry of the tick's velocities is its own steered
      velocity. */
  lemma {:induction false} TickVelocityAt(agents: seq<Agent>, moved: seq<Point>, bounced: seq<Point>,
                                          steps: int, renormalise: Point -> Point, n: nat, i: nat)
    requires |agents| == |moved| == |bounced| && i < n <= |agents|
    ensures SteeredPrefix(agents, moved, bounced, steps, renormalise, n)[i] ==
            SteeredVelocity(agents, i, moved, bounced, steps, renormalise)
  {
    if i < n - 1 {
      TickVelocityAt(agents, moved, bounced, steps, renormalise, n - 1, i);
    }
  }

  /** The grid query returns only agents of the simulation. */
  lemma NearbyFromAgents(agents: seq<Agent>, moved: seq<Point>, cell: Cell)
    requires |agents| == |moved|
    ensures forall a :: a in Nearby(TickGrid(agents, moved), cell) ==> a in agents
  {
    forall a | a in Nearby(TickGrid(agents, moved), cell)
      ensures a in agents
    {
      NearbyMembers(TickGrid(agents, moved), cell, a);
      var d :| d in TickGrid(agents, moved) && Adjacent(cell, d) && a in TickGrid(agents, moved)[d];
      FilledBuckets(Cells(moved), agents, d);
    }
  }

  /** Every agent, and no other, is returned by the query of a cell adjacent
      to its moved position's cell: the queries of a tick see every agent
      where it moved to. */
  lemma TickGridSeesMoved(agents: seq<Agent>, moved: seq<Point>, cell: Cell, j: nat)
    requires |agents| == |moved| && j < |agents|
    requires forall i, k :: 0 <= i < k < |agents| ==> agents[i] != agents[k]
    ensures agents[j] in Nearby(TickGrid(agents, moved), cell) <==> Adjacent(cell, CellOf(moved[j], CellSize))
  {
    var grid := TickGrid(agents, moved);
    NearbyMembers(grid, cell, agents[j]);
    var home := CellOf(moved[j], CellSize);
    FilledBuckets(Cells(moved), agents, home);
    if Adjacent(cell, home) {
      FiledHas(Cells(moved), agents, j);
      assert home in grid;
    }
    if agents[j] in Nearby(grid, cell) {
      var d :| d in grid && Adjacent(cell, d) && agents[j] in grid[d];
      FilledBuckets(Cells(moved), agents, d);
      var k :| 0 <= k < |agents| && Cells(moved)[k] == d && agents[k] == agents[j];
      assert k == j;
    }
  }

  /** The `j`-th item is filed under the `j`-th cell. */
  lemma {:induction false} FiledHas<T>(cells: seq<Cell>, items: seq<T>, j: nat)
    requires |cells| == |items| && j < |items|
    ensures items[j] in Filed(cells, items, cells[j])
  {
    var n := |items| - 1;
    if j < n {
      FiledHas(cells[..n], items[..n], j);
    }
  }

  /** What a sensing agent picks at the value level: nothing exactly when no
      other candidate qualifies, otherwise another candidate that qualifies
      and is no farther than any qualifying candidate. */
  lemma TargetChoice(self: Agent, candidates: seq<Agent>, pos: map<Agent, Point>, heading: Point)
    requires self in pos && forall a :: a in candidates ==> a in pos
    ensures TargetOf(self, candidates, pos, heading).None? <==>
            forall a :: a in candidates && a != self ==> !Qualifies(pos[self], heading, pos[a])
    ensures TargetOf(self, candidates, pos, heading).Some? ==>
            var t := TargetOf(self, candidates, pos, heading).value;
            && Qualifies(pos[self], heading, pos[t])
            && (forall a :: a in candidates && a != self && Qualifies(pos[self], heading, pos[a]) ==>
                  DistSq(pos[self], pos[t]) <= DistSq(pos[self], pos[a]))
  {
    var others := self.NonSelfAgents(candidates);
    var ps := Lookup(pos, others);
    ClosestChoice(pos[self], heading, ps);
    forall a | a in candidates && a != self
      ensures exists k :: 0 <= k < |others| && others[k] == a && ps[k] == pos[a]
    {
      var k :| 0 <= k < |others| && others[k] == a;
    }
  }

  /** Ties go to the agent listed first: every qualifying other agent listed
      before the target's first appearance is strictly farther away. */
  lemma TargetFirstOnTies(self: Agent, candidates: seq<Agent>, pos: map<Agent, Point>, heading: Point)
    requires self in pos && forall a :: a in candidates ==> a in pos
    ensures TargetOf(self, candidates, pos, heading).Some? ==>
            var t := TargetOf(self, candidates, pos, heading).value;
            forall i :: 0 <= i < |candidates| && t !in candidates[..i + 1] && candidates[i] != self &&
                        Qualifies(pos[self], heading, pos[candidates[i]]) ==>
              DistSq(pos[self], pos[t]) < DistSq(pos[self], pos[candidates[i]])
  {
    var others := self.NonSelfAgents(candidates);
    var ps := Lookup(pos, others);
    ClosestChoice(pos[self], heading, ps);
    if Closest(pos[self], heading, ps).Some? {
      var j := Closest(pos[self], heading, ps).value;
      var t := others[j];
      hide Qualifies, DistSq;
      forall i | 0 <= i < |candidates| && t !in candidates[..i + 1] && candidates[i] != self &&
                 Qualifies(pos[self], heading, pos[candidates[i]])
        ensures DistSq(pos[self], pos[t]) < DistSq(pos[self], pos[candidates[i]])
      {
        var front, rest := candidates[..i + 1], candidates[i + 1..];
        assert front + rest == candidates;
        self.KeptBefore(front, rest, j);
        var m :| 0 <= m < j && others[m] == candidates[i];
        assert ps[m] == pos[candidates[i]];
      }
    }
  }

  /** An agent off the sensing schedule keeps its bounced velocity. */
  lemma OffScheduleKeepsHeading(agents: seq<Agent>, i: nat, moved: seq<Point>, bounced: seq<Point>,
                                steps: int, renormalise: Point -> Point)
    requires |agents| == |moved| == |bounced| && i < |agents|
    requires (steps + i) % SensePeriod != 0
    ensures TickVelocities(agents, moved, bounced, steps, renormalise)[i] == bounced[i]
  {
    TickVelocityAt(agents, moved, bounced, steps, renormalise, |agents|, i);
  }

  /** No two agents are the same object. */
  lemma DisjointDistinct(agents: seq<Agent>)
    requires AgentsDisjoint(agents)
    ensures forall i, j :: 0 <= i < j < |agents| ==> agents[i] != agents[j]
  {
    forall i, j | 0 <= i < j < |agents|
      ensures agents[i] != agents[j]
    {
      assert Apart(agents[i], agents[j]);
    }
  }

  /** In one heap, reading the positions of some of the agents is looking
      them up in the map of all positions. */
  lemma PositionsAreLookups(agents: seq<Agent>, ps: seq<Point>, others: seq<Agent>)
    requires AgentsDisjoint(agents) && |ps| == |agents|
    requires forall k :: 0 <= k < |agents| ==> agents[k].Pos() == ps[k]
    requires forall a :: a in others ==> a in agents
    ensures Positions(others) == Lookup(PositionMap(agents, ps), others)
  {
    DisjointDistinct(agents);
    var pos := PositionMap(agents, ps);
    forall k | 0 <= k < |others|
      ensures others[k].Pos() == pos[others[k]]
    {
      var j :| 0 <= j < |agents| && agents[j] == others[k];
      PositionMapAt(agents, ps, j);
    }
  }

  ghost function PositionArrays(agents: seq<Agent>): set<array<int>> {
    set a | a in agents :: a.position.coordinates
  }

  ghost function VelocityArrays(agents: seq<Agent>): set<array<int>> {
    set a | a in agents :: a.velocity.coordinates
  }

  // ---------------------------------------------------------------------------
  // The simulation
  // ---------------------------------------------------------------------------

  class SlimeMoldSimulation {
    const shape: (int, int)
    const grid: SpatialGrid
    const circleFactory: CircleFactory
    var agents: seq<Agent>
    /** One trail of recent positions per agent, newest first. */
    var agentPositions: seq<LimitedStore<Point>>
    var nSteps: int

    /** The constants of the world; every agent owns its arrays and has one
        trail of its own, capped at `TrailLength`; between ticks the grid is
        empty. */
    ghost predicate Valid()
      reads this, grid, agentPositions
    {
      && shape == (Width, Height)
      && grid.cellSize == CellSize && grid.worldSize == shape
      && circleFactory == CircleFactory(2.0, (255, 255, 255))
      && AgentsDisjoint(agents)
      && |agentPositions| == |agents|
      && (forall i :: 0 <= i < |agentPositions| ==>
            agentPositions[i].size == TrailLength && |agentPositions[i].store| <= TrailLength)
      && (forall i, j :: 0 <= i < j < |agentPositions| ==> agentPositions[i] != agentPositions[j])
      && grid.grid == map[]
      && nSteps >= 0
    }

    /** An empty world of 720 by 720 with 70-wide grid cells; the game engine
        is not part of this model. */
    constructor ()
      ensures Valid() && fresh(grid)
      ensures agents == [] && agentPositions == [] && nSteps == 0
    {
      shape := (Width, Height);
      grid := new SpatialGrid(CellSize, (Width, Height));
      circleFactory := CircleFactory(2.0, (255, 255, 255));
      agents := [];
      agentPositions := [];
      nSteps := 0;
    }

    /** `start(n_agents)`: appends `n` agents at the centre of the world,
        with velocities `draws(0)`, `draws(1)`, ..., and an empty trail for
        each. When `make_n_agents` fails, nothing is added. */
    method Start(n: int, draws: nat -> Point) returns (error: Option<ConstructionError>)
      requires Valid()
      modifies this
      ensures Valid() && nSteps == old(nSteps)
      ensures n <= 0 ==> error == Some(NonPositiveCount) && agents == old(agents) && agentPositions == old(agentPositions)
      ensures n > 0 ==>
        && error == None
        && |agents| == old(|agents|) + n
        && agents[..old(|agents|)] == old(agents) && agentPositions[..old(|agents|)] == old(agentPositions)
        && forall i :: old(|agents|) <= i < |agents| ==>
             && fresh(agents[i]) && fresh(agentPositions[i])
             && agents[i].Pos() == Point(Width / 2, Height / 2) && agents[i].Vel() == draws(i - old(|agents|))
             && agentPositions[i].store == []
    {
      var centre := new int[2];
      centre[0], centre[1] := shape.0 / 2, shape.1 / 2;
      var start := new Vector(centre);
      var made := MakeNAgents(n, Single(start), RandomVelocity, draws);
      if made.Failure? {
        return Some(made.error);
      }
      var created := made.value;
      ghost var n0 := |agents|;
      forall i, j | 0 <= i < |agents| + |created| && 0 <= j < |agents| + |created| && i != j
        ensures Apart((agents + created)[i], (agents + created)[j])
      {
        if i < n0 && j < n0 {
          assert Apart(agents[i], agents[j]);
        } else if i >= n0 && j >= n0 {
          assert Apart(created[i - n0], created[j - n0]);
        }
      }
      Enrol(created);
      return None;
    }

    /** The loop of `start`: each agent is appended together with a new,
        empty trail of its own. */
    method Enrol(created: seq<Agent>)
      requires Valid() && AgentsDisjoint(agents + created)
      modifies this
      ensures Valid() && nSteps == old(nSteps)
      ensures agents == old(agents) + created
      ensures |agentPositions| == |agents| && agentPositions[..old(|agents|)] == old(agentPositions)
      ensures forall k :: old(|agents|) <= k < |agentPositions| ==> fresh(agentPositions[k]) && agentPositions[k].store == []
    {
      ghost var n0 := |agents|;
      for i := 0 to |created|
        invariant |agents| == |agentPositions| == n0 + i
        invariant nSteps == old(nSteps)
        invariant agents == old(agents) + created[..i]
        invariant agentPositions[..n0] == old(agentPositions)
        invariant forall k :: 0 <= k < n0 ==> agentPositions[k].size == TrailLength && |agentPositions[k].store| <= TrailLength
        invariant forall k :: n0 <= k < |agentPositions| ==>
                    fresh(agentPositions[k]) && agentPositions[k].size == TrailLength && agentPositions[k].store == []
        invariant forall k, j :: 0 <= k < j < |agentPositions| ==> agentPositions[k] != agentPositions[j]
      {
        agents := agents + [created[i]];
        var trail := new LimitedStore<Point>(TrailLength);
        agentPositions := agentPositions + [trail];
      }
      assert created[..|created|] == created;
      assert AgentsDisjoint(agents);
    }

    /** `_run_one_timestep`: advances the step counter, then moves every
        agent, senses and steers on schedule, records every trail and empties
        the grid. Positions, velocities and trails end as the value-level
        reference computes them from the old positions and velocities; the
        agents and their trails stay the same objects. */
    method RunOneTimestep(renormalise: Point -> Point)
      requires Valid()
      modifies this, grid, PositionArrays(agents), VelocityArrays(agents), set t | t in agentPositions
      ensures Valid()
      ensures nSteps == old(nSteps) + 1
      ensures agents == old(agents) && agentPositions == old(agentPositions)
      ensures Positions(agents) == MovedPositions(old(Positions(agents)), old(Velocities(agents)))
      ensures Velocities(agents) ==
              TickVelocities(agents, Positions(agents), Bounced(Positions(agents), old(Velocities(agents))),
                             nSteps, renormalise)
      ensures forall i :: 0 <= i < |agents| ==>
                agentPositions[i].store == Pushed(old(agentPositions[i].store), agents[i].Pos(), TrailLength)
    {
      hide TickTarget, SteeredVelocity, SteeredPrefix, TickVelocities, Pushed, MovedPositions, Bounced;
      hide Positions, Velocities, PrefixSlice, Reflect, Add;
      nSteps := nSteps + 1;
      Tick(renormalise);
    }

    /** The two loops of a tick and the clearing of the grid. */
    method Tick(renormalise: Point -> Point)
      requires grid.cellSize == CellSize && shape == (Width, Height)
      requires AgentsDisjoint(agents) && grid.grid == map[] && |agentPositions| == |agents|
      requires forall i, j :: 0 <= i < j < |agentPositions| ==> agentPositions[i] != agentPositions[j]
      modifies grid, PositionArrays(agents), VelocityArrays(agents), set t | t in agentPositions
      ensures Positions(agents) == MovedPositions(old(Positions(agents)), old(Velocities(agents)))
      ensures Velocities(agents) ==
              TickVelocities(agents, Positions(agents), Bounced(Positions(agents), old(Velocities(agents))),
                             nSteps, renormalise)
      ensures forall i :: 0 <= i < |agents| ==>
                agentPositions[i].store == Pushed(old(agentPositions[i].store), agents[i].Pos(), agentPositions[i].size)
      ensures grid.grid == map[]
    {
      hide TickTarget, SteeredVelocity, SteeredPrefix, TickVelocities, Filled, Pushed, MovedPositions, Bounced;
      hide Positions, Velocities, PrefixSlice, Reflect, Add;
      MoveAll();
      SenseAll(renormalise);
      ghost var ps, vs := Positions(agents), Velocities(agents);
      grid.Clear();
      PositionsPointwise(agents, ps);
      VelocitiesPointwise(agents, vs);
    }

    /** The first loop of a tick: every agent moves, bounces off the walls
        of the world and is filed in the grid, in list order. */
    method MoveAll()
      requires grid.cellSize == CellSize && shape == (Width, Height)
      requires AgentsDisjoint(agents) && grid.grid == map[]
      modifies grid, PositionArrays(agents), VelocityArrays(agents)
      ensures Positions(agents) == MovedPositions(old(Positions(agents)), old(Velocities(agents)))
      ensures Velocities(agents) == Bounced(Positions(agents), old(Velocities(agents)))
      ensures grid.grid == TickGrid(agents, Positions(agents))
    {
      hide Positions, Velocities, MovedPositions, Bounced, Reflect, Add, CellOf, Insert;
      ghost var ps, vs := Positions(agents), Velocities(agents);
      ghost var moved := MovedPositions(ps, vs);
      ghost var bounced := Bounced(moved, vs);
      ghost var cells := Cells(moved);
      for i := 0 to |agents|
        invariant forall k :: 0 <= k < i ==> agents[k].Pos() == moved[k] && agents[k].Vel() == bounced[k]
        invariant forall k :: i <= k < |agents| ==> agents[k].Pos() == ps[k] && agents[k].Vel() == vs[k]
        invariant grid.grid == Filled(cells[..i], agents[..i])
      {
        MoveStep(i, ps, vs, moved, bounced, cells);
      }
      assert cells[..|agents|] == cells && agents[..|agents|] == agents;
      PositionsPointwise(agents, moved);
      VelocitiesPointwise(agents, bounced);
    }

    /** The first loop, after its first `i` passes and then after one
        more. */
    method MoveStep(i: nat, ghost ps: seq<Point>, ghost vs: seq<Point>, ghost moved: seq<Point>,
                    ghost bounced: seq<Point>, ghost cells: seq<Cell>)
      requires grid.cellSize == CellSize && shape == (Width, Height)
      requires AgentsDisjoint(agents) && i < |agents| == |ps| == |vs|
      requires moved == MovedPositions(ps, vs) && bounced == Bounced(moved, vs) && cells == Cells(moved)
      requires forall k :: 0 <= k < i ==> agents[k].Pos() == moved[k] && agents[k].Vel() == bounced[k]
      requires forall k :: i <= k < |agents| ==> agents[k].Pos() == ps[k] && agents[k].Vel() == vs[k]
      requires grid.grid == Filled(cells[..i], agents[..i])
      modifies grid, agents[i].position.coordinates, agents[i].velocity.coordinates
      ensures forall k :: 0 <= k < i + 1 ==> agents[k].Pos() == moved[k] && agents[k].Vel() == bounced[k]
      ensures forall k :: i + 1 <= k < |agents| ==> agents[k].Pos() == ps[k] && agents[k].Vel() == vs[k]
      ensures grid.grid == Filled(cells[..i + 1], agents[..i + 1])
    {
      hide Positions, Velocities, MovedPositions, Bounced, Reflect, Add, CellOf, Insert, Filled;
      MoveOne(i);
      FilledStep(cells, agents, i);
    }

    /** One pass of the first loop: only agent `i` moves and bounces, and
        only its cell's bucket grows. */
    method MoveOne(i: nat)
      requires grid.cellSize == CellSize && shape == (Width, Height)
      requires AgentsDisjoint(agents) && i < |agents|
      modifies grid, agents[i].position.coordinates, agents[i].velocity.coordinates
      ensures agents[i].Pos() == Add(old(agents[i].Pos()), old(agents[i].Vel()))
      ensures agents[i].Vel() == Reflect(agents[i].Pos(), old(agents[i].Vel()), Width, Height)
      ensures forall k :: 0 <= k < |agents| && k != i ==>
                agents[k].Pos() == old(agents[k].Pos()) && agents[k].Vel() == old(agents[k].Vel())
      ensures grid.grid == Insert(old(grid.grid), CellOf(agents[i].Pos(), CellSize), agents[i])
    {
      var agent := agents[i];
      assert forall k :: 0 <= k < |agents| && k != i ==> Apart(agents[k], agent);
      agent.Move();
      agent.CheckBounds(shape.0, shape.1);
      grid.AddAgent(agent);
    }

    /** The second loop of a tick: agent `i` queries the grid around its
        moved position, senses and steers when `(nSteps + i) % 5 == 0` and a
        target is found, and pushes its position onto its trail. */
    method SenseAll(renormalise: Point -> Point)
      requires grid.cellSize == CellSize
      requires AgentsDisjoint(agents) && |agentPositions| == |agents|
      requires forall i, j :: 0 <= i < j < |agentPositions| ==> agentPositions[i] != agentPositions[j]
      requires grid.grid == TickGrid(agents, Positions(agents))
      modifies VelocityArrays(agents), set t | t in agentPositions
      ensures Positions(agents) == old(Positions(agents))
      ensures Velocities(agents) == TickVelocities(agents, Positions(agents), old(Velocities(agents)), nSteps, renormalise)
      ensures forall i :: 0 <= i < |agents| ==>
                agentPositions[i].store == Pushed(old(agentPositions[i].store), agents[i].Pos(), agentPositions[i].size)
    {
      hide TickTarget, SteeredVelocity, SteeredPrefix, TickVelocities, Filled, Pushed, TickGrid, Cells;
      hide Positions, Velocities;
      ghost var ps, vs := Positions(agents), Velocities(agents);
      ghost var steered := TickVelocities(agents, ps, vs, nSteps, renormalise);
      for i := 0 to |agents|
        invariant forall k :: 0 <= k < |agents| ==> agents[k].Pos() == ps[k]
        invariant forall k :: 0 <= k < i ==> agents[k].Vel() == steered[k]
        invariant forall k :: i <= k < |agents| ==> agents[k].Vel() == vs[k]
        invariant forall k :: 0 <= k < i ==>
                    agentPositions[k].store == Pushed(old(agentPositions[k].store), ps[k], agentPositions[k].size)
        invariant forall k :: i <= k < |agents| ==> agentPositions[k].store == old(agentPositions[k].store)
      {
        SenseOne(i, ps, vs, steered, renormalise);
      }
      PositionsPointwise(agents, ps);
      VelocitiesPointwise(agents, steered);
    }

    /** One pass of the second loop: only agent `i`'s velocity and trail
        change. */
    method SenseOne(i: nat, ghost ps: seq<Point>, ghost vs: seq<Point>, ghost steered: seq<Point>,
                    renormalise: Point -> Point)
      requires grid.cellSize == CellSize
      requires AgentsDisjoint(agents) && |agentPositions| == |agents| == |ps| == |vs| && i < |agents|
      requires forall k, j :: 0 <= k < j < |agentPositions| ==> agentPositions[k] != agentPositions[j]
      requires grid.grid == TickGrid(agents, ps)
      requires forall k :: 0 <= k < |agents| ==> agents[k].Pos() == ps[k]
      requires agents[i].Vel() == vs[i]
      requires steered == TickVelocities(agents, ps, vs, nSteps, renormalise)
      modifies agents[i].velocity.coordinates, agentPositions[i]
      ensures agents[i].Vel() == steered[i]
      ensures agentPositions[i].store == Pushed(old(agentPositions[i].store), ps[i], agentPositions[i].size)
      ensures forall k :: 0 <= k < |agents| ==> agents[k].Pos() == ps[k]
      ensures forall k :: 0 <= k < |agents| && k != i ==>
                agents[k].Vel() == old(agents[k].Vel()) && agentPositions[k].store == old(agentPositions[k].store)
    {
      var agent := agents[i];
      assert agent in agents && agent.Valid();
      assert forall k :: 0 <= k < |agents| && k != i ==> Apart(agents[k], agent);
      Steer(i, ps, vs, renormalise);
      TickVelocityAt(agents, ps, vs, nSteps, renormalise, |agents|, i);
      var items := agent.position.Iter();
      agentPositions[i].Add(Point(items[0], items[1]));
    }

    /** The sensing and steering of agent `i`. */
    method Steer(i: nat, ghost ps: seq<Point>, ghost vs: seq<Point>, renormalise: Point -> Point)
      requires grid.cellSize == CellSize
      requires AgentsDisjoint(agents) && |agents| == |ps| == |vs| && i < |agents|
      requires grid.grid == TickGrid(agents, ps)
      requires forall k :: 0 <= k < |agents| ==> agents[k].Pos() == ps[k]
      requires agents[i].Vel() == vs[i]
      modifies agents[i].velocity.coordinates
      ensures agents[i].Vel() == SteeredVelocity(agents, i, ps, vs, nSteps, renormalise)
    {
      hide TickTarget, PositionMap, Blend, Positions, Velocities, TickGrid;
      var agent := agents[i];
      assert agent in agents && agent.Valid();
      ghost var steered := SteeredVelocity(agents, i, ps, vs, nSteps, renormalise);
      if (nSteps + i) % SensePeriod == 0 {
        var targetAgent := FindTarget(i, ps, vs);
        if targetAgent != null {
          DisjointDistinct(agents);
          ghost var j :| 0 <= j < |agents| && agents[j] == targetAgent;
          PositionMapAt(agents, ps, j);
          assert steered == renormalise(Blend(vs[i], ps[i], ps[j], TurnAlpha));
          agent.Turn(targetAgent.position, TurnAlpha, renormalise);
        } else {
          assert steered == vs[i];
        }
      } else {
        assert steered == vs[i];
      }
    }

    /** `sense` over the grid query of agent `i`; it changes nothing. */
    method FindTarget(i: nat, ghost ps: seq<Point>, ghost vs: seq<Point>) returns (targetAgent: Agent?)
      requires grid.cellSize == CellSize
      requires AgentsDisjoint(agents) && |agents| == |ps| == |vs| && i < |agents|
      requires grid.grid == TickGrid(agents, ps)
      requires forall k :: 0 <= k < |agents| ==> agents[k].Pos() == ps[k]
      requires agents[i].Vel() == vs[i]
      ensures match TickTarget(agents, i, ps, vs)
              case None => targetAgent == null
              case Some(t) => targetAgent == t
    {
      var agent := agents[i];
      assert agent in agents && agent.Valid();
      DisjointDistinct(agents);
      var nearbyAgents := grid.GetNearbyAgents(agent.position);
      NearbyFromAgents(agents, ps, CellOf(ps[i], CellSize));
      PositionMapAt(agents, ps, i);
      targetAgent := agent.Sense(nearbyAgents);
      PositionsAreLookups(agents, ps, agent.NonSelfAgents(nearbyAgents));
    }
  }

  lemma PositionsPointwise(agents: seq<Agent>, ps: seq<Point>)
    requires forall a :: a in agents ==> a.Valid()
    requires |ps| == |agents| && forall k :: 0 <= k < |agents| ==> agents[k].Pos() == ps[k]
    ensures Positions(agents) == ps
  {
  }

  lemma VelocitiesPointwise(agents: seq<Agent>, vs: seq<Point>)
    requires forall a :: a in agents ==> a.Valid()
    requires |vs| == |agents| && forall k :: 0 <= k < |agents| ==> agents[k].Vel() == vs[k]
    ensures Velocities(agents) == vs
  {
  }
}
