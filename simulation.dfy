/**
 * The scene and its frame loop: the grid of marker buckets, the markers and
 * agents of the scene, marker placement by stratified sampling, and onUpdate,
 * which clears every owner and then lets each agent in turn claim markers,
 * steer, move and drop its markers.
 */
module Simulation {
  import opened Wrappers
  import opened Vectors
  import opened Grid
  import opened Steering
  import opened Crowd

  /**
   * Why a frame stopped at an agent: its neighbourhood runs past the grid
   * (where the source reads an undefined cell and throws), or its owned
   * markers have total weight zero (where the source divides by zero).
   */
  datatype Fault = OffGrid(agent: nat) | NoWeight(agent: nat)

  /** The neighbourhood of an agent at p lies inside the grid on both axes. */
  predicate Fits(p: Vec3) {
    ScanHi(CellIndex(p.x)) <= GRID_SIZE && ScanHi(CellIndex(p.z)) <= GRID_SIZE
  }

  // ---- stratified marker sampling ----

  /** The sampling starts half a unit beyond the lower edge of the plane ... */
  const SAMPLE_START: real := -(PLANE_SCALE as real) / 2.0 - 0.5

  /** ... runs while below the upper edge ... */
  const SAMPLE_END: real := (PLANE_SCALE as real) / 2.0

  /** ... in steps of 0.75, */
  const SAMPLE_STEP: real := 0.75

  /** which gives 54 samples on each axis. */
  const SAMPLES: int := 54

  /** The k-th sample coordinate on one axis, before its jitter. */
  function SampleBase(k: int): real {
    SAMPLE_START + SAMPLE_STEP * k as real
  }

  /** The sampling loop runs for exactly the 54 sample indices 0 .. 53. */
  lemma SampleCount(k: int)
    requires 0 <= k
    ensures SampleBase(k) < SAMPLE_END <==> k < SAMPLES
  {
  }

  /** A jittered sample coordinate lies in [-20.5, 20.25) and so in a cell between 0 and 41. */
  lemma SampleInGrid(k: int, jitter: real)
    requires 0 <= k < SAMPLES && 0.0 <= jitter < 1.0
    ensures -20.5 <= SampleBase(k) + jitter < 20.25
    ensures 0 <= CellIndex(SampleBase(k) + jitter) <= 41
  {
    CellIndexInRange(SampleBase(k) + jitter);
  }

  /** Position of the n-th placed marker, given the jitter values drawn so far. */
  function SamplePosition(random: seq<real>, n: int): Vec3
    requires 0 <= n && 2 * n + 1 < |random|
  {
    Vec3(SampleBase(n / SAMPLES) + random[2 * n], 0.0, SampleBase(n % SAMPLES) + random[2 * n + 1])
  }

  class World {
    /** grid[i, j] holds the markers whose cell is (i, j). */
    const grid: array2<seq<Marker>>
    var sceneMarkers: seq<Marker>
    var sceneAgents: seq<Agent>

    /**
     * The grid is GRID_SIZE x GRID_SIZE; every marker of a cell is a scene
     * marker whose coordinates map to that cell, and every scene marker is in
     * the cell its coordinates map to.
     */
    ghost predicate GridValid()
      reads this, grid
    {
      grid.Length0 == GRID_SIZE && grid.Length1 == GRID_SIZE &&
      (forall i, j | 0 <= i < GRID_SIZE && 0 <= j < GRID_SIZE ::
         forall m | m in grid[i, j] ::
           m in sceneMarkers && CellIndex(m.position.x) == i && CellIndex(m.position.z) == j) &&
      (forall m | m in sceneMarkers ::
         0 <= CellIndex(m.position.x) < GRID_SIZE && 0 <= CellIndex(m.position.z) < GRID_SIZE &&
         m in grid[CellIndex(m.position.x), CellIndex(m.position.z)])
    }

    /** Every agent of the scene keeps its plane offset, its mesh and a unit goal direction. */
    ghost predicate AgentsValid()
      reads this, sceneAgents
    {
      forall a | a in sceneAgents :: a.Valid()
    }

    /** Every owner is the index of an agent of the scene. */
    ghost predicate OwnersInRange()
      reads this, sceneMarkers
    {
      forall m | m in sceneMarkers :: m.owner.Some? ==> m.owner.value < |sceneAgents|
    }

    /** The module-level setup: a GRID_SIZE x GRID_SIZE grid of empty cells, no markers, no agents. */
    constructor()
      ensures GridValid() && AgentsValid()
      ensures fresh(grid)
      ensures forall i, j | 0 <= i < GRID_SIZE && 0 <= j < GRID_SIZE :: grid[i, j] == []
      ensures sceneMarkers == [] && sceneAgents == []
    {
      var g := new seq<Marker>[GRID_SIZE, GRID_SIZE];
      var i := 0;
      while i < GRID_SIZE
        invariant 0 <= i <= GRID_SIZE
        invariant forall p, q | 0 <= p < i && 0 <= q < GRID_SIZE :: g[p, q] == []
      {
        var j := 0;
        while j < GRID_SIZE
          invariant 0 <= j <= GRID_SIZE
          invariant forall p, q | 0 <= p < i && 0 <= q < GRID_SIZE :: g[p, q] == []
          invariant forall q | 0 <= q < j :: g[i, q] == []
        {
          g[i, j] := [];
          j := j + 1;
        }
        i := i + 1;
      }
      grid := g;
      sceneMarkers := [];
      sceneAgents := [];
    }

    /**
     * One step of the placement loop: a new marker at pos goes to the end of
     * the cell its coordinates map to and to the end of the scene markers;
     * no other cell changes.
     */
    method PlaceMarker(pos: Vec3) returns (m: Marker)
      requires GridValid()
      requires 0 <= CellIndex(pos.x) < GRID_SIZE && 0 <= CellIndex(pos.z) < GRID_SIZE
      modifies this`sceneMarkers, grid
      ensures GridValid()
      ensures fresh(m) && m.position == pos && m.owner == None
      ensures sceneMarkers == old(sceneMarkers) + [m]
      ensures grid[CellIndex(pos.x), CellIndex(pos.z)] == old(grid[CellIndex(pos.x), CellIndex(pos.z)]) + [m]
      ensures forall i, j | 0 <= i < GRID_SIZE && 0 <= j < GRID_SIZE && (i, j) != (CellIndex(pos.x), CellIndex(pos.z)) ::
                grid[i, j] == old(grid[i, j])
    {
      m := new Marker(pos);
      var xIndex := CellIndex(pos.x);
      var yIndex := CellIndex(pos.z);
      grid[xIndex, yIndex] := grid[xIndex, yIndex] + [m];
      sceneMarkers := sceneMarkers + [m];
    }

    /**
     * One row of the stratified sampling: the markers of sample row `row`,
     * whose x coordinate is based at x, for every column in order, drawing
     * the jitter values from index `first` on. They follow the markers of the
     * earlier rows, which stay where they are.
     */
    method PlaceRow(random: seq<real>, x: real, first: int, ghost row: int, ghost start: int)
      requires GridValid()
      requires |random| == 2 * SAMPLES * SAMPLES
      requires forall k | 0 <= k < |random| :: 0.0 <= random[k] < 1.0
      requires 0 <= row < SAMPLES && x == SampleBase(row) && first == 2 * SAMPLES * row
      requires 0 <= start && |sceneMarkers| == start + SAMPLES * row
      requires forall n | 0 <= n < SAMPLES * row :: sceneMarkers[start + n].position == SamplePosition(random, n)
      modifies this`sceneMarkers, grid
      ensures GridValid()
      ensures |sceneMarkers| == start + SAMPLES * (row + 1)
      ensures sceneMarkers[..start] == old(sceneMarkers[..start])
      ensures forall n | 0 <= n < SAMPLES * (row + 1) :: sceneMarkers[start + n].position == SamplePosition(random, n)
    {
      var r := first;
      var z := SAMPLE_START;
      ghost var col := 0;
      while z < SAMPLE_END
        invariant 0 <= col <= SAMPLES && z == SampleBase(col)
        invariant r == 2 * (SAMPLES * row + col)
        invariant GridValid()
        invariant |sceneMarkers| == start + SAMPLES * row + col
        invariant sceneMarkers[..start] == old(sceneMarkers[..start])
        invariant forall n | 0 <= n < SAMPLES * row + col ::
                    sceneMarkers[start + n].position == SamplePosition(random, n)
        decreases SAMPLES - col
      {
        SampleCount(col);
        var pos := Vec3(x + random[r], 0.0, z + random[r + 1]);
        SampleInGrid(row, random[r]);
        SampleInGrid(col, random[r + 1]);
        ghost var n := SAMPLES * row + col;
        assert n / SAMPLES == row && n % SAMPLES == col;
        assert pos == SamplePosition(random, n);
        var m := PlaceMarker(pos);
        r := r + 2;
        z := z + SAMPLE_STEP;
        col := col + 1;
      }
      SampleCount(col);
    }

    /**
     * The stratified sampling of onLoad: one marker per sample point of a
     * 54 x 54 lattice with spacing 0.75 starting at (-20.5, -20.5), each
     * jittered by two draws from `random` (x first, then z). Every marker
     * lands inside the grid.
     */
    method PlaceMarkers(random: seq<real>)
      requires GridValid()
      requires |random| == 2 * SAMPLES * SAMPLES
      requires forall k | 0 <= k < |random| :: 0.0 <= random[k] < 1.0
      modifies this`sceneMarkers, grid
      ensures GridValid()
      ensures |sceneMarkers| == |old(sceneMarkers)| + SAMPLES * SAMPLES
      ensures sceneMarkers[..|old(sceneMarkers)|] == old(sceneMarkers)
      ensures forall n | 0 <= n < SAMPLES * SAMPLES ::
                sceneMarkers[|old(sceneMarkers)| + n].position == SamplePosition(random, n)
    {
      ghost var start := |sceneMarkers|;
      var r := 0;
      var x := SAMPLE_START;
      ghost var row := 0;
      assert sceneMarkers[..start] == old(sceneMarkers);
      while x < SAMPLE_END
        invariant 0 <= row <= SAMPLES && x == SampleBase(row)
        invariant r == 2 * SAMPLES * row
        invariant GridValid()
        invariant |sceneMarkers| == start + SAMPLES * row
        invariant sceneMarkers[..start] == old(sceneMarkers)
        invariant forall n | 0 <= n < SAMPLES * row ::
                    sceneMarkers[start + n].position == SamplePosition(random, n)
        decreases SAMPLES - row
      {
        SampleCount(row);
        PlaceRow(random, x, r, row, start);
        r := r + 2 * SAMPLES;
        x := x + SAMPLE_STEP;
        row := row + 1;
      }
      SampleCount(row);
    }

    /** new Agent(...) followed by sceneAgents.push, as the scene loaders do. */
    method SpawnAgent(position: Vec3, goalPos: Vec3, sqrt: real -> real) returns (a: Agent)
      requires IsSqrt(sqrt) && AgentsValid()
      modifies this`sceneAgents
      ensures AgentsValid()
      ensures fresh(a) && a.position == position && a.goalPos == goalPos && a.nearbyMarkers == []
      ensures sceneAgents == old(sceneAgents) + [a]
    {
      a := new Agent(position, goalPos, sqrt);
      sceneAgents := sceneAgents + [a];
    }

    /** clearScene empties the agent list; the markers stay. */
    method ClearScene()
      modifies this`sceneAgents
      ensures sceneAgents == [] && sceneMarkers == old(sceneMarkers)
    {
      sceneAgents := [];
    }

    /** The first loop of onUpdate: every scene marker loses its owner. */
    method ClearOwners()
      modifies sceneMarkers
      ensures forall m | m in sceneMarkers :: m.owner == None
    {
      var i := 0;
      while i < |sceneMarkers|
        invariant 0 <= i <= |sceneMarkers|
        invariant forall k | 0 <= k < i :: sceneMarkers[k].owner == None
      {
        sceneMarkers[i].ClearOwner();
        i := i + 1;
      }
    }

    /**
     * The first step of agent k's turn: setNearbyMarkers with the grid and
     * every scene agent. Agent k ends up holding exactly the markers of its
     * neighbourhood it wins, every marker has its claimed owner, and no agent
     * moves.
     */
    method Claim(k: nat, sqrt: real -> real)
      requires GridValid() && AgentsValid() && OwnersInRange()
      requires k < |sceneAgents| && Fits(sceneAgents[k].position)
      modifies sceneAgents, sceneMarkers
      ensures AgentsValid() && OwnersInRange()
      ensures forall a | a in sceneAgents :: a.Kinematics() == old(a.Kinematics())
      ensures var a := sceneAgents[k];
              var ps := old(PlanePositions(sceneAgents));
              var visited := old(Neighbourhood(Contents(grid), CellIndex(a.position.x), CellIndex(a.position.z)));
              && a.nearbyMarkers == Won(sqrt, ps, sceneAgents, visited, a)
              && (forall m | m in sceneMarkers :: m.owner == ClaimedOwner(sqrt, ps, visited, m, old(m.owner)))
      ensures var a := sceneAgents[k];
              var ps := old(PlanePositions(sceneAgents));
              var visited := old(Neighbourhood(Contents(grid), CellIndex(a.position.x), CellIndex(a.position.z)));
              forall j | 0 <= j < |sceneAgents| && sceneAgents[j] != a ::
                sceneAgents[j].nearbyMarkers ==
                  old(sceneAgents[j].nearbyMarkers) + Won(sqrt, ps, sceneAgents, visited, sceneAgents[j])
    {
      var currentAgent := sceneAgents[k];
      ghost var ps := PlanePositions(sceneAgents);
      ghost var visited := Neighbourhood(Contents(grid), CellIndex(currentAgent.position.x), CellIndex(currentAgent.position.z));
      currentAgent.SetNearbyMarkers(grid, sceneAgents, sqrt, set m | m in sceneMarkers);
      ghost var claimed := Won(sqrt, ps, sceneAgents, visited, currentAgent);
      assert currentAgent.nearbyMarkers == [] + claimed;
      assert [] + claimed == claimed;
    }

    /**
     * The rest of an agent's turn once it has claimed its markers: steer;
     * then, unless the weights sum to zero, move by direction * timestep * 5,
     * re-aim at the goal and drop the claimed markers.
     */
    static method FinishTurn(a: Agent, timestep: real, sqrt: real -> real) returns (ok: bool)
      requires IsSqrt(sqrt) && a.Valid()
      modifies a
      ensures a.Valid()
      ensures ok ==> a.nearbyMarkers == []
      ensures !ok ==> a.nearbyMarkers == old(a.nearbyMarkers)
      ensures var steer := Steer(sqrt, Positions(old(a.nearbyMarkers)), old(a.planePosition), old(a.goalDirection));
              && ok == steer.Some?
              && (ok ==> a.Kinematics() == Advance(sqrt, old(a.Kinematics()).(direction := steer.value), a.goalPos, timestep))
              && (!ok ==> a.Kinematics() == old(a.Kinematics()))
    {
      ok := a.ComputeNewDirection(sqrt);
      if !ok {
        return;
      }
      ghost var steered := a.Kinematics();
      a.Move(timestep, sqrt);
      AdvanceKeepsPlaced(sqrt, steered, a.goalPos, timestep);
      a.ClearMarkers();
    }

    /**
     * One turn of the agent loop of onUpdate for agent k, whose neighbourhood
     * fits the grid: claim the markers around it, steer, move by
     * direction * timestep * 5, re-aim at the goal and drop the claimed
     * markers. Every other agent keeps its motion, and its list grows by the
     * markers it won. The turn fails (ok is false) after claiming when the
     * steering weights sum to zero; the agent then keeps its motion and the
     * markers it claimed.
     */
    method StepAgent(k: nat, timestep: real, sqrt: real -> real) returns (ok: bool)
      requires IsSqrt(sqrt) && GridValid() && AgentsValid() && OwnersInRange()
      requires k < |sceneAgents| && Fits(sceneAgents[k].position)
      modifies sceneAgents, sceneMarkers
      ensures AgentsValid() && OwnersInRange()
      ensures forall a | a in sceneAgents && a != sceneAgents[k] :: a.Kinematics() == old(a.Kinematics())
      ensures ok ==> sceneAgents[k].nearbyMarkers == []
      ensures var a := sceneAgents[k];
              var ps := old(PlanePositions(sceneAgents));
              var visited := old(Neighbourhood(Contents(grid), CellIndex(a.position.x), CellIndex(a.position.z)));
              var steer := Steer(sqrt, Positions(Won(sqrt, ps, sceneAgents, visited, a)),
                                 old(a.planePosition), old(a.goalDirection));
              && (ok <==> steer.Some?)
              && (forall m | m in sceneMarkers :: m.owner == ClaimedOwner(sqrt, ps, visited, m, old(m.owner)))
              && (ok ==> a.Kinematics() == Advance(sqrt, old(a.Kinematics()).(direction := steer.value), a.goalPos, timestep))
      ensures var a := sceneAgents[k];
              var ps := old(PlanePositions(sceneAgents));
              var visited := old(Neighbourhood(Contents(grid), CellIndex(a.position.x), CellIndex(a.position.z)));
              forall j | 0 <= j < |sceneAgents| && sceneAgents[j] != a ::
                sceneAgents[j].nearbyMarkers ==
                  old(sceneAgents[j].nearbyMarkers) + Won(sqrt, ps, sceneAgents, visited, sceneAgents[j])
      ensures !ok ==> sceneAgents[k].Kinematics() == old(sceneAgents[k].Kinematics())
      ensures var a := sceneAgents[k];
              !ok ==> Steer(sqrt, Positions(a.nearbyMarkers), a.planePosition, a.goalDirection).None?
    {
      var currentAgent := sceneAgents[k];
      Claim(k, sqrt);
      ok := FinishTurn(currentAgent, timestep, sqrt);
    }

    /**
     * The body of onUpdate's agent loop for agent i, with its two ways to
     * fail: OffGrid, before anything changes, when the agent's neighbourhood
     * runs past the grid; NoWeight, after claiming, when the weights of its
     * markers sum to zero. Past the OffGrid check the turn has the effects
     * StepAgent states; a turn that does not fail leaves the agent with no
     * markers.
     */
    method AgentTurn(i: nat, timestep: real, sqrt: real -> real) returns (fault: Option<Fault>)
      requires IsSqrt(sqrt) && GridValid() && AgentsValid() && OwnersInRange()
      requires i < |sceneAgents|
      modifies sceneAgents, sceneMarkers
      ensures AgentsValid() && OwnersInRange()
      ensures fault.Some? ==> fault.value.agent == i
      ensures fault == Some(OffGrid(i)) <==> !old(Fits(sceneAgents[i].position))
      ensures fault == Some(OffGrid(i)) ==> !Fits(sceneAgents[i].position)
      ensures fault == Some(OffGrid(i)) ==>
                (forall a | a in sceneAgents :: a.Kinematics() == old(a.Kinematics()) && a.nearbyMarkers == old(a.nearbyMarkers)) &&
                (forall m | m in sceneMarkers :: m.owner == old(m.owner))
      ensures forall a | a in sceneAgents && a != sceneAgents[i] :: a.Kinematics() == old(a.Kinematics())
      ensures fault.None? ==> sceneAgents[i].nearbyMarkers == []
      ensures fault != Some(OffGrid(i)) ==>
                var a := sceneAgents[i];
                var ps := old(PlanePositions(sceneAgents));
                var visited := old(Neighbourhood(Contents(grid), CellIndex(a.position.x), CellIndex(a.position.z)));
                forall m | m in sceneMarkers :: m.owner == ClaimedOwner(sqrt, ps, visited, m, old(m.owner))
      ensures fault != Some(OffGrid(i)) ==>
                var a := sceneAgents[i];
                var ps := old(PlanePositions(sceneAgents));
                var visited := old(Neighbourhood(Contents(grid), CellIndex(a.position.x), CellIndex(a.position.z)));
                forall j | 0 <= j < |sceneAgents| && sceneAgents[j] != a ::
                  sceneAgents[j].nearbyMarkers ==
                    old(sceneAgents[j].nearbyMarkers) + Won(sqrt, ps, sceneAgents, visited, sceneAgents[j])
      ensures fault != Some(OffGrid(i)) ==>
                var a := sceneAgents[i];
                var ps := old(PlanePositions(sceneAgents));
                var visited := old(Neighbourhood(Contents(grid), CellIndex(a.position.x), CellIndex(a.position.z)));
                var steer := Steer(sqrt, Positions(Won(sqrt, ps, sceneAgents, visited, a)),
                                   old(a.planePosition), old(a.goalDirection));
                && (fault.None? <==> steer.Some?)
                && (fault.None? ==> a.Kinematics() == Advance(sqrt, old(a.Kinematics()).(direction := steer.value), a.goalPos, timestep))
      ensures fault == Some(NoWeight(i)) ==>
                var a := sceneAgents[i];
                a.Kinematics() == old(a.Kinematics()) &&
                Steer(sqrt, Positions(a.nearbyMarkers), a.planePosition, a.goalDirection).None?
    {
      if !Fits(sceneAgents[i].position) {
        return Some(OffGrid(i));
      }
      var ok := StepAgent(i, timestep, sqrt);
      fault := if ok then None else Some(NoWeight(i));
    }

    /**
     * One frame: clear every owner, then run each agent's turn in list order.
     * The frame stops at the first agent whose turn faults. Agents stay valid,
     * every owner names an agent of the scene, and after a complete frame the
     * last agent holds no markers; with no agents every owner stays cleared.
     */
    method OnUpdate(timestep: real, sqrt: real -> real) returns (fault: Option<Fault>)
      requires IsSqrt(sqrt) && GridValid() && AgentsValid()
      modifies sceneAgents, sceneMarkers
      ensures GridValid() && AgentsValid() && OwnersInRange()
      ensures fault.Some? ==> fault.value.agent < |sceneAgents|
      ensures fault.Some? && fault.value.OffGrid? ==> !Fits(sceneAgents[fault.value.agent].position)
      ensures fault.Some? && fault.value.NoWeight? ==>
                var a := sceneAgents[fault.value.agent];
                Steer(sqrt, Positions(a.nearbyMarkers), a.planePosition, a.goalDirection).None?
      ensures fault.None? && |sceneAgents| > 0 ==> sceneAgents[|sceneAgents| - 1].nearbyMarkers == []
      ensures |sceneAgents| == 0 ==> forall m | m in sceneMarkers :: m.owner == None
    {
      ClearOwners();
      var i := 0;
      while i < |sceneAgents|
        invariant 0 <= i <= |sceneAgents|
        invariant GridValid() && AgentsValid() && OwnersInRange()
        invariant i > 0 ==> sceneAgents[i - 1].nearbyMarkers == []
      {
        fault := AgentTurn(i, timestep, sqrt);
        if fault.Some? {
          return;
        }
        i := i + 1;
      }
      fault := None;
    }
  }
}
