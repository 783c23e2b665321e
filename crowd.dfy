/**
 * Markers and agents, the two objects the kernel updates in place. They refer
 * to each other (a marker appends itself to the list of the agent that claims
 * it, an agent's list holds markers), so both classes live in one module.
 * Owners are indices into the agent list given to SetOwner.
 */
module Crowd {
  import opened Wrappers
  import opened Vectors
  import opened Grid
  import opened Claiming
  import opened Steering

  /** Height of an agent's cylinder; its position sits half of it above the plane. */
  const AGENT_HEIGHT: real := 2.0

  /** position - planePosition for every agent. */
  const PLANE_OFFSET: Vec3 := Vec3(0.0, AGENT_HEIGHT / 2.0, 0.0)

  /** The fields of an agent that claiming never touches. */
  datatype Motion = Motion(
    position: Vec3, planePosition: Vec3, meshPosition: Vec3,
    goalDirection: Vec3, direction: Vec3)

  /**
   * The plane position sits AGENT_HEIGHT / 2 below the position, the mesh sits
   * at the position, and the goal direction is a unit vector or zero.
   */
  ghost predicate WellPlaced(k: Motion) {
    Sub(k.position, k.planePosition) == PLANE_OFFSET &&
    k.meshPosition == k.position &&
    LengthSq(k.goalDirection) <= 1.0
  }

  /**
   * One frame's move: position, plane position and mesh position all shift by
   * velocity = direction * timestep * 5, and the goal direction is re-aimed
   * from the new position at the goal.
   */
  function Advance(sqrt: real -> real, k: Motion, goalPos: Vec3, timestep: real): (r: Motion)
    ensures Sub(r.position, k.position) == Scale(k.direction, 5.0 * timestep)
    ensures Sub(r.planePosition, k.planePosition) == Sub(r.position, k.position)
    ensures Sub(r.meshPosition, k.meshPosition) == Sub(r.position, k.position)
    ensures r.direction == k.direction
  {
    var velocity := Scale(k.direction, timestep * 5.0);
    var position := Add(k.position, velocity);
    Motion(position, Add(k.planePosition, velocity), Add(k.meshPosition, velocity),
           Normalize(sqrt, Sub(goalPos, position)), k.direction)
  }

  /** A move keeps the plane offset and the mesh on the agent, and the new goal direction is a unit vector. */
  lemma AdvanceKeepsPlaced(sqrt: real -> real, k: Motion, goalPos: Vec3, timestep: real)
    requires IsSqrt(sqrt) && WellPlaced(k)
    ensures WellPlaced(Advance(sqrt, k, goalPos, timestep))
  {
    var r := Advance(sqrt, k, goalPos, timestep);
    NormalizeUnit(sqrt, Sub(goalPos, r.position));
  }

  // ---- views of the object graph used by the contracts ----

  function PlanePositions(agents: seq<Agent>): (ps: seq<Vec3>)
    reads agents
    ensures |ps| == |agents|
    ensures forall k | 0 <= k < |agents| :: ps[k] == agents[k].planePosition
  {
    seq(|agents|, k requires 0 <= k < |agents| reads agents => agents[k].planePosition)
  }

  function Positions(ms: seq<Marker>): (ps: seq<Vec3>)
    ensures |ps| == |ms|
    ensures forall k | 0 <= k < |ms| :: ps[k] == ms[k].position
  {
    seq(|ms|, k requires 0 <= k < |ms| => ms[k].position)
  }

  /** Distance from each agent's ground-plane position to point p. */
  function Distances(sqrt: real -> real, ps: seq<Vec3>, p: Vec3): (ds: seq<real>)
    ensures |ds| == |ps|
    ensures forall k | 0 <= k < |ps| :: ds[k] == DistanceTo(sqrt, ps[k], p)
  {
    seq(|ps|, k requires 0 <= k < |ps| => DistanceTo(sqrt, ps[k], p))
  }

  /** The agent index setOwner selects for a marker at p, given the agents' plane positions. */
  function Winner(sqrt: real -> real, ps: seq<Vec3>, p: Vec3): (w: Option<nat>)
    ensures w.Some? ==> w.value < |ps|
  {
    Nearest(Distances(sqrt, ps, p))
  }

  /** Agent a is the one of `agents` that setOwner selects for a marker at p. */
  predicate Wins(sqrt: real -> real, ps: seq<Vec3>, agents: seq<Agent>, p: Vec3, a: Agent) {
    var w := Winner(sqrt, ps, p);
    w.Some? && w.value < |agents| && agents[w.value] == a
  }

  /** The markers of `ms`, in order, that agent a wins. */
  function Won(sqrt: real -> real, ps: seq<Vec3>, agents: seq<Agent>, ms: seq<Marker>, a: Agent): seq<Marker>
    decreases |ms|
  {
    if ms == [] then []
    else
      var m := ms[|ms| - 1];
      Won(sqrt, ps, agents, ms[..|ms| - 1], a) + (if Wins(sqrt, ps, agents, m.position, a) then [m] else [])
  }

  /** The owner of m once every marker of `ms` has run setOwner, starting from `prev`. */
  function ClaimedOwner(sqrt: real -> real, ps: seq<Vec3>, ms: seq<Marker>, m: Marker, prev: Option<nat>): (o: Option<nat>)
    ensures o == prev || (o.Some? && o.value < |ps| && m in ms)
  {
    var w := Winner(sqrt, ps, m.position);
    if m in ms && w.Some? then w else prev
  }

  /** Won grows by the visited marker exactly for the agent that wins it. */
  lemma WonSnoc(sqrt: real -> real, ps: seq<Vec3>, agents: seq<Agent>, ms: seq<Marker>, m: Marker, a: Agent)
    ensures Won(sqrt, ps, agents, ms + [m], a) ==
              Won(sqrt, ps, agents, ms, a) + (if Wins(sqrt, ps, agents, m.position, a) then [m] else [])
  {
    assert (ms + [m])[..|ms|] == ms;
  }

  /**
   * Running setOwner on the same marker twice: the owner only depends on the
   * agents' positions, so the second call picks the same owner again, but the
   * winner's list gets the marker a second time.
   */
  lemma {:induction false} RepeatedClaim(sqrt: real -> real, ps: seq<Vec3>, agents: seq<Agent>, ms: seq<Marker>,
                                         m: Marker, a: Agent, prev: Option<nat>)
    ensures var once := ClaimedOwner(sqrt, ps, ms + [m], m, prev);
            ClaimedOwner(sqrt, ps, ms + [m, m], m, once) == once
    ensures Won(sqrt, ps, agents, ms + [m, m], a) ==
              Won(sqrt, ps, agents, ms, a) + (if Wins(sqrt, ps, agents, m.position, a) then [m, m] else [])
  {
    WonSnoc(sqrt, ps, agents, ms, m, a);
    WonSnoc(sqrt, ps, agents, ms + [m], m, a);
    assert ms + [m, m] == (ms + [m]) + [m];
  }

  /** The agents' lists, in agent order. */
  function Lists(agents: seq<Agent>): (ls: seq<seq<Marker>>)
    reads agents
    ensures |ls| == |agents|
    ensures forall j | 0 <= j < |agents| :: ls[j] == agents[j].nearbyMarkers
  {
    seq(|agents|, j requires 0 <= j < |agents| reads agents => agents[j].nearbyMarkers)
  }

  /** The owner of every marker of `ms`. */
  function Owners(ms: set<Marker>): (os: map<Marker, Option<nat>>)
    reads ms
    ensures os.Keys == ms
    ensures forall m | m in ms :: os[m] == m.owner
  {
    map m | m in ms :: m.owner
  }

  /**
   * Lists and owners after setOwner has run, in order, for every marker of
   * `visited`: agent j's list is `base[j]` followed by the visited markers it
   * wins, and every marker of `owners0` has the owner ClaimedOwner gives from
   * its owner `owners0[m]` before the scan.
   */
  ghost predicate Claimed(sqrt: real -> real, ps: seq<Vec3>, agents: seq<Agent>, base: seq<seq<Marker>>,
                          owners0: map<Marker, Option<nat>>,
                          visited: seq<Marker>, lists: seq<seq<Marker>>, owners: map<Marker, Option<nat>>)
  {
    |lists| == |base| == |agents| &&
    (forall j | 0 <= j < |lists| :: lists[j] == base[j] + Won(sqrt, ps, agents, visited, agents[j])) &&
    owners.Keys == owners0.Keys &&
    (forall m | m in owners0 :: owners[m] == ClaimedOwner(sqrt, ps, visited, m, owners0[m]))
  }

  /** One setOwner call extends Claimed by the marker it was called on. */
  lemma ClaimStep(sqrt: real -> real, ps: seq<Vec3>, agents: seq<Agent>, base: seq<seq<Marker>>,
                  owners0: map<Marker, Option<nat>>, visited: seq<Marker>, m: Marker,
                  lists: seq<seq<Marker>>, owners: map<Marker, Option<nat>>,
                  lists': seq<seq<Marker>>, owners': map<Marker, Option<nat>>)
    requires Claimed(sqrt, ps, agents, base, owners0, visited, lists, owners)
    requires m in owners0
    requires var w := Winner(sqrt, ps, m.position);
             && |lists'| == |lists|
             && (forall j | 0 <= j < |lists| ::
                   lists'[j] == lists[j] + (if Wins(sqrt, ps, agents, m.position, agents[j]) then [m] else []))
             && owners'.Keys == owners.Keys
             && owners'[m] == (if w.Some? then w else owners[m])
    requires forall m' | m' in owners && m' != m :: owners'[m'] == owners[m']
    ensures Claimed(sqrt, ps, agents, base, owners0, visited + [m], lists', owners')
  {
    forall j | 0 <= j < |lists'|
      ensures lists'[j] == base[j] + Won(sqrt, ps, agents, visited + [m], agents[j])
    {
      WonSnoc(sqrt, ps, agents, visited, m, agents[j]);
    }
  }

  lemma SliceSnoc<T>(before: seq<T>, ms: seq<T>, k: int)
    requires 0 <= k < |ms|
    ensures before + ms[..k + 1] == (before + ms[..k]) + [ms[k]]
  {
    assert ms[..k + 1] == ms[..k] + [ms[k]];
  }

  function Motions(agents: seq<Agent>): (ks: seq<Motion>)
    reads agents
    ensures |ks| == |agents|
    ensures forall j | 0 <= j < |agents| :: ks[j] == agents[j].Kinematics()
  {
    seq(|agents|, j requires 0 <= j < |agents| reads agents => agents[j].Kinematics())
  }

  /**
   * What setNearbyMarkers fixes when it starts: the agents' plane positions,
   * their lists after the scanning agent emptied its own, every marker's owner,
   * and the kinematics of the scanning agent and of every agent.
   */
  datatype ScanStart = ScanStart(ps: seq<Vec3>, base: seq<seq<Marker>>, owners0: map<Marker, Option<nat>>,
                                 motion: Motion, motions: seq<Motion>)

  /**
   * The state of a scan by agent `self` once setOwner has run for every marker
   * of `visited`: Claimed holds, no kinematics changed, and when `self` is not
   * one of `agents` its list is still empty.
   */
  ghost predicate Scanning(self: Agent, agents: seq<Agent>, sqrt: real -> real, st: ScanStart, visited: seq<Marker>)
    reads self, agents, st.owners0.Keys
  {
    Claimed(sqrt, st.ps, agents, st.base, st.owners0, visited, Lists(agents), Owners(st.owners0.Keys)) &&
    (self !in agents ==> self.nearbyMarkers == []) &&
    self.Kinematics() == st.motion &&
    Motions(agents) == st.motions &&
    PlanePositions(agents) == st.ps
  }

  /** Before any setOwner call, every list is its starting list and every owner its starting owner. */
  lemma ClaimedStart(sqrt: real -> real, ps: seq<Vec3>, agents: seq<Agent>, base: seq<seq<Marker>>,
                      owners0: map<Marker, Option<nat>>)
    requires |base| == |agents|
    ensures Claimed(sqrt, ps, agents, base, owners0, [], base, owners0)
  {
    forall j | 0 <= j < |base|
      ensures base[j] == base[j] + Won(sqrt, ps, agents, [], agents[j])
    {
      assert base[j] + [] == base[j];
    }
  }

  /** One setOwner call, extending the scan by the marker it was called on. */
  method ClaimOne(m: Marker, agents: seq<Agent>, sqrt: real -> real,
                  ghost self: Agent, ghost st: ScanStart, ghost visited: seq<Marker>)
    requires m in st.owners0
    requires Scanning(self, agents, sqrt, st, visited)
    modifies agents, m`owner
    ensures Scanning(self, agents, sqrt, st, visited + [m])
  {
    ghost var lists, owners := Lists(agents), Owners(st.owners0.Keys);
    m.SetOwner(agents, sqrt);
    ghost var lists', owners' := Lists(agents), Owners(st.owners0.Keys);
    ClaimStep(sqrt, st.ps, agents, st.base, st.owners0, visited, m, lists, owners, lists', owners');
  }

  /** The setOwner call on marker k of a cell, extending the scan by that marker. */
  method ClaimAt(ms: seq<Marker>, k: nat, agents: seq<Agent>, sqrt: real -> real,
                 ghost self: Agent, ghost st: ScanStart, ghost before: seq<Marker>)
    requires k < |ms| && ms[k] in st.owners0
    requires Scanning(self, agents, sqrt, st, before + ms[..k])
    modifies agents, ms[k]
    ensures Scanning(self, agents, sqrt, st, before + ms[..k + 1])
  {
    SliceSnoc(before, ms, k);
    ClaimOne(ms[k], agents, sqrt, self, st, before + ms[..k]);
  }

  /**
   * The innermost loop of setNearbyMarkers: setOwner for every marker of `ms`,
   * in order, extending the scan from the markers visited before to those
   * followed by `ms`.
   */
  method ClaimMarkers(ms: seq<Marker>, agents: seq<Agent>, sqrt: real -> real,
                      ghost self: Agent, ghost st: ScanStart, ghost before: seq<Marker>)
    requires forall m | m in ms :: m in st.owners0
    requires Scanning(self, agents, sqrt, st, before)
    modifies agents, st.owners0.Keys
    ensures Scanning(self, agents, sqrt, st, before + ms)
  {
    var k := 0;
    assert before + ms[..0] == before;
    while k < |ms|
      invariant 0 <= k <= |ms|
      invariant Scanning(self, agents, sqrt, st, before + ms[..k])
    {
      ClaimAt(ms, k, agents, sqrt, self, st, before);
      k := k + 1;
    }
    assert ms[..k] == ms;
  }

  class Marker {
    const position: Vec3
    var owner: Option<nat>

    /** new Marker(pos, color): no owner yet. */
    constructor(position: Vec3)
      ensures this.position == position && owner == None
    {
      this.position := position;
      owner := None;
    }

    method ClearOwner()
      modifies this`owner
      ensures owner == None
    {
      owner := None;
    }

    /**
     * The running minimum of setOwner: the first agent, in list order, whose
     * ground-plane position is strictly nearest to this marker among those
     * closer than the claim distance.
     */
    method ClosestAgent(agents: seq<Agent>, sqrt: real -> real) returns (closest: Option<nat>)
      ensures closest == Winner(sqrt, PlanePositions(agents), position)
    {
      ghost var ds := Distances(sqrt, PlanePositions(agents), position);
      closest := None;
      var minDist := CLAIM_DISTANCE;
      var i := 0;
      while i < |agents|
        invariant 0 <= i <= |agents|
        invariant closest == Nearest(ds[..i])
        invariant minDist == if closest.Some? then ds[closest.value] else CLAIM_DISTANCE
      {
        var currentDist := DistanceTo(sqrt, agents[i].planePosition, position);
        if currentDist < CLAIM_DISTANCE && currentDist < minDist {
          minDist := currentDist;
          closest := Some(i);
        }
        assert ds[..i + 1][..i] == ds[..i];
        i := i + 1;
      }
      assert ds[..|agents|] == ds;
    }

    /**
     * The winner of the running minimum becomes the owner and gets this marker
     * appended to its list; with no winner nothing changes.
     */
    method SetOwner(agents: seq<Agent>, sqrt: real -> real)
      modifies this`owner, agents
      ensures var w := Winner(sqrt, PlanePositions(agents), position);
              && owner == (if w.Some? then w else old(owner))
              && forall j | 0 <= j < |agents| ::
                   agents[j].nearbyMarkers ==
                     old(agents[j].nearbyMarkers)
                     + (if Wins(sqrt, PlanePositions(agents), agents, position, agents[j]) then [this] else [])
      ensures forall a | a in agents :: a.Kinematics() == old(a.Kinematics())
      ensures PlanePositions(agents) == old(PlanePositions(agents))
      ensures Motions(agents) == old(Motions(agents))
    {
      var closest := ClosestAgent(agents, sqrt);
      if closest.Some? {
        owner := closest;
        agents[closest.value].AddMarker(this);
      }
      assert PlanePositions(agents) == old(PlanePositions(agents));
      assert Motions(agents) == old(Motions(agents));
    }
  }

  class Agent {
    var position: Vec3
    var planePosition: Vec3
    var meshPosition: Vec3
    const goalPos: Vec3
    var goalDirection: Vec3
    var direction: Vec3
    var nearbyMarkers: seq<Marker>

    function Kinematics(): Motion
      reads this
    {
      Motion(position, planePosition, meshPosition, goalDirection, direction)
    }

    ghost predicate Valid()
      reads this
    {
      WellPlaced(Kinematics())
    }

    constructor(position: Vec3, goalPos: Vec3, sqrt: real -> real)
      requires IsSqrt(sqrt)
      ensures Valid()
      ensures this.position == position && this.goalPos == goalPos
      ensures planePosition == Vec3(position.x, position.y - AGENT_HEIGHT / 2.0, position.z)
      ensures goalDirection == Normalize(sqrt, Sub(goalPos, position))
      ensures direction == goalDirection && nearbyMarkers == []
    {
      this.position := position;
      planePosition := Vec3(position.x, position.y - AGENT_HEIGHT / 2.0, position.z);
      meshPosition := position;
      this.goalPos := goalPos;
      goalDirection := Normalize(sqrt, Sub(goalPos, position));
      direction := Normalize(sqrt, Sub(goalPos, position));
      nearbyMarkers := [];
      new;
      NormalizeUnit(sqrt, Sub(goalPos, position));
    }

    /**
     * Empties this agent's list, then runs setOwner for every marker of the
     * cells around the agent's own cell, row by row, with the source's lower
     * clamp of the row and column indices to 0. Every agent of `agents` ends
     * with its list extended by the visited markers it wins, and every visited
     * marker that some agent is close enough to claim is owned by its winner.
     */
    method SetNearbyMarkers(grid: array2<seq<Marker>>, agents: seq<Agent>, sqrt: real -> real,
                            ghost markers: set<Marker>)
      requires ScanHi(CellIndex(position.x)) <= grid.Length0
      requires ScanHi(CellIndex(position.z)) <= grid.Length1
      requires forall i, j | 0 <= i < grid.Length0 && 0 <= j < grid.Length1 ::
                 forall m | m in grid[i, j] :: m in markers
      modifies this`nearbyMarkers, agents, markers
      ensures Kinematics() == old(Kinematics())
      ensures forall a | a in agents :: a.Kinematics() == old(a.Kinematics())
      ensures this !in agents ==> nearbyMarkers == []
      ensures var ps := old(PlanePositions(agents));
              var visited := old(Neighbourhood(Contents(grid), CellIndex(position.x), CellIndex(position.z)));
              forall j | 0 <= j < |agents| ::
                agents[j].nearbyMarkers ==
                  (if agents[j] == this then [] else old(agents[j].nearbyMarkers))
                  + Won(sqrt, ps, agents, visited, agents[j])
      ensures var ps := old(PlanePositions(agents));
              var visited := old(Neighbourhood(Contents(grid), CellIndex(position.x), CellIndex(position.z)));
              forall m | m in markers :: m.owner == ClaimedOwner(sqrt, ps, visited, m, old(m.owner))
    {
      ghost var cells := Contents(grid);
      ghost var st0 := ScanStart(PlanePositions(agents), Lists(agents), Owners(markers),
                                 Kinematics(), Motions(agents));
      nearbyMarkers := [];
      ghost var st := st0.(base := Lists(agents));
      ghost var visited: seq<Marker> := [];

      var xIndex := CellIndex(position.x);
      var yIndex := CellIndex(position.z);
      ghost var ilo, ihi, jlo, jhi := ScanLo(xIndex), ScanHi(xIndex), ScanLo(yIndex), ScanHi(yIndex);
      ScanRange(xIndex);
      ScanRange(yIndex);
      ScanPrefixStart(cells, ilo, jlo, jhi);
      ClaimedStart(sqrt, st.ps, agents, st.base, st.owners0);
      ghost var rowsDone := ilo;

      var i := xIndex - NEIGHBORHOOD_RADIUS;
      while i < xIndex + NEIGHBORHOOD_RADIUS
        invariant rowsDone == (if i < 0 then ilo else i)
        invariant ilo <= rowsDone <= ihi
        invariant i < 0 ==> i == xIndex - NEIGHBORHOOD_RADIUS
        invariant i >= xIndex + NEIGHBORHOOD_RADIUS ==> rowsDone == ihi
        invariant visited == ScanPrefix(cells, ilo, jlo, jhi, rowsDone, jlo)
        invariant Scanning(this, agents, sqrt, st, visited)
        decreases xIndex + NEIGHBORHOOD_RADIUS - i
      {
        i, visited := ScanRow(grid, agents, sqrt, i, yIndex, st, ilo, rowsDone, visited);
        i := i + 1;
        ScanPrefixNextRow(cells, ilo, jlo, jhi, rowsDone, i);
        rowsDone := i;
      }
      ScanPrefixWhole(cells, xIndex, yIndex);
    }

    /**
     * The middle loop of setNearbyMarkers for one value of the row index i:
     * setOwner for every marker of the cells of row `row`, columns
     * ScanLo(yIndex) up to ScanHi(yIndex), in order. The source raises a
     * negative i (and j) to 0 inside this loop; the row index it ends with is
     * handed back, and it is the row that was scanned.
     */
    method ScanRow(grid: array2<seq<Marker>>, agents: seq<Agent>, sqrt: real -> real, i: int, yIndex: int,
                   ghost st: ScanStart, ghost ilo: int, ghost row: int, ghost visited: seq<Marker>)
      returns (rowIndex: int, ghost visited': seq<Marker>)
      requires 0 <= ilo <= row < grid.Length0 && (if i < 0 then row == 0 else row == i)
      requires ScanHi(yIndex) <= grid.Length1
      requires forall i, j | 0 <= i < grid.Length0 && 0 <= j < grid.Length1 ::
                 forall m | m in grid[i, j] :: m in st.owners0
      requires visited == ScanPrefix(Contents(grid), ilo, ScanLo(yIndex), ScanHi(yIndex), row, ScanLo(yIndex))
      requires Scanning(this, agents, sqrt, st, visited)
      modifies agents, st.owners0.Keys
      ensures rowIndex == row
      ensures visited' == ScanPrefix(Contents(grid), ilo, ScanLo(yIndex), ScanHi(yIndex), row, ScanHi(yIndex))
      ensures Scanning(this, agents, sqrt, st, visited')
    {
      ghost var cells := Contents(grid);
      ghost var jlo, jhi := ScanLo(yIndex), ScanHi(yIndex);
      ScanRange(yIndex);
      rowIndex := i;
      visited' := visited;
      ghost var started := false;
      ghost var colsDone := jlo;
      var j := yIndex - NEIGHBORHOOD_RADIUS;
      while j < yIndex + NEIGHBORHOOD_RADIUS
        invariant !started ==> rowIndex == i && j == yIndex - NEIGHBORHOOD_RADIUS && colsDone == jlo
        invariant started ==> rowIndex == row && jlo < j <= jhi && colsDone == j
        invariant started || j < yIndex + NEIGHBORHOOD_RADIUS
        invariant jlo <= colsDone <= jhi
        invariant visited' == ScanPrefix(cells, ilo, jlo, jhi, row, colsDone)
        invariant Scanning(this, agents, sqrt, st, visited')
        decreases yIndex + NEIGHBORHOOD_RADIUS - j
      {
        if rowIndex < 0 {
          rowIndex := 0;
        }
        if j < 0 {
          j := 0;
        }
        assert rowIndex == row && j == colsDone && j < jhi;
        var currentCell := grid[rowIndex, j];
        ghost var before := visited';
        visited' := visited' + currentCell;
        started := true;
        j := j + 1;
        ScanPrefixNextCell(cells, ilo, jlo, jhi, row, colsDone, j);
        colsDone := j;
        ClaimMarkers(currentCell, agents, sqrt, this, st, before);
      }
      assert colsDone == jhi;
    }

    /** Appends a marker to this agent's list (addMarker). */
    method AddMarker(m: Marker)
      modifies this`nearbyMarkers
      ensures nearbyMarkers == old(nearbyMarkers) + [m]
    {
      nearbyMarkers := nearbyMarkers + [m];
    }

    method ClearMarkers()
      modifies this`nearbyMarkers
      ensures nearbyMarkers == []
    {
      nearbyMarkers := [];
    }

    /**
     * The move at the end of an agent's turn in onUpdate: the velocity is a
     * copy of the direction scaled by the timestep and by 5, added to the
     * position, the plane position and the mesh position; then the goal
     * direction is recomputed from the new position and normalised.
     */
    method Move(timestep: real, sqrt: real -> real)
      modifies this`position, this`planePosition, this`meshPosition, this`goalDirection
      ensures Kinematics() == Advance(sqrt, old(Kinematics()), goalPos, timestep)
    {
      var velocity := Scale(direction, timestep);
      velocity := Scale(velocity, 5.0);
      ScaleTwice(direction, timestep, 5.0);
      assert velocity == Scale(direction, timestep * 5.0);
      position := Add(position, velocity);
      planePosition := Add(planePosition, velocity);
      meshPosition := Add(meshPosition, velocity);
      goalDirection := Normalize(sqrt, Sub(goalPos, position));
    }

    /**
     * Blends the unit displacements to the owned markers, each weighted by
     * (1 + cos θ) / (1 + distance), divides by the total weight and caps the
     * result at MAX_SPEED. The new direction is Steer of the owned markers'
     * positions; when the total weight is zero the source divides by zero,
     * and here `ok` is false and the direction is left as it was.
     */
    method ComputeNewDirection(sqrt: real -> real) returns (ok: bool)
      requires IsSqrt(sqrt)
      modifies this`direction
      ensures var r := Steer(sqrt, Positions(nearbyMarkers), planePosition, goalDirection);
              && ok == r.Some?
              && direction == (if r.Some? then r.value else old(direction))
      ensures ok ==> LengthSq(direction) <= MAX_SPEED * MAX_SPEED
    {
      ghost var targets := Positions(nearbyMarkers);
      var weightedDirection := Zero;
      var totalContribution := 0.0;
      var i := 0;
      while i < |nearbyMarkers|
        invariant 0 <= i <= |nearbyMarkers|
        invariant direction == old(direction)
        invariant weightedDirection == WeightedSum(sqrt, targets[..i], planePosition, goalDirection)
        invariant totalContribution == TotalWeight(sqrt, targets[..i], planePosition, goalDirection)
      {
        var currentMarker := nearbyMarkers[i];
        var displacement := Sub(currentMarker.position, planePosition);
        ghost var disp := displacement;
        var displacementMagnitude := Length(sqrt, displacement);
        LengthOfSquare(sqrt, displacement);
        displacement := Normalize(sqrt, displacement);
        var cosTheta := Dot(displacement, goalDirection);
        var weight := (1.0 + cosTheta) / (1.0 + displacementMagnitude);
        assert weight == Weight(sqrt, disp, goalDirection);
        SumsSnoc(sqrt, targets, planePosition, goalDirection, i);
        weightedDirection := Add(weightedDirection, Scale(displacement, weight));
        totalContribution := totalContribution + weight;
        i := i + 1;
      }
      assert targets[..i] == targets;
      if totalContribution == 0.0 {
        return false;
      }
      weightedDirection := Scale(weightedDirection, 1.0 / totalContribution);
      ghost var blended := weightedDirection;
      if Length(sqrt, weightedDirection) > MAX_SPEED {
        weightedDirection := Scale(Normalize(sqrt, weightedDirection), MAX_SPEED);
      }
      assert weightedDirection == Cap(sqrt, blended);
      direction := weightedDirection;
      ok := true;
    }
  }
}
