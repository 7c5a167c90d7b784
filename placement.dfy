/** The discrete part of src/utils/3dHelpers.js: the camera preset table, the
    slot arithmetic that lays nodes out by type, and the two bounded retry
    loops that keep a new node away from existing ones.

    Math.random is an injected stream of draws and cos/sin an injected
    oracle, so every placement is a function of its inputs. */
module Placement {
  import opened Common
  import opened NodeTypes

  /** The successive results of Math.random during one call: draw i is rand(i). */
  type Draws = nat -> real

  /** The range Math.random promises. */
  ghost predicate UnitDraws(rand: Draws) {
    forall i: nat :: 0.0 <= rand(i) < 1.0
  }

  /** (cos 2πt, sin 2πt) for a fraction t of a full turn. */
  type Circle = real -> (real, real)

  // ---------------------------------------------------------------------
  // Camera presets

  function CameraDefaultPosition(): Vec3 {
    Vec3(15.0, 15.0, 15.0)
  }

  const PresetNames: seq<string> := ["default", "top", "front", "side", "isometric", "bird", "close", "far"]

  /** The entry of the preset table for `name`, if there is one. */
  function CameraPreset(name: string): (r: Option<Vec3>)
    ensures r.Some? <==> name in PresetNames
  {
    if name == "default" then Some(Vec3(15.0, 15.0, 15.0))
    else if name == "top" then Some(Vec3(0.0, 30.0, 0.0))
    else if name == "front" then Some(Vec3(0.0, 0.0, 25.0))
    else if name == "side" then Some(Vec3(25.0, 0.0, 0.0))
    else if name == "isometric" then Some(Vec3(15.0, 15.0, 15.0))
    else if name == "bird" then Some(Vec3(0.0, 50.0, 10.0))
    else if name == "close" then Some(Vec3(8.0, 8.0, 8.0))
    else if name == "far" then Some(Vec3(30.0, 30.0, 30.0))
    else None
  }

  /** The named preset, or the default entry for a name the table lacks. */
  function PresetOrDefault(name: string): (r: Vec3)
    ensures name in PresetNames ==> Some(r) == CameraPreset(name)
    ensures name !in PresetNames ==> r == CameraDefaultPosition()
  {
    match CameraPreset(name)
    case Some(p) => p
    case None => CameraDefaultPosition()
  }

  lemma PresetTable()
    ensures |PresetNames| == 8
    ensures forall i, j :: 0 <= i < j < |PresetNames| ==> PresetNames[i] != PresetNames[j]
    ensures CameraPreset("default") == CameraPreset("isometric") == Some(CameraDefaultPosition())
    ensures CameraPreset("top") == Some(Vec3(0.0, 30.0, 0.0))
  {
  }

  // ---------------------------------------------------------------------
  // Slots by type, before jitter. typeCount is 1 + the number of nodes of
  // that type that already exist.

  /** CHILD nodes fill a grid of four columns ten units apart, row by row. */
  function ChildSlot(typeCount: int): (p: Vec3)
    requires typeCount >= 1
    ensures p.x == -15.0 || p.x == -5.0 || p.x == 5.0 || p.x == 15.0
    ensures p.y == 0.0 && p.z >= -15.0
  {
    var column := (typeCount - 1) % 4;
    var row := (typeCount - 1) / 4;
    Vec3((column * 10 - 15) as real, 0.0, (row * 10 - 15) as real)
  }

  /** Two CHILD nodes never get the same grid slot. */
  lemma ChildSlotsDistinct(j: int, k: int)
    requires 1 <= j < k
    ensures ChildSlot(j) != ChildSlot(k)
  {
    assert j - 1 == (j - 1) / 4 * 4 + (j - 1) % 4;
    assert k - 1 == (k - 1) / 4 * 4 + (k - 1) % 4;
  }

  /** A place on a ring: the angle as a fraction of a full turn, the ring's
      radius and the ring's height. */
  datatype RingSlot = RingSlot(turns: real, radius: int, height: int)

  /** PARENT nodes: six per ring; each further ring is 8 wider and 6 higher. */
  function ParentRing(typeCount: int): (s: RingSlot)
    requires typeCount >= 1
    ensures s.radius >= 12 && s.height >= 8
  {
    var ring := (typeCount - 1) / 6;
    RingSlot((typeCount - 1) as real / 6.0, 12 + 8 * ring, 8 + 6 * ring)
  }

  /** SUBPROCESS nodes: five per ring, offset by a tenth of a turn; each
      further ring is 6 wider and 4 lower. */
  function SubprocessRing(typeCount: int): (s: RingSlot)
    requires typeCount >= 1
    ensures s.radius >= 10 && s.height <= -8
  {
    var ring := (typeCount - 1) / 5;
    RingSlot((typeCount - 1) as real / 5.0 + 0.1, 10 + 6 * ring, -8 - 4 * ring)
  }

  /** Later nodes of a type never sit on an inner ring. */
  lemma RingsGrowOutward(j: int, k: int)
    requires 1 <= j <= k
    ensures ParentRing(j).radius <= ParentRing(k).radius && ParentRing(j).height <= ParentRing(k).height
    ensures SubprocessRing(j).radius <= SubprocessRing(k).radius && SubprocessRing(k).height <= SubprocessRing(j).height
  {
  }

  function OnRing(s: RingSlot, circle: Circle): Vec3 {
    var cs := circle(s.turns);
    Vec3(cs.0 * s.radius as real, s.height as real, cs.1 * s.radius as real)
  }

  function BasePosition(kind: NodeKind, typeCount: int, circle: Circle): Vec3
    requires typeCount >= 1
  {
    match kind
    case Parent => OnRing(ParentRing(typeCount), circle)
    case Child => ChildSlot(typeCount)
    case Subprocess => OnRing(SubprocessRing(typeCount), circle)
  }

  /** Before jitter the three types sit on separate levels. */
  lemma BaseLevels(kind: NodeKind, typeCount: int, circle: Circle)
    requires typeCount >= 1
    ensures kind == Parent ==> BasePosition(kind, typeCount, circle).y >= 8.0
    ensures kind == Child ==> BasePosition(kind, typeCount, circle).y == 0.0
    ensures kind == Subprocess ==> BasePosition(kind, typeCount, circle).y <= -8.0
  {
  }

  /** Draws 0, 1 and 2 move each coordinate by up to 2 either way. */
  function Jitter(p: Vec3, rand: Draws): Vec3 {
    Vec3(p.x + (rand(0) - 0.5) * 4.0, p.y + (rand(1) - 0.5) * 4.0, p.z + (rand(2) - 0.5) * 4.0)
  }

  // ---------------------------------------------------------------------
  // Keeping clear of existing nodes

  /** Squared Euclidean distance: a distance below 6 is a square below 36
      over the reals. */
  function DistanceSquared(a: Vec3, b: Vec3): real {
    (a.x - b.x) * (a.x - b.x) + (a.y - b.y) * (a.y - b.y) + (a.z - b.z) * (a.z - b.z)
  }

  predicate TooClose(a: Vec3, b: Vec3) {
    DistanceSquared(a, b) < 36.0
  }

  /** At least the minimum distance 6 from every existing position. */
  predicate Clear(p: Vec3, existing: seq<Vec3>) {
    forall i :: 0 <= i < |existing| ==> !TooClose(p, existing[i])
  }

  /** The scan over existingPositions that stops at the first one too close. */
  method IsCrowded(p: Vec3, existing: seq<Vec3>) returns (crowded: bool)
    ensures crowded <==> !Clear(p, existing)
  {
    var i := 0;
    while i < |existing|
      invariant 0 <= i <= |existing|
      invariant forall j :: 0 <= j < i ==> !TooClose(p, existing[j])
    {
      if TooClose(p, existing[i]) {
        return true;
      }
      i := i + 1;
    }
    return false;
  }

  const MaxAdjustRounds: nat := 10

  /** Adjustment `round` moves x and z by up to 4 either way, using draws
      3 + 2·round and 4 + 2·round. */
  function Nudge(p: Vec3, rand: Draws, round: nat): Vec3 {
    p.(x := p.x + (rand(3 + 2 * round) - 0.5) * 8.0, z := p.z + (rand(4 + 2 * round) - 0.5) * 8.0)
  }

  /** Where the collision-adjust loop ends when it reaches round `round` at p:
      it stops as soon as p is clear, and after ten adjustments whatever.
      A position already clear is kept, and no adjustment changes the
      height. */
  function Settle(p: Vec3, existing: seq<Vec3>, rand: Draws, round: nat): (r: Vec3)
    requires round <= MaxAdjustRounds
    ensures Clear(p, existing) ==> r == p
    ensures r.y == p.y
    decreases MaxAdjustRounds - round
  {
    if round == MaxAdjustRounds || Clear(p, existing) then p
    else Settle(Nudge(p, rand, round), existing, rand, round + 1)
  }

  /** p after every adjustment from `round` up to the tenth. */
  function Drift(p: Vec3, rand: Draws, round: nat): Vec3
    requires round <= MaxAdjustRounds
    decreases MaxAdjustRounds - round
  {
    if round == MaxAdjustRounds then p else Drift(Nudge(p, rand, round), rand, round + 1)
  }

  /** The loop ends clear of every existing node, or after all ten rounds. */
  lemma {:induction false} SettleOutcome(p: Vec3, existing: seq<Vec3>, rand: Draws, round: nat)
    requires round <= MaxAdjustRounds
    ensures Clear(Settle(p, existing, rand, round), existing) || Settle(p, existing, rand, round) == Drift(p, rand, round)
    decreases MaxAdjustRounds - round
  {
    if round < MaxAdjustRounds && !Clear(p, existing) {
      SettleOutcome(Nudge(p, rand, round), existing, rand, round + 1);
    }
  }

  /** getTypeBasedPosition for a known type. */
  function PlaceByType(kind: NodeKind, typeCount: int, existing: seq<Vec3>, circle: Circle, rand: Draws): Vec3
    requires typeCount >= 1
  {
    Settle(Jitter(BasePosition(kind, typeCount, circle), rand), existing, rand, 0)
  }

  /** getTypeBasedPosition: None is the TypeError it raises for a type
      outside the table, before any draw is taken. */
  method TypeBasedPosition(nodeType: string, typeCount: int, existing: seq<Vec3>, circle: Circle, rand: Draws)
    returns (r: Option<Vec3>)
    requires typeCount >= 1
    ensures r.None? <==> ParseKind(nodeType).None?
    ensures r.Some? ==> r.value == PlaceByType(ParseKind(nodeType).value, typeCount, existing, circle, rand)
  {
    if ParseKind(nodeType).None? {
      return None;
    }
    var kind := ParseKind(nodeType).value;
    var position := Jitter(BasePosition(kind, typeCount, circle), rand);
    ghost var start := position;
    var attempts := 0;
    while attempts < MaxAdjustRounds
      invariant attempts <= MaxAdjustRounds
      invariant Settle(position, existing, rand, attempts) == Settle(start, existing, rand, 0)
    {
      var tooClose := IsCrowded(position, existing);
      if !tooClose {
        break;
      }
      position := Nudge(position, rand, attempts);
      attempts := attempts + 1;
    }
    return Some(position);
  }

  /** Each node type keeps to its own level whatever the adjustments do:
      parents at height 6 or more, children within 2 of 0, sub-processes
      below -6. */
  lemma PlacedLevels(kind: NodeKind, typeCount: int, existing: seq<Vec3>, circle: Circle, rand: Draws)
    requires typeCount >= 1 && UnitDraws(rand)
    ensures kind == Parent ==> PlaceByType(kind, typeCount, existing, circle, rand).y >= 6.0
    ensures kind == Child ==> -2.0 <= PlaceByType(kind, typeCount, existing, circle, rand).y < 2.0
    ensures kind == Subprocess ==> PlaceByType(kind, typeCount, existing, circle, rand).y < -6.0
  {
    BaseLevels(kind, typeCount, circle);
    assert 0.0 <= rand(1) < 1.0;
  }

  // ---------------------------------------------------------------------
  // getRandomPosition

  const MaxRandomAttempts: nat := 100

  /** Attempt a draws three fresh coordinates in [-range/2, range/2). */
  function Candidate(range: real, rand: Draws, attempt: nat): Vec3 {
    Vec3((rand(3 * attempt) - 0.5) * range, (rand(3 * attempt + 1) - 0.5) * range, (rand(3 * attempt + 2) - 0.5) * range)
  }

  /** After the last attempt: a random position with up to 1 more of jitter per axis. */
  function FallbackPosition(range: real, rand: Draws): Vec3 {
    var d := 3 * MaxRandomAttempts;
    Vec3((rand(d) - 0.5) * range + (rand(d + 1) - 0.5) * 2.0,
         (rand(d + 2) - 0.5) * range + (rand(d + 3) - 0.5) * 2.0,
         (rand(d + 4) - 0.5) * range + (rand(d + 5) - 0.5) * 2.0)
  }

  /** What getRandomPosition returns when it reaches attempt `attempt`: the
      candidate of this or a later attempt, or the fallback. */
  function RandomFrom(range: real, existing: seq<Vec3>, rand: Draws, attempt: nat): (r: Vec3)
    requires attempt <= MaxRandomAttempts
    ensures r == FallbackPosition(range, rand) || exists k :: attempt <= k < MaxRandomAttempts && r == Candidate(range, rand, k)
    decreases MaxRandomAttempts - attempt
  {
    if attempt == MaxRandomAttempts then FallbackPosition(range, rand)
    else if Clear(Candidate(range, rand, attempt), existing) then Candidate(range, rand, attempt)
    else RandomFrom(range, existing, rand, attempt + 1)
  }

  method RandomPosition(range: real, existing: seq<Vec3>, rand: Draws) returns (p: Vec3)
    ensures p == RandomFrom(range, existing, rand, 0)
  {
    var attempts := 0;
    while attempts < MaxRandomAttempts
      invariant attempts <= MaxRandomAttempts
      invariant RandomFrom(range, existing, rand, attempts) == RandomFrom(range, existing, rand, 0)
    {
      var position := Candidate(range, rand, attempts);
      var crowded := IsCrowded(position, existing);
      if !crowded {
        return position;
      }
      attempts := attempts + 1;
    }
    return FallbackPosition(range, rand);
  }

  /** A position returned from inside the loop passed the distance check;
      otherwise it is the fallback. */
  lemma {:induction false} RandomOutcome(range: real, existing: seq<Vec3>, rand: Draws, attempt: nat)
    requires attempt <= MaxRandomAttempts
    ensures Clear(RandomFrom(range, existing, rand, attempt), existing)
         || RandomFrom(range, existing, rand, attempt) == FallbackPosition(range, rand)
    decreases MaxRandomAttempts - attempt
  {
    if attempt < MaxRandomAttempts && !Clear(Candidate(range, rand, attempt), existing) {
      RandomOutcome(range, existing, rand, attempt + 1);
    }
  }

  predicate InCube(p: Vec3, half: real) {
    -half <= p.x <= half && -half <= p.y <= half && -half <= p.z <= half
  }

  lemma ScaledDraw(u: real, range: real)
    requires 0.0 <= u < 1.0 && range >= 0.0
    ensures -range / 2.0 <= (u - 0.5) * range <= range / 2.0
  {
    assert (u - 0.5) * range == u * range - range / 2.0;
    assert 0.0 <= u * range <= range by {
      assert (1.0 - u) * range >= 0.0;
    }
  }

  lemma CandidateInCube(range: real, rand: Draws, attempt: nat)
    requires range >= 0.0 && UnitDraws(rand)
    ensures InCube(Candidate(range, rand, attempt), range / 2.0)
  {
    var c := Candidate(range, rand, attempt);
    assert -(range / 2.0) <= c.x <= range / 2.0 by {
      ScaledDraw(rand(3 * attempt), range);
    }
    assert -(range / 2.0) <= c.y <= range / 2.0 by {
      ScaledDraw(rand(3 * attempt + 1), range);
    }
    assert -(range / 2.0) <= c.z <= range / 2.0 by {
      ScaledDraw(rand(3 * attempt + 2), range);
    }
  }

  lemma JitteredDraw(u: real, v: real, range: real)
    requires 0.0 <= u < 1.0 && 0.0 <= v < 1.0 && range >= 0.0
    ensures -(range / 2.0 + 1.0) <= (u - 0.5) * range + (v - 0.5) * 2.0 <= range / 2.0 + 1.0
  {
    ScaledDraw(u, range);
  }

  lemma FallbackInCube(range: real, rand: Draws)
    requires range >= 0.0 && UnitDraws(rand)
    ensures InCube(FallbackPosition(range, rand), range / 2.0 + 1.0)
  {
    var d := 3 * MaxRandomAttempts;
    JitteredDraw(rand(d), rand(d + 1), range);
    JitteredDraw(rand(d + 2), rand(d + 3), range);
    JitteredDraw(rand(d + 4), rand(d + 5), range);
  }

  /** Every position getRandomPosition returns lies within range/2 + 1 of
      the origin on each axis. */
  lemma {:induction false} RandomInCube(range: real, existing: seq<Vec3>, rand: Draws, attempt: nat)
    requires attempt <= MaxRandomAttempts && range >= 0.0 && UnitDraws(rand)
    ensures InCube(RandomFrom(range, existing, rand, attempt), range / 2.0 + 1.0)
    decreases MaxRandomAttempts - attempt
  {
    if attempt == MaxRandomAttempts {
      FallbackInCube(range, rand);
    } else if Clear(Candidate(range, rand, attempt), existing) {
      CandidateInCube(range, rand, attempt);
    } else {
      RandomInCube(range, existing, rand, attempt + 1);
    }
  }
}
