/** The simulation objects of objects.py: the bounded trail store, the agent
    with its motion, sensing and steering, agent construction, and the
    spatial grid that buckets agents by cell. */
module Objects {
  import opened Wrappers
  import opened Base

  function Min(a: int, b: int): int {
    if a < b then a else b
  }

  function Abs(a: int): int {
    if a < 0 then -a else a
  }

  // ---------------------------------------------------------------------------
  // LimitedStore: a bounded, newest-first history
  // ---------------------------------------------------------------------------

  /** Python's slice `s[:k]`: the first `k` items, where a negative `k` counts
      back from the end. The result is always a prefix of `s`. */
  function PrefixSlice<T>(s: seq<T>, k: int): (r: seq<T>)
    ensures |r| <= |s| && r == s[..|r|]
    ensures |r| == if k >= 0 then Min(k, |s|) else if |s| + k > 0 then |s| + k else 0
  {
    if k >= |s| then s
    else if k >= 0 then s[..k]
    else if |s| + k > 0 then s[..|s| + k]
    else []
  }

  /** The list that `LimitedStore.add` leaves behind when `store` holds
      `item`'s predecessors: `item` in front, the newest of the old entries
      after it, and as many of the oldest dropped as the size demands. */
  function Pushed<T>(store: seq<T>, item: T, size: int): (r: seq<T>)
    ensures size >= 0 ==> |r| == Min(size, |store| + 1)
    ensures size > 0 ==> r[0] == item && r[1..] == store[..|r| - 1]
    ensures size == 0 ==> r == []
  {
    PrefixSlice([item] + store, size)
  }

  /** The store after adding each of `items`, first to last. */
  function AddAll<T>(store: seq<T>, items: seq<T>, size: int): seq<T>
  {
    if items == [] then store
    else Pushed(AddAll(store, items[..|items| - 1], size), items[|items| - 1], size)
  }

  function Reversed<T>(s: seq<T>): (r: seq<T>)
    ensures |r| == |s|
    ensures forall i :: 0 <= i < |s| ==> r[i] == s[|s| - 1 - i]
  {
    if s == [] then [] else [s[|s| - 1]] + Reversed(s[..|s| - 1])
  }

  /** After any run of additions the store holds the newest items, newest
      first, followed by what was there before, cut to `size`. */
  lemma {:induction false} NewestFirst<T>(store: seq<T>, items: seq<T>, size: nat)
    requires |store| <= size
    ensures AddAll(store, items, size) == (Reversed(items) + store)[..Min(size, |items| + |store|)]
  {
    if items != [] {
      var init, last := items[..|items| - 1], items[|items| - 1];
      NewestFirst(store, init, size);
      var s := Reversed(init) + store;
      var m := Min(size, |init| + |store|);
      assert AddAll(store, init, size) == s[..m];
      assert AddAll(store, items, size) == Pushed(s[..m], last, size);
      assert Pushed(s[..m], last, size) == ([last] + s[..m])[..Min(size, m + 1)];
      assert Reversed(items) + store == [last] + s;
      var t := Min(size, m + 1);
      assert t == Min(size, |s| + 1) && t <= m + 1;
      assert forall i :: 0 <= i < t ==> ([last] + s[..m])[i] == ([last] + s)[i];
      assert ([last] + s[..m])[..t] == ([last] + s)[..t];
      assert |items| + |store| == |s| + 1;
    }
  }

  /** Adding "foo", "bar", "hey" keeps the two newest at size 2 and only the
      newest at size 1. */
  lemma HistoryExample()
    ensures AddAll([], ["foo", "bar", "hey"], 2) == ["hey", "bar"]
    ensures AddAll([], ["foo", "bar", "hey"], 1) == ["hey"]
  {
    NewestFirst([], ["foo", "bar", "hey"], 2);
    NewestFirst([], ["foo", "bar", "hey"], 1);
  }

  /** A list that keeps the `size` most recently added items, newest first. */
  class LimitedStore<T> {
    const size: int
    var store: seq<T>

    constructor (size: int)
      ensures this.size == size && store == []
    {
      this.size := size;
      store := [];
    }

    /** Inserts `item` at the front, then slices the list to `size`. */
    method Add(item: T)
      modifies this
      ensures store == Pushed(old(store), item, size)
    {
      store := [item] + store;
      store := PrefixSlice(store, size);
    }

    function Get(): seq<T>
      reads this
    {
      store
    }
  }

  // ---------------------------------------------------------------------------
  // The sign-gated cosine of measure_cos_theta
  // ---------------------------------------------------------------------------

  /** The number `measure_cos_theta` returns, kept exact: either the raw dot
      product (returned as is when it is not positive), or the quotient
      `dot / sqrt(normProductSq)`, which is the true cosine. */
  datatype Cosine =
    | Raw(value: int)
    | Quotient(dot: int, normProductSq: int)

  /** `r` is the real number `c` stands for: the raw value itself, or for a
      quotient the positive solution of `r * r * normProductSq == dot * dot`,
      which is `dot / sqrt(normProductSq)`. */
  ghost predicate Denotes(c: Cosine, r: real) {
    match c
    case Raw(v) => r == v as real
    case Quotient(d, p) => r > 0.0 && r * r * (p as real) == (d * d) as real
  }

  /** `measure_cos_theta(v1, v2)`: the raw dot product when it is not
      positive (no norm is computed, so a zero vector cannot cause a division
      by zero), the true cosine otherwise. */
  function MeasureCosTheta(v1: Point, v2: Point): (c: Cosine)
    ensures c.Raw? <==> Dot(v1, v2) <= 0
    ensures c.Raw? ==> c.value == Dot(v1, v2)
    ensures c.Quotient? ==> c.dot > 0 && c.normProductSq > 0
  {
    var d := Dot(v1, v2);
    if d > 0 then
      assert v1 != Origin && v2 != Origin;
      Quotient(d, NormSq(v1) * NormSq(v2))
    else
      Raw(d)
  }

  /** `cos_theta < 0.5`, decided without a square root. */
  predicate BelowHalf(c: Cosine) {
    match c
    case Raw(v) => 2 * v < 1
    case Quotient(d, p) => 4 * (d * d) < p
  }

  /** The test `BelowHalf` agrees with comparing the real number the cosine
      stands for against one half, rational or not. */
  lemma BelowHalfExact(v1: Point, v2: Point, r: real)
    requires Denotes(MeasureCosTheta(v1, v2), r)
    ensures BelowHalf(MeasureCosTheta(v1, v2)) <==> r < 0.5
  {
    var c := MeasureCosTheta(v1, v2);
    hide MeasureCosTheta;
    BelowHalfMeans(c, r);
  }

  /** `BelowHalf` on any cosine with a positive norm product. */
  lemma BelowHalfMeans(c: Cosine, r: real)
    requires c.Quotient? ==> c.normProductSq > 0
    requires Denotes(c, r)
    ensures BelowHalf(c) <==> r < 0.5
  {
    if c.Quotient? {
      var dd := c.dot * c.dot;
      HalfByRoot(r, dd as real, c.normProductSq as real);
    }
  }

  /** For positive `r` with `r * r * p == dd`, that is `r == sqrt(dd / p)`:
      `r` is below one half exactly when `4 * dd` is below `p`. */
  lemma HalfByRoot(r: real, dd: real, p: real)
    requires r > 0.0 && p > 0.0 && r * r * p == dd
    ensures r < 0.5 <==> 4.0 * dd < p
  {
    RealSquareLess(r, 0.5);
    RealMulLess(r * r, 0.25, p);
  }

  /** Multiplying by a positive real keeps a strict order, both ways. */
  lemma RealMulLess(a: real, b: real, k: real)
    requires k > 0.0
    ensures a < b <==> a * k < b * k
  {
    assert b * k - a * k == (b - a) * k;
  }

  /** On non-negative reals squaring keeps a strict order, both ways. */
  lemma RealSquareLess(a: real, b: real)
    requires a >= 0.0 && b > 0.0
    ensures a < b <==> a * a < b * b
  {
    assert b * b - a * a == (b - a) * (b + a);
    if a < b {
      RealMulLess(0.0, b - a, b + a);
    } else if a > b {
      RealMulLess(0.0, a - b, a + b);
    }
  }

  /** The cosine of a nonzero vector with itself is exactly one; for example
      for (3, 4) the dot product is 25 and the norm product is 625. */
  lemma CosineOfSelf(v: Point)
    requires v != Origin
    ensures Denotes(MeasureCosTheta(v, v), 1.0)
  {
    assert Dot(v, v) == NormSq(v);
  }

  lemma CosineExample()
    ensures MeasureCosTheta(Point(3, 4), Point(3, 4)) == Quotient(25, 625)
    ensures Denotes(MeasureCosTheta(Point(3, 4), Point(3, 4)), 1.0)
  {
  }

  /** A candidate at 45 degrees to the heading, such as offset (1, 1) from
      heading (2, 0), has the irrational cosine `1 / sqrt(2)` and passes the
      cone test. */
  lemma CosineDiagonal(r: real)
    requires Denotes(MeasureCosTheta(Point(2, 0), Point(1, 1)), r)
    ensures MeasureCosTheta(Point(2, 0), Point(1, 1)) == Quotient(2, 8)
    ensures r * r == 0.5 && r >= 0.5
    ensures !BelowHalf(MeasureCosTheta(Point(2, 0), Point(1, 1)))
  {
    BelowHalfExact(Point(2, 0), Point(1, 1), r);
  }

  /** Cauchy-Schwarz in the plane: the real number a cosine stands for never
      exceeds one. */
  lemma CosineAtMostOne(v1: Point, v2: Point, r: real)
    requires Denotes(MeasureCosTheta(v1, v2), r)
    ensures r <= 1.0
  {
    match MeasureCosTheta(v1, v2)
    case Raw(v) =>
    case Quotient(d, p) =>
      Lagrange(v1, v2);
      var w := v1.x * v2.y - v1.y * v2.x;
      assert w * w >= 0;
      assert d * d <= p;
      if r > 1.0 {
        RealSquareLess(1.0, r);
        RealMulLess(1.0, r * r, p as real);
      }
  }

  /** Lagrange's identity in the plane: the product of the squared norms
      exceeds the squared dot product by a square. */
  lemma Lagrange(v1: Point, v2: Point)
    ensures NormSq(v1) * NormSq(v2) - Dot(v1, v2) * Dot(v1, v2) ==
            (v1.x * v2.y - v1.y * v2.x) * (v1.x * v2.y - v1.y * v2.x)
  {
  }

  /** The cone test needs no square root: `cos_theta >= 0.5` holds exactly
      when the dot product is positive and four times its square reaches the
      product of the squared norms. */
  lemma ConeTest(v: Point, dp: Point)
    ensures !BelowHalf(MeasureCosTheta(v, dp)) <==>
            Dot(v, dp) > 0 && 4 * (Dot(v, dp) * Dot(v, dp)) >= NormSq(v) * NormSq(dp)
  {
    var d, p := Dot(v, dp), NormSq(v) * NormSq(dp);
    assert MeasureCosTheta(v, dp) == if d > 0 then Quotient(d, p) else Raw(d);
    hide Dot, NormSq, MeasureCosTheta;
  }

  // ---------------------------------------------------------------------------
  // Sensing: the filtered arg-min scan of Agent.sense, on coordinate values
  // ---------------------------------------------------------------------------

  /** The largest coordinate offset at which `sense` still looks at a
      candidate. */
  const SenseRange := 100

  /** Squared distance from `p` to `q`; `np.linalg.norm` is its square root,
      and the square root keeps strict order, so comparing these compares
      distances. */
  function DistSq(p: Point, q: Point): int {
    NormSq(Sub(q, p))
  }

  /** A candidate at `other` survives both `continue`s of `sense` run by an
      agent at `position` heading along `heading`: it lies within the
      bounding box, and the cosine of its direction is at least one half. */
  predicate Qualifies(position: Point, heading: Point, other: Point) {
    var dp := Sub(other, position);
    !(Abs(dp.x) > SenseRange || Abs(dp.y) > SenseRange) && !BelowHalf(MeasureCosTheta(heading, dp))
  }

  /** The index `sense` settles on among the candidate positions, scanning
      them in order and replacing its choice only on a strictly shorter
      distance; `None` when no candidate qualifies. */
  function Closest(position: Point, heading: Point, candidates: seq<Point>): (r: Option<nat>)
    ensures r.Some? ==> r.value < |candidates|
  {
    if candidates == [] then None
    else
      var k := |candidates| - 1;
      var r := Closest(position, heading, candidates[..k]);
      if Qualifies(position, heading, candidates[k]) &&
         (r.None? || DistSq(position, candidates[k]) < DistSq(position, candidates[r.value]))
      then Some(k)
      else r
  }

  /** What `Closest` picks: nothing exactly when no candidate qualifies;
      otherwise a qualifying candidate at minimum distance, and the first
      such candidate in list order. */
  lemma {:induction false} ClosestChoice(position: Point, heading: Point, candidates: seq<Point>)
    ensures Closest(position, heading, candidates).None? <==>
            forall k :: 0 <= k < |candidates| ==> !Qualifies(position, heading, candidates[k])
    ensures Closest(position, heading, candidates).Some? ==>
            var j := Closest(position, heading, candidates).value;
            && Qualifies(position, heading, candidates[j])
            && (forall k :: 0 <= k < |candidates| && Qualifies(position, heading, candidates[k]) ==>
                  DistSq(position, candidates[j]) <= DistSq(position, candidates[k]))
            && (forall k :: 0 <= k < j && Qualifies(position, heading, candidates[k]) ==>
                  DistSq(position, candidates[j]) < DistSq(position, candidates[k]))
  {
    if candidates != [] {
      var n := |candidates| - 1;
      var init := candidates[..n];
      ClosestChoice(position, heading, init);
      assert forall k :: 0 <= k < n ==> init[k] == candidates[k];
    }
  }

  /** From (0, 0) heading (0, 2), among candidates at (2, 2) and (1, 1), both
      in the cone, the nearer one at (1, 1) is chosen. */
  lemma SenseExample()
    ensures Closest(Point(0, 0), Point(0, 2), [Point(2, 2), Point(1, 1)]) == Some(1)
  {
    var o, h := Point(0, 0), Point(0, 2);
    assert Sub(Point(2, 2), o) == Point(2, 2) && Sub(Point(1, 1), o) == Point(1, 1);
    assert DistSq(o, Point(2, 2)) == 8 && DistSq(o, Point(1, 1)) == 2;
    assert Qualifies(o, h, Point(2, 2));
    assert Qualifies(o, h, Point(1, 1));
    NearerSecond(o, h, Point(2, 2), Point(1, 1));
  }

  /** With two qualifying candidates, the second is chosen exactly when it
      is strictly nearer. */
  lemma NearerSecond(position: Point, heading: Point, first: Point, second: Point)
    requires Qualifies(position, heading, first) && Qualifies(position, heading, second)
    ensures Closest(position, heading, [first, second]) ==
            if DistSq(position, second) < DistSq(position, first) then Some(1) else Some(0)
  {
    assert [first, second][..1] == [first];
    assert [first][..0] == [];
  }

  /** One step of the scan: extending the candidates by one element. */
  lemma ClosestStep(position: Point, heading: Point, candidates: seq<Point>, k: nat)
    requires k < |candidates|
    ensures var r := Closest(position, heading, candidates[..k]);
            Closest(position, heading, candidates[..k + 1]) ==
              if Qualifies(position, heading, candidates[k]) &&
                 (r.None? || DistSq(position, candidates[k]) < DistSq(position, candidates[r.value]))
              then Some(k)
              else r
  {
    assert candidates[..k + 1][..k] == candidates[..k];
  }

  /** `turn`'s blend of the current heading with the vector to the target:
      `(1 - alpha) * velocity + alpha * (target - position)`. */
  function Blend(velocity: Point, position: Point, target: Point, alpha: int): Point {
    Add(Scale(1 - alpha, velocity), Scale(alpha, Sub(target, position)))
  }

  /** The blend moves the heading `alpha` of the way towards the vector to
      the target: at 0 it keeps the heading, at 1 it is that vector. */
  lemma BlendInterpolates(velocity: Point, position: Point, target: Point, alpha: int)
    ensures Blend(velocity, position, target, alpha) ==
            Add(velocity, Scale(alpha, Sub(Sub(target, position), velocity)))
    ensures Blend(velocity, position, target, 0) == velocity
    ensures Blend(velocity, position, target, 1) == Sub(target, position)
  {
  }

  /** The velocity after `check_bounds`: each component is negated on its
      own, exactly when the position lies outside `[0, max]` on that axis. */
  function Reflect(position: Point, velocity: Point, maxX: int, maxY: int): (r: Point)
    ensures Abs(r.x) == Abs(velocity.x) && Abs(r.y) == Abs(velocity.y)
    ensures 0 <= position.x <= maxX && 0 <= position.y <= maxY ==> r == velocity
  {
    var vx := if position.x > maxX || position.x < 0 then -1 * velocity.x else velocity.x;
    var vy := if position.y > maxY || position.y < 0 then -1 * velocity.y else velocity.y;
    Point(vx, vy)
  }

  /** Since the position is not changed, reflecting twice restores the
      velocity. */
  lemma ReflectTwice(position: Point, velocity: Point, maxX: int, maxY: int)
    ensures Reflect(position, Reflect(position, velocity, maxX, maxY), maxX, maxY) == velocity
  {
  }

  // ---------------------------------------------------------------------------
  // Agent
  // ---------------------------------------------------------------------------

  /** A point agent that owns a position and a velocity vector and updates
      them in place. */
  class Agent {
    const position: Vector
    const velocity: Vector

    /** Both vectors are two-dimensional and do not share their array. */
    predicate Valid() {
      position.Valid() && velocity.Valid() && position.coordinates != velocity.coordinates
    }

    constructor (position: Vector, velocity: Vector)
      ensures this.position == position && this.velocity == velocity
    {
      this.position := position;
      this.velocity := velocity;
    }

    function Pos(): Point
      reads position.coordinates
      requires Valid()
    {
      position.Value()
    }

    function Vel(): Point
      reads velocity.coordinates
      requires Valid()
    {
      velocity.Value()
    }

    /** `move`: adds the velocity to the position array in place. */
    method Move()
      requires Valid()
      modifies position.coordinates
      ensures Pos() == Add(old(Pos()), old(Vel()))
      ensures Vel() == old(Vel())
    {
      position.coordinates[0] := position.coordinates[0] + velocity.coordinates[0];
      position.coordinates[1] := position.coordinates[1] + velocity.coordinates[1];
    }

    /** `check_bounds`: reflects, never clamps: the position is left as is. */
    method CheckBounds(maxX: int, maxY: int)
      requires Valid()
      modifies velocity.coordinates
      ensures Vel() == Reflect(Pos(), old(Vel()), maxX, maxY)
      ensures Pos() == old(Pos())
    {
      if position.X() > maxX || position.X() < 0 {
        var x := velocity.X();
        velocity.SetX(-1 * x);
      }
      if position.Y() > maxY || position.Y() < 0 {
        var y := velocity.Y();
        velocity.SetY(-1 * y);
      }
    }

    /** `_get_non_self_agents`: the given agents in order, without this one. */
    function NonSelfAgents(agents: seq<Agent>): (others: seq<Agent>)
      ensures |others| <= |agents|
      ensures forall a :: a in others ==> a in agents && a != this
      ensures forall a :: a in agents && a != this ==> a in others
      ensures multiset(others) == multiset(agents)[this := 0]
    {
      if agents == [] then []
      else if agents[0] == this then
        assert agents == [agents[0]] + agents[1..];
        NonSelfAgents(agents[1..])
      else
        assert agents == [agents[0]] + agents[1..];
        [agents[0]] + NonSelfAgents(agents[1..])
    }

    /** The filter keeps order: filtering a concatenation filters each part
        and concatenates the results, so every kept agent stays where it was
        relative to the others. */
    lemma {:induction false} NonSelfConcat(a: seq<Agent>, b: seq<Agent>)
      ensures NonSelfAgents(a + b) == NonSelfAgents(a) + NonSelfAgents(b)
    {
      if a == [] {
        assert a + b == b;
      } else {
        assert (a + b)[0] == a[0] && (a + b)[1..] == a[1..] + b;
        NonSelfConcat(a[1..], b);
      }
    }

    /** An agent listed before the first appearance of the `j`-th kept agent
        is kept at an index below `j`. */
    lemma KeptBefore(front: seq<Agent>, rest: seq<Agent>, j: nat)
      requires front != [] && front[|front| - 1] != this
      requires j < |NonSelfAgents(front + rest)| && NonSelfAgents(front + rest)[j] !in front
      ensures exists m :: 0 <= m < j && NonSelfAgents(front + rest)[m] == front[|front| - 1]
    {
      var pre, others := NonSelfAgents(front), NonSelfAgents(front + rest);
      NonSelfConcat(front, rest);
      assert others[..|pre|] == pre;
      assert front[|front| - 1] in front;
      var m :| 0 <= m < |pre| && pre[m] == front[|front| - 1];
      assert others[j] !in pre;
      assert others[m] == pre[m];
    }

    /** `sense`: the nearest other agent inside the bounding box and the
      forward cone, the first one on equal distances, or null. It changes
      no agent. */
    method Sense(agents: seq<Agent>) returns (closest: Agent?)
      requires Valid()
      requires forall a :: a in agents ==> a.Valid()
      ensures closest == null || (closest in agents && closest != this)
      ensures var others := NonSelfAgents(agents);
              match Closest(Pos(), Vel(), Positions(others))
              case None => closest == null
              case Some(k) => closest == others[k]
    {
      var others := NonSelfAgents(agents);
      ghost var candidates := Positions(others);
      ghost var best: Option<nat> := None;
      assert Closest(Pos(), Vel(), candidates[..0]) == None;
      hide NonSelfAgents, Positions, Closest;
      closest := null;
      var minDst := 0;  // the squared distance of `closest`; unused while it is null
      for k := 0 to |others|
        invariant best == Closest(Pos(), Vel(), candidates[..k])
        invariant best.None? ==> closest == null
        invariant best.Some? ==> best.value < k && closest == others[best.value] &&
                                 minDst == DistSq(Pos(), candidates[best.value])
      {
        var agent := others[k];
        assert agent in agents && agent.Valid();
        ClosestStep(Pos(), Vel(), candidates, k);
        var dp := agent.position.Minus(position);
        assert dp.Value() == Sub(candidates[k], Pos());
        if Abs(dp.X()) > SenseRange || Abs(dp.Y()) > SenseRange {
          assert !Qualifies(Pos(), Vel(), candidates[k]);
          continue;
        }
        var cosTheta := MeasureCosTheta(velocity.Value(), dp.Value());
        if BelowHalf(cosTheta) {
          assert !Qualifies(Pos(), Vel(), candidates[k]);
          continue;
        }
        assert Qualifies(Pos(), Vel(), candidates[k]);
        var dst := NormSq(dp.Value());
        assert dst == DistSq(Pos(), candidates[k]);
        if closest == null || dst < minDst {
          minDst := dst;
          closest := agent;
          best := Some(k);
        }
      }
      assert candidates[..|others|] == candidates;
    }

    /** `turn`: blends the velocity with the vector to the target and stores
        the rescaled result. The rescaling divides by the square root of a
        Euclidean norm; that arithmetic is not modelled and comes in as
        `renormalise`. Only this agent's velocity changes. */
    method Turn(targetPosition: Vector, alpha: int, renormalise: Point -> Point)
      requires Valid() && targetPosition.Valid()
      modifies velocity.coordinates
      ensures Vel() == renormalise(Blend(old(Vel()), old(Pos()), old(targetPosition.Value()), alpha))
      ensures Pos() == old(Pos())
    {
      var toTarget := Sub(targetPosition.Value(), position.Value());
      var blended := Add(Scale(1 - alpha, velocity.Value()), Scale(alpha, toTarget));
      var next := renormalise(blended);
      velocity.coordinates[0] := next.x;
      velocity.coordinates[1] := next.y;
    }
  }

  /** The positions of `agents`, in order. */
  function Positions(agents: seq<Agent>): (ps: seq<Point>)
    requires forall a :: a in agents ==> a.Valid()
    reads set a | a in agents :: a.position.coordinates
    ensures |ps| == |agents|
    ensures forall k :: 0 <= k < |agents| ==> ps[k] == agents[k].Pos()
  {
    if agents == [] then []
    else Positions(agents[..|agents| - 1]) + [agents[|agents| - 1].Pos()]
  }

  /** The velocities of `agents`, in order. */
  function Velocities(agents: seq<Agent>): (vs: seq<Point>)
    requires forall a :: a in agents ==> a.Valid()
    reads set a | a in agents :: a.velocity.coordinates
    ensures |vs| == |agents|
    ensures forall k :: 0 <= k < |agents| ==> vs[k] == agents[k].Vel()
  {
    if agents == [] then []
    else Velocities(agents[..|agents| - 1]) + [agents[|agents| - 1].Vel()]
  }

  /** No two agents share an array. */
  ghost predicate Apart(a: Agent, b: Agent) {
    && a.position.coordinates != b.position.coordinates
    && a.position.coordinates != b.velocity.coordinates
    && a.velocity.coordinates != b.position.coordinates
    && a.velocity.coordinates != b.velocity.coordinates
  }

  /** Every agent is valid and no array is shared between two of them. */
  ghost predicate AgentsDisjoint(agents: seq<Agent>) {
    && (forall a :: a in agents ==> a.Valid())
    && (forall i, j :: 0 <= i < |agents| && 0 <= j < |agents| && i != j ==> Apart(agents[i], agents[j]))
  }

  // ---------------------------------------------------------------------------
  // Agent construction
  // ---------------------------------------------------------------------------

  /** The two agent factories: one draws a fresh velocity for every agent,
      the other hands every agent the one velocity vector it was built with. */
  datatype AgentFactory = RandomVelocity | FixedVelocity(velocity: Vector)

  /** The `centre` argument of `make_n_agents`: one vector for every agent,
      or a list holding one vector per agent. */
  datatype Centre = Single(vector: Vector) | Each(vectors: seq<Vector>)

  /** The failed `assert`s of `make_n_agents`. */
  datatype ConstructionError = NonPositiveCount | CentreCountMismatch

  predicate ValidFactory(factory: AgentFactory) {
    factory.FixedVelocity? ==> factory.velocity.Valid()
  }

  predicate ValidCentre(centre: Centre) {
    match centre
    case Single(v) => v.Valid()
    case Each(vs) => forall k :: 0 <= k < |vs| ==> vs[k].Valid()
  }

  /** The centre the `i`-th agent starts from. */
  function CentreAt(centre: Centre, i: nat): Vector
    requires centre.Each? ==> i < |centre.vectors|
  {
    match centre
    case Single(v) => v
    case Each(vs) => vs[i]
  }

  /** `factory.build(position)`: a new agent whose position vector wraps the
      array of `position`. The random factory gives it a new velocity,
      `drawn`; the fixed factory gives it the factory's own velocity vector,
      shared with every other agent that factory builds. */
  method Build(factory: AgentFactory, position: Vector, drawn: Point) returns (agent: Agent)
    requires position.Valid() && ValidFactory(factory)
    requires factory.FixedVelocity? ==> factory.velocity.coordinates != position.coordinates
    ensures fresh(agent) && fresh(agent.position) && agent.Valid()
    ensures agent.position.coordinates == position.coordinates
    ensures factory.RandomVelocity? ==> fresh(agent.velocity) && fresh(agent.velocity.coordinates) && agent.Vel() == drawn
    ensures factory.FixedVelocity? ==> agent.velocity == factory.velocity
  {
    var wrapped := new Vector(position.coordinates);
    var velocity: Vector;
    if factory.RandomVelocity? {
      var v := new int[2];
      v[0], v[1] := drawn.x, drawn.y;
      velocity := new Vector(v);
    } else {
      velocity := factory.velocity;
    }
    agent := new Agent(wrapped, velocity);
  }

  /** `make_n_agents(n, centre, factory)`: `n` agents, the `i`-th built on a
      copy of the `i`-th centre's array. The random factory's `i`-th velocity
      is `draws(i)`. The two `assert`s of the source are the two errors. */
  method MakeNAgents(n: int, centre: Centre, factory: AgentFactory, draws: nat -> Point)
    returns (r: Result<seq<Agent>, ConstructionError>)
    requires ValidCentre(centre) && ValidFactory(factory)
    ensures n <= 0 ==> r == Failure(NonPositiveCount)
    ensures n > 0 && centre.Each? && |centre.vectors| != n ==> r == Failure(CentreCountMismatch)
    ensures r.Success? <==> n > 0 && (centre.Each? ==> |centre.vectors| == n)
    ensures r.Success? ==>
      var agents := r.value;
      && |agents| == n
      && (forall i :: 0 <= i < n ==>
            && fresh(agents[i]) && fresh(agents[i].position.coordinates) && agents[i].Valid()
            && agents[i].Pos() == CentreAt(centre, i).Value())
      && (forall i, j :: 0 <= i < j < n ==> agents[i] != agents[j])
      && (factory.RandomVelocity? ==>
            && AgentsDisjoint(agents)
            && forall i :: 0 <= i < n ==> fresh(agents[i].velocity.coordinates) && agents[i].Vel() == draws(i))
      && (factory.FixedVelocity? ==> forall i :: 0 <= i < n ==> agents[i].velocity == factory.velocity)
  {
    if n <= 0 {
      return Failure(NonPositiveCount);
    }
    if centre.Each? && |centre.vectors| != n {
      return Failure(CentreCountMismatch);
    }
    var agents: seq<Agent> := [];
    for i := 0 to n
      invariant |agents| == i
      invariant forall k :: 0 <= k < i ==>
                  && fresh(agents[k]) && fresh(agents[k].position.coordinates) && agents[k].Valid()
                  && agents[k].Pos() == CentreAt(centre, k).Value()
      invariant forall k, j :: 0 <= k < j < i ==> agents[k] != agents[j]
      invariant factory.RandomVelocity? ==>
                  && AgentsDisjoint(agents)
                  && forall k :: 0 <= k < i ==> fresh(agents[k].velocity.coordinates) && agents[k].Vel() == draws(k)
      invariant factory.FixedVelocity? ==> forall k :: 0 <= k < i ==> agents[k].velocity == factory.velocity
    {
      var agent := Place(factory, CentreAt(centre, i), draws(i));
      if factory.RandomVelocity? {
        DisjointAppend(agents, agent);
      }
      agents := agents + [agent];
    }
    return Success(agents);
  }

  /** One pass of the loop of `make_n_agents`: the centre's array is copied
      and the copy handed to the factory. */
  method Place(factory: AgentFactory, c: Vector, drawn: Point) returns (agent: Agent)
    requires c.Valid() && ValidFactory(factory)
    ensures fresh(agent) && fresh(agent.position.coordinates) && agent.Valid()
    ensures agent.Pos() == c.Value()
    ensures factory.RandomVelocity? ==> fresh(agent.velocity.coordinates) && agent.Vel() == drawn
    ensures factory.FixedVelocity? ==> agent.velocity == factory.velocity
  {
    var copy := new int[2];
    copy[0], copy[1] := c.coordinates[0], c.coordinates[1];
    var position := new Vector(copy);
    agent := Build(factory, position, drawn);
  }

  /** An agent sharing no array with any of `agents` can join them. */
  lemma DisjointAppend(agents: seq<Agent>, agent: Agent)
    requires AgentsDisjoint(agents) && agent.Valid()
    requires forall k :: 0 <= k < |agents| ==> Apart(agents[k], agent)
    ensures AgentsDisjoint(agents + [agent])
  {
    var all := agents + [agent];
    forall i, j | 0 <= i < |all| && 0 <= j < |all| && i != j
      ensures Apart(all[i], all[j])
    {
      if i < |agents| && j < |agents| {
        assert Apart(agents[i], agents[j]);
      }
    }
  }

  // ---------------------------------------------------------------------------
  // Two places where objects.py does not do what it evidently means to
  // ---------------------------------------------------------------------------

  /** What `build` is handed: a bare coordinate array, which is what
      `make_n_agents` passes, or a `Vector`. */
  datatype BuildInput = BareArray(bare: array<int>) | WrappedVector(vector: Vector)

  /** How `build` as written can stop: `base.Vector` asserts that it is given
      an array, and an array has no `coordinates` attribute. */
  datatype BuildError = NotAnArray | NoCoordinates

  predicate ValidInput(input: BuildInput) {
    match input
    case BareArray(a) => a.Length == 2
    case WrappedVector(v) => v.Valid()
  }

  /** `build` of the two factories as written: the random factory wraps its
      argument in a new `Vector`, the fixed factory reads the argument's
      `coordinates`. Each accepts only one of the two kinds of input. */
  method BuildAsWritten(factory: AgentFactory, input: BuildInput, drawn: Point)
    returns (r: Result<Agent, BuildError>)
    requires ValidFactory(factory) && ValidInput(input)
    ensures factory.RandomVelocity? ==> (r.Success? <==> input.BareArray?)
    ensures factory.FixedVelocity? ==> (r.Success? <==> input.WrappedVector?)
    ensures factory.RandomVelocity? && input.WrappedVector? ==> r == Failure(NotAnArray)
    ensures factory.FixedVelocity? && input.BareArray? ==> r == Failure(NoCoordinates)
    ensures r.Success? ==> fresh(r.value) && fresh(r.value.position)
    ensures r.Success? && input.BareArray? ==> r.value.position.coordinates == input.bare
  {
    match factory
    case RandomVelocity =>
      if input.WrappedVector? {
        return Failure(NotAnArray);
      }
      var position := new Vector(input.bare);
      var v := new int[2];
      v[0], v[1] := drawn.x, drawn.y;
      var velocity := new Vector(v);
      var agent := new Agent(position, velocity);
      return Success(agent);
    case FixedVelocity(velocity) =>
      if input.BareArray? {
        return Failure(NoCoordinates);
      }
      var position := new Vector(input.vector.coordinates);
      var agent := new Agent(position, velocity);
      return Success(agent);
  }

  /** One pass of the loop of `make_n_agents` as written: a bare copy of the
      centre's array goes to `build`. The random factory builds an agent at
      the centre; the fixed factory stops on its first agent. */
  method PlaceAsWritten(factory: AgentFactory, c: Vector, drawn: Point)
    returns (r: Result<Agent, BuildError>)
    requires c.Valid() && ValidFactory(factory)
    ensures factory.FixedVelocity? ==> r == Failure(NoCoordinates)
    ensures factory.RandomVelocity? ==> r.Success? && fresh(r.value.position.coordinates)
    ensures factory.RandomVelocity? ==> r.value.position.Valid() && r.value.position.Value() == c.Value()
  {
    var copy := new int[2];
    copy[0], copy[1] := c.coordinates[0], c.coordinates[1];
    r := BuildAsWritten(factory, BareArray(copy), drawn);
  }

  /** The squared length of `b` scaled by the real factor `k`. */
  function ScaledLengthSq(b: Point, k: real): real {
    (k * (b.x as real)) * (k * (b.x as real)) + (k * (b.y as real)) * (k * (b.y as real))
  }

  /** Scaling by `k` multiplies the squared length by `k * k`. */
  lemma ScaledLength(b: Point, k: real)
    ensures ScaledLengthSq(b, k) == k * k * (NormSq(b) as real)
  {
    assert NormSq(b) as real == (b.x as real) * (b.x as real) + (b.y as real) * (b.y as real);
  }

  /** The squared length of the velocity `turn` stores, as written, for a
      blend `b` of Euclidean length `len`: the blend is scaled by
      `ORIGINAL_MAGNITUDE / root`, where `root` is the square root of `len`.
      The stored length is `2 * sqrt(len)`, not the original 2. */
  function TurnLengthSqAsWritten(b: Point, len: real, root: real): (r: real)
    requires len > 0.0 && len * len == NormSq(b) as real
    requires root > 0.0 && root * root == len
    ensures r == 4.0 * len
  {
    var k := 2.0 / root;
    ScaledLength(b, k);
    assert k * root == 2.0;
    assert (k * k) * len == 4.0;
    ScaledLengthSq(b, k)
  }

  /** `test_turn` turns the velocity (0, 2) with `alpha = 0`: the blend is
      (0, 2) itself, of length 2, and `turn` as written stores a velocity of
      squared length 8 instead of keeping (0, 2). */
  lemma TurnStretchesAsWritten(position: Point, target: Point, root: real)
    requires root > 0.0 && root * root == 2.0
    ensures Blend(Point(0, 2), position, target, 0) == Point(0, 2)
    ensures TurnLengthSqAsWritten(Blend(Point(0, 2), position, target, 0), 2.0, root) == 8.0
  {
    BlendInterpolates(Point(0, 2), position, target, 0);
  }

  /** The squared length of the velocity `turn` stores when the blend `b`,
      of Euclidean length `len`, is scaled by `ORIGINAL_MAGNITUDE / len`:
      always 4, the original magnitude squared. */
  function TurnLengthSq(b: Point, len: real): (r: real)
    requires len > 0.0 && len * len == NormSq(b) as real
    ensures r == 4.0
  {
    var k := 2.0 / len;
    ScaledLength(b, k);
    assert k * len == 2.0;
    assert (k * k) * (len * len) == (k * len) * (k * len);
    ScaledLengthSq(b, k)
  }

  // ---------------------------------------------------------------------------
  // Spatial grid
  // ---------------------------------------------------------------------------

  type Cell = (int, int)

  /** `_get_cell`: the cell holding `p`, by floor division of each
      coordinate. For a positive divisor Python's `//` is Dafny's `/`. */
  function CellOf(p: Point, cellSize: int): Cell
    requires cellSize > 0
  {
    (p.x / cellSize, p.y / cellSize)
  }

  /** A cell index `k` holds coordinate `v` exactly when `v` lies in
      `[k * cellSize, (k + 1) * cellSize)`. */
  lemma {:induction false} CellBounds(v: int, cellSize: int, k: int)
    requires cellSize > 0
    ensures v / cellSize == k <==> k * cellSize <= v < (k + 1) * cellSize
  {
    var q, m := v / cellSize, v % cellSize;
    assert v == q * cellSize + m && 0 <= m < cellSize;
    if k < q {
      MulMono(k + 1, q, cellSize);
    } else if k > q {
      MulMono(q + 1, k, cellSize);
    }
  }

  lemma MulMono(a: int, b: int, k: int)
    requires a <= b && k > 0
    ensures a * k <= b * k
  {
  }

  /** The bucket of `cell`, empty where the dictionary has no entry. */
  function Bucket<T>(grid: map<Cell, seq<T>>, cell: Cell): seq<T> {
    if cell in grid then grid[cell] else []
  }

  /** `add_agent` on the dictionary: creates the bucket if absent, then
      appends. */
  function Insert<T>(grid: map<Cell, seq<T>>, cell: Cell, item: T): (r: map<Cell, seq<T>>)
    ensures r.Keys == grid.Keys + {cell}
    ensures Bucket(r, cell) == Bucket(grid, cell) + [item]
    ensures forall c :: c != cell ==> Bucket(r, c) == Bucket(grid, c)
  {
    var bucket := if cell in grid then grid[cell] else [];
    grid[cell := bucket + [item]]
  }

  /** The grid after inserting `items` in order, the `k`-th under
      `cells[k]`, into the empty grid. */
  function Filled<T>(cells: seq<Cell>, items: seq<T>): map<Cell, seq<T>>
    requires |cells| == |items|
  {
    if items == [] then map[]
    else
      var n := |items| - 1;
      Insert(Filled(cells[..n], items[..n]), cells[n], items[n])
  }

  /** Filing one more item of the list extends the grid of the shorter
      prefix by that item alone. */
  lemma FilledStep<T>(cells: seq<Cell>, items: seq<T>, i: nat)
    requires |cells| == |items| && i < |items|
    ensures Filled(cells[..i + 1], items[..i + 1]) == Insert(Filled(cells[..i], items[..i]), cells[i], items[i])
  {
    assert cells[..i + 1][..i] == cells[..i];
    assert items[..i + 1][..i] == items[..i];
  }

  /** The items listed under `cell`, in order. */
  function Filed<T>(cells: seq<Cell>, items: seq<T>, cell: Cell): (r: seq<T>)
    requires |cells| == |items|
    ensures forall x :: x in r ==> exists k :: 0 <= k < |items| && cells[k] == cell && items[k] == x
  {
    if items == [] then []
    else
      var n := |items| - 1;
      Filed(cells[..n], items[..n], cell) + (if cells[n] == cell then [items[n]] else [])
  }

  /** Filling the grid item by item leaves each bucket holding exactly the
      items of that cell, in insertion order, and no bucket for a cell that
      received nothing. */
  lemma {:induction false} FilledBuckets<T>(cells: seq<Cell>, items: seq<T>, cell: Cell)
    requires |cells| == |items|
    ensures Bucket(Filled(cells, items), cell) == Filed(cells, items, cell)
    ensures cell in Filled(cells, items) <==> cell in cells
  {
    if items != [] {
      var n := |items| - 1;
      FilledBuckets(cells[..n], items[..n], cell);
      assert cells == cells[..n] + [cells[n]];
    }
  }

  /** Two cells are within one step of each other on both axes. */
  predicate Adjacent(c: Cell, d: Cell) {
    -1 <= d.0 - c.0 <= 1 && -1 <= d.1 - c.1 <= 1
  }

  /** The nine offsets of `get_nearby_agents`, `dx` outer and `dy` inner. */
  const Offsets: seq<Cell> :=
    [(-1, -1), (-1, 0), (-1, 1), (0, -1), (0, 0), (0, 1), (1, -1), (1, 0), (1, 1)]

  /** Offset `(dx, dy)` comes after the three rows of each smaller `dx` and
      the smaller `dy` of its own row. */
  lemma OffsetAt(dx: int, dy: int)
    requires -1 <= dx <= 1 && -1 <= dy <= 1
    ensures Offsets[3 * (dx + 1) + (dy + 1)] == (dx, dy)
  {
  }

  function Shift(c: Cell, offset: Cell): Cell {
    (c.0 + offset.0, c.1 + offset.1)
  }

  /** The buckets of the cells at `offsets` from `cell`, concatenated. */
  function Gather<T>(grid: map<Cell, seq<T>>, cell: Cell, offsets: seq<Cell>): seq<T> {
    if offsets == [] then []
    else
      var n := |offsets| - 1;
      Gather(grid, cell, offsets[..n]) + Bucket(grid, Shift(cell, offsets[n]))
  }

  /** Gathering one more offset appends that cell's bucket. */
  lemma GatherStep<T>(grid: map<Cell, seq<T>>, cell: Cell, offsets: seq<Cell>, i: nat)
    requires i < |offsets|
    ensures Gather(grid, cell, offsets[..i + 1]) == Gather(grid, cell, offsets[..i]) + Bucket(grid, Shift(cell, offsets[i]))
  {
    assert offsets[..i + 1][..i] == offsets[..i];
  }

  /** `get_nearby_agents` on the dictionary. */
  function Nearby<T>(grid: map<Cell, seq<T>>, cell: Cell): seq<T> {
    Gather(grid, cell, Offsets)
  }

  lemma {:induction false} GatherMembers<T>(grid: map<Cell, seq<T>>, cell: Cell, offsets: seq<Cell>, x: T)
    ensures x in Gather(grid, cell, offsets) <==>
            exists k :: 0 <= k < |offsets| && x in Bucket(grid, Shift(cell, offsets[k]))
  {
    if offsets != [] {
      var n := |offsets| - 1;
      GatherMembers(grid, cell, offsets[..n], x);
      if x in Bucket(grid, Shift(cell, offsets[n])) {
      } else if exists k :: 0 <= k < |offsets| && x in Bucket(grid, Shift(cell, offsets[k])) {
        var k :| 0 <= k < |offsets| && x in Bucket(grid, Shift(cell, offsets[k]));
        assert offsets[..n][k] == offsets[k];
      }
    }
  }

  /** Exactly the items in the buckets of the 3x3 block around `cell` are
      returned; an item filed two or more cells away on either axis, and in
      no nearer bucket, is not. */
  lemma NearbyMembers<T>(grid: map<Cell, seq<T>>, cell: Cell, x: T)
    ensures x in Nearby(grid, cell) <==> exists d :: d in grid && Adjacent(cell, d) && x in grid[d]
  {
    GatherMembers(grid, cell, Offsets, x);
    hide Gather;
    if x in Nearby(grid, cell) {
      var k :| 0 <= k < |Offsets| && x in Bucket(grid, Shift(cell, Offsets[k]));
      var d := Shift(cell, Offsets[k]);
      assert d in grid && Adjacent(cell, d);
    }
    if exists d :: d in grid && Adjacent(cell, d) && x in grid[d] {
      var d :| d in grid && Adjacent(cell, d) && x in grid[d];
      var dx, dy := d.0 - cell.0, d.1 - cell.1;
      OffsetAt(dx, dy);
      assert Shift(cell, Offsets[3 * (dx + 1) + (dy + 1)]) == d;
    }
  }

  /** After `clear`, every query returns nothing. */
  lemma NearbyOfEmpty<T>(cell: Cell)
    ensures Nearby<T>(map[], cell) == []
  {
    GatherEmpty<T>(cell, Offsets);
  }

  lemma {:induction false} GatherEmpty<T>(cell: Cell, offsets: seq<Cell>)
    ensures Gather<T>(map[], cell, offsets) == []
  {
    if offsets != [] {
      GatherEmpty<T>(cell, offsets[..|offsets| - 1]);
    }
  }

  /** Floor division by `cellSize` moves two coordinates at most one cell
      apart when they are at most `cellSize` apart. */
  lemma {:induction false} CloseCoordinates(a: int, b: int, cellSize: int)
    requires cellSize > 0 && -cellSize <= b - a <= cellSize
    ensures -1 <= b / cellSize - a / cellSize <= 1
  {
    var qa, qb := a / cellSize, b / cellSize;
    assert a == qa * cellSize + a % cellSize && 0 <= a % cellSize < cellSize;
    assert b == qb * cellSize + b % cellSize && 0 <= b % cellSize < cellSize;
    assert (qa + 2) * cellSize == qa * cellSize + 2 * cellSize;
    assert (qb + 2) * cellSize == qb * cellSize + 2 * cellSize;
    if qb - qa >= 2 {
      MulMono(qa + 2, qb, cellSize);
    } else if qa - qb >= 2 {
      MulMono(qb + 2, qa, cellSize);
    }
  }

  /** With cells at least as wide as the sensing box, every candidate that
      the box admits lies in the 3x3 block around the sensing agent's cell. */
  lemma WideCellsCover(position: Point, other: Point, cellSize: int)
    requires cellSize >= SenseRange
    requires Abs(other.x - position.x) <= SenseRange && Abs(other.y - position.y) <= SenseRange
    ensures Adjacent(CellOf(position, cellSize), CellOf(other, cellSize))
  {
    CloseCoordinates(position.x, other.x, cellSize);
    CloseCoordinates(position.y, other.y, cellSize);
  }

  /** With the simulation's 70-wide cells the block is narrower than the
      sensing box: a candidate 100 ahead qualifies, but it is two cells away
      and the grid query does not return it. */
  lemma NarrowCellsMiss()
    ensures Qualifies(Point(69, 0), Point(2, 0), Point(169, 0))
    ensures !Adjacent(CellOf(Point(69, 0), 70), CellOf(Point(169, 0), 70))
  {
    assert Sub(Point(169, 0), Point(69, 0)) == Point(100, 0);
    assert MeasureCosTheta(Point(2, 0), Point(100, 0)) == Quotient(200, 40000);
    assert CellOf(Point(69, 0), 70) == (0, 0) && CellOf(Point(169, 0), 70) == (2, 0);
  }

  /** A grid of agents bucketed by cell. */
  class SpatialGrid {
    const cellSize: int
    const worldSize: (int, int)
    var grid: map<Cell, seq<Agent>>

    /** Starts with no buckets. */
    constructor (cellSize: int, worldSize: (int, int))
      ensures this.cellSize == cellSize && this.worldSize == worldSize
      ensures grid == map[]
    {
      this.cellSize := cellSize;
      this.worldSize := worldSize;
      grid := map[];
    }

    /** `add_agent`: appends `agent` to the bucket of its current cell. */
    method AddAgent(agent: Agent)
      requires cellSize > 0 && agent.Valid()
      modifies this
      ensures grid == Insert(old(grid), CellOf(agent.Pos(), cellSize), agent)
    {
      var cell := CellOf(agent.position.Value(), cellSize);
      if cell !in grid {
        grid := grid[cell := []];
      }
      grid := grid[cell := grid[cell] + [agent]];
    }

    /** `get_nearby_agents`: the buckets of the 3x3 block around the cell of
        `position`, concatenated; the grid is not changed. */
    method GetNearbyAgents(position: Vector) returns (neighbors: seq<Agent>)
      requires cellSize > 0 && position.Valid()
      ensures neighbors == Nearby(grid, CellOf(position.Value(), cellSize))
    {
      var cell := CellOf(position.Value(), cellSize);
      neighbors := [];
      assert Gather(grid, cell, Offsets[..0]) == [];
      hide CellOf, Gather;
      for dx := -1 to 2
        invariant neighbors == Gather(grid, cell, Offsets[..3 * (dx + 1)])
      {
        neighbors := GatherColumn(cell, dx, neighbors);
      }
      assert Offsets[..9] == Offsets;
    }

    /** The inner loop of `get_nearby_agents`: appends the buckets of the
        three cells of column `dx`. */
    method GatherColumn(cell: Cell, dx: int, acc: seq<Agent>) returns (neighbors: seq<Agent>)
      requires -1 <= dx <= 1 && acc == Gather(grid, cell, Offsets[..3 * (dx + 1)])
      ensures neighbors == Gather(grid, cell, Offsets[..3 * (dx + 1) + 3])
    {
      hide Gather;
      neighbors := acc;
      for dy := -1 to 2
        invariant neighbors == Gather(grid, cell, Offsets[..3 * (dx + 1) + (dy + 1)])
      {
        var done := 3 * (dx + 1) + (dy + 1);
        OffsetAt(dx, dy);
        GatherStep(grid, cell, Offsets, done);
        var neighborCell := (cell.0 + dx, cell.1 + dy);
        if neighborCell in grid {
          neighbors := neighbors + grid[neighborCell];
        }
      }
    }

    /** `clear`: drops every bucket. */
    method Clear()
      modifies this
      ensures grid == map[]
    {
      grid := map[];
    }
  }
}
