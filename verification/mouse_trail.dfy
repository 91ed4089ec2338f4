/**
 * The glowing mouse trail: a buffer of recent pointer positions, appended on every
 * mouse-move (keeping the last 24) and pruned of points 260 ms old or more on every
 * animation frame. Timestamps, `performance.now()` in the browser, are modelled as whole milliseconds.
 */
module MouseTrail {
  import opened Sequences

  datatype TrailPoint = TrailPoint(x: int, y: int, t: int)

  const MaxPoints: nat := 24
  const MaxAge: int := 260

  /** Oldest first, as the points arrived. */
  predicate Chronological(s: seq<TrailPoint>) {
    forall i, j :: 0 <= i < j < |s| ==> s[i].t <= s[j].t
  }

  /** `[...prev, p].slice(-24)`. */
  function Appended(points: seq<TrailPoint>, p: TrailPoint): (r: seq<TrailPoint>)
    ensures 0 < |r| <= MaxPoints && r[|r| - 1] == p
    ensures |points| < MaxPoints ==> r == points + [p]
    ensures |points| >= MaxPoints ==> r == points[|points| + 1 - MaxPoints..] + [p]
  {
    var next := points + [p];
    if |next| <= MaxPoints then next else next[|next| - MaxPoints..]
  }

  /** With a full buffer, a move drops exactly the oldest point. */
  lemma FullBufferDropsOldest(points: seq<TrailPoint>, p: TrailPoint)
    requires |points| == MaxPoints
    ensures Appended(points, p) == points[1..] + [p]
  {
  }

  /** `prev.filter(p => now - p.t < 260)`: the fresh points, each as often as before, in arrival order. */
  function Fresh(points: seq<TrailPoint>, now: int): (r: seq<TrailPoint>)
    ensures forall i :: 0 <= i < |r| ==> now - r[i].t < MaxAge
    ensures forall p :: multiset(r)[p] == if now - p.t < MaxAge then multiset(points)[p] else 0
    ensures SubsequenceOf(r, points)
    ensures |r| <= |points|
    decreases |points|
  {
    if points == [] then []
    else
      var rest := Fresh(points[1..], now);
      assert points == [points[0]] + points[1..];
      if now - points[0].t < MaxAge then
        assert ([points[0]] + rest)[1..] == rest;
        [points[0]] + rest
      else
        rest
  }

  /** A point no newer than any of a chronological buffer can go in front of it. */
  lemma ConsChronological(p: TrailPoint, rest: seq<TrailPoint>)
    requires Chronological(rest)
    requires forall k :: 0 <= k < |rest| ==> p.t <= rest[k].t
    ensures Chronological([p] + rest)
  {
  }

  /** A tick keeps arrival order. */
  lemma {:induction false} FreshKeepsOrder(points: seq<TrailPoint>, now: int)
    requires Chronological(points)
    ensures Chronological(Fresh(points, now))
    decreases |points|
  {
    if points != [] {
      var tail := points[1..];
      assert Chronological(tail);
      FreshKeepsOrder(tail, now);
      var rest := Fresh(tail, now);
      assert forall k :: 0 <= k < |rest| ==> points[0].t <= rest[k].t by {
        assert forall q :: q in tail ==> points[0].t <= q.t;
      }
      if now - points[0].t < MaxAge {
        ConsChronological(points[0], rest);
      }
    }
  }

  /** A move keeps arrival order when the new point is no older than the buffer. */
  lemma AppendedKeepsOrder(points: seq<TrailPoint>, p: TrailPoint)
    requires Chronological(points)
    requires forall i :: 0 <= i < |points| ==> points[i].t <= p.t
    ensures Chronological(Appended(points, p))
  {
    var next := points + [p];
    assert Chronological(next);
  }

  class Trail {
    var points: seq<TrailPoint>

    predicate Valid()
      reads this
    {
      |points| <= MaxPoints
    }

    constructor()
      ensures Valid() && points == []
    {
      points := [];
    }

    /** `handleMove` at time `now`. */
    method HandleMove(x: int, y: int, now: int)
      modifies this
      ensures Valid()
      ensures points == Appended(old(points), TrailPoint(x, y, now))
      ensures old(|points|) < MaxPoints ==> points == old(points) + [TrailPoint(x, y, now)]
    {
      points := Appended(points, TrailPoint(x, y, now));
    }

    /** One animation frame at time `now`. */
    method Tick(now: int)
      modifies this
      ensures old(Valid()) ==> Valid()
      ensures |points| <= old(|points|)
      ensures points == Fresh(old(points), now)
      ensures forall i :: 0 <= i < |points| ==> now - points[i].t < MaxAge
    {
      points := Fresh(points, now);
    }
  }
}
