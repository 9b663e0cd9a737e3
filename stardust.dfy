/**
 * The stardust trail behind the star cursor: a bounded list of points.
 * A mouse move appends a fresh point and keeps the newest twenty; a periodic
 * tick dims and shrinks every point and drops the ones that have faded out.
 *
 * Opacity and scale are kept in hundredths: a fresh point has 100 of each,
 * a tick takes 8 from opacity and 5 from scale (0.08 and 0.05 in the page).
 */
module Stardust {
  import opened Sequences

  const MaxTrail: nat := 20
  const FullUnit: int := 100
  const OpacityStep: int := 8
  const ScaleStep: int := 5

  /** One trail point: client coordinates, the timestamp id, and opacity and scale in hundredths. */
  datatype TrailPoint = TrailPoint(x: real, y: real, id: int, opacity: int, scale: int)

  /** The point a mouse move adds: full opacity and scale. */
  function Fresh(x: real, y: real, id: int): TrailPoint {
    TrailPoint(x, y, id, FullUnit, FullUnit)
  }

  /** `[...prev, p].slice(-20)`: the newest twenty of the trail with p appended. */
  function Appended(trail: seq<TrailPoint>, p: TrailPoint): (r: seq<TrailPoint>)
    ensures |r| == if |trail| < MaxTrail then |trail| + 1 else MaxTrail
    ensures r == (trail + [p])[|trail| + 1 - |r|..]
    ensures r[|r| - 1] == p
  {
    var updated := trail + [p];
    if |updated| > MaxTrail then updated[|updated| - MaxTrail..] else updated
  }

  /** One tick's decay of a single point. */
  function Decay(p: TrailPoint): TrailPoint {
    p.(opacity := p.opacity - OpacityStep, scale := p.scale - ScaleStep)
  }

  /** `prev.map(...)`: every point decayed, in place. */
  function DecayAll(s: seq<TrailPoint>): (r: seq<TrailPoint>)
    ensures |r| == |s|
    ensures forall i :: 0 <= i < |s| ==> r[i] == Decay(s[i])
  {
    if s == [] then [] else [Decay(s[0])] + DecayAll(s[1..])
  }

  /** `.filter(p => p.opacity > 0)`: exactly the visible points, in their original order. */
  function DropFaded(s: seq<TrailPoint>): (r: seq<TrailPoint>)
    ensures IsSubsequence(r, s)
    ensures forall q :: q in r ==> q in s && q.opacity > 0
    ensures forall q :: q in s && q.opacity > 0 ==> q in r
  {
    if s == [] then []
    else if s[0].opacity > 0 then [s[0]] + DropFaded(s[1..])
    else DropFaded(s[1..])
  }

  /** One tick of the fade interval. */
  function Ticked(s: seq<TrailPoint>): (r: seq<TrailPoint>)
    ensures |r| <= |s|
    ensures IsSubsequence(r, DecayAll(s))
    ensures forall q :: q in r ==> q.opacity > 0
    ensures forall i :: 0 <= i < |s| && s[i].opacity > OpacityStep ==> Decay(s[i]) in r
  {
    var r := DropFaded(DecayAll(s));
    SubsequenceLength(r, DecayAll(s));
    assert forall i :: 0 <= i < |s| ==> DecayAll(s)[i] in DecayAll(s);
    r
  }

  /** k consecutive ticks with no mouse move in between. */
  function TickN(s: seq<TrailPoint>, k: nat): seq<TrailPoint>
    decreases k
  {
    if k == 0 then s else TickN(Ticked(s), k - 1)
  }

  /** Ticking works point by point: neighbours do not affect each other. */
  lemma {:induction false} TickedConcat(a: seq<TrailPoint>, b: seq<TrailPoint>)
    ensures Ticked(a + b) == Ticked(a) + Ticked(b)
  {
    DecayAllConcat(a, b);
    DropFadedConcat(DecayAll(a), DecayAll(b));
  }

  lemma DecayAllConcat(a: seq<TrailPoint>, b: seq<TrailPoint>)
    ensures DecayAll(a + b) == DecayAll(a) + DecayAll(b)
  {
  }

  lemma {:induction false} DropFadedConcat(a: seq<TrailPoint>, b: seq<TrailPoint>)
    ensures DropFaded(a + b) == DropFaded(a) + DropFaded(b)
  {
    if a == [] {
      assert a + b == b;
    } else {
      assert (a + b)[1..] == a[1..] + b;
      DropFadedConcat(a[1..], b);
    }
  }

  lemma {:induction false} TickNConcat(a: seq<TrailPoint>, b: seq<TrailPoint>, k: nat)
    ensures TickN(a + b, k) == TickN(a, k) + TickN(b, k)
    decreases k
  {
    if k > 0 {
      var ta, tb := Ticked(a), Ticked(b);
      TickedConcat(a, b);
      assert TickN(a + b, k) == TickN(ta + tb, k - 1);
      TickNConcat(ta, tb, k - 1);
      assert TickN(a, k) == TickN(ta, k - 1) && TickN(b, k) == TickN(tb, k - 1);
    }
  }

  lemma {:induction false} TickNEmpty(k: nat)
    ensures TickN([], k) == []
    decreases k
  {
    if k > 0 {
      assert Ticked([]) == [];
      TickNEmpty(k - 1);
    }
  }

  /**
   * A visible point stays in the trail, k ticks older, for exactly as long as
   * k ticks leave it some opacity.
   */
  lemma {:induction false} PointLifetime(p: TrailPoint, k: nat)
    requires p.opacity > 0
    ensures TickN([p], k) ==
      if p.opacity - OpacityStep * k > 0
      then [p.(opacity := p.opacity - OpacityStep * k, scale := p.scale - ScaleStep * k)]
      else []
    decreases k
  {
    if k > 0 {
      assert DecayAll([p]) == [Decay(p)];
      if Decay(p).opacity > 0 {
        assert Ticked([p]) == [Decay(p)];
        PointLifetime(Decay(p), k - 1);
      } else {
        assert Ticked([p]) == [];
        TickNEmpty(k - 1);
      }
    }
  }

  /** Under ticks alone, a freshly appended point is still shown after 12 ticks and gone after the 13th. */
  lemma FreshLifetime(x: real, y: real, id: int, k: nat)
    ensures |TickN([Fresh(x, y, id)], k)| == (if k <= 12 then 1 else 0)
    ensures k == 12 ==> TickN([Fresh(x, y, id)], k) == [TrailPoint(x, y, id, 4, 40)]
  {
    PointLifetime(Fresh(x, y, id), k);
  }

  /** Every point of a trail whose opacities are at most m is at most m - 8 after a tick. */
  lemma TickedOpacityBound(s: seq<TrailPoint>, m: int)
    requires forall q :: q in s ==> q.opacity <= m
    ensures forall q :: q in Ticked(s) ==> q.opacity <= m - OpacityStep
  {
    forall q | q in Ticked(s)
      ensures q.opacity <= m - OpacityStep
    {
      assert q in DecayAll(s);
      var i :| 0 <= i < |DecayAll(s)| && DecayAll(s)[i] == q;
      assert s[i] in s;
    }
  }

  lemma {:induction false} TickNOpacityBound(s: seq<TrailPoint>, m: int, k: nat)
    requires forall q :: q in s ==> q.opacity <= m
    ensures forall q :: q in TickN(s, k) ==> q.opacity <= m - OpacityStep * k
    decreases k
  {
    if k > 0 {
      TickedOpacityBound(s, m);
      TickNOpacityBound(Ticked(s), m - OpacityStep, k - 1);
    }
  }

  /** The trail invariant: at most twenty points, each visible, its scale and opacity decayed in lockstep. */
  ghost predicate ValidTrail(s: seq<TrailPoint>) {
    && |s| <= MaxTrail
    && forall q :: q in s ==>
         && 0 < q.opacity <= FullUnit
         && OpacityStep * (FullUnit - q.scale) == ScaleStep * (FullUnit - q.opacity)
  }

  /** Thirteen ticks without a mouse move empty any trail. */
  lemma TrailEmptiesAfterThirteenTicks(s: seq<TrailPoint>)
    requires ValidTrail(s)
    ensures TickN(s, 13) == []
  {
    TickNOpacityBound(s, FullUnit, 13);
    var r := TickN(s, 13);
    if r != [] {
      assert r[0] in Ticked(TickN(s, 12));
      assert false;
    }
  }

  lemma AppendedValid(s: seq<TrailPoint>, x: real, y: real, id: int)
    requires ValidTrail(s)
    ensures ValidTrail(Appended(s, Fresh(x, y, id)))
  {
    var r := Appended(s, Fresh(x, y, id));
    forall q | q in r
      ensures q in s || q == Fresh(x, y, id)
    {
      var i :| 0 <= i < |r| && r[i] == q;
      assert q == (s + [Fresh(x, y, id)])[|s| + 1 - |r| + i];
    }
  }

  lemma TickedValid(s: seq<TrailPoint>)
    requires ValidTrail(s)
    ensures ValidTrail(Ticked(s))
  {
    forall q | q in Ticked(s)
      ensures 0 < q.opacity <= FullUnit
      ensures OpacityStep * (FullUnit - q.scale) == ScaleStep * (FullUnit - q.opacity)
    {
      assert q in DecayAll(s);
      var i :| 0 <= i < |DecayAll(s)| && DecayAll(s)[i] == q;
      assert s[i] in s;
    }
  }

  /** The star cursor's state: the pointer, whether the cursor is shown, and the trail. */
  class StarCursor {
    var mouseX: real
    var mouseY: real
    var isVisible: bool
    var trail: seq<TrailPoint>

    ghost predicate Valid()
      reads this
    {
      ValidTrail(trail)
    }

    constructor ()
      ensures Valid()
      ensures mouseX == 0.0 && mouseY == 0.0 && !isVisible && trail == []
    {
      mouseX, mouseY := 0.0, 0.0;
      isVisible := false;
      trail := [];
    }

    /** handleMouseMove: follow the pointer, show the cursor, append a fresh point. */
    method MouseMove(clientX: real, clientY: real, now: int)
      requires Valid()
      modifies this
      ensures Valid()
      ensures mouseX == clientX && mouseY == clientY && isVisible
      ensures trail == Appended(old(trail), Fresh(clientX, clientY, now))
    {
      AppendedValid(trail, clientX, clientY, now);
      mouseX, mouseY := clientX, clientY;
      isVisible := true;
      trail := Appended(trail, Fresh(clientX, clientY, now));
    }

    /** The pointer left the document: hide the cursor. */
    method MouseLeave()
      requires Valid()
      modifies this
      ensures Valid()
      ensures !isVisible && mouseX == old(mouseX) && mouseY == old(mouseY) && trail == old(trail)
    {
      isVisible := false;
    }

    /** The pointer entered the document: show the cursor. */
    method MouseEnter()
      requires Valid()
      modifies this
      ensures Valid()
      ensures isVisible && mouseX == old(mouseX) && mouseY == old(mouseY) && trail == old(trail)
    {
      isVisible := true;
    }

    /** The fade interval's body: decay every point and drop the faded ones. */
    method FadeTick()
      requires Valid()
      modifies this
      ensures Valid()
      ensures trail == Ticked(old(trail))
      ensures mouseX == old(mouseX) && mouseY == old(mouseY) && isVisible == old(isVisible)
    {
      TickedValid(trail);
      trail := Ticked(trail);
    }
  }
}
