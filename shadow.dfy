/** `draw_time_shadow`: the pulsing stack of black discs behind the clock. */
module Shadow {
  import opened CArith

  function Min(a: int, b: int): int { if a <= b then a else b }

  /** The radius of the outermost shadow disc for an animation percentage:
      `50 + (pulse < 50 ? pulse : 100 - pulse) / 2` with
      `pulse = (percent * 10) % 100`. For a valid percentage it is a triangle
      wave with a period of ten percentage points, between 50 and 75. */
  function ShadowRadius(percent: int): (r: int)
    ensures 0 <= percent ==> 50 <= r <= 75
    ensures 0 <= percent ==> r == 50 + 5 * Min(percent % 10, 10 - percent % 10)
    ensures 0 <= percent ==> (r == 75 <==> percent % 10 == 5)
    ensures 0 <= percent ==> (r == 50 <==> percent % 10 == 0)
  {
    var pulse := Rem(percent * 10, 100);
    PulseIsTenfold(percent);
    50 + Div(if pulse < 50 then pulse else 100 - pulse, 2)
  }

  lemma PulseIsTenfold(percent: int)
    ensures 0 <= percent ==> Rem(percent * 10, 100) == 10 * (percent % 10)
  {
    if 0 <= percent {
      var q, r := percent / 10, percent % 10;
      assert percent * 10 == 100 * q + 10 * r;
      ModUnique(percent * 10, 100, q, 10 * r);
    }
  }

  /** The shadow pattern repeats every ten percentage points. */
  lemma ShadowPeriodic(percent: int)
    requires 0 <= percent
    ensures ShadowRadius(percent + 10) == ShadowRadius(percent)
  {
    assert (percent + 10) % 10 == percent % 10;
  }

  /** Number of discs the loop `for (r = radius; r > 0; r -= 10)` draws. */
  function DiscCount(radius: int): nat {
    if radius > 0 then (radius + 9) / 10 else 0
  }

  /** The radii of the drawn discs, outermost first. */
  function DiscRadii(radius: int): seq<int> {
    seq(DiscCount(radius), k => radius - 10 * k)
  }

  /** Every disc the shadow loop draws has a strictly positive radius, the
      first is the pulsing radius itself and the innermost is at most 10. */
  lemma DiscRadiiPositive(radius: int)
    ensures forall k :: 0 <= k < |DiscRadii(radius)| ==> 0 < DiscRadii(radius)[k] <= radius
    ensures radius > 0 ==> |DiscRadii(radius)| > 0 && DiscRadii(radius)[0] == radius
    ensures radius > 0 ==> DiscRadii(radius)[|DiscRadii(radius)| - 1] <= 10
    ensures radius <= 0 ==> DiscRadii(radius) == []
  {
  }

  /** For every valid percentage the shadow is five to eight discs. */
  lemma ShadowDiscCount(percent: int)
    requires 0 <= percent
    ensures 5 <= |DiscRadii(ShadowRadius(percent))| <= 8
  {
  }

  /** The shadow loop of `draw_time_shadow`: records the radius of every
      `graphics_fill_circle` call in order. */
  method ShadowDiscs(radius: int) returns (discs: seq<int>)
    ensures discs == DiscRadii(radius)
  {
    discs := [];
    var r := radius;
    while r > 0
      invariant r == radius - 10 * |discs|
      invariant forall k :: 0 <= k < |discs| ==> discs[k] == radius - 10 * k
      invariant radius > 0 ==> r > -10
      invariant radius <= 0 ==> discs == []
      decreases r
    {
      discs := discs + [r];
      r := r - 10;
    }
  }
}
