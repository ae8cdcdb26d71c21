/** `battery_update_proc`: the striped fill, the mini spiral and the
    percentage label of the battery gauge. */
module Battery {
  import opened CArith
  import opened Constants

  /** `bounds.size.w * charge_percent / 100`: the filled width. For a charge
      in [0, 100] it is the proportional width rounded down, within the gauge. */
  function FillWidth(w: int, charge: int): (width: int)
    ensures 0 <= w && 0 <= charge ==> 100 * width <= w * charge < 100 * width + 100
    ensures 0 <= w && 0 <= charge <= 100 ==> 0 <= width <= w
    ensures charge == 0 ==> width == 0
    ensures charge == 100 ==> width == w
  {
    Div(w * charge, 100)
  }

  /** More charge never gives a narrower fill. */
  lemma FillWidthMonotone(w: int, c1: int, c2: int)
    requires 0 <= w && 0 <= c1 <= c2
    ensures FillWidth(w, c1) <= FillWidth(w, c2)
  {
    ProductMonotone(w, c1, c2);
    var a, b := FillWidth(w, c1), FillWidth(w, c2);
    assert 100 * a < 100 * b + 100;
  }

  lemma {:induction false} ProductMonotone(w: int, c1: int, c2: int)
    requires 0 <= w && c1 <= c2
    ensures w * c1 <= w * c2
    decreases c2 - c1
  {
    if c1 < c2 {
      ProductMonotone(w, c1, c2 - 1);
      assert w * c2 == w * (c2 - 1) + w;
    }
  }

  /** The width of each fill stripe, `GRect(i, 0, 2, height)`. */
  const STRIPE_WIDTH := 2

  /** Number of stripes `for (i = 0; i < width; i += 3)` draws: width / 3
      rounded up. */
  function StripeCount(width: int): nat {
    if width > 0 then (width + 2) / 3 else 0
  }

  /** Left edges of the 2-pixel stripes, in drawing order. */
  function StripeXs(width: int): seq<int> {
    seq(StripeCount(width), k => 3 * k)
  }

  /** The stripes start at 0, 3, 6, ... and every one starts inside the fill;
      they are separated by one-pixel gaps, and together they reach the end
      of the fill, the last ending at most one pixel beyond it (exactly one
      when the width leaves remainder 1 modulo 3). */
  lemma {:induction false} StripesCoverFill(width: int)
    requires width > 0
    ensures var xs := StripeXs(width);
      |xs| > 0 && xs[0] == 0 &&
      (forall k :: 0 <= k < |xs| ==> 0 <= xs[k] < width && xs[k] % 3 == 0) &&
      (forall k :: 0 < k < |xs| ==> xs[k - 1] + STRIPE_WIDTH < xs[k]) &&
      width - 1 <= xs[|xs| - 1] + STRIPE_WIDTH <= width + 1 &&
      (xs[|xs| - 1] + STRIPE_WIDTH == width + 1 <==> width % 3 == 1)
  {
    var n := StripeCount(width);
    assert 3 * (n - 1) < width <= 3 * n;
  }

  /** The stripe loop of `battery_update_proc`: one `graphics_fill_rect` of
      width STRIPE_WIDTH at each recorded x. */
  method Stripes(width: int) returns (xs: seq<int>)
    ensures xs == StripeXs(width)
  {
    xs := [];
    var i := 0;
    while i < width
      invariant i == 3 * |xs|
      invariant forall k :: 0 <= k < |xs| ==> xs[k] == 3 * k
      invariant |xs| == 0 || 3 * (|xs| - 1) < width
      invariant width <= 0 ==> xs == []
      decreases width - i
    {
      xs := xs + [i];
      i := i + 3;
    }
  }

  /** The odd radii `for (r = 1; r <= max_radius; r += 2)` draws. */
  function SpiralRadii(maxRadius: int): seq<int> {
    seq(if maxRadius >= 1 then (maxRadius + 1) / 2 else 0, k => 2 * k + 1)
  }

  /** The mini spiral's circles are 1, 3, 5, ... and none exceeds the
      maximum radius; the largest lies within 1 of it. */
  lemma SpiralRadiiBounded(maxRadius: int)
    ensures var rs := SpiralRadii(maxRadius);
      (forall k :: 0 <= k < |rs| ==> 1 <= rs[k] <= maxRadius && rs[k] % 2 == 1) &&
      (maxRadius >= 1 ==> |rs| > 0 && maxRadius - 1 <= rs[|rs| - 1])
  {
  }

  /** The mini spiral loop: the radius of every `graphics_draw_circle` call. */
  method MiniSpiralRadii(maxRadius: int) returns (rs: seq<int>)
    ensures rs == SpiralRadii(maxRadius)
  {
    rs := [];
    var r := 1;
    while r <= maxRadius
      invariant r == 2 * |rs| + 1
      invariant forall k :: 0 <= k < |rs| ==> rs[k] == 2 * k + 1
      invariant |rs| == 0 || r - 2 <= maxRadius
      invariant maxRadius < 1 ==> rs == []
      decreases maxRadius - r
    {
      rs := rs + [r];
      r := r + 2;
    }
  }

  /** The mini spiral, drawn only above 20% charge. */
  datatype MiniSpiral = NoSpiral | Spiral(centerX: int, centerY: int, radii: seq<int>)

  /** What one run of `battery_update_proc` draws, apart from the outline:
      the fill width, the stripes' left edges, width and height, the mini
      spiral and the label text. */
  datatype Gauge = Gauge(fillWidth: int, stripes: seq<int>, stripeWidth: int, stripeHeight: int,
                         spiral: MiniSpiral, text: string)

  // ----- The percentage label -----

  function DigitChar(d: int): char
    requires 0 <= d < 10
  {
    ('0' as int + d) as char
  }

  /** The decimal digits of `n`, most significant first, without leading
      zeros: what `%d` prints for a non-negative value. */
  function Decimal(n: nat): (s: string)
    ensures |s| >= 1 && (forall k :: 0 <= k < |s| ==> '0' <= s[k] <= '9')
    ensures |s| > 1 ==> s[0] != '0'
  {
    if n < 10 then [DigitChar(n)] else Decimal(n / 10) + [DigitChar(n % 10)]
  }

  /** `%d`: an optional minus sign, then the digits. */
  function FormatInt(n: int): string {
    if n < 0 then "-" + Decimal(-n) else Decimal(n)
  }

  /** `"%d%%"`. */
  function FormatPercent(n: int): string {
    FormatInt(n) + "%"
  }

  /** The text `snprintf(buf, size, ...)` leaves before the terminating NUL:
      the formatted text cut to `size - 1` characters. */
  function Snprintf(text: string, size: nat): (buf: string)
    requires size > 0
    ensures |buf| <= size - 1 && |buf| <= |text| && buf == text[..|buf|]
    ensures |text| < size ==> buf == text
    ensures |text| >= size ==> |buf| == size - 1
  {
    if |text| < size then text else text[..size - 1]
  }

  /** The label `battery_update_proc` draws for a charge. */
  function BatteryLabel(charge: int): string {
    Snprintf(FormatPercent(charge), BATTERY_BUFFER_SIZE)
  }

  /** Reads a string of decimal digits back as a number. */
  function ParseDecimal(s: string): int
    requires forall k :: 0 <= k < |s| ==> '0' <= s[k] <= '9'
  {
    if s == [] then 0
    else 10 * ParseDecimal(s[..|s| - 1]) + (s[|s| - 1] as int - '0' as int)
  }

  /** Decimal printing loses nothing: reading the digits back gives `n`. */
  lemma {:induction false} DecimalRoundTrip(n: nat)
    ensures ParseDecimal(Decimal(n)) == n
  {
    if n >= 10 {
      DecimalRoundTrip(n / 10);
      var s := Decimal(n);
      assert s[..|s| - 1] == Decimal(n / 10);
    }
  }

  function Pow10(k: nat): nat {
    if k == 0 then 1 else 10 * Pow10(k - 1)
  }

  /** `n` prints in at most `k` digits exactly when it is below 10^k. */
  lemma {:induction false} DecimalLength(n: nat, k: nat)
    requires k >= 1
    ensures |Decimal(n)| <= k <==> n < Pow10(k)
  {
    if n >= 10 {
      if k == 1 {
        assert Pow10(1) == 10;
      } else {
        DecimalLength(n / 10, k - 1);
      }
    } else {
      PowAtLeastTen(k);
    }
  }

  lemma {:induction false} PowAtLeastTen(k: nat)
    requires k >= 1
    ensures Pow10(k) >= 10
  {
    if k > 1 {
      PowAtLeastTen(k - 1);
    }
  }

  /** Any `uint8_t` charge, so in particular every charge in [0, 100], prints
      in at most four characters plus the terminator: the 6-byte buffer never
      truncates the label, which reads back as the charge followed by '%'. */
  lemma LabelFitsBuffer(charge: int)
    requires 0 <= charge < 256
    ensures 2 <= |FormatPercent(charge)| <= 4
    ensures |FormatPercent(charge)| + 1 <= BATTERY_BUFFER_SIZE
    ensures BatteryLabel(charge) == FormatPercent(charge)
    ensures var text := BatteryLabel(charge);
      text[|text| - 1] == '%' &&
      (forall k :: 0 <= k < |text| - 1 ==> '0' <= text[k] <= '9') &&
      ParseDecimal(text[..|text| - 1]) == charge
  {
    DecimalLength(charge, 3);
    assert Pow10(3) == 1000;
    DecimalRoundTrip(charge);
    var text := BatteryLabel(charge);
    assert text[..|text| - 1] == Decimal(charge);
  }

  /** `battery_update_proc` for a gauge of the given bounds and a charge. */
  method BatteryUpdateProc(w: int, h: int, charge: int) returns (g: Gauge)
    ensures g.fillWidth == FillWidth(w, charge)
    ensures g.stripes == StripeXs(g.fillWidth) && g.stripeWidth == STRIPE_WIDTH && g.stripeHeight == h
    ensures g.spiral == (if g.fillWidth > 0 && charge > 20
      then Spiral(Div(g.fillWidth, 2), Div(h, 2), SpiralRadii(Div(h, 2) - 2))
      else NoSpiral)
    ensures g.text == BatteryLabel(charge)
  {
    var width := Div(w * charge, 100);
    var stripes: seq<int> := [];
    var spiral := NoSpiral;
    if width > 0 {
      stripes := Stripes(width);
      if charge > 20 {
        var centerX := Div(width, 2);
        var centerY := Div(h, 2);
        var maxRadius := Div(h, 2) - 2;
        var radii := MiniSpiralRadii(maxRadius);
        spiral := Spiral(centerX, centerY, radii);
      }
    }
    var text := Snprintf(FormatPercent(charge), BATTERY_BUFFER_SIZE);
    g := Gauge(width, stripes, STRIPE_WIDTH, h, spiral, text);
  }
}
