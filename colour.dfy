/**
 * The colour arithmetic of the scroll-driven scene: 24-bit 0xRRGGBB colours
 * split into channels with JavaScript's 32-bit shift and mask operators,
 * interpolated per channel with Math.round, and packed again.
 *
 * JavaScript's bitwise operators first convert their operands to 32-bit
 * two's-complement integers (ToInt32). The model writes that conversion out,
 * so the functions below agree with the source for every integer input and
 * every real interpolation fraction, not only for in-range ones.
 */
module Colour {

  const TwoTo31: int := 0x8000_0000
  const TwoTo32: int := 0x1_0000_0000
  /** One past the largest 24-bit colour. */
  const TwoTo24: int := 0x100_0000

  /** A colour that fits the 0xRRGGBB format. */
  predicate IsColour24(c: int) {
    0 <= c < TwoTo24
  }

  function Pow2(k: nat): (p: nat)
    ensures p >= 1
  {
    if k == 0 then 1 else 2 * Pow2(k - 1)
  }

  /** ToInt32 of an integer-valued number: the int32 congruent to x modulo 2^32. */
  function ToInt32(x: int): (r: int)
    ensures -TwoTo31 <= r < TwoTo31
    ensures (x - r) % TwoTo32 == 0
  {
    var u := x % TwoTo32;
    if u < TwoTo31 then u else u - TwoTo32
  }

  /** Bitwise or of two non-negative bit patterns, bit by bit from the low end. */
  function BitOr(a: nat, b: nat): (r: nat)
    ensures r <= a + b
    decreases a + b
  {
    if a == 0 then b
    else if b == 0 then a
    else 2 * BitOr(a / 2, b / 2) + (if a % 2 == 1 || b % 2 == 1 then 1 else 0)
  }

  /** JavaScript `x | y`. */
  function Or32(x: int, y: int): (r: int)
    ensures -TwoTo31 <= r < TwoTo31
    ensures (r - BitOr(x % TwoTo32, y % TwoTo32)) % TwoTo32 == 0
  {
    ToInt32(BitOr(x % TwoTo32, y % TwoTo32))
  }

  /** JavaScript `x << k` for a shift count below 32. */
  function Shl32(x: int, k: nat): (r: int)
    requires k < 32
    ensures -TwoTo31 <= r < TwoTo31
    ensures (r - x * Pow2(k)) % TwoTo32 == 0
  {
    ToInt32(x * Pow2(k))
  }

  /** JavaScript `(c >> 16) & 0xff`. */
  function Red(c: int): (v: int)
    ensures 0 <= v <= 255
  {
    ((c % TwoTo32) / 0x1_0000) % 256
  }

  /** JavaScript `(c >> 8) & 0xff`. */
  function Green(c: int): (v: int)
    ensures 0 <= v <= 255
  {
    ((c % TwoTo32) / 0x100) % 256
  }

  /** JavaScript `c & 0xff`. */
  function Blue(c: int): (v: int)
    ensures 0 <= v <= 255
  {
    (c % TwoTo32) % 256
  }

  /** JavaScript `(r << 16) | (g << 8) | b`. */
  function Pack(r: int, g: int, b: int): (c: int)
    ensures -TwoTo31 <= c < TwoTo31
  {
    Or32(Or32(Shl32(r, 16), Shl32(g, 8)), b)
  }

  /** Math.round: the nearest integer, halves rounding up. */
  function Round(x: real): (n: int)
    ensures n as real - 0.5 <= x < n as real + 0.5
  {
    (x + 0.5).Floor
  }

  /** One channel of lerpColor: Math.round(a + (b - a) * t). */
  function LerpChannel(a: int, b: int, t: real): (c: int)
    ensures c as real - 0.5 <= a as real + (b - a) as real * t < c as real + 0.5
  {
    Round(a as real + (b - a) as real * t)
  }

  /** lerpColor(c1, c2, t): interpolate each channel, then repack. Nothing is clamped. */
  function LerpColor(c1: int, c2: int, t: real): (c: int)
    ensures -TwoTo31 <= c < TwoTo31
  {
    Pack(LerpChannel(Red(c1), Red(c2), t),
         LerpChannel(Green(c1), Green(c2), t),
         LerpChannel(Blue(c1), Blue(c2), t))
  }

  lemma Pow2Shifts()
    ensures Pow2(8) == 0x100 && Pow2(16) == 0x1_0000
  {
  }

  /** Or-ing a value into the zero low bits of another is addition. */
  lemma {:induction false} BitOrDisjoint(a: nat, b: nat, k: nat)
    requires b < Pow2(k)
    ensures BitOr(a * Pow2(k), b) == a * Pow2(k) + b
  {
    if k == 0 || a == 0 || b == 0 {
    } else {
      var h := Pow2(k - 1);
      assert a * Pow2(k) == 2 * (a * h);
      BitOrDisjoint(a, b / 2, k - 1);
      assert (a * Pow2(k)) / 2 == a * h && (a * Pow2(k)) % 2 == 0;
    }
  }

  lemma SmallToInt32(x: int)
    requires 0 <= x < TwoTo31
    ensures ToInt32(x) == x && x % TwoTo32 == x
  {
  }

  /** Packing three in-range channels places them side by side. */
  lemma PackInRange(r: int, g: int, b: int)
    requires 0 <= r <= 255 && 0 <= g <= 255 && 0 <= b <= 255
    ensures Pack(r, g, b) == r * 0x1_0000 + g * 0x100 + b
  {
    Pow2Shifts();
    var rs, gs := r * 0x1_0000, g * 0x100;
    assert 0 <= rs < TwoTo24 && 0 <= gs < 0x1_0000;
    SmallToInt32(rs);
    SmallToInt32(gs);
    SmallToInt32(b);
    assert Shl32(r, 16) == rs;
    assert Shl32(g, 8) == gs;
    BitOrDisjoint(r, gs, 16);
    var rg := rs + gs;
    assert 0 <= rg < TwoTo24;
    SmallToInt32(rg);
    assert Or32(rs, gs) == rg;
    assert rg == (r * 0x100 + g) * Pow2(8);
    BitOrDisjoint(r * 0x100 + g, b, 8);
    assert rg + b < TwoTo24;
    SmallToInt32(rg + b);
  }

  lemma MulAtLeast(k: int, d: int)
    requires k >= 1 && d > 0
    ensures k * d >= d
  {
  }

  /** Euclidean division is determined by quotient and remainder. */
  lemma DivMod(x: int, d: int, q: int, m: int)
    requires 0 < d && 0 <= m < d && x == q * d + m
    ensures x / d == q && x % d == m
  {
    var q0, m0 := x / d, x % d;
    assert (q0 - q) * d == m - m0;
    if q0 > q {
      MulAtLeast(q0 - q, d);
    } else if q0 < q {
      MulAtLeast(q - q0, d);
    }
  }

  /** Splitting a packed colour gives its channels back. */
  lemma ChannelsOfPack(r: int, g: int, b: int)
    requires 0 <= r <= 255 && 0 <= g <= 255 && 0 <= b <= 255
    ensures IsColour24(Pack(r, g, b))
    ensures Red(Pack(r, g, b)) == r && Green(Pack(r, g, b)) == g && Blue(Pack(r, g, b)) == b
  {
    PackInRange(r, g, b);
    var c := r * 0x1_0000 + g * 0x100 + b;
    SmallToInt32(c);
    assert Red(c) == r by {
      DivMod(c, 0x1_0000, r, g * 0x100 + b);
    }
    assert Green(c) == g by {
      assert c == (r * 0x100 + g) * 0x100 + b;
      DivMod(c, 0x100, r * 0x100 + g, b);
      DivMod(r * 0x100 + g, 0x100, r, g);
    }
    assert Blue(c) == b by {
      assert c == (r * 0x100 + g) * 0x100 + b;
      DivMod(c, 0x100, r * 0x100 + g, b);
    }
  }

  /** The low 24 bits survive ToInt32's reduction modulo 2^32. */
  lemma LowBits(c: int)
    ensures (c % TwoTo32) % TwoTo24 == c % TwoTo24
  {
    var u := c % TwoTo32;
    var hi, lo := u / TwoTo24, u % TwoTo24;
    assert c == ((c / TwoTo32) * 0x100 + hi) * TwoTo24 + lo;
    DivMod(c, TwoTo24, (c / TwoTo32) * 0x100 + hi, lo);
  }

  /** The channels of c are the three bytes of its low 24 bits. */
  lemma ChannelsAsBytes(c: int)
    ensures Red(c) == (c % TwoTo24) / 0x1_0000
    ensures Green(c) == ((c % TwoTo24) / 0x100) % 0x100
    ensures Blue(c) == (c % TwoTo24) % 0x100
  {
    LowBits(c);
    var u := c % TwoTo32;
    var hi, v := u / TwoTo24, u % TwoTo24;
    var r, rest := v / 0x1_0000, v % 0x1_0000;
    assert u == (hi * 0x100 + r) * 0x1_0000 + rest;
    DivMod(u, 0x1_0000, hi * 0x100 + r, rest);
    DivMod(hi * 0x100 + r, 0x100, hi, r);
    var w, b := v / 0x100, v % 0x100;
    assert u == (hi * 0x1_0000 + w) * 0x100 + b;
    DivMod(u, 0x100, hi * 0x1_0000 + w, b);
    assert w == r * 0x100 + rest / 0x100 by {
      assert v == (r * 0x100 + rest / 0x100) * 0x100 + rest % 0x100;
      DivMod(v, 0x100, r * 0x100 + rest / 0x100, rest % 0x100);
    }
    DivMod(hi * 0x1_0000 + w, 0x100, hi * 0x100 + r, rest / 0x100);
    DivMod(w, 0x100, r, rest / 0x100);
    assert u == (u / 0x100) * 0x100 + b;
    DivMod(u, 0x100, u / 0x100, b);
  }

  /** Packing the three channels of any integer gives back its low 24 bits. */
  lemma PackChannels(c: int)
    ensures Pack(Red(c), Green(c), Blue(c)) == c % TwoTo24
  {
    ChannelsAsBytes(c);
    var v := c % TwoTo24;
    var r, w, b := v / 0x1_0000, v / 0x100, v % 0x100;
    DivMod(v, 0x100, w, b);
    var rest := v % 0x1_0000;
    assert v == r * 0x1_0000 + rest;
    DivMod(rest, 0x100, rest / 0x100, rest % 0x100);
    assert w == r * 0x100 + rest / 0x100 by {
      assert v == (r * 0x100 + rest / 0x100) * 0x100 + rest % 0x100;
      DivMod(v, 0x100, r * 0x100 + rest / 0x100, rest % 0x100);
    }
    DivMod(w, 0x100, r, rest / 0x100);
    PackInRange(r, w % 0x100, b);
  }

  /** x lies between a and b, in either order. */
  predicate Between(x: int, a: int, b: int) {
    (a <= x <= b) || (b <= x <= a)
  }

  /** Math.round leaves an integer unchanged. */
  lemma RoundInt(n: int)
    ensures Round(n as real) == n
  {
  }

  /** For t in [0, 1] an interpolated channel lies between its two endpoints. */
  lemma LerpChannelBetween(a: int, b: int, t: real)
    requires 0.0 <= t <= 1.0
    ensures Between(LerpChannel(a, b, t), a, b)
  {
    var d := (b - a) as real;
    if a <= b {
      assert 0.0 <= d * t <= d by {
        assert d * t <= d * 1.0;
      }
    } else {
      assert d <= d * t <= 0.0 by {
        assert d * 1.0 <= d * t;
      }
    }
  }

  /** Interpolating a colour with itself gives its low 24 bits back, whatever t is. */
  lemma LerpSame(c: int, t: real)
    ensures LerpColor(c, c, t) == c % TwoTo24
    ensures IsColour24(c) ==> LerpColor(c, c, t) == c
  {
    assert LerpChannel(Red(c), Red(c), t) == Red(c) by { RoundInt(Red(c)); }
    assert LerpChannel(Green(c), Green(c), t) == Green(c) by { RoundInt(Green(c)); }
    assert LerpChannel(Blue(c), Blue(c), t) == Blue(c) by { RoundInt(Blue(c)); }
    PackChannels(c);
  }

  /** t = 0 gives the first colour and t = 1 the second (each reduced to 24 bits). */
  lemma LerpEndpoints(c1: int, c2: int)
    ensures LerpColor(c1, c2, 0.0) == c1 % TwoTo24
    ensures LerpColor(c1, c2, 1.0) == c2 % TwoTo24
  {
    RoundInt(Red(c1)); RoundInt(Green(c1)); RoundInt(Blue(c1));
    RoundInt(Red(c2)); RoundInt(Green(c2)); RoundInt(Blue(c2));
    PackChannels(c1);
    PackChannels(c2);
  }

  /**
   * For t in [0, 1] every channel of the result lies between the matching
   * channels of the inputs, so the result is a valid 24-bit colour.
   */
  lemma LerpBetween(c1: int, c2: int, t: real)
    requires 0.0 <= t <= 1.0
    ensures IsColour24(LerpColor(c1, c2, t))
    ensures Between(Red(LerpColor(c1, c2, t)), Red(c1), Red(c2))
    ensures Between(Green(LerpColor(c1, c2, t)), Green(c1), Green(c2))
    ensures Between(Blue(LerpColor(c1, c2, t)), Blue(c1), Blue(c2))
  {
    var r := LerpChannel(Red(c1), Red(c2), t);
    var g := LerpChannel(Green(c1), Green(c2), t);
    var b := LerpChannel(Blue(c1), Blue(c2), t);
    LerpChannelBetween(Red(c1), Red(c2), t);
    LerpChannelBetween(Green(c1), Green(c2), t);
    LerpChannelBetween(Blue(c1), Blue(c2), t);
    ChannelsOfPack(r, g, b);
  }

  /** Black to white at one half rounds 127.5 up to 128 in every channel. */
  lemma HalfwayGrey()
    ensures LerpColor(0x000000, 0xffffff, 0.5) == 0x808080
  {
    assert Red(0xffffff) == 255 && Green(0xffffff) == 255 && Blue(0xffffff) == 255;
    assert Red(0) == 0 && Green(0) == 0 && Blue(0) == 0;
    assert LerpChannel(0, 255, 0.5) == 128 by {
      assert 0 as real + (255 - 0) as real * 0.5 + 0.5 == 128.0;
    }
    PackInRange(128, 128, 128);
  }

  /**
   * Nothing is clamped: with t = 2 the blue channel reaches 510, whose ninth
   * bit lands in the green channel of the packed result.
   */
  lemma UnclampedBlueBleedsIntoGreen()
    ensures LerpColor(0x000000, 0x0000ff, 2.0) == 0x0001fe
    ensures Green(LerpColor(0x000000, 0x0000ff, 2.0)) == 1
  {
    assert LerpChannel(0, 0, 2.0) == 0;
    assert LerpChannel(0, 255, 2.0) == 510;
    PackInRange(0, 0, 0);
    assert Pack(0, 0, 510) == Or32(0, 510);
    SmallToInt32(510);
  }
}
