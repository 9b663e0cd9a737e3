/**
 * The CPU side of the particle field: filling the four attribute buffers
 * once when the field is created, and normalising pointer positions.
 *
 * Each particle consumes eight random draws, in the order the fill loop makes
 * them: three for its position, three for its per-axis seed, one to pick its
 * palette colour and one for its size. The draws are an input here.
 */
module Particles {
  import opened Sequences

  const DrawsPerParticle: nat := 8

  predicate IsHexDigit(ch: char) {
    ('0' <= ch <= '9') || ('a' <= ch <= 'f') || ('A' <= ch <= 'F')
  }

  function HexDigitValue(ch: char): (v: nat)
    requires IsHexDigit(ch)
    ensures v < 16
  {
    if '0' <= ch <= '9' then ch as nat - '0' as nat
    else if 'a' <= ch <= 'f' then ch as nat - 'a' as nat + 10
    else ch as nat - 'A' as nat + 10
  }

  /** A palette entry of the form "#rrggbb". */
  predicate IsHexColour(s: string) {
    |s| == 7 && s[0] == '#' && forall i :: 1 <= i < 7 ==> IsHexDigit(s[i])
  }

  /** parseInt(s.slice(start, start + 2), 16) on two hex digits. */
  function HexByte(s: string, start: nat): (v: nat)
    requires start + 2 <= |s| && IsHexDigit(s[start]) && IsHexDigit(s[start + 1])
    ensures v <= 255
  {
    16 * HexDigitValue(s[start]) + HexDigitValue(s[start + 1])
  }

  const LowerHexDigits: string := "0123456789abcdef"

  /** The two lower-case hex digits of a byte: the inverse of HexByte. */
  function ByteToHex(v: nat): (s: string)
    requires v <= 255
    ensures |s| == 2 && IsHexDigit(s[0]) && IsHexDigit(s[1])
  {
    [LowerHexDigits[v / 16], LowerHexDigits[v % 16]]
  }

  lemma HexDigitRoundTrip(d: nat)
    requires d < 16
    ensures IsHexDigit(LowerHexDigits[d]) && HexDigitValue(LowerHexDigits[d]) == d
  {
  }

  /** Reading back the two digits written for a byte gives the byte. */
  lemma HexByteRoundTrip(v: nat)
    requires v <= 255
    ensures HexByte(ByteToHex(v), 0) == v
  {
    HexDigitRoundTrip(v / 16);
    HexDigitRoundTrip(v % 16);
  }

  /** Channel k (0 red, 1 green, 2 blue) of a "#rrggbb" colour, divided by 255. */
  function Component(hex: string, k: nat): (c: real)
    requires IsHexColour(hex) && k < 3
    ensures 0.0 <= c <= 1.0
    ensures c * 255.0 == HexByte(hex, 1 + 2 * k) as real
  {
    HexByte(hex, 1 + 2 * k) as real / 255.0
  }

  /** A position coordinate: (Math.random() - 0.5) * particleSpread. */
  function Coordinate(spread: real, d: real): (c: real)
    ensures 0.0 <= d < 1.0 && spread > 0.0 ==> -spread / 2.0 <= c < spread / 2.0
  {
    assert 0.0 <= d < 1.0 && spread > 0.0 ==> (d - 0.5) * spread < 0.5 * spread;
    (d - 0.5) * spread
  }

  /** Math.floor(Math.random() * particleColors.length). */
  function PaletteIndex(d: real, len: nat): (i: int)
    ensures 0.0 <= d < 1.0 && len > 0 ==> 0 <= i < len
  {
    assert 0.0 <= d < 1.0 && len > 0 ==> d * len as real < len as real;
    (d * len as real).Floor
  }

  /** A particle size: Math.random() * 0.5 + 0.5. */
  function Size(d: real): (s: real)
    ensures 0.0 <= d < 1.0 ==> 0.5 <= s < 1.0
  {
    d * 0.5 + 0.5
  }

  /**
   * What the fill loop is given: eight draws in [0, 1) per particle and
   * "#rrggbb" palette entries, at least one of them when there are particles.
   */
  predicate ValidConfig(count: nat, palette: seq<string>, draws: seq<real>) {
    && |draws| == DrawsPerParticle * count
    && (forall j :: 0 <= j < |draws| ==> 0.0 <= draws[j] < 1.0)
    && (forall j :: 0 <= j < |palette| ==> IsHexColour(palette[j]))
    && (count > 0 ==> |palette| > 0)
  }

  /** The three-wide attribute buffers. */
  datatype Attribute = Position | Seed | Tint

  /** Component k of attribute a of particle i. */
  function AttributeValue(a: Attribute, spread: real, palette: seq<string>, draws: seq<real>,
                          count: nat, i: nat, k: nat): real
    requires ValidConfig(count, palette, draws) && i < count && k < 3
  {
    match a
    case Position => Coordinate(spread, draws[DrawsPerParticle * i + k])
    case Seed => draws[DrawsPerParticle * i + 3 + k]
    case Tint =>
      var index := PaletteIndex(draws[DrawsPerParticle * i + 6], |palette|);
      Component(palette[index], k)
  }

  /** The first 3n entries of an attribute buffer once n particles are written. */
  function Buffer(a: Attribute, spread: real, palette: seq<string>, draws: seq<real>,
                  count: nat, n: nat): (b: seq<real>)
    requires ValidConfig(count, palette, draws) && n <= count
    ensures |b| == 3 * n
  {
    if n == 0 then []
    else Buffer(a, spread, palette, draws, count, n - 1)
         + [AttributeValue(a, spread, palette, draws, count, n - 1, 0),
            AttributeValue(a, spread, palette, draws, count, n - 1, 1),
            AttributeValue(a, spread, palette, draws, count, n - 1, 2)]
  }

  /** The first n entries of the size buffer. */
  function Sizes(draws: seq<real>, n: nat): (s: seq<real>)
    requires DrawsPerParticle * n <= |draws|
    ensures |s| == n
  {
    if n == 0 then [] else Sizes(draws, n - 1) + [Size(draws[DrawsPerParticle * (n - 1) + 7])]
  }

  /**
   * Slot j of a buffer holds component j % 3 of particle j / 3: particle i
   * owns slots 3i to 3i + 2 and no slot is written by two particles.
   */
  lemma {:induction false} BufferAt(a: Attribute, spread: real, palette: seq<string>, draws: seq<real>,
                                    count: nat, n: nat, j: nat)
    requires ValidConfig(count, palette, draws) && n <= count && j < 3 * n
    ensures Buffer(a, spread, palette, draws, count, n)[j] == AttributeValue(a, spread, palette, draws, count, j / 3, j % 3)
  {
    if j < 3 * (n - 1) {
      BufferAt(a, spread, palette, draws, count, n - 1, j);
    } else {
      SlotOfParticle(n - 1, j - 3 * (n - 1));
    }
  }

  lemma SlotOfParticle(i: nat, k: nat)
    requires k < 3
    ensures (3 * i + k) / 3 == i && (3 * i + k) % 3 == k
  {
  }

  lemma {:induction false} SizesAt(draws: seq<real>, n: nat, i: nat)
    requires DrawsPerParticle * n <= |draws| && i < n
    ensures Sizes(draws, n)[i] == Size(draws[DrawsPerParticle * i + 7])
  {
    if i < n - 1 {
      SizesAt(draws, n - 1, i);
    }
  }

  /** Every position coordinate lies in [-spread/2, spread/2). */
  lemma PositionsInCube(spread: real, palette: seq<string>, draws: seq<real>, count: nat, j: nat)
    requires ValidConfig(count, palette, draws) && spread > 0.0 && j < 3 * count
    ensures -spread / 2.0 <= Buffer(Position, spread, palette, draws, count, count)[j] < spread / 2.0
  {
    BufferAt(Position, spread, palette, draws, count, count, j);
    SlotOwner(count, j);
  }

  /** Every seed lies in [0, 1). */
  lemma SeedsInUnitRange(spread: real, palette: seq<string>, draws: seq<real>, count: nat, j: nat)
    requires ValidConfig(count, palette, draws) && j < 3 * count
    ensures 0.0 <= Buffer(Seed, spread, palette, draws, count, count)[j] < 1.0
  {
    BufferAt(Seed, spread, palette, draws, count, count, j);
    SlotOwner(count, j);
  }

  /** Every colour component is a palette channel divided by 255, so it lies in [0, 1]. */
  lemma ColoursInUnitRange(spread: real, palette: seq<string>, draws: seq<real>, count: nat, j: nat)
    requires ValidConfig(count, palette, draws) && j < 3 * count
    ensures 0.0 <= Buffer(Tint, spread, palette, draws, count, count)[j] <= 1.0
    ensures exists p :: 0 <= p < |palette| && Buffer(Tint, spread, palette, draws, count, count)[j] == Component(palette[p], j % 3)
  {
    BufferAt(Tint, spread, palette, draws, count, count, j);
    SlotOwner(count, j);
    var p := PaletteIndex(draws[DrawsPerParticle * (j / 3) + 6], |palette|);
    assert Buffer(Tint, spread, palette, draws, count, count)[j] == Component(palette[p], j % 3);
  }

  /** Every size lies in [0.5, 1). */
  lemma SizesInRange(draws: seq<real>, count: nat, i: nat)
    requires |draws| == DrawsPerParticle * count && i < count
    requires forall j :: 0 <= j < |draws| ==> 0.0 <= draws[j] < 1.0
    ensures 0.5 <= Sizes(draws, count)[i] < 1.0
  {
    SizesAt(draws, count, i);
  }

  /** Every slot below 3 * count belongs to one of the count particles. */
  lemma SlotOwner(count: nat, j: nat)
    requires j < 3 * count
    ensures j / 3 < count && j % 3 < 3
  {
  }

  /**
   * The fill loop, writing the four preallocated buffers in place. With an
   * empty palette and at least one particle the source indexes past the
   * palette and throws; that is the ok == false outcome.
   */
  method FillBuffers(count: nat, spread: real, palette: seq<string>, draws: seq<real>)
    returns (ok: bool, positions: array<real>, randomness: array<real>, colors: array<real>, sizes: array<real>)
    requires |draws| == DrawsPerParticle * count
    requires forall j :: 0 <= j < |draws| ==> 0.0 <= draws[j] < 1.0
    requires forall j :: 0 <= j < |palette| ==> IsHexColour(palette[j])
    ensures ok <==> (count == 0 || |palette| > 0)
    ensures fresh(positions) && fresh(randomness) && fresh(colors) && fresh(sizes)
    ensures positions.Length == 3 * count && randomness.Length == 3 * count
    ensures colors.Length == 3 * count && sizes.Length == count
    ensures ok ==> ValidConfig(count, palette, draws)
    ensures ok ==> positions[..] == Buffer(Position, spread, palette, draws, count, count)
    ensures ok ==> randomness[..] == Buffer(Seed, spread, palette, draws, count, count)
    ensures ok ==> colors[..] == Buffer(Tint, spread, palette, draws, count, count)
    ensures ok ==> sizes[..] == Sizes(draws, count)
  {
    positions := new real[3 * count](_ => 0.0);
    randomness := new real[3 * count](_ => 0.0);
    colors := new real[3 * count](_ => 0.0);
    sizes := new real[count](_ => 0.0);
    ok := count == 0 || |palette| > 0;
    if !ok {
      return;
    }
    assert ValidConfig(count, palette, draws);
    var i := 0;
    while i < count
      invariant 0 <= i <= count
      invariant Filled(positions, randomness, colors, sizes, spread, palette, draws, count, i)
    {
      FillParticle(positions, randomness, colors, sizes, spread, palette, draws, count, i);
      i := i + 1;
    }
    assert positions[..] == positions[..3 * count];
    assert randomness[..] == randomness[..3 * count];
    assert colors[..] == colors[..3 * count];
    assert sizes[..] == sizes[..count];
  }

  /** The first n particles are in the buffers. */
  ghost predicate Filled(positions: array<real>, randomness: array<real>, colors: array<real>, sizes: array<real>,
                         spread: real, palette: seq<string>, draws: seq<real>, count: nat, n: nat)
    reads positions, randomness, colors, sizes
    requires ValidConfig(count, palette, draws) && n <= count
  {
    && positions.Length == 3 * count && randomness.Length == 3 * count
    && colors.Length == 3 * count && sizes.Length == count
    && positions[..3 * n] == Buffer(Position, spread, palette, draws, count, n)
    && randomness[..3 * n] == Buffer(Seed, spread, palette, draws, count, n)
    && colors[..3 * n] == Buffer(Tint, spread, palette, draws, count, n)
    && sizes[..n] == Sizes(draws, n)
  }

  /** The body of the fill loop: particle i's position, seed, colour and size. */
  method FillParticle(positions: array<real>, randomness: array<real>, colors: array<real>, sizes: array<real>,
                      spread: real, palette: seq<string>, draws: seq<real>, count: nat, i: nat)
    requires ValidConfig(count, palette, draws) && i < count
    requires positions != randomness && positions != colors && randomness != colors
    requires Filled(positions, randomness, colors, sizes, spread, palette, draws, count, i)
    modifies positions, randomness, colors, sizes
    ensures Filled(positions, randomness, colors, sizes, spread, palette, draws, count, i + 1)
  {
    var d := DrawsPerParticle * i;
    WriteTriple(positions, Position, spread, palette, draws, count, i,
                Coordinate(spread, draws[d]), Coordinate(spread, draws[d + 1]), Coordinate(spread, draws[d + 2]));
    WriteTriple(randomness, Seed, spread, palette, draws, count, i, draws[d + 3], draws[d + 4], draws[d + 5]);
    var colorHex := palette[PaletteIndex(draws[d + 6], |palette|)];
    WriteTriple(colors, Tint, spread, palette, draws, count, i,
                Component(colorHex, 0), Component(colorHex, 1), Component(colorHex, 2));
    WriteSize(sizes, draws, i, Size(draws[d + 7]));
  }

  /** Writes particle i's size, extending the filled prefix of the size buffer by one. */
  method WriteSize(sizes: array<real>, draws: seq<real>, i: nat, v: real)
    requires DrawsPerParticle * (i + 1) <= |draws| && i < sizes.Length
    requires v == Size(draws[DrawsPerParticle * i + 7])
    requires sizes[..i] == Sizes(draws, i)
    modifies sizes
    ensures sizes[..i + 1] == Sizes(draws, i + 1)
  {
    sizes[i] := v;
    assert sizes[..i + 1] == sizes[..i] + [sizes[i]];
  }

  /**
   * Writes particle i's three values of attribute a at slots 3i, 3i + 1 and
   * 3i + 2, extending the filled prefix of the buffer by one particle.
   */
  method WriteTriple(buf: array<real>, a: Attribute, spread: real, palette: seq<string>, draws: seq<real>,
                     count: nat, i: nat, v0: real, v1: real, v2: real)
    requires ValidConfig(count, palette, draws) && i < count && buf.Length == 3 * count
    requires v0 == AttributeValue(a, spread, palette, draws, count, i, 0)
    requires v1 == AttributeValue(a, spread, palette, draws, count, i, 1)
    requires v2 == AttributeValue(a, spread, palette, draws, count, i, 2)
    requires buf[..3 * i] == Buffer(a, spread, palette, draws, count, i)
    modifies buf
    ensures buf[..3 * (i + 1)] == Buffer(a, spread, palette, draws, count, i + 1)
  {
    var i3 := i * 3;
    buf[i3] := v0;
    buf[i3 + 1] := v1;
    buf[i3 + 2] := v2;
    assert buf[..3 * (i + 1)] == buf[..i3] + [v0, v1, v2];
  }

  /** The container's bounding box. */
  datatype Rect = Rect(left: real, top: real, width: real, height: real)

  /** A pointer position in [-1, 1] on both axes, Y pointing up. */
  datatype Pointer = Pointer(x: real, y: real)

  /**
   * handleMouseMove: client coordinates relative to the container, mapped to
   * [-1, 1] with Y inverted. A box of zero width or height would make
   * JavaScript divide by zero; that case gives None.
   */
  function Normalize(clientX: real, clientY: real, rect: Rect): (p: Option<Pointer>)
    requires rect.width >= 0.0 && rect.height >= 0.0
    ensures p.None? <==> rect.width == 0.0 || rect.height == 0.0
  {
    if rect.width == 0.0 || rect.height == 0.0 then None
    else Some(Pointer(((clientX - rect.left) / rect.width) * 2.0 - 1.0,
                      -(((clientY - rect.top) / rect.height) * 2.0 - 1.0)))
  }

  /** The client point that a normalised pointer stands for. */
  function Denormalize(p: Pointer, rect: Rect): (c: (real, real)) {
    (rect.left + (p.x + 1.0) / 2.0 * rect.width, rect.top + (1.0 - p.y) / 2.0 * rect.height)
  }

  lemma MulDivCancel(a: real, w: real)
    requires w != 0.0
    ensures (a * w) / w == a && (a / w) * w == a
  {
  }

  /** Denormalize undoes Normalize. */
  lemma DenormalizeNormalize(clientX: real, clientY: real, rect: Rect)
    requires rect.width > 0.0 && rect.height > 0.0
    ensures Denormalize(Normalize(clientX, clientY, rect).value, rect) == (clientX, clientY)
  {
    var fx := (clientX - rect.left) / rect.width;
    var fy := (clientY - rect.top) / rect.height;
    var q := Normalize(clientX, clientY, rect).value;
    assert q.x == fx * 2.0 - 1.0 && q.y == 1.0 - fy * 2.0;
    assert (q.x + 1.0) / 2.0 == fx && (1.0 - q.y) / 2.0 == fy;
    MulDivCancel(clientX - rect.left, rect.width);
    MulDivCancel(clientY - rect.top, rect.height);
    assert rect.left + fx * rect.width == clientX;
    assert rect.top + fy * rect.height == clientY;
    assert Denormalize(q, rect).0 == rect.left + fx * rect.width;
    assert Denormalize(q, rect).1 == rect.top + fy * rect.height;
  }

  /** Normalize undoes Denormalize. */
  lemma NormalizeDenormalize(p: Pointer, rect: Rect)
    requires rect.width > 0.0 && rect.height > 0.0
    ensures Normalize(Denormalize(p, rect).0, Denormalize(p, rect).1, rect) == Some(p)
  {
    var (cx, cy) := Denormalize(p, rect);
    var fx, fy := (p.x + 1.0) / 2.0, (1.0 - p.y) / 2.0;
    assert cx - rect.left == fx * rect.width;
    assert cy - rect.top == fy * rect.height;
    MulDivCancel(fx, rect.width);
    MulDivCancel(fy, rect.height);
    assert (cx - rect.left) / rect.width == fx;
    assert (cy - rect.top) / rect.height == fy;
  }

  /** A point inside the container lands in [-1, 1] on both axes. */
  lemma NormalizeInside(clientX: real, clientY: real, rect: Rect)
    requires rect.width > 0.0 && rect.height > 0.0
    requires rect.left <= clientX <= rect.left + rect.width
    requires rect.top <= clientY <= rect.top + rect.height
    ensures -1.0 <= Normalize(clientX, clientY, rect).value.x <= 1.0
    ensures -1.0 <= Normalize(clientX, clientY, rect).value.y <= 1.0
  {
    var fx := (clientX - rect.left) / rect.width;
    var fy := (clientY - rect.top) / rect.height;
    assert 0.0 <= fx <= 1.0 by {
      MulDivCancel(clientX - rect.left, rect.width);
    }
    assert 0.0 <= fy <= 1.0 by {
      MulDivCancel(clientY - rect.top, rect.height);
    }
  }

  /** The centre maps to the origin, the top edge to y = 1, the bottom edge to y = -1, the sides to x = -1 and x = 1. */
  lemma NormalizeLandmarks(clientX: real, clientY: real, rect: Rect)
    requires rect.width > 0.0 && rect.height > 0.0
    ensures Normalize(rect.left + rect.width / 2.0, rect.top + rect.height / 2.0, rect) == Some(Pointer(0.0, 0.0))
    ensures Normalize(clientX, rect.top, rect).value.y == 1.0
    ensures Normalize(clientX, rect.top + rect.height, rect).value.y == -1.0
    ensures Normalize(rect.left, clientY, rect).value.x == -1.0
    ensures Normalize(rect.left + rect.width, clientY, rect).value.x == 1.0
  {
    MulDivCancel(0.5, rect.width);
    MulDivCancel(0.5, rect.height);
    assert rect.left + rect.width / 2.0 - rect.left == 0.5 * rect.width;
    assert rect.top + rect.height / 2.0 - rect.top == 0.5 * rect.height;
  }
}
