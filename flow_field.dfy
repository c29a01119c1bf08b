/**
 * The flow-field background: particles drift along a noise field, each
 * leaving a short line, and are respawned in the visible part of the canvas
 * when they leave it or grow old. The palette they are drawn from follows the
 * site's colour events.
 *
 * The simplex noise itself (`noise2D`, `getAngleAt`) and the drawing need
 * floating point and trigonometry: each frame's displacement of a particle is
 * the parameter `flow(x, y, time)`. `Math.random()` draws are parameters.
 */
module FlowField {
  import opened Wrappers
  import opened JsNumber
  import opened JsString
  import opened Color

  // ------------------------------------------------------------ the permutation table

  const MODULUS: real := 2147483647.0
  const MULTIPLIER: real := 16807.0

  /** A product of two non-negative reals is non-negative. */
  lemma MulNonneg(u: real, v: real)
    requires 0.0 <= u && 0.0 <= v
    ensures 0.0 <= u * v
  {
  }

  /** Multiplying by a positive factor keeps the order, strict or not. */
  lemma MulMono(m: real, u: real, v: real)
    requires m > 0.0 && u <= v
    ensures m * u <= m * v
    ensures u < v ==> m * u < m * v
  {
    MulNonneg(m, v - u);
    assert m * v - m * u == m * (v - u);
    if u < v {
      MulPos(m, v - u);
    }
  }

  /** A product of two positive reals is positive. */
  lemma MulPos(u: real, v: real)
    requires 0.0 < u && 0.0 < v
    ensures 0.0 < u * v
  {
  }

  /** `m * floor(a / m)` is the largest multiple of `m` not above `a`. */
  lemma FloorMultiple(a: real, m: real)
    requires m > 0.0
    ensures m * ((a / m).Floor as real) <= a < m * ((a / m).Floor as real) + m
  {
    var y := a / m;
    var q := y.Floor as real;
    assert q <= y < q + 1.0;
    assert m * y == a;
    MulMono(m, q, y);
    MulMono(m, y, q + 1.0);
    assert a < m * (q + 1.0);
    assert m * (q + 1.0) == m * q + m;
  }

  /** `a % m` for `a >= 0` and `m > 0`, JavaScript's remainder on numbers. */
  function Fmod(a: real, m: real): (r: real)
    requires 0.0 <= a && m > 0.0
    ensures 0.0 <= r < m
    ensures a < m ==> r == a
  {
    if a < m then a
    else
      FloorMultiple(a, m);
      a - m * ((a / m).Floor as real)
  }

  /** `[0, 1, ..., n - 1]`. */
  function Identity(n: nat): (s: seq<int>)
    ensures |s| == n && forall i :: 0 <= i < n ==> s[i] == i
  {
    seq(n, i => i)
  }

  /**
   * The shuffle `buildPermutationTable` performs, from the `n` still to be
   * placed and the generator state `random`: advance the Park-Miller
   * generator, pick `k` below `n`, and swap slot `n - 1` with slot `k`.
   */
  function Shuffled(p: seq<int>, n: nat, random: real): (r: seq<int>)
    requires n <= |p| && 0.0 <= random
    ensures |r| == |p|
    decreases n
  {
    if n <= 1 then p
    else
      var next := Fmod(random * MULTIPLIER, MODULUS);
      var k := Fmod(next, n as real).Floor;
      Shuffled(p[n - 1 := p[k]][k := p[n - 1]], n - 1, next)
  }

  /** Swapping two slots keeps the multiset of values. */
  lemma SwapPermutes(p: seq<int>, i: nat, k: nat)
    requires i < |p| && k < |p|
    ensures multiset(p[i := p[k]][k := p[i]]) == multiset(p)
  {
    if i != k {
      var q := p[i := p[k]];
      assert multiset(q) == multiset(p) - multiset{p[i]} + multiset{p[k]};
      assert multiset(q[k := p[i]]) == multiset(q) - multiset{q[k]} + multiset{p[i]};
    }
  }

  /** The shuffle only rearranges: it keeps the multiset of values. */
  lemma {:induction false} ShuffledPermutes(p: seq<int>, n: nat, random: real)
    requires n <= |p| && 0.0 <= random
    ensures multiset(Shuffled(p, n, random)) == multiset(p)
    decreases n
  {
    if n > 1 {
      var next := Fmod(random * MULTIPLIER, MODULUS);
      var k := Fmod(next, n as real).Floor;
      SwapPermutes(p, n - 1, k);
      ShuffledPermutes(p[n - 1 := p[k]][k := p[n - 1]], n - 1, next);
    }
  }

  /** The table of a seed: its first half, shuffled from the identity, repeated once. */
  function PermutationTable(seed: real): (t: seq<int>)
    requires 0.0 <= seed
  {
    var half := Shuffled(Identity(256), 256, seed);
    half + half
  }

  /**
   * `buildPermutationTable`: fill `p` with `0..255`, shuffle it in place and
   * return it twice over.
   */
  method BuildPermutationTable(seed: real) returns (perm: seq<int>)
    requires 0.0 <= seed
    ensures perm == PermutationTable(seed)
  {
    var p := new int[256](i => i);
    assert p[..] == Identity(256);
    var n := 256;
    var random := seed;
    while n > 1
      invariant 0 <= n <= 256 && 0.0 <= random
      invariant Shuffled(p[..], n, random) == Shuffled(Identity(256), 256, seed)
      decreases n
    {
      random := Fmod(random * MULTIPLIER, MODULUS);
      var k := Fmod(random, n as real).Floor;
      n := n - 1;
      p[n], p[k] := p[k], p[n];
    }
    perm := p[..] + p[..];
  }

  /**
   * Whatever the seed, the table has 512 entries, its first 256 are a
   * permutation of 0..255, and the second half repeats the first.
   */
  lemma PermutationTableSpec(seed: real)
    requires 0.0 <= seed
    ensures var t := PermutationTable(seed);
      |t| == 512 &&
      multiset(t[..256]) == multiset(Identity(256)) &&
      (forall i :: 0 <= i < 256 ==> t[i + 256] == t[i]) &&
      (forall i :: 0 <= i < 512 ==> 0 <= t[i] < 256)
  {
    var half := Shuffled(Identity(256), 256, seed);
    var t := half + half;
    ShuffledPermutes(Identity(256), 256, seed);
    assert t[..256] == half;
    forall i | 0 <= i < 512
      ensures 0 <= t[i] < 256
    {
      var j := if i < 256 then i else i - 256;
      assert t[i] == half[j];
      assert half[j] in multiset(Identity(256));
    }
  }

  // ------------------------------------------------------------ colours

  const DEFAULT_PALETTE: seq<string> := ["#ffffff", "#e0e0e0", "#d0d0d0"]

  /** `str.replace("#", "")`: only the first `#` goes. */
  function RemoveFirst(s: string, c: char): (r: string)
    ensures |s| > 0 && s[0] == c ==> r == s[1..]
    ensures c !in s ==> r == s
    ensures c in s ==> |r| == |s| - 1
  {
    if s == [] then []
    else if s[0] == c then s[1..]
    else [s[0]] + RemoveFirst(s[1..], c)
  }

  /** One channel of `parseHexColor` as written: `parseInt(.., 16) || 255` replaces NaN and also 0. */
  function ChannelAsWritten(h: string): real
  {
    match ParseIntHex(h)
    case NaN => 255.0
    case Fin(v) => if v == 0.0 then 255.0 else v
  }

  /** `parseHexColor` as written. */
  function ParseHexColorAsWritten(hex: string): (c: RGB)
    ensures IsFinite(c)
  {
    var s := RemoveFirst(hex, '#');
    RGB(Fin(ChannelAsWritten(Slice(s, 0, 2))), Fin(ChannelAsWritten(Slice(s, 2, 4))), Fin(ChannelAsWritten(Slice(s, 4, 6))))
  }

  /** One channel as intended: only an unreadable channel falls back to 255. */
  function Channel(h: string): real
  {
    match ParseIntHex(h)
    case NaN => 255.0
    case Fin(v) => v
  }

  /** `parseHexColor` with the fallback applied to NaN only. */
  function ParseHexColor(hex: string): (c: RGB)
    ensures IsFinite(c)
  {
    var s := RemoveFirst(hex, '#');
    RGB(Fin(Channel(Slice(s, 0, 2))), Fin(Channel(Slice(s, 2, 4))), Fin(Channel(Slice(s, 4, 6))))
  }

  /** The intended reading is the inverse of writing a colour: every byte colour, black included, reads back as itself. */
  lemma ParseHexColorRoundTrip(c: RGB)
    requires IsByteColor(c)
    ensures ParseHexColor(RgbToHex(c)) == c
  {
    var s := RgbToHex(c);
    ParseColorRgbToHex(c);
    assert RemoveFirst(s, '#') == s[1..];
  }

  /** A channel that reads as 0 turned into 255, as the `|| 255` fallback does. */
  function Whiten(c: RGB): (w: RGB)
    requires IsFinite(c)
  {
    RGB(Fin(if c.r.v == 0.0 then 255.0 else c.r.v),
        Fin(if c.g.v == 0.0 then 255.0 else c.g.v),
        Fin(if c.b.v == 0.0 then 255.0 else c.b.v))
  }

  /** The reading as written is the intended one with every zero channel whitened. */
  lemma AsWrittenWhitens(hex: string)
    ensures ParseHexColorAsWritten(hex) == Whiten(ParseHexColor(hex))
  {
  }

  /**
   * As written, writing a byte colour and reading it back whitens its zero
   * channels: pure red comes back white.
   */
  lemma RedReadsAsWhite()
    ensures forall c :: IsByteColor(c) ==> ParseHexColorAsWritten(RgbToHex(c)) == Whiten(c)
    ensures ParseHexColorAsWritten(RgbToHex(RGB(Fin(255.0), Fin(0.0), Fin(0.0)))) == WHITE
  {
    forall c | IsByteColor(c)
      ensures ParseHexColorAsWritten(RgbToHex(c)) == Whiten(c)
    {
      AsWrittenWhitens(RgbToHex(c));
      ParseHexColorRoundTrip(c);
    }
    assert IsByteColor(RGB(Fin(255.0), Fin(0.0), Fin(0.0)));
  }

  /** The two readings differ only on channels that read as 0. */
  lemma ReadingsAgreeOffZero(h: string)
    requires ParseIntHex(h) != Fin(0.0)
    ensures ChannelAsWritten(h) == Channel(h)
  {
  }

  /**
   * The channel of the `i`-th variant (`i` from 1 to 3): the base moved by
   * `(draw - 0.5) * 25 * i` and clamped to [0, 255].
   */
  function VariantChannel(base: real, draw: real, i: nat): (v: real)
    ensures 0.0 <= v <= 255.0
  {
    Clamp(base + (draw - 0.5) * (25 * i) as real, 0.0, 255.0)
  }

  /** The channel rounded to the whole byte that is written out. */
  function VariantByte(base: real, draw: real, i: nat): (n: nat)
    ensures n <= 255
  {
    var r := Round(VariantChannel(base, draw, i));
    assert 0 <= r <= 255;
    r
  }

  /** The three `Math.random()` draws one variant makes, for red, green and blue. */
  datatype ChannelDraws = ChannelDraws(r: real, g: real, b: real)

  predicate ChannelDrawsOk(d: ChannelDraws)
  {
    0.0 <= d.r < 1.0 && 0.0 <= d.g < 1.0 && 0.0 <= d.b < 1.0
  }

  /**
   * The `i`-th variant of a base colour, written as `#rrggbb`: each channel
   * rounded and written as two lower-case hex digits.
   */
  function Variant(base: RGB, d: ChannelDraws, i: nat): (v: string)
    requires IsFinite(base) && 1 <= i <= 3
    ensures |v| == 7 && v[0] == '#'
  {
    var r, g, b := VariantByte(base.r.v, d.r, i), VariantByte(base.g.v, d.g, i), VariantByte(base.b.v, d.b, i);
    ['#', HexDigit(r / 16), HexDigit(r % 16), HexDigit(g / 16), HexDigit(g % 16), HexDigit(b / 16), HexDigit(b % 16)]
  }

  /** A byte's `toString(16).padStart(2, "0")` is its two hex digits. */
  lemma PaddedHex(n: nat)
    requires n < 256
    ensures PadStart2(NatToHex(n)) == [HexDigit(n / 16), HexDigit(n % 16)]
  {
    if n < 16 {
      assert HexDigit(0) == '0';
      assert PadStart2(NatToHex(n)) == ['0'] + [HexDigit(n)];
    } else {
      assert NatToHex(n / 16) == [HexDigit(n / 16)];
    }
  }

  /**
   * A variant is the text `handleColorChange` pushes: `#` followed by each
   * rounded channel written with `toString(16).padStart(2, "0")`.
   */
  lemma VariantFormat(base: RGB, d: ChannelDraws, i: nat)
    requires IsFinite(base) && 1 <= i <= 3
    ensures Variant(base, d, i) ==
      "#" + PadStart2(NatToHex(VariantByte(base.r.v, d.r, i)))
        + PadStart2(NatToHex(VariantByte(base.g.v, d.g, i)))
        + PadStart2(NatToHex(VariantByte(base.b.v, d.b, i)))
  {
    PaddedHex(VariantByte(base.r.v, d.r, i));
    PaddedHex(VariantByte(base.g.v, d.g, i));
    PaddedHex(VariantByte(base.b.v, d.b, i));
  }

  /**
   * The palette `handleColorChange` builds: the base colour followed by its
   * three variants, variant `i` made from `draws[i - 1]`.
   */
  method VariantPalette(base: string, c: RGB, draws: seq<ChannelDraws>) returns (palette: seq<string>)
    requires IsFinite(c) && |draws| >= 3
    ensures |palette| == 4 && palette[0] == base
    ensures forall j :: 1 <= j < 4 ==> palette[j] == Variant(c, draws[j - 1], j)
  {
    palette := [base];
    for i := 1 to 4
      invariant |palette| == i && palette[0] == base
      invariant forall j {:trigger palette[j]} :: 1 <= j < i ==> palette[j] == Variant(c, draws[j - 1], j)
    {
      palette := palette + [Variant(c, draws[i - 1], i)];
    }
  }

  /** Clamping to [0, 255] never moves two values further apart. */
  lemma ClampCloser(a: real, b: real)
    ensures b <= a ==> 0.0 <= Clamp(a, 0.0, 255.0) - Clamp(b, 0.0, 255.0) <= a - b
    ensures a <= b ==> 0.0 <= Clamp(b, 0.0, 255.0) - Clamp(a, 0.0, 255.0) <= b - a
  {
  }

  /**
   * Each channel of the `i`-th variant lies within `12.5 * i` of the base
   * channel (clamped), plus half a unit of rounding.
   */
  lemma VariantNearBase(base: real, draw: real, i: nat)
    requires 0.0 <= draw < 1.0 && 1 <= i <= 3
    ensures var d := ByteOf(VariantChannel(base, draw, i)) as real - Clamp(base, 0.0, 255.0);
      -(12.5 * i as real) - 0.5 < d <= 12.5 * i as real + 0.5
  {
    var spread := (draw - 0.5) * (25 * i) as real;
    assert -(12.5 * i as real) <= spread <= 12.5 * i as real;
    ClampCloser(base + spread, base);
  }

  // ------------------------------------------------------------ particles

  const NUM_PARTICLES: nat := 500
  const REDUCED_PARTICLES: nat := 100
  const MAX_AGE: real := 150.0
  const TIME_STEP: real := 0.001

  datatype Particle = Particle(x: real, y: real, prevX: real, prevY: real, color: string, age: real, maxAge: real)

  /** The `Math.random()` draws one `createParticle` makes: position, colour and lifetime. */
  datatype SpawnDraws = SpawnDraws(x: real, y: real, color: real, life: real)

  predicate DrawsOk(d: SpawnDraws)
  {
    0.0 <= d.x < 1.0 && 0.0 <= d.y < 1.0 && 0.0 <= d.color < 1.0 && 0.0 <= d.life < 1.0
  }

  /** `smoothstep`: `t * t * (3 - 2t)`. */
  function Smooth(t: real): real
  {
    t * t * (3.0 - 2.0 * t)
  }

  /** On [0, 1] the smoothstep stays in [0, 1] and fixes both ends. */
  lemma SmoothBounds(t: real)
    requires 0.0 <= t <= 1.0
    ensures 0.0 <= Smooth(t) <= 1.0
    ensures t == 0.0 ==> Smooth(t) == 0.0
    ensures t == 1.0 ==> Smooth(t) == 1.0
  {
    assert 1.0 - Smooth(t) == (1.0 - t) * (1.0 - t) * (1.0 + 2.0 * t);
    MulNonneg(t, t);
    MulNonneg(t * t, 3.0 - 2.0 * t);
    MulNonneg(1.0 - t, 1.0 - t);
    MulNonneg((1.0 - t) * (1.0 - t), 1.0 + 2.0 * t);
  }

  /**
   * `getPositionOpacity`: in the full-screen variant particles fade in from
   * 30% to 50% of the width; at width 0 the position 0 is the one that
   * divides zero by zero.
   */
  function PositionOpacity(isFull: bool, width: real, x: real): (o: Num)
    ensures !isFull ==> o == Fin(1.0)
    ensures isFull && x > width * 0.5 ==> o == Fin(1.0)
    ensures isFull && x <= width * 0.5 && x < width * 0.3 ==> o == Fin(0.0)
    ensures o.NaN? <==> isFull && width == 0.0 && x == 0.0
  {
    if !isFull then Fin(1.0)
    else
      var fadeStart := width * 0.5;
      var fadeEnd := width * 0.3;
      if x > fadeStart then Fin(1.0)
      else if x < fadeEnd then Fin(0.0)
      else if fadeStart == fadeEnd then NaN
      else Fin(Smooth((x - fadeEnd) / (fadeStart - fadeEnd)))
  }

  /** Away from the 0/0 point the opacity is a proper opacity in [0, 1]. */
  lemma PositionOpacityBounds(isFull: bool, width: real, x: real)
    requires !(isFull && width == 0.0 && x == 0.0)
    ensures var o := PositionOpacity(isFull, width, x); o.Fin? && 0.0 <= o.v <= 1.0
  {
    if isFull && width * 0.3 <= x <= width * 0.5 && width != 0.0 {
      var t := (x - width * 0.3) / (width * 0.5 - width * 0.3);
      assert width > 0.0;
      assert 0.0 <= t <= 1.0;
      SmoothBounds(t);
    }
  }

  /** A draw in [0, 1) scales a non-negative length `w` into [0, w]. */
  lemma DrawWithin(d: real, w: real)
    requires 0.0 <= d < 1.0 && 0.0 <= w
    ensures 0.0 <= Scale(d, w) <= w
  {
    MulNonneg(d, w);
    MulNonneg(1.0 - d, w);
    assert w - d * w == (1.0 - d) * w;
  }

  /** A particle has not outlived its lifetime. */
  predicate Alive(p: Particle)
  {
    0.0 <= p.age <= p.maxAge
  }

  /** The box outside which `animate` respawns a particle. */
  predicate InBounds(p: Particle, width: real, height: real)
  {
    width * 0.2 <= p.x <= width + 20.0 && -20.0 <= p.y <= height + 20.0
  }

  /** The flow field's state: the closure variables of the component's effect. */
  class FlowFieldView {
    const isFull: bool
    const prefersReducedMotion: bool
    const width: real
    const height: real
    var perm: seq<int>
    var particles: seq<Particle>
    var palette: seq<string>
    var time: real

    /** What every event leaves true: a palette to draw from and particles within their lifetime. */
    ghost predicate Valid()
      reads this
    {
      width >= 0.0 && height >= 0.0 && palette != [] &&
      forall i :: 0 <= i < |particles| ==> Alive(particles[i])
    }

    /** `createParticle`: a new particle in the spawn area, coloured from the palette. */
    function CreateParticle(d: SpawnDraws): (p: Particle)
      requires DrawsOk(d) && palette != []
      reads this
      ensures p.color in palette
    {
      var x := if isFull then width * 0.35 + Scale(d.x, width * 0.65) else Scale(d.x, width);
      var y := Scale(d.y, height);
      Particle(x, y, x, y, palette[RandomIndex(d.color, |palette|)], 0.0, MAX_AGE + Scale(d.life, 50.0))
    }

    /**
     * A new particle is at rest and newborn, with a lifetime in [150, 200),
     * inside the canvas and, in the full-screen variant, in its right-hand 65%.
     */
    lemma CreateParticleSpec(d: SpawnDraws)
      requires DrawsOk(d) && palette != [] && width >= 0.0 && height >= 0.0
      ensures var p := CreateParticle(d);
        p.age == 0.0 && p.prevX == p.x && p.prevY == p.y &&
        MAX_AGE <= p.maxAge < MAX_AGE + 50.0 &&
        (isFull ==> width * 0.35 <= p.x <= width) &&
        (!isFull ==> 0.0 <= p.x <= width) &&
        0.0 <= p.y <= height
    {
      DrawWithin(d.x, width);
      DrawWithin(d.x, width * 0.65);
      DrawWithin(d.y, height);
      ScaleBelow(d.life, 50.0);
    }

    /** Mounting: a table from `seed`, the default palette and the first particles. */
    constructor (isFull: bool, prefersReducedMotion: bool, width: real, height: real, seed: real,
                 draws: seq<SpawnDraws>, ages: seq<real>)
      requires width >= 0.0 && height >= 0.0 && 0.0 <= seed
      requires forall i :: 0 <= i < |draws| ==> DrawsOk(draws[i])
      requires forall i :: 0 <= i < |ages| ==> 0.0 <= ages[i] < 1.0
      requires |draws| >= (if prefersReducedMotion then REDUCED_PARTICLES else NUM_PARTICLES) && |ages| >= |draws|
      ensures Valid()
      ensures this.isFull == isFull && this.prefersReducedMotion == prefersReducedMotion
      ensures this.width == width && this.height == height
      ensures perm == PermutationTable(seed) && palette == DEFAULT_PALETTE && time == 0.0
      ensures |particles| == if prefersReducedMotion then REDUCED_PARTICLES else NUM_PARTICLES
    {
      this.isFull := isFull;
      this.prefersReducedMotion := prefersReducedMotion;
      this.width := width;
      this.height := height;
      palette := DEFAULT_PALETTE;
      time := 0.0;
      particles := [];
      var table := BuildPermutationTable(seed);
      perm := table;
      new;
      InitParticles(draws, ages);
    }

    /**
     * `initParticles`: 100 particles under reduced motion, 500 otherwise,
     * each created afresh and given an age in [0, 75) so that they do not
     * all expire together.
     */
    method InitParticles(draws: seq<SpawnDraws>, ages: seq<real>)
      requires width >= 0.0 && height >= 0.0 && palette != []
      requires forall i :: 0 <= i < |draws| ==> DrawsOk(draws[i])
      requires forall i :: 0 <= i < |ages| ==> 0.0 <= ages[i] < 1.0
      requires |draws| >= (if prefersReducedMotion then REDUCED_PARTICLES else NUM_PARTICLES) && |ages| >= |draws|
      modifies this`particles
      ensures Valid()
      ensures |particles| == if prefersReducedMotion then REDUCED_PARTICLES else NUM_PARTICLES
      ensures forall i :: 0 <= i < |particles| ==>
        particles[i] == CreateParticle(draws[i]).(age := ages[i] * MAX_AGE * 0.5)
      ensures forall i :: 0 <= i < |particles| ==> 0.0 <= particles[i].age < MAX_AGE * 0.5
    {
      var count := if prefersReducedMotion then REDUCED_PARTICLES else NUM_PARTICLES;
      particles := [];
      for i := 0 to count
        invariant |particles| == i
        invariant forall j :: 0 <= j < i ==> particles[j] == CreateParticle(draws[j]).(age := ages[j] * MAX_AGE * 0.5)
        invariant forall j :: 0 <= j < i ==> 0.0 <= particles[j].age < MAX_AGE * 0.5 && Alive(particles[j])
      {
        var p := CreateParticle(draws[i]);
        CreateParticleSpec(draws[i]);
        assert 0.0 <= ages[i] * MAX_AGE * 0.5 < MAX_AGE * 0.5;
        p := p.(age := ages[i] * MAX_AGE * 0.5);
        particles := particles + [p];
      }
    }

    /**
     * `handleColorChange`: the base colour followed by three variants of
     * growing spread around the base as `parseHexColor` reads it, so a 0
     * channel of the base is varied around 255 (`AsWrittenWhitens`).
     */
    method HandleColorChange(base: string, draws: seq<ChannelDraws>)
      requires Valid()
      requires |draws| >= 3 && forall i :: 0 <= i < |draws| ==> ChannelDrawsOk(draws[i])
      modifies this`palette
      ensures Valid()
      ensures |palette| == 4 && palette[0] == base
      ensures forall j :: 1 <= j < 4 ==> palette[j] == Variant(ParseHexColorAsWritten(base), draws[j - 1], j)
    {
      palette := VariantPalette(base, ParseHexColorAsWritten(base), draws);
    }

    /** `handlePaletteChange`: a missing or empty palette is ignored. */
    method HandlePaletteChange(detail: Option<seq<string>>)
      requires Valid()
      modifies this`palette
      ensures Valid()
      ensures detail.Some? && detail.value != [] ==> palette == detail.value
      ensures detail.None? || detail.value == [] ==> palette == old(palette)
    {
      if detail.Some? && |detail.value| > 0 {
        palette := detail.value;
      }
    }

    /** `handleColorReset`. */
    method HandleColorReset()
      requires Valid()
      modifies this`palette
      ensures Valid() && palette == DEFAULT_PALETTE
    {
      palette := DEFAULT_PALETTE;
    }

    /** `handleNewVisualization`: a fresh table, the clock back to 0 and new particles. */
    method HandleNewVisualization(seed: real, draws: seq<SpawnDraws>, ages: seq<real>)
      requires Valid() && 0.0 <= seed
      requires forall i :: 0 <= i < |draws| ==> DrawsOk(draws[i])
      requires forall i :: 0 <= i < |ages| ==> 0.0 <= ages[i] < 1.0
      requires |draws| >= (if prefersReducedMotion then REDUCED_PARTICLES else NUM_PARTICLES) && |ages| >= |draws|
      modifies this`perm, this`time, this`particles
      ensures Valid()
      ensures perm == PermutationTable(seed) && time == 0.0
      ensures |particles| == if prefersReducedMotion then REDUCED_PARTICLES else NUM_PARTICLES
      ensures forall i :: 0 <= i < |particles| ==> particles[i] == CreateParticle(draws[i]).(age := ages[i] * MAX_AGE * 0.5)
    {
      var table := BuildPermutationTable(seed);
      time := 0.0;
      InitParticles(draws, ages);
      perm := table;
    }

    /**
     * One particle's move in `animate`: remember the old position, take the
     * flow's step, age by one, and respawn when it has left the box or
     * outlived its lifetime.
     */
    function Advance(p: Particle, step: (real, real), respawn: SpawnDraws): (q: Particle)
      requires DrawsOk(respawn) && palette != [] && width >= 0.0 && height >= 0.0
      reads this
    {
      var moved := Particle(p.x + step.0, p.y + step.1, p.x, p.y, p.color, p.age + 1.0, p.maxAge);
      if !InBounds(moved, width, height) || moved.age > moved.maxAge then CreateParticle(respawn)
      else moved
    }

    /**
     * After a move a particle is alive again, and in the full-screen variant
     * it is inside the box: an escaped or expired particle is replaced by one
     * spawned in the right-hand 65%.
     */
    lemma AdvanceKeeps(p: Particle, step: (real, real), respawn: SpawnDraws)
      requires DrawsOk(respawn) && palette != [] && width >= 0.0 && height >= 0.0
      requires Alive(p)
      ensures Alive(Advance(p, step, respawn))
      ensures isFull ==> InBounds(Advance(p, step, respawn), width, height)
      ensures var q := Advance(p, step, respawn);
        q == CreateParticle(respawn) || (q.x == p.x + step.0 && q.y == p.y + step.1 && q.age == p.age + 1.0 && q.color == p.color)
    {
      CreateParticleSpec(respawn);
    }

    /**
     * `animate`: the noise clock advances by 0.001 and every particle takes
     * its move, `flow` giving the displacement at its position and the new
     * time and `respawn[i]` the draws for particle `i` should it be replaced.
     */
    method Animate(flow: (real, real, real) -> (real, real), respawn: seq<SpawnDraws>)
      requires Valid()
      requires |respawn| >= |particles| && forall i :: 0 <= i < |respawn| ==> DrawsOk(respawn[i])
      modifies this`time, this`particles
      ensures Valid()
      ensures time == old(time) + TIME_STEP
      ensures |particles| == |old(particles)|
      ensures forall i :: 0 <= i < |particles| ==>
        particles[i] == Advance(old(particles)[i], flow(old(particles)[i].x, old(particles)[i].y, time), respawn[i])
      ensures isFull ==> forall i :: 0 <= i < |particles| ==> InBounds(particles[i], width, height)
    {
      time := time + TIME_STEP;
      ghost var before := particles;
      for i := 0 to |particles|
        invariant time == old(time) + TIME_STEP
        invariant |particles| == |before|
        invariant forall j :: 0 <= j < i ==> particles[j] == Advance(before[j], flow(before[j].x, before[j].y, time), respawn[j])
        invariant forall j :: i <= j < |particles| ==> particles[j] == before[j]
        invariant forall j :: 0 <= j < |particles| ==> Alive(particles[j])
        invariant isFull ==> forall j :: 0 <= j < i ==> InBounds(particles[j], width, height)
      {
        var p := particles[i];
        AdvanceKeeps(p, flow(p.x, p.y, time), respawn[i]);
        particles := particles[i := Advance(p, flow(p.x, p.y, time), respawn[i])];
      }
    }
  }
}
