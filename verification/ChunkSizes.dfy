/**
 Chunk arithmetic of the device-memory allocator, on 64-bit unsigned integers that wrap: a request is rounded
 up to the driver's granularity and cut into chunks of a configured size.
 */
module ChunkSizes {
  import opened Arithmetic

  const U64: nat := 0x1_0000_0000_0000_0000
  const MB: nat := 1024 * 1024
  const DEFAULT_CHUNK: nat := 256 * MB

  function Wrap(x: int): (r: nat)
    ensures r < U64 && (0 <= x < U64 ==> r == x) && (U64 <= x < U64 + U64 ==> r == x - U64)
  {
    x % U64
  }

  /** What the environment variable holds: nothing, something `strtoull` refuses, or a number of megabytes. */
  datatype Setting = Unset | Unparsable | Megabytes(value: nat)

  function ChunkSetting(env: Setting): (r: nat)
    requires env.Megabytes? ==> env.value < U64
    ensures 0 < r < U64 && r % MB == 0
    ensures r == (if env.Megabytes? && 0 < env.value && env.value * MB < U64 then env.value * MB else DEFAULT_CHUNK)
  {
    match env
    case Unset => DEFAULT_CHUNK
    case Unparsable => DEFAULT_CHUNK
    case Megabytes(v) =>
      if v == 0 then DEFAULT_CHUNK
      else if v > (U64 - 1) / MB then DEFAULT_CHUNK
      else Wrap(v * MB)
  }

  /** The rounding idiom as the machine computes it. */
  function RoundUpWrapped(x: int, g: nat): nat
    requires g > 0
  {
    Wrap(Wrap(x + g - 1) / g * g)
  }

  /** The smallest multiple of `g` that is at least `x`. */
  ghost predicate IsRoundUp(x: nat, g: nat, r: nat) {
    g > 0 && r % g == 0 && x <= r < x + g
  }

  /** Rounding is right exactly when the addition does not wrap; when it wraps the result is zero. */
  lemma RoundUpIff(x: nat, g: nat)
    requires 0 < x < U64 && 0 < g < U64
    ensures IsRoundUp(x, g, RoundUpWrapped(x, g)) <==> x + g - 1 < U64
    ensures x + g - 1 >= U64 ==> RoundUpWrapped(x, g) == 0
  {
    hide Wrap, U64;
    var y := Wrap(x + g - 1);
    DivBounds(y, g);
    if x + g - 1 >= U64 {
      SmallQuotient(y, g);
    } else {
      MulDivides(y / g, g);
    }
  }

  lemma SmallQuotient(y: nat, g: nat)
    requires y < g
    ensures y / g == 0
  {
  }

  function CountWrapped(aligned: nat, chunk: nat): nat
    requires chunk > 0
  {
    Wrap(aligned + chunk - 1) / chunk
  }

  function SizeAt(aligned: nat, chunk: nat, i: nat): nat {
    var rest := Wrap(aligned - Wrap(i * chunk));
    if rest < chunk then rest else chunk
  }

  function Offset(sizes: seq<nat>, i: nat): nat
    requires i <= |sizes|
  {
    if i == 0 then 0 else Offset(sizes, i - 1) + sizes[i - 1]
  }

  /** The chunks tile a reservation of `total` bytes in positive multiples of the granularity. */
  ghost predicate Tile(sizes: seq<nat>, g: nat, total: nat) {
    && g > 0 && Offset(sizes, |sizes|) == total
    && forall i :: 0 <= i < |sizes| ==> sizes[i] > 0 && sizes[i] % g == 0
  }

  /** Fills `chunk_sizes`. */
  method FillChunks(aligned: nat, chunk: nat) returns (sizes: array<nat>)
    requires 0 < chunk < U64 && aligned < U64
    ensures sizes.Length == CountWrapped(aligned, chunk)
    ensures forall i :: 0 <= i < sizes.Length ==> sizes[i] == SizeAt(aligned, chunk, i)
  {
    sizes := new nat[CountWrapped(aligned, chunk)];
    for i := 0 to sizes.Length
      invariant forall j :: 0 <= j < i ==> sizes[j] == SizeAt(aligned, chunk, j)
    {
      var rest := Wrap(aligned - Wrap(i * chunk));
      sizes[i] := if rest < chunk then rest else chunk;
    }
  }

  // ------------------------------------------------------------------ tiling

  lemma CountBounds(aligned: nat, chunk: nat)
    requires 0 < chunk && 0 < aligned && aligned + chunk - 1 < U64
    ensures var k := CountWrapped(aligned, chunk); k > 0 && (k - 1) * chunk < aligned <= k * chunk
  {
    var k := (aligned + chunk - 1) / chunk;
    DivBounds(aligned + chunk - 1, chunk);
    assert (k - 1) * chunk == k * chunk - chunk;
    MulMono(k, 0, chunk);
  }

  /** No subtraction underflows: all chunks but the last are full and the last takes the rest. */
  lemma SizeAtPlain(aligned: nat, chunk: nat, i: nat)
    requires 0 < chunk && 0 < aligned && aligned + chunk - 1 < U64 && i < CountWrapped(aligned, chunk)
    ensures i * chunk < aligned
    ensures SizeAt(aligned, chunk, i) == if i + 1 < CountWrapped(aligned, chunk) then chunk else aligned - i * chunk
  {
    var k := CountWrapped(aligned, chunk);
    CountBounds(aligned, chunk);
    MulMono(i, k - 1, chunk);
    MulMono(i + 1, k - 1, chunk);
    assert (i + 1) * chunk == i * chunk + chunk;
    MulMono(k, i + 1, chunk);
  }

  ghost predicate Filled(sizes: seq<nat>, aligned: nat, chunk: nat) {
    0 < chunk < U64 && |sizes| == CountWrapped(aligned, chunk) &&
    forall i :: 0 <= i < |sizes| ==> sizes[i] == SizeAt(aligned, chunk, i)
  }

  lemma {:induction false} OffsetPlain(sizes: seq<nat>, aligned: nat, chunk: nat, i: nat)
    requires Filled(sizes, aligned, chunk) && 0 < aligned && aligned + chunk - 1 < U64 && i <= |sizes|
    ensures Offset(sizes, i) == if i < |sizes| then i * chunk else aligned
  {
    hide SizeAt, CountWrapped, Wrap;
    CountBounds(aligned, chunk);
    if i > 0 {
      OffsetPlain(sizes, aligned, chunk, i - 1);
      SizeAtPlain(aligned, chunk, i - 1);
      assert (i - 1) * chunk + chunk == i * chunk;
    }
  }

  lemma ChunksTile(sizes: seq<nat>, aligned: nat, chunk: nat, g: nat)
    requires Filled(sizes, aligned, chunk) && 0 < aligned && aligned + chunk - 1 < U64
    requires g > 0 && aligned % g == 0 && chunk % g == 0
    ensures Tile(sizes, g, aligned)
  {
    hide SizeAt, CountWrapped;
    OffsetPlain(sizes, aligned, chunk, |sizes|);
    forall i | 0 <= i < |sizes| ensures sizes[i] > 0 && sizes[i] % g == 0 {
      SizeAtPlain(aligned, chunk, i);
      Multiples(i, chunk, g);
      MultipleMinus(aligned, i * chunk, g);
    }
  }

  lemma {:induction false} OffsetAtMost(sizes: seq<nat>, chunk: nat, i: nat)
    requires i <= |sizes| && forall j :: 0 <= j < |sizes| ==> sizes[j] <= chunk
    ensures Offset(sizes, i) <= i * chunk
  {
    if i > 0 { OffsetAtMost(sizes, chunk, i - 1); }
  }

  /** When the chunk count wraps, the chunks fall short of the reservation. */
  lemma WrappedFallsShort(sizes: seq<nat>, aligned: nat, chunk: nat)
    requires Filled(sizes, aligned, chunk) && aligned < U64 && aligned + chunk - 1 >= U64
    ensures Offset(sizes, |sizes|) < aligned
  {
    var k := CountWrapped(aligned, chunk);
    OffsetAtMost(sizes, chunk, k);
    DivBounds(Wrap(aligned + chunk - 1), chunk);
  }

  ghost predicate NoOverflow(size: nat, g: nat, base: nat)
    requires g > 0
  {
    && size + g - 1 < U64 && base + g - 1 < U64
    && RoundUpWrapped(size, g) + RoundUpWrapped(base, g) - 1 < U64
  }

  /** The whole computation cuts the request rounded up into tiles exactly when none of the three sums wraps. */
  lemma ChunkingIff(size: nat, g: nat, base: nat, sizes: seq<nat>)
    requires 0 < size < U64 && 0 < g < U64 && 0 < base < U64
    requires RoundUpWrapped(base, g) > 0 ==> Filled(sizes, RoundUpWrapped(size, g), RoundUpWrapped(base, g))
    ensures (RoundUpWrapped(base, g) > 0 && IsRoundUp(size, g, Offset(sizes, |sizes|)) &&
            Tile(sizes, g, Offset(sizes, |sizes|)))
            <==> NoOverflow(size, g, base)
  {
    hide RoundUpWrapped, Filled, Tile;
    var aligned, chunk := RoundUpWrapped(size, g), RoundUpWrapped(base, g);
    RoundUpIff(size, g);
    RoundUpIff(base, g);
    AlignedBelow(size, g);
    AlignedBelow(base, g);
    if NoOverflow(size, g, base) {
      ChunksTile(sizes, aligned, chunk, g);
      TileTotal(sizes, g, aligned);
    } else if chunk > 0 && aligned + chunk - 1 >= U64 {
      WrappedFallsShort(sizes, aligned, chunk);
      RoundUpOnce(size, g, aligned, Offset(sizes, |sizes|));
    } else if chunk > 0 {
      assert aligned == 0;
      NothingToCut(sizes, chunk);
    }
  }

  /**
   The largest accepted setting with a granularity of two megabytes: the chunk size wraps to zero for every request.
   */
  lemma LargestSettingWraps(size: nat)
    ensures ChunkSetting(Megabytes(0x1000_0000_0000 - 1)) == U64 - MB
    ensures RoundUpWrapped(U64 - MB, 2 * MB) == 0 && !NoOverflow(size, 2 * MB, U64 - MB)
  {
  }

  lemma ZeroIff(x: nat, g: nat)
    requires 0 < x < U64 && 0 < g < U64
    ensures RoundUpWrapped(x, g) == 0 <==> x + g - 1 >= U64
  {
    hide RoundUpWrapped;
    RoundUpIff(x, g);
  }

  lemma AlignedBelow(x: nat, g: nat)
    requires g > 0
    ensures RoundUpWrapped(x, g) < U64
  {
  }

  lemma TileTotal(sizes: seq<nat>, g: nat, total: nat)
    requires Tile(sizes, g, total)
    ensures Offset(sizes, |sizes|) == total
  {
  }

  lemma RoundUpOnce(x: nat, g: nat, a: nat, b: nat)
    requires IsRoundUp(x, g, a) && b < a
    ensures !IsRoundUp(x, g, b)
  {
    if b % g == 0 && x <= b {
      MultipleMinus(a, b, g);
      SmallMultiple(a - b, g);
    }
  }

  lemma SmallMultiple(d: nat, g: nat)
    requires g > 0 && d % g == 0 && d > 0
    ensures d >= g
  {
  }

  lemma NothingToCut(sizes: seq<nat>, chunk: nat)
    requires Filled(sizes, 0, chunk)
    ensures Offset(sizes, |sizes|) == 0
  {
    DivBounds(chunk - 1, chunk);
    MulMono(1, |sizes|, chunk);
  }

  lemma AtMostChunk(sizes: seq<nat>, aligned: nat, chunk: nat)
    requires Filled(sizes, aligned, chunk)
    ensures forall i :: 0 <= i < |sizes| ==> sizes[i] <= chunk
  {
  }

  /** No chunk exceeds the chunk size, and no other way to cut the reservation into such chunks needs fewer of them. */
  lemma FewestChunks(sizes: seq<nat>, aligned: nat, chunk: nat, others: seq<nat>)
    requires Filled(sizes, aligned, chunk) && 0 < aligned && aligned + chunk - 1 < U64
    requires Offset(others, |others|) == aligned && forall i :: 0 <= i < |others| ==> others[i] <= chunk
    ensures forall i :: 0 <= i < |sizes| ==> sizes[i] <= chunk
    ensures |sizes| <= |others|
  {
    AtMostChunk(sizes, aligned, chunk);
    CountBounds(aligned, chunk);
    OffsetAtMost(others, chunk, |others|);
    if |others| < |sizes| { MulMono(|others|, |sizes| - 1, chunk); }
  }

  // ------------------------------------------------------------------ the ranges partition the reservation

  lemma {:induction false} OffsetMono(sizes: seq<nat>, i: nat, j: nat)
    requires i <= j <= |sizes|
    ensures Offset(sizes, i) <= Offset(sizes, j)
    decreases j
  {
    if i < j { OffsetMono(sizes, i, j - 1); }
  }

  /** Byte `x` of the reservation lies in chunk `i`. */
  ghost predicate InChunk(sizes: seq<nat>, x: nat, i: nat) {
    i < |sizes| && Offset(sizes, i) <= x < Offset(sizes, i + 1)
  }

  lemma {:induction false} FindChunk(sizes: seq<nat>, x: nat, n: nat) returns (i: nat)
    requires n <= |sizes| && x < Offset(sizes, n)
    ensures InChunk(sizes, x, i)
  {
    if x < Offset(sizes, n - 1) { i := FindChunk(sizes, x, n - 1); } else { i := n - 1; }
  }

  /** Every byte of the reservation lies in one chunk and no other. */
  lemma OneChunkPerByte(sizes: seq<nat>, x: nat)
    requires x < Offset(sizes, |sizes|)
    ensures exists i: nat :: InChunk(sizes, x, i)
    ensures forall i: nat, j: nat :: i < j ==> !(InChunk(sizes, x, i) && InChunk(sizes, x, j))
  {
    hide Offset;
    var at := FindChunk(sizes, x, |sizes|);
    forall i: nat, j: nat | i < j < |sizes| ensures !(InChunk(sizes, x, i) && InChunk(sizes, x, j)) {
      OffsetMono(sizes, i + 1, j);
    }
  }
}
