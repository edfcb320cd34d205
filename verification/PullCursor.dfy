/**
 The pull-request backfill cursor: (API page, identifiers added in this pass,
 pass bit) packed into one positive PostgreSQL integer by Cantor pairing.
 */
module PullCursor {
  import opened Results

  const MAX_INT32: int := 0x7fff_ffff
  const MAX_INT64: int := 0x7fff_ffff_ffff_ffff

  newtype int64 = x: int | -0x8000_0000_0000_0000 <= x <= 0x7fff_ffff_ffff_ffff

  datatype Cursor = Cursor(page: int64, count: int64, alternate: bool) {
    // What the encoder rejects outright.
    predicate WellFormed() {
      page > 0 && count >= 0
    }
  }

  // ---------------------------------------------------------------- encoding

  // Two's-complement reduction to 64 bits: what Go's int64 operators compute.
  function Wrap(x: int): int64 {
    if -MAX_INT64 - 1 <= x <= MAX_INT64 then
      x as int64
    else
      var low := x % 0x1_0000_0000_0000_0000;
      (if low <= MAX_INT64 then low else low - 0x1_0000_0000_0000_0000) as int64
  }

  // Go's division truncates toward zero.
  function Half(x: int64): int {
    if x >= 0 then x as int / 2 else -(-(x as int) / 2)
  }

  // The pairing, in 64-bit arithmetic.
  function Pair64(x: int, y: int): int64 {
    var diagonal := Wrap(x + y);
    var product := Wrap(diagonal as int * Wrap(diagonal as int + 1) as int);
    Wrap(Half(product) + y)
  }

  // Appends the pass bit and checks the column's range.
  function Tag(paired: int64, alternate: bool): Result<int64> {
    var even := Wrap(Wrap(paired as int * 2) as int + 1);
    var encoded := if alternate then Wrap(even as int + 1) else even;
    if encoded as int > MAX_INT32 then Err else Ok(encoded)
  }

  function Encode(c: Cursor): Result<int64> {
    if !c.WellFormed() then Err else Tag(Pair64(c.page as int - 1, c.count as int), c.alternate)
  }

  // The d-th triangular number.
  function Tri(d: nat): nat {
    if d == 0 then 0 else Tri(d - 1) + d
  }

  // The pairing without any machine limit.
  function Exact(c: Cursor): int
    requires c.WellFormed()
  {
    (Tri(c.page as int - 1 + c.count as int) + c.count as int) * 2 + 1 + (if c.alternate then 1 else 0)
  }

  // The triples the 32-bit column can hold.
  predicate Fits(c: Cursor) {
    c.WellFormed() && Exact(c) <= MAX_INT32
  }

  // The closed form the code computes.
  lemma {:induction false} TriDoubles(d: nat)
    ensures 2 * Tri(d) == d * (d + 1)
    ensures d * (d + 1) / 2 == Tri(d)
  {
    if d == 0 {
    } else {
      TriDoubles(d - 1);
      assert d * (d + 1) == (d - 1) * d + 2 * d;
    }
  }

  lemma {:induction false} TriMonotone(a: nat, b: nat)
    ensures a <= b ==> Tri(a) <= Tri(b)
    ensures a < b ==> Tri(a) + a + 1 <= Tri(b)
    decreases b
  {
    if a < b {
      TriMonotone(a, b - 1);
    }
  }

  // While the exact value fits 64 bits, no intermediate of the encoder wraps.
  lemma EncodeIsExact(c: Cursor)
    requires c.WellFormed() && Exact(c) <= MAX_INT64
    ensures Exact(c) >= 1
    ensures Encode(c) == if Exact(c) <= MAX_INT32 then Ok(Exact(c) as int64) else Err
  {
    hide Pair64;
    PairIsExact(c.page as int - 1, c.count as int);
    TagIsExact(Tri(c.page as int - 1 + c.count as int) + c.count as int, c.alternate);
  }

  lemma TagIsExact(paired: nat, alternate: bool)
    requires paired * 2 + 2 <= MAX_INT64 + (if alternate then 0 else 1)
    ensures var exact := paired * 2 + 1 + (if alternate then 1 else 0);
            Tag(paired as int64, alternate) == if exact <= MAX_INT32 then Ok(exact as int64) else Err
  {
  }

  lemma PairIsExact(x: nat, y: nat)
    requires (Tri(x + y) + y) * 2 <= MAX_INT64
    ensures Pair64(x, y) as int == Tri(x + y) + y
  {
    var d := x + y;
    ProductBounds(d);
    TriDoubles(d);
    assert Wrap(d) as int == d && Wrap(d + 1) as int == d + 1;
    assert Wrap(d * (d + 1)) as int == d * (d + 1);
  }

  lemma ProductBounds(d: int)
    requires d >= 0
    ensures 0 <= d <= d * (d + 1)
    ensures d > 0 ==> d + 1 <= d * (d + 1)
  {
  }

  // ---------------------------------------------------------------- decoding

  // The diagonal on which a paired value lies.
  function Diagonal(paired: nat): (d: nat)
    ensures Tri(d) <= paired < Tri(d + 1)
  {
    if paired == 0 then
      0
    else
      var d := Diagonal(paired - 1);
      if Tri(d + 1) <= paired then d + 1 else d
  }

  lemma DiagonalUnique(paired: nat, d: nat)
    requires Tri(d) <= paired < Tri(d + 1)
    ensures d == Diagonal(paired)
  {
    TriMonotone(d + 1, Diagonal(paired));
    TriMonotone(Diagonal(paired) + 1, d);
  }

  lemma DiagonalSmall(paired: nat)
    requires paired <= 0x3fff_ffff
    ensures Diagonal(paired) <= 46340
  {
    var bound := 46341;
    TriDoubles(bound);
    TriMonotone(bound, Diagonal(paired));
  }

  function Unpair(encoded: int): (c: Cursor)
    requires 1 <= encoded <= MAX_INT32
    ensures c.WellFormed()
  {
    var paired := (encoded - 1) / 2;
    var d := Diagonal(paired);
    DiagonalSmall(paired);
    var offset := paired - Tri(d);
    Cursor((d - offset + 1) as int64, offset as int64, (encoded - 1) % 2 == 1)
  }

  // The decoder re-encodes what it found and insists on getting the input back.
  function Checked(c: Cursor, encoded: int): Result<Cursor> {
    if Encode(c).Err? || Encode(c).value as int != encoded then Err else Ok(c)
  }

  // Every stored page is a PostgreSQL integer, so the argument is at most MAX_INT32.
  function Decode(encoded: int): Result<Cursor>
    requires encoded <= MAX_INT32
  {
    if encoded <= 0 then Err else Checked(Unpair(encoded), encoded)
  }

  // The decoder's two correction loops reach the right diagonal from any
  // non-negative estimate whose square fits 64 bits, so the float estimate is irrelevant.
  method FindDiagonal(paired: int64, estimate: int64) returns (diagonal: int64)
    requires 0 <= paired <= 0x3fff_ffff
    requires 0 <= estimate <= 3_037_000_499
    ensures diagonal as int == Diagonal(paired as int)
  {
    diagonal := estimate;
    MulBound(diagonal as int, 3_037_000_499);
    while diagonal * (diagonal + 1) / 2 > paired
      invariant 0 <= diagonal <= estimate
      invariant 0 <= diagonal as int * (diagonal as int + 1) <= 3_037_000_499 * 3_037_000_500
      decreases diagonal
    {
      diagonal := diagonal - 1;
      MulBound(diagonal as int, 3_037_000_499);
    }
    TriDoubles(diagonal as int);
    diagonal := ClimbDiagonal(paired, diagonal);
  }

  method ClimbDiagonal(paired: int64, start: int64) returns (diagonal: int64)
    requires 0 <= paired <= 0x3fff_ffff
    requires 0 <= start && Tri(start as int) <= paired as int
    ensures diagonal as int == Diagonal(paired as int)
  {
    DiagonalSmall(paired as int);
    diagonal := start;
    AtMostDiagonal(paired as int, diagonal as int);
    MulBound(diagonal as int + 1, 46341);
    while (diagonal + 1) * (diagonal + 2) / 2 <= paired
      invariant 0 <= diagonal as int <= Diagonal(paired as int)
      invariant Tri(diagonal as int) <= paired as int
      invariant 0 <= (diagonal as int + 1) * (diagonal as int + 2) <= 46341 * 46342
      decreases 46341 - diagonal as int
    {
      TriDoubles(diagonal as int + 1);
      diagonal := diagonal + 1;
      AtMostDiagonal(paired as int, diagonal as int);
      MulBound(diagonal as int + 1, 46341);
    }
    TriDoubles(diagonal as int + 1);
    DiagonalUnique(paired as int, diagonal as int);
  }

  method UnpairFrom(encoded: int64, estimate: int64) returns (c: Cursor)
    requires 1 <= encoded && encoded as int <= MAX_INT32
    requires 0 <= estimate <= 3_037_000_499
    ensures c == Unpair(encoded as int)
  {
    var raw := encoded - 1;
    var paired := raw / 2;
    var diagonal := FindDiagonal(paired, estimate);
    DiagonalSmall(paired as int);
    MulBound(diagonal as int, 46340);
    TriDoubles(diagonal as int);
    var offset := paired - diagonal * (diagonal + 1) / 2;
    c := Cursor(diagonal - offset + 1, offset, raw % 2 == 1);
  }

  method DecodeFrom(encoded: int64, estimate: int64) returns (r: Result<Cursor>)
    requires encoded as int <= MAX_INT32
    requires 0 <= estimate <= 3_037_000_499
    ensures r == Decode(encoded as int)
  {
    if encoded <= 0 {
      return Err;
    }
    var c := UnpairFrom(encoded, estimate);
    r := Checked(c, encoded as int);
  }

  lemma MulBound(a: int, b: int)
    requires -1 <= a <= b
    ensures 0 <= a * (a + 1) <= b * (b + 1)
  {
  }

  lemma AtMostDiagonal(paired: nat, d: nat)
    requires Tri(d) <= paired
    ensures d <= Diagonal(paired)
  {
  }

  // ---------------------------------------------------------------- theorems

  // Unpairing inverts pairing, on every well-formed triple of any size ...
  lemma UnpairExact(c: Cursor)
    requires Fits(c)
    ensures 1 <= Exact(c) && Unpair(Exact(c)) == c
  {
    var d := c.page as int - 1 + c.count as int;
    TriMonotone(0, d);
    assert (Exact(c) - 1) / 2 == Tri(d) + c.count as int;
    DiagonalUnique(Tri(d) + c.count as int, d);
  }

  // ... and pairing inverts unpairing.
  lemma ExactUnpair(encoded: int)
    requires 1 <= encoded <= MAX_INT32
    ensures Exact(Unpair(encoded)) == encoded
  {
  }

  /** Every positive 32-bit cursor decodes, and encodes back to itself. */
  lemma DecodeThenEncode(encoded: int)
    requires 1 <= encoded <= MAX_INT32
    ensures Decode(encoded).Ok?
    ensures Encode(Decode(encoded).value) == Ok(encoded as int64)
  {
    ExactUnpair(encoded);
    EncodeIsExact(Unpair(encoded));
  }

  /** Encoding followed by decoding returns the triple exactly when the exact pairing fits 32 bits. */
  lemma EncodeThenDecode(c: Cursor)
    ensures Fits(c) <==>
            Encode(c).Ok? && Encode(c).value as int <= MAX_INT32 && Decode(Encode(c).value as int) == Ok(c)
  {
    if Fits(c) {
      EncodeIsExact(c);
      UnpairExact(c);
    } else if Encode(c).Ok? && Encode(c).value as int <= MAX_INT32 && Decode(Encode(c).value as int) == Ok(c) {
      ExactUnpair(Encode(c).value as int);
    }
  }

  /** Below 64-bit overflow the encoder accepts exactly what the column can hold. */
  lemma AcceptsExactlyWhatFits(c: Cursor)
    requires c.WellFormed() ==> Exact(c) <= MAX_INT64
    ensures Encode(c).Ok? <==> Fits(c)
  {
    if c.WellFormed() {
      EncodeIsExact(c);
    }
  }

  /** Above it, the range check can pass on a wrapped value: this page is accepted as a negative cursor. */
  lemma OverflowIsAccepted()
    ensures Encode(Cursor(3_037_000_501, 0, false)) == Ok(-9_223_372_033_672_301_115)
    ensures Decode(-9_223_372_033_672_301_115) == Err
  {
    var d := Wrap(3_037_000_500);
    assert 3_037_000_500 * 3_037_000_501 == 9_223_372_040_037_250_500;
    assert 9_223_372_040_037_250_500 % 0x1_0000_0000_0000_0000 == 9_223_372_040_037_250_500;
    assert Wrap(9_223_372_040_037_250_500) == -9_223_372_033_672_301_116;
  }

  /** Every diagonal up to 46339 fits whole ... */
  lemma AlwaysFits(c: Cursor)
    requires c.WellFormed() && c.page as int - 1 + c.count as int <= 46339
    ensures Fits(c)
  {
    var bound := 46339;
    TriMonotone(c.page as int - 1 + c.count as int, bound);
    TriDoubles(bound);
  }

  /** ... and 46339 is the largest such diagonal. */
  lemma FirstRejected(alternate: bool)
    ensures Encode(Cursor(1, 46340, alternate)) == Err
  {
    var bound: int64 := 46340;
    TriDoubles(bound as int);
    EncodeIsExact(Cursor(1, bound, alternate));
  }

  /** A pass restart writes a cursor that no cursor of the current pass equals. */
  lemma RestartChangesCursor(encoded: int)
    requires 1 <= encoded <= MAX_INT32
    ensures Decode(encoded).Ok?
    ensures var next := Encode(Cursor(1, 0, !Decode(encoded).value.alternate));
            next.Ok? && next.value as int != encoded && 1 <= next.value as int <= 2
  {
    DecodeThenEncode(encoded);
    var c := Cursor(1, 0, !Decode(encoded).value.alternate);
    assert Tri(0) == 0;
    EncodeIsExact(c);
  }
}
