/**
 * The bit-packed 64x32 monochrome framebuffer of graphics.go.
 *
 * Pixel (x, y) is bit 7 - x % 8 of byte x / 8 + 8 * y of a 256-byte buffer.
 * A sprite is drawn row by row: row r of an h-row sprite is the byte
 * mem[I + r] (16-bit address arithmetic), XORed into the buffer at the byte
 * Offset(x, y, r). When x is not a multiple of 8 the row is shifted left by
 * x % 8 bits inside the 16-bit little-endian pair (buf[off], buf[off + 1]).
 *
 * The pure functions below specify one row (DrawRow, RowHit) and a whole
 * sprite (Blit, Collides); class Graphics is the in-place implementation.
 */
module Graphics {

  import opened Words

  /** GfxWidthBytes (64 / 8) and the buffer size GfxWidthBytes * GfxHeight. */
  const WidthBytes := 8
  const BufferSize := 256

  /** A memory address: `I + k` computed in uint16 arithmetic. */
  function Addr(i: Word, k: int): (a: Word)
    requires 0 <= k
  {
    (i + k) % 0x10000
  }

  /** The n addresses I, I+1, ..., I+n-1 all index into a memory of `len` bytes. */
  predicate InMemory(len: int, i: Word, n: int)
  {
    forall k :: 0 <= k < n ==> Addr(i, k) < len
  }

  /** Row r of the sprite at I: the memory byte mem[I + r], as a bit pattern. */
  function Row(mem: seq<Byte>, i: Word, r: int): bv8
    requires 0 <= r && Addr(i, r) < |mem|
  {
    mem[Addr(i, r)] as bv8
  }

  /** A sprite that fits and is in memory has every prefix of rows that does too. */
  lemma Prefix(mem: seq<Byte>, i: Word, x: Byte, y: Byte, h: int, n: int)
    requires Fits(x, y, h) && InMemory(|mem|, i, h) && n <= h
    ensures Fits(x, y, n) && InMemory(|mem|, i, n)
  {
  }

  /** The all-zero buffer. */
  function Blank(): (buf: seq<bv8>)
    ensures |buf| == BufferSize
    ensures forall a :: 0 <= a < BufferSize ==> buf[a] == 0
  {
    seq(BufferSize, _ => 0)
  }

  /**
   * The byte that row r of a sprite drawn at (x, y) starts in. `(y + r) % 256`
   * is the uint8 sum y+r of the source; nothing wraps the result vertically.
   */
  function Offset(x: Byte, y: Byte, r: int): int
  {
    x / 8 + ((y as int + r) % 256) * 8
  }

  /** The rows of an h-row sprite at (x, y) write only bytes inside the buffer. */
  predicate Fits(x: Byte, y: Byte, h: int)
  {
    forall r :: 0 <= r < h ==> 0 <= Offset(x, y, r) && Offset(x, y, r) + (if x % 8 == 0 then 0 else 1) < BufferSize
  }

  /** Byte a is one that some row r < h writes. */
  predicate Touched(x: Byte, y: Byte, h: int, a: int)
  {
    exists r :: 0 <= r < h && (a == Offset(x, y, r) || (x % 8 != 0 && a == Offset(x, y, r) + 1))
  }

  /**
   * The shift count `x % 8` as a bit-vector. It is written as a table so
   * that the integer coordinate is never converted to bits.
   */
  function Shift(x: Byte): (s: bv8)
    ensures s as int == x % 8
    ensures s < 8 && (s == 0 <==> x % 8 == 0)
  {
    var s := x % 8;
    if s == 0 then 0 else if s == 1 then 1 else if s == 2 then 2 else if s == 3 then 3
    else if s == 4 then 4 else if s == 5 then 5 else if s == 6 then 6 else 7
  }

  /** What a row p XORs into its first byte, and into the byte after it. */
  function Low(p: bv8, s: bv8): bv8
    requires s < 8
  {
    p << s
  }

  function High(p: bv8, s: bv8): bv8
    requires s < 8
  {
    if s == 0 then 0 else p >> (8 - s)
  }

  /** The pair (buf[off] low, buf[off + 1] high) as one little-endian 16-bit value. */
  function Pair(lo: bv8, hi: bv8): bv16
  {
    (hi as bv16 << 8) | lo as bv16
  }

  /**
   * One sprite row p drawn at byte offset off: the byte at off is XORed with
   * p shifted right-to-left by x % 8 and, when x is not a multiple of 8, the
   * next byte with the bits shifted out of it.
   */
  function DrawRow(buf: seq<bv8>, p: bv8, x: Byte, off: int): (r: seq<bv8>)
    requires 0 <= off && off + (if x % 8 == 0 then 0 else 1) < |buf|
    ensures |r| == |buf|
  {
    if x % 8 == 0 then
      buf[off := buf[off] ^ p]
    else
      buf[off := buf[off] ^ Low(p, Shift(x))][off + 1 := buf[off + 1] ^ High(p, Shift(x))]
  }

  /** Whether drawing row p at off hits a pixel that is already set. */
  function RowHit(buf: seq<bv8>, p: bv8, x: Byte, off: int): bool
    requires 0 <= off && off + (if x % 8 == 0 then 0 else 1) < |buf|
  {
    if x % 8 == 0 then
      buf[off] & p != 0
    else
      buf[off] & Low(p, Shift(x)) != 0 || buf[off + 1] & High(p, Shift(x)) != 0
  }

  /**
   * The 16-bit operation of the unaligned path, as the source writes it,
   * XORs Low into the low byte of the pair and High into the high byte.
   */
  lemma PairXorBytes(lo: bv8, hi: bv8, p: bv8, s: bv8)
    requires 0 < s < 8
    ensures (((Pair(lo, hi) ^ ((p as bv16) << s)) & 0xFF) as bv8) == lo ^ Low(p, s)
  {
  }

  lemma PairXorHighByte(lo: bv8, hi: bv8, p: bv8, s: bv8)
    requires 0 < s < 8
    ensures (((Pair(lo, hi) ^ ((p as bv16) << s)) >> 8) as bv8) == hi ^ High(p, s)
  {
  }

  /** The 16-bit collision test overlaps the pair exactly when one of the two bytes overlaps. */
  lemma PairAndBytes(lo: bv8, hi: bv8, p: bv8, s: bv8)
    requires 0 < s < 8
    ensures ((p as bv16) << s) & Pair(lo, hi) != 0 <==> lo & Low(p, s) != 0 || hi & High(p, s) != 0
  {
  }

  /** A row hits exactly when its first byte or (unaligned) the byte after it overlaps set bits. */
  lemma RowHitBytes(buf: seq<bv8>, p: bv8, x: Byte, off: int)
    requires 0 <= off && off + (if x % 8 == 0 then 0 else 1) < |buf|
    ensures RowHit(buf, p, x, off) <==>
              buf[off] & Low(p, Shift(x)) != 0 || (x % 8 != 0 && buf[off + 1] & High(p, Shift(x)) != 0)
  {
    if x % 8 == 0 {
      assert Low(p, Shift(x)) == p;
    }
  }

  /** The buffer after the first n rows of the sprite are drawn at (x, y), one after another. */
  function Blit(buf: seq<bv8>, mem: seq<Byte>, i: Word, x: Byte, y: Byte, n: int): (r: seq<bv8>)
    requires |buf| == BufferSize && 0 <= n && InMemory(|mem|, i, n) && Fits(x, y, n)
    ensures |r| == BufferSize
    decreases n
  {
    if n == 0 then buf
    else DrawRow(Blit(buf, mem, i, x, y, n - 1), Row(mem, i, n - 1), x, Offset(x, y, n - 1))
  }

  /** The collision result of those n rows: some row hit the buffer as it stood when that row was drawn. */
  function Collides(buf: seq<bv8>, mem: seq<Byte>, i: Word, x: Byte, y: Byte, n: int): bool
    requires |buf| == BufferSize && 0 <= n && InMemory(|mem|, i, n) && Fits(x, y, n)
    decreases n
  {
    if n == 0 then false
    else Collides(buf, mem, i, x, y, n - 1) || RowHit(Blit(buf, mem, i, x, y, n - 1), Row(mem, i, n - 1), x, Offset(x, y, n - 1))
  }

  /** What row r (holding p) XORs into byte a. */
  function RowMask(p: bv8, x: Byte, y: Byte, r: int, a: int): bv8
  {
    if a == Offset(x, y, r) then Low(p, Shift(x))
    else if a == Offset(x, y, r) + 1 then High(p, Shift(x))
    else 0
  }

  /** What the first n rows of the sprite XOR into byte a. */
  function Mask(mem: seq<Byte>, i: Word, x: Byte, y: Byte, n: int, a: int): bv8
    requires 0 <= n && InMemory(|mem|, i, n)
    decreases n
  {
    if n == 0 then 0
    else Mask(mem, i, x, y, n - 1, a) ^ RowMask(Row(mem, i, n - 1), x, y, n - 1, a)
  }

  /** Drawing a sprite XORs each byte with a mask that does not depend on the buffer. */
  lemma {:induction false} BlitAt(buf: seq<bv8>, mem: seq<Byte>, i: Word, x: Byte, y: Byte, n: int, a: int)
    requires |buf| == BufferSize && 0 <= n && InMemory(|mem|, i, n) && Fits(x, y, n) && 0 <= a < BufferSize
    ensures Blit(buf, mem, i, x, y, n)[a] == buf[a] ^ Mask(mem, i, x, y, n, a)
    decreases n
  {
    if n > 0 {
      var m := n - 1;
      BlitAt(buf, mem, i, x, y, m, a);
      DrawRowAt(Blit(buf, mem, i, x, y, m), Row(mem, i, m), x, Offset(x, y, m), a);
      XorAssoc(buf[a], Mask(mem, i, x, y, m, a), RowMask(Row(mem, i, m), x, y, m, a));
    }
  }

  lemma XorAssoc(a: bv8, b: bv8, c: bv8)
    ensures (a ^ b) ^ c == a ^ (b ^ c)
  {
  }

  /** One row XORs byte a with Low at its offset, High just after, and 0 elsewhere. */
  lemma DrawRowAt(buf: seq<bv8>, p: bv8, x: Byte, off: int, a: int)
    requires 0 <= off && off + (if x % 8 == 0 then 0 else 1) < |buf| && 0 <= a < |buf|
    ensures DrawRow(buf, p, x, off)[a] ==
              buf[a] ^ (if a == off then Low(p, Shift(x)) else if a == off + 1 then High(p, Shift(x)) else 0)
  {
    if x % 8 == 0 {
      if a == off {
        assert Low(p, Shift(x)) == p;
      } else {
        DrawRowElsewhere(buf, p, x, off, a);
      }
    } else if a == off || a == off + 1 {
    } else {
      DrawRowElsewhere(buf, p, x, off, a);
    }
  }

  /** Bytes other than the row's own keep their value (High is 0 for an aligned row). */
  lemma DrawRowElsewhere(buf: seq<bv8>, p: bv8, x: Byte, off: int, a: int)
    requires 0 <= off && off + (if x % 8 == 0 then 0 else 1) < |buf| && 0 <= a < |buf|
    requires a != off && (a == off + 1 ==> x % 8 == 0)
    ensures DrawRow(buf, p, x, off)[a] == buf[a] ^ (if a == off + 1 then High(p, Shift(x)) else 0)
  {
    assert DrawRow(buf, p, x, off)[a] == buf[a];
    XorZero(buf[a]);
  }

  lemma XorZero(b: bv8)
    ensures b ^ 0 == b
  {
  }

  /** A byte that none of the first n rows touches gets a zero mask. */
  lemma {:induction false} MaskUntouched(mem: seq<Byte>, i: Word, x: Byte, y: Byte, n: int, a: int)
    requires 0 <= n && InMemory(|mem|, i, n) && !Touched(x, y, n, a)
    ensures Mask(mem, i, x, y, n, a) == 0
    decreases n
  {
    if n > 0 {
      MaskUntouched(mem, i, x, y, n - 1, a);
      assert a != Offset(x, y, n - 1) && (x % 8 != 0 ==> a != Offset(x, y, n - 1) + 1);
    }
  }

  /** Two different rows of one sprite (fewer than 256 rows) never share a byte. */
  lemma RowsDisjoint(x: Byte, y: Byte, r1: int, r2: int)
    requires 0 <= r1 < 256 && 0 <= r2 < 256 && r1 != r2
    ensures Offset(x, y, r1) != Offset(x, y, r2)
    ensures Offset(x, y, r1) + 1 != Offset(x, y, r2)
  {
    var k1, k2 := (y as int + r1) % 256, (y as int + r2) % 256;
    assert k1 != k2;
  }

  /** A byte touched by row r only carries row r's contribution. */
  lemma {:induction false} MaskOnlyRow(mem: seq<Byte>, i: Word, x: Byte, y: Byte, n: int, r: int, a: int)
    requires 0 <= r < n <= 256 && InMemory(|mem|, i, n)
    requires a == Offset(x, y, r) || (x % 8 != 0 && a == Offset(x, y, r) + 1)
    ensures Mask(mem, i, x, y, n, a) == RowMask(Row(mem, i, r), x, y, r, a)
    decreases n
  {
    var m := n - 1;
    if r == m {
      forall q | 0 <= q < m
        ensures a != Offset(x, y, q) && a != Offset(x, y, q) + 1
      {
        RowsDisjoint(x, y, q, r);
        RowsDisjoint(x, y, r, q);
      }
      MaskUntouched(mem, i, x, y, m, a);
    } else {
      MaskOnlyRow(mem, i, x, y, m, r, a);
      RowsDisjoint(x, y, r, m);
      RowsDisjoint(x, y, m, r);
      assert RowMask(Row(mem, i, m), x, y, m, a) == 0;
    }
  }

  /** Bytes that none of the first n rows touches keep their value. */
  lemma DrawOnlyTouches(buf: seq<bv8>, mem: seq<Byte>, i: Word, x: Byte, y: Byte, n: int, a: int)
    requires |buf| == BufferSize && 0 <= n && InMemory(|mem|, i, n) && Fits(x, y, n) && 0 <= a < BufferSize
    requires !Touched(x, y, n, a)
    ensures Blit(buf, mem, i, x, y, n)[a] == buf[a]
  {
    BlitAt(buf, mem, i, x, y, n, a);
    MaskUntouched(mem, i, x, y, n, a);
  }

  /** XOR involution: drawing the same sprite twice at the same place restores the buffer. */
  lemma DrawTwiceRestores(buf: seq<bv8>, mem: seq<Byte>, i: Word, x: Byte, y: Byte, h: int)
    requires |buf| == BufferSize && 0 <= h && InMemory(|mem|, i, h) && Fits(x, y, h)
    ensures Blit(Blit(buf, mem, i, x, y, h), mem, i, x, y, h) == buf
  {
    var once := Blit(buf, mem, i, x, y, h);
    var twice := Blit(once, mem, i, x, y, h);
    forall a | 0 <= a < BufferSize
      ensures twice[a] == buf[a]
    {
      BlitAt(buf, mem, i, x, y, h, a);
      BlitAt(once, mem, i, x, y, h, a);
    }
  }

  /** Row r of the sprite overlaps pixels that are set in buf. */
  predicate HitsRow(buf: seq<bv8>, mem: seq<Byte>, i: Word, x: Byte, y: Byte, r: int)
    requires |buf| == BufferSize && 0 <= r && InMemory(|mem|, i, r + 1) && Fits(x, y, r + 1)
  {
    RowHit(buf, Row(mem, i, r), x, Offset(x, y, r))
  }

  /**
   * The draw reports a collision exactly when some row overlaps set pixels of
   * the buffer as it was before the draw: rows never write each other's bytes.
   */
  lemma {:induction false} CollidesIff(buf: seq<bv8>, mem: seq<Byte>, i: Word, x: Byte, y: Byte, n: int)
    requires |buf| == BufferSize && 0 <= n <= 256 && InMemory(|mem|, i, n) && Fits(x, y, n)
    ensures Collides(buf, mem, i, x, y, n) <==> exists r :: 0 <= r < n && HitsRow(buf, mem, i, x, y, r)
    decreases n
  {
    if n > 0 {
      var m := n - 1;
      CollidesIff(buf, mem, i, x, y, m);
      CollidesStep(buf, mem, i, x, y, m);
      if Collides(buf, mem, i, x, y, m) {
        var r :| 0 <= r < m && HitsRow(buf, mem, i, x, y, r);
        assert 0 <= r < n && HitsRow(buf, mem, i, x, y, r);
      } else if HitsRow(buf, mem, i, x, y, m) {
        assert 0 <= m < n;
      } else {
        forall r | 0 <= r < n
          ensures !HitsRow(buf, mem, i, x, y, r)
        {
        }
      }
    }
  }

  /** Row m collides with the buffer as the earlier rows left it iff it collides with the original. */
  lemma CollidesStep(buf: seq<bv8>, mem: seq<Byte>, i: Word, x: Byte, y: Byte, m: int)
    requires |buf| == BufferSize && 0 <= m < 256 && InMemory(|mem|, i, m + 1) && Fits(x, y, m + 1)
    ensures Collides(buf, mem, i, x, y, m + 1) == (Collides(buf, mem, i, x, y, m) || HitsRow(buf, mem, i, x, y, m))
  {
    var off := Offset(x, y, m);
    EarlierRowsMissLast(buf, mem, i, x, y, m, off);
    if x % 8 != 0 {
      EarlierRowsMissLast(buf, mem, i, x, y, m, off + 1);
    }
    RowHitSameBytes(Blit(buf, mem, i, x, y, m), buf, Row(mem, i, m), x, off);
  }

  /** The bytes of row m are untouched by the rows before it. */
  lemma EarlierRowsMissLast(buf: seq<bv8>, mem: seq<Byte>, i: Word, x: Byte, y: Byte, m: int, a: int)
    requires |buf| == BufferSize && 0 <= m < 256 && InMemory(|mem|, i, m) && Fits(x, y, m) && 0 <= a < BufferSize
    requires a == Offset(x, y, m) || (x % 8 != 0 && a == Offset(x, y, m) + 1)
    ensures Blit(buf, mem, i, x, y, m)[a] == buf[a]
  {
    forall q | 0 <= q < m
      ensures a != Offset(x, y, q) && a != Offset(x, y, q) + 1
    {
      RowsDisjoint(x, y, q, m);
      RowsDisjoint(x, y, m, q);
    }
    DrawOnlyTouches(buf, mem, i, x, y, m, a);
  }

  /** Whether a row hits depends only on the bytes it covers. */
  lemma RowHitSameBytes(b1: seq<bv8>, b2: seq<bv8>, p: bv8, x: Byte, off: int)
    requires 0 <= off && off + (if x % 8 == 0 then 0 else 1) < |b1| && |b1| == |b2|
    requires b1[off] == b2[off] && (x % 8 != 0 ==> b1[off + 1] == b2[off + 1])
    ensures RowHit(b1, p, x, off) == RowHit(b2, p, x, off)
  {
  }

  /** On a blank buffer nothing collides. */
  lemma BlankNeverCollides(mem: seq<Byte>, i: Word, x: Byte, y: Byte, h: int)
    requires 0 <= h <= 256 && InMemory(|mem|, i, h) && Fits(x, y, h)
    ensures !Collides(Blank(), mem, i, x, y, h)
  {
    CollidesIff(Blank(), mem, i, x, y, h);
  }

  /**
   * Drawing a sprite on a blank buffer and then drawing it again: the second
   * draw collides exactly when some sprite row is non-zero.
   */
  lemma RedrawCollidesIffInk(mem: seq<Byte>, i: Word, x: Byte, y: Byte, h: int)
    requires 0 <= h <= 256 && InMemory(|mem|, i, h) && Fits(x, y, h)
    ensures Collides(Blit(Blank(), mem, i, x, y, h), mem, i, x, y, h) <==>
              exists r :: 0 <= r < h && Row(mem, i, r) != 0
  {
    var once := Blit(Blank(), mem, i, x, y, h);
    CollidesIff(once, mem, i, x, y, h);
    forall r | 0 <= r < h
      ensures HitsRow(once, mem, i, x, y, r) <==> Row(mem, i, r) != 0
    {
      RedrawRow(mem, i, x, y, h, r);
    }
  }

  /** Row r of a sprite drawn once on a blank buffer hits it again iff the row is non-zero. */
  lemma RedrawRow(mem: seq<Byte>, i: Word, x: Byte, y: Byte, h: int, r: int)
    requires 0 <= r < h <= 256 && InMemory(|mem|, i, h) && Fits(x, y, h)
    ensures HitsRow(Blit(Blank(), mem, i, x, y, h), mem, i, x, y, r) <==> Row(mem, i, r) != 0
  {
    var once := Blit(Blank(), mem, i, x, y, h);
    var off := Offset(x, y, r);
    BlankBlitAt(mem, i, x, y, h, r, off);
    if x % 8 != 0 {
      BlankBlitAt(mem, i, x, y, h, r, off + 1);
    }
    RowHitBytes(once, Row(mem, i, r), x, off);
    ShiftKeepsInk(Row(mem, i, r), Shift(x));
  }

  /** A byte that row r touches holds, after drawing on a blank buffer, just row r's contribution. */
  lemma BlankBlitAt(mem: seq<Byte>, i: Word, x: Byte, y: Byte, h: int, r: int, a: int)
    requires 0 <= r < h <= 256 && InMemory(|mem|, i, h) && Fits(x, y, h)
    requires a == Offset(x, y, r) || (x % 8 != 0 && a == Offset(x, y, r) + 1)
    ensures Blit(Blank(), mem, i, x, y, h)[a] == RowMask(Row(mem, i, r), x, y, r, a)
  {
    BlitAt(Blank(), mem, i, x, y, h, a);
    MaskOnlyRow(mem, i, x, y, h, r, a);
  }

  /** Shifting a row by s < 8 inside 16 bits loses none of its bits. */
  lemma ShiftKeepsInk(p: bv8, s: bv8)
    requires s < 8
    ensures p != 0 <==> Low(p, s) != 0 || High(p, s) != 0
  {
  }

  /**
   * Where the unaligned path puts a row: sprite bit b (bit 7 being the
   * leftmost pixel) of a row drawn at x = 8 * c + s, 0 < s < 8, lands in
   * bit b + s of the pair, so bits 0..7-s go to byte c and the others to
   * byte c + 1.
   */
  lemma UnalignedPlacement(p: bv8, s: bv8, b: bv8)
    requires 0 < s < 8 && b < 8
    ensures b + s < 8 ==> ((Low(p, s) >> (b + s)) & 1) == ((p >> b) & 1)
    ensures b + s >= 8 ==> ((High(p, s) >> (b + s - 8)) & 1) == ((p >> b) & 1)
  {
  }

  /** The in-place framebuffer: `buffer` and `dirty` of graphics.go. */
  class Graphics {
    const buffer: array<bv8>
    var dirty: bool

    ghost predicate Valid()
      reads this
    {
      buffer.Length == BufferSize
    }

    /** The zero value of the struct: a blank buffer that is not dirty. */
    constructor ()
      ensures Valid() && fresh(buffer)
      ensures buffer[..] == Blank() && !dirty
    {
      buffer := new bv8[BufferSize](_ => 0);
      dirty := false;
    }

    /** The dirty flag: set by Clear and Draw, and by SetDirty. */
    function IsDirty(): (d: bool)
      reads this
      ensures d <==> dirty
    {
      dirty
    }

    /** Sets the dirty flag; the buffer is not touched. */
    method SetDirty(d: bool)
      requires Valid()
      modifies this
      ensures Valid() && dirty == d
    {
      dirty := d;
    }

    /** Zeroes every byte of the buffer and marks it dirty. */
    method Clear()
      requires Valid()
      modifies this, buffer
      ensures Valid() && dirty
      ensures buffer[..] == Blank()
    {
      var i := 0;
      while i < buffer.Length
        invariant 0 <= i <= buffer.Length
        invariant forall a :: 0 <= a < i ==> buffer[a] == 0
      {
        buffer[i] := 0;
        i := i + 1;
      }
      dirty := true;
    }

    /**
     * The pixel at (x, y) as the masked bit: zero when the pixel is unset and
     * the single-bit mask 1 << (7 - Shift(x)) when it is set (never 1 unless
     * x % 8 == 7).
     */
    function GetPixel(x: Byte, y: Byte): (p: bv8)
      requires Valid() && x as int / 8 + y as int * WidthBytes < BufferSize
      reads this, buffer
      ensures p == 0 <==> (buffer[x as int / 8 + y as int * WidthBytes] >> (7 - Shift(x))) & 1 == 0
      ensures p != 0 ==> p == 1 << (7 - Shift(x))
    {
      buffer[x as int / 8 + y as int * WidthBytes] & (1 << (7 - Shift(x)))
    }

    /**
     * XORs the h-row sprite at mem[I..] into the buffer at (x, y), reports
     * whether any row hit a set pixel, and marks the buffer dirty (even when
     * h == 0). Memory is only read, so it is passed as a value.
     */
    method Draw(mem: seq<Byte>, i: Word, x: Byte, y: Byte, h: Byte) returns (hit: bool)
      requires Valid()
      requires Fits(x, y, h) && InMemory(|mem|, i, h)
      modifies this, buffer
      ensures Valid() && dirty
      ensures buffer[..] == Blit(old(buffer[..]), mem, i, x, y, h)
      ensures hit == Collides(old(buffer[..]), mem, i, x, y, h)
    {
      hit := DrawSprite(buffer, mem, i, x, y, h);
      dirty := true;
    }
  }

  /** The loop of draw over the sprite rows, on the buffer array alone. */
  method DrawSprite(buffer: array<bv8>, mem: seq<Byte>, i: Word, x: Byte, y: Byte, h: int) returns (hit: bool)
    requires buffer.Length == BufferSize
    requires 0 <= h < 256 && Fits(x, y, h) && InMemory(|mem|, i, h)
    modifies buffer
    ensures buffer[..] == Blit(old(buffer[..]), mem, i, x, y, h)
    ensures hit == Collides(old(buffer[..]), mem, i, x, y, h)
  {
    hit := false;
    var r := 0;
    while r < h
      invariant 0 <= r <= h && Fits(x, y, r) && InMemory(|mem|, i, r)
      invariant buffer[..] == Blit(old(buffer[..]), mem, i, x, y, r)
      invariant hit == Collides(old(buffer[..]), mem, i, x, y, r)
    {
      Prefix(mem, i, x, y, h, r + 1);
      hit := SpriteRow(buffer, mem, i, x, y, r, hit, old(buffer[..]));
      r := r + 1;
    }
  }

  /** Row r of the sprite: read its byte from memory, draw it, and fold its hit into `hit`. */
  method SpriteRow(buffer: array<bv8>, mem: seq<Byte>, i: Word, x: Byte, y: Byte, r: int, hit: bool, ghost start: seq<bv8>)
    returns (hit': bool)
    requires buffer.Length == BufferSize && |start| == BufferSize
    requires 0 <= r && Fits(x, y, r + 1) && InMemory(|mem|, i, r + 1)
    requires buffer[..] == Blit(start, mem, i, x, y, r)
    requires hit == Collides(start, mem, i, x, y, r)
    modifies buffer
    ensures buffer[..] == Blit(start, mem, i, x, y, r + 1)
    ensures hit' == Collides(start, mem, i, x, y, r + 1)
  {
    var pixel := Row(mem, i, r);
    var rowHit := XorRow(buffer, pixel, x, Offset(x, y, r));
    hit' := hit;
    if rowHit {
      hit' := true;
    }
  }

  /** One row: test for a hit, then XOR the row in (8-bit or 16-bit path). */
  method XorRow(buffer: array<bv8>, pixel: bv8, x: Byte, offset: int) returns (rowHit: bool)
    requires buffer.Length == BufferSize && 0 <= offset && offset + (if x % 8 == 0 then 0 else 1) < BufferSize
    modifies buffer
    ensures buffer[..] == DrawRow(old(buffer[..]), pixel, x, offset)
    ensures rowHit == RowHit(old(buffer[..]), pixel, x, offset)
  {
    var bit := x % 8;
    if bit == 0 {
      // process 8 pixels in 8-bit operation
      rowHit := HitByte(buffer, pixel, x, offset);
      XorByte(buffer, pixel, x, offset);
    } else {
      // process 8 pixels in 16-bit operation
      rowHit := HitPair(buffer, pixel, x, offset);
      XorPair(buffer, pixel, x, offset);
    }
  }

  /** The 8-bit collision test: the row overlaps set bits of its byte. */
  method HitByte(buffer: array<bv8>, pixel: bv8, x: Byte, offset: int) returns (rowHit: bool)
    requires buffer.Length == BufferSize && 0 <= offset < BufferSize && x % 8 == 0
    ensures rowHit == RowHit(buffer[..], pixel, x, offset)
  {
    rowHit := buffer[offset] & pixel != 0;
  }

  /** The 8-bit XOR of the row into its byte. */
  method XorByte(buffer: array<bv8>, pixel: bv8, x: Byte, offset: int)
    requires buffer.Length == BufferSize && 0 <= offset < BufferSize && x % 8 == 0
    modifies buffer
    ensures buffer[..] == DrawRow(old(buffer[..]), pixel, x, offset)
  {
    buffer[offset] := buffer[offset] ^ pixel;
  }

  /** The 16-bit collision test on the little-endian pair (buffer[offset], buffer[offset + 1]). */
  method HitPair(buffer: array<bv8>, pixel: bv8, x: Byte, offset: int) returns (rowHit: bool)
    requires buffer.Length == BufferSize && 0 <= offset && offset + 1 < BufferSize && x % 8 != 0
    ensures rowHit == RowHit(buffer[..], pixel, x, offset)
  {
    var lo, hi := buffer[offset], buffer[offset + 1];
    var bit := Shift(x);
    var dst := (hi as bv16 << 8) | lo as bv16;
    var src := (pixel as bv16) << bit;
    PairAndBytes(lo, hi, pixel, bit);
    assert RowHit(buffer[..], pixel, x, offset) == (lo & Low(pixel, bit) != 0 || hi & High(pixel, bit) != 0);
    rowHit := src & dst != 0;
  }

  /** The 16-bit XOR of the shifted row into the pair, written back byte by byte. */
  method XorPair(buffer: array<bv8>, pixel: bv8, x: Byte, offset: int)
    requires buffer.Length == BufferSize && 0 <= offset && offset + 1 < BufferSize && x % 8 != 0
    modifies buffer
    ensures buffer[..] == DrawRow(old(buffer[..]), pixel, x, offset)
  {
    var dst := (buffer[offset + 1] as bv16 << 8) | buffer[offset] as bv16;
    var src := (pixel as bv16) << Shift(x);
    var res := dst ^ src;
    PairXorBytes(buffer[offset], buffer[offset + 1], pixel, Shift(x));
    PairXorHighByte(buffer[offset], buffer[offset + 1], pixel, Shift(x));
    buffer[offset] := (res & 0xFF) as bv8;
    buffer[offset + 1] := (res >> 8) as bv8;
  }
}
