/**
  Geohash neighbour computation. A geohash of length L names a cell of a
  grid: each character is one of 32 symbols whose 5-bit index interleaves
  longitude and latitude bits. Odd levels (1, 3, ...) contribute 3 longitude
  bits and 2 latitude bits, even levels 2 longitude and 3 latitude bits, so
  inside one character the roles of x and y swap from level to level.

  `Neighbor` follows the recursive step of the source; `Row` and `Col` give
  the cell's coordinates in the whole grid of its level, and the lemmas
  below prove that a step of `Neighbor` is a step of one row or one column
  there (with longitude wrapping around, latitude not).
*/
module GeoHash {

  import opened Wrappers

  /** The geohash alphabet. */
  const Base32: string := "0123456789bcdefghjkmnpqrstuvwxyz"

  lemma Base32Distinct()
    ensures forall i, j :: 0 <= i < j < |Base32| ==> Base32[i] != Base32[j]
  {
    assert forall i :: 0 <= i < 31 ==> Base32[i] < Base32[i + 1];
    AscendingDistinct(Base32);
  }

  /** A string whose characters rise step by step has no repeated character. */
  lemma {:induction false} AscendingDistinct(s: string)
    requires forall i :: 0 <= i < |s| - 1 ==> s[i] < s[i + 1]
    ensures forall i, j :: 0 <= i < j < |s| ==> s[i] < s[j]
  {
    if |s| > 1 {
      var t := s[1..];
      AscendingDistinct(t);
      forall i, j | 0 <= i < j < |s|
        ensures s[i] < s[j]
      {
        if i == 0 && j > 1 {
          assert s[0] < t[0] < t[j - 1];
        } else if i > 0 {
          assert t[i - 1] < t[j - 1];
        }
      }
    }
  }

  /** String.indexOf(char): the first index of `c` in `s`, or -1 (IndexOfFinds). */
  function IndexOf(s: string, c: char): (i: int)
    ensures -1 <= i < |s|
  {
    if s == [] then -1
    else if s[0] == c then 0
    else
      var j := IndexOf(s[1..], c);
      if j == -1 then -1 else j + 1
  }

  lemma {:induction false} IndexOfFinds(s: string, c: char)
    ensures var i := IndexOf(s, c);
      && (0 <= i ==> s[i] == c && c !in s[..i])
      && (i == -1 <==> c !in s)
  {
    if s != [] && s[0] != c {
      IndexOfFinds(s[1..], c);
      assert s == [s[0]] + s[1..];
      var j := IndexOf(s[1..], c);
      if j != -1 {
        assert s[..j + 1] == [s[0]] + s[1..][..j];
      }
    }
  }

  lemma IndexOfBase32(i: int)
    requires 0 <= i < |Base32|
    ensures IndexOf(Base32, Base32[i]) == i
  {
    Base32Distinct();
    IndexOfFinds(Base32, Base32[i]);
    var k := IndexOf(Base32, Base32[i]);
    assert forall j :: 0 <= j < k ==> Base32[..k][j] == Base32[j];
  }

  /** Bit `k` of `n` in two's complement: Java's `(n >> k) & 1`. */
  function Bit(n: int, k: nat): (b: int)
    ensures 0 <= b <= 1
    decreases k
  {
    if k == 0 then n % 2 else Bit(n / 2, k - 1)
  }

  /** The five low bits of `n`, one step of Bit at a time. */
  lemma FiveBits(n: int)
    ensures Bit(n, 1) == (n / 2) % 2
    ensures Bit(n, 2) == ((n / 2) / 2) % 2
    ensures Bit(n, 3) == (((n / 2) / 2) / 2) % 2
    ensures Bit(n, 4) == ((((n / 2) / 2) / 2) / 2) % 2
  {
    assert Bit(n, 4) == Bit(n / 2, 3) == Bit((n / 2) / 2, 2) == Bit(((n / 2) / 2) / 2, 1);
    assert Bit(n, 3) == Bit(n / 2, 2) == Bit((n / 2) / 2, 1);
    assert Bit(n, 2) == Bit(n / 2, 1);
  }

  /**
    The symbol index encode(x, y) looks up: from the low bit up it holds bit 0
    of x, bit 0 of y, bit 1 of x, bit 1 of y and bit 2 of x; the other bits
    of x and y are masked away, so out-of-range coordinates wrap.
  */
  function CellIndex(x: int, y: int): (c: int)
    ensures 0 <= c < |Base32|
  {
    Bit(x, 0) + 2 * Bit(y, 0) + 4 * Bit(x, 1) + 8 * Bit(y, 1) + 16 * Bit(x, 2)
  }

  function Encode(x: int, y: int): char {
    Base32[CellIndex(x, y)]
  }

  /** Grid coordinates inside one character. */
  datatype Cell = Cell(x: int, y: int)

  /**
    The decoding at the top of neighbor: the symbol's index in the alphabet
    (String.indexOf) is split back into x (bits 0, 2, 4) and y (bits 1, 3).
    The alphabet is scanned from the start (DecodeIsIndexOf). A character
    outside the alphabet has index -1, all of whose bits are set: it decodes
    like 'z', the cell (7, 3) (DecodeOutsideAlphabet).
  */
  function DecodeCell(c: char): (p: Cell)
    ensures 0 <= p.x < 8 && 0 <= p.y < 4
  {
    DecodeFrom(c, 0)
  }

  /** The decoding of `c`, scanning the alphabet from position `i`. */
  function DecodeFrom(c: char, i: nat): (p: Cell)
    requires i <= |Base32|
    ensures 0 <= p.x < 8 && 0 <= p.y < 4
    decreases |Base32| - i
  {
    if i == |Base32| then CellOfIndex(-1)
    else if Base32[i] == c then CellOfIndex(i)
    else DecodeFrom(c, i + 1)
  }

  /** The x (bits 0, 2, 4) and y (bits 1, 3) of a symbol index. */
  function CellOfIndex(cell: int): (p: Cell)
    ensures 0 <= p.x < 8 && 0 <= p.y < 4
  {
    Cell(Bit(cell, 0) + 2 * Bit(cell, 2) + 4 * Bit(cell, 4), Bit(cell, 1) + 2 * Bit(cell, 3))
  }

  /** The position of `c` in the alphabet at or after `i`, or -1. */
  function ScanIndex(c: char, i: nat): (k: int)
    requires i <= |Base32|
    ensures k == -1 || i <= k < |Base32|
    decreases |Base32| - i
  {
    if i == |Base32| then -1
    else if Base32[i] == c then i
    else ScanIndex(c, i + 1)
  }

  lemma {:induction false} DecodeFromScan(c: char, i: nat)
    requires i <= |Base32|
    ensures DecodeFrom(c, i) == CellOfIndex(ScanIndex(c, i))
    decreases |Base32| - i
  {
    if i < |Base32| && Base32[i] != c {
      DecodeFromScan(c, i + 1);
    }
  }

  lemma {:induction false} ScanIsIndexOf(c: char, i: nat)
    requires i <= |Base32|
    ensures IndexOf(Base32[i..], c) == -1 ==> ScanIndex(c, i) == -1
    ensures IndexOf(Base32[i..], c) != -1 ==> ScanIndex(c, i) == IndexOf(Base32[i..], c) + i
    decreases |Base32| - i
  {
    if i == |Base32| {
      assert Base32[i..] == [];
    } else {
      IndexOfStep(Base32, c, i);
      if Base32[i] != c {
        ScanIsIndexOf(c, i + 1);
      }
    }
  }

  /** indexOf on a suffix, one character at a time. */
  lemma IndexOfStep(s: string, c: char, i: nat)
    requires i < |s|
    ensures IndexOf(s[i..], c) ==
      if s[i] == c then 0 else var j := IndexOf(s[i + 1..], c); if j == -1 then -1 else j + 1
  {
    assert s[i..][0] == s[i] && s[i..][1..] == s[i + 1..];
  }

  /** The decoding is the split of the symbol's indexOf in the alphabet. */
  lemma DecodeIsIndexOf(c: char)
    ensures DecodeCell(c) == CellOfIndex(IndexOf(Base32, c))
  {
    DecodeFromScan(c, 0);
    ScanIsIndexOf(c, 0);
    assert Base32[0..] == Base32;
    assert ScanIndex(c, 0) == IndexOf(Base32, c);
  }

  /** A character outside the alphabet decodes like 'z'. */
  lemma DecodeOutsideAlphabet(c: char)
    requires c !in Base32
    ensures DecodeCell(c) == Cell(7, 3)
  {
    DecodeIsIndexOf(c);
    IndexOfFinds(Base32, c);
  }

  lemma LowBits(n: int)
    ensures n % 4 == Bit(n, 0) + 2 * Bit(n, 1)
    ensures n % 8 == Bit(n, 0) + 2 * Bit(n, 1) + 4 * Bit(n, 2)
  {
    FiveBits(n);
  }

  lemma IndexBits(i: int)
    requires 0 <= i < 32
    ensures i == Bit(i, 0) + 2 * Bit(i, 1) + 4 * Bit(i, 2) + 8 * Bit(i, 3) + 16 * Bit(i, 4)
  {
    FiveBits(i);
  }

  lemma SmallBits(i: int, a: int, b: int, c: int, d: int, e: int)
    requires 0 <= a <= 1 && 0 <= b <= 1 && 0 <= c <= 1 && 0 <= d <= 1 && 0 <= e <= 1
    requires i == a + 2 * b + 4 * c + 8 * d + 16 * e
    ensures Bit(i, 0) == a && Bit(i, 1) == b && Bit(i, 2) == c && Bit(i, 3) == d && Bit(i, 4) == e
  {
    var h1, h2, h3 := b + 2 * c + 4 * d + 8 * e, c + 2 * d + 4 * e, d + 2 * e;
    Halve(i, a, h1);
    Halve(h1, b, h2);
    Halve(h2, c, h3);
    Halve(h3, d, e);
    assert Bit(i, 1) == Bit(h1, 0);
    assert Bit(i, 2) == Bit(h1, 1) == Bit(h2, 0);
    assert Bit(i, 3) == Bit(h1, 2) == Bit(h2, 1) == Bit(h3, 0);
    assert Bit(i, 4) == Bit(h1, 3) == Bit(h2, 2) == Bit(h3, 1) == Bit(e, 0);
  }

  /** Halving a number drops its low bit. */
  lemma Halve(n: int, low: int, high: int)
    requires 0 <= low <= 1 && n == low + 2 * high
    ensures n % 2 == low && n / 2 == high
  {
  }

  /** Decoding inverts encode: encode(x, y) decodes to x modulo 8 and y modulo 4. */
  lemma DecodeEncode(x: int, y: int)
    ensures DecodeCell(Encode(x, y)) == Cell(x % 8, y % 4)
  {
    var i := CellIndex(x, y);
    DecodeIsIndexOf(Encode(x, y));
    IndexOfBase32(i);
    SmallBits(i, Bit(x, 0), Bit(y, 0), Bit(x, 1), Bit(y, 1), Bit(x, 2));
    LowBits(x);
    LowBits(y);
  }

  /** Encoding inverts decoding on the alphabet. */
  lemma EncodeDecode(c: char)
    requires c in Base32
    ensures Encode(DecodeCell(c).x, DecodeCell(c).y) == c
  {
    IndexOfFinds(Base32, c);
    var i := IndexOf(Base32, c);
    DecodeIsIndexOf(c);
    var p := DecodeCell(c);
    assert p == CellOfIndex(i);
    IndexBits(i);
    SmallBits(p.x, Bit(i, 0), Bit(i, 2), Bit(i, 4), 0, 0);
    SmallBits(p.y, Bit(i, 1), Bit(i, 3), 0, 0, 0);
    assert CellIndex(p.x, p.y) == i;
  }

  /**
    neighbor(geohash, level, dx, dy): the cell next to the one named by the
    first `level` characters, one step of dx in longitude and dy in latitude,
    or None (the source's null) where the step leaves the grid to the north
    or south. The step is taken in the last character and carried to the
    prefix when it leaves the parent cell.
  */
  function Neighbor(geohash: string, level: nat, dx: int, dy: int): (r: Option<string>)
    requires 1 <= level <= |geohash|
    requires -1 <= dx <= 1 && -1 <= dy <= 1
    ensures r.Some? ==> |r.value| == level
    ensures dy == 0 ==> r.Some?
    decreases level
  {
    var p := DecodeCell(geohash[level - 1]);
    if level == 1 then
      if (dy < 0 && p.y == 0) || (dy > 0 && p.y == 3) then None
      else Some([Encode(p.x + dx, p.y + dy)])
    else
      var nx := if level % 2 == 1 then p.x + dx else p.x + dy;
      var ny := if level % 2 == 1 then p.y + dy else p.y + dx;
      if 0 <= nx <= 7 && 0 <= ny <= 3 then
        Some(geohash[..level - 1] + [Encode(nx, ny)])
      else
        match Neighbor(geohash, level - 1, dx, dy)
        case Some(n) => Some(n + [Encode(nx, ny)])
        case None => None
  }

  // ---------------------------------------------------------------------
  // Coordinates in the grid of a level
  // ---------------------------------------------------------------------

  function LatRadix(level: nat): nat {
    if level % 2 == 1 then 4 else 8
  }

  function LonRadix(level: nat): nat {
    if level % 2 == 1 then 8 else 4
  }

  /** The latitude digit of a character at `level`: y on odd levels, x on even ones. */
  function LatDigit(c: char, level: nat): int {
    if level % 2 == 1 then DecodeCell(c).y else DecodeCell(c).x
  }

  function LonDigit(c: char, level: nat): int {
    if level % 2 == 1 then DecodeCell(c).x else DecodeCell(c).y
  }

  /** The number of rows (latitude bands) of the grid at `level`. */
  function Rows(level: nat): (n: nat)
    ensures n >= 1
  {
    if level == 0 then 1 else if level % 2 == 1 then Rows(level - 1) * 4 else Rows(level - 1) * 8
  }

  /** The number of columns (longitude bands) of the grid at `level`. */
  function Cols(level: nat): (n: nat)
    ensures n >= 1
  {
    if level == 0 then 1 else if level % 2 == 1 then Cols(level - 1) * 8 else Cols(level - 1) * 4
  }

  /** The row, counted from the south, of the cell named by the first `level` characters. */
  function Row(g: string, level: nat): (r: int)
    requires level <= |g|
    ensures 0 <= r < Rows(level)
  {
    if level == 0 then 0
    else
      var r := (if level % 2 == 1 then Row(g, level - 1) * 4 else Row(g, level - 1) * 8) + LatDigit(g[level - 1], level);
      assert r < Rows(level) by {
        if level % 2 == 1 {
          assert r <= (Rows(level - 1) - 1) * 4 + 3;
        } else {
          assert r <= (Rows(level - 1) - 1) * 8 + 7;
        }
      }
      r
  }

  /** The column, counted from the west, of the cell named by the first `level` characters. */
  function Col(g: string, level: nat): (c: int)
    requires level <= |g|
    ensures 0 <= c < Cols(level)
  {
    if level == 0 then 0
    else
      var c := (if level % 2 == 1 then Col(g, level - 1) * 8 else Col(g, level - 1) * 4) + LonDigit(g[level - 1], level);
      assert c < Cols(level) by {
        if level % 2 == 1 {
          assert c <= (Cols(level - 1) - 1) * 8 + 7;
        } else {
          assert c <= (Cols(level - 1) - 1) * 4 + 3;
        }
      }
      c
  }

  /** The coordinates depend only on the first `level` characters. */
  lemma {:induction false} CoordsOfPrefix(g: string, h: string, level: nat)
    requires level <= |g| && level <= |h| && g[..level] == h[..level]
    ensures Row(g, level) == Row(h, level) && Col(g, level) == Col(h, level)
  {
    if level > 0 {
      assert g[..level - 1] == g[..level][..level - 1];
      assert h[..level - 1] == h[..level][..level - 1];
      assert g[level - 1] == g[..level][level - 1];
      assert h[level - 1] == h[..level][level - 1];
      CoordsOfPrefix(g, h, level - 1);
    }
  }

  /** The coordinates of a cell extended by one character. */
  lemma CoordsOfAppend(prefix: string, ch: char, level: nat)
    requires 1 <= level && |prefix| == level - 1
    ensures Row(prefix + [ch], level) ==
      (if level % 2 == 1 then Row(prefix, level - 1) * 4 else Row(prefix, level - 1) * 8) + LatDigit(ch, level)
    ensures Col(prefix + [ch], level) ==
      (if level % 2 == 1 then Col(prefix, level - 1) * 8 else Col(prefix, level - 1) * 4) + LonDigit(ch, level)
  {
    var g := prefix + [ch];
    assert g[..level - 1] == prefix[..level - 1];
    CoordsOfPrefix(g, prefix, level - 1);
    assert g[level - 1] == ch;
  }

  /** Whether a step stays inside the parent cell depends on the digit it moves. */
  lemma InsideDigits(c: char, level: nat, dx: int, dy: int)
    requires (dx == 0 && -1 <= dy <= 1) || (dy == 0 && -1 <= dx <= 1)
    ensures dy == 0 ==> (Inside(c, level, dx, dy) <==> 0 <= LonDigit(c, level) + dx < LonRadix(level))
    ensures dx == 0 ==> (Inside(c, level, dx, dy) <==> 0 <= LatDigit(c, level) + dy < LatRadix(level))
  {
  }

  /** `c` brought back into 0..n-1 after a step of one around a circle of `n` positions. */
  function Wrap(c: int, n: int): int {
    if c < 0 then c + n else if c >= n then c - n else c
  }

  /** The character neighbor writes at `level`: the decoded cell moved by dx in longitude and dy in latitude. */
  function Stepped(c: char, level: nat, dx: int, dy: int): char {
    Encode(SteppedX(c, level, dx, dy), SteppedY(c, level, dx, dy))
  }

  function SteppedX(c: char, level: nat, dx: int, dy: int): int {
    var p := DecodeCell(c);
    if level % 2 == 1 then p.x + dx else p.x + dy
  }

  function SteppedY(c: char, level: nat, dx: int, dy: int): int {
    var p := DecodeCell(c);
    if level % 2 == 1 then p.y + dy else p.y + dx
  }

  /** DecodeEncode for coordinates at most one step outside the character's grid. */
  lemma DecodeStep(a: int, b: int)
    requires -1 <= a <= 8 && -1 <= b <= 4
    ensures DecodeCell(Encode(a, b)) == Cell(Wrap(a, 8), Wrap(b, 4))
  {
    WrapIsMod(a, 8);
    WrapIsMod(b, 4);
    DecodeEncode(a, b);
  }

  lemma WrapIsMod(a: int, n: int)
    requires n > 0 && -n <= a < 2 * n
    ensures Wrap(a, n) == a % n
  {
  }

  lemma SteppedDigits(c: char, level: nat, dx: int, dy: int)
    requires -1 <= dx <= 1 && -1 <= dy <= 1
    ensures LonDigit(Stepped(c, level, dx, dy), level) == Wrap(LonDigit(c, level) + dx, LonRadix(level))
    ensures LatDigit(Stepped(c, level, dx, dy), level) == Wrap(LatDigit(c, level) + dy, LatRadix(level))
  {
    DecodeStep(SteppedX(c, level, dx, dy), SteppedY(c, level, dx, dy));
  }

  lemma NeighborInside(g: string, level: nat, dx: int, dy: int)
    requires 1 < level <= |g|
    requires -1 <= dx <= 1 && -1 <= dy <= 1
    requires Inside(g[level - 1], level, dx, dy)
    ensures Neighbor(g, level, dx, dy) == Some(g[..level - 1] + [Stepped(g[level - 1], level, dx, dy)])
  {
  }

  lemma NeighborCarry(g: string, level: nat, dx: int, dy: int)
    requires 1 < level <= |g|
    requires -1 <= dx <= 1 && -1 <= dy <= 1
    requires !Inside(g[level - 1], level, dx, dy)
    ensures Neighbor(g, level, dx, dy) ==
      match Neighbor(g, level - 1, dx, dy)
      case Some(n) => Some(n + [Stepped(g[level - 1], level, dx, dy)])
      case None => None
  {
  }

  /** The step stays inside the parent cell. */
  predicate Inside(c: char, level: nat, dx: int, dy: int) {
    0 <= LonDigit(c, level) + dx < LonRadix(level) && 0 <= LatDigit(c, level) + dy < LatRadix(level)
  }

  /** At level 1 the character neighbor writes is the stepped one. */
  lemma SteppedAtTop(c: char, dx: int, dy: int)
    ensures Stepped(c, 1, dx, dy) == Encode(DecodeCell(c).x + dx, DecodeCell(c).y + dy)
  {
    assert SteppedX(c, 1, dx, dy) == DecodeCell(c).x + dx;
    assert SteppedY(c, 1, dx, dy) == DecodeCell(c).y + dy;
  }

  /** Carrying a column step out of the last digit, for either radix. */
  lemma CarryAcross(prev: int, prevNew: int, cols: int, radix: int, d: int, dx: int)
    requires radix == 4 || radix == 8
    requires 0 <= prev < cols && 0 <= d < radix && (dx == -1 || dx == 1)
    requires prevNew == if 0 <= d + dx < radix then prev else Wrap(prev + dx, cols)
    ensures prevNew * radix + Wrap(d + dx, radix) == Wrap(prev * radix + d + dx, cols * radix)
  {
    if radix == 4 {
    } else {
    }
  }

  /** Carrying a row step out of the last digit, for either radix; it leaves the grid only if the prefix's step does. */
  lemma CarryAlong(prev: int, rows: int, radix: int, d: int, dy: int)
    requires radix == 4 || radix == 8
    requires 0 <= prev < rows && 0 <= d < radix && (dy == -1 || dy == 1)
    ensures (0 <= d + dy < radix ==> prev * radix + Wrap(d + dy, radix) == prev * radix + d + dy)
    ensures (!(0 <= d + dy < radix) ==> (prev + dy) * radix + Wrap(d + dy, radix) == prev * radix + d + dy)
    ensures (0 <= prev * radix + d + dy < rows * radix) <==> (0 <= d + dy < radix || 0 <= prev + dy < rows)
  {
    if radix == 4 {
    } else {
    }
  }

  /** An east-west step at the first level is the stepped character. */
  lemma AcrossTop(g: string, dx: int)
    requires 1 <= |g| && (dx == -1 || dx == 1)
    ensures Neighbor(g, 1, dx, 0) == Some([Stepped(g[0], 1, dx, 0)])
  {
    SteppedAtTop(g[0], dx, 0);
  }

  /** A north-south step at the first level is the stepped character, or nothing beyond a pole. */
  lemma AlongTop(g: string, dy: int)
    requires 1 <= |g| && (dy == -1 || dy == 1)
    ensures Neighbor(g, 1, 0, dy) == if Inside(g[0], 1, 0, dy) then Some([Stepped(g[0], 1, 0, dy)]) else None
  {
    SteppedAtTop(g[0], 0, dy);
  }

  /**
    The prefix neighbor puts before the stepped character of an east-west
    step: nothing at the first level, the cell's own parent when the step
    stays inside it, and the parent's step otherwise.
  */
  function AcrossPrefixOf(g: string, level: nat, dx: int): (p: string)
    requires 1 <= level <= |g| && (dx == -1 || dx == 1)
    ensures |p| == level - 1
  {
    if level == 1 then []
    else if Inside(g[level - 1], level, dx, 0) then g[..level - 1]
    else Neighbor(g, level - 1, dx, 0).value
  }

  /** An east-west step is its prefix followed by the stepped character. */
  lemma AcrossShape(g: string, level: nat, dx: int)
    requires 1 <= level <= |g| && (dx == -1 || dx == 1)
    ensures Neighbor(g, level, dx, 0) == Some(AcrossPrefixOf(g, level, dx) + [Stepped(g[level - 1], level, dx, 0)])
  {
    if level == 1 {
      AcrossTop(g, dx);
      assert [] + [Stepped(g[0], 1, dx, 0)] == [Stepped(g[0], 1, dx, 0)];
    } else if Inside(g[level - 1], level, dx, 0) {
      NeighborInside(g, level, dx, 0);
    } else {
      NeighborCarry(g, level, dx, 0);
    }
  }

  /**
    The coordinates of the prefix of an east-west step: the parent's row,
    and the parent's column when the step stays inside the parent, the
    column next to it otherwise.
  */
  lemma {:induction false} AcrossPrefixCoords(g: string, level: nat, dx: int)
    requires 1 <= level <= |g| && (dx == -1 || dx == 1)
    ensures Row(AcrossPrefixOf(g, level, dx), level - 1) == Row(g, level - 1)
    ensures Col(AcrossPrefixOf(g, level, dx), level - 1) ==
      if Inside(g[level - 1], level, dx, 0) then Col(g, level - 1) else Wrap(Col(g, level - 1) + dx, Cols(level - 1))
    decreases level, 2
  {
    if level == 1 {
      assert Col(g, 0) == 0 && Cols(0) == 1;
      assert Wrap(Col(g, 0) + dx, Cols(0)) == 0;
    } else {
      if Inside(g[level - 1], level, dx, 0) {
        AcrossPrefixInside(g, level, dx);
      } else {
        AcrossPrefixCarry(g, level, dx);
      }
    }
  }

  /** When an east-west step stays inside the parent cell, its prefix is the parent. */
  lemma AcrossPrefixInside(g: string, level: nat, dx: int)
    requires 2 <= level <= |g| && (dx == -1 || dx == 1)
    requires Inside(g[level - 1], level, dx, 0)
    ensures Row(AcrossPrefixOf(g, level, dx), level - 1) == Row(g, level - 1)
    ensures Col(AcrossPrefixOf(g, level, dx), level - 1) == Col(g, level - 1)
  {
    assert AcrossPrefixOf(g, level, dx) == g[..level - 1];
    CoordsOfPrefix(g, g[..level - 1], level - 1);
  }

  /** When an east-west step leaves the parent cell, its prefix is the parent's own step. */
  lemma {:induction false} AcrossPrefixCarry(g: string, level: nat, dx: int)
    requires 2 <= level <= |g| && (dx == -1 || dx == 1)
    requires !Inside(g[level - 1], level, dx, 0)
    ensures Row(AcrossPrefixOf(g, level, dx), level - 1) == Row(g, level - 1)
    ensures Col(AcrossPrefixOf(g, level, dx), level - 1) == Wrap(Col(g, level - 1) + dx, Cols(level - 1))
    decreases level, 1
  {
    ParentStepCoords(g, level - 1, dx);
  }

  /** The coordinates of the parent's step, for a parent of length k. */
  lemma {:induction false} ParentStepCoords(g: string, k: nat, dx: int)
    requires 1 <= k < |g| && (dx == -1 || dx == 1)
    requires !Inside(g[k], k + 1, dx, 0)
    ensures Row(AcrossPrefixOf(g, k + 1, dx), k) == Row(g, k)
    ensures Col(AcrossPrefixOf(g, k + 1, dx), k) == Wrap(Col(g, k) + dx, Cols(k))
    decreases k + 1, 0
  {
    StepAcross(g, k, dx);
  }

  /** The column of an east-west step, given the column of its prefix and its moved digit. */
  lemma AcrossColumn(g: string, prefixCol: int, level: nat, dx: int, digit: int)
    requires 1 <= level <= |g| && (dx == -1 || dx == 1)
    requires prefixCol ==
      if Inside(g[level - 1], level, dx, 0) then Col(g, level - 1) else Wrap(Col(g, level - 1) + dx, Cols(level - 1))
    requires digit == Wrap(LonDigit(g[level - 1], level) + dx, LonRadix(level))
    ensures (if level % 2 == 1 then prefixCol * 8 else prefixCol * 4) + digit == Wrap(Col(g, level) + dx, Cols(level))
  {
    InsideDigits(g[level - 1], level, dx, 0);
    var d := LonDigit(g[level - 1], level);
    if level % 2 == 1 {
      assert Col(g, level) == Col(g, level - 1) * 8 + d && Cols(level) == Cols(level - 1) * 8;
      CarryAcross(Col(g, level - 1), prefixCol, Cols(level - 1), 8, d, dx);
    } else {
      assert Col(g, level) == Col(g, level - 1) * 4 + d && Cols(level) == Cols(level - 1) * 4;
      CarryAcross(Col(g, level - 1), prefixCol, Cols(level - 1), 4, d, dx);
    }
  }

  /** The row of an east-west step, given that of its prefix: unchanged. */
  lemma AcrossRowOf(g: string, prefix: string, level: nat, dx: int)
    requires 1 <= level <= |g| && (dx == -1 || dx == 1) && |prefix| == level - 1
    requires Row(prefix, level - 1) == Row(g, level - 1)
    ensures Row(prefix + [Stepped(g[level - 1], level, dx, 0)], level) == Row(g, level)
  {
    var c := g[level - 1];
    var s := Stepped(c, level, dx, 0);
    SteppedDigits(c, level, dx, 0);
    CoordsOfAppend(prefix, s, level);
    assert LatDigit(s, level) == LatDigit(c, level);
  }

  /** The column of an east-west step, given that of its prefix: moved by dx, wrapping. */
  lemma AcrossColOf(g: string, prefix: string, level: nat, dx: int)
    requires 1 <= level <= |g| && (dx == -1 || dx == 1) && |prefix| == level - 1
    requires Col(prefix, level - 1) ==
      if Inside(g[level - 1], level, dx, 0) then Col(g, level - 1) else Wrap(Col(g, level - 1) + dx, Cols(level - 1))
    ensures Col(prefix + [Stepped(g[level - 1], level, dx, 0)], level) == Wrap(Col(g, level) + dx, Cols(level))
  {
    var c := g[level - 1];
    var s := Stepped(c, level, dx, 0);
    SteppedDigits(c, level, dx, 0);
    CoordsOfAppend(prefix, s, level);
    AcrossColumn(g, Col(prefix, level - 1), level, dx, LonDigit(s, level));
  }

  /**
    An east-west step never fails; it keeps the row and moves the column by
    dx, wrapping around the grid.
  */
  lemma {:induction false} StepAcross(g: string, level: nat, dx: int)
    requires 1 <= level <= |g| && (dx == -1 || dx == 1)
    ensures Neighbor(g, level, dx, 0).Some?
    ensures Row(Neighbor(g, level, dx, 0).value, level) == Row(g, level)
    ensures Col(Neighbor(g, level, dx, 0).value, level) == Wrap(Col(g, level) + dx, Cols(level))
    decreases level, 3
  {
    AcrossPrefixCoords(g, level, dx);
    AcrossShape(g, level, dx);
    AcrossRowOf(g, AcrossPrefixOf(g, level, dx), level, dx);
    AcrossColOf(g, AcrossPrefixOf(g, level, dx), level, dx);
  }

  /**
    How neighbor builds a north-south step at `level` from the step at
    `level - 1`: the prefix is the cell's own parent when the step stays
    inside it, the parent's step otherwise, and missing when that fails.
  */
  lemma AlongPrefix(g: string, level: nat, dy: int) returns (prefix: Option<string>)
    requires 1 <= level <= |g| && (dy == -1 || dy == 1)
    requires level > 1 ==>
      && (Neighbor(g, level - 1, 0, dy).Some? <==> 0 <= Row(g, level - 1) + dy < Rows(level - 1))
      && (Neighbor(g, level - 1, 0, dy).Some? ==>
            && Row(Neighbor(g, level - 1, 0, dy).value, level - 1) == Row(g, level - 1) + dy
            && Col(Neighbor(g, level - 1, 0, dy).value, level - 1) == Col(g, level - 1))
    ensures prefix.Some? <==> Inside(g[level - 1], level, 0, dy) || 0 <= Row(g, level - 1) + dy < Rows(level - 1)
    ensures Neighbor(g, level, 0, dy) ==
      if prefix.Some? then Some(prefix.value + [Stepped(g[level - 1], level, 0, dy)]) else None
    ensures prefix.Some? ==>
      && |prefix.value| == level - 1
      && Col(prefix.value, level - 1) == Col(g, level - 1)
      && Row(prefix.value, level - 1) == Row(g, level - 1) + if Inside(g[level - 1], level, 0, dy) then 0 else dy
  {
    if level == 1 {
      AlongTop(g, dy);
      prefix := if Inside(g[0], 1, 0, dy) then Some([]) else None;
      assert [] + [Stepped(g[0], 1, 0, dy)] == [Stepped(g[0], 1, 0, dy)];
    } else if Inside(g[level - 1], level, 0, dy) {
      NeighborInside(g, level, 0, dy);
      prefix := Some(g[..level - 1]);
      CoordsOfPrefix(g, prefix.value, level - 1);
    } else {
      NeighborCarry(g, level, 0, dy);
      prefix := Neighbor(g, level - 1, 0, dy);
    }
  }

  /** The coordinates of a north-south step, given those of its prefix. */
  lemma AlongCoords(g: string, prefix: Option<string>, level: nat, dy: int)
    requires 1 <= level <= |g| && (dy == -1 || dy == 1)
    requires prefix.Some? <==> Inside(g[level - 1], level, 0, dy) || 0 <= Row(g, level - 1) + dy < Rows(level - 1)
    requires prefix.Some? ==>
      && |prefix.value| == level - 1
      && Col(prefix.value, level - 1) == Col(g, level - 1)
      && Row(prefix.value, level - 1) == Row(g, level - 1) + if Inside(g[level - 1], level, 0, dy) then 0 else dy
    ensures prefix.Some? <==> 0 <= Row(g, level) + dy < Rows(level)
    ensures prefix.Some? ==> Row(prefix.value + [Stepped(g[level - 1], level, 0, dy)], level) == Row(g, level) + dy
    ensures prefix.Some? ==> Col(prefix.value + [Stepped(g[level - 1], level, 0, dy)], level) == Col(g, level)
  {
    var c := g[level - 1];
    var ch := Stepped(c, level, 0, dy);
    SteppedDigits(c, level, 0, dy);
    InsideDigits(c, level, 0, dy);
    if level % 2 == 1 {
      CarryAlong(Row(g, level - 1), Rows(level - 1), 4, LatDigit(c, level), dy);
    } else {
      CarryAlong(Row(g, level - 1), Rows(level - 1), 8, LatDigit(c, level), dy);
    }
    if prefix.Some? {
      CoordsOfAppend(prefix.value, ch, level);
    }
  }

  /**
    A north-south step fails exactly when it would leave the grid; otherwise
    it moves the row by dy and keeps the column.
  */
  lemma {:induction false} StepAlong(g: string, level: nat, dy: int)
    requires 1 <= level <= |g| && (dy == -1 || dy == 1)
    ensures Neighbor(g, level, 0, dy).Some? <==> 0 <= Row(g, level) + dy < Rows(level)
    ensures Neighbor(g, level, 0, dy).Some? ==> Row(Neighbor(g, level, 0, dy).value, level) == Row(g, level) + dy
    ensures Neighbor(g, level, 0, dy).Some? ==> Col(Neighbor(g, level, 0, dy).value, level) == Col(g, level)
    decreases level
  {
    var prefix: Option<string>;
    if level > 1 {
      StepAlong(g, level - 1, dy);
      prefix := AlongPrefix(g, level, dy);
    } else {
      prefix := AlongPrefix(g, level, dy);
    }
    AlongCoords(g, prefix, level, dy);
  }

  // ---------------------------------------------------------------------
  // addNeighbors and neighbors
  // ---------------------------------------------------------------------

  /** The west neighbour, the cell itself and the east neighbour. */
  function Band(center: string, level: nat): seq<string>
    requires 1 <= level <= |center|
  {
    [Neighbor(center, level, -1, 0).value, center, Neighbor(center, level, 1, 0).value]
  }

  /**
    The cells addNeighbors adds, in order: north-west, north and north-east
    when there is a row to the north, then west and east, then south-west,
    south and south-east when there is a row to the south.
  */
  function NeighborsOf(geohash: string, level: nat): seq<string>
    requires 1 <= level <= |geohash|
  {
    var south := Neighbor(geohash, level, 0, -1);
    var north := Neighbor(geohash, level, 0, 1);
    (if north.Some? then Band(north.value, level) else [])
    + [Neighbor(geohash, level, -1, 0).value, Neighbor(geohash, level, 1, 0).value]
    + (if south.Some? then Band(south.value, level) else [])
  }

  /** A step of rows and columns from a cell. */
  datatype Offset = Offset(dRow: int, dCol: int)

  /** The steps to the surrounding cells, in the order addNeighbors adds them, for a cell in row `row` of `rows`. */
  function Offsets(row: int, rows: int): seq<Offset> {
    (if row + 1 < rows then [Offset(1, -1), Offset(1, 0), Offset(1, 1)] else [])
    + [Offset(0, -1), Offset(0, 1)]
    + (if row > 0 then [Offset(-1, -1), Offset(-1, 0), Offset(-1, 1)] else [])
  }

  /** `cell` lies at offset `off` from the cell at (`row`, `col`) of the grid at `level`. */
  ghost predicate At(cell: string, off: Offset, level: nat, row: int, col: int) {
    && |cell| == level
    && Row(cell, level) == row + off.dRow
    && Col(cell, level) == Wrap(col + off.dCol, Cols(level))
  }

  /** Each of `cells` lies at the matching offset from the cell at (`row`, `col`) of the grid at `level`. */
  ghost predicate Placed(cells: seq<string>, offs: seq<Offset>, level: nat, row: int, col: int) {
    && |cells| == |offs|
    && forall i :: 0 <= i < |cells| ==> At(cells[i], offs[i], level, row, col)
  }

  lemma PlacedAppend(a: seq<string>, oa: seq<Offset>, b: seq<string>, ob: seq<Offset>, level: nat, row: int, col: int)
    requires Placed(a, oa, level, row, col) && Placed(b, ob, level, row, col)
    ensures Placed(a + b, oa + ob, level, row, col)
  {
    forall i | 0 <= i < |a + b|
      ensures At((a + b)[i], (oa + ob)[i], level, row, col)
    {
      if i >= |a| {
        assert (a + b)[i] == b[i - |a|] && (oa + ob)[i] == ob[i - |a|];
      }
    }
  }

  lemma PlacedPair(a: string, oa: Offset, b: string, ob: Offset, level: nat, row: int, col: int)
    requires At(a, oa, level, row, col) && At(b, ob, level, row, col)
    ensures Placed([a, b], [oa, ob], level, row, col)
  {
  }

  /** The west and east neighbours of a cell lie one column either side of it, in its row. */
  lemma AcrossPlaced(g: string, level: nat)
    requires 1 <= level <= |g|
    ensures Placed([Neighbor(g, level, -1, 0).value, Neighbor(g, level, 1, 0).value],
                   [Offset(0, -1), Offset(0, 1)], level, Row(g, level), Col(g, level))
  {
    StepAcross(g, level, -1);
    StepAcross(g, level, 1);
    PlacedPair(Neighbor(g, level, -1, 0).value, Offset(0, -1), Neighbor(g, level, 1, 0).value, Offset(0, 1),
               level, Row(g, level), Col(g, level));
  }

  /** The band around a cell dRow rows from (row, col), in the same column. */
  lemma BandPlaced(center: string, level: nat, row: int, col: int, dRow: int)
    requires 1 <= level == |center|
    requires Row(center, level) == row + dRow && Col(center, level) == col
    ensures Placed(Band(center, level), [Offset(dRow, -1), Offset(dRow, 0), Offset(dRow, 1)], level, row, col)
  {
    SideAt(center, level, row, col, dRow, -1);
    SideAt(center, level, row, col, dRow, 1);
    assert At(center, Offset(dRow, 0), level, row, col);
    PlacedTriple(Neighbor(center, level, -1, 0).value, center, Neighbor(center, level, 1, 0).value, dRow, level, row, col);
  }

  /** The east or west neighbour of a cell dRow rows from (row, col) lies at (dRow, dx) from it. */
  lemma SideAt(center: string, level: nat, row: int, col: int, dRow: int, dx: int)
    requires 1 <= level == |center| && (dx == -1 || dx == 1)
    requires Row(center, level) == row + dRow && Col(center, level) == col
    ensures At(Neighbor(center, level, dx, 0).value, Offset(dRow, dx), level, row, col)
  {
    StepAcross(center, level, dx);
  }

  lemma PlacedTriple(a: string, b: string, c: string, dRow: int, level: nat, row: int, col: int)
    requires At(a, Offset(dRow, -1), level, row, col)
    requires At(b, Offset(dRow, 0), level, row, col)
    requires At(c, Offset(dRow, 1), level, row, col)
    ensures Placed([a, b, c], [Offset(dRow, -1), Offset(dRow, 0), Offset(dRow, 1)], level, row, col)
  {
  }

  /**
    The cells addNeighbors adds are exactly the cells around the given one,
    in the order of Offsets: the i-th lies dRow rows and (wrapping) dCol
    columns away, and rows beyond the poles are left out.
  */
  lemma NeighborsAreSurroundingCells(g: string, level: nat)
    requires 1 <= level <= |g|
    ensures Placed(NeighborsOf(g, level), Offsets(Row(g, level), Rows(level)), level, Row(g, level), Col(g, level))
  {
    var row, col := Row(g, level), Col(g, level);
    var north := Neighbor(g, level, 0, 1);
    var south := Neighbor(g, level, 0, -1);
    StepAlong(g, level, 1);
    StepAlong(g, level, -1);
    var top: seq<string> := [];
    var topOffs: seq<Offset> := [];
    if north.Some? {
      BandPlaced(north.value, level, row, col, 1);
      top, topOffs := Band(north.value, level), [Offset(1, -1), Offset(1, 0), Offset(1, 1)];
    }
    var bottom: seq<string> := [];
    var bottomOffs: seq<Offset> := [];
    if south.Some? {
      BandPlaced(south.value, level, row, col, -1);
      bottom, bottomOffs := Band(south.value, level), [Offset(-1, -1), Offset(-1, 0), Offset(-1, 1)];
    }
    var mid := [Neighbor(g, level, -1, 0).value, Neighbor(g, level, 1, 0).value];
    var midOffs := [Offset(0, -1), Offset(0, 1)];
    AcrossPlaced(g, level);
    PlacedAppend(top, topOffs, mid, midOffs, level, row, col);
    PlacedAppend(top + mid, topOffs + midOffs, bottom, bottomOffs, level, row, col);
    assert NeighborsOf(g, level) == top + mid + bottom;
    assert Offsets(row, Rows(level)) == topOffs + midOffs + bottomOffs;
  }

  /** A collection of geohashes that addNeighbors appends to (an ArrayList). */
  class GeohashList {
    var items: seq<string>

    constructor ()
      ensures items == []
    {
      items := [];
    }

    method Add(s: string)
      modifies this
      ensures items == old(items) + [s]
    {
      items := items + [s];
    }
  }

  lemma AppendAssoc(a: seq<string>, b: seq<string>, c: seq<string>, d: seq<string>)
    ensures a + b + c + d == a + (b + c + d)
  {
  }

  /** Appends the west neighbour of `center`, `center` itself and its east neighbour. */
  method AddBand(center: string, length: nat, neighbors: GeohashList)
    requires 1 <= length <= |center|
    modifies neighbors
    ensures neighbors.items == old(neighbors.items) + Band(center, length)
  {
    neighbors.Add(Neighbor(center, length, -1, 0).value);
    neighbors.Add(center);
    neighbors.Add(Neighbor(center, length, 1, 0).value);
  }

  /**
    addNeighbors(geohash, length, neighbors): appends the cells around the
    cell named by the first `length` characters. A length outside
    1..|geohash| makes the first lookup of a character fail before anything
    is added; `ok` is false then.
  */
  method AddNeighbors(geohash: string, length: int, neighbors: GeohashList) returns (ok: bool)
    modifies neighbors
    ensures ok <==> 1 <= length <= |geohash|
    ensures ok ==> neighbors.items == old(neighbors.items) + NeighborsOf(geohash, length)
    ensures !ok ==> neighbors.items == old(neighbors.items)
  {
    if !(1 <= length <= |geohash|) {
      return false;
    }
    var south := Neighbor(geohash, length, 0, -1);
    var north := Neighbor(geohash, length, 0, 1);
    ghost var start := neighbors.items;
    if north.Some? {
      AddBand(north.value, length, neighbors);
    }
    ghost var top := if north.Some? then Band(north.value, length) else [];
    assert neighbors.items == start + top;
    neighbors.Add(Neighbor(geohash, length, -1, 0).value);
    neighbors.Add(Neighbor(geohash, length, 1, 0).value);
    ghost var mid := [Neighbor(geohash, length, -1, 0).value, Neighbor(geohash, length, 1, 0).value];
    assert neighbors.items == start + top + mid;
    if south.Some? {
      AddBand(south.value, length, neighbors);
    }
    ghost var bottom := if south.Some? then Band(south.value, length) else [];
    assert neighbors.items == start + top + mid + bottom;
    assert NeighborsOf(geohash, length) == top + mid + bottom;
    AppendAssoc(start, top, mid, bottom);
    ok := true;
  }

  /** neighbors(geohash): the cells around the whole geohash, in a new list; an empty geohash fails. */
  method Neighbors(geohash: string) returns (r: Result<seq<string>>)
    ensures r.Success? <==> geohash != []
    ensures r.Success? ==> r.value == NeighborsOf(geohash, |geohash|)
  {
    var list := new GeohashList();
    var ok := AddNeighbors(geohash, |geohash|, list);
    if ok {
      r := Success(list.items);
    } else {
      r := Failure("StringIndexOutOfBoundsException");
    }
  }
}
