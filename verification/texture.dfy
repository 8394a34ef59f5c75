/** The pixel fill of createBallTexture: a D x D ball picture, four bytes a
    pixel in the order blue, green, red, alpha, written row by row into a
    byte buffer through a 16-bit index. Each pixel is transparent outside
    the ball's circle, black on a three-pixel rim, white in the stripe
    columns of a striped ball, and the ball's colour elsewhere. */
module Texture {
  import opened GameDefs

  newtype byte = b: int | 0 <= b < 256

  /** The picture's side, the ball's radius, the inner radius of the black
      rim, the width of each stripe area, and the buffer's size in bytes
      (HeaderConstants shows how createBallTexture derives each one). */
  const Side: int := 35
  const Radius: int := 17
  const EdgeRadius: int := 14
  const StripeWidth: int := 11
  const BufferSize: int := 4900

  /** A cast to int16_t: two's-complement wrap-around into [-32768, 32768),
      which is the identity on values already in range. */
  function I16(v: int): (r: int)
    ensures -32768 <= r < 32768
    ensures (r - v) % 65536 == 0
    ensures -32768 <= v < 32768 ==> r == v
  {
    (v + 32768) % 65536 - 32768
  }

  /** A uint16_t increment target: wrap-around into [0, 65536). */
  function U16(v: int): (r: int)
    ensures 0 <= r < 65536
    ensures (r - v) % 65536 == 0
    ensures 0 <= v < 65536 ==> r == v
  {
    v % 65536
  }

  /** The constants are createBallTexture's integer divisions of the ball
      diameter; the buffer size fits the uint16_t index, and the largest
      squared distance from the centre, 2 * 17 * 17, fits int16_t. */
  lemma HeaderConstants()
    ensures Side == BallDiameter && Radius == BallDiameter / 2 && EdgeRadius == Radius - 3
    ensures StripeWidth == BallDiameter / 3 && BufferSize == BallDiameter * BallDiameter * 4
    ensures BufferSize < 65536 && 2 * Radius * Radius < 32768
  {
  }

  /** One pixel, in buffer order. */
  datatype Texel = Texel(blue: byte, green: byte, red: byte, alpha: byte)

  function Bytes(t: Texel): (r: seq<byte>)
    ensures |r| == 4
  {
    [t.blue, t.green, t.red, t.alpha]
  }

  /** The squared distance of pixel (x, y) from the centre pixel. */
  function DistanceSquared(x: int, y: int): int {
    (x - Radius) * (x - Radius) + (y - Radius) * (y - Radius)
  }

  /** The stripe areas: the columns left of StripeWidth and right of
      Side - StripeWidth. */
  predicate InStripeArea(x: int) {
    x < StripeWidth || x > Side - StripeWidth
  }

  /** The reference picture, over plain integers: the rim test comes
      first, then the stripe, then the body colour; alpha depends only on
      the circle. */
  function Pixel(red: byte, green: byte, blue: byte, hasStripe: bool, x: int, y: int): Texel {
    var qq := DistanceSquared(x, y);
    var alpha: byte := if qq <= Radius * Radius then 0xff else 0x00;
    if qq >= EdgeRadius * EdgeRadius then Texel(0x00, 0x00, 0x00, alpha)
    else if hasStripe && InStripeArea(x) then Texel(0xff, 0xff, 0xff, alpha)
    else Texel(blue, green, red, alpha)
  }

  /** The first n pixels in row-major order, as bytes. */
  function Picture(red: byte, green: byte, blue: byte, hasStripe: bool, n: nat): (r: seq<byte>)
    ensures |r| == 4 * n
  {
    if n == 0 then []
    else Picture(red, green, blue, hasStripe, n - 1) + Bytes(Pixel(red, green, blue, hasStripe, (n - 1) % Side, (n - 1) / Side))
  }

  /** Pixel p of any longer prefix sits at bytes 4p to 4p + 3. */
  lemma {:induction false} PictureAt(red: byte, green: byte, blue: byte, hasStripe: bool, n: nat, p: nat)
    requires p < n
    ensures Picture(red, green, blue, hasStripe, n)[4 * p .. 4 * p + 4] ==
      Bytes(Pixel(red, green, blue, hasStripe, p % Side, p / Side))
  {
    var prev := Picture(red, green, blue, hasStripe, n - 1);
    var last := Bytes(Pixel(red, green, blue, hasStripe, (n - 1) % Side, (n - 1) / Side));
    assert Picture(red, green, blue, hasStripe, n) == prev + last;
    if p < n - 1 {
      PictureAt(red, green, blue, hasStripe, n - 1, p);
      assert (prev + last)[4 * p .. 4 * p + 4] == prev[4 * p .. 4 * p + 4];
    } else {
      assert (prev + last)[4 * p .. 4 * p + 4] == last;
    }
  }

  /** Row-major pixel numbering inverts to (x, y). */
  lemma RowMajor(x: int, y: int)
    requires 0 <= x < Side && 0 <= y
    ensures (Side * y + x) % Side == x && (Side * y + x) / Side == y
  {
  }

  /** One pixel as the loop body computes it: the offsets from the centre
      and their squared sum go through int16_t casts. On the picture's
      pixels no cast wraps, so this is the reference pixel. */
  function CastPixel(red: byte, green: byte, blue: byte, hasStripe: bool, x: int, y: int): (t: Texel)
    ensures 0 <= x < Side && 0 <= y < Side ==> t == Pixel(red, green, blue, hasStripe, x, y)
  {
    var x0 := I16(x - Radius);
    var y0 := I16(y - Radius);
    var qq := I16(x0 * x0 + y0 * y0);
    var onEdge := qq >= EdgeRadius * EdgeRadius;
    var doDraw := qq <= Radius * Radius;
    var inStripeArea := x < StripeWidth || x > Side - StripeWidth;
    var alpha: byte := if doDraw then 0xff else 0x00;
    CastsLossless(x, y);
    if onEdge then Texel(0x00, 0x00, 0x00, alpha)
    else if hasStripe && inStripeArea then Texel(0xff, 0xff, 0xff, alpha)
    else Texel(blue, green, red, alpha)
  }

  /** On the picture's pixels the int16_t casts change nothing. */
  lemma CastsLossless(x: int, y: int)
    ensures 0 <= x < Side && 0 <= y < Side ==>
      I16(I16(x - Radius) * I16(x - Radius) + I16(y - Radius) * I16(y - Radius)) == DistanceSquared(x, y)
  {
    if 0 <= x < Side && 0 <= y < Side {
      SquareBound(x - Radius);
      SquareBound(y - Radius);
    }
  }

  /** Four writes through the index, each followed by an increment of the
      uint16_t index; the bytes before the pixel are not touched. */
  method WriteTexel(buffer: array<byte>, i: int, t: Texel) returns (next: int)
    requires 0 <= i && i + 4 <= buffer.Length && buffer.Length < 65536
    modifies buffer
    ensures next == i + 4
    ensures buffer[..next] == old(buffer[..i]) + Bytes(t)
  {
    next := i;
    buffer[next] := t.blue;
    next := U16(next + 1);
    buffer[next] := t.green;
    next := U16(next + 1);
    buffer[next] := t.red;
    next := U16(next + 1);
    buffer[next] := t.alpha;
    next := U16(next + 1);
    assert buffer[..next] == buffer[..i] + buffer[i..next];
  }

  /** The fill loop: rows, then columns, one pixel written a step. The
      index advances by four a pixel and ends at the buffer size, so every
      byte is written once, none past the end, and the buffer holds the
      reference picture. */
  method FillBallTexture(red: byte, green: byte, blue: byte, hasStripe: bool) returns (data: seq<byte>)
    ensures |data| == BufferSize
    ensures data == Picture(red, green, blue, hasStripe, Side * Side)
    ensures forall x, y :: 0 <= x < Side && 0 <= y < Side ==>
      data[4 * (Side * y + x) .. 4 * (Side * y + x) + 4] == Bytes(Pixel(red, green, blue, hasStripe, x, y))
  {
    var buffer := new byte[BufferSize];
    var i := 0;
    var y := 0;
    while y < Side
      invariant 0 <= y <= Side
      invariant i == 4 * (Side * y)
      invariant buffer[..i] == Picture(red, green, blue, hasStripe, Side * y)
    {
      i := FillRow(buffer, i, y, red, green, blue, hasStripe);
      y := y + 1;
    }
    data := buffer[..];
    PictureTexels(red, green, blue, hasStripe);
  }

  /** The inner loop: row y, from the index where the rows above end. */
  method FillRow(buffer: array<byte>, start: int, y: int, red: byte, green: byte, blue: byte, hasStripe: bool)
    returns (i: int)
    requires buffer.Length == BufferSize
    requires 0 <= y < Side && start == 4 * (Side * y)
    requires buffer[..start] == Picture(red, green, blue, hasStripe, Side * y)
    modifies buffer
    ensures i == 4 * (Side * (y + 1))
    ensures buffer[..i] == Picture(red, green, blue, hasStripe, Side * (y + 1))
  {
    i := start;
    var x := 0;
    while x < Side
      invariant 0 <= x <= Side
      invariant i == 4 * (Side * y + x)
      invariant buffer[..i] == Picture(red, green, blue, hasStripe, Side * y + x)
    {
      var t := CastPixel(red, green, blue, hasStripe, x, y);
      i := WriteTexel(buffer, i, t);
      PictureStep(red, green, blue, hasStripe, x, y);
      x := x + 1;
    }
  }

  /** One more pixel in row-major order is pixel (x, y). */
  lemma PictureStep(red: byte, green: byte, blue: byte, hasStripe: bool, x: int, y: int)
    requires 0 <= x < Side && 0 <= y
    ensures Picture(red, green, blue, hasStripe, Side * y + x + 1) ==
      Picture(red, green, blue, hasStripe, Side * y + x) + Bytes(Pixel(red, green, blue, hasStripe, x, y))
  {
    RowMajor(x, y);
  }

  /** Pixel (x, y) of the whole picture sits at bytes 4(35y + x) to
      4(35y + x) + 3. */
  lemma PictureTexels(red: byte, green: byte, blue: byte, hasStripe: bool)
    ensures forall x, y :: 0 <= x < Side && 0 <= y < Side ==>
      Picture(red, green, blue, hasStripe, Side * Side)[4 * (Side * y + x) .. 4 * (Side * y + x) + 4] ==
      Bytes(Pixel(red, green, blue, hasStripe, x, y))
  {
    forall x, y | 0 <= x < Side && 0 <= y < Side
      ensures Picture(red, green, blue, hasStripe, Side * Side)[4 * (Side * y + x) .. 4 * (Side * y + x) + 4] ==
        Bytes(Pixel(red, green, blue, hasStripe, x, y))
    {
      RowMajor(x, y);
      PictureAt(red, green, blue, hasStripe, Side * Side, Side * y + x);
    }
  }

  lemma SquareBound(v: int)
    requires -Radius <= v <= Radius
    ensures v * v <= Radius * Radius
  {
  }

  /** The picture is symmetric top to bottom: the rim, the circle and the
      stripe columns do not depend on the row's side of the centre. */
  lemma PixelMirrorsVertically(red: byte, green: byte, blue: byte, hasStripe: bool, x: int, y: int)
    ensures Pixel(red, green, blue, hasStripe, x, y) == Pixel(red, green, blue, hasStripe, x, 2 * Radius - y)
  {
    assert (2 * Radius - y - Radius) * (2 * Radius - y - Radius) == (y - Radius) * (y - Radius);
  }

  /** A plain ball is also symmetric left to right. */
  lemma PlainBallMirrorsHorizontally(red: byte, green: byte, blue: byte, x: int, y: int)
    ensures Pixel(red, green, blue, false, x, y) == Pixel(red, green, blue, false, 2 * Radius - x, y)
  {
    assert (2 * Radius - x - Radius) * (2 * Radius - x - Radius) == (x - Radius) * (x - Radius);
  }

  /** The rim takes precedence over the stripe, and a stripe changes only
      the colour of pixels in the stripe columns off the rim, which it turns
      white; alpha never depends on the stripe. */
  lemma StripeOnlyWhitensColumns(red: byte, green: byte, blue: byte, x: int, y: int)
    ensures Pixel(red, green, blue, true, x, y).alpha == Pixel(red, green, blue, false, x, y).alpha
    ensures DistanceSquared(x, y) >= EdgeRadius * EdgeRadius || !InStripeArea(x) ==>
      Pixel(red, green, blue, true, x, y) == Pixel(red, green, blue, false, x, y)
    ensures DistanceSquared(x, y) < EdgeRadius * EdgeRadius && InStripeArea(x) ==>
      Pixel(red, green, blue, true, x, y) == Pixel(0xff, 0xff, 0xff, false, x, y)
  {
  }

  /** Every pixel is black, white or the ball's colour, and white only for
      a striped ball (or a white ball); it is opaque exactly inside the
      circle of radius R around the centre pixel. */
  lemma PixelColours(red: byte, green: byte, blue: byte, hasStripe: bool, x: int, y: int)
    ensures var t := Pixel(red, green, blue, hasStripe, x, y);
      (t.alpha == 0xff || t.alpha == 0x00) &&
      (t.alpha == 0xff <==> (x - 17) * (x - 17) + (y - 17) * (y - 17) <= 289) &&
      ((t.blue, t.green, t.red) == (0x00, 0x00, 0x00) ||
       (t.blue, t.green, t.red) == (blue, green, red) ||
       (hasStripe && (t.blue, t.green, t.red) == (0xff, 0xff, 0xff)))
  {
  }

  /** The centre pixel is opaque and the ball's colour even on a striped
      ball; the corners are transparent. */
  lemma CentreAndCorners(red: byte, green: byte, blue: byte, hasStripe: bool)
    ensures Pixel(red, green, blue, hasStripe, Radius, Radius) == Texel(blue, green, red, 0xff)
    ensures Pixel(red, green, blue, hasStripe, 0, 0).alpha == 0x00
    ensures Pixel(red, green, blue, hasStripe, Side - 1, Side - 1).alpha == 0x00
  {
  }

  /** As written, the stripe areas are not mirror images: the left one is
      StripeWidth = 11 columns wide (0 to 10) and the right one only 10
      (25 to 34), so on a striped ball that is not white, column 10 of the
      middle row is white while its mirror image, column 24, is not. */
  lemma StripeAreasAsymmetric(red: byte, green: byte, blue: byte)
    requires (blue, green, red) != (0xff, 0xff, 0xff)
    ensures !InStripeArea(2 * Radius - 10) && InStripeArea(10)
    ensures Pixel(red, green, blue, true, 10, Radius) != Pixel(red, green, blue, true, 2 * Radius - 10, Radius)
  {
    assert Pixel(red, green, blue, true, 10, Radius).blue == 0xff;
  }

  /** The stripe areas as evidently intended: StripeWidth columns on each
      side, the right one starting at Side - StripeWidth. */
  predicate InSymmetricStripeArea(x: int) {
    x < StripeWidth || x >= Side - StripeWidth
  }

  /** The pixel with the symmetric stripe areas. */
  function SymmetricPixel(red: byte, green: byte, blue: byte, hasStripe: bool, x: int, y: int): Texel {
    var qq := DistanceSquared(x, y);
    var alpha: byte := if qq <= Radius * Radius then 0xff else 0x00;
    if qq >= EdgeRadius * EdgeRadius then Texel(0x00, 0x00, 0x00, alpha)
    else if hasStripe && InSymmetricStripeArea(x) then Texel(0xff, 0xff, 0xff, alpha)
    else Texel(blue, green, red, alpha)
  }

  /** With the symmetric stripe areas every ball, striped or not, is its
      own mirror image left to right, and only column Side - StripeWidth
      differs from the picture as written. */
  lemma SymmetricPixelMirrors(red: byte, green: byte, blue: byte, hasStripe: bool, x: int, y: int)
    ensures SymmetricPixel(red, green, blue, hasStripe, x, y) == SymmetricPixel(red, green, blue, hasStripe, 2 * Radius - x, y)
    ensures x != Side - StripeWidth ==>
      SymmetricPixel(red, green, blue, hasStripe, x, y) == Pixel(red, green, blue, hasStripe, x, y)
  {
    assert (2 * Radius - x - Radius) * (2 * Radius - x - Radius) == (x - Radius) * (x - Radius);
  }
}
