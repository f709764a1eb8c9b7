/** The camera snapshot: a blob with a 16-byte header of four big-endian
    unsigned 32-bit fields (total size, width, height, pixel format) followed
    by YUYV422 pixel data, converted to rows of RGB values. */
module Camera {
  import opened Json
  import opened Wrappers

  type byte = x: int | 0 <= x < 256

  const HeaderSize: nat := 16
  const U32Limit: int := 0x1_0000_0000

  /** Reads four bytes as a big-endian unsigned 32-bit integer. */
  function DecodeU32(b0: byte, b1: byte, b2: byte, b3: byte): int
  {
    ((b0 * 256 + b1) * 256 + b2) * 256 + b3
  }

  /** Writes an unsigned 32-bit integer as four big-endian bytes. */
  function EncodeU32(x: int): (bs: seq<byte>)
    requires 0 <= x < U32Limit
    ensures |bs| == 4
  {
    var x1 := x / 256;
    var x2 := x1 / 256;
    [x2 / 256, x2 % 256, x1 % 256, x % 256]
  }

  lemma {:induction false} U32RoundTrip(x: int)
    requires 0 <= x < U32Limit
    ensures var bs := EncodeU32(x); DecodeU32(bs[0], bs[1], bs[2], bs[3]) == x
  {
    var x1 := x / 256;
    var x2 := x1 / 256;
    assert (x2 / 256) * 256 + x2 % 256 == x2;
    assert x2 * 256 + x1 % 256 == x1;
    assert x1 * 256 + x % 256 == x;
  }

  lemma {:induction false} U32BytesRoundTrip(b0: byte, b1: byte, b2: byte, b3: byte)
    ensures 0 <= DecodeU32(b0, b1, b2, b3) < U32Limit
    ensures EncodeU32(DecodeU32(b0, b1, b2, b3)) == [b0, b1, b2, b3]
  {
    var x2 := b0 * 256 + b1;
    var x1 := x2 * 256 + b2;
    var x := x1 * 256 + b3;
    assert x / 256 == x1 && x % 256 == b3;
    assert x1 / 256 == x2 && x1 % 256 == b2;
    assert x2 / 256 == b0 && x2 % 256 == b1;
  }

  /** The parsed snapshot. */
  datatype CameraFrame = CameraFrame(totalSize: int, width: int, height: int, pixelFormat: int, payload: seq<byte>)

  /** The unsigned 32-bit field at byte offset `at`. */
  function FieldAt(data: seq<byte>, at: nat): int
    requires at + 4 <= |data|
  {
    DecodeU32(data[at], data[at + 1], data[at + 2], data[at + 3])
  }

  /** Splits a blob into its header fields and payload. The payload is
      everything after the 16 header bytes; the size field is not checked
      against the blob. A blob shorter than the header makes the unpacking
      format invalid (struct.error). */
  function ParseCameraBlob(data: seq<byte>): (r: Result<CameraFrame>)
    ensures r.Failure? <==> |data| < HeaderSize
    ensures r.Failure? ==> r.error == Fault(StructError)
    ensures r.Success? ==> r.value.payload == data[HeaderSize..]
    ensures r.Success? ==>
      && r.value.totalSize == FieldAt(data, 0)
      && r.value.width == FieldAt(data, 4)
      && r.value.height == FieldAt(data, 8)
      && r.value.pixelFormat == FieldAt(data, 12)
  {
    if |data| < HeaderSize then Failure(Fault(StructError))
    else Success(CameraFrame(FieldAt(data, 0), FieldAt(data, 4), FieldAt(data, 8), FieldAt(data, 12), data[HeaderSize..]))
  }

  /** The blob a camera sends for a frame whose header fields fit in 32 bits. */
  function EncodeCameraBlob(f: CameraFrame): seq<byte>
    requires 0 <= f.totalSize < U32Limit && 0 <= f.width < U32Limit
    requires 0 <= f.height < U32Limit && 0 <= f.pixelFormat < U32Limit
  {
    EncodeU32(f.totalSize) + EncodeU32(f.width) + EncodeU32(f.height) + EncodeU32(f.pixelFormat) + f.payload
  }

  /** Parsing recovers every header field and the payload of an encoded frame. */
  lemma ParseEncodedBlob(f: CameraFrame)
    requires 0 <= f.totalSize < U32Limit && 0 <= f.width < U32Limit
    requires 0 <= f.height < U32Limit && 0 <= f.pixelFormat < U32Limit
    ensures ParseCameraBlob(EncodeCameraBlob(f)) == Success(f)
  {
    var data := EncodeCameraBlob(f);
    U32RoundTrip(f.totalSize);
    U32RoundTrip(f.width);
    U32RoundTrip(f.height);
    U32RoundTrip(f.pixelFormat);
    assert data[0..4] == EncodeU32(f.totalSize);
    assert data[4..8] == EncodeU32(f.width);
    assert data[8..12] == EncodeU32(f.height);
    assert data[12..16] == EncodeU32(f.pixelFormat);
    assert data[HeaderSize..] == f.payload;
  }

  /** Every blob of at least 16 bytes is the encoding of the frame parsed from it. */
  lemma EncodeParsedBlob(data: seq<byte>)
    requires |data| >= HeaderSize
    ensures var f := ParseCameraBlob(data).value;
      && 0 <= f.totalSize < U32Limit && 0 <= f.width < U32Limit
      && 0 <= f.height < U32Limit && 0 <= f.pixelFormat < U32Limit
      && EncodeCameraBlob(f) == data
  {
    U32BytesRoundTrip(data[0], data[1], data[2], data[3]);
    U32BytesRoundTrip(data[4], data[5], data[6], data[7]);
    U32BytesRoundTrip(data[8], data[9], data[10], data[11]);
    U32BytesRoundTrip(data[12], data[13], data[14], data[15]);
    assert data == data[0..4] + data[4..8] + data[8..12] + data[12..16] + data[16..];
  }

  /** Clamps a channel value to [0, 255]: the result is the point of that
      range nearest to `x`, so values already in range are unchanged. */
  function RgbClamp(x: int): (r: int)
    ensures 0 <= r <= 255
    ensures 0 <= x <= 255 <==> r == x
  {
    if x < 0 then 0 else if x > 255 then 255 else x
  }

  /** No channel value is nearer to `x` than its clamp. */
  lemma ClampIsNearest(x: int, y: int)
    requires 0 <= y <= 255
    ensures Dist(x, RgbClamp(x)) <= Dist(x, y)
  {
  }

  function Dist(a: int, b: int): nat
  {
    if a >= b then a - b else b - a
  }

  /** `int()` of a value given in thousandths: truncation toward zero. */
  function TruncThousandths(a: int): int
  {
    if a >= 0 then a / 1000 else -((-a) / 1000)
  }

  /** Truncation drops less than one unit of magnitude and keeps the sign. */
  lemma TruncTowardZero(a: int)
    ensures var r := TruncThousandths(a);
      && Dist(r * 1000, 0) <= Dist(a, 0) < Dist(r * 1000, 0) + 1000
      && (a >= 0 ==> r >= 0) && (a <= 0 ==> r <= 0)
  {
  }

  /** Every value is a channel value in [0, 255]. */
  predicate Channels(rgb: seq<int>)
  {
    forall k :: 0 <= k < |rgb| ==> 0 <= rgb[k] <= 255
  }

  lemma ChannelsAppend(a: seq<int>, b: seq<int>)
    requires Channels(a) && Channels(b)
    ensures Channels(a + b)
  {
  }

  /** One row of the conversion matrix, in thousandths: the weights of the
      luma above 16, of the blue chroma `u` above 128 and of the red chroma
      `v` above 128. */
  datatype Coefficients = Coefficients(luma: int, blue: int, red: int)

  /** The R, G and B rows of the conversion, with the coefficients 1.164,
      1.596, 0.813, 0.391 and 2.018 taken exactly. */
  const YuvToRgb: seq<Coefficients> :=
    [Coefficients(1164, 0, 1596), Coefficients(1164, -391, -813), Coefficients(1164, 2018, 0)]

  /** One channel: the weighted sum, truncated by `int()`, then clamped. */
  function Channel(k: Coefficients, y: byte, u: byte, v: byte): (c: int)
    ensures 0 <= c <= 255
  {
    RgbClamp(TruncThousandths(k.luma * (y - 16) + k.blue * (u - 128) + k.red * (v - 128)))
  }

  /** The channels of one pixel, one per matrix row, in row order. */
  function Convert(rows: seq<Coefficients>, y: byte, u: byte, v: byte): (rgb: seq<int>)
    ensures |rgb| == |rows| && Channels(rgb)
    ensures |rows| > 0 ==> rgb[0] == Channel(rows[0], y, u, v)
    decreases |rows|
  {
    if |rows| == 0 then []
    else [Channel(rows[0], y, u, v)] + Convert(rows[1..], y, u, v)
  }

  /** One pixel's clamped R, G, B from its luma and the shared chroma pair.
      It applies the constant matrix row by row instead of spelling out the
      three formulas, so that the solver unfolds the channel arithmetic only
      where a proof asks for it: otherwise every statement about rows and
      pictures would drag the clamping and truncation of every pixel into
      its proof. `PixelFormulas` states that the result is exactly the
      three formulas. */
  function Pixel(y: byte, u: byte, v: byte): (rgb: seq<int>)
    ensures |rgb| == 3 && Channels(rgb)
  {
    Convert(YuvToRgb, y, u, v)
  }

  /** The three channels of a pixel are the source's R, G and B formulas. */
  lemma {:induction false} PixelFormulas(y: byte, u: byte, v: byte)
    ensures Pixel(y, u, v)[0] == RgbClamp(TruncThousandths(1164 * (y - 16) + 1596 * (v - 128)))
    ensures Pixel(y, u, v)[1] == RgbClamp(TruncThousandths(1164 * (y - 16) - 813 * (v - 128) - 391 * (u - 128)))
    ensures Pixel(y, u, v)[2] == RgbClamp(TruncThousandths(1164 * (y - 16) + 2018 * (u - 128)))
  {
    var rows := YuvToRgb;
    var r, g, b := Channel(rows[0], y, u, v), Channel(rows[1], y, u, v), Channel(rows[2], y, u, v);
    assert Convert(rows[2..], y, u, v) == [b] + Convert(rows[3..], y, u, v);
    assert Convert(rows[1..], y, u, v) == [g] + Convert(rows[2..], y, u, v);
    assert Pixel(y, u, v)[0] == r && Pixel(y, u, v)[1] == g && Pixel(y, u, v)[2] == b;
    ChannelOfSum(rows[0], y, u, v, 1164 * (y - 16) + 1596 * (v - 128));
    ChannelOfSum(rows[1], y, u, v, 1164 * (y - 16) - 813 * (v - 128) - 391 * (u - 128));
    ChannelOfSum(rows[2], y, u, v, 1164 * (y - 16) + 2018 * (u - 128));
  }

  /** A channel is decided by its weighted sum alone. */
  lemma ChannelOfSum(k: Coefficients, y: byte, u: byte, v: byte, sum: int)
    requires sum == k.luma * (y - 16) + k.blue * (u - 128) + k.red * (v - 128)
    ensures Channel(k, y, u, v) == RgbClamp(TruncThousandths(sum))
  {
  }

  /** The two pixels of one 4-byte YUYV group `(y1, u, y2, v)`. */
  function Group(y1: byte, u: byte, y2: byte, v: byte): (rgb: seq<int>)
    ensures |rgb| == 6
    ensures Channels(rgb)
  {
    ChannelsAppend(Pixel(y1, u, v), Pixel(y2, u, v));
    Pixel(y1, u, v) + Pixel(y2, u, v)
  }

  /** The pixels of group `c` of a run of groups starting at byte `base`. */
  function GroupAt(payload: seq<byte>, base: nat, c: nat): seq<int>
    requires base + 4 * c + 4 <= |payload|
  {
    var at := base + 4 * c;
    Group(payload[at], payload[at + 1], payload[at + 2], payload[at + 3])
  }

  /** The six values `rgb` holds for group `c`. */
  function Six(rgb: seq<int>, c: nat): seq<int>
    requires 6 * c + 6 <= |rgb|
  {
    rgb[6 * c .. 6 * c + 6]
  }

  /** The values of several pixel groups, concatenated in order. */
  function Flatten(gs: seq<seq<int>>): seq<int>
    decreases |gs|
  {
    if |gs| == 0 then [] else Flatten(gs[..|gs| - 1]) + gs[|gs| - 1]
  }

  /** Groups of six values each sit at positions `6 * c` of their flattening. */
  lemma {:induction false} FlattenSix(gs: seq<seq<int>>, c: nat)
    requires forall i :: 0 <= i < |gs| ==> |gs[i]| == 6
    requires c < |gs|
    ensures |Flatten(gs)| == 6 * |gs|
    ensures Six(Flatten(gs), c) == gs[c]
    decreases |gs|
  {
    var front := gs[..|gs| - 1];
    FlattenLength(front);
    if c < |gs| - 1 {
      FlattenSix(front, c);
      assert (Flatten(front) + gs[|gs| - 1])[6 * c .. 6 * c + 6] == Flatten(front)[6 * c .. 6 * c + 6];
    } else {
      assert (Flatten(front) + gs[|gs| - 1])[6 * c .. 6 * c + 6] == gs[c];
    }
  }

  lemma {:induction false} FlattenLength(gs: seq<seq<int>>)
    requires forall i :: 0 <= i < |gs| ==> |gs[i]| == 6
    ensures |Flatten(gs)| == 6 * |gs|
    decreases |gs|
  {
    if |gs| > 0 {
      FlattenLength(gs[..|gs| - 1]);
    }
  }

  lemma {:induction false} FlattenChannels(gs: seq<seq<int>>)
    requires forall i :: 0 <= i < |gs| ==> Channels(gs[i])
    ensures Channels(Flatten(gs))
    decreases |gs|
  {
    if |gs| > 0 {
      FlattenChannels(gs[..|gs| - 1]);
      ChannelsAppend(Flatten(gs[..|gs| - 1]), gs[|gs| - 1]);
    }
  }

  /** The pixel groups of `n` consecutive groups starting at byte `base`. */
  function GroupsFrom(payload: seq<byte>, base: nat, n: nat): (gs: seq<seq<int>>)
    requires base + 4 * n <= |payload|
    ensures |gs| == n
    ensures forall c :: 0 <= c < n ==> gs[c] == GroupAt(payload, base, c)
  {
    seq(n, c requires 0 <= c < n => GroupAt(payload, base, c))
  }

  /** Reference: the RGB values of `n` consecutive groups starting at byte
      `base`, left to right, six per group. */
  function RgbGroups(payload: seq<byte>, base: nat, n: nat): seq<int>
    requires base + 4 * n <= |payload|
  {
    Flatten(GroupsFrom(payload, base, n))
  }

  /** A reference row holds six channel values per group, and group `c`
      holds the two pixels read from the four bytes at `base + 4 * c`. */
  lemma RgbGroupsAt(payload: seq<byte>, base: nat, n: nat, c: nat)
    requires base + 4 * n <= |payload| && c < n
    ensures |RgbGroups(payload, base, n)| == 6 * n
    ensures Six(RgbGroups(payload, base, n), c) == GroupAt(payload, base, c)
    ensures Channels(RgbGroups(payload, base, n))
  {
    FlattenSix(GroupsFrom(payload, base, n), c);
    FlattenChannels(GroupsFrom(payload, base, n));
  }

  /** The byte offset where row `row` starts, with `half` four-byte groups per row. */
  function RowStart(half: nat, row: nat): nat
    decreases row
  {
    if row == 0 then 0 else RowStart(half, row - 1) + 4 * half
  }

  /** Rows start at multiples of the row length. */
  lemma {:induction false} RowStartIsProduct(half: nat, row: nat)
    ensures RowStart(half, row) == 4 * (row * half)
    decreases row
  {
    if row > 0 {
      RowStartIsProduct(half, row - 1);
      assert row * half == (row - 1) * half + half;
    }
  }

  /** Later rows start no earlier. */
  lemma {:induction false} RowStartMonotone(half: nat, row: nat, n: nat)
    requires row <= n
    ensures RowStart(half, row) <= RowStart(half, n)
    decreases n - row
  {
    if row < n {
      RowStartMonotone(half, row, n - 1);
    }
  }

  /** Reference: the first `n` rows of a picture with `half` groups per
      row, read sequentially from `payload`. */
  function Picture(payload: seq<byte>, half: nat, n: nat): seq<seq<int>>
    requires RowStart(half, n) <= |payload|
    decreases n
  {
    if n == 0 then []
    else Picture(payload, half, n - 1) + [RgbGroups(payload, RowStart(half, n - 1), half)]
  }

  /** The reference picture has `n` rows, and row `row` is the `half`
      groups starting where that row starts. */
  lemma {:induction false} PictureRow(payload: seq<byte>, half: nat, n: nat, row: nat)
    requires RowStart(half, n) <= |payload| && row < n
    ensures |Picture(payload, half, n)| == n
    ensures RowStart(half, row) + 4 * half <= |payload|
    ensures Picture(payload, half, n)[row] == RgbGroups(payload, RowStart(half, row), half)
    decreases n
  {
    if row < n - 1 {
      PictureRow(payload, half, n - 1, row);
    } else {
      PictureLength(payload, half, n - 1);
    }
  }

  lemma {:induction false} PictureLength(payload: seq<byte>, half: nat, n: nat)
    requires RowStart(half, n) <= |payload|
    ensures |Picture(payload, half, n)| == n
    decreases n
  {
    if n > 0 {
      PictureLength(payload, half, n - 1);
    }
  }

  /** In a picture of `height` rows with `half` groups each, row `row`
      holds `6 * half` channel values, and its group `c` is the two pixels
      read from the four bytes at `RowStart(half, row) + 4 * c`, that is at
      `4 * (row * half) + 4 * c` by `RowStartIsProduct`. */
  lemma GroupOffset(payload: seq<byte>, half: nat, height: nat, row: nat, c: nat)
    requires RowStart(half, height) <= |payload| && row < height && c < half
    ensures |Picture(payload, half, height)| == height
    ensures RowStart(half, row) + 4 * half <= |payload|
    ensures |Picture(payload, half, height)[row]| == 6 * half
    ensures Channels(Picture(payload, half, height)[row])
    ensures Six(Picture(payload, half, height)[row], c) == GroupAt(payload, RowStart(half, row), c)
  {
    PictureRow(payload, half, height, row);
    RgbGroupsAt(payload, RowStart(half, row), half, c);
  }

  lemma RgbGroupsStep(payload: seq<byte>, base: nat, n: nat)
    requires base + 4 * n + 4 <= |payload|
    ensures RgbGroups(payload, base, n + 1) == RgbGroups(payload, base, n) + GroupAt(payload, base, n)
  {
    var gs := GroupsFrom(payload, base, n + 1);
    assert gs == GroupsFrom(payload, base, n) + [GroupAt(payload, base, n)];
    FlattenSnoc(GroupsFrom(payload, base, n), GroupAt(payload, base, n));
  }

  lemma FlattenSnoc(gs: seq<seq<int>>, g: seq<int>)
    ensures Flatten(gs + [g]) == Flatten(gs) + g
  {
    assert (gs + [g])[..|gs|] == gs;
  }

  /** Converts the `half` groups starting at byte `base` to one row of RGB
      values, or reports that the payload runs out first. */
  method ConvertRow(payload: seq<byte>, base: nat, half: nat) returns (rgb: Option<seq<int>>)
    requires base <= |payload|
    ensures rgb.None? <==> |payload| < base + 4 * half
    ensures rgb.Some? ==> rgb.value == RgbGroups(payload, base, half)
  {
    var acc: seq<int> := [];
    var col := 0;
    while col < half
      invariant 0 <= col <= half
      invariant base + 4 * col <= |payload|
      invariant acc == RgbGroups(payload, base, col)
    {
      var pos := base + 4 * col;
      if pos + 4 > |payload| {
        return None;
      }
      RgbGroupsStep(payload, base, col);
      acc := acc + GroupAt(payload, base, col);
      col := col + 1;
    }
    return Some(acc);
  }

  /** Converts YUYV422 pixel data to `height` rows of `6 * (width / 2)` RGB
      values (an odd last pixel column is dropped), reading the payload
      sequentially: row `r` is the `width / 2` groups starting at byte
      `4 * (r * (width / 2))`. Running out of payload bytes raises TypeError
      (`ord` of an empty read). */
  method YuvToRgbRows(payload: seq<byte>, width: nat, height: nat) returns (r: Result<seq<seq<int>>>)
    ensures r.Failure? <==> |payload| < 4 * (height * (width / 2))
    ensures r.Failure? ==> r.error == Fault(TypeError)
    ensures r.Success? ==> RowStart(width / 2, height) <= |payload| && r.value == Picture(payload, width / 2, height)
  {
    var half := width / 2;
    var rows: seq<seq<int>> := [];
    var pos := 0;
    var row := 0;
    while row < height
      invariant 0 <= row <= height
      invariant pos == RowStart(half, row)
      invariant pos <= |payload|
      invariant rows == Picture(payload, half, row)
    {
      var rgb := ConvertRow(payload, pos, half);
      if rgb.None? {
        RowStartMonotone(half, row + 1, height);
        RowStartIsProduct(half, height);
        return Failure(Fault(TypeError));
      }
      rows := rows + [rgb.value];
      pos := pos + 4 * half;
      row := row + 1;
    }
    RowStartIsProduct(half, height);
    return Success(rows);
  }

  /** The limiting white and black inputs: full-scale luma with neutral chroma
      gives 254 in every channel (1.164 * 219 truncates to 254), and the
      lowest legal luma gives 0. */
  lemma WhiteAndBlack()
    ensures Group(235, 128, 235, 128) == [254, 254, 254, 254, 254, 254]
    ensures Group(16, 128, 16, 128) == [0, 0, 0, 0, 0, 0]
  {
  }
}
