/** A decoded PNG image packed into `0xAARRGGBB` pixels, read by the texture
    mapper. Decoding itself is outside the model: the constructor receives
    the decoder's result (the bytes, the sizes and the channel count). */
module Texture {
  import opened Wrappers

  /** `blue | green << 8 | red << 16 | alpha << 24`. */
  function PackArgb(red: byte, green: byte, blue: byte, alpha: byte): Colour
  {
    (blue as bv32) | ((green as bv32) << 8) | ((red as bv32) << 16) | ((alpha as bv32) << 24)
  }

  /** The byte of a colour that starts at bit `shift`. */
  function Channel(colour: Colour, shift: bv32): byte
    requires shift <= 24
  {
    ((colour >> shift) & 0xFF) as bv8
  }

  /** Each channel can be read back from the packed colour. */
  lemma PackRoundTrip(red: byte, green: byte, blue: byte, alpha: byte)
    ensures Channel(PackArgb(red, green, blue, alpha), 16) == red
    ensures Channel(PackArgb(red, green, blue, alpha), 8) == green
    ensures Channel(PackArgb(red, green, blue, alpha), 0) == blue
    ensures Channel(PackArgb(red, green, blue, alpha), 24) == alpha
  {
  }

  /** The packed colour of the pixel whose four bytes start at `index`. */
  function PixelAtByte(data: seq<byte>, index: nat): Colour
    requires index + 3 < |data|
  {
    PackArgb(data[index], data[index + 1], data[index + 2], data[index + 3])
  }

  lemma RowMajorInRange(i: nat, j: nat, width: nat, height: nat)
    requires i < height && j < width
    ensures 0 <= i * width + j < height * width
  {
    assert (i + 1) * width <= height * width by {
      var d := height - (i + 1);
      assert height * width == (i + 1) * width + d * width;
    }
  }

  /** Column `j` of row `i` of a decoded image occupies four bytes from this offset. */
  lemma PixelBytesInRange(data: seq<byte>, i: nat, j: nat, width: nat, height: nat)
    requires |data| == width * height * 4 && i < height && j < width
    ensures i * 4 * width + j * 4 + 3 < |data|
  {
    RowMajorInRange(i, j, width, height);
    assert i * 4 * width + j * 4 == 4 * (i * width + j);
  }

  /** The byte offset `i * 4 * width + j * 4` of column `j`, row `i`. */
  function PixelOffset(width: nat, height: nat, i: nat, j: nat): (r: nat)
    requires i < height && j < width
    ensures r == i * 4 * width + j * 4
    ensures r + 3 < width * height * 4
  {
    PixelBytesInRange(seq(width * height * 4, _ => 0), i, j, width, height);
    i * 4 * width + j * 4
  }

  /** The first `j` pixels of row `i`. */
  function PackedRow(data: seq<byte>, width: nat, height: nat, i: nat, j: nat): (r: seq<Colour>)
    requires |data| == width * height * 4 && i < height && j <= width
    ensures |r| == j
    ensures forall k | 0 <= k < j :: r[k] == PixelAtByte(data, PixelOffset(width, height, i, k))
  {
    if j == 0 then []
    else PackedRow(data, width, height, i, j - 1) + [PixelAtByte(data, PixelOffset(width, height, i, j - 1))]
  }

  /** Rows `0..i-1`, row after row. */
  function PackedRows(data: seq<byte>, width: nat, height: nat, i: nat): (r: seq<Colour>)
    requires |data| == width * height * 4 && i <= height
    ensures |r| == i * width
  {
    if i == 0 then [] else PackedRows(data, width, height, i - 1) + PackedRow(data, width, height, i - 1, width)
  }

  /** The pixel of column `j`, row `i` sits at `i * width + j` and is made from
      the bytes `i * 4 * width + j * 4 + {0, 1, 2, 3}` as red, green, blue, alpha. */
  lemma {:induction false} PackedRowsAt(data: seq<byte>, width: nat, height: nat, rows: nat,
                                        i: nat, j: nat)
    requires |data| == width * height * 4 && rows <= height && i < rows && j < width
    ensures i * width + j < rows * width
    ensures PackedRows(data, width, height, rows)[i * width + j]
        == PixelAtByte(data, PixelOffset(width, height, i, j))
    decreases rows
  {
    RowMajorInRange(i, j, width, rows);
    var prefix := PackedRows(data, width, height, rows - 1);
    var last := PackedRow(data, width, height, rows - 1, width);
    assert PackedRows(data, width, height, rows) == prefix + last;
    var index := i * width + j;
    if i < rows - 1 {
      RowMajorInRange(i, j, width, rows - 1);
      PackedRowsAt(data, width, height, rows - 1, i, j);
      AppendAt(prefix, last, index);
    } else {
      assert index == |prefix| + j;
      AppendAt(prefix, last, index);
      assert (prefix + last)[index] == last[j];
    }
  }

  /** An index of a concatenation falls in one part or the other. */
  lemma AppendAt<T>(front: seq<T>, back: seq<T>, index: nat)
    requires index < |front| + |back|
    ensures index < |front| ==> (front + back)[index] == front[index]
    ensures index >= |front| ==> (front + back)[index] == back[index - |front|]
  {
  }

  /** The inner loop of the constructor: the pixels of row `i`, column by column. */
  method PackRow(data: seq<byte>, width: nat, height: nat, i: nat) returns (row: seq<Colour>)
    requires |data| == width * height * 4 && i < height
    ensures row == PackedRow(data, width, height, i, width)
  {
    row := [];
    var j := 0;
    while j < width
      invariant 0 <= j <= width
      invariant row == PackedRow(data, width, height, i, j)
    {
      var index := PixelOffset(width, height, i, j);
      row := row + [PackArgb(data[index], data[index + 1], data[index + 2], data[index + 3])];
      j := j + 1;
    }
  }

  /** What the decoder reports. */
  datatype Decoded = Decoded(data: Option<seq<byte>>, width: nat, height: nat, componentsPerPixel: int)

  datatype TextureError =
    | LoadFailed          // the decoder returned no data
    | WrongChannelCount   // the image does not have four channels

  /** The checks the constructor makes before packing. */
  function Check(image: Decoded): (r: Option<TextureError>)
    ensures r == None <==> image.data.Some? && image.componentsPerPixel == 4
  {
    if image.data.None? then Some(LoadFailed)
    else if image.componentsPerPixel != 4 then Some(WrongChannelCount)
    else None
  }

  /** The decoder hands back exactly four bytes per pixel. */
  predicate WellSized(image: Decoded)
  {
    image.data.Some? ==> |image.data.value| == image.width * image.height * 4
  }

  class PngTexture {
    /** `m_width` and `m_height`: the decoded sizes truncated to 16 bits. */
    const width: uint16
    const height: uint16
    /** `m_pixels`, row-major. */
    const pixels: seq<Colour>

    ghost const image: Decoded

    ghost predicate Valid()
    {
      && image.data.Some? && WellSized(image)
      && width == ToUint16(image.width) && height == ToUint16(image.height)
      && pixels == PackedRows(image.data.value, image.width, image.height, image.height)
    }

    /** The packing loop of the constructor, run once the checks have passed. */
    constructor(decoded: Decoded)
      requires Check(decoded) == None && WellSized(decoded)
      ensures Valid() && image == decoded
    {
      var data := decoded.data.value;
      var packed: seq<Colour> := [];
      var i := 0;
      while i < decoded.height
        invariant 0 <= i <= decoded.height
        invariant packed == PackedRows(data, decoded.width, decoded.height, i)
      {
        var row := PackRow(data, decoded.width, decoded.height, i);
        packed := packed + row;
        i := i + 1;
      }
      width := ToUint16(decoded.width);
      height := ToUint16(decoded.height);
      pixels := packed;
      image := decoded;
    }

    function Width(): uint16
    {
      width
    }

    function Height(): uint16
    {
      height
    }

    /** `ColorAt(x, y)`: the entry at `(y * width) + x`, or `None` where the
        bounds-checked access throws. */
    function ColorAt(x: uint16, y: uint16): (r: Option<Colour>)
      ensures r.Some? <==> y * width + x < |pixels|
      ensures r.Some? ==> r.value == pixels[y * width + x]
    {
      var index := y * width + x;
      if index < |pixels| then Some(pixels[index]) else None
    }

    /** Inside an image whose sizes fit 16 bits, `ColorAt` finds the decoded pixel. */
    lemma ColorAtIsDecodedPixel(x: uint16, y: uint16)
      requires Valid() && image.width < 0x1_0000 && image.height < 0x1_0000
      requires x < width && y < height
      ensures ColorAt(x, y)
        == Some(PixelAtByte(image.data.value, PixelOffset(image.width, image.height, y, x)))
    {
      PackedRowsAt(image.data.value, image.width, image.height, image.height, y, x);
    }
  }

  /** The textures the constructor accepts, or why it throws. */
  method FromDecoded(decoded: Decoded) returns (r: Result<PngTexture, TextureError>)
    requires WellSized(decoded)
    ensures r.Failure? <==> Check(decoded).Some?
    ensures r.Failure? ==> r.error == Check(decoded).value
    ensures r.Success? ==> fresh(r.value) && r.value.Valid() && r.value.image == decoded
  {
    var problem := Check(decoded);
    if problem.Some? {
      return Failure(problem.value);
    }
    var texture := new PngTexture(decoded);
    return Success(texture);
  }
}
