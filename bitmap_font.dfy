/** The reader for AngelCode BMFont binary files (format version 3) behind the
    text painter: a three-byte signature, a version byte, then blocks of a
    one-byte id and a four-byte little-endian size. The file's bytes are the
    values 0..255; a read that would run past the end of the file is an error. */
module BitmapFonts {
  import opened Wrappers
  import RenderTargets

  const Signature: seq<uint8> := [0x42, 0x4D, 0x46]  // 'B', 'M', 'F'
  const FormatVersion: uint8 := 3
  const MaxStringLength: nat := 512
  const BytesPerChar: nat := 20

  const InfoBlockId: uint8 := 1
  const CommonBlockId: uint8 := 2
  const PagesBlockId: uint8 := 3
  const CharsBlockId: uint8 := 4
  const KerningPairsBlockId: uint8 := 5

  datatype FontError =
    | BadSignature
    | BadVersion
    | FontNameTooLong
    | UnsupportedPageCount(pageCount: uint16)
    | PageNameTooLong
    | BadBlockId(id: uint8)
    | Truncated

  /** One glyph of the chars block; the page and channel bytes are not kept. */
  datatype CharacterData = CharacterData(id: uint32, textureX: uint16, textureY: uint16,
                                         width: uint16, height: uint16, offsetX: uint16,
                                         offsetY: uint16, advanceX: uint16)

  datatype FontData = FontData(fontSize: uint16, fontName: seq<uint8>, lineHeight: uint16,
                               base: uint16, textureFileName: seq<uint8>,
                               characters: map<uint32, CharacterData>)

  /** What a block reader leaves behind: the font so far and the position after the block. */
  datatype Reading = Reading(font: FontData, cursor: nat)

  /** The font before any block: empty names, no characters, and zero sizes. */
  const EmptyFont := FontData(0, [], 0, 0, [], map[])

  // ---------------------------------------------------------------------------
  // Little-endian fields

  function Le16(data: seq<uint8>, at: nat): (r: uint16)
    requires at + 2 <= |data|
  {
    data[at] as int + 0x100 * data[at + 1] as int
  }

  function Le32(data: seq<uint8>, at: nat): (r: uint32)
    requires at + 4 <= |data|
  {
    Le16(data, at) + 0x1_0000 * Le16(data, at + 2)
  }

  function Le16Bytes(v: uint16): (r: seq<uint8>)
    ensures |r| == 2 && Le16(r, 0) == v
  {
    [v % 0x100, v / 0x100]
  }

  function Le32Bytes(v: uint32): (r: seq<uint8>)
    ensures |r| == 4 && Le32(r, 0) == v
  {
    Le16Bytes(v % 0x1_0000) + Le16Bytes(v / 0x1_0000)
  }

  /** `n` bytes from `at`: reading nothing always succeeds, even past the end. */
  function ReadSpan(data: seq<uint8>, at: nat, n: nat): (r: Option<seq<uint8>>)
    ensures r.Some? <==> n == 0 || at + n <= |data|
    ensures r.Some? ==> |r.value| == n && forall k | 0 <= k < n :: r.value[k] == data[at + k]
  {
    if n == 0 then Some([]) else if at + n > |data| then None else Some(data[at..at + n])
  }

  /** `uint16_t(-s)` for the `int16_t` s whose two bytes are `stored`. */
  function NegatedInt16(stored: uint16): (r: uint16)
    ensures (r + Int16(stored)) % 0x1_0000 == 0
  {
    (0x1_0000 - stored) % 0x1_0000
  }

  /** The signed reading of a 16-bit pattern. */
  function Int16(stored: uint16): int
  {
    if stored < 0x8000 then stored else stored - 0x1_0000
  }

  /** `blockSize - 14` in `uint32_t` arithmetic: below 14 it wraps around. */
  function InfoNameLength(blockSize: uint32): (r: uint32)
    ensures blockSize >= 14 ==> r == blockSize - 14
    ensures blockSize < 14 ==> r >= 0x1_0000_0000 - 14
  {
    (blockSize - 14) % 0x1_0000_0000
  }

  // ---------------------------------------------------------------------------
  // The blocks, as functions of the file and the position after the block header

  /** The info block: the negated font size, 12 skipped bytes, and the name in the
      rest of the block. */
  function InfoBlock(data: seq<uint8>, at: nat, font: FontData, blockSize: uint32): (r: Result<Reading, FontError>)
  {
    if at + 2 > |data| then Failure(Truncated)
    else
      var nameLength := InfoNameLength(blockSize);
      if nameLength > MaxStringLength then Failure(FontNameTooLong)
      else match ReadSpan(data, at + 14, nameLength)
        case None => Failure(Truncated)
        case Some(name) =>
          Success(Reading(font.(fontSize := NegatedInt16(Le16(data, at)), fontName := name),
                          at + 14 + nameLength))
  }

  /** The common block: line height and base, then scaleW and scaleH skipped, the
      page count (which must be one), and five more skipped bytes. */
  function CommonBlock(data: seq<uint8>, at: nat, font: FontData): (r: Result<Reading, FontError>)
  {
    if at + 10 > |data| then Failure(Truncated)
    else if Le16(data, at + 8) != 1 then Failure(UnsupportedPageCount(Le16(data, at + 8)))
    else Success(Reading(font.(lineHeight := Le16(data, at), base := Le16(data, at + 2)), at + 15))
  }

  /** The pages block: the texture file name fills the block. */
  function PagesBlock(data: seq<uint8>, at: nat, font: FontData, blockSize: uint32): (r: Result<Reading, FontError>)
  {
    if blockSize > MaxStringLength then Failure(PageNameTooLong)
    else match ReadSpan(data, at, blockSize)
      case None => Failure(Truncated)
      case Some(name) => Success(Reading(font.(textureFileName := name), at + blockSize))
  }

  /** The 18 bytes of one glyph record that are read, from `at`. */
  function Record(data: seq<uint8>, at: nat): CharacterData
    requires at + 18 <= |data|
  {
    CharacterData(Le32(data, at), Le16(data, at + 4), Le16(data, at + 6), Le16(data, at + 8),
                  Le16(data, at + 10), Le16(data, at + 12), Le16(data, at + 14), Le16(data, at + 16))
  }

  /** The first `n` records from `at` can be read: the last record's two trailing
      bytes are only skipped, so they may lie past the end. */
  predicate RecordsReadable(data: seq<uint8>, at: nat, n: nat)
  {
    n == 0 || at + BytesPerChar * (n - 1) + 18 <= |data|
  }

  /** Record `j` of the chars block whose records start at `at`. */
  function RecordAt(data: seq<uint8>, at: nat, j: nat): CharacterData
    requires at + BytesPerChar * j + 18 <= |data|
  {
    Record(data, at + BytesPerChar * j)
  }

  /** `chars` after inserting, in file order, the first `n` records from `at`. */
  function InsertRecords(data: seq<uint8>, at: nat, chars: map<uint32, CharacterData>, n: nat): map<uint32, CharacterData>
    requires RecordsReadable(data, at, n)
  {
    if n == 0 then chars
    else
      var c := RecordAt(data, at, n - 1);
      InsertRecords(data, at, chars, n - 1)[c.id := c]
  }

  /** The chars block: `blockSize / 20` records of 20 bytes. */
  function CharsBlock(data: seq<uint8>, at: nat, font: FontData, blockSize: uint32): (r: Result<Reading, FontError>)
  {
    var n := blockSize / BytesPerChar;
    if !RecordsReadable(data, at, n) then Failure(Truncated)
    else Success(Reading(font.(characters := InsertRecords(data, at, font.characters, n)), at + BytesPerChar * n))
  }

  /** One block from `at`: the id is checked before the size's read is. */
  function Block(data: seq<uint8>, at: nat, font: FontData): (r: Result<Reading, FontError>)
    requires at < |data|
    ensures r.Success? ==> r.value.cursor >= at + 5
  {
    var id := data[at];
    if !(InfoBlockId <= id <= KerningPairsBlockId) then Failure(BadBlockId(id))
    else if at + 5 > |data| then Failure(Truncated)
    else
      var blockSize, start := Le32(data, at + 1), at + 5;
      if id == InfoBlockId then InfoBlock(data, start, font, blockSize)
      else if id == CommonBlockId then CommonBlock(data, start, font)
      else if id == PagesBlockId then PagesBlock(data, start, font, blockSize)
      else if id == CharsBlockId then CharsBlock(data, start, font, blockSize)
      else Success(Reading(font, start + blockSize))
  }

  /** Blocks from `at` until the end of the file, stopping at the first error. */
  function Blocks(data: seq<uint8>, at: nat, font: FontData): Result<FontData, FontError>
    decreases |data| - at
  {
    if at >= |data| then Success(font)
    else match Block(data, at, font)
      case Failure(e) => Failure(e)
      case Success(next) => Blocks(data, next.cursor, next.font)
  }

  predicate HasSignature(data: seq<uint8>)
  {
    |data| >= 3 && data[..3] == Signature
  }

  predicate HasVersion(data: seq<uint8>)
  {
    |data| >= 4 && data[3] == FormatVersion
  }

  /** `LoadBitmapFontData` over the file's bytes. */
  function LoadFont(data: seq<uint8>): Result<FontData, FontError>
  {
    if !HasSignature(data) then Failure(BadSignature)
    else if !HasVersion(data) then Failure(BadVersion)
    else Blocks(data, 4, EmptyFont)
  }

  // ---------------------------------------------------------------------------
  // What the format promises

  /** Only the header checks report a bad signature or version; no block does. */
  lemma {:induction false} BlocksKeepHeaderErrors(data: seq<uint8>, at: nat, font: FontData)
    ensures Blocks(data, at, font) != Failure(BadSignature)
    ensures Blocks(data, at, font) != Failure(BadVersion)
    decreases |data| - at
  {
    if at < |data| {
      match Block(data, at, font)
      case Failure(e) =>
      case Success(next) => BlocksKeepHeaderErrors(data, next.cursor, next.font);
    }
  }

  /** A file is rejected for its signature exactly when it does not start with `BMF`. */
  lemma SignatureRequired(data: seq<uint8>)
    ensures LoadFont(data) == Failure(BadSignature) <==> !HasSignature(data)
  {
    BlocksKeepHeaderErrors(data, 4, EmptyFont);
  }

  /** After the signature, a file is rejected for its version exactly when the
      fourth byte is missing or is not 3. */
  lemma VersionRequired(data: seq<uint8>)
    requires HasSignature(data)
    ensures LoadFont(data) == Failure(BadVersion) <==> !HasVersion(data)
  {
    BlocksKeepHeaderErrors(data, 4, EmptyFont);
  }

  /** A header and nothing else is a font with no blocks read. */
  lemma HeaderOnly()
    ensures LoadFont(Signature + [FormatVersion]) == Success(EmptyFont)
  {
    assert (Signature + [FormatVersion])[..3] == Signature;
  }

  /** A block id outside 1..5 is rejected, whether or not its size can be read. */
  lemma UnknownBlockRejected(data: seq<uint8>, at: nat, font: FontData)
    requires at < |data|
    ensures Block(data, at, font) == Failure(BadBlockId(data[at]))
      <==> !(InfoBlockId <= data[at] <= KerningPairsBlockId)
  {
  }

  /** The kerning pairs block is skipped whole: the font is unchanged and the next
      block starts `blockSize` bytes after the header. */
  lemma KerningPairsSkipped(data: seq<uint8>, at: nat, font: FontData)
    requires at + 5 <= |data| && data[at] == KerningPairsBlockId
    ensures Block(data, at, font) == Success(Reading(font, at + 5 + Le32(data, at + 1)))
  {
  }

  /** The info block's name limit: the unsigned `blockSize - 14` exceeds 512 exactly
      when the block is shorter than 14 bytes or longer than 526. */
  lemma InfoNameLimit(data: seq<uint8>, at: nat, font: FontData, blockSize: uint32)
    requires at + 2 <= |data|
    ensures InfoBlock(data, at, font, blockSize) == Failure(FontNameTooLong)
      <==> blockSize < 14 || blockSize > 14 + MaxStringLength
  {
  }

  /** A successful info block consumes exactly `blockSize` bytes, stores the negated
      size, names the font by the block's bytes after its 14-byte header, and
      changes nothing else. */
  lemma InfoBlockContents(data: seq<uint8>, at: nat, font: FontData, blockSize: uint32)
    requires InfoBlock(data, at, font, blockSize).Success?
    ensures var next := InfoBlock(data, at, font, blockSize).value;
      && 14 <= blockSize <= 14 + MaxStringLength
      && next.cursor == at + blockSize
      && (next.font.fontSize + Int16(Le16(data, at))) % 0x1_0000 == 0
      && |next.font.fontName| == blockSize - 14
      && (forall k | 0 <= k < blockSize - 14 :: next.font.fontName[k] == data[at + 14 + k])
      && next.font == font.(fontSize := next.font.fontSize, fontName := next.font.fontName)
  {
  }

  /** The font name as `LoadBitmapFontFileInfoBlock` builds it: the name's bytes
      fill the front of a zeroed 512-byte buffer, and the string is made of the
      buffer's first `blockSize` bytes rather than its first `blockSize - 14`. A
      block longer than the buffer has the string read past its end (`None`). */
  function AsWrittenFontName(name: seq<uint8>, blockSize: uint32): (r: Option<seq<uint8>>)
    requires |name| <= MaxStringLength && blockSize == 14 + |name|
    ensures r.Some? <==> blockSize <= MaxStringLength
    ensures r.Some? ==> r.value == name + Zeros(14)
  {
    var buffer := name + Zeros(MaxStringLength - |name|);
    if blockSize > MaxStringLength then None
    else
      assert buffer[..blockSize] == name + Zeros(14);
      Some(buffer[..blockSize])
  }

  /** As written, the loaded name is never the name in the file. */
  lemma AsWrittenFontNameDiffers(name: seq<uint8>, blockSize: uint32)
    requires |name| <= MaxStringLength && blockSize == 14 + |name|
    ensures AsWrittenFontName(name, blockSize) != Some(name)
  {
  }

  /** A font named "Arial" comes back with fourteen NUL bytes after its name, and a
      500-byte name is read past the buffer; the info block as modelled reads both
      names back as they are. */
  lemma AsWrittenFontNameExample()
    ensures AsWrittenFontName([0x41, 0x72, 0x69, 0x61, 0x6C], 19)
      == Some([0x41, 0x72, 0x69, 0x61, 0x6C, 0, 0, 0, 0, 0, 0, 0, 0, 0, 0, 0, 0, 0, 0])
    ensures AsWrittenFontName(Zeros(500), 514).None?
    ensures InfoBlock(InfoBody(12, [0x41, 0x72, 0x69, 0x61, 0x6C]), 0, EmptyFont, 19)
      == Success(Reading(EmptyFont.(fontSize := 12, fontName := [0x41, 0x72, 0x69, 0x61, 0x6C]), 19))
    ensures InfoBlock(InfoBody(12, Zeros(500)), 0, EmptyFont, 514)
      == Success(Reading(EmptyFont.(fontSize := 12, fontName := Zeros(500)), 514))
  {
    var arial: seq<uint8> := [0x41, 0x72, 0x69, 0x61, 0x6C];
    assert arial + Zeros(14) == [0x41, 0x72, 0x69, 0x61, 0x6C, 0, 0, 0, 0, 0, 0, 0, 0, 0, 0, 0, 0, 0, 0];
    HoldsSlice(InfoBody(12, arial), 0, InfoBody(12, arial));
    HoldsInfoBody(InfoBody(12, arial), 0, EmptyFont, 12, arial);
    HoldsSlice(InfoBody(12, Zeros(500)), 0, InfoBody(12, Zeros(500)));
    HoldsInfoBody(InfoBody(12, Zeros(500)), 0, EmptyFont, 12, Zeros(500));
  }

  /** With its fields present, the common block is accepted exactly when the page
      count is one; it then consumes 15 bytes and sets line height and base only. */
  lemma CommonPageCount(data: seq<uint8>, at: nat, font: FontData)
    requires at + 10 <= |data|
    ensures CommonBlock(data, at, font).Success? <==> Le16(data, at + 8) == 1
    ensures CommonBlock(data, at, font).Success? ==>
      CommonBlock(data, at, font).value
        == Reading(font.(lineHeight := Le16(data, at), base := Le16(data, at + 2)), at + 15)
  {
  }

  /** The pages block rejects a name longer than 512 bytes; otherwise it consumes
      exactly `blockSize` bytes and they are the texture's file name. */
  lemma PagesNameLimit(data: seq<uint8>, at: nat, font: FontData, blockSize: uint32)
    ensures PagesBlock(data, at, font, blockSize) == Failure(PageNameTooLong) <==> blockSize > MaxStringLength
    ensures PagesBlock(data, at, font, blockSize).Success? ==>
      var next := PagesBlock(data, at, font, blockSize).value;
      && next.cursor == at + blockSize
      && next.font == font.(textureFileName := next.font.textureFileName)
      && |next.font.textureFileName| == blockSize
      && (forall k | 0 <= k < blockSize :: next.font.textureFileName[k] == data[at + k])
  {
  }

  /** After the chars block, the ids present are those there before and those of
      the records read. */
  lemma {:induction false} InsertRecordsKeys(data: seq<uint8>, at: nat, chars: map<uint32, CharacterData>, n: nat, k: uint32)
    requires RecordsReadable(data, at, n)
    ensures k in InsertRecords(data, at, chars, n)
      <==> k in chars || exists j | 0 <= j < n :: RecordAt(data, at, j).id == k
  {
    if n > 0 {
      InsertRecordsKeys(data, at, chars, n - 1, k);
      if k != RecordAt(data, at, n - 1).id && exists j | 0 <= j < n :: RecordAt(data, at, j).id == k {
        var j :| 0 <= j < n && RecordAt(data, at, j).id == k;
        assert j < n - 1;
      }
    }
  }

  /** A repeated id keeps the last record with that id. */
  lemma {:induction false} LastRecordWins(data: seq<uint8>, at: nat, chars: map<uint32, CharacterData>, n: nat, j: nat)
    requires RecordsReadable(data, at, n) && j < n
    requires forall later | j < later < n :: RecordAt(data, at, later).id != RecordAt(data, at, j).id
    ensures RecordAt(data, at, j).id in InsertRecords(data, at, chars, n)
    ensures InsertRecords(data, at, chars, n)[RecordAt(data, at, j).id] == RecordAt(data, at, j)
  {
    if j < n - 1 {
      LastRecordWins(data, at, chars, n - 1, j);
    }
  }

  /** An id no record carries keeps the entry it had. */
  lemma {:induction false} OtherIdsKept(data: seq<uint8>, at: nat, chars: map<uint32, CharacterData>, n: nat, k: uint32)
    requires RecordsReadable(data, at, n) && k in chars
    requires forall j | 0 <= j < n :: RecordAt(data, at, j).id != k
    ensures k in InsertRecords(data, at, chars, n) && InsertRecords(data, at, chars, n)[k] == chars[k]
  {
    if n > 0 {
      OtherIdsKept(data, at, chars, n - 1, k);
    }
  }

  /** The chars block reads `blockSize / 20` records and consumes 20 bytes for each. */
  lemma CharsBlockExtent(data: seq<uint8>, at: nat, font: FontData, blockSize: uint32)
    ensures CharsBlock(data, at, font, blockSize).Success? <==> RecordsReadable(data, at, blockSize / BytesPerChar)
    ensures CharsBlock(data, at, font, blockSize).Success? ==>
      var next := CharsBlock(data, at, font, blockSize).value;
      next.cursor == at + BytesPerChar * (blockSize / BytesPerChar)
      && next.font == font.(characters := next.font.characters)
  {
  }

  // ---------------------------------------------------------------------------
  // Writing a font file, as a partner to reading one

  /** A block as a generator writes it. */
  datatype WrittenBlock =
    | InfoWritten(fontSize: uint16, fontName: seq<uint8>)
    | CommonWritten(lineHeight: uint16, base: uint16)
    | PagesWritten(textureFileName: seq<uint8>)
    | CharsWritten(glyphs: seq<CharacterData>)
    | KerningWritten(pairs: seq<uint8>)

  /** Names within the 512-byte limit and block sizes that fit in 32 bits. */
  predicate Writable(b: WrittenBlock)
  {
    match b
    case InfoWritten(_, name) => |name| <= MaxStringLength
    case CommonWritten(_, _) => true
    case PagesWritten(name) => |name| <= MaxStringLength
    case CharsWritten(glyphs) => BytesPerChar * |glyphs| < 0x1_0000_0000
    case KerningWritten(pairs) => |pairs| < 0x1_0000_0000
  }

  predicate AllWritable(blocks: seq<WrittenBlock>)
  {
    blocks == [] || (Writable(blocks[0]) && AllWritable(blocks[1..]))
  }

  function Zeros(n: nat): (r: seq<uint8>)
    ensures |r| == n
  {
    seq(n, _ => 0)
  }

  function CharBytes(c: CharacterData): (r: seq<uint8>)
    ensures |r| == BytesPerChar
  {
    Le32Bytes(c.id) + Le16Bytes(c.textureX) + Le16Bytes(c.textureY) + Le16Bytes(c.width)
      + Le16Bytes(c.height) + Le16Bytes(c.offsetX) + Le16Bytes(c.offsetY) + Le16Bytes(c.advanceX)
      + Zeros(2)
  }

  function GlyphBytes(glyphs: seq<CharacterData>): (r: seq<uint8>)
    ensures |r| == BytesPerChar * |glyphs|
  {
    if glyphs == [] then [] else GlyphBytes(glyphs[..|glyphs| - 1]) + CharBytes(glyphs[|glyphs| - 1])
  }

  /** The info block's body holds the size negated, as BMFont files do. */
  function InfoBody(fontSize: uint16, name: seq<uint8>): (r: seq<uint8>)
    ensures |r| == 14 + |name|
  {
    Le16Bytes(NegatedInt16(fontSize)) + Zeros(12) + name
  }

  /** The common block's body: scaleW, scaleH and the last five bytes are zero. */
  function CommonBody(lineHeight: uint16, base: uint16): (r: seq<uint8>)
    ensures |r| == 15
  {
    Le16Bytes(lineHeight) + Le16Bytes(base) + Zeros(4) + Le16Bytes(1) + Zeros(5)
  }

  function BlockId(b: WrittenBlock): uint8
  {
    match b
    case InfoWritten(_, _) => InfoBlockId
    case CommonWritten(_, _) => CommonBlockId
    case PagesWritten(_) => PagesBlockId
    case CharsWritten(_) => CharsBlockId
    case KerningWritten(_) => KerningPairsBlockId
  }

  /** The size of a block's body, as its header records it. */
  function BodyLength(b: WrittenBlock): nat
  {
    match b
    case InfoWritten(_, name) => 14 + |name|
    case CommonWritten(_, _) => 15
    case PagesWritten(name) => |name|
    case CharsWritten(glyphs) => BytesPerChar * |glyphs|
    case KerningWritten(pairs) => |pairs|
  }

  /** The size of a file's blocks, headers included. */
  function BlocksLength(blocks: seq<WrittenBlock>): nat
  {
    if blocks == [] then 0 else 5 + BodyLength(blocks[0]) + BlocksLength(blocks[1..])
  }

  function BlockBody(b: WrittenBlock): (r: seq<uint8>)
    ensures |r| == BodyLength(b)
    ensures Writable(b) ==> |r| < 0x1_0000_0000
  {
    match b
    case InfoWritten(fontSize, name) => InfoBody(fontSize, name)
    case CommonWritten(lineHeight, base) => CommonBody(lineHeight, base)
    case PagesWritten(name) => name
    case CharsWritten(glyphs) => GlyphBytes(glyphs)
    case KerningWritten(pairs) => pairs
  }

  /** A block: its id, the size of its body as a 32-bit count, and the body. */
  function BlockBytes(id: uint8, body: seq<uint8>): (r: seq<uint8>)
    ensures |r| == 5 + |body|
  {
    [id] + Le32Bytes(ToUint32(|body|)) + body
  }

  function WrittenBytes(b: WrittenBlock): (r: seq<uint8>)
    ensures |r| == 5 + BodyLength(b)
  {
    BlockBytes(BlockId(b), BlockBody(b))
  }

  function AllBytes(blocks: seq<WrittenBlock>): (r: seq<uint8>)
    ensures |r| == BlocksLength(blocks)
  {
    if blocks == [] then [] else WrittenBytes(blocks[0]) + AllBytes(blocks[1..])
  }

  /** The glyph table after inserting `glyphs` in order into `chars`: a later glyph
      replaces an earlier one with the same id. */
  function InsertGlyphs(chars: map<uint32, CharacterData>, glyphs: seq<CharacterData>): map<uint32, CharacterData>
  {
    if glyphs == [] then chars
    else
      var c := glyphs[|glyphs| - 1];
      InsertGlyphs(chars, glyphs[..|glyphs| - 1])[c.id := c]
  }

  /** What a written block should do to the font: set its fields, add its glyphs,
      or, for kerning pairs, nothing. */
  function Apply(font: FontData, b: WrittenBlock): FontData
  {
    match b
    case InfoWritten(fontSize, name) => font.(fontSize := fontSize, fontName := name)
    case CommonWritten(lineHeight, base) => font.(lineHeight := lineHeight, base := base)
    case PagesWritten(name) => font.(textureFileName := name)
    case CharsWritten(glyphs) => font.(characters := InsertGlyphs(font.characters, glyphs))
    case KerningWritten(_) => font
  }

  function ApplyAll(font: FontData, blocks: seq<WrittenBlock>): FontData
    decreases |blocks|
  {
    if blocks == [] then font else ApplyAll(Apply(font, blocks[0]), blocks[1..])
  }

  /** A file as a generator writes it: the header, then the blocks. */
  function EncodeFile(blocks: seq<WrittenBlock>): seq<uint8>
  {
    Signature + [FormatVersion] + AllBytes(blocks)
  }

  /** `piece` lies in `data` from `at`, byte by byte. */
  predicate Holds(data: seq<uint8>, at: nat, piece: seq<uint8>)
    decreases |piece|
  {
    if piece == [] then at <= |data|
    else at < |data| && data[at] == piece[0] && Holds(data, at + 1, piece[1..])
  }

  lemma {:induction false} HoldsSlice(data: seq<uint8>, at: nat, piece: seq<uint8>)
    ensures Holds(data, at, piece) <==> at + |piece| <= |data| && data[at..at + |piece|] == piece
    decreases |piece|
  {
    if piece != [] {
      HoldsSlice(data, at + 1, piece[1..]);
      if at + |piece| <= |data| {
        assert data[at..at + |piece|] == [data[at]] + data[at + 1..at + |piece|];
        assert piece == [piece[0]] + piece[1..];
      }
    }
  }

  lemma HoldsSplit(data: seq<uint8>, at: nat, front: seq<uint8>, back: seq<uint8>)
    requires Holds(data, at, front + back)
    ensures Holds(data, at, front) && Holds(data, at + |front|, back)
  {
    HoldsSlice(data, at, front + back);
    HoldsSlice(data, at, front);
    HoldsSlice(data, at + |front|, back);
    assert data[at..at + |front|] == (front + back)[..|front|];
    assert data[at + |front|..at + |front| + |back|] == (front + back)[|front|..];
  }

  lemma HoldsLe16(data: seq<uint8>, at: nat, v: uint16)
    requires Holds(data, at, Le16Bytes(v))
    ensures at + 2 <= |data| && Le16(data, at) == v
  {
    HoldsSlice(data, at, Le16Bytes(v));
    assert data[at] == data[at..at + 2][0] && data[at + 1] == data[at..at + 2][1];
  }

  lemma HoldsLe32(data: seq<uint8>, at: nat, v: uint32)
    requires Holds(data, at, Le32Bytes(v))
    ensures at + 4 <= |data| && Le32(data, at) == v
  {
    HoldsSplit(data, at, Le16Bytes(v % 0x1_0000), Le16Bytes(v / 0x1_0000));
    HoldsLe16(data, at, v % 0x1_0000);
    HoldsLe16(data, at + 2, v / 0x1_0000);
  }

  /** `piece` as a span read from `at`. */
  lemma HoldsSpan(data: seq<uint8>, at: nat, piece: seq<uint8>)
    requires Holds(data, at, piece)
    ensures ReadSpan(data, at, |piece|) == Some(piece)
  {
    HoldsSlice(data, at, piece);
  }

  /** A written block header reads back as its id and the size of its body. */
  lemma HoldsHeader(data: seq<uint8>, at: nat, id: uint8, body: seq<uint8>)
    requires |body| < 0x1_0000_0000 && Holds(data, at, BlockBytes(id, body))
    ensures at + 5 <= |data| && data[at] == id && Le32(data, at + 1) == |body|
    ensures Holds(data, at + 5, body)
  {
    var size := ToUint32(|body|);
    HoldsSplit(data, at, [id] + Le32Bytes(size), body);
    HoldsSplit(data, at, [id], Le32Bytes(size));
    HoldsLe32(data, at + 1, size);
  }

  /** Reading back a written glyph record gives the glyph. */
  lemma HoldsRecord(data: seq<uint8>, start: nat, j: nat, c: CharacterData)
    requires Holds(data, start + BytesPerChar * j, CharBytes(c))
    ensures start + BytesPerChar * j + 18 <= |data| && RecordAt(data, start, j) == c
  {
    var at := start + BytesPerChar * j;
    var p1 := Le32Bytes(c.id) + Le16Bytes(c.textureX);
    var p2 := p1 + Le16Bytes(c.textureY);
    var p3 := p2 + Le16Bytes(c.width);
    var p4 := p3 + Le16Bytes(c.height);
    var p5 := p4 + Le16Bytes(c.offsetX);
    var p6 := p5 + Le16Bytes(c.offsetY);
    var p7 := p6 + Le16Bytes(c.advanceX);
    HoldsSplit(data, at, p7, Zeros(2));
    HoldsSplit(data, at, p6, Le16Bytes(c.advanceX));
    HoldsSplit(data, at, p5, Le16Bytes(c.offsetY));
    HoldsSplit(data, at, p4, Le16Bytes(c.offsetX));
    HoldsSplit(data, at, p3, Le16Bytes(c.height));
    HoldsSplit(data, at, p2, Le16Bytes(c.width));
    HoldsSplit(data, at, p1, Le16Bytes(c.textureY));
    HoldsSplit(data, at, Le32Bytes(c.id), Le16Bytes(c.textureX));
    HoldsLe32(data, at, c.id);
    HoldsLe16(data, at + 4, c.textureX);
    HoldsLe16(data, at + 6, c.textureY);
    HoldsLe16(data, at + 8, c.width);
    HoldsLe16(data, at + 10, c.height);
    HoldsLe16(data, at + 12, c.offsetX);
    HoldsLe16(data, at + 14, c.offsetY);
    HoldsLe16(data, at + 16, c.advanceX);
  }

  /** Written glyph records read back as the same glyphs, inserted in the same order. */
  lemma {:induction false} HoldsGlyphs(data: seq<uint8>, at: nat, chars: map<uint32, CharacterData>, glyphs: seq<CharacterData>)
    requires Holds(data, at, GlyphBytes(glyphs))
    ensures RecordsReadable(data, at, |glyphs|)
    ensures InsertRecords(data, at, chars, |glyphs|) == InsertGlyphs(chars, glyphs)
  {
    if glyphs != [] {
      var n := |glyphs|;
      var front, last := glyphs[..n - 1], glyphs[n - 1];
      assert GlyphBytes(glyphs) == GlyphBytes(front) + CharBytes(last);
      HoldsSplit(data, at, GlyphBytes(front), CharBytes(last));
      HoldsGlyphs(data, at, chars, front);
      assert |GlyphBytes(front)| == BytesPerChar * (n - 1);
      HoldsRecord(data, at, n - 1, last);
      assert InsertGlyphs(chars, glyphs) == InsertGlyphs(chars, front)[last.id := last];
    }
  }

  lemma NegateTwice(v: uint16)
    ensures NegatedInt16(NegatedInt16(v)) == v
  {
  }

  /** An info block whose stored size and name can be read. */
  lemma InfoBlockOf(data: seq<uint8>, at: nat, font: FontData, stored: uint16, name: seq<uint8>)
    requires at + 2 <= |data| && Le16(data, at) == stored
    requires |name| <= MaxStringLength && ReadSpan(data, at + 14, |name|) == Some(name)
    ensures InfoBlock(data, at, font, 14 + |name|)
      == Success(Reading(font.(fontSize := NegatedInt16(stored), fontName := name), at + 14 + |name|))
  {
  }

  /** A chars block of `n` readable records. */
  lemma CharsBlockOf(data: seq<uint8>, at: nat, font: FontData, n: nat, chars: map<uint32, CharacterData>)
    requires BytesPerChar * n < 0x1_0000_0000 && RecordsReadable(data, at, n)
    requires chars == InsertRecords(data, at, font.characters, n)
    ensures CharsBlock(data, at, font, BytesPerChar * n) == Success(Reading(font.(characters := chars), at + BytesPerChar * n))
  {
    assert (BytesPerChar * n) / BytesPerChar == n;
  }

  /** The reader that a block's id selects, as a result for the block's body. */
  function Reader(data: seq<uint8>, b: WrittenBlock, at: nat, font: FontData, blockSize: uint32): Result<Reading, FontError>
  {
    match b
    case InfoWritten(_, _) => InfoBlock(data, at, font, blockSize)
    case CommonWritten(_, _) => CommonBlock(data, at, font)
    case PagesWritten(_) => PagesBlock(data, at, font, blockSize)
    case CharsWritten(_) => CharsBlock(data, at, font, blockSize)
    case KerningWritten(_) => Success(Reading(font, at + blockSize))
  }

  /** A written info body reads back as the size and name written. */
  lemma HoldsInfoBody(data: seq<uint8>, at: nat, font: FontData, fontSize: uint16, name: seq<uint8>)
    requires |name| <= MaxStringLength && Holds(data, at, InfoBody(fontSize, name))
    ensures InfoBlock(data, at, font, 14 + |name|)
      == Success(Reading(font.(fontSize := fontSize, fontName := name), at + 14 + |name|))
  {
    var stored := NegatedInt16(fontSize);
    HoldsSplit(data, at, Le16Bytes(stored) + Zeros(12), name);
    HoldsSplit(data, at, Le16Bytes(stored), Zeros(12));
    HoldsLe16(data, at, stored);
    NegateTwice(fontSize);
    HoldsSpan(data, at + 14, name);
    InfoBlockOf(data, at, font, stored, name);
  }

  /** A written common body reads back as the line height and base written. */
  lemma HoldsCommonBody(data: seq<uint8>, at: nat, font: FontData, lineHeight: uint16, base: uint16)
    requires Holds(data, at, CommonBody(lineHeight, base))
    ensures CommonBlock(data, at, font) == Success(Reading(font.(lineHeight := lineHeight, base := base), at + 15))
  {
    var sizes := Le16Bytes(lineHeight) + Le16Bytes(base);
    HoldsSplit(data, at, sizes + Zeros(4) + Le16Bytes(1), Zeros(5));
    HoldsSplit(data, at, sizes + Zeros(4), Le16Bytes(1));
    HoldsSplit(data, at, sizes, Zeros(4));
    HoldsSplit(data, at, Le16Bytes(lineHeight), Le16Bytes(base));
    HoldsLe16(data, at, lineHeight);
    HoldsLe16(data, at + 2, base);
    HoldsLe16(data, at + 8, 1);
  }

  /** A written pages body reads back as the texture file name written. */
  lemma HoldsPagesBody(data: seq<uint8>, at: nat, font: FontData, name: seq<uint8>)
    requires |name| <= MaxStringLength && Holds(data, at, name)
    ensures PagesBlock(data, at, font, |name|) == Success(Reading(font.(textureFileName := name), at + |name|))
  {
    HoldsSpan(data, at, name);
  }

  /** Written glyph records read back as the glyphs written, inserted in order. */
  lemma HoldsCharsBody(data: seq<uint8>, at: nat, font: FontData, glyphs: seq<CharacterData>)
    requires BytesPerChar * |glyphs| < 0x1_0000_0000 && Holds(data, at, GlyphBytes(glyphs))
    ensures CharsBlock(data, at, font, BytesPerChar * |glyphs|)
      == Success(Reading(font.(characters := InsertGlyphs(font.characters, glyphs)), at + BytesPerChar * |glyphs|))
  {
    HoldsGlyphs(data, at, font.characters, glyphs);
    CharsBlockOf(data, at, font, |glyphs|, InsertGlyphs(font.characters, glyphs));
  }

  /** A written body reads back as what the block should do to the font. */
  lemma HoldsBody(data: seq<uint8>, at: nat, font: FontData, b: WrittenBlock)
    requires Writable(b) && Holds(data, at, BlockBody(b))
    ensures Reader(data, b, at, font, BodyLength(b)) == Success(Reading(Apply(font, b), at + BodyLength(b)))
  {
    match b
    case InfoWritten(fontSize, name) => HoldsInfoBody(data, at, font, fontSize, name);
    case CommonWritten(lineHeight, base) => HoldsCommonBody(data, at, font, lineHeight, base);
    case PagesWritten(name) => HoldsPagesBody(data, at, font, name);
    case CharsWritten(glyphs) => HoldsCharsBody(data, at, font, glyphs);
    case KerningWritten(_) =>
  }

  /** A block whose header and body read well. */
  lemma BlockStep(data: seq<uint8>, at: nat, font: FontData, b: WrittenBlock, next: Reading)
    requires at + 5 <= |data| && data[at] == BlockId(b)
    requires Reader(data, b, at + 5, font, Le32(data, at + 1)) == Success(next)
    ensures Block(data, at, font) == Success(next)
  {
  }

  /** The block at `at` does to any font what `b` should, and ends where `b` does. */
  ghost predicate ReadsAs(data: seq<uint8>, at: nat, b: WrittenBlock)
  {
    at < |data| && forall font :: Block(data, at, font) == Success(Reading(Apply(font, b), at + 5 + BodyLength(b)))
  }

  /** A written block reads back as what it should do to the font. */
  lemma HoldsWritten(data: seq<uint8>, at: nat, b: WrittenBlock)
    requires Writable(b) && Holds(data, at, WrittenBytes(b))
    ensures ReadsAs(data, at, b)
  {
    HoldsHeader(data, at, BlockId(b), BlockBody(b));
    forall font ensures Block(data, at, font) == Success(Reading(Apply(font, b), at + 5 + BodyLength(b))) {
      HoldsBody(data, at + 5, font, b);
      BlockStep(data, at, font, b, Reading(Apply(font, b), at + 5 + BodyLength(b)));
    }
  }

  /** Each of `blocks` reads back from `data`, one after the other from `at`. */
  ghost predicate Laid(data: seq<uint8>, at: nat, blocks: seq<WrittenBlock>)
    decreases |blocks|
  {
    blocks == [] || (ReadsAs(data, at, blocks[0]) && Laid(data, at + 5 + BodyLength(blocks[0]), blocks[1..]))
  }

  lemma {:induction false} HoldsLaid(data: seq<uint8>, at: nat, blocks: seq<WrittenBlock>)
    requires AllWritable(blocks) && Holds(data, at, AllBytes(blocks))
    ensures Laid(data, at, blocks)
    decreases |blocks|
  {
    if blocks != [] {
      HoldsSplit(data, at, WrittenBytes(blocks[0]), AllBytes(blocks[1..]));
      HoldsWritten(data, at, blocks[0]);
      HoldsLaid(data, at + 5 + BodyLength(blocks[0]), blocks[1..]);
    }
  }

  /** Blocks that run to the end of the file read back one after the other. */
  lemma {:induction false} LaidBlocks(data: seq<uint8>, at: nat, font: FontData, blocks: seq<WrittenBlock>)
    requires Laid(data, at, blocks) && at + BlocksLength(blocks) == |data|
    ensures Blocks(data, at, font) == Success(ApplyAll(font, blocks))
    decreases |blocks|
  {
    if blocks != [] {
      LaidBlocks(data, at + 5 + BodyLength(blocks[0]), Apply(font, blocks[0]), blocks[1..]);
    }
  }

  /** Reading a written font file gives back what its blocks should do to an empty
      font: block by block, with a later block or glyph replacing an earlier one. */
  lemma LoadWrittenFile(blocks: seq<WrittenBlock>)
    requires AllWritable(blocks)
    ensures LoadFont(EncodeFile(blocks)) == Success(ApplyAll(EmptyFont, blocks))
  {
    var data, header := EncodeFile(blocks), Signature + [FormatVersion];
    HoldsSlice(data, 0, data);
    HoldsSplit(data, 0, header, AllBytes(blocks));
    LoadHeld(data, blocks);
  }

  lemma LoadHeld(data: seq<uint8>, blocks: seq<WrittenBlock>)
    requires AllWritable(blocks)
    requires Holds(data, 0, Signature + [FormatVersion]) && Holds(data, 4, AllBytes(blocks))
    requires |data| == 4 + BlocksLength(blocks)
    ensures LoadFont(data) == Success(ApplyAll(EmptyFont, blocks))
  {
    HoldsSlice(data, 0, Signature + [FormatVersion]);
    assert data[..3] == Signature;
    HoldsLaid(data, 4, blocks);
    LaidBlocks(data, 4, EmptyFont, blocks);
  }

  /** A font as BMFont generators lay it out: info, common, pages, then chars. */
  function StandardBlocks(fontSize: uint16, fontName: seq<uint8>, lineHeight: uint16, base: uint16,
                          textureFileName: seq<uint8>, glyphs: seq<CharacterData>): seq<WrittenBlock>
  {
    [InfoWritten(fontSize, fontName), CommonWritten(lineHeight, base), PagesWritten(textureFileName),
     CharsWritten(glyphs)]
  }

  /** The four standard blocks can be written exactly when both names fit and the
      glyph table's size fits in 32 bits. */
  lemma StandardWritable(fontSize: uint16, fontName: seq<uint8>, lineHeight: uint16, base: uint16,
                         textureFileName: seq<uint8>, glyphs: seq<CharacterData>)
    ensures AllWritable(StandardBlocks(fontSize, fontName, lineHeight, base, textureFileName, glyphs))
      <==> |fontName| <= MaxStringLength && |textureFileName| <= MaxStringLength
           && BytesPerChar * |glyphs| < 0x1_0000_0000
  {
    var blocks := StandardBlocks(fontSize, fontName, lineHeight, base, textureFileName, glyphs);
    var tail1 := blocks[1..];
    var tail2 := tail1[1..];
    var tail3 := tail2[1..];
    assert tail3[1..] == [];
    assert AllWritable(tail3) == Writable(CharsWritten(glyphs));
    assert AllWritable(tail2) == (Writable(PagesWritten(textureFileName)) && AllWritable(tail3));
    assert AllWritable(tail1) == AllWritable(tail2);
    assert AllWritable(blocks) == (Writable(InfoWritten(fontSize, fontName)) && AllWritable(tail1));
  }

  /** The four standard blocks describe the font with those fields; with
      `LoadWrittenFile`, that is the font a standard file reads back as. */
  lemma StandardFont(fontSize: uint16, fontName: seq<uint8>, lineHeight: uint16, base: uint16,
                     textureFileName: seq<uint8>, glyphs: seq<CharacterData>)
    ensures ApplyAll(EmptyFont, StandardBlocks(fontSize, fontName, lineHeight, base, textureFileName, glyphs))
      == FontData(fontSize, fontName, lineHeight, base, textureFileName, InsertGlyphs(map[], glyphs))
  {
    var blocks := StandardBlocks(fontSize, fontName, lineHeight, base, textureFileName, glyphs);
    var tail1 := blocks[1..];
    var tail2 := tail1[1..];
    var tail3 := tail2[1..];
    assert tail3[1..] == [];
    var font1 := EmptyFont.(fontSize := fontSize, fontName := fontName);
    var font2 := font1.(lineHeight := lineHeight, base := base);
    var font3 := font2.(textureFileName := textureFileName);
    assert ApplyAll(font3, tail3) == font3.(characters := InsertGlyphs(map[], glyphs));
    assert ApplyAll(font2, tail2) == ApplyAll(font3, tail3);
    assert ApplyAll(font1, tail1) == ApplyAll(font2, tail2);
  }

  // ---------------------------------------------------------------------------
  // The reader: a cursor over the file and the font it fills in

  datatype Status = Done | Failed(error: FontError)

  /** A block reader's result in the same shape as the block functions'. */
  function AsResult(status: Status, font: FontData, cursor: nat): Result<Reading, FontError>
  {
    match status
    case Done => Success(Reading(font, cursor))
    case Failed(e) => Failure(e)
  }

  class FontReader {
    const Data: seq<uint8>
    var Cursor: nat
    var Font: FontData

    constructor(data: seq<uint8>)
      ensures Data == data && Cursor == 0 && Font == EmptyFont
    {
      Data := data;
      Cursor := 0;
      Font := EmptyFont;
    }

    /** `file.seekg(n, std::ios::cur)`: seeking never fails, even past the end. */
    method Skip(n: nat)
      modifies this
      ensures Cursor == old(Cursor) + n && Font == old(Font)
    {
      Cursor := Cursor + n;
    }

    method ReadU8() returns (r: Option<uint8>)
      modifies this
      ensures Font == old(Font)
      ensures old(Cursor) < |Data| ==> r == Some(Data[old(Cursor)]) && Cursor == old(Cursor) + 1
      ensures old(Cursor) >= |Data| ==> r.None? && Cursor == old(Cursor)
    {
      if Cursor < |Data| {
        r := Some(Data[Cursor]);
        Cursor := Cursor + 1;
      } else {
        r := None;
      }
    }

    method ReadU16() returns (r: Option<uint16>)
      modifies this
      ensures Font == old(Font)
      ensures old(Cursor) + 2 <= |Data| ==> r == Some(Le16(Data, old(Cursor))) && Cursor == old(Cursor) + 2
      ensures old(Cursor) + 2 > |Data| ==> r.None? && Cursor == old(Cursor)
    {
      if Cursor + 2 <= |Data| {
        r := Some(Data[Cursor] as int + 0x100 * Data[Cursor + 1] as int);
        Cursor := Cursor + 2;
      } else {
        r := None;
      }
    }

    method ReadU32() returns (r: Option<uint32>)
      modifies this
      ensures Font == old(Font)
      ensures old(Cursor) + 4 <= |Data| ==> r == Some(Le32(Data, old(Cursor))) && Cursor == old(Cursor) + 4
      ensures old(Cursor) + 4 > |Data| ==> r.None? && Cursor == old(Cursor)
    {
      if Cursor + 4 <= |Data| {
        var low := ReadU16();
        var high := ReadU16();
        r := Some(low.value + 0x1_0000 * high.value);
      } else {
        r := None;
      }
    }

    method ReadBytes(n: nat) returns (r: Option<seq<uint8>>)
      modifies this
      ensures Font == old(Font)
      ensures r == ReadSpan(Data, old(Cursor), n)
      ensures Cursor == if r.Some? then old(Cursor) + n else old(Cursor)
    {
      if n == 0 {
        r := Some([]);
      } else if Cursor + n <= |Data| {
        r := Some(Data[Cursor..Cursor + n]);
        Cursor := Cursor + n;
      } else {
        r := None;
      }
    }

    /** `LoadBitmapFontFileInfoBlock`. */
    method LoadInfoBlock(blockSize: uint32) returns (status: Status)
      modifies this
      ensures AsResult(status, Font, Cursor) == InfoBlock(Data, old(Cursor), old(Font), blockSize)
    {
      var fontSize := ReadU16();
      if fontSize.None? {
        return Failed(Truncated);
      }
      Font := Font.(fontSize := NegatedInt16(fontSize.value));
      Skip(12);
      var nameLength := InfoNameLength(blockSize);
      if nameLength > MaxStringLength {
        return Failed(FontNameTooLong);
      }
      var name := ReadBytes(nameLength);
      if name.None? {
        return Failed(Truncated);
      }
      Font := Font.(fontName := name.value);
      status := Done;
    }

    /** `LoadBitmapFontFileCommonBlock`. */
    method LoadCommonBlock() returns (status: Status)
      modifies this
      ensures AsResult(status, Font, Cursor) == CommonBlock(Data, old(Cursor), old(Font))
    {
      var lineHeight := ReadU16();
      var base := ReadU16();
      if lineHeight.None? || base.None? {
        return Failed(Truncated);
      }
      Font := Font.(lineHeight := lineHeight.value, base := base.value);
      Skip(4);
      var pageCount := ReadU16();
      if pageCount.None? {
        return Failed(Truncated);
      }
      if pageCount.value != 1 {
        return Failed(UnsupportedPageCount(pageCount.value));
      }
      Skip(5);
      status := Done;
    }

    /** `LoadBitmapFontFilePagesBlock`. */
    method LoadPagesBlock(blockSize: uint32) returns (status: Status)
      modifies this
      ensures AsResult(status, Font, Cursor) == PagesBlock(Data, old(Cursor), old(Font), blockSize)
    {
      if blockSize > MaxStringLength {
        return Failed(PageNameTooLong);
      }
      var name := ReadBytes(blockSize);
      if name.None? {
        return Failed(Truncated);
      }
      Font := Font.(textureFileName := name.value);
      status := Done;
    }

    /** The eight fields of one glyph record, without the two bytes after them. */
    method ReadCharacter() returns (r: Option<CharacterData>)
      modifies this
      ensures Font == old(Font)
      ensures old(Cursor) + 18 <= |Data| ==> r == Some(Record(Data, old(Cursor))) && Cursor == old(Cursor) + 18
      ensures old(Cursor) + 18 > |Data| ==> r.None? && Cursor == old(Cursor)
    {
      if Cursor + 18 > |Data| {
        return None;
      }
      var id := ReadU32();
      var textureX := ReadU16();
      var textureY := ReadU16();
      var width := ReadU16();
      var height := ReadU16();
      var offsetX := ReadU16();
      var offsetY := ReadU16();
      var advanceX := ReadU16();
      r := Some(CharacterData(id.value, textureX.value, textureY.value, width.value, height.value,
                              offsetX.value, offsetY.value, advanceX.value));
    }

    /** `LoadBitmapFontFileCharsBlock`: each record replaces any earlier one with its id. */
    method LoadCharsBlock(blockSize: uint32) returns (status: Status)
      modifies this
      ensures AsResult(status, Font, Cursor) == CharsBlock(Data, old(Cursor), old(Font), blockSize)
    {
      var numChars := blockSize / BytesPerChar;
      ghost var start, before := Cursor, Font;
      for i := 0 to numChars
        invariant Cursor == start + BytesPerChar * i
        invariant RecordsReadable(Data, start, i)
        invariant Font == before.(characters := InsertRecords(Data, start, before.characters, i))
      {
        var character := ReadCharacter();
        if character.None? {
          return Failed(Truncated);
        }
        Skip(2);
        Font := Font.(characters := Font.characters[character.value.id := character.value]);
      }
      status := Done;
    }

    /** `LoadBitmapFontFileBlock`. */
    method LoadBlock() returns (status: Status)
      requires Cursor < |Data|
      modifies this
      ensures AsResult(status, Font, Cursor) == Block(Data, old(Cursor), old(Font))
    {
      var id := ReadU8();
      var blockSize := ReadU32();
      if !(InfoBlockId <= id.value <= KerningPairsBlockId) {
        return Failed(BadBlockId(id.value));
      }
      if blockSize.None? {
        return Failed(Truncated);
      }
      if id.value == InfoBlockId {
        status := LoadInfoBlock(blockSize.value);
      } else if id.value == CommonBlockId {
        status := LoadCommonBlock();
      } else if id.value == PagesBlockId {
        status := LoadPagesBlock(blockSize.value);
      } else if id.value == CharsBlockId {
        status := LoadCharsBlock(blockSize.value);
      } else {
        Skip(blockSize.value);
        status := Done;
      }
    }
  }

  /** `LoadBitmapFontData`: the signature, the version, then blocks until the end. */
  method LoadBitmapFontData(data: seq<uint8>) returns (r: Result<FontData, FontError>)
    ensures r == LoadFont(data)
  {
    var reader := new FontReader(data);
    var signature := reader.ReadBytes(|Signature|);
    if signature.None? || signature.value != Signature {
      return Failure(BadSignature);
    }
    var version := reader.ReadU8();
    if version.None? || version.value != FormatVersion {
      return Failure(BadVersion);
    }
    while reader.Cursor < |data|
      invariant reader.Data == data
      invariant Blocks(data, reader.Cursor, reader.Font) == LoadFont(data)
      decreases |data| - reader.Cursor
    {
      var status := reader.LoadBlock();
      if status.Failed? {
        return Failure(status.error);
      }
    }
    r := Success(reader.Font);
  }

  // ---------------------------------------------------------------------------
  // The painter

  /** `TextPainter`: the font it was built from. Its texture is not part of this model. */
  class TextPainter {
    const Font: FontData

    constructor(font: FontData)
      ensures Font == font
    {
      Font := font;
    }

    /** `TextPainter::FromBitmapFont`: a painter whose font is the file's, or the
        error that the loader throws. */
    static method FromBitmapFont(data: seq<uint8>) returns (r: Result<TextPainter, FontError>)
      ensures r.Success? <==> LoadFont(data).Success?
      ensures r.Success? ==> fresh(r.value) && r.value.Font == LoadFont(data).value
      ensures r.Failure? ==> r.error == LoadFont(data).error
    {
      var loaded := LoadBitmapFontData(data);
      if loaded.Failure? {
        return Failure(loaded.error);
      }
      var painter := new TextPainter(loaded.value);
      r := Success(painter);
    }

    /** `TextPainter::PaintText` draws nothing yet. */
    method PaintText(target: RenderTargets.RenderTarget, text: string)
      ensures target.Buffer[..] == old(target.Buffer[..]) && target.ZBuffer[..] == old(target.ZBuffer[..])
    {
    }
  }
}
