// The PNG and ICO writers of scripts/generate-logo-assets.mjs, and a reader that follows
// sections 5.2, 5.3, 7.2, 9.2 and 11.2.2 of ISO/IEC 15948.
module Png {
  import opened Bytes
  import opened Checksum
  import opened Outcomes

  datatype WriteError = RangeError

  // A zlib implementation: inflate undoes deflate and refuses what it cannot read.
  datatype Zlib = Zlib(deflate: seq<Byte> -> seq<Byte>, inflate: seq<Byte> -> Option<seq<Byte>>)
  {
    ghost predicate Lossless()
    {
      forall raw: seq<Byte> :: inflate(deflate(raw)) == Some(raw)
    }
  }

  datatype Image = Image(width: nat, height: nat, rgba: seq<Byte>)
  {
    ghost predicate Sized()
    {
      |rgba| == width * 4 * height
    }
  }

  const SIGNATURE: seq<Byte> := [0x89, 0x50, 0x4e, 0x47, 0x0d, 0x0a, 0x1a, 0x0a]
  const IHDR: seq<Byte> := [0x49, 0x48, 0x44, 0x52]
  const IDAT: seq<Byte> := [0x49, 0x44, 0x41, 0x54]
  const IEND: seq<Byte> := [0x49, 0x45, 0x4e, 0x44]

  // Bit depth 8, colour type 6, and the only compression, filter and interlace methods used.
  const FORMAT: seq<Byte> := [8, 6, 0, 0, 0]

  // What four bytes can hold, and what the format allows them to hold.
  const UINT32_LIMIT: nat := 0x1_0000_0000
  const PNG_LIMIT: nat := 0x8000_0000

  // ----- Writer: what is written -----

  function WordValue(w: bv32): (n: nat)
    ensures n < UINT32_LIMIT && n as bv32 == w
  {
    w as nat
  }

  // A word as the file holds it, most significant byte first.
  function WordField(w: bv32): (s: seq<Byte>)
    ensures |s| == 4
  {
    BigEndian(WordValue(w), 4)
  }

  function CrcField(body: seq<Byte>): (s: seq<Byte>)
    ensures |s| == 4
  {
    WordField(Crc(body))
  }

  function ChunkBytes(kind: seq<Byte>, data: seq<Byte>): seq<Byte>
  {
    BigEndian(|data|, 4) + (kind + data) + CrcField(kind + data)
  }

  function HeaderData(width: nat, height: nat): (s: seq<Byte>)
    ensures |s| == 13
  {
    BigEndian(width, 4) + BigEndian(height, 4) + FORMAT
  }

  // Each scanline preceded by filter type 0.
  function Scanlines(stride: nat, height: nat, pixels: seq<Byte>): (raw: seq<Byte>)
    requires |pixels| == Rows(stride, height)
    ensures |raw| == Rows(stride + 1, height)
  {
    hide Rows;
    if height == 0 then
      NoRows(stride + 1);
      []
    else
      RowFits(stride, height - 1, height);
      RowFits(stride + 1, height - 1, height);
      var split := Rows(stride, height - 1);
      Scanlines(stride, height - 1, pixels[..split]) + ([0] + pixels[split..])
  }

  function PngBytes(image: Image, zlib: Zlib): Result<seq<Byte>, WriteError>
    requires image.Sized()
  {
    var data := zlib.deflate(Scanlines(image.width * 4, image.height, image.rgba));
    if image.width < UINT32_LIMIT && image.height < UINT32_LIMIT && |data| < UINT32_LIMIT then
      Ok(SIGNATURE + ChunkBytes(IHDR, HeaderData(image.width, image.height)) + ChunkBytes(IDAT, data)
        + ChunkBytes(IEND, []))
    else
      Err(RangeError)
  }

  // ----- Writer: the methods of the source -----

  method Chunk(kind: seq<Byte>, data: seq<Byte>) returns (r: Result<seq<Byte>, WriteError>)
    ensures r == if |data| < UINT32_LIMIT then Ok(ChunkBytes(kind, data)) else Err(RangeError)
  {
    if |data| >= UINT32_LIMIT {
      return Err(RangeError);
    }
    var body := kind + data;
    var c := Crc32(body);
    r := Ok(BigEndian(|data|, 4) + body + WordField(c));
  }

  // How many bytes n rows of the given width take.
  function Rows(width: nat, n: nat): (size: nat)
    ensures size == width * n
  {
    if n == 0 then 0 else Rows(width, n - 1) + width
  }

  lemma {:induction false} RowFits(width: nat, y: nat, height: nat)
    requires y < height
    ensures Rows(width, y + 1) == Rows(width, y) + width <= Rows(width, height)
    decreases height
  {
    if y + 1 < height {
      RowFits(width, y, height - 1);
    }
  }

  lemma NoRows(width: nat)
    ensures Rows(width, 0) == 0
  {
  }

  lemma ScanlinesStep(stride: nat, y: nat, pixels: seq<Byte>)
    requires Rows(stride, y + 1) == Rows(stride, y) + stride <= |pixels|
    ensures Scanlines(stride, y + 1, pixels[..Rows(stride, y + 1)])
         == Scanlines(stride, y, pixels[..Rows(stride, y)]) + ([0] + pixels[Rows(stride, y)..Rows(stride, y) + stride])
  {
    var row := pixels[..Rows(stride, y + 1)];
    assert row[..Rows(stride, y)] == pixels[..Rows(stride, y)];
    assert row[Rows(stride, y)..] == pixels[Rows(stride, y)..Rows(stride, y) + stride];
  }

  // One row: the filter byte, then the copied pixels.
  method FillRow(raw: array<Byte>, rowStart: nat, row: seq<Byte>)
    requires rowStart + 1 + |row| <= raw.Length
    modifies raw
    ensures raw[..rowStart + 1 + |row|] == old(raw[..rowStart]) + ([0] + row)
  {
    raw[rowStart] := 0;
    forall j | 0 <= j < |row| {
      raw[rowStart + 1 + j] := row[j];
    }
  }

  // Fills the scanline buffer in place, row by row.
  method FillScanlines(width: nat, height: nat, rgba: seq<Byte>) returns (raw: array<Byte>)
    requires |rgba| == width * 4 * height
    ensures fresh(raw) && raw[..] == Scanlines(width * 4, height, rgba)
  {
    hide Rows, Scanlines;
    var stride := width * 4;
    raw := new Byte[Rows(stride + 1, height)](_ => 0);
    NoRows(stride);
    NoRows(stride + 1);
    NothingScanned(stride);
    ghost var rows: seq<Byte> := [];
    for y := 0 to height
      invariant Rows(stride, y) <= |rgba| == Rows(stride, height) && Rows(stride + 1, y) <= raw.Length
      invariant rows == Scanlines(stride, y, rgba[..Rows(stride, y)])
      invariant raw[..Rows(stride + 1, y)] == rows
    {
      var rowStart, from := Rows(stride + 1, y), Rows(stride, y);
      RowFits(stride, y, height);
      RowFits(stride + 1, y, height);
      FillRow(raw, rowStart, rgba[from..from + stride]);
      ScanlinesStep(stride, y, rgba);
      rows := rows + ([0] + rgba[from..from + stride]);
    }
    assert rgba[..|rgba|] == rgba;
    assert raw[..raw.Length] == raw[..];
  }

  lemma NothingScanned(stride: nat)
    ensures Scanlines(stride, 0, []) == []
  {
  }

  // Every caller allocates the pixel buffer as width * height * 4 bytes.
  method EncodePng(image: Image, zlib: Zlib) returns (r: Result<seq<Byte>, WriteError>)
    requires image.Sized()
    ensures r == PngBytes(image, zlib)
  {
    hide Scanlines, ChunkBytes, BigEndian, SIGNATURE, IHDR, IDAT, IEND;
    var raw := FillScanlines(image.width, image.height, image.rgba);
    var compressed := zlib.deflate(raw[..]);
    if image.width >= UINT32_LIMIT || image.height >= UINT32_LIMIT {
      return Err(RangeError);
    }
    var ihdr := BigEndian(image.width, 4) + BigEndian(image.height, 4) + FORMAT;
    var header := Chunk(IHDR, ihdr);
    var idat := Chunk(IDAT, compressed);
    var iend := Chunk(IEND, []);
    if idat.Err? {
      return Err(RangeError);
    }
    r := Ok(SIGNATURE + header.value + idat.value + iend.value);
  }

  // ----- Reader -----

  datatype ChunkRead = ChunkRead(kind: seq<Byte>, data: seq<Byte>, rest: seq<Byte>)

  function ReadChunk(s: seq<Byte>): (r: Option<ChunkRead>)
    ensures r.Some? ==> |r.value.rest| < |s|
  {
    if |s| < 12 then None
    else
      var n := ReadBigEndian(s[..4]);
      if n >= PNG_LIMIT || |s| < n + 12 then None
      else if s[n + 8..n + 12] != CrcField(s[4..n + 8]) then None
      else Some(ChunkRead(s[4..8], s[8..n + 8], s[n + 12..]))
  }

  // Everything from the second chunk on: image data up to an empty IEND that ends the file.
  function ReadImageData(s: seq<Byte>): Option<seq<Byte>>
    decreases |s|
  {
    match ReadChunk(s)
    case None => None
    case Some(c) =>
      if Spells(c.kind, "IEND") then
        if c.data == [] && c.rest == [] then Some([]) else None
      else if Spells(c.kind, "IDAT") then
        match ReadImageData(c.rest)
        case None => None
        case Some(more) => Some(c.data + more)
      else None
  }

  // Undoes filter type 0; no other type is ever written.
  function Unfilter(stride: nat, height: nat, raw: seq<Byte>): (r: Option<seq<Byte>>)
    decreases height
  {
    if height == 0 then
      if raw == [] then Some([]) else None
    else if |raw| < stride + 1 then None
    else
      var split := |raw| - (stride + 1);
      if raw[split] != 0 then None
      else
        match Unfilter(stride, height - 1, raw[..split])
        case None => None
        case Some(rows) => Some(rows + raw[split + 1..])
  }

  // Bytes that are the characters of a name.
  predicate Spells(s: seq<Byte>, name: string)
  {
    |s| == |name| && forall i :: 0 <= i < |name| ==> ToNat(s[i]) == name[i] as int
  }

  predicate IsSignature(s: seq<Byte>)
  {
    && |s| == 8
    && ToNat(s[0]) == 137 && ToNat(s[1]) == 80 && ToNat(s[2]) == 78 && ToNat(s[3]) == 71
    && ToNat(s[4]) == 13 && ToNat(s[5]) == 10 && ToNat(s[6]) == 26 && ToNat(s[7]) == 10
  }

  // The combinations of colour type and bit depth that table 11.1 allows.
  predicate FormatAllowed(colour: nat, depth: nat)
  {
    || (colour == 0 && depth in {1, 2, 4, 8, 16})
    || (colour == 2 && depth in {8, 16})
    || (colour == 3 && depth in {1, 2, 4, 8})
    || (colour == 4 && depth in {8, 16})
    || (colour == 6 && depth in {8, 16})
  }

  // Samples per pixel: colour types 2 and 6 have three colours, types 4 and 6 an alpha sample.
  function Samples(colour: nat): nat
  {
    (if colour == 2 || colour == 6 then 3 else 1) + if colour >= 4 then 1 else 0
  }

  datatype HeaderRead = HeaderRead(width: nat, height: nat, depth: nat, colour: nat, rest: seq<Byte>)

  // The signature and the header of an image without interlacing.
  function ReadHeader(s: seq<Byte>): Option<HeaderRead>
  {
    if |s| < 8 || !IsSignature(s[..8]) then None
    else
      match ReadChunk(s[8..])
      case None => None
      case Some(c) =>
        if !Spells(c.kind, "IHDR") || |c.data| != 13 then None
        else
          var width, height := ReadBigEndian(c.data[..4]), ReadBigEndian(c.data[4..8]);
          var depth, colour := ToNat(c.data[8]), ToNat(c.data[9]);
          if !(0 < width < PNG_LIMIT && 0 < height < PNG_LIMIT) || !FormatAllowed(colour, depth) then None
          else if ToNat(c.data[10]) != 0 || ToNat(c.data[11]) != 0 || ToNat(c.data[12]) != 0 then None
          else Some(HeaderRead(width, height, depth, colour, c.rest))
  }

  function ReadPixels(stride: nat, height: nat, s: seq<Byte>, zlib: Zlib): Option<seq<Byte>>
  {
    match ReadImageData(s)
    case None => None
    case Some(data) =>
      match zlib.inflate(data)
      case None => None
      case Some(raw) => Unfilter(stride, height, raw)
  }

  // An image of four samples of eight bits per pixel.
  function ReadPng(s: seq<Byte>, zlib: Zlib): Option<Image>
  {
    match ReadHeader(s)
    case None => None
    case Some(h) =>
      if Samples(h.colour) != 4 || h.depth != 8 then None
      else
        match ReadPixels(h.width * 4, h.height, h.rest, zlib)
        case None => None
        case Some(rgba) => Some(Image(h.width, h.height, rgba))
  }

  // ----- Round trips -----

  lemma Slices(a: seq<Byte>, b: seq<Byte>, c: seq<Byte>, d: seq<Byte>)
    ensures var s := a + b + c + d;
      && s[..|a|] == a
      && s[|a|..|a| + |b|] == b
      && s[|a| + |b|..|a| + |b| + |c|] == c
      && s[|a| + |b| + |c|..] == d
  {
  }

  lemma KindAndData(s: seq<Byte>, kind: seq<Byte>, data: seq<Byte>)
    requires |kind| == 4 && |s| >= 8 + |data| && s[4..|data| + 8] == kind + data
    ensures s[4..8] == kind && s[8..|data| + 8] == data
  {
    var n := |data|;
    assert s[4..8] == s[4..n + 8][..4] && s[8..n + 8] == s[4..n + 8][4..];
  }

  // A chunk is read back exactly when its data is within the format's limit.
  lemma ChunkRoundTrip(kind: seq<Byte>, data: seq<Byte>, rest: seq<Byte>)
    requires |kind| == 4 && |data| < UINT32_LIMIT
    ensures ReadChunk(ChunkBytes(kind, data) + rest)
         == if |data| < PNG_LIMIT then Some(ChunkRead(kind, data, rest)) else None
  {
    Widths();
    BigEndianRoundTrip(|data|, 4);
    Slices(BigEndian(|data|, 4), kind + data, CrcField(kind + data), rest);
    var s := ChunkBytes(kind, data) + rest;
    hide BigEndian, ReadBigEndian, CrcField, Pow256;
    KindAndData(s, kind, data);
  }

  lemma WordFieldInjective(v: bv32, w: bv32)
    requires WordField(v) == WordField(w)
    ensures v == w
  {
    hide WordValue, Pow256, BigEndian, ReadBigEndian;
    Widths();
    BigEndianRoundTrip(WordValue(v), 4);
    BigEndianRoundTrip(WordValue(w), 4);
  }

  lemma CrcFieldDiffers(a: seq<Byte>, b: seq<Byte>)
    requires Crc(a) != Crc(b)
    ensures CrcField(a) != CrcField(b)
  {
    hide Crc, WordField;
    if CrcField(a) == CrcField(b) {
      WordFieldInjective(Crc(a), Crc(b));
    }
  }

  // Whatever happened to type, data and checksum of a chunk, the reader accepts it exactly when
  // the checksum field it finds is that of the type and data it finds.
  lemma DamageExact(n: nat, damaged: seq<Byte>, field: seq<Byte>, rest: seq<Byte>)
    requires n < PNG_LIMIT && |damaged| == n + 4 && |field| == 4
    ensures ReadChunk(BigEndian(n, 4) + damaged + field + rest)
         == if field == CrcField(damaged) then Some(ChunkRead(damaged[..4], damaged[4..], rest)) else None
  {
    Widths();
    BigEndianRoundTrip(n, 4);
    Slices(BigEndian(n, 4), damaged, field, rest);
    var s := BigEndian(n, 4) + damaged + field + rest;
    hide BigEndian, ReadBigEndian, CrcField, Pow256;
    assert damaged == damaged[..4] + damaged[4..];
    KindAndData(s, damaged[..4], damaged[4..]);
  }

  lemma TooLongRefused(n: nat, s: seq<Byte>)
    requires PNG_LIMIT <= n < UINT32_LIMIT
    ensures ReadChunk(BigEndian(n, 4) + s) == None
  {
    Widths();
    BigEndianRoundTrip(n, 4);
    assert (BigEndian(n, 4) + s)[..4] == BigEndian(n, 4);
    hide BigEndian, ReadBigEndian, CrcField, Pow256;
  }

  // Damage to type and data confined to 32 consecutive bits makes the reader refuse the chunk.
  lemma DamagedChunkRefused(kind: seq<Byte>, data: seq<Byte>, damaged: seq<Byte>, rest: seq<Byte>, k: nat)
    requires |kind| == 4 && |data| < UINT32_LIMIT
    requires |damaged| == |kind + data| && damaged != kind + data
    requires forall i :: 0 <= i < 8 * |damaged| && !(k <= i < k + 32) ==>
      MessageBits(damaged)[i] == MessageBits(kind + data)[i]
    ensures ReadChunk(BigEndian(|data|, 4) + damaged + CrcField(kind + data) + rest) == None
  {
    BurstDetected(damaged, kind + data, k);
    CrcFieldDiffers(damaged, kind + data);
    hide MessageBits, Crc, CrcField;
    WrongFieldRefused(|data|, damaged, CrcField(kind + data), rest);
  }

  lemma WrongFieldRefused(n: nat, damaged: seq<Byte>, field: seq<Byte>, rest: seq<Byte>)
    requires n < UINT32_LIMIT && |damaged| == n + 4 && |field| == 4 && field != CrcField(damaged)
    ensures ReadChunk(BigEndian(n, 4) + damaged + field + rest) == None
  {
    hide BigEndian, ReadChunk, CrcField;
    if n < PNG_LIMIT {
      DamageExact(n, damaged, field, rest);
    } else {
      TooLongRefused(n, damaged + field + rest);
      assert BigEndian(n, 4) + damaged + field + rest == BigEndian(n, 4) + (damaged + field + rest);
    }
  }

  // So does any damage to the checksum field alone.
  lemma DamagedFieldRefused(kind: seq<Byte>, data: seq<Byte>, field: seq<Byte>, rest: seq<Byte>)
    requires |kind| == 4 && |data| < PNG_LIMIT && |field| == 4 && field != CrcField(kind + data)
    ensures ReadChunk(BigEndian(|data|, 4) + (kind + data) + field + rest) == None
  {
    DamageExact(|data|, kind + data, field, rest);
  }

  lemma AddBack(c: bv32, d: bv32, w: bv32)
    ensures Add(c, Add(c, d)) == d
    ensures Add(c, w) == d <==> w == Add(c, d)
  {
  }

  // Whatever the chunk held, damage to it goes unnoticed exactly when the checksum field has
  // changed by the register run from zero on the damage to type and data.
  lemma DamageUnnoticed(n: nat, body: seq<Byte>, damaged: seq<Byte>, change: bv32, rest: seq<Byte>)
    requires n < PNG_LIMIT && |body| == |damaged| == n + 4
    ensures ReadChunk(BigEndian(n, 4) + damaged + WordField(Add(Crc(body), change)) + rest).Some?
      <==> change == Update(0, Difference(body, damaged))
  {
    hide Crc, CrcField, WordField, BigEndian, ReadChunk, Update, Add, Difference;
    DamageExact(n, damaged, WordField(Add(Crc(body), change)), rest);
    FieldIs(damaged, Add(Crc(body), change));
    ChangeIs(body, damaged, change);
  }

  lemma ChangeIs(body: seq<Byte>, damaged: seq<Byte>, change: bv32)
    requires |body| == |damaged|
    ensures Add(Crc(body), change) == Crc(damaged) <==> change == Update(0, Difference(body, damaged))
    ensures Crc(damaged) == Add(Crc(body), Update(0, Difference(body, damaged)))
  {
    hide Crc, Update, Add, Difference, Run, Xor, MessageBits, StateBits;
    CrcDifference(body, damaged);
    AddBack(Crc(body), Crc(damaged), change);
  }

  lemma FieldIs(body: seq<Byte>, w: bv32)
    ensures WordField(w) == CrcField(body) <==> w == Crc(body)
  {
    hide Crc, WordField;
    if WordField(w) == CrcField(body) {
      WordFieldInjective(w, Crc(body));
    }
  }

  // The field such damage must leave, as bytes.
  lemma DamagedField(n: nat, body: seq<Byte>, damaged: seq<Byte>, field: seq<Byte>, rest: seq<Byte>)
    requires n < PNG_LIMIT && |body| == |damaged| == n + 4 && |field| == 4
    ensures ReadChunk(BigEndian(n, 4) + damaged + field + rest).Some?
      <==> field == WordField(Add(Crc(body), Update(0, Difference(body, damaged))))
  {
    hide Crc, WordField, BigEndian, ReadChunk, Update, Add, Difference;
    ChangeIs(body, damaged, 0);
    DamageExact(n, damaged, field, rest);
  }

  function ZeroBytes(k: nat): (s: seq<Byte>)
    ensures |s| == k
  {
    seq(k, _ => 0)
  }

  lemma {:induction false} LeadingZeros(k: nat, d: seq<Byte>)
    ensures Update(0, ZeroBytes(k) + d) == Update(0, d)
    decreases k
  {
    if k == 0 {
      assert ZeroBytes(k) + d == d;
    } else {
      assert (ZeroBytes(k) + d)[0] == 0 && (ZeroBytes(k) + d)[1..] == ZeroBytes(k - 1) + d;
      ZeroShifts();
      hide Shifts;
      LeadingZeros(k - 1, d);
    }
  }

  lemma ZeroShifts()
    ensures Shifts(Add(0, (0 as Byte) as bv32), 8) == 0
  {
  }

  lemma BorderChange()
    ensures Update(0, [0x61, 0xd8]) == 0xf4ee_0000
  {
  }

  function Flipped(b: Byte, bits: Byte): Byte
  {
    b ^ bits
  }

  lemma FlippedDiffers(b: Byte, bits: Byte)
    ensures b ^ Flipped(b, bits) == bits && b ^ b == 0
  {
  }

  // So damage across the border can go unnoticed, in every chunk with two bytes of data or more
  // and even in four consecutive bytes: two of data, and the first two of the checksum, which is
  // written most significant byte first while its bits are reflected.
  lemma BorderDamage(n: nat, front: seq<Byte>, x: Byte, y: Byte, rest: seq<Byte>)
    requires 2 <= n < PNG_LIMIT && |front| == n + 2
    ensures ReadChunk(BigEndian(n, 4) + BorderDamaged(front, x, y) + BorderField(front + [x, y]) + rest).Some?
  {
    BorderUpdate(front, x, y);
    hide Crc, BigEndian, ReadChunk, Update, Add, WordField, Difference, Flipped;
    SameDamage(n, front + [x, y], BorderDamaged(front, x, y), 0xf4ee_0000, rest);
  }

  function BorderDamaged(front: seq<Byte>, x: Byte, y: Byte): (s: seq<Byte>)
    ensures |s| == |front| + 2
  {
    front + [Flipped(x, 0x61), Flipped(y, 0xd8)]
  }

  function BorderField(body: seq<Byte>): (s: seq<Byte>)
    ensures |s| == 4
  {
    WordField(Add(Crc(body), 0xf4ee_0000))
  }

  lemma SameDamage(n: nat, body: seq<Byte>, damaged: seq<Byte>, change: bv32, rest: seq<Byte>)
    requires n < PNG_LIMIT && |body| == |damaged| == n + 4 && change == Update(0, Difference(body, damaged))
    ensures ReadChunk(BigEndian(n, 4) + damaged + WordField(Add(Crc(body), change)) + rest).Some?
  {
    hide Crc, WordField, BigEndian, ReadChunk, Update, Add, Difference;
    DamageUnnoticed(n, body, damaged, change, rest);
  }

  lemma BorderUpdate(front: seq<Byte>, x: Byte, y: Byte)
    ensures Update(0, Difference(front + [x, y], BorderDamaged(front, x, y))) == 0xf4ee_0000
  {
    hide Update, Difference, Flipped, ZeroBytes;
    BorderDifference(front, x, y);
    LeadingZeros(|front|, [0x61, 0xd8]);
    BorderChange();
  }

  lemma BorderDifference(front: seq<Byte>, x: Byte, y: Byte)
    ensures Difference(front + [x, y], BorderDamaged(front, x, y))
         == ZeroBytes(|front|) + [0x61, 0xd8]
  {
    hide Flipped;
    FlippedDiffers(x, 0x61);
    FlippedDiffers(y, 0xd8);
    var d := Difference(front + [x, y], BorderDamaged(front, x, y));
    forall i | 0 <= i < |front| ensures d[i] == 0 {
      FlippedDiffers(front[i], 0);
    }
  }

  // One such chunk, byte by byte.
  lemma BorderDamageUnnoticed()
    ensures var damaged := IDAT + [0x61, 0xd8];
      && ChunkBytes(IDAT, [0, 0]) == BigEndian(2, 4) + IDAT + [0, 0] + [0x7c, 0xfb, 0xbd, 0xba]
      && ReadChunk(BigEndian(2, 4) + damaged + [0x88, 0x15, 0xbd, 0xba]) == Some(ChunkRead(IDAT, [0x61, 0xd8], []))
  {
    hide Crc, BigEndian, ReadChunk;
    BorderFields();
    var damaged: seq<Byte>, field: seq<Byte> := IDAT + [0x61, 0xd8], [0x88, 0x15, 0xbd, 0xba];
    DamageExact(2, damaged, field, []);
    assert BigEndian(2, 4) + damaged + field + [] == BigEndian(2, 4) + damaged + field;
    assert damaged[..4] == IDAT && damaged[4..] == [0x61, 0xd8];
    assert BigEndian(2, 4) + (IDAT + [0, 0]) == BigEndian(2, 4) + IDAT + [0, 0];
  }

  lemma BorderFields()
    ensures CrcField(IDAT + [0, 0]) == [0x7c, 0xfb, 0xbd, 0xba]
    ensures CrcField(IDAT + [0x61, 0xd8]) == [0x88, 0x15, 0xbd, 0xba]
  {
    BorderCrcs();
    Words();
    hide Crc, BigEndian, WordValue;
    Fields();
  }

  lemma Words()
    ensures WordValue(0x7cfb_bdba) == 0x7cfb_bdba && WordValue(0x8815_bdba) == 0x8815_bdba
  {
  }

  lemma ByteLiterals()
    ensures ToByte(0x7c) == 0x7c && ToByte(0xfb) == 0xfb && ToByte(0x88) == 0x88 && ToByte(0x15) == 0x15
    ensures ToByte(0xbd) == 0xbd && ToByte(0xba) == 0xba
  {
  }

  lemma NoField()
    ensures BigEndian(0, 0) == []
  {
  }

  lemma BigEndianStep(high: nat, low: nat, k: nat)
    requires low < 256 && k > 0
    ensures BigEndian(256 * high + low, k) == BigEndian(high, k - 1) + [ToByte(low)]
  {
    hide ToByte;
    assert (256 * high + low) / 256 == high && (256 * high + low) % 256 == low;
  }

  lemma Fields()
    ensures BigEndian(0x7cfb_bdba, 4) == [0x7c, 0xfb, 0xbd, 0xba]
    ensures BigEndian(0x8815_bdba, 4) == [0x88, 0x15, 0xbd, 0xba]
  {
    hide BigEndian, ToByte;
    ByteLiterals();
    NoField();
    BigEndianStep(0x7cfbbd, 0xba, 4);
    BigEndianStep(0x7cfb, 0xbd, 3);
    BigEndianStep(0x7c, 0xfb, 2);
    BigEndianStep(0, 0x7c, 1);
    BigEndianStep(0x8815bd, 0xba, 4);
    BigEndianStep(0x8815, 0xbd, 3);
    BigEndianStep(0x88, 0x15, 2);
    BigEndianStep(0, 0x88, 1);
  }

  lemma AfterKind()
    ensures Update(0xffff_ffff, IDAT) == 0xca50_f9e1
  {
  }

  lemma BorderCrcs()
    ensures Crc(IDAT + [0, 0]) == 0x7cfb_bdba && Crc(IDAT + [0x61, 0xd8]) == 0x8815_bdba
  {
    AfterKind();
    AfterTwo();
    hide Update;
    UpdateConcat(0xffff_ffff, IDAT, [0, 0]);
    UpdateConcat(0xffff_ffff, IDAT, [0x61, 0xd8]);
  }

  lemma AfterTwo()
    ensures Update(0xca50_f9e1, [0, 0]) == 0x8304_4245
    ensures Update(0xca50_f9e1, [0x61, 0xd8]) == 0x77ea_4245
  {
  }

  lemma {:induction false} ScanlineRoundTrip(stride: nat, height: nat, pixels: seq<Byte>)
    requires |pixels| == Rows(stride, height)
    ensures Unfilter(stride, height, Scanlines(stride, height, pixels)) == Some(pixels)
    decreases height
  {
    hide Rows, Scanlines, Unfilter;
    NoRows(stride);
    if height == 0 {
      NothingScanned(stride);
      NothingUnfiltered(stride);
    } else {
      RowFits(stride, height - 1, height);
      var split := Rows(stride, height - 1);
      ScanlineRoundTrip(stride, height - 1, pixels[..split]);
      LastScanline(stride, height, pixels);
      UnfilterRow(stride, height, Scanlines(stride, height - 1, pixels[..split]), pixels[..split], pixels[split..]);
      assert pixels == pixels[..split] + pixels[split..];
    }
  }

  lemma NothingUnfiltered(stride: nat)
    ensures Unfilter(stride, 0, []) == Some([])
  {
  }

  lemma LastScanline(stride: nat, height: nat, pixels: seq<Byte>)
    requires height > 0 && |pixels| == Rows(stride, height) == Rows(stride, height - 1) + stride
    ensures var split := Rows(stride, height - 1);
      Scanlines(stride, height, pixels) == Scanlines(stride, height - 1, pixels[..split]) + ([0] + pixels[split..])
  {
    hide Rows;
  }

  lemma UnfilterRow(stride: nat, height: nat, front: seq<Byte>, rows: seq<Byte>, last: seq<Byte>)
    requires height > 0 && |last| == stride && Unfilter(stride, height - 1, front) == Some(rows)
    ensures Unfilter(stride, height, front + ([0] + last)) == Some(rows + last)
  {
    var raw := front + ([0] + last);
    assert raw[..|front|] == front && raw[|front| + 1..] == last;
  }

  lemma Kinds()
    ensures IsSignature(SIGNATURE) && |IHDR| == |IDAT| == |IEND| == 4 && |FORMAT| == 5
    ensures Spells(IHDR, "IHDR") && Spells(IDAT, "IDAT") && Spells(IEND, "IEND") && !Spells(IDAT, "IEND")
  {
    assert ToNat(IDAT[1]) == 68 && "IEND"[1] as int == 69;
  }

  lemma FormatIs()
    ensures |FORMAT| == 5 && ToNat(FORMAT[0]) == 8 && ToNat(FORMAT[1]) == 6
    ensures ToNat(FORMAT[2]) == 0 && ToNat(FORMAT[3]) == 0 && ToNat(FORMAT[4]) == 0
  {
  }

  lemma ImageDataRoundTrip(data: seq<Byte>)
    requires |data| < UINT32_LIMIT
    ensures ReadImageData(ChunkBytes(IDAT, data) + ChunkBytes(IEND, []))
         == if |data| < PNG_LIMIT then Some(data) else None
  {
    Kinds();
    hide IDAT, IEND, ChunkBytes, ReadChunk, Spells;
    ChunkRoundTrip(IDAT, data, ChunkBytes(IEND, []));
    ChunkRoundTrip(IEND, [], []);
    assert ChunkBytes(IEND, []) + [] == ChunkBytes(IEND, []);
    assert ReadImageData(ChunkBytes(IEND, [])) == Some([]);
    assert data + [] == data;
  }

  lemma HeaderRoundTrip(width: nat, height: nat, rest: seq<Byte>)
    requires width < UINT32_LIMIT && height < UINT32_LIMIT
    ensures ReadHeader(SIGNATURE + (ChunkBytes(IHDR, HeaderData(width, height)) + rest))
         == if 0 < width < PNG_LIMIT && 0 < height < PNG_LIMIT then Some(HeaderRead(width, height, 8, 6, rest))
            else None
  {
    Widths();
    Kinds();
    FormatIs();
    hide SIGNATURE, IHDR, FORMAT, ChunkBytes, ReadChunk, BigEndian, ReadBigEndian, Pow256, IsSignature, Spells, ToNat;
    var data := HeaderData(width, height);
    ChunkRoundTrip(IHDR, data, rest);
    BigEndianRoundTrip(width, 4);
    BigEndianRoundTrip(height, 4);
    assert data[..4] == BigEndian(width, 4) && data[4..8] == BigEndian(height, 4) && data[8..] == FORMAT;
    var s := SIGNATURE + (ChunkBytes(IHDR, data) + rest);
    assert s[..8] == SIGNATURE && s[8..] == ChunkBytes(IHDR, data) + rest;
  }

  // What the format demands of an image and its compressed data. The writer does not check it.
  ghost predicate Conforming(image: Image, zlib: Zlib)
    requires image.Sized()
  {
    && 0 < image.width < PNG_LIMIT
    && 0 < image.height < PNG_LIMIT
    && |zlib.deflate(Scanlines(image.width * 4, image.height, image.rgba))| < PNG_LIMIT
  }

  // A written file is read back as the same image exactly when the image conforms; a file
  // written for any other image is refused by a conforming reader.
  lemma PngRoundTrip(image: Image, zlib: Zlib)
    requires image.Sized() && zlib.Lossless() && PngBytes(image, zlib).Ok?
    ensures ReadPng(PngBytes(image, zlib).value, zlib) == if Conforming(image, zlib) then Some(image) else None
  {
    hide SIGNATURE, IHDR, IDAT, IEND, ChunkBytes, HeaderData, ReadHeader, ReadImageData, Scanlines, Unfilter;
    var stride := image.width * 4;
    var raw := Scanlines(stride, image.height, image.rgba);
    var data := zlib.deflate(raw);
    var tail := ChunkBytes(IDAT, data) + ChunkBytes(IEND, []);
    HeaderRoundTrip(image.width, image.height, tail);
    ImageDataRoundTrip(data);
    ScanlineRoundTrip(stride, image.height, image.rgba);
    assert zlib.inflate(data) == Some(raw);
    assert PngBytes(image, zlib).value == SIGNATURE + (ChunkBytes(IHDR, HeaderData(image.width, image.height)) + tail);
  }

  // ----- The file in plain numbers -----

  lemma ChunkInNumbers(kind: seq<Byte>, data: seq<Byte>)
    requires |kind| == 4 && |data| < UINT32_LIMIT
    ensures var c, n := ChunkBytes(kind, data), |data|;
      && |c| == n + 12 && Word(c, 0) == n && c[4..8] == kind && c[8..n + 8] == data
      && Word(c, n + 8) == WordValue(Crc(kind + data))
  {
    hide BigEndian, Word, Crc, WordValue;
    var length, body, field := BigEndian(|data|, 4), kind + data, CrcField(kind + data);
    WordWritten(|data|);
    WordWritten(WordValue(Crc(body)));
    WordWithin([], length, body + field, 0);
    WordWithin(length + body, field, [], 0);
    assert [] + length + (body + field) == length + body + field == length + body + field + [];
    KindAndData(ChunkBytes(kind, data), kind, data);
  }

  lemma EndInNumbers()
    ensures WordValue(Crc(IEND + [])) == 0xae42_6082
  {
    assert IEND + [] == IEND;
    EndCrc();
    EndWord();
    hide Crc, WordValue;
  }

  lemma EndCrc()
    ensures Crc(IEND) == 0xae42_6082
  {
  }

  lemma EndWord()
    ensures WordValue(0xae42_6082) == 0xae42_6082
  {
  }

  // What every byte of a file is: the first 33 are the signature and the header, ...
  ghost predicate StartsAs(f: seq<Byte>, width: nat, height: nat)
  {
    && |f| >= 33 && IsSignature(f[..8])
    && Word(f, 8) == 13 && Spells(f[12..16], "IHDR") && Word(f, 16) == width && Word(f, 20) == height
    && ToNat(f[24]) == 8 && ToNat(f[25]) == 6 && ToNat(f[26]) == 0 && ToNat(f[27]) == 0 && ToNat(f[28]) == 0
    && Word(f, 29) == WordValue(Crc(f[12..29]))
  }

  // ... and the rest are the compressed scanlines and the end of the file.
  ghost predicate EndsAs(f: seq<Byte>, data: seq<Byte>)
  {
    |f| == |data| + 57 && DataAs(f, data) && TailAs(f, |data|)
  }

  ghost predicate DataAs(f: seq<Byte>, data: seq<Byte>)
    requires |f| == |data| + 57
  {
    var n := |data|;
    && Word(f, 33) == n && Spells(f[37..41], "IDAT") && f[41..n + 41] == data
    && Word(f, n + 41) == WordValue(Crc(f[37..n + 41]))
  }

  ghost predicate TailAs(f: seq<Byte>, n: nat)
    requires |f| == n + 57
  {
    Word(f, n + 45) == 0 && Spells(f[n + 49..n + 53], "IEND") && Word(f, n + 53) == 0xae42_6082
  }

  lemma HeaderBytes(width: nat, height: nat)
    requires width < UINT32_LIMIT && height < UINT32_LIMIT
    ensures var d := HeaderData(width, height);
      && Word(d, 0) == width && Word(d, 4) == height
      && ToNat(d[8]) == 8 && ToNat(d[9]) == 6 && ToNat(d[10]) == 0 && ToNat(d[11]) == 0 && ToNat(d[12]) == 0
  {
    FormatIs();
    hide BigEndian, Word, FORMAT, ToNat;
    var w, h := BigEndian(width, 4), BigEndian(height, 4);
    WordWritten(width);
    WordWritten(height);
    WordWithin([], w, h + FORMAT, 0);
    WordWithin(w, h, FORMAT, 0);
    assert [] + w + (h + FORMAT) == w + h + FORMAT;
  }

  lemma StartInNumbers(width: nat, height: nat, rest: seq<Byte>)
    requires width < UINT32_LIMIT && height < UINT32_LIMIT
    ensures StartsAs(SIGNATURE + ChunkBytes(IHDR, HeaderData(width, height)) + rest, width, height)
  {
    Kinds();
    var d := HeaderData(width, height);
    HeaderBytes(width, height);
    ChunkInNumbers(IHDR, d);
    hide Word, SIGNATURE, IHDR, ChunkBytes, HeaderData, Spells, IsSignature, ToNat, Crc, WordValue;
    var c := ChunkBytes(IHDR, d);
    HeaderWords(SIGNATURE, c, rest, d);
    HeaderSlices(SIGNATURE, c, rest, IHDR, d);
  }

  lemma HeaderSlices(a: seq<Byte>, c: seq<Byte>, rest: seq<Byte>, kind: seq<Byte>, d: seq<Byte>)
    requires |a| == 8 && |c| == 25 && |kind| == 4 && |d| == 13 && c[4..8] == kind && c[8..21] == d
    ensures var f := a + c + rest;
      && f[..8] == a && f[12..16] == kind && f[12..29] == kind + d
      && f[24] == d[8] && f[25] == d[9] && f[26] == d[10] && f[27] == d[11] && f[28] == d[12]
  {
    assert c[4..21] == kind + d;
  }

  lemma HeaderWords(a: seq<Byte>, c: seq<Byte>, rest: seq<Byte>, d: seq<Byte>)
    requires |a| == 8 && |c| == 25 && |d| == 13 && c[8..21] == d
    ensures var f := a + c + rest;
      && Word(f, 8) == Word(c, 0) && Word(f, 16) == Word(d, 0) && Word(f, 20) == Word(d, 4)
      && Word(f, 29) == Word(c, 21)
  {
    hide Word;
    WordWithin(a, c, rest, 0);
    WordWithin(a, c, rest, 21);
    WordWithin(a + c[..8], d, c[21..] + rest, 0);
    WordWithin(a + c[..8], d, c[21..] + rest, 4);
    assert c == c[..8] + d + c[21..];
    assert a + c + rest == a + c[..8] + d + (c[21..] + rest);
  }

  lemma EndInPlace(head: seq<Byte>, data: seq<Byte>)
    requires |head| == 33 && |data| < UINT32_LIMIT
    ensures EndsAs(head + ChunkBytes(IDAT, data) + ChunkBytes(IEND, []), data)
  {
    hide Word, IDAT, IEND, ChunkBytes, Spells, ToNat, Crc, WordValue, DataAs, TailAs;
    var c, e := ChunkBytes(IDAT, data), ChunkBytes(IEND, []);
    DataLength(data);
    LastChunk();
    DataInPlace(head, c, e, data);
    TailInPlace(head, c, e, |data|);
  }

  lemma DataLength(data: seq<Byte>)
    requires |data| < UINT32_LIMIT
    ensures |ChunkBytes(IDAT, data)| == |data| + 12
  {
    hide Word, ChunkBytes, Crc, WordValue, BigEndian, IDAT;
    Kinds();
    ChunkInNumbers(IDAT, data);
  }

  lemma LastChunk()
    ensures var e := ChunkBytes(IEND, []);
      |e| == 12 && e[4..8] == IEND && Word(e, 0) == 0 && Word(e, 8) == 0xae42_6082
  {
    hide Word, ChunkBytes, Crc, WordValue, BigEndian, IEND;
    Kinds();
    ChunkInNumbers(IEND, []);
    EndInNumbers();
  }

  lemma DataInPlace(head: seq<Byte>, c: seq<Byte>, e: seq<Byte>, data: seq<Byte>)
    requires |head| == 33 && c == ChunkBytes(IDAT, data) && |e| == 12 && |data| < UINT32_LIMIT
    ensures DataAs(head + c + e, data)
  {
    Kinds();
    ChunkInNumbers(IDAT, data);
    hide Word, IDAT, ChunkBytes, Spells, ToNat, Crc, WordValue;
    EndWords(head, c, e, |data|);
    EndSlices(head, c, e, IDAT, data);
  }

  lemma TailInPlace(head: seq<Byte>, c: seq<Byte>, e: seq<Byte>, n: nat)
    requires |head| == 33 && |c| == n + 12 && |e| == 12 && e[4..8] == IEND
    requires Word(e, 0) == 0 && Word(e, 8) == 0xae42_6082
    ensures TailAs(head + c + e, n)
  {
    Kinds();
    hide Word, IEND, Spells, ToNat;
    EndWords(head, c, e, n);
    assert (head + c + e)[n + 49..n + 53] == e[4..8];
  }

  lemma EndWords(head: seq<Byte>, c: seq<Byte>, e: seq<Byte>, n: nat)
    requires |head| == 33 && |c| == n + 12 && |e| == 12
    ensures var f := head + c + e;
      && Word(f, 33) == Word(c, 0) && Word(f, n + 41) == Word(c, n + 8)
      && Word(f, n + 45) == Word(e, 0) && Word(f, n + 53) == Word(e, 8)
  {
    hide Word;
    WordWithin(head, c, e, 0);
    WordWithin(head, c, e, n + 8);
    WordWithin(head + c, e, [], 0);
    WordWithin(head + c, e, [], 8);
    assert head + c + e + [] == head + c + e;
  }

  lemma EndSlices(head: seq<Byte>, c: seq<Byte>, e: seq<Byte>, kind: seq<Byte>, data: seq<Byte>)
    requires |head| == 33 && |c| == |data| + 12 && |e| == 12 && |kind| == 4
    requires c[4..8] == kind && c[8..|data| + 8] == data
    ensures var f, n := head + c + e, |data|;
      && f[37..41] == kind && f[41..n + 41] == data && f[37..n + 41] == kind + data
      && f[n + 49..n + 53] == e[4..8]
  {
    assert c[4..|data| + 8] == kind + data;
  }

  // Every file that is written, byte by byte, in the numbers of the specification.
  lemma FileInNumbers(image: Image, zlib: Zlib)
    requires image.Sized() && PngBytes(image, zlib).Ok?
    ensures StartsAs(PngBytes(image, zlib).value, image.width, image.height)
    ensures EndsAs(
      PngBytes(image, zlib).value, zlib.deflate(Scanlines(image.width * 4, image.height, image.rgba)))
  {
    var data := zlib.deflate(Scanlines(image.width * 4, image.height, image.rgba));
    FileParts(image.width, image.height, data);
    hide SIGNATURE, IHDR, IDAT, IEND, HeaderData, Scanlines, StartsAs, EndsAs, ChunkBytes;
  }

  lemma FileParts(width: nat, height: nat, data: seq<Byte>)
    requires width < UINT32_LIMIT && height < UINT32_LIMIT && |data| < UINT32_LIMIT
    ensures var f := SIGNATURE + ChunkBytes(IHDR, HeaderData(width, height)) + ChunkBytes(IDAT, data)
        + ChunkBytes(IEND, []);
      StartsAs(f, width, height) && EndsAs(f, data)
  {
    HeaderSize(width, height);
    hide SIGNATURE, IHDR, IDAT, IEND, HeaderData, StartsAs, EndsAs, ChunkBytes;
    var header, c, e := ChunkBytes(IHDR, HeaderData(width, height)), ChunkBytes(IDAT, data), ChunkBytes(IEND, []);
    StartInNumbers(width, height, c + e);
    EndInPlace(SIGNATURE + header, data);
    assert SIGNATURE + header + (c + e) == SIGNATURE + header + c + e;
  }

  lemma HeaderSize(width: nat, height: nat)
    ensures |SIGNATURE + ChunkBytes(IHDR, HeaderData(width, height))| == 33
  {
  }

  // Row y begins with a zero byte, and its pixels follow in order.
  lemma {:induction false} ScanlineInNumbers(stride: nat, height: nat, pixels: seq<Byte>, y: nat, k: nat)
    requires |pixels| == Rows(stride, height) && y < height && k < stride
    ensures Rows(stride + 1, y) + 1 + k < |Scanlines(stride, height, pixels)| && Rows(stride, y) + k < |pixels|
    ensures ToNat(Scanlines(stride, height, pixels)[Rows(stride + 1, y)]) == 0
    ensures Scanlines(stride, height, pixels)[Rows(stride + 1, y) + 1 + k] == pixels[Rows(stride, y) + k]
    decreases height
  {
    hide Rows, Scanlines;
    RowFits(stride, y, height);
    RowFits(stride + 1, y, height);
    RowFits(stride, height - 1, height);
    RowFits(stride + 1, height - 1, height);
    var split := Rows(stride, height - 1);
    LastScanline(stride, height, pixels);
    if y < height - 1 {
      ScanlineInNumbers(stride, height - 1, pixels[..split], y, k);
    }
  }

  // ----- ICO -----

  const ICON_HEADER: seq<Byte> := [0, 0, 1, 0, 1, 0]

  function SizeByte(n: nat): Byte
  {
    if n >= 256 then 0 else ToByte(n)
  }

  function IconEntry(length: nat, width: nat, height: nat): (s: seq<Byte>)
    ensures |s| == 16
  {
    [SizeByte(width), SizeByte(height), 0, 0] + (LittleEndian(1, 2) + LittleEndian(32, 2)) + LittleEndian(length, 4)
      + LittleEndian(22, 4)
  }

  function IconBytes(png: seq<Byte>, width: nat, height: nat): seq<Byte>
  {
    ICON_HEADER + IconEntry(|png|, width, height) + png
  }

  method EncodeIcoWithPng(png: seq<Byte>, width: nat, height: nat) returns (r: Result<seq<Byte>, WriteError>)
    ensures r == if |png| < UINT32_LIMIT then Ok(IconBytes(png, width, height)) else Err(RangeError)
  {
    if |png| >= UINT32_LIMIT {
      return Err(RangeError);
    }
    var header := LittleEndian(0, 2) + LittleEndian(1, 2) + LittleEndian(1, 2);
    IconHeader();
    hide ICON_HEADER, LittleEndian, SizeByte;
    var entry := [SizeByte(width), SizeByte(height), 0, 0] + (LittleEndian(1, 2) + LittleEndian(32, 2))
      + LittleEndian(|png|, 4) + LittleEndian(22, 4);
    r := Ok(header + entry + png);
  }

  lemma IconHeader()
    ensures LittleEndian(0, 2) + LittleEndian(1, 2) + LittleEndian(1, 2) == ICON_HEADER
  {
    assert LittleEndian(0, 1) == [0];
  }

  datatype Icon = Icon(width: nat, height: nat, png: seq<Byte>)

  // A size byte of 0 stands for 256.
  function ReadSize(b: Byte): nat
  {
    if ToNat(b) == 0 then 256 else ToNat(b)
  }

  // Reserved, type 1, one entry.
  predicate IsIconHeader(s: seq<Byte>)
  {
    && |s| == 6 && ToNat(s[0]) == 0 && ToNat(s[1]) == 0
    && ToNat(s[2]) == 1 && ToNat(s[3]) == 0 && ToNat(s[4]) == 1 && ToNat(s[5]) == 0
  }

  lemma IconHeaderIs()
    ensures IsIconHeader(ICON_HEADER)
  {
  }

  // A directory of one entry.
  function ReadIcon(s: seq<Byte>): Option<Icon>
  {
    if |s| < 22 || !IsIconHeader(s[..6]) then None
    else
      var size, offset := ReadLittleEndian(s[14..18]), ReadLittleEndian(s[18..22]);
      if offset + size > |s| then None
      else Some(Icon(ReadSize(s[6]), ReadSize(s[7]), s[offset..offset + size]))
  }

  lemma SizeRoundTrip(n: nat)
    ensures ReadSize(SizeByte(n)) == n <==> 1 <= n <= 256
  {
    if n < 256 {
      ToByteToNat(n);
    } else {
      ToByteToNat(0);
    }
  }

  lemma EntryPlaced(header: seq<Byte>, entry: seq<Byte>, png: seq<Byte>)
    requires |header| == 6 && |entry| == 16
    ensures var s := header + entry + png;
      && s[..6] == header && s[6] == entry[0] && s[7] == entry[1]
      && s[14..18] == entry[8..12] && s[18..22] == entry[12..] && s[22..22 + |png|] == png
  {
  }

  lemma EntryParts(length: nat, width: nat, height: nat)
    ensures var entry := IconEntry(length, width, height);
      && entry[0] == SizeByte(width) && entry[1] == SizeByte(height)
      && entry[8..12] == LittleEndian(length, 4) && entry[12..] == LittleEndian(22, 4)
  {
    hide LittleEndian, SizeByte;
    Slices([SizeByte(width), SizeByte(height), 0, 0], LittleEndian(1, 2) + LittleEndian(32, 2),
           LittleEndian(length, 4), LittleEndian(22, 4));
  }

  lemma IconLayout(png: seq<Byte>, width: nat, height: nat)
    ensures var s := IconBytes(png, width, height);
      && |s| == 22 + |png|
      && s[..6] == ICON_HEADER
      && s[6] == SizeByte(width) && s[7] == SizeByte(height)
      && s[14..18] == LittleEndian(|png|, 4)
      && s[18..22] == LittleEndian(22, 4)
      && s[22..22 + |png|] == png
  {
    assert |ICON_HEADER| == 6;
    hide ICON_HEADER, LittleEndian, SizeByte, IconEntry;
    EntryParts(|png|, width, height);
    EntryPlaced(ICON_HEADER, IconEntry(|png|, width, height), png);
  }

  // The embedded file always survives; a side is recorded correctly exactly when it is 1 to 256.
  lemma IconRoundTrip(png: seq<Byte>, width: nat, height: nat)
    requires |png| < UINT32_LIMIT
    ensures ReadIcon(IconBytes(png, width, height)).Some?
    ensures ReadIcon(IconBytes(png, width, height)).value.png == png
    ensures ReadIcon(IconBytes(png, width, height)).value.width == width <==> 1 <= width <= 256
    ensures ReadIcon(IconBytes(png, width, height)).value.height == height <==> 1 <= height <= 256
  {
    Widths();
    SizeRoundTrip(width);
    SizeRoundTrip(height);
    IconLayout(png, width, height);
    LittleEndianRoundTrip(|png|, 4);
    LittleEndianRoundTrip(22, 4);
    IconHeaderIs();
    hide ICON_HEADER, IconBytes, LittleEndian, ReadLittleEndian, Pow256, SizeByte, ReadSize, IsIconHeader;
  }

  // Both limits are passed by inputs the writers accept: an image without columns ...
  lemma EmptyImageRefused(zlib: Zlib)
    requires zlib.Lossless() && |zlib.deflate([0])| < UINT32_LIMIT
    ensures PngBytes(Image(0, 1, []), zlib).Ok?
    ensures ReadPng(PngBytes(Image(0, 1, []), zlib).value, zlib) == None
  {
    var image := Image(0, 1, []);
    OneEmptyRow();
    hide Scanlines, ReadPng, ChunkBytes, HeaderData;
    PngRoundTrip(image, zlib);
  }

  lemma OneEmptyRow()
    ensures Image(0, 1, []).Sized() && Scanlines(0, 1, []) == [0]
  {
  }

  // ... and an icon of 257 by 257, which is recorded as one of 256 by 256.
  lemma LargeIconMisread(png: seq<Byte>)
    requires |png| < UINT32_LIMIT
    ensures ReadIcon(IconBytes(png, 257, 257)) == Some(Icon(256, 256, png))
  {
    IconRoundTrip(png, 257, 257);
    IconLayout(png, 257, 257);
    hide IconBytes, ICON_HEADER, IsIconHeader;
    ToByteToNat(0);
  }

  // The icon file in plain numbers: the directory, the sides with 0 for 256 and more, one plane,
  // 32 bits, how long the file is and where it begins.
  lemma IconInNumbers(png: seq<Byte>, width: nat, height: nat)
    requires |png| < UINT32_LIMIT
    ensures var s := IconBytes(png, width, height);
      && |s| == 22 + |png| && IsIconHeader(s[..6])
      && ToNat(s[6]) == (if width >= 256 then 0 else width) && ToNat(s[7]) == (if height >= 256 then 0 else height)
      && ToNat(s[8]) == 0 && ToNat(s[9]) == 0
      && ToNat(s[10]) == 1 && ToNat(s[11]) == 0 && ToNat(s[12]) == 32 && ToNat(s[13]) == 0
      && LittleWord(s, 14) == |png| && LittleWord(s, 18) == 22 && s[22..] == png
  {
    IconHeaderIs();
    SizeInNumbers(width);
    SizeInNumbers(height);
    EntryInNumbers(|png|, width, height);
    hide ICON_HEADER, IsIconHeader, IconEntry, SizeByte, LittleWord, ToNat;
    EntryWords(ICON_HEADER, IconEntry(|png|, width, height), png);
  }

  lemma SizeInNumbers(n: nat)
    ensures ToNat(SizeByte(n)) == if n >= 256 then 0 else n
  {
    ToByteToNat(if n >= 256 then 0 else n);
  }

  lemma PlanesAndBits()
    ensures var s := LittleEndian(1, 2) + LittleEndian(32, 2);
      |s| == 4 && ToNat(s[0]) == 1 && ToNat(s[1]) == 0 && ToNat(s[2]) == 32 && ToNat(s[3]) == 0
  {
    ToByteToNat(1);
    ToByteToNat(32);
    ToByteToNat(0);
  }

  lemma EntryInNumbers(length: nat, width: nat, height: nat)
    requires length < UINT32_LIMIT
    ensures var e := IconEntry(length, width, height);
      && e[0] == SizeByte(width) && e[1] == SizeByte(height) && ToNat(e[2]) == 0 && ToNat(e[3]) == 0
      && ToNat(e[4]) == 1 && ToNat(e[5]) == 0 && ToNat(e[6]) == 32 && ToNat(e[7]) == 0
      && LittleWord(e, 8) == length && LittleWord(e, 12) == 22
  {
    PlanesAndBits();
    LittleWordWritten(length);
    LittleWordWritten(22);
    ToByteToNat(0);
    hide LittleEndian, SizeByte;
  }

  lemma EntryWords(header: seq<Byte>, entry: seq<Byte>, png: seq<Byte>)
    requires |header| == 6 && |entry| == 16
    ensures var s := header + entry + png;
      && s[..6] == header && s[22..] == png
      && (forall i :: 0 <= i < 16 ==> s[6 + i] == entry[i])
      && LittleWord(s, 14) == LittleWord(entry, 8) && LittleWord(s, 18) == LittleWord(entry, 12)
  {
    hide ToNat;
  }
}
