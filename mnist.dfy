/**
 * Model of internal/mnist/mnist.go: decoding the IDX files of the MNIST
 * database into training examples.
 *
 * An open file is an object holding its bytes and a read position; reading
 * advances the position. After the magic number, the images file holds the
 * number of images `n`, then the number of rows `w` and of columns `h` of
 * each image (the IDX layout; the source names them W and H), then the
 * pixels, image after image, row after row. The labels file holds `n`, then
 * one byte per image.
 */
module Mnist {
  import opened Results
  import opened Vector
  import opened Helpers

  newtype byte = x: int | 0 <= x < 256

  /** The magic numbers (lines 17-18). */
  const LabelsFileMagic: nat := 0x0000_0801
  const ImagesFileMagic: nat := 0x0000_0803

  /** 2^32: readInt32 reads four bytes. */
  const Int32Range: nat := 0x1_0000_0000

  /**
   * The errors: the end of the file reached by a read, an invalid file
   * (fileError, lines 24-26, carrying the file's name), and image and label
   * counts that differ (line 158, carrying the labels' name, then the images').
   */
  datatype Error = EndOfFile | InvalidFormat(file: string) | SizeUnmatch(labels: string, images: string)

  // ---------------------------------------------------------------------
  // Big-endian integers
  // ---------------------------------------------------------------------

  /** The bytes read as a big-endian integer, most significant first. */
  function BigEndian(bs: seq<byte>): nat
  {
    if |bs| == 0 then 0 else BigEndian(bs[..|bs| - 1]) * 256 + bs[|bs| - 1] as nat
  }

  /** The four bytes of a 32-bit value, most significant first. */
  function Encode32(v: nat): (bs: seq<byte>)
    requires v < Int32Range
    ensures |bs| == 4
  {
    [(v / 256 / 256 / 256) as byte, (v / 256 / 256 % 256) as byte, (v / 256 % 256) as byte, (v % 256) as byte]
  }

  /** Four bytes, written out. */
  lemma BigEndian4(bs: seq<byte>)
    requires |bs| == 4
    ensures BigEndian(bs) == ((bs[0] as nat * 256 + bs[1] as nat) * 256 + bs[2] as nat) * 256 + bs[3] as nat
  {
    assert bs[..3][..2] == bs[..2] && bs[..2][..1] == bs[..1] && bs[..1][..0] == [];
    assert BigEndian(bs[..1]) == bs[0] as nat;
    assert BigEndian(bs[..2]) == bs[0] as nat * 256 + bs[1] as nat;
    assert BigEndian(bs[..3]) == (bs[0] as nat * 256 + bs[1] as nat) * 256 + bs[2] as nat;
  }

  /** Four bytes hold a value in [0, 2^32). */
  lemma BigEndianBound(bs: seq<byte>)
    requires |bs| == 4
    ensures BigEndian(bs) < Int32Range
  {
    BigEndian4(bs);
  }

  lemma DecodeEncode(v: nat)
    requires v < Int32Range
    ensures BigEndian(Encode32(v)) == v
  {
    BigEndian4(Encode32(v));
  }

  lemma EncodeDecode(bs: seq<byte>)
    requires |bs| == 4
    ensures BigEndian(bs) < Int32Range && Encode32(BigEndian(bs)) == bs
  {
    BigEndian4(bs);
    var b0, b1, b2, b3 := bs[0] as nat, bs[1] as nat, bs[2] as nat, bs[3] as nat;
    var q2 := b0 * 256 + b1;
    var q1 := q2 * 256 + b2;
    var v := q1 * 256 + b3;
    DivMod256(q1, b3);
    DivMod256(q2, b2);
    DivMod256(b0, b1);
    assert v / 256 == q1 && v / 256 / 256 == q2 && v / 256 / 256 / 256 == b0;
  }

  lemma DivMod256(q: nat, r: nat)
    requires r < 256
    ensures (q * 256 + r) / 256 == q && (q * 256 + r) % 256 == r
  {
  }

  // ---------------------------------------------------------------------
  // Files
  // ---------------------------------------------------------------------

  /** What a read of `size` bytes at position `p` returns: as many of them as the file still has. */
  function Available(c: seq<byte>, p: nat, size: nat): seq<byte>
    requires p <= |c|
  {
    if size <= |c| - p then c[p .. p + size] else c[p..]
  }

  /** An open file: its name, its bytes and the position of the next read. */
  class File {
    const name: string
    const content: seq<byte>
    var pos: nat

    constructor Open(name: string, content: seq<byte>)
      ensures this.name == name && this.content == content && pos == 0
    {
      this.name := name;
      this.content := content;
      pos := 0;
    }

    ghost predicate Valid()
      reads this
    {
      pos <= |content|
    }

    /**
     * `os.File.Read` into a buffer of `size` bytes: at most `size` bytes from
     * the position on; the end of the file once nothing is left, unless the
     * buffer is empty.
     */
    method Read(size: nat) returns (got: seq<byte>, eof: bool)
      requires Valid()
      modifies this
      ensures Valid()
      ensures got == Available(content, old(pos), size) && pos == old(pos) + |got|
      ensures eof <==> size > 0 && old(pos) == |content|
    {
      got := Available(content, pos, size);
      eof := size > 0 && pos == |content|;
      pos := pos + |got|;
    }
  }

  /** readInt32 on a file whose bytes are `c` at position `p`. */
  function Int32At(name: string, c: seq<byte>, p: nat): Result<nat, Error>
    requires p <= |c|
  {
    if p == |c| then Err(EndOfFile)
    else if |c| - p < 4 then Err(InvalidFormat(name))
    else Ok(BigEndian(c[p .. p + 4]))
  }

  /** readInt32 (lines 29-43): the next four bytes as a big-endian value. */
  method ReadInt32(f: File) returns (r: Result<nat, Error>)
    requires f.Valid()
    modifies f
    ensures f.Valid() && f.pos == old(f.pos) + |Available(f.content, old(f.pos), 4)|
    ensures r == Int32At(f.name, f.content, old(f.pos))
  {
    var buf, eof := f.Read(4);
    if eof {
      return Err(EndOfFile);
    }
    if |buf| != 4 {
      return Err(InvalidFormat(f.name));
    }
    var v := 0;
    for i := 0 to 4
      invariant v == BigEndian(buf[..i])
    {
      assert buf[..i + 1][..i] == buf[..i];
      v := v * 256 + buf[i] as nat;
    }
    assert buf[..4] == buf;
    return Ok(v);
  }

  /** The value read lies in [0, 2^32); fewer than four bytes left is an error, the end of the file when none is left. */
  lemma Int32AtProperties(name: string, c: seq<byte>, p: nat)
    requires p <= |c|
    ensures Int32At(name, c, p).Ok? <==> |c| - p >= 4
    ensures Int32At(name, c, p).Ok? ==> Int32At(name, c, p).value < Int32Range
    ensures Int32At(name, c, p) == Err(EndOfFile) <==> p == |c|
  {
    if |c| - p >= 4 {
      BigEndianBound(c[p .. p + 4]);
    }
  }

  /** Reading an encoded value gives it back, whatever follows. */
  lemma Int32RoundTrip(name: string, v: nat, rest: seq<byte>)
    requires v < Int32Range
    ensures Int32At(name, Encode32(v) + rest, 0) == Ok(v)
  {
    assert (Encode32(v) + rest)[0..4] == Encode32(v);
    DecodeEncode(v);
  }

  // ---------------------------------------------------------------------
  // The images and labels files
  // ---------------------------------------------------------------------

  /** imageData (lines 46-51). */
  datatype ImageData = ImageData(n: nat, w: nat, h: nat, data: seq<byte>)

  /** labelData (lines 85-88). */
  datatype LabelData = LabelData(n: nat, data: seq<byte>)

  /** What readImagesFile yields for a file with bytes `c`. */
  function ImagesFile(name: string, c: seq<byte>): Result<ImageData, Error>
  {
    if |c| < 16 || BigEndian(c[0..4]) != ImagesFileMagic then Err(InvalidFormat(name))
    else
      var n, w, h := BigEndian(c[4..8]), BigEndian(c[8..12]), BigEndian(c[12..16]);
      if |c| - 16 < n * w * h then Err(InvalidFormat(name))
      else Ok(ImageData(n, w, h, c[16 .. 16 + n * w * h]))
  }

  /** What readLabelsFile yields for a file with bytes `c`. */
  function LabelsFile(name: string, c: seq<byte>): Result<LabelData, Error>
  {
    if |c| < 8 || BigEndian(c[0..4]) != LabelsFileMagic then Err(InvalidFormat(name))
    else
      var n := BigEndian(c[4..8]);
      if |c| - 8 < n then Err(InvalidFormat(name))
      else Ok(LabelData(n, c[8 .. 8 + n]))
  }

  /** readImagesFile (lines 53-82), on a file just opened. */
  method ReadImagesFile(f: File) returns (r: Result<ImageData, Error>)
    requires f.Valid() && f.pos == 0
    modifies f
    ensures r == ImagesFile(f.name, f.content)
  {
    var magic := ReadInt32(f);
    if magic.Err? || magic.value != ImagesFileMagic {
      return Err(InvalidFormat(f.name));
    }
    var n := ReadInt32(f);
    if n.Err? {
      return Err(InvalidFormat(f.name));
    }
    var w := ReadInt32(f);
    if w.Err? {
      return Err(InvalidFormat(f.name));
    }
    var h := ReadInt32(f);
    if h.Err? {
      return Err(InvalidFormat(f.name));
    }
    var sz := n.value * w.value * h.value;
    var data, eof := f.Read(sz);
    if eof || |data| != sz {
      return Err(InvalidFormat(f.name));
    }
    return Ok(ImageData(n.value, w.value, h.value, data));
  }

  /** readLabelsFile (lines 90-110), on a file just opened. */
  method ReadLabelsFile(f: File) returns (r: Result<LabelData, Error>)
    requires f.Valid() && f.pos == 0
    modifies f
    ensures r == LabelsFile(f.name, f.content)
  {
    var magic := ReadInt32(f);
    if magic.Err? || magic.value != LabelsFileMagic {
      return Err(InvalidFormat(f.name));
    }
    var n := ReadInt32(f);
    if n.Err? {
      return Err(InvalidFormat(f.name));
    }
    var data, eof := f.Read(n.value);
    if eof || |data| != n.value {
      return Err(InvalidFormat(f.name));
    }
    return Ok(LabelData(n.value, data));
  }

  /** The bytes of an images file holding `img`. */
  function EncodeImages(img: ImageData): seq<byte>
    requires img.n < Int32Range && img.w < Int32Range && img.h < Int32Range
  {
    Encode32(ImagesFileMagic) + Encode32(img.n) + Encode32(img.w) + Encode32(img.h) + img.data
  }

  /** The bytes of a labels file holding `lbl`. */
  function EncodeLabels(lbl: LabelData): seq<byte>
    requires lbl.n < Int32Range
  {
    Encode32(LabelsFileMagic) + Encode32(lbl.n) + lbl.data
  }

  /** Decoding an encoded images file gives its images back. */
  lemma ImagesRoundTrip(name: string, img: ImageData)
    requires img.n < Int32Range && img.w < Int32Range && img.h < Int32Range
    requires |img.data| == img.n * img.w * img.h
    ensures ImagesFile(name, EncodeImages(img)) == Ok(img)
  {
    var c := EncodeImages(img);
    var sz := img.n * img.w * img.h;
    assert |c| == 16 + sz;
    assert c[0..4] == Encode32(ImagesFileMagic) && c[4..8] == Encode32(img.n);
    assert c[8..12] == Encode32(img.w) && c[12..16] == Encode32(img.h);
    assert c[16 .. 16 + sz] == img.data;
    DecodeEncode(ImagesFileMagic);
    DecodeEncode(img.n);
    DecodeEncode(img.w);
    DecodeEncode(img.h);
    assert BigEndian(c[0..4]) == ImagesFileMagic;
    assert BigEndian(c[4..8]) == img.n && BigEndian(c[8..12]) == img.w && BigEndian(c[12..16]) == img.h;
  }

  /**
   * An accepted images file starts with its magic number and holds exactly
   * `n * w * h` pixels: encoding what was decoded rebuilds the file up to
   * the end of the pixels, and any bytes after them are ignored.
   */
  lemma ImagesAccepted(name: string, c: seq<byte>)
    requires ImagesFile(name, c).Ok?
    ensures var img := ImagesFile(name, c).value;
      && img.n < Int32Range && img.w < Int32Range && img.h < Int32Range
      && |img.data| == img.n * img.w * img.h
      && EncodeImages(img) == c[..16 + |img.data|]
  {
    var n, w, h := BigEndian(c[4..8]), BigEndian(c[8..12]), BigEndian(c[12..16]);
    var sz := n * w * h;
    assert |c| >= 16 && BigEndian(c[0..4]) == ImagesFileMagic && |c| - 16 >= sz;
    var img := ImageData(n, w, h, c[16 .. 16 + sz]);
    assert ImagesFile(name, c) == Ok(img);
    EncodeDecode(c[0..4]);
    EncodeDecode(c[4..8]);
    EncodeDecode(c[8..12]);
    EncodeDecode(c[12..16]);
    assert c[..16 + sz] == c[0..4] + c[4..8] + c[8..12] + c[12..16] + c[16 .. 16 + sz];
  }

  /** A file whose first four bytes are not the images magic number is rejected, naming the file. */
  lemma ImagesWrongMagic(name: string, c: seq<byte>)
    requires |c| >= 4 && c[..4] != Encode32(ImagesFileMagic)
    ensures ImagesFile(name, c) == Err(InvalidFormat(name))
  {
    EncodeDecode(c[..4]);
    assert c[0..4] == c[..4];
  }

  /** A file cut anywhere before the end of its pixels is rejected, naming the file. */
  lemma ImagesTruncated(name: string, img: ImageData, k: nat)
    requires img.n < Int32Range && img.w < Int32Range && img.h < Int32Range
    requires |img.data| == img.n * img.w * img.h
    requires 0 < k <= 16 + |img.data|
    ensures ImagesFile(name, EncodeImages(img)[..16 + |img.data| - k]) == Err(InvalidFormat(name))
  {
    var c := EncodeImages(img);
    var t := c[..16 + |img.data| - k];
    if |t| >= 16 {
      assert t[0..16] == c[0..16];
      ImagesRoundTrip(name, img);
      assert t[0..4] == c[0..4] && t[4..8] == c[4..8] && t[8..12] == c[8..12] && t[12..16] == c[12..16];
    }
  }

  /** Decoding an encoded labels file gives its labels back. */
  lemma LabelsRoundTrip(name: string, lbl: LabelData)
    requires lbl.n < Int32Range && |lbl.data| == lbl.n
    ensures LabelsFile(name, EncodeLabels(lbl)) == Ok(lbl)
  {
    var c := EncodeLabels(lbl);
    assert |c| == 8 + lbl.n;
    assert c[0..4] == Encode32(LabelsFileMagic) && c[4..8] == Encode32(lbl.n);
    assert c[8 .. 8 + lbl.n] == lbl.data;
    DecodeEncode(LabelsFileMagic);
    DecodeEncode(lbl.n);
    assert BigEndian(c[0..4]) == LabelsFileMagic && BigEndian(c[4..8]) == lbl.n;
  }

  /** An accepted labels file starts with its magic number and holds exactly `n` labels, any later bytes ignored. */
  lemma LabelsAccepted(name: string, c: seq<byte>)
    requires LabelsFile(name, c).Ok?
    ensures var lbl := LabelsFile(name, c).value;
      && lbl.n < Int32Range && |lbl.data| == lbl.n
      && EncodeLabels(lbl) == c[..8 + lbl.n]
  {
    var lbl := LabelsFile(name, c).value;
    EncodeDecode(c[0..4]);
    EncodeDecode(c[4..8]);
    assert c[..8 + lbl.n] == c[0..4] + c[4..8] + c[8 .. 8 + lbl.n];
  }

  /** A file whose first four bytes are not the labels magic number is rejected, naming the file. */
  lemma LabelsWrongMagic(name: string, c: seq<byte>)
    requires |c| >= 4 && c[..4] != Encode32(LabelsFileMagic)
    ensures LabelsFile(name, c) == Err(InvalidFormat(name))
  {
    EncodeDecode(c[..4]);
    assert c[0..4] == c[..4];
  }

  /** A labels file cut before its last label is rejected, naming the file. */
  lemma LabelsTruncated(name: string, lbl: LabelData, k: nat)
    requires lbl.n < Int32Range && |lbl.data| == lbl.n
    requires 0 < k <= 8 + lbl.n
    ensures LabelsFile(name, EncodeLabels(lbl)[..8 + lbl.n - k]) == Err(InvalidFormat(name))
  {
    var c := EncodeLabels(lbl);
    var t := c[..8 + lbl.n - k];
    if |t| >= 8 {
      LabelsRoundTrip(name, lbl);
      assert t[0..4] == c[0..4] && t[4..8] == c[4..8];
    }
  }

  // ---------------------------------------------------------------------
  // Rows and images
  // ---------------------------------------------------------------------

  lemma RowBounds(r: nat, count: nat, width: nat)
    requires r < count
    ensures r * width + width == (r + 1) * width <= count * width
  {
    MulMonotone(width, r + 1, count);
  }

  /** `data` cut into `count` consecutive rows of `width` bytes. */
  function Rows<T>(data: seq<T>, count: nat, width: nat): (rows: seq<seq<T>>)
    requires count * width <= |data|
    ensures |rows| == count
  {
    seq(count, r requires 0 <= r < count =>
      RowBounds(r, count, width);
      data[r * width .. (r + 1) * width])
  }

  /** Cuts `count` rows of `width` bytes from the front of `data`, reslicing it after each row. */
  method SplitRows(data: seq<byte>, count: nat, width: nat) returns (rows: seq<seq<byte>>)
    requires count * width <= |data|
    ensures rows == Rows(data, count, width)
  {
    var res := new seq<byte>[count](_ => []);
    var rest := data;
    for i := 0 to count
      invariant i * width <= |data| && rest == data[i * width ..]
      invariant forall r :: 0 <= r < i ==> res[r] == Rows(data, count, width)[r]
    {
      RowBounds(i, count, width);
      res[i] := rest[0 .. width];
      rest := rest[width ..];
    }
    rows := res[..];
  }

  /**
   * splitToRows (lines 184-192): `n * h` rows of `h` bytes. The source
   * slices past the end of `data`, and panics, unless it holds `n * h * h`
   * bytes.
   */
  method SplitToRows(data: seq<byte>, n: nat, h: nat) returns (rows: seq<seq<byte>>)
    requires n * h * h <= |data|
    ensures rows == Rows(data, n * h, h)
  {
    rows := SplitRows(data, n * h, h);
  }

  /** Row `r`, with its bounds. */
  lemma RowAt<T>(data: seq<T>, count: nat, width: nat, r: nat)
    requires count * width <= |data| && r < count
    ensures r * width + width == (r + 1) * width <= |data|
    ensures Rows(data, count, width)[r] == data[r * width .. (r + 1) * width]
  {
    RowBounds(r, count, width);
  }

  lemma SliceConcat<T>(data: seq<T>, i: nat, j: nat, k: nat)
    requires i <= j <= k <= |data|
    ensures data[i..j] + data[j..k] == data[i..k]
  {
  }

  /** Consecutive rows, joined again, are the bytes they were cut from. */
  lemma {:induction false} FlattenRows<T>(data: seq<T>, count: nat, width: nat, a: nat, b: nat)
    requires count * width <= |data| && a <= b <= count
    ensures a * width <= b * width <= |data|
    ensures Flatten(Rows(data, count, width)[a..b]) == data[a * width .. b * width]
    decreases b
  {
    MulRight(width, a, b);
    MulRight(width, b, count);
    if a < b {
      var rows := Rows(data, count, width);
      FlattenRows(data, count, width, a, b - 1);
      RowAt(data, count, width, b - 1);
      MulRight(width, a, b - 1);
      assert rows[a..b][..b - 1 - a] == rows[a .. b - 1];
      assert rows[a..b][b - 1 - a] == rows[b - 1];
      SliceConcat(data, a * width, (b - 1) * width, b * width);
    }
  }

  lemma FlattenSnoc<T>(rows: seq<seq<T>>, j: nat)
    requires j < |rows|
    ensures Flatten(rows[..j + 1]) == Flatten(rows[..j]) + rows[j]
  {
    assert rows[..j + 1][..j] == rows[..j];
  }

  lemma {:induction false} FlattenLength<T>(rows: seq<seq<T>>, width: nat)
    requires forall j :: 0 <= j < |rows| ==> |rows[j]| == width
    ensures |Flatten(rows)| == |rows| * width
    decreases |rows|
  {
    if |rows| > 0 {
      FlattenLength(rows[..|rows| - 1], width);
    }
  }

  lemma {:induction false} FlattenAppend<T>(a: seq<seq<T>>, b: seq<seq<T>>)
    ensures Flatten(a + b) == Flatten(a) + Flatten(b)
    decreases |b|
  {
    if |b| > 0 {
      var m := |b| - 1;
      FlattenAppend(a, b[..m]);
      assert (a + b)[..|a + b| - 1] == a + b[..m];
    } else {
      assert a + b == a;
    }
  }

  /** Row `r` of rows laid end to end sits just after the rows before it. */
  lemma FlattenAt<T>(rows: seq<seq<T>>, r: nat)
    requires r < |rows|
    ensures |Flatten(rows[..r])| + |rows[r]| <= |Flatten(rows)|
    ensures Flatten(rows)[|Flatten(rows[..r])| .. |Flatten(rows[..r])| + |rows[r]|] == rows[r]
  {
    assert rows == rows[..r + 1] + rows[r + 1..];
    FlattenAppend(rows[..r + 1], rows[r + 1..]);
    FlattenSnoc(rows, r);
  }

  /** Rows cut from joined rows are the rows themselves. */
  lemma RowsOfFlatten<T>(rows: seq<seq<T>>, width: nat)
    requires forall j :: 0 <= j < |rows| ==> |rows[j]| == width
    ensures |Flatten(rows)| == |rows| * width
    ensures Rows(Flatten(rows), |rows|, width) == rows
  {
    FlattenLength(rows, width);
    forall r | 0 <= r < |rows|
      ensures Rows(Flatten(rows), |rows|, width)[r] == rows[r]
    {
      RowAt(Flatten(rows), |rows|, width, r);
      FlattenLength(rows[..r], width);
      FlattenAt(rows, r);
    }
  }

  /** An image: `w` rows of `h` pixels each. */
  predicate ImageShaped(image: seq<seq<byte>>, w: nat, h: nat)
  {
    |image| == w && forall j :: 0 <= j < w ==> |image[j]| == h
  }

  /** DigitImage (lines 113-116). */
  datatype DigitImage = DigitImage(digit: nat, image: seq<seq<byte>>)

  /** DataSet (lines 119-124). */
  datatype DataSet = DataSet(n: nat, w: nat, h: nat, data: seq<DigitImage>)

  /** A pixel as a network input: its byte divided by 255. */
  function Pixel(b: byte): real
  {
    b as real / 255.0
  }

  function Pixels(bs: seq<byte>): (v: Vec)
    ensures |v| == |bs|
  {
    seq(|bs|, t requires 0 <= t < |bs| => Pixel(bs[t]))
  }

  /** The expected output for digit `d`: ten entries, 1 at `d` and 0 elsewhere. */
  function OneHot(d: nat): (v: Vec)
    requires d < 10
    ensures |v| == 10
  {
    seq(10, k requires 0 <= k < 10 => if k == d then 1.0 else 0.0)
  }

  /** The digit is where the expected output peaks, strictly: MaxKey of it is the digit. */
  lemma OneHotMaxKey(d: nat, key: nat)
    requires d < 10 && key < 10
    requires forall i :: 0 <= i < 10 ==> OneHot(d)[i] <= OneHot(d)[key]
    ensures key == d
  {
    assert OneHot(d)[d] == 1.0;
  }

  lemma PixelStep(a: seq<real>, p: nat, done: seq<byte>, row: seq<byte>, k: nat)
    requires p < |a| && k < |row| && a[..p] == Pixels(done + row[..k])
    ensures a[p := Pixel(row[k])][..p + 1] == Pixels(done + row[..k + 1])
  {
    assert done + row[..k + 1] == (done + row[..k]) + [row[k]];
  }

  /** Lines 134-136: the pixels of one row, written after the `|done|` pixels already there. */
  method PixelRow(v: Vec, base: nat, ghost done: seq<byte>, row: seq<byte>) returns (r: Vec)
    requires base + |row| <= |v| && v[..base] == Pixels(done)
    ensures |r| == |v|
    ensures r[..base + |row|] == Pixels(done + row)
    ensures r[base + |row| ..] == v[base + |row| ..]
  {
    r := v;
    for k := 0 to |row|
      invariant |r| == |v|
      invariant r[..base + k] == Pixels(done + row[..k])
      invariant r[base + |row| ..] == v[base + |row| ..]
    {
      PixelStep(r, base + k, done, row, k);
      r := r[base + k := Pixel(row[k])];
    }
    assert row[..|row|] == row;
  }

  /** The first `j` rows of `image` are written, as pixels, to the first `base` entries of `a`. */
  predicate Written(a: seq<real>, image: seq<seq<byte>>, j: nat, base: nat)
    requires j <= |image|
  {
    base == |Flatten(image[..j])| <= |a| && a[..base] == Pixels(Flatten(image[..j]))
  }

  lemma WrittenStep(a: seq<real>, image: seq<seq<byte>>, j: nat, base: nat)
    requires j < |image| && base == |Flatten(image[..j])| && base + |image[j]| <= |a|
    requires a[..base + |image[j]|] == Pixels(Flatten(image[..j]) + image[j])
    ensures Written(a, image, j + 1, base + |image[j]|)
  {
    FlattenSnoc(image, j);
  }

  lemma WrittenAll(a: seq<real>, image: seq<seq<byte>>, w: nat, h: nat, base: nat)
    requires ImageShaped(image, w, h) && |a| == w * h && Written(a, image, w, base)
    ensures a == Pixels(Flatten(image))
  {
    assert image[..w] == image;
    FlattenLength(image, h);
    assert a == a[..base];
  }

  /** The rows before row `j` and row `j` itself fit in `w * h` pixels. */
  lemma RowFits(image: seq<seq<byte>>, w: nat, h: nat, j: nat)
    requires ImageShaped(image, w, h) && j < w
    ensures |Flatten(image[..j])| + |image[j]| <= w * h
  {
    FlattenLength(image[..j], h);
    RowBounds(j, w, h);
  }

  /**
   * Lines 132-137 with the index of an image of `w` rows of `h` pixels,
   * `j * h + k`: the pixels row after row. The source writes `j * w + k`,
   * which agrees only for square images (ImageInputAsWritten).
   */
  method ImageInput(image: seq<seq<byte>>, w: nat, h: nat) returns (input: Vec)
    requires ImageShaped(image, w, h)
    ensures input == Pixels(Flatten(image))
  {
    input := CreateZero(w * h);
    var base: nat := 0;
    for j := 0 to w
      invariant |input| == w * h
      invariant Written(input, image, j, base)
    {
      RowFits(image, w, h, j);
      input := PixelRow(input, base, Flatten(image[..j]), image[j]);
      WrittenStep(input, image, j, base);
      base := base + |image[j]|;
    }
    WrittenAll(input, image, w, h, base);
  }

  // ---------------------------------------------------------------------
  // The pixel loops as written: entry `j * w + k`
  // ---------------------------------------------------------------------

  /** `a` with the first `k` pixels of `row` written from `off` on, one after the other. */
  function WriteRow(a: seq<real>, off: nat, row: seq<byte>, k: nat): (r: seq<real>)
    requires k <= |row| && (k == 0 || off + k <= |a|)
    ensures |r| == |a|
    decreases k
  {
    if k == 0 then a else WriteRow(a, off, row, k - 1)[off + k - 1 := Pixel(row[k - 1])]
  }

  /** Writing a row changes exactly the `k` entries from `off` on, to the row's pixels. */
  lemma {:induction false} WriteRowEffect(a: seq<real>, off: nat, row: seq<byte>, k: nat, t: nat)
    requires k <= |row| && (k == 0 || off + k <= |a|) && t < |a|
    ensures WriteRow(a, off, row, k)[t] == if off <= t < off + k then Pixel(row[t - off]) else a[t]
    decreases k
  {
    if k > 0 {
      WriteRowEffect(a, off, row, k - 1, t);
    }
  }

  /** Rows of at least `h` pixels: what the loops of lines 133-137 read for `j < w`, `k < h`. */
  predicate Readable(image: seq<seq<byte>>, w: nat, h: nat)
  {
    w <= |image| && forall j :: 0 <= j < w ==> h <= |image[j]|
  }

  /** With no more rows than columns, every index `j * w + k` the loops write lies below `w * h`. */
  lemma AsWrittenInRange(w: nat, h: nat, j: nat)
    requires j < w <= h
    ensures j * w + h <= w * h
  {
    MulRight(w, j, w - 1);
    MulMonotone(w - 1, w, h);
    assert (w - 1) * h + h == w * h;
  }

  /**
   * `a` after the first `j` rows of the loops as written: row `i` goes to
   * the entries from `i * w` on, whatever the length of a row.
   */
  function WriteImage(a: seq<real>, image: seq<seq<byte>>, w: nat, h: nat, j: nat): (r: seq<real>)
    requires Readable(image, w, h) && (w <= h || h == 0) && |a| == w * h && j <= w
    ensures |r| == |a|
    decreases j
  {
    if j == 0 then a
    else
      if h > 0 then AsWrittenInRange(w, h, j - 1); WriteRow(WriteImage(a, image, w, h, j - 1), (j - 1) * w, image[j - 1], h)
      else WriteRow(WriteImage(a, image, w, h, j - 1), (j - 1) * w, image[j - 1], h)
  }

  /**
   * Lines 132-137 as written: a zero vector of `w * h` entries, and pixel
   * `(j, k)` stored at `j * w + k`. With more rows than columns (and at
   * least one column) the last index is past the end and the source panics.
   */
  method ImageInputAsWritten(image: seq<seq<byte>>, w: nat, h: nat) returns (input: Vec)
    requires Readable(image, w, h) && (w <= h || h == 0)
    ensures input == WriteImage(CreateZero(w * h), image, w, h, w)
  {
    var a := new real[w * h](_ => 0.0);
    ghost var zero := CreateZero(w * h);
    assert a[..] == zero;
    for j := 0 to w
      invariant a[..] == WriteImage(zero, image, w, h, j)
    {
      ghost var before := a[..];
      if h > 0 {
        AsWrittenInRange(w, h, j);
      }
      for k := 0 to h
        invariant a[..] == WriteRow(before, j * w, image[j], k)
      {
        a[j * w + k] := Pixel(image[j][k]);
      }
    }
    input := a[..];
  }

  /** For square images the as-written index is the row-after-row one. */
  lemma {:induction false} AsWrittenSquarePrefix(image: seq<seq<byte>>, w: nat, j: nat)
    requires ImageShaped(image, w, w) && j <= w
    ensures |Flatten(image[..j])| == j * w
    ensures WriteImage(CreateZero(w * w), image, w, w, j)
         == Pixels(Flatten(image[..j])) + CreateZero(w * w)[j * w ..]
    decreases j
  {
    FlattenLength(image[..j], w);
    if j > 0 {
      var i := j - 1;
      AsWrittenSquarePrefix(image, w, i);
      RowBounds(i, w, w);
      FlattenSnoc(image, i);
      var z := CreateZero(w * w);
      var prev := WriteImage(z, image, w, w, i);
      var base := i * w;
      var want := Pixels(Flatten(image[..j])) + z[j * w ..];
      assert Flatten(image[..j]) == Flatten(image[..i]) + image[i];
      forall t | 0 <= t < w * w
        ensures WriteRow(prev, base, image[i], w)[t] == want[t]
      {
        AsWrittenInRange(w, w, i);
        WriteRowEffect(prev, base, image[i], w, t);
      }
      AsWrittenInRange(w, w, i);
    }
  }

  /** When `w == h` the loops as written give the pixels of the image row after row. */
  lemma AsWrittenSquare(image: seq<seq<byte>>, w: nat)
    requires ImageShaped(image, w, w)
    ensures WriteImage(CreateZero(w * w), image, w, w, w) == Pixels(Flatten(image))
  {
    AsWrittenSquarePrefix(image, w, w);
    assert image[..w] == image;
  }

  /**
   * Two rows of three pixels: the second row's first pixel overwrites entry 2,
   * which held the first row's last pixel, and entry 5 is never written.
   */
  lemma AsWrittenOverwrites()
    ensures var image: seq<seq<byte>> := [[1, 2, 3], [4, 5, 6]];
      && Readable(image, 2, 3)
      && WriteImage(CreateZero(6), image, 2, 3, 2)[2] == Pixel(4)
      && WriteImage(CreateZero(6), image, 2, 3, 2)[5] == 0.0
      && WriteImage(CreateZero(6), image, 2, 3, 2) != Pixels(Flatten(image))
  {
    var image: seq<seq<byte>> := [[1, 2, 3], [4, 5, 6]];
    var z := CreateZero(6);
    var first := WriteImage(z, image, 2, 3, 1);
    assert first == WriteRow(z, 0, image[0], 3);
    var r := WriteImage(z, image, 2, 3, 2);
    assert r == WriteRow(first, 2, image[1], 3);
    WriteRowEffect(first, 2, image[1], 3, 2);
    WriteRowEffect(first, 2, image[1], 3, 5);
    WriteRowEffect(z, 0, image[0], 3, 5);
    assert image[..1] == [image[0]] && image[..1][..0] == [];
    assert Flatten(image) == [1, 2, 3, 4, 5, 6];
    assert Pixels(Flatten(image))[5] == Pixel(6) != 0.0;
  }

  /** More rows than columns, and at least one column: the last index the loops write is past the end. */
  lemma AsWrittenOutOfRange(w: nat, h: nat)
    requires w > h >= 1
    ensures (w - 1) * w + (h - 1) >= w * h
  {
    MulMonotone(w - 1, h + 1, w);
    assert (w - 1) * (h + 1) == w * h - h + w - 1;
  }

  /**
   * dataset2NetInput (lines 126-145), with the pixel loops of an image of
   * `w` rows of `h` pixels indexed `j * h + k`, as in ImageInput: example `i`
   * has the pixels of image `i`, row after row, divided by 255, and the
   * one-hot vector of its digit.
   */
  method Dataset2NetInput(d: DataSet) returns (res: seq<Input>)
    requires |d.data| == d.n
    requires forall i :: 0 <= i < d.n ==> ImageShaped(d.data[i].image, d.w, d.h) && d.data[i].digit < 10
    ensures |res| == d.n
    ensures forall i :: 0 <= i < d.n ==>
      res[i] == Input(Pixels(Flatten(d.data[i].image)), OneHot(d.data[i].digit))
  {
    var out := new Input[d.n](_ => Input([], []));
    for i := 0 to d.n
      invariant forall m :: 0 <= m < i ==>
        out[m] == Input(Pixels(Flatten(d.data[m].image)), OneHot(d.data[m].digit))
    {
      var testCase := d.data[i];
      var expected := new real[10](_ => 0.0);
      expected[testCase.digit] := 1.0;
      assert expected[..] == OneHot(testCase.digit);
      var input := ImageInput(testCase.image, d.w, d.h);
      out[i] := Input(input, expected[..]);
    }
    res := out[..];
  }

  // ---------------------------------------------------------------------
  // ReadDataSet
  // ---------------------------------------------------------------------

  /** Whenever both files are accepted with the same count, every label is a digit. */
  predicate LabelsAreDigits(images: Result<ImageData, Error>, labels: Result<LabelData, Error>)
  {
    images.Ok? && labels.Ok? && images.value.n == labels.value.n ==>
      forall i :: 0 <= i < |labels.value.data| ==> labels.value.data[i] < 10
  }

  lemma ImageBounds(n: nat, w: nat, h: nat, i: nat)
    requires i < n
    ensures i * w * h + w * h == (i + 1) * w * h <= n * w * h
  {
    RowBounds(i, n, w);
    MulRight(h, (i + 1) * w, n * w);
  }

  lemma MulRight(a: nat, x: nat, y: nat)
    requires x <= y
    ensures x * a <= y * a
  {
  }

  lemma MulAssoc(a: nat, b: nat, c: nat)
    ensures a * b * c == a * (b * c)
  {
  }

  /** The `w * h` pixels of image `i`. */
  function ImagePixels(img: ImageData, i: nat): (px: seq<byte>)
    requires |img.data| == img.n * img.w * img.h && i < img.n
    ensures |px| == img.w * img.h
  {
    ImageBounds(img.n, img.w, img.h, i);
    img.data[i * img.w * img.h .. (i + 1) * img.w * img.h]
  }

  /** One example per image: its pixels divided by 255, and the one-hot vector of its label. */
  function Examples(img: ImageData, lbl: LabelData): seq<Input>
    requires |img.data| == img.n * img.w * img.h && |lbl.data| == img.n
    requires forall i :: 0 <= i < |lbl.data| ==> lbl.data[i] < 10
  {
    seq(img.n, i requires 0 <= i < img.n =>
      Input(Pixels(ImagePixels(img, i)), OneHot(lbl.data[i] as nat)))
  }

  /**
   * What ReadDataSet returns for an images file with bytes `ic` and a labels
   * file with bytes `lc`: the first error of the images file, then of the
   * labels file, then a count mismatch; otherwise one example per image.
   */
  function DataSetOf(imagesName: string, ic: seq<byte>, labelsName: string, lc: seq<byte>): Result<seq<Input>, Error>
    requires LabelsAreDigits(ImagesFile(imagesName, ic), LabelsFile(labelsName, lc))
  {
    var im := ImagesFile(imagesName, ic);
    var lb := LabelsFile(labelsName, lc);
    if im.Err? then Err(im.error)
    else if lb.Err? then Err(lb.error)
    else if im.value.n != lb.value.n then Err(SizeUnmatch(labelsName, imagesName))
    else
      ImagesAccepted(imagesName, ic);
      LabelsAccepted(labelsName, lc);
      Ok(Examples(im.value, lb.value))
  }

  /** The `w` rows of image `m`, among the rows cut from the pixels of `n` images. */
  function ImageRows(data: seq<byte>, n: nat, w: nat, h: nat, m: nat): seq<seq<byte>>
    requires n * w * h <= |data| && m < n
  {
    Rows(Rows(data, n * w, h), n, w)[m]
  }

  /** Every row is `width` long. */
  lemma RowsShaped<T>(data: seq<T>, count: nat, width: nat)
    requires count * width <= |data|
    ensures forall r :: 0 <= r < count ==> |Rows(data, count, width)[r]| == width
  {
    forall r | 0 <= r < count
      ensures |Rows(data, count, width)[r]| == width
    {
      RowBounds(r, count, width);
    }
  }

  /** The rows of image `m` form an image, and joined they are its pixels. */
  lemma ImageOfRows(data: seq<byte>, n: nat, w: nat, h: nat, m: nat)
    requires |data| == n * w * h && m < n
    ensures m * w * h + w * h == (m + 1) * w * h <= |data|
    ensures ImageShaped(ImageRows(data, n, w, h, m), w, h)
    ensures Flatten(ImageRows(data, n, w, h, m)) == data[m * w * h .. (m + 1) * w * h]
  {
    RowBounds(m, n, w);
    var rows := Rows(data, n * w, h);
    var image := ImageRows(data, n, w, h, m);
    assert image == rows[m * w .. (m + 1) * w];
    RowsShaped(data, n * w, h);
    assert forall j :: 0 <= j < w ==> image[j] == rows[m * w + j];
    ImageFlat(data, n, w, h, m);
  }

  lemma ImageFlat(data: seq<byte>, n: nat, w: nat, h: nat, m: nat)
    requires |data| == n * w * h && m < n
    ensures m * w * h + w * h == (m + 1) * w * h <= |data|
    ensures Flatten(ImageRows(data, n, w, h, m)) == data[m * w * h .. (m + 1) * w * h]
  {
    ImageBounds(n, w, h, m);
    RowBounds(m, n, w);
    assert ImageRows(data, n, w, h, m) == Rows(data, n * w, h)[m * w .. (m + 1) * w];
    FlattenRows(data, n * w, h, m * w, (m + 1) * w);
  }

  /**
   * The loop of lines 161-168 with the rows per image as a parameter: image
   * `m` takes the next `w` rows and label `m` as its digit. The source takes
   * `H` rows per image; ReadDataSet passes the image's `w` rows instead.
   */
  method GroupImages(all: seq<seq<byte>>, n: nat, w: nat, digits: seq<byte>) returns (data: seq<DigitImage>)
    requires n * w <= |all| && n <= |digits|
    ensures |data| == n
    ensures forall m :: 0 <= m < n ==> data[m] == DigitImage(digits[m] as nat, Rows(all, n, w)[m])
  {
    var res := new DigitImage[n](_ => DigitImage(0, []));
    var rows := all;
    for i := 0 to n
      invariant i * w <= |all| && rows == all[i * w ..]
      invariant forall m :: 0 <= m < i ==> res[m] == DigitImage(digits[m] as nat, Rows(all, n, w)[m])
    {
      RowBounds(i, n, w);
      res[i] := DigitImage(digits[i] as nat, rows[0 .. w]);
      rows := rows[w ..];
    }
    data := res[..];
  }

  /**
   * ReadDataSet (lines 148-170) on two files just opened, with each image
   * taken as `w` rows of `h` pixels, the corrected grouping of ToExamples:
   * the examples of DataSetOf. The source as written panics on an accepted
   * file of non-square images (NonSquareImagesPanic).
   */
  method ReadDataSet(imagesFile: File, labelsFile: File) returns (r: Result<seq<Input>, Error>)
    requires imagesFile != labelsFile && imagesFile.Valid() && labelsFile.Valid()
    requires imagesFile.pos == 0 && labelsFile.pos == 0
    requires LabelsAreDigits(ImagesFile(imagesFile.name, imagesFile.content), LabelsFile(labelsFile.name, labelsFile.content))
    modifies imagesFile, labelsFile
    ensures r == DataSetOf(imagesFile.name, imagesFile.content, labelsFile.name, labelsFile.content)
  {
    var images := ReadImagesFile(imagesFile);
    if images.Err? {
      return Err(images.error);
    }
    var labels := ReadLabelsFile(labelsFile);
    if labels.Err? {
      return Err(labels.error);
    }
    var im, lb := images.value, labels.value;
    if im.n != lb.n {
      return Err(SizeUnmatch(labelsFile.name, imagesFile.name));
    }
    ImagesAccepted(imagesFile.name, imagesFile.content);
    LabelsAccepted(labelsFile.name, labelsFile.content);
    var res := ToExamples(im, lb);
    return Ok(res);
  }

  /** Lines 160-169: the pixels cut into rows, the rows grouped into images, the images made examples. */
  method ToExamples(im: ImageData, lb: LabelData) returns (res: seq<Input>)
    requires |im.data| == im.n * im.w * im.h && |lb.data| == im.n
    requires forall i :: 0 <= i < |lb.data| ==> lb.data[i] < 10
    ensures res == Examples(im, lb)
  {
    var rows := SplitRows(im.data, im.n * im.w, im.h);
    var data := GroupImages(rows, im.n, im.w, lb.data);
    forall m | 0 <= m < im.n
      ensures ImageShaped(data[m].image, im.w, im.h) && data[m].digit < 10
      ensures Flatten(data[m].image) == ImagePixels(im, m)
    {
      ImageOfRows(im.data, im.n, im.w, im.h, m);
    }
    res := Dataset2NetInput(DataSet(im.n, im.w, im.h, data));
  }

  /** Images laid end to end are cut apart again by ImagePixels. */
  lemma ImagePixelsOfFlatten(pix: seq<seq<byte>>, w: nat, h: nat, i: nat)
    requires forall j :: 0 <= j < |pix| ==> |pix[j]| == w * h
    requires i < |pix|
    ensures |Flatten(pix)| == |pix| * w * h
    ensures ImagePixels(ImageData(|pix|, w, h, Flatten(pix)), i) == pix[i]
  {
    var n := |pix|;
    RowsOfFlatten(pix, w * h);
    MulAssoc(n, w, h);
    RowBounds(i, n, w * h);
    MulAssoc(i, w, h);
    MulAssoc(i + 1, w, h);
    assert Rows(Flatten(pix), n, w * h)[i] == pix[i];
  }

  lemma ExamplesOfFlatten(pix: seq<seq<byte>>, w: nat, h: nat, digits: seq<byte>)
    requires |pix| == |digits|
    requires forall i :: 0 <= i < |pix| ==> |pix[i]| == w * h
    requires forall i :: 0 <= i < |digits| ==> digits[i] < 10
    ensures |Flatten(pix)| == |pix| * w * h
    ensures Examples(ImageData(|pix|, w, h, Flatten(pix)), LabelData(|pix|, digits))
      == seq(|pix|, i requires 0 <= i < |pix| => Input(Pixels(pix[i]), OneHot(digits[i] as nat)))
  {
    FlattenLength(pix, w * h);
    MulAssoc(|pix|, w, h);
    forall i | 0 <= i < |pix|
      ensures ImagePixels(ImageData(|pix|, w, h, Flatten(pix)), i) == pix[i]
    {
      ImagePixelsOfFlatten(pix, w, h, i);
    }
  }

  /**
   * Encoding images and digits as the two files and reading them back, with
   * the corrected grouping, gives one example per image. The source as
   * written gets there only for square images.
   */
  lemma DataSetRoundTrip(imagesName: string, labelsName: string, pix: seq<seq<byte>>, w: nat, h: nat, digits: seq<byte>)
    requires |pix| == |digits| < Int32Range && w < Int32Range && h < Int32Range
    requires forall i :: 0 <= i < |pix| ==> |pix[i]| == w * h
    requires forall i :: 0 <= i < |digits| ==> digits[i] < 10
    ensures |Flatten(pix)| == |pix| * w * h
    ensures var ic, lc := EncodeImages(ImageData(|pix|, w, h, Flatten(pix))), EncodeLabels(LabelData(|pix|, digits));
      && LabelsAreDigits(ImagesFile(imagesName, ic), LabelsFile(labelsName, lc))
      && DataSetOf(imagesName, ic, labelsName, lc)
         == Ok(seq(|pix|, i requires 0 <= i < |pix| => Input(Pixels(pix[i]), OneHot(digits[i] as nat))))
  {
    ExamplesOfFlatten(pix, w, h, digits);
    ImagesRoundTrip(imagesName, ImageData(|pix|, w, h, Flatten(pix)));
    LabelsRoundTrip(labelsName, LabelData(|pix|, digits));
  }

  /** Two accepted files of different counts are refused, naming the labels file and then the images file. */
  lemma SizeMismatch(imagesName: string, labelsName: string, img: ImageData, lbl: LabelData)
    requires img.n < Int32Range && img.w < Int32Range && img.h < Int32Range
    requires |img.data| == img.n * img.w * img.h
    requires lbl.n < Int32Range && |lbl.data| == lbl.n
    requires img.n != lbl.n
    ensures var ic, lc := EncodeImages(img), EncodeLabels(lbl);
      && LabelsAreDigits(ImagesFile(imagesName, ic), LabelsFile(labelsName, lc))
      && DataSetOf(imagesName, ic, labelsName, lc) == Err(SizeUnmatch(labelsName, imagesName))
  {
    ImagesRoundTrip(imagesName, img);
    LabelsRoundTrip(labelsName, lbl);
  }

  /**
   * As written, ReadDataSet cuts rows with splitToRows(data, N, H): that
   * needs `n * h * h` bytes, so any accepted file of non-empty images with
   * fewer rows than columns makes it slice past the end of the pixels.
   */
  lemma AsWrittenNeedsSquare(img: ImageData)
    requires |img.data| == img.n * img.w * img.h && img.n > 0 && img.w < img.h
    ensures |img.data| < img.n * img.h * img.h
  {
    assert img.n * img.h > 0;
    assert (img.n * img.h) * img.w < (img.n * img.h) * img.h;
    assert img.n * img.w * img.h == (img.n * img.h) * img.w;
  }

  /** One image of one row of two pixels: the file is accepted, but SplitToRows's demand fails. */
  lemma NonSquareImagesPanic(name: string)
    ensures var img := ImageData(1, 1, 2, [0, 0]);
      ImagesFile(name, EncodeImages(img)) == Ok(img) && !(img.n * img.h * img.h <= |img.data|)
  {
    ImagesRoundTrip(name, ImageData(1, 1, 2, [0, 0]));
  }
}
