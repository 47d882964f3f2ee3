/**
 * The codec description table of the video layer and the lookups that scan it:
 * codec <-> FourCC conversion (with the alias table for FourCCs that were sent
 * under other names), codec names, file extensions, the opaque and RGB flags,
 * and the horizontal alignment of line widths.
 */
module VideoCodec {
  import opened Wrappers
  import Words

  /** codec_t. The enumerators are numbered in table order (see TableIndexedByCodec);
      a C caller may pass any other int, which no table entry matches. */
  type Codec = int

  const RGBA: Codec := 0
  const UYVY: Codec := 1
  const YUYV: Codec := 2
  const Vuy2: Codec := 3
  const DVS8: Codec := 4
  const R10k: Codec := 5
  const v210: Codec := 6
  const DVS10: Codec := 7
  const DXT1: Codec := 8
  const DXT1_YUV: Codec := 9
  const DXT5: Codec := 10
  const RGB: Codec := 11
  const DPX10: Codec := 12
  const JPEG: Codec := 13
  const RAW: Codec := 14

  /** (codec_t) -1: what get_codec_from_fcc answers for an unknown FourCC. */
  const NoCodec: Codec := -1

  /** to_fourcc: four 8-bit characters packed into a 32-bit word, the first one lowest,
      so that the word stored little-endian spells the characters in order. The
      characters are given by their ASCII codes. */
  function ToFourcc(a: bv8, b: bv8, c: bv8, d: bv8): (r: bv32)
    ensures Words.WordBytes(r) == [a, b, c, d]
  {
    (a as bv32) | ((b as bv32) << 8) | ((c as bv32) << 16) | ((d as bv32) << 24)
  }

  /** One row of codec_info. The bits-per-pixel column is a double and is not kept. */
  datatype CodecInfo = CodecInfo(
    codec: Codec,
    name: string,
    fcc: bv32,
    hAlign: nat,
    rgb: bool,
    isOpaque: bool,
    fileExtension: string)

  /** codec_info without its NULL-named terminator row. Characters of the FourCCs are
      written as ASCII codes; the row comments spell them. */
  const Table: seq<CodecInfo> := [
    CodecInfo(RGBA, "RGBA", ToFourcc(0x52, 0x47, 0x42, 0x41), 1, true, false, "rgba"),  // RGBA
    CodecInfo(UYVY, "UYVY", ToFourcc(0x32, 0x76, 0x75, 0x79), 1, false, false, "yuv"),  // 2vuy
    CodecInfo(YUYV, "YUYV", ToFourcc(0x59, 0x55, 0x59, 0x56), 1, false, false, "yuv"),  // YUYV
    CodecInfo(Vuy2, "2vuy", ToFourcc(0x32, 0x56, 0x75, 0x79), 1, false, false, "yuv"),  // 2Vuy
    CodecInfo(DVS8, "DVS8", ToFourcc(0x64, 0x76, 0x73, 0x38), 1, false, false, "yuv"),  // dvs8
    CodecInfo(R10k, "R10k", ToFourcc(0x52, 0x31, 0x30, 0x6B), 1, true, false, "r10k"),  // R10k
    CodecInfo(v210, "v210", ToFourcc(0x76, 0x32, 0x31, 0x30), 48, false, false, "v210"),  // v210
    CodecInfo(DVS10, "DVS10", ToFourcc(0x44, 0x53, 0x31, 0x30), 48, false, false, "dvs10"),  // DS10
    CodecInfo(DXT1, "DXT1", ToFourcc(0x44, 0x58, 0x54, 0x31), 1, true, true, "dxt1"),  // DXT1
    CodecInfo(DXT1_YUV, "DXT1 YUV", ToFourcc(0x44, 0x58, 0x54, 0x59), 1, false, true, "dxt1y"),  // DXTY
    CodecInfo(DXT5, "DXT5", ToFourcc(0x44, 0x58, 0x54, 0x35), 1, false, true, "yog"),  // DXT5
    CodecInfo(RGB, "RGB", ToFourcc(0x52, 0x47, 0x42, 0x32), 1, true, false, "rgb"),  // RGB2
    CodecInfo(DPX10, "DPX10", ToFourcc(0x44, 0x50, 0x31, 0x30), 1, true, false, "dpx"),  // DP10
    CodecInfo(JPEG, "JPEG", ToFourcc(0x4A, 0x50, 0x45, 0x47), 0, false, true, "jpg"),  // JPEG
    CodecInfo(RAW, "raw", ToFourcc(0x72, 0x61, 0x77, 0x73), 0, false, true, "raw")  // raws
  ]

  /** One row of fourcc_aliases: an obsolete or alternative FourCC and the table FourCC it stands for. */
  datatype AlternateFourcc = AlternateFourcc(alias: bv32, primaryFcc: bv32)

  /** fourcc_aliases without its zero terminator row. */
  const Aliases: seq<AlternateFourcc> := [
    AlternateFourcc(ToFourcc(0x41, 0x42, 0x47, 0x52), ToFourcc(0x52, 0x47, 0x42, 0x41)),  // ABGR -> RGBA
    AlternateFourcc(ToFourcc(0x32, 0x42, 0x47, 0x52), ToFourcc(0x52, 0x47, 0x42, 0x32)),  // 2BGR -> RGB2
    AlternateFourcc(ToFourcc(0x55, 0x59, 0x56, 0x59), ToFourcc(0x32, 0x76, 0x75, 0x79)),  // UYVY -> 2vuy
    AlternateFourcc(ToFourcc(0x4D, 0x4A, 0x50, 0x47), ToFourcc(0x4A, 0x50, 0x45, 0x47)),  // MJPG -> JPEG
    AlternateFourcc(ToFourcc(0x44, 0x56, 0x53, 0x38), ToFourcc(0x64, 0x76, 0x73, 0x38))  // DVS8 -> dvs8
  ]

  // ---------------------------------------------------------------------------
  // Facts about the constant tables

  /** Row i describes codec i: the enumeration follows the table, which is what lets
      vc_get_linesize index codec_info by codec value. */
  lemma TableIndexedByCodec()
    ensures forall i :: 0 <= i < |Table| ==> Table[i].codec == i
  {
  }

  /** No two rows share a FourCC, so the FourCC identifies the codec. */
  lemma TableFccsDistinct()
    ensures forall i, j :: 0 <= i < j < |Table| ==> Table[i].fcc != Table[j].fcc
  {
  }

  /** Some row of the table has this FourCC. */
  ghost predicate HasFcc(fcc: bv32)
  {
    exists j :: 0 <= j < |Table| && Table[j].fcc == fcc
  }

  /** No alias is listed twice. */
  lemma AliasesDistinct()
    ensures forall a, b :: 0 <= a < b < |Aliases| ==> Aliases[a].alias != Aliases[b].alias
  {
  }

  /** No alias is a FourCC of the table itself, so an alias is only ever consulted for it. */
  lemma AliasesNotInTable()
    ensures forall a, i :: 0 <= a < |Aliases| && 0 <= i < |Table| ==> Aliases[a].alias != Table[i].fcc
  {
  }

  /** Every alias points at a FourCC that the table has. */
  lemma AliasPrimariesKnown()
    ensures forall a :: 0 <= a < |Aliases| ==> HasFcc(Aliases[a].primaryFcc)
  {
    assert Table[RGBA].fcc == Aliases[0].primaryFcc;
    assert Table[RGB].fcc == Aliases[1].primaryFcc;
    assert Table[UYVY].fcc == Aliases[2].primaryFcc;
    assert Table[JPEG].fcc == Aliases[3].primaryFcc;
    assert Table[DVS8].fcc == Aliases[4].primaryFcc;
  }

  // ---------------------------------------------------------------------------
  // Linear scans

  /** The `while (codec_info[i].name != NULL)` scan by codec: the first row at or
      after i whose codec is the argument. */
  function FindCodec(codec: Codec, i: nat): (r: Option<nat>)
    requires i <= |Table|
    ensures r.Some? ==> i <= r.value < |Table| && Table[r.value].codec == codec
    ensures r.Some? ==> forall j :: i <= j < r.value ==> Table[j].codec != codec
    ensures r.None? ==> forall j :: i <= j < |Table| ==> Table[j].codec != codec
    decreases |Table| - i
  {
    if i == |Table| then None
    else if Table[i].codec == codec then Some(i)
    else FindCodec(codec, i + 1)
  }

  /** The same scan by FourCC. */
  function FindFcc(fourcc: bv32, i: nat): (r: Option<nat>)
    requires i <= |Table|
    ensures r.Some? ==> i <= r.value < |Table| && Table[r.value].fcc == fourcc
    ensures r.Some? ==> forall j :: i <= j < r.value ==> Table[j].fcc != fourcc
    ensures r.None? ==> forall j :: i <= j < |Table| ==> Table[j].fcc != fourcc
    decreases |Table| - i
  {
    if i == |Table| then None
    else if Table[i].fcc == fourcc then Some(i)
    else FindFcc(fourcc, i + 1)
  }

  /** A codec the table knows: the codecs 0 .. |Table|-1. */
  predicate Known(codec: Codec)
  {
    0 <= codec < |Table|
  }

  // ---------------------------------------------------------------------------
  // Lookups by codec

  /** get_fourcc: the FourCC of the codec's row, 0 for an unknown codec. */
  function GetFourcc(codec: Codec): (r: bv32)
    ensures Known(codec) ==> r == Table[codec].fcc
    ensures !Known(codec) ==> r == 0
  {
    TableIndexedByCodec();
    match FindCodec(codec, 0)
    case Some(i) => Table[i].fcc
    case None => 0
  }

  /** get_fcc_from_codec: the same scan as get_fourcc. */
  function GetFccFromCodec(codec: Codec): (r: bv32)
    ensures Known(codec) ==> r == Table[codec].fcc
    ensures !Known(codec) ==> r == 0
  {
    TableIndexedByCodec();
    match FindCodec(codec, 0)
    case Some(i) => Table[i].fcc
    case None => 0
  }

  /** get_codec_name: the codec's name, NULL (None) for an unknown codec. */
  function GetCodecName(codec: Codec): (r: Option<string>)
    ensures Known(codec) ==> r == Some(Table[codec].name)
    ensures !Known(codec) ==> r == None
  {
    TableIndexedByCodec();
    match FindCodec(codec, 0)
    case Some(i) => Some(Table[i].name)
    case None => None
  }

  /** get_codec_file_extension: the codec's file extension, NULL (None) for an unknown codec. */
  function GetCodecFileExtension(codec: Codec): (r: Option<string>)
    ensures Known(codec) ==> r == Some(Table[codec].fileExtension)
    ensures !Known(codec) ==> r == None
  {
    TableIndexedByCodec();
    match FindCodec(codec, 0)
    case Some(i) => Some(Table[i].fileExtension)
    case None => None
  }

  /** is_codec_opaque: the codec's opaque flag, false for an unknown codec. */
  function IsCodecOpaque(codec: Codec): (r: bool)
    ensures r <==> Known(codec) && Table[codec].isOpaque
  {
    TableIndexedByCodec();
    match FindCodec(codec, 0)
    case Some(i) => Table[i].isOpaque
    case None => false
  }

  /** codec_is_a_rgb: the codec's RGB flag, false for an unknown codec. */
  function CodecIsARgb(codec: Codec): (r: bool)
    ensures r <==> Known(codec) && Table[codec].rgb
  {
    TableIndexedByCodec();
    match FindCodec(codec, 0)
    case Some(i) => Table[i].rgb
    case None => false
  }

  /** get_halign: the codec's horizontal alignment in pixels, 0 for an unknown codec. */
  function GetHalign(codec: Codec): (r: nat)
    ensures Known(codec) ==> r == Table[codec].hAlign
    ensures !Known(codec) ==> r == 0
  {
    TableIndexedByCodec();
    match FindCodec(codec, 0)
    case Some(i) => Table[i].hAlign
    case None => 0
  }

  /** Which codecs have which alignment: the two 10-bit 4:2:2 formats pack 48 pixels
      per block, the compressed JPEG and raw SDI streams and unknown codecs have none. */
  lemma HalignValues(codec: Codec)
    ensures GetHalign(codec) == 48 <==> codec == v210 || codec == DVS10
    ensures GetHalign(codec) == 0 <==> codec == JPEG || codec == RAW || !Known(codec)
    ensures GetHalign(codec) == 1 <==> Known(codec) && codec != v210 && codec != DVS10 && codec != JPEG && codec != RAW
  {
  }

  // ---------------------------------------------------------------------------
  // Alignment of widths

  const INT_MIN: int := -0x8000_0000
  const INT_MAX: int := 0x7FFF_FFFF

  /** C's `/` on int: the quotient truncated toward zero. */
  function CDiv(a: int, b: int): (q: int)
    requires b > 0
    ensures a >= 0 ==> q == a / b
    ensures a < 0 ==> q == -((-a) / b)
  {
    if a >= 0 then a / b else -((-a) / b)
  }

  /** Rounding up by truncating division: for w > -h, ((w + h - 1) / h) * h in C is the
      least multiple of h that is at least w. */
  lemma RoundUp(w: int, h: int)
    requires h > 0 && w + h > 0
    ensures CDiv(w + h - 1, h) * h % h == 0
    ensures w <= CDiv(w + h - 1, h) * h < w + h
  {
    var a := w + h - 1;
    var q, m := a / h, a % h;
    assert a == h * q + m && 0 <= m < h;
    assert CDiv(a, h) * h == a - m;
    DivModUnique(a - m, h, q, 0);
  }

  /** h * d is at least h for a positive h and d. */
  lemma MulAtLeast(h: int, d: int)
    requires h > 0 && d >= 1
    ensures h * d >= h
  {
  }

  /** Euclidean division is unique: a = h * q + m with 0 <= m < h fixes the remainder. */
  lemma DivModUnique(a: int, h: int, q: int, m: int)
    requires h > 0 && a == h * q + m && 0 <= m < h
    ensures a % h == m
  {
    var q2, m2 := a / h, a % h;
    assert h * q2 + m2 == a;
    if q > q2 {
      MulAtLeast(h, q - q2);
    } else if q < q2 {
      MulAtLeast(h, q2 - q);
    }
  }

  /** get_haligned: ((width + h_align - 1) / h_align) * h_align in C int arithmetic.
      The caller must not ask for a codec without alignment (a division by zero) nor
      a width so large that the sum overflows. For every width above -h_align the
      result is the least multiple of h_align that is at least the width. */
  function GetHaligned(width: int, codec: Codec): (r: int)
    requires GetHalign(codec) > 0
    requires INT_MIN <= width && width + GetHalign(codec) - 1 <= INT_MAX
    ensures width + GetHalign(codec) > 0 ==>
      r % GetHalign(codec) == 0 && width <= r < width + GetHalign(codec)
  {
    var h := GetHalign(codec);
    if width + h > 0 then RoundUp(width, h); CDiv(width + h - 1, h) * h
    else CDiv(width + h - 1, h) * h
  }

  // ---------------------------------------------------------------------------
  // Lookup by FourCC

  /** The alias loop of get_codec_from_fcc, from alias row i on: for an alias equal to
      the FourCC it looks up the alias's primary FourCC in the table and, if that
      fails, goes on with the next alias; (codec_t) -1 when no alias resolves. */
  function FindAlias(fourcc: bv32, i: nat): (r: Option<nat>)
    requires i <= |Aliases|
    ensures r.Some? ==> r.value < |Table|
    ensures (forall a :: i <= a < |Aliases| ==> Aliases[a].alias != fourcc) ==> r.None?
    ensures forall a :: i <= a < |Aliases| && Aliases[a].alias == fourcc &&
                        (forall b :: i <= b < a ==> Aliases[b].alias != fourcc) &&
                        HasFcc(Aliases[a].primaryFcc) ==>
      r.Some? && Table[r.value].fcc == Aliases[a].primaryFcc
    decreases |Aliases| - i
  {
    if i == |Aliases| then None
    else if Aliases[i].alias == fourcc then
      match FindFcc(Aliases[i].primaryFcc, 0)
      case Some(j) => Some(j)
      case None => FindAlias(fourcc, i + 1)
    else FindAlias(fourcc, i + 1)
  }

  /** get_codec_from_fcc: the codec whose row has this FourCC; failing that, the codec
      an alias of that FourCC stands for; failing that, (codec_t) -1. */
  function GetCodecFromFcc(fourcc: bv32): (r: Codec)
    ensures forall i :: 0 <= i < |Table| && Table[i].fcc == fourcc ==> r == i
    ensures (forall i :: 0 <= i < |Table| ==> Table[i].fcc != fourcc) ==>
      forall a :: 0 <= a < |Aliases| && Aliases[a].alias == fourcc ==>
        Known(r) && Table[r].fcc == Aliases[a].primaryFcc
    ensures ((forall i :: 0 <= i < |Table| ==> Table[i].fcc != fourcc) &&
             (forall a :: 0 <= a < |Aliases| ==> Aliases[a].alias != fourcc)) ==> r == NoCodec
  {
    TableFccsDistinct();
    TableIndexedByCodec();
    AliasesDistinct();
    AliasPrimariesKnown();
    match FindFcc(fourcc, 0)
    case Some(i) => Table[i].codec
    case None =>
      match FindAlias(fourcc, 0)
      case Some(j) => Table[j].codec
      case None => NoCodec
  }

  // ---------------------------------------------------------------------------
  // Properties of the lookups

  /** Every codec of the table survives the trip codec -> FourCC -> codec. */
  lemma FourccRoundTrip(codec: Codec)
    requires Known(codec)
    ensures GetCodecFromFcc(GetFourcc(codec)) == codec
  {
  }

  /** A FourCC that is neither in the table nor an alias maps to no codec. */
  lemma UnknownFourcc(fourcc: bv32)
    requires forall i :: 0 <= i < |Table| ==> Table[i].fcc != fourcc
    requires forall a :: 0 <= a < |Aliases| ==> Aliases[a].alias != fourcc
    ensures GetCodecFromFcc(fourcc) == NoCodec
  {
  }

  /** Every listed alias resolves to the codec whose FourCC is the alias's primary. */
  lemma AliasResolves(a: nat)
    requires a < |Aliases|
    ensures Known(GetCodecFromFcc(Aliases[a].alias))
    ensures Table[GetCodecFromFcc(Aliases[a].alias)].fcc == Aliases[a].primaryFcc
  {
    AliasesNotInTable();
    AliasesDistinct();
    AliasPrimariesKnown();
  }

  /** 'ABGR' (RGBA sent with the wrong byte order) is read as RGBA. */
  lemma AliasAbgrIsRgba()
    ensures GetCodecFromFcc(ToFourcc(0x41, 0x42, 0x47, 0x52)) == RGBA
  {
    assert Aliases[0].alias == ToFourcc(0x41, 0x42, 0x47, 0x52);
    AliasResolves(0);
    assert Table[RGBA].fcc == Aliases[0].primaryFcc;
    TableFccsDistinct();
  }

  /** 'MJPG' is read as JPEG. */
  lemma AliasMjpgIsJpeg()
    ensures GetCodecFromFcc(ToFourcc(0x4D, 0x4A, 0x50, 0x47)) == JPEG
  {
    assert Aliases[3].alias == ToFourcc(0x4D, 0x4A, 0x50, 0x47);
    AliasResolves(3);
    assert Table[JPEG].fcc == Aliases[3].primaryFcc;
    TableFccsDistinct();
  }
}
