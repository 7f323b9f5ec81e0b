/** The on-disk ANALYZE object record: 37 fields, written back to back in
    declaration order with their declared widths (a 32-byte name, `int`s of
    4 bytes, `unsigned char` flags of 1 byte, `short int` bounding-box values
    of 2 bytes, `float`s of 4 bytes), 152 bytes in all.

    A record here holds each field as the bytes it occupies in memory, which
    is what `ReadFromFilePointer`, `Write` and `SwapObjectEndedness` move and
    rearrange; the numeric value of a 4-byte field is `Load32` of its bytes
    and that of a bounding-box field `Load16` of its bytes. `float` fields
    are kept as their bytes only: nothing here does floating-point
    arithmetic on them.

    Field numbers, in declaration order:
      0 name; 1 display flag; 2-5 copy, mirror, status and neighbours-used
      flags; 6 shades; 7-9 start red, green, blue; 10-12 end red, green,
      blue; 13-15 x/y/z rotation; 16-18 x/y/z translation; 19-21 x/y/z
      centre; 22-24 x/y/z rotation increment; 25-27 x/y/z translation
      increment; 28-33 minimum x/y/z and maximum x/y/z value; 34 opacity;
      35 opacity thickness; 36 blend factor. */
module EntryRecord {
  import opened ByteOrder

  /** The 32 name bytes that a record carries on disk. */
  type NameBytes = s: seq<byte> | |s| == 32 witness seq(32, _ => 0)

  /** The memory image of an `int` or a `float`. */
  type Word = s: seq<byte> | |s| == 4 witness [0, 0, 0, 0]

  /** The memory image of a `short int`. */
  type Half = s: seq<byte> | |s| == 2 witness [0, 0]

  datatype Record = Record(
    name: NameBytes,
    displayFlag: Word,
    copyFlag: byte,
    mirrorFlag: byte,
    statusFlag: byte,
    neighborsUsedFlag: byte,
    shades: Word,
    startRed: Word,
    startGreen: Word,
    startBlue: Word,
    endRed: Word,
    endGreen: Word,
    endBlue: Word,
    xRotation: Word,
    yRotation: Word,
    zRotation: Word,
    xTranslation: Word,
    yTranslation: Word,
    zTranslation: Word,
    xCenter: Word,
    yCenter: Word,
    zCenter: Word,
    xRotationIncrement: Word,
    yRotationIncrement: Word,
    zRotationIncrement: Word,
    xTranslationIncrement: Word,
    yTranslationIncrement: Word,
    zTranslationIncrement: Word,
    minimumXValue: Half,
    minimumYValue: Half,
    minimumZValue: Half,
    maximumXValue: Half,
    maximumYValue: Half,
    maximumZValue: Half,
    opacity: Word,
    opacityThickness: Word,
    blendFactor: Word)

  const FieldCount: nat := 37
  const RecordSize: nat := 152

  /** The four `unsigned char` flags. */
  predicate IsFlag(i: nat) { 2 <= i <= 5 }

  /** The six `short int` bounding-box values. */
  predicate IsShort(i: nat) { 28 <= i <= 33 }

  /** Fields that hold a multi-byte number: the ones a byte swap reverses. */
  predicate MultiByte(i: nat) { 0 < i < FieldCount && !IsFlag(i) }

  /** Declared width in bytes of field `i`. */
  function Width(i: nat): (w: nat)
    requires i < FieldCount
    ensures w == 32 <==> i == 0
    ensures w == 1 <==> IsFlag(i)
    ensures w == 2 <==> IsShort(i)
    ensures w == 4 <==> MultiByte(i) && !IsShort(i)
  {
    if i == 0 then 32
    else if IsFlag(i) then 1
    else if IsShort(i) then 2
    else 4
  }

  /** Byte offset of field `i` in the record, `Offset(FieldCount)` being the
      record size: the name, the display flag, the four flag bytes, 22
      four-byte fields, the six bounding-box shorts and three more four-byte
      fields. */
  function Offset(i: nat): (o: nat)
    requires i <= FieldCount
    ensures o <= RecordSize
  {
    if i <= 1 then 32 * i
    else if i <= 6 then 36 + (i - 2)
    else if i <= 28 then 40 + 4 * (i - 6)
    else if i <= 34 then 128 + 2 * (i - 28)
    else 140 + 4 * (i - 34)
  }

  /** The layout as the declarations define it: each field starts where the
      previous one ends. */
  function RunningSum(i: nat): nat
    requires i <= FieldCount
  {
    if i == 0 then 0 else RunningSum(i - 1) + Width(i - 1)
  }

  /** The offsets are the running sum of the declared widths. */
  lemma {:induction false} OffsetIsRunningSum(i: nat)
    requires i <= FieldCount
    ensures Offset(i) == RunningSum(i)
  {
    if i > 0 {
      OffsetIsRunningSum(i - 1);
      OffsetBounds(i - 1);
    }
  }

  /** The record is 152 bytes. The inline comments next to the declarations
      disagree with the widths from EndRed onward: they place EndRed at 53
      and BlendFactor at 146, the widths at 56 and 148. */
  lemma Layout()
    ensures RunningSum(FieldCount) == RecordSize
    ensures RunningSum(10) == 56 && RunningSum(36) == 148
  {
    OffsetIsRunningSum(FieldCount);
    OffsetIsRunningSum(10);
    OffsetIsRunningSum(36);
  }

  /** Each field ends where the next begins, inside the record. */
  lemma OffsetBounds(i: nat)
    requires i < FieldCount
    ensures Offset(i + 1) == Offset(i) + Width(i)
    ensures Offset(i) + Width(i) <= RecordSize
  {
  }

  /** The bytes field `i` of `r` occupies in memory and in the stream. */
  function FieldBytes(r: Record, i: nat): (b: seq<byte>)
    requires i < FieldCount
    ensures |b| == Width(i)
  {
    match i
    case 0 => r.name
    case 1 => r.displayFlag
    case 2 => [r.copyFlag]
    case 3 => [r.mirrorFlag]
    case 4 => [r.statusFlag]
    case 5 => [r.neighborsUsedFlag]
    case 6 => r.shades
    case 7 => r.startRed
    case 8 => r.startGreen
    case 9 => r.startBlue
    case 10 => r.endRed
    case 11 => r.endGreen
    case 12 => r.endBlue
    case 13 => r.xRotation
    case 14 => r.yRotation
    case 15 => r.zRotation
    case 16 => r.xTranslation
    case 17 => r.yTranslation
    case 18 => r.zTranslation
    case 19 => r.xCenter
    case 20 => r.yCenter
    case 21 => r.zCenter
    case 22 => r.xRotationIncrement
    case 23 => r.yRotationIncrement
    case 24 => r.zRotationIncrement
    case 25 => r.xTranslationIncrement
    case 26 => r.yTranslationIncrement
    case 27 => r.zTranslationIncrement
    case 28 => r.minimumXValue
    case 29 => r.minimumYValue
    case 30 => r.minimumZValue
    case 31 => r.maximumXValue
    case 32 => r.maximumYValue
    case 33 => r.maximumZValue
    case 34 => r.opacity
    case 35 => r.opacityThickness
    case _ => r.blendFactor
  }

  /** The memory images of the 37 fields of `r`, in declaration order. */
  function Images(r: Record): (imgs: seq<seq<byte>>)
    ensures Fits(imgs)
  {
    seq(FieldCount, i requires 0 <= i < FieldCount => FieldBytes(r, i))
  }

  /** One chunk per field, each as wide as the field's declared type. */
  ghost predicate Fits(chunks: seq<seq<byte>>)
  {
    |chunks| == FieldCount && forall i :: 0 <= i < FieldCount ==> |chunks[i]| == Width(i)
  }

  /** What `Write` emits for a record: every field's bytes, in declaration
      order, with no byte swapping. */
  function Encode(r: Record): seq<byte>
  {
    r.name + r.displayFlag + [r.copyFlag] + [r.mirrorFlag] + [r.statusFlag] +
    [r.neighborsUsedFlag] + r.shades + r.startRed + r.startGreen + r.startBlue + r.endRed +
    r.endGreen + r.endBlue + r.xRotation + r.yRotation + r.zRotation + r.xTranslation +
    r.yTranslation + r.zTranslation + r.xCenter + r.yCenter + r.zCenter + r.xRotationIncrement +
    r.yRotationIncrement + r.zRotationIncrement + r.xTranslationIncrement +
    r.yTranslationIncrement + r.zTranslationIncrement + r.minimumXValue + r.minimumYValue +
    r.minimumZValue + r.maximumXValue + r.maximumYValue + r.maximumZValue + r.opacity +
    r.opacityThickness + r.blendFactor
  }

  /** `SwapObjectEndedness` on a record: the bytes of every multi-byte field
      reversed, the name and the four flag bytes as they were. */
  function Swap(r: Record): (q: Record)
    ensures forall i | 0 <= i < FieldCount ::
              FieldBytes(q, i) == if MultiByte(i) then Reverse(FieldBytes(r, i)) else FieldBytes(r, i)
  {
    r.(displayFlag := Reverse(r.displayFlag),
       shades := Reverse(r.shades),
       startRed := Reverse(r.startRed),
       startGreen := Reverse(r.startGreen),
       startBlue := Reverse(r.startBlue),
       endRed := Reverse(r.endRed),
       endGreen := Reverse(r.endGreen),
       endBlue := Reverse(r.endBlue),
       xRotation := Reverse(r.xRotation),
       yRotation := Reverse(r.yRotation),
       zRotation := Reverse(r.zRotation),
       xTranslation := Reverse(r.xTranslation),
       yTranslation := Reverse(r.yTranslation),
       zTranslation := Reverse(r.zTranslation),
       xCenter := Reverse(r.xCenter),
       yCenter := Reverse(r.yCenter),
       zCenter := Reverse(r.zCenter),
       xRotationIncrement := Reverse(r.xRotationIncrement),
       yRotationIncrement := Reverse(r.yRotationIncrement),
       zRotationIncrement := Reverse(r.zRotationIncrement),
       xTranslationIncrement := Reverse(r.xTranslationIncrement),
       yTranslationIncrement := Reverse(r.yTranslationIncrement),
       zTranslationIncrement := Reverse(r.zTranslationIncrement),
       minimumXValue := Reverse(r.minimumXValue),
       minimumYValue := Reverse(r.minimumYValue),
       minimumZValue := Reverse(r.minimumZValue),
       maximumXValue := Reverse(r.maximumXValue),
       maximumYValue := Reverse(r.maximumYValue),
       maximumZValue := Reverse(r.maximumZValue),
       opacity := Reverse(r.opacity),
       opacityThickness := Reverse(r.opacityThickness),
       blendFactor := Reverse(r.blendFactor))
  }

  /** The bytes of field `i` in a 152-byte record image. */
  function Slice(b: seq<byte>, i: nat): (f: seq<byte>)
    requires |b| == RecordSize && i < FieldCount
    ensures |f| == Width(i)
  {
    b[Offset(i) .. Offset(i) + Width(i)]
  }

  /** The record whose memory image is `b`: every field taken from its own
      bytes. */
  function Decode(b: seq<byte>): (r: Record)
    requires |b| == RecordSize
    ensures forall i | 0 <= i < FieldCount :: FieldBytes(r, i) == Slice(b, i)
  {
    Record(
      b[0..32], b[32..36], b[36], b[37], b[38], b[39], b[40..44], b[44..48], b[48..52], b[52..56],
      b[56..60], b[60..64], b[64..68], b[68..72], b[72..76], b[76..80], b[80..84], b[84..88],
      b[88..92], b[92..96], b[96..100], b[100..104], b[104..108], b[108..112], b[112..116],
      b[116..120], b[120..124], b[124..128], b[128..130], b[130..132], b[132..134], b[134..136],
      b[136..138], b[138..140], b[140..144], b[144..148], b[148..152])
  }

  /** What `ReadFromFilePointer` stores from 152 bytes: each field read,
      then byte-swapped in place when `swap` is set. Swapping a 1-byte value
      is the identity. */
  function ReadRecord(b: seq<byte>, swap: bool): (r: Record)
    requires |b| == RecordSize
    ensures forall i | 0 <= i < FieldCount ::
              FieldBytes(r, i) == if swap && MultiByte(i) then Reverse(Slice(b, i)) else Slice(b, i)
  {
    if swap then Swap(Decode(b)) else Decode(b)
  }

  /** Chunks written one after another. */
  function Concat(chunks: seq<seq<byte>>): seq<byte>
  {
    if chunks == [] then [] else Concat(chunks[..|chunks| - 1]) + chunks[|chunks| - 1]
  }

  lemma ConcatSnoc(chunks: seq<seq<byte>>, k: nat)
    requires k < |chunks|
    ensures Concat(chunks[..k + 1]) == Concat(chunks[..k]) + chunks[k]
  {
    assert chunks[..k + 1][..k] == chunks[..k];
  }

  /** Writing a sequence of chunks is writing a prefix of them and then the rest. */
  lemma {:induction false} ConcatSplit(c: seq<seq<byte>>, k: nat)
    requires k <= |c|
    ensures Concat(c) == Concat(c[..k]) + Concat(c[k..])
    decreases |c|
  {
    if k == |c| {
      assert c[..k] == c;
      assert c[k..] == [];
    } else {
      var n := |c| - 1;
      ConcatSplit(c[..n], k);
      assert c[..n][..k] == c[..k];
      assert c[..n][k..] == c[k..][..n - k];
      assert c[k..][n - k] == c[n];
    }
  }

  /** The first `k` fields of a record's chunks fill `Offset(k)` bytes. */
  lemma {:induction false} ConcatLength(chunks: seq<seq<byte>>, k: nat)
    requires Fits(chunks) && k <= FieldCount
    ensures |Concat(chunks[..k])| == Offset(k)
  {
    if k > 0 {
      ConcatLength(chunks, k - 1);
      ConcatSnoc(chunks, k - 1);
      OffsetBounds(k - 1);
    }
  }

  lemma SliceMiddle(x: seq<byte>, y: seq<byte>, z: seq<byte>)
    ensures (x + (y + z))[|x| .. |x| + |y|] == y
  {
    assert (x + (y + z))[|x| .. |x| + |y|] == (y + z)[..|y|];
  }

  /** Chunk `i` lies at the offset of field `i`. */
  lemma ConcatAt(chunks: seq<seq<byte>>, i: nat)
    requires Fits(chunks) && i < FieldCount
    ensures |Concat(chunks)| == RecordSize
    ensures Slice(Concat(chunks), i) == chunks[i]
  {
    assert chunks[..FieldCount] == chunks;
    ConcatLength(chunks, FieldCount);
    ConcatLength(chunks, i);
    ConcatSplit(chunks, i);
    var rest := chunks[i..];
    ConcatSplit(rest, 1);
    assert rest[..1] == [chunks[i]];
    assert Concat([chunks[i]]) == chunks[i] by {
      var empty: seq<seq<byte>> := [];
      assert [chunks[i]][..0] == empty;
    }
    SliceMiddle(Concat(chunks[..i]), chunks[i], Concat(rest[1..]));
  }

  lemma SplitAt(b: seq<byte>, x: nat, y: nat)
    requires x <= y <= |b|
    ensures b[..y] == b[..x] + b[x..y]
  {
  }

  /** The field slices of a record image, written one after another,
      rebuild its first `Offset(k)` bytes. */
  lemma {:induction false} ConcatSlices(b: seq<byte>, chunks: seq<seq<byte>>, k: nat)
    requires |b| == RecordSize && |chunks| == FieldCount && k <= FieldCount
    requires forall i :: 0 <= i < FieldCount ==> chunks[i] == Slice(b, i)
    ensures Concat(chunks[..k]) == b[..Offset(k)]
  {
    if k == 0 {
      assert chunks[..0] == [];
    } else {
      ConcatSlices(b, chunks, k - 1);
      ConcatSnoc(chunks, k - 1);
      OffsetBounds(k - 1);
      SplitAt(b, Offset(k - 1), Offset(k));
    }
  }

  // Concatenating the 37 chunks one group at a time keeps each proof small.

  lemma {:induction false} ConcatThrough7(c: seq<seq<byte>>)
    requires |c| >= 7
    ensures Concat(c[..7]) == c[0] + c[1] + c[2] + c[3] + c[4] + c[5] + c[6]
  {
    assert c[..0] == [];
    ConcatSnoc(c, 0);
    ConcatSnoc(c, 1);
    ConcatSnoc(c, 2);
    ConcatSnoc(c, 3);
    ConcatSnoc(c, 4);
    ConcatSnoc(c, 5);
    ConcatSnoc(c, 6);
  }

  lemma {:induction false} ConcatThrough13(c: seq<seq<byte>>)
    requires |c| >= 13
    ensures Concat(c[..13]) == Concat(c[..7]) + c[7] + c[8] + c[9] + c[10] + c[11] + c[12]
  {
    ConcatSnoc(c, 7);
    ConcatSnoc(c, 8);
    ConcatSnoc(c, 9);
    ConcatSnoc(c, 10);
    ConcatSnoc(c, 11);
    ConcatSnoc(c, 12);
  }

  lemma {:induction false} ConcatThrough19(c: seq<seq<byte>>)
    requires |c| >= 19
    ensures Concat(c[..19]) == Concat(c[..13]) + c[13] + c[14] + c[15] + c[16] + c[17] + c[18]
  {
    ConcatSnoc(c, 13);
    ConcatSnoc(c, 14);
    ConcatSnoc(c, 15);
    ConcatSnoc(c, 16);
    ConcatSnoc(c, 17);
    ConcatSnoc(c, 18);
  }

  lemma {:induction false} ConcatThrough25(c: seq<seq<byte>>)
    requires |c| >= 25
    ensures Concat(c[..25]) == Concat(c[..19]) + c[19] + c[20] + c[21] + c[22] + c[23] + c[24]
  {
    ConcatSnoc(c, 19);
    ConcatSnoc(c, 20);
    ConcatSnoc(c, 21);
    ConcatSnoc(c, 22);
    ConcatSnoc(c, 23);
    ConcatSnoc(c, 24);
  }

  lemma {:induction false} ConcatThrough31(c: seq<seq<byte>>)
    requires |c| >= 31
    ensures Concat(c[..31]) == Concat(c[..25]) + c[25] + c[26] + c[27] + c[28] + c[29] + c[30]
  {
    ConcatSnoc(c, 25);
    ConcatSnoc(c, 26);
    ConcatSnoc(c, 27);
    ConcatSnoc(c, 28);
    ConcatSnoc(c, 29);
    ConcatSnoc(c, 30);
  }

  lemma {:induction false} ConcatThrough37(c: seq<seq<byte>>)
    requires |c| >= 37
    ensures Concat(c[..37]) == Concat(c[..31]) + c[31] + c[32] + c[33] + c[34] + c[35] + c[36]
  {
    ConcatSnoc(c, 31);
    ConcatSnoc(c, 32);
    ConcatSnoc(c, 33);
    ConcatSnoc(c, 34);
    ConcatSnoc(c, 35);
    ConcatSnoc(c, 36);
  }

  /** Writing 37 chunks is writing them one after another. */
  lemma ConcatAll(c: seq<seq<byte>>)
    requires |c| == FieldCount
    ensures Concat(c) ==
      c[0] + c[1] + c[2] + c[3] + c[4] + c[5] + c[6] + c[7] + c[8] + c[9] + c[10] + c[11] + c[12] +
      c[13] + c[14] + c[15] + c[16] + c[17] + c[18] + c[19] + c[20] + c[21] + c[22] + c[23] +
      c[24] + c[25] + c[26] + c[27] + c[28] + c[29] + c[30] + c[31] + c[32] + c[33] + c[34] +
      c[35] + c[36]
  {
    ConcatThrough7(c);
    ConcatThrough13(c);
    ConcatThrough19(c);
    ConcatThrough25(c);
    ConcatThrough31(c);
    ConcatThrough37(c);
    assert c[..FieldCount] == c;
  }

  /** `Encode` writes the field images in declaration order. */
  lemma EncodeIsConcat(r: Record)
    ensures Encode(r) == Concat(Images(r))
  {
    ConcatAll(Images(r));
  }

  /** The encoding is 152 bytes and field `i` sits at its offset. */
  lemma FieldAt(r: Record, i: nat)
    requires i < FieldCount
    ensures |Encode(r)| == RecordSize
    ensures Slice(Encode(r), i) == FieldBytes(r, i)
  {
    EncodeIsConcat(r);
    ConcatAt(Images(r), i);
  }

  /** Two records with the same bytes in every field are the same record. */
  lemma FieldsDetermine(r: Record, q: Record)
    requires forall i | 0 <= i < FieldCount :: FieldBytes(r, i) == FieldBytes(q, i)
    ensures r == q
  {
    assert FieldBytes(r, 0) == FieldBytes(q, 0);
    assert FieldBytes(r, 1) == FieldBytes(q, 1);
    assert FieldBytes(r, 2) == FieldBytes(q, 2);
    assert FieldBytes(r, 3) == FieldBytes(q, 3);
    assert FieldBytes(r, 4) == FieldBytes(q, 4);
    assert FieldBytes(r, 5) == FieldBytes(q, 5);
    assert FieldBytes(r, 6) == FieldBytes(q, 6);
    assert FieldBytes(r, 7) == FieldBytes(q, 7);
    assert FieldBytes(r, 8) == FieldBytes(q, 8);
    assert FieldBytes(r, 9) == FieldBytes(q, 9);
    assert FieldBytes(r, 10) == FieldBytes(q, 10);
    assert FieldBytes(r, 11) == FieldBytes(q, 11);
    assert FieldBytes(r, 12) == FieldBytes(q, 12);
    assert FieldBytes(r, 13) == FieldBytes(q, 13);
    assert FieldBytes(r, 14) == FieldBytes(q, 14);
    assert FieldBytes(r, 15) == FieldBytes(q, 15);
    assert FieldBytes(r, 16) == FieldBytes(q, 16);
    assert FieldBytes(r, 17) == FieldBytes(q, 17);
    assert FieldBytes(r, 18) == FieldBytes(q, 18);
    assert FieldBytes(r, 19) == FieldBytes(q, 19);
    assert FieldBytes(r, 20) == FieldBytes(q, 20);
    assert FieldBytes(r, 21) == FieldBytes(q, 21);
    assert FieldBytes(r, 22) == FieldBytes(q, 22);
    assert FieldBytes(r, 23) == FieldBytes(q, 23);
    assert FieldBytes(r, 24) == FieldBytes(q, 24);
    assert FieldBytes(r, 25) == FieldBytes(q, 25);
    assert FieldBytes(r, 26) == FieldBytes(q, 26);
    assert FieldBytes(r, 27) == FieldBytes(q, 27);
    assert FieldBytes(r, 28) == FieldBytes(q, 28);
    assert FieldBytes(r, 29) == FieldBytes(q, 29);
    assert FieldBytes(r, 30) == FieldBytes(q, 30);
    assert FieldBytes(r, 31) == FieldBytes(q, 31);
    assert FieldBytes(r, 32) == FieldBytes(q, 32);
    assert FieldBytes(r, 33) == FieldBytes(q, 33);
    assert FieldBytes(r, 34) == FieldBytes(q, 34);
    assert FieldBytes(r, 35) == FieldBytes(q, 35);
    assert FieldBytes(r, 36) == FieldBytes(q, 36);
  }

  /** Reading back the 152 bytes `Write` emitted gives the record that was
      written. */
  lemma DecodeEncode(r: Record)
    ensures |Encode(r)| == RecordSize
    ensures Decode(Encode(r)) == r
  {
    var b := Encode(r);
    FieldAt(r, 0);
    forall i | 0 <= i < FieldCount ensures FieldBytes(Decode(b), i) == FieldBytes(r, i) {
      FieldAt(r, i);
    }
    FieldsDetermine(Decode(b), r);
  }

  /** The 152 bytes are their 37 field slices, back to back. */
  lemma SlicesCover(b: seq<byte>)
    requires |b| == RecordSize
    ensures b == Slice(b, 0) + Slice(b, 1) + Slice(b, 2) + Slice(b, 3) + Slice(b, 4) + Slice(b, 5) + Slice(b, 6) +
      Slice(b, 7) + Slice(b, 8) + Slice(b, 9) + Slice(b, 10) + Slice(b, 11) + Slice(b, 12) +
      Slice(b, 13) + Slice(b, 14) + Slice(b, 15) + Slice(b, 16) + Slice(b, 17) + Slice(b, 18) +
      Slice(b, 19) + Slice(b, 20) + Slice(b, 21) + Slice(b, 22) + Slice(b, 23) + Slice(b, 24) +
      Slice(b, 25) + Slice(b, 26) + Slice(b, 27) + Slice(b, 28) + Slice(b, 29) + Slice(b, 30) +
      Slice(b, 31) + Slice(b, 32) + Slice(b, 33) + Slice(b, 34) + Slice(b, 35) + Slice(b, 36)
  {
    var chunks := seq(FieldCount, i requires 0 <= i < FieldCount => Slice(b, i));
    ConcatSlices(b, chunks, FieldCount);
    ConcatAll(chunks);
    assert chunks[..FieldCount] == chunks;
  }

  /** Writing a decoded record reproduces its 152 bytes. */
  lemma EncodeDecode(b: seq<byte>)
    requires |b| == RecordSize
    ensures Encode(Decode(b)) == b
  {
    SlicesCover(b);
    assert Slice(b, 0) == b[0..32];
    assert Slice(b, 1) == b[32..36];
    assert Slice(b, 2) == [b[36]];
    assert Slice(b, 3) == [b[37]];
    assert Slice(b, 4) == [b[38]];
    assert Slice(b, 5) == [b[39]];
    assert Slice(b, 6) == b[40..44];
    assert Slice(b, 7) == b[44..48];
    assert Slice(b, 8) == b[48..52];
    assert Slice(b, 9) == b[52..56];
    assert Slice(b, 10) == b[56..60];
    assert Slice(b, 11) == b[60..64];
    assert Slice(b, 12) == b[64..68];
    assert Slice(b, 13) == b[68..72];
    assert Slice(b, 14) == b[72..76];
    assert Slice(b, 15) == b[76..80];
    assert Slice(b, 16) == b[80..84];
    assert Slice(b, 17) == b[84..88];
    assert Slice(b, 18) == b[88..92];
    assert Slice(b, 19) == b[92..96];
    assert Slice(b, 20) == b[96..100];
    assert Slice(b, 21) == b[100..104];
    assert Slice(b, 22) == b[104..108];
    assert Slice(b, 23) == b[108..112];
    assert Slice(b, 24) == b[112..116];
    assert Slice(b, 25) == b[116..120];
    assert Slice(b, 26) == b[120..124];
    assert Slice(b, 27) == b[124..128];
    assert Slice(b, 28) == b[128..130];
    assert Slice(b, 29) == b[130..132];
    assert Slice(b, 30) == b[132..134];
    assert Slice(b, 31) == b[134..136];
    assert Slice(b, 32) == b[136..138];
    assert Slice(b, 33) == b[138..140];
    assert Slice(b, 34) == b[140..144];
    assert Slice(b, 35) == b[144..148];
    assert Slice(b, 36) == b[148..152];
  }

  /** Swapping twice gives back the record. */
  lemma SwapInvolution(r: Record)
    ensures Swap(Swap(r)) == r
  {
    ReverseReverse(r.displayFlag);
    ReverseReverse(r.shades);
    ReverseReverse(r.startRed);
    ReverseReverse(r.startGreen);
    ReverseReverse(r.startBlue);
    ReverseReverse(r.endRed);
    ReverseReverse(r.endGreen);
    ReverseReverse(r.endBlue);
    ReverseReverse(r.xRotation);
    ReverseReverse(r.yRotation);
    ReverseReverse(r.zRotation);
    ReverseReverse(r.xTranslation);
    ReverseReverse(r.yTranslation);
    ReverseReverse(r.zTranslation);
    ReverseReverse(r.xCenter);
    ReverseReverse(r.yCenter);
    ReverseReverse(r.zCenter);
    ReverseReverse(r.xRotationIncrement);
    ReverseReverse(r.yRotationIncrement);
    ReverseReverse(r.zRotationIncrement);
    ReverseReverse(r.xTranslationIncrement);
    ReverseReverse(r.yTranslationIncrement);
    ReverseReverse(r.zTranslationIncrement);
    ReverseReverse(r.minimumXValue);
    ReverseReverse(r.minimumYValue);
    ReverseReverse(r.minimumZValue);
    ReverseReverse(r.maximumXValue);
    ReverseReverse(r.maximumYValue);
    ReverseReverse(r.maximumZValue);
    ReverseReverse(r.opacity);
    ReverseReverse(r.opacityThickness);
    ReverseReverse(r.blendFactor);
  }

  /** A record swapped in place and then written, read back with a swap,
      gives the original record. */
  lemma CrossEndian(r: Record)
    ensures |Encode(Swap(r))| == RecordSize
    ensures ReadRecord(Encode(Swap(r)), true) == r
  {
    DecodeEncode(Swap(r));
    SwapInvolution(r);
  }

  /** A swapped read takes big-endian numbers: the `int` (or `short int`)
      a multi-byte field holds after it is `ByteSwapper`'s swap of the value
      its bytes denote on the host. */
  lemma BigEndianValues(b: seq<byte>)
    requires |b| == RecordSize
    ensures forall i | 0 <= i < FieldCount && MultiByte(i) && !IsShort(i) ::
              Load32(FieldBytes(ReadRecord(b, true), i)) == Swap32(Load32(Slice(b, i)))
    ensures forall i | 0 <= i < FieldCount && IsShort(i) ::
              Load16(FieldBytes(ReadRecord(b, true), i)) == Swap16(Load16(Slice(b, i)))
  {
    forall i | 0 <= i < FieldCount && MultiByte(i) && !IsShort(i)
      ensures Load32(FieldBytes(ReadRecord(b, true), i)) == Swap32(Load32(Slice(b, i)))
    {
      Swap32AfterLoad(Slice(b, i));
    }
    forall i | 0 <= i < FieldCount && IsShort(i)
      ensures Load16(FieldBytes(ReadRecord(b, true), i)) == Swap16(Load16(Slice(b, i)))
    {
      Swap16AfterLoad(Slice(b, i));
    }
  }
}
