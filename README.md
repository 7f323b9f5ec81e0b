# ANALYZE object entry

A Dafny model of `itk::AnalyzeObjectEntry` from ITK's ANALYZE object-map reader. One entry
describes one labelled object of an object map. It has a 32-byte name (in a 33-byte buffer) and
36 more members: a display flag, four one-byte flags, shades, a colour ramp, rotation, translation,
centre and their increments, a bounding box of six `short int`s, opacity, opacity thickness and a
blend factor.

The entry reads itself from a file stream with optional byte swapping, writes itself back
unswapped, swaps its own byte order in place, copies every member but the name from another entry,
and sets its name through `strncpy`/`strcmp`.

Modules:

- `ByteOrder`: the host's memory images of `short int` and `int`. The host is fixed to be
  little-endian and two's complement. The module also gives the byte swap of
  `itk::ByteSwapper` (a reversal of the bytes of a 2- or 4-byte value) and the conversion of an
  `int` into a `short int`.
- `CStrings`: NUL-terminated strings, `strncpy` (a method over an `array`) and `strcmp`.
- `Streams`: the input file stream (bytes, read position and fail state) and the output file stream.
- `EntryRecord`: the 152-byte record of an entry, its field layout, `Encode` (the bytes `Write`
  emits), `Decode`, `Swap` and `ReadRecord` (what a read leaves with or without byte swapping).
  It also holds the round trips between them.
- `ObjectEntry`: the class `AnalyzeObjectEntry`.
  - Its name is a 33-byte `array`.
  - Its other members are a `Members` value, each member held as the bytes it occupies in memory.
  - `mTime` is ITK's modification time, which `SetName` advances.
  - `Value()` is the entry seen as a record.

Reading, writing and swapping move member bytes as they are. The bounding-box accessors go
through `Load16`/`Store16`. The two `float` members are never interpreted.

Points where the model follows the code rather than the header's comments or documentation:

- The record is 152 bytes: 32 + 4 + 4×1 + 22×4 + 6×2 + 3×4, with offsets the running sums of the
  declared widths (`EntryRecord.Layout`). The inline byte-range comments on the member declarations
  in `include/itkAnalyzeObjectEntry.h` are wrong from `m_EndRed` on (53-58 overlaps the start blue
  value) and end at 149.
- The constructor zeroes only the name buffer. No other member gets a default value. The
  constructor's doc comment says "initializes to 0 or NULL".
- `ReadFromFilePointer` always reads the blend factor, whatever its third argument says.

`ReadFromFilePointer` reads its members in seven runs of consecutive members, one method per
run, called in order. The source reads them in one body. The split keeps each proof small and
changes neither the order of reads nor where reading stops.

## Model

| member | source | states |
|---|---|---|
| ByteOrder.Store16 | include/itkAnalyzeObjectEntry.h:602-607 | the memory image of a `short int`: 2 bytes, least significant first; `Load16` and `Load16Store16` make it a bijection |
| ByteOrder.Load16 | include/itkAnalyzeObjectEntry.h:602-607 | the `short int` whose memory image is the given 2 bytes: storing it gives the same bytes back |
| ByteOrder.Load16Store16 | include/itkAnalyzeObjectEntry.h:602-607 | reading a stored `short int` back gives the same value |
| ByteOrder.Store16Injective | include/itkAnalyzeObjectEntry.h:602-607 | two `short int`s have the same memory image exactly when they are equal |
| ByteOrder.Store32 | include/itkAnalyzeObjectEntry.h:575-609 | the memory image of an `int` (or a `float`'s bits): 4 bytes, least significant first; `Load32` and `Load32Store32` make it a bijection |
| ByteOrder.Load32 | include/itkAnalyzeObjectEntry.h:575-609 | the `int` whose memory image is the given 4 bytes: storing it gives the same bytes back |
| ByteOrder.Load32Store32 | include/itkAnalyzeObjectEntry.h:575-609 | reading a stored `int` back gives the same value |
| ByteOrder.Store32Injective | include/itkAnalyzeObjectEntry.h:575-609 | two `int`s have the same memory image exactly when they are equal |
| ByteOrder.UnsignedLittleEndian | include/itkAnalyzeObjectEntry.h:575-609 | the little-endian digits of a number below 256^n read back as that number |
| ByteOrder.LittleEndianUnsigned | include/itkAnalyzeObjectEntry.h:575-609 | any byte string is the little-endian image of the number it denotes |
| ByteOrder.Reverse | src/itkAnalyzeObjectEntry.cxx:130-133 | the byte swap: same length, byte i of the result is byte n-1-i of the input |
| ByteOrder.ReverseReverse | src/itkAnalyzeObjectEntry.cxx:188-222 | swapping a value's bytes twice restores them |
| ByteOrder.Swap16 | src/itkAnalyzeObjectEntry.cxx:213-218 | `ByteSwapper<short int>`: the swapped value's memory image is the original image reversed |
| ByteOrder.Swap32 | src/itkAnalyzeObjectEntry.cxx:190-221 | `ByteSwapper<int>`, and `ByteSwapper<float>` on a float's bits: the swapped value's memory image is the original image reversed |
| ByteOrder.Swap16Involution | src/itkAnalyzeObjectEntry.cxx:188-222 | swapping a `short int` twice gives it back |
| ByteOrder.Swap32Involution | src/itkAnalyzeObjectEntry.cxx:188-222 | swapping an `int` twice gives it back |
| ByteOrder.Swap16AfterLoad | src/itkAnalyzeObjectEntry.cxx:130-133 | swapping the `short int` read from 2 bytes equals reading the reversed bytes |
| ByteOrder.Swap32AfterLoad | src/itkAnalyzeObjectEntry.cxx:130-133 | swapping the `int` read from 4 bytes equals reading the reversed bytes |
| ByteOrder.Wrap16 | include/itkAnalyzeObjectEntry.h:352-353 | an `int` stored into a `short int` keeps its value modulo 2^16 and lands in the `short int` range |
| ByteOrder.Wrap16Identity | include/itkAnalyzeObjectEntry.h:352-403 | the conversion leaves an `int` unchanged exactly when it lies in [-32768, 32767] |
| ByteOrder.Wrap16Congruent | include/itkAnalyzeObjectEntry.h:352-403 | two `int`s convert to the same `short int` exactly when they agree modulo 2^16 |
| CStrings.CString | include/itkAnalyzeObjectEntry.h:72-76 | the string in a buffer: a prefix of it with no NUL, followed by a NUL or the end of the buffer |
| CStrings.CStringUnique | include/itkAnalyzeObjectEntry.h:72-76 | any NUL-free prefix that is followed by a NUL or the end is that string |
| CStrings.CStringIdempotent | include/itkAnalyzeObjectEntry.h:72-76 | taking the string of a string changes nothing |
| CStrings.CStringTerminated | include/itkAnalyzeObjectEntry.h:72-76 | appending a NUL does not change the string a buffer holds |
| CStrings.Truncate | include/itkAnalyzeObjectEntry.h:81-84 | at most n bytes of the argument, up to its first NUL, with no NUL inside |
| CStrings.TruncateTerminated | include/itkAnalyzeObjectEntry.h:81-84 | truncating `c_str()` (the string plus its NUL) is truncating the string |
| CStrings.StrNCopied | include/itkAnalyzeObjectEntry.h:83-88 | the n bytes `strncpy` leaves: the truncated source first, then NUL bytes up to n |
| CStrings.StrNCopiedCString | include/itkAnalyzeObjectEntry.h:83-88 | the `strncpy` result followed by a NUL holds the truncated source as its string |
| CStrings.StrNCopy | include/itkAnalyzeObjectEntry.h:83-88 | `strncpy` fills the first n bytes with the source up to its NUL, then NUL padding, and touches nothing beyond |
| CStrings.PrecedesTrichotomy | include/itkAnalyzeObjectEntry.h:86 | exactly one of: x before y, x equal to y, y before x |
| CStrings.PrecedesTransitive | include/itkAnalyzeObjectEntry.h:86 | x before y and y before z gives x before z, so byte-wise string order is a strict total order |
| CStrings.PrecedesCommonPrefix | include/itkAnalyzeObjectEntry.h:86 | a common prefix does not change the order of two strings |
| CStrings.StrCmp | include/itkAnalyzeObjectEntry.h:86 | `strcmp` is zero exactly when the two strings are equal, and negative or positive exactly as one precedes the other |
| Streams.InputStream.Read | src/itkAnalyzeObjectEntry.cxx:126 | `read` takes the next n bytes and advances; a short read takes the rest and sets the fail state; a failed stream takes nothing |
| Streams.OutputStream.Write | src/itkAnalyzeObjectEntry.cxx:227-263 | `write` appends the bytes |
| EntryRecord.Width | include/itkAnalyzeObjectEntry.h:574-610 | the declared width of each field: 32 exactly for the name, 1 exactly for the four `unsigned char` flags, 2 exactly for the six `short int`s, 4 exactly for the other multi-byte fields |
| EntryRecord.Offset | include/itkAnalyzeObjectEntry.h:574-610 | where each field starts, never past the 152 bytes; `OffsetIsRunningSum` proves it is the running sum of the widths |
| EntryRecord.OffsetIsRunningSum | include/itkAnalyzeObjectEntry.h:574-610 | each field's offset is the sum of the widths of the fields declared before it |
| EntryRecord.Layout | include/itkAnalyzeObjectEntry.h:574-610 | the record is 152 bytes; end red starts at byte 56 and the blend factor at byte 148 |
| EntryRecord.OffsetBounds | include/itkAnalyzeObjectEntry.h:574-610 | fields are back to back and each ends within the 152 bytes |
| EntryRecord.Encode | src/itkAnalyzeObjectEntry.cxx:227-263 | the bytes `Write` emits; it has no contract of its own, and `FieldAt`, `DecodeEncode` and `EncodeDecode` state what it is |
| EntryRecord.FieldAt | src/itkAnalyzeObjectEntry.cxx:225-264 | the written record is 152 bytes and field i sits at its offset with its width |
| EntryRecord.FieldsDetermine | include/itkAnalyzeObjectEntry.h:574-610 | two records with the same bytes in every field are equal |
| EntryRecord.Decode | src/itkAnalyzeObjectEntry.cxx:141-183 | the record 152 bytes are read into: every field is the slice of the bytes at its offset with its width |
| EntryRecord.ReadRecord | src/itkAnalyzeObjectEntry.cxx:130-183 | what a read stores: every field is its slice, reversed exactly when swapping and the field is multi-byte, so the name and the flags are taken verbatim |
| EntryRecord.Swap | src/itkAnalyzeObjectEntry.cxx:190-221 | `SwapObjectEndedness` on a record: exactly the 32 multi-byte fields are reversed, the name and the four flags stay |
| EntryRecord.BigEndianValues | src/itkAnalyzeObjectEntry.cxx:130-133 | after a swapped read each `int` and `short int` field holds the byte swap of the value its file bytes denote on the host, i.e. the file's big-endian value |
| EntryRecord.DecodeEncode | src/itkAnalyzeObjectEntry.cxx:225-264 | reading the 152 bytes `Write` emits, without swapping, gives back every field |
| EntryRecord.EncodeDecode | src/itkAnalyzeObjectEntry.cxx:137-185 | writing what 152 bytes were read into, without swapping, gives back those bytes |
| EntryRecord.SwapInvolution | src/itkAnalyzeObjectEntry.cxx:188-222 | swapping a record twice gives it back |
| EntryRecord.CrossEndian | src/itkAnalyzeObjectEntry.cxx:130-264 | swapping, writing and reading back with swapping gives the original record |
| ObjectEntry.SwapValue | src/itkAnalyzeObjectEntry.cxx:130-133 | the swap reverses the bytes of the first value of `size` bytes and leaves the rest of the buffer alone; a 1-byte value is left as it is, and a value filling the buffer is reversed whole |
| ObjectEntry.Overlay | src/itkAnalyzeObjectEntry.cxx:126 | after a short read the destination holds the bytes taken, then what it held beyond them |
| ObjectEntry.Oriented | src/itkAnalyzeObjectEntry.cxx:130-133 | a multi-byte value as read: byte i is byte n-1-i of the file bytes when swapping, byte i otherwise |
| ObjectEntry.ReadBytes | src/itkAnalyzeObjectEntry.cxx:119-134 | success exactly when enough bytes remain on a good stream; then the bytes, swapped when asked, and the position moves by the width; otherwise the partial bytes over the old ones |
| ObjectEntry.ReadUChar | src/itkAnalyzeObjectEntry.cxx:143-146 | a flag read takes one byte verbatim, swap or not; a failed read leaves the flag |
| ObjectEntry.ReadShort | src/itkAnalyzeObjectEntry.cxx:169-174 | a `short int` read takes 2 bytes, reversed when swapping |
| ObjectEntry.ReadInt | src/itkAnalyzeObjectEntry.cxx:142-183 | an `int` or `float` read takes 4 bytes, reversed when swapping |
| ObjectEntry.AnalyzeObjectEntry.constructor | src/itkAnalyzeObjectEntry.cxx:25-29 | all 33 name bytes are zero, so the name is empty |
| ObjectEntry.AnalyzeObjectEntry.GetName | include/itkAnalyzeObjectEntry.h:72-76 | the name is the buffer's bytes before its first NUL, at most 32 of them |
| ObjectEntry.AnalyzeObjectEntry.SetName | include/itkAnalyzeObjectEntry.h:79-91 | the name becomes the argument truncated to 31 bytes. If it was that already, nothing changes, not even the modification time. Otherwise bytes 0-31 are the new name then NUL padding, and the time advances. Byte 32 stays NUL |
| ObjectEntry.AnalyzeObjectEntry.GetMinimumXValue | include/itkAnalyzeObjectEntry.h:352 | the `short int` whose image is the stored member |
| ObjectEntry.AnalyzeObjectEntry.SetMinimumXValue | include/itkAnalyzeObjectEntry.h:353 | the `int` argument is stored as a `short int`; the getter returns it cut to 16 bits; nothing else changes |
| ObjectEntry.AnalyzeObjectEntry.GetMinimumYValue | include/itkAnalyzeObjectEntry.h:362 | as for the minimum x value |
| ObjectEntry.AnalyzeObjectEntry.SetMinimumYValue | include/itkAnalyzeObjectEntry.h:363 | as for the minimum x value |
| ObjectEntry.AnalyzeObjectEntry.GetMinimumZValue | include/itkAnalyzeObjectEntry.h:372 | as for the minimum x value |
| ObjectEntry.AnalyzeObjectEntry.SetMinimumZValue | include/itkAnalyzeObjectEntry.h:373 | as for the minimum x value |
| ObjectEntry.AnalyzeObjectEntry.GetMaximumXValue | include/itkAnalyzeObjectEntry.h:382 | as for the minimum x value |
| ObjectEntry.AnalyzeObjectEntry.SetMaximumXValue | include/itkAnalyzeObjectEntry.h:383 | as for the minimum x value |
| ObjectEntry.AnalyzeObjectEntry.GetMaximumYValue | include/itkAnalyzeObjectEntry.h:392 | as for the minimum x value |
| ObjectEntry.AnalyzeObjectEntry.SetMaximumYValue | include/itkAnalyzeObjectEntry.h:393 | as for the minimum x value |
| ObjectEntry.AnalyzeObjectEntry.GetMaximumZValue | include/itkAnalyzeObjectEntry.h:402 | as for the minimum x value |
| ObjectEntry.AnalyzeObjectEntry.SetMaximumZValue | include/itkAnalyzeObjectEntry.h:403 | as for the minimum x value |
| ObjectEntry.AnalyzeObjectEntry.Copy | src/itkAnalyzeObjectEntry.cxx:36-74 | every member but the name becomes the other entry's, bounding box included. The name stays this entry's own. A second copy therefore changes nothing |
| ObjectEntry.AnalyzeObjectEntry.ReadDisplayMembers | src/itkAnalyzeObjectEntry.cxx:142-147 | display flag, four flags and shades read in order; success exactly when 12 bytes remain |
| ObjectEntry.AnalyzeObjectEntry.ReadColourMembers | src/itkAnalyzeObjectEntry.cxx:148-153 | the six colour values read in order, each reversed when swapping |
| ObjectEntry.AnalyzeObjectEntry.ReadPlacementMembers | src/itkAnalyzeObjectEntry.cxx:154-159 | rotation and translation read in order |
| ObjectEntry.AnalyzeObjectEntry.ReadCentreMembers | src/itkAnalyzeObjectEntry.cxx:160-162 | the centre read in order |
| ObjectEntry.AnalyzeObjectEntry.ReadIncrementMembers | src/itkAnalyzeObjectEntry.cxx:163-168 | the increments read in order |
| ObjectEntry.AnalyzeObjectEntry.ReadBoundsMembers | src/itkAnalyzeObjectEntry.cxx:169-174 | the six bounding-box `short int`s read in order |
| ObjectEntry.AnalyzeObjectEntry.ReadBlendMembers | src/itkAnalyzeObjectEntry.cxx:175-184 | opacity, opacity thickness and the blend factor read in order, the blend factor always |
| ObjectEntry.AnalyzeObjectEntry.ReadFromFilePointer | src/itkAnalyzeObjectEntry.cxx:137-185 | success exactly when 152 bytes remain on a good stream. Then exactly 152 bytes are consumed, and the entry is the record they decode to, swapped when asked. Otherwise the stream is failed. Byte 32 of the name stays NUL |
| ObjectEntry.ReadMembers | src/itkAnalyzeObjectEntry.cxx:141-183 | the members a successful read from position p leaves, field by field; with the 32 name bytes they are the record the 152 bytes at p decode to, swapped when asked |
| ObjectEntry.AnalyzeObjectEntry.SwapObjectEndedness | src/itkAnalyzeObjectEntry.cxx:188-222 | the entry becomes its record with every multi-byte field reversed; name and flags stay. With `EntryRecord.SwapInvolution`, swapping twice restores the entry |
| ObjectEntry.AnalyzeObjectEntry.Write | src/itkAnalyzeObjectEntry.cxx:225-264 | appends exactly the 152-byte encoding of the entry, unswapped. With `EntryRecord.DecodeEncode` and `EntryRecord.CrossEndian`, reading it back restores every field |

## Left out

- Everything except the entry itself is not part of this model. That means the object-map container
  (`AnalyzeObjectMap`), the label-map image IO class and its factory, and the test driver. Their
  behaviour is file orchestration or lives in code that is not part of this model.
- `Print` and `PrintSelf`: debugging text output.
- ITK's debug macros, and `Modified()` apart from the `mTime` counter that `SetName` advances.
  `itkSetMacro`'s compare-then-assign and its `Modified()` call are not modelled. The other members'
  getters and setters are plain field reads and writes, so they have no methods of their own.
  `Copy` writes the other members directly and the bounding box through its getters and setters.
- ObjectEntry.AnalyzeObjectEntry.SetMinimumXValue: does not advance `mTime`; the source's setter calls `Modified()` when the value changes.
- ObjectEntry.AnalyzeObjectEntry.SetMinimumYValue: does not advance `mTime`; the source's setter calls `Modified()` when the value changes.
- ObjectEntry.AnalyzeObjectEntry.SetMinimumZValue: does not advance `mTime`; the source's setter calls `Modified()` when the value changes.
- ObjectEntry.AnalyzeObjectEntry.SetMaximumXValue: does not advance `mTime`; the source's setter calls `Modified()` when the value changes.
- ObjectEntry.AnalyzeObjectEntry.SetMaximumYValue: does not advance `mTime`; the source's setter calls `Modified()` when the value changes.
- ObjectEntry.AnalyzeObjectEntry.SetMaximumZValue: does not advance `mTime`; the source's setter calls `Modified()` when the value changes.
- ObjectEntry.AnalyzeObjectEntry.Copy: does not advance `mTime`; in the source each of its 36 setters calls `Modified()` when its value changes.
- ObjectEntry.AnalyzeObjectEntry.Copy: copies opacity and blend factor as bit patterns. The source's
  `float` setters first compare as floats, so copying -0.0 onto +0.0 (or the reverse) keeps the old
  bits there. That difference is not captured.
- Floating-point semantics: `Opacity` and `BlendFactor` are 4-byte patterns. The ranges in their doc
  comments are not checked by the code and are not modelled.
- The host is fixed to be little-endian. `itk::ByteSwapper`'s detection of the host order is not
  modelled, and swapping is the byte reversal it performs on such a host.
- ObjectEntry.AnalyzeObjectEntry.ReadFromFilePointer: on failure, the contract states only that
  the stream failed. It does not say which members hold partial bytes. The source throws there,
  and the model returns `false` instead. `ReadBytes` and the per-member reads do state the
  partial contents.
- The constructor leaves the 36 other members indeterminate. The model says nothing about them.
- Failures of the output stream: `write` always appends.
- The `#if 0` blocks of the header (grouped colour, rotation and coordinate members).
