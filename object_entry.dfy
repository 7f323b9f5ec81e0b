/** `itk::AnalyzeObjectEntry`: one labelled object of an ANALYZE object map.
    The entry keeps its name in a 33-byte character buffer and 36 more
    members; it reads and writes itself as the 152-byte record of
    `EntryRecord`, swaps its byte order in place, copies another entry's
    members and sets its name with C string routines.

    Each member is held as the bytes it occupies in memory: reading, writing
    and swapping move those bytes as they are, and the bounding-box
    accessors convert between them and a `short int` with `Load16` and
    `Store16`. */
module ObjectEntry {
  import opened ByteOrder
  import opened CStrings
  import opened Streams
  import opened EntryRecord

  /** `SwapFromSystemToBigEndian` on a value of `size` bytes at the start of
      `b`: its bytes reversed, the rest left alone. A 1-byte value is left as
      it is. */
  function SwapValue(b: seq<byte>, size: nat): (r: seq<byte>)
    requires size <= |b|
    ensures |r| == |b|
    ensures size <= 1 ==> r == b
    ensures size == |b| ==> r == Reverse(b)
    ensures 1 < size ==> r[..size] == Reverse(b[..size]) && r[size..] == b[size..]
  {
    if size <= 1 then b else Reverse(b[..size]) + b[size..]
  }

  /** The bytes a read leaves in the destination: the bytes taken, then
      what the destination held beyond them. */
  function Overlay(taken: seq<byte>, dest: seq<byte>): (r: seq<byte>)
    requires |taken| <= |dest|
    ensures |r| == |dest| && r[..|taken|] == taken && r[|taken|..] == dest[|taken|..]
  {
    taken + dest[|taken|..]
  }

  /** A multi-byte value as read: its bytes reversed when the file has the
      other byte order. With `swap` set this is `SwapValue(b, |b|)`, the
      swap of a value that fills its buffer. */
  function Oriented(b: seq<byte>, swap: bool): (r: seq<byte>)
    ensures |r| == |b|
    ensures forall i :: 0 <= i < |b| ==> r[i] == b[if swap then |b| - 1 - i else i]
  {
    if swap then Reverse(b) else b
  }

  /** `ReadBytes<T>`: read `|dest|` bytes over the destination `dest`, whose
      values are `size` bytes wide. On a short read the bytes obtained are
      stored and the read fails; otherwise the first value is swapped in
      place when `swap` is set. Success is what `.fail()` reports
      afterwards; on failure the source throws, here the caller stops. */
  method ReadBytes(s: InputStream, dest: seq<byte>, size: nat, swap: bool)
      returns (image: seq<byte>, ok: bool)
    requires s.Valid() && size <= |dest|
    modifies s
    ensures s.Valid() && old(s.pos) <= s.pos <= old(s.pos) + |dest| && ok == !s.failed
    ensures ok <==> !old(s.failed) && old(s.pos) + |dest| <= |s.data|
    ensures ok ==> s.pos == old(s.pos) + |dest|
    ensures ok ==> image == (if swap then SwapValue(s.data[old(s.pos)..s.pos], size) else s.data[old(s.pos)..s.pos])
    ensures !ok ==> s.pos == (if old(s.failed) then old(s.pos) else |s.data|)
    ensures !ok ==> image == Overlay(s.data[old(s.pos)..s.pos], dest)
  {
    var chunk := s.Read(|dest|);
    ok := !s.failed;
    if !ok {
      image := chunk + dest[|chunk|..];
      return;
    }
    image := chunk;
    if swap {
      image := SwapValue(image, size);
    }
  }

  /** `ReadBytes<unsigned char>` of one flag: swapping a single byte changes
      nothing, and a failed read of one byte takes nothing. */
  method ReadUChar(s: InputStream, current: byte, swap: bool) returns (f: byte, ok: bool)
    requires s.Valid()
    modifies s
    ensures s.Valid() && old(s.pos) <= s.pos <= old(s.pos) + 1 && ok == !s.failed
    ensures ok <==> !old(s.failed) && old(s.pos) + 1 <= |s.data|
    ensures ok ==> s.pos == old(s.pos) + 1 && f == s.data[old(s.pos)]
    ensures !ok ==> f == current
  {
    var image;
    image, ok := ReadBytes(s, [current], 1, swap);
    f := image[0];
  }

  /** `ReadBytes<short int>` of one value. On a short read the value holds
      the bytes obtained over its old bytes. */
  method ReadShort(s: InputStream, current: Half, swap: bool) returns (v: Half, ok: bool)
    requires s.Valid()
    modifies s
    ensures s.Valid() && old(s.pos) <= s.pos <= old(s.pos) + 2 && ok == !s.failed
    ensures ok <==> !old(s.failed) && old(s.pos) + 2 <= |s.data|
    ensures ok ==> s.pos == old(s.pos) + 2 && v == Oriented(s.data[old(s.pos)..old(s.pos) + 2], swap)
    ensures !ok ==> v == Overlay(s.data[old(s.pos)..s.pos], current)
  {
    var image;
    image, ok := ReadBytes(s, current, 2, swap);
    v := image;
  }

  /** `ReadBytes<int>` of one value, and `ReadBytes<float>` of one `float`. On a short read the value holds
      the bytes obtained over its old bytes. */
  method ReadInt(s: InputStream, current: Word, swap: bool) returns (v: Word, ok: bool)
    requires s.Valid()
    modifies s
    ensures s.Valid() && old(s.pos) <= s.pos <= old(s.pos) + 4 && ok == !s.failed
    ensures ok <==> !old(s.failed) && old(s.pos) + 4 <= |s.data|
    ensures ok ==> s.pos == old(s.pos) + 4 && v == Oriented(s.data[old(s.pos)..old(s.pos) + 4], swap)
    ensures !ok ==> v == Overlay(s.data[old(s.pos)..s.pos], current)
  {
    var image;
    image, ok := ReadBytes(s, current, 4, swap);
    v := image;
  }

  /** The 36 members of an entry after its name, each as its memory bytes:
      an `int` or a `float` as a `Word`, an `unsigned char` as a `byte`, a
      `short int` as a `Half`. */
  datatype Members = Members(
    displayFlag: Word, copyFlag: byte, mirrorFlag: byte, statusFlag: byte, neighborsUsedFlag: byte,
    shades: Word, startRed: Word, startGreen: Word, startBlue: Word, endRed: Word, endGreen: Word,
    endBlue: Word, xRotation: Word, yRotation: Word, zRotation: Word, xTranslation: Word,
    yTranslation: Word, zTranslation: Word, xCenter: Word, yCenter: Word, zCenter: Word,
    xRotationIncrement: Word, yRotationIncrement: Word, zRotationIncrement: Word,
    xTranslationIncrement: Word, yTranslationIncrement: Word, zTranslationIncrement: Word,
    minimumXValue: Half, minimumYValue: Half, minimumZValue: Half, maximumXValue: Half,
    maximumYValue: Half, maximumZValue: Half, opacity: Word, opacityThickness: Word,
    blendFactor: Word)

  /** The 152-byte record of an entry with name bytes `name` and members
      `m`. */
  function Image(name: NameBytes, m: Members): Record
  {
    Record(
      name, m.displayFlag, m.copyFlag, m.mirrorFlag, m.statusFlag, m.neighborsUsedFlag, m.shades,
      m.startRed, m.startGreen, m.startBlue, m.endRed, m.endGreen, m.endBlue, m.xRotation,
      m.yRotation, m.zRotation, m.xTranslation, m.yTranslation, m.zTranslation, m.xCenter,
      m.yCenter, m.zCenter, m.xRotationIncrement, m.yRotationIncrement, m.zRotationIncrement,
      m.xTranslationIncrement, m.yTranslationIncrement, m.zTranslationIncrement, m.minimumXValue,
      m.minimumYValue, m.minimumZValue, m.maximumXValue, m.maximumYValue, m.maximumZValue,
      m.opacity, m.opacityThickness, m.blendFactor)
  }

  class AnalyzeObjectEntry {
    /** `m_Name`: 32 name bytes and one more that stays NUL. */
    const name: array<byte>
    /** `m_DisplayFlag` through `m_BlendFactor`. */
    var members: Members
    /** ITK's modification time, advanced by `Modified()`. */
    var mTime: nat

    ghost predicate Valid()
      reads name
    {
      name.Length == 33 && name[32] == 0
    }

    /** The entry's 152-byte record. */
    function Value(): Record
      reads this, name
      requires Valid()
    {
      Image(name[..32], members)
    }

    /** The constructor: a zeroed name buffer. The other members are left
        as they come. */
    constructor()
      ensures Valid() && fresh(name)
      ensures name[..] == Zeros(33)
      ensures GetName() == []
    {
      name := new byte[33](_ => 0);
      new;
      assert name[..] == Zeros(33);
    }

    /** `GetName`: the bytes of the name buffer up to its first NUL, never
        more than 32 since the last byte stays NUL. */
    function GetName(): (r: seq<byte>)
      reads this, name
      requires Valid()
      ensures |r| <= 32 && r == name[..|r|] && name[|r|] == 0
      ensures forall i :: 0 <= i < |r| ==> r[i] != 0
    {
      CString(name[..])
    }

    /** `SetName`: copy at most 31 bytes of the argument, up to its first
        NUL, into a NUL-terminated temporary; when that differs from the
        current name, copy it into the name buffer with NUL padding to 32
        bytes and call `Modified()`. Byte 32 is never written. */
    method SetName(arg: seq<byte>)
      requires Valid()
      modifies name, this`mTime
      ensures Valid()
      ensures GetName() == Truncate(arg, 31)
      ensures old(GetName()) == Truncate(arg, 31) ==> name[..] == old(name[..]) && mTime == old(mTime)
      ensures old(GetName()) != Truncate(arg, 31) ==>
                name[..32] == Truncate(arg, 31) + Zeros(32 - |Truncate(arg, 31)|) && mTime == old(mTime) + 1
    {
      var temp := new byte[32];
      StrNCopy(temp, arg + [0], 31);
      temp[31] := 0;
      ghost var t := Truncate(arg, 31);
      assert temp[..] == StrNCopied(arg + [0], 31) + [0];
      StrNCopiedCString(arg + [0], 31);
      TruncateTerminated(arg, 31);
      assert CString(temp[..]) == t;
      var c := StrCmp(name, temp);
      if c != 0 {
        StrNCopy(name, temp[..], 32);
        mTime := mTime + 1;
        assert Truncate(temp[..], 32) == t;
        assert name[..] == StrNCopied(temp[..], 32) + [0];
        StrNCopiedCString(temp[..], 32);
      }
    }

    /** `GetMinimumXValue`: the stored `short int`. */
    function GetMinimumXValue(): (r: int16)
      reads this
      ensures Store16(r) == members.minimumXValue
    {
      Load16(members.minimumXValue)
    }

    /** `SetMinimumXValue`: takes an `int` and stores it into the `short int`
        member, which keeps its low 16 bits; the getter then returns that
        `short int`. */
    method SetMinimumXValue(v: int32)
      modifies this`members
      ensures members == old(members).(minimumXValue := Store16(Wrap16(v)))
      ensures GetMinimumXValue() == Wrap16(v)
    {
      members := members.(minimumXValue := Store16(Wrap16(v)));
      Load16Store16(Wrap16(v));
    }

    /** `GetMinimumYValue`: the stored `short int`. */
    function GetMinimumYValue(): (r: int16)
      reads this
      ensures Store16(r) == members.minimumYValue
    {
      Load16(members.minimumYValue)
    }

    /** `SetMinimumYValue`: takes an `int` and stores it into the `short int`
        member, which keeps its low 16 bits; the getter then returns that
        `short int`. */
    method SetMinimumYValue(v: int32)
      modifies this`members
      ensures members == old(members).(minimumYValue := Store16(Wrap16(v)))
      ensures GetMinimumYValue() == Wrap16(v)
    {
      members := members.(minimumYValue := Store16(Wrap16(v)));
      Load16Store16(Wrap16(v));
    }

    /** `GetMinimumZValue`: the stored `short int`. */
    function GetMinimumZValue(): (r: int16)
      reads this
      ensures Store16(r) == members.minimumZValue
    {
      Load16(members.minimumZValue)
    }

    /** `SetMinimumZValue`: takes an `int` and stores it into the `short int`
        member, which keeps its low 16 bits; the getter then returns that
        `short int`. */
    method SetMinimumZValue(v: int32)
      modifies this`members
      ensures members == old(members).(minimumZValue := Store16(Wrap16(v)))
      ensures GetMinimumZValue() == Wrap16(v)
    {
      members := members.(minimumZValue := Store16(Wrap16(v)));
      Load16Store16(Wrap16(v));
    }

    /** `GetMaximumXValue`: the stored `short int`. */
    function GetMaximumXValue(): (r: int16)
      reads this
      ensures Store16(r) == members.maximumXValue
    {
      Load16(members.maximumXValue)
    }

    /** `SetMaximumXValue`: takes an `int` and stores it into the `short int`
        member, which keeps its low 16 bits; the getter then returns that
        `short int`. */
    method SetMaximumXValue(v: int32)
      modifies this`members
      ensures members == old(members).(maximumXValue := Store16(Wrap16(v)))
      ensures GetMaximumXValue() == Wrap16(v)
    {
      members := members.(maximumXValue := Store16(Wrap16(v)));
      Load16Store16(Wrap16(v));
    }

    /** `GetMaximumYValue`: the stored `short int`. */
    function GetMaximumYValue(): (r: int16)
      reads this
      ensures Store16(r) == members.maximumYValue
    {
      Load16(members.maximumYValue)
    }

    /** `SetMaximumYValue`: takes an `int` and stores it into the `short int`
        member, which keeps its low 16 bits; the getter then returns that
        `short int`. */
    method SetMaximumYValue(v: int32)
      modifies this`members
      ensures members == old(members).(maximumYValue := Store16(Wrap16(v)))
      ensures GetMaximumYValue() == Wrap16(v)
    {
      members := members.(maximumYValue := Store16(Wrap16(v)));
      Load16Store16(Wrap16(v));
    }

    /** `GetMaximumZValue`: the stored `short int`. */
    function GetMaximumZValue(): (r: int16)
      reads this
      ensures Store16(r) == members.maximumZValue
    {
      Load16(members.maximumZValue)
    }

    /** `SetMaximumZValue`: takes an `int` and stores it into the `short int`
        member, which keeps its low 16 bits; the getter then returns that
        `short int`. */
    method SetMaximumZValue(v: int32)
      modifies this`members
      ensures members == old(members).(maximumZValue := Store16(Wrap16(v)))
      ensures GetMaximumZValue() == Wrap16(v)
    {
      members := members.(maximumZValue := Store16(Wrap16(v)));
      Load16Store16(Wrap16(v));
    }

    /** `Copy`: take every member of `rhs` except the name, which stays
        this entry's own, in the order the source sets them. The bounding
        box goes through its getters and `int` setters, which give back the
        same `short int`. */
    method Copy(rhs: AnalyzeObjectEntry)
      requires Valid() && rhs.Valid()
      modifies this`members
      ensures Value() == old(rhs.Value()).(name := name[..32])
      ensures members == old(rhs.members)
    {
      members := members.(blendFactor := rhs.members.blendFactor);
      members := members.(copyFlag := rhs.members.copyFlag);
      members := members.(displayFlag := rhs.members.displayFlag);
      members := members.(endBlue := rhs.members.endBlue);
      members := members.(endGreen := rhs.members.endGreen);
      members := members.(endRed := rhs.members.endRed);
      Wrap16Identity(rhs.GetMaximumXValue());
      SetMaximumXValue(rhs.GetMaximumXValue());
      Wrap16Identity(rhs.GetMaximumYValue());
      SetMaximumYValue(rhs.GetMaximumYValue());
      Wrap16Identity(rhs.GetMaximumZValue());
      SetMaximumZValue(rhs.GetMaximumZValue());
      Wrap16Identity(rhs.GetMinimumXValue());
      SetMinimumXValue(rhs.GetMinimumXValue());
      Wrap16Identity(rhs.GetMinimumYValue());
      SetMinimumYValue(rhs.GetMinimumYValue());
      Wrap16Identity(rhs.GetMinimumZValue());
      SetMinimumZValue(rhs.GetMinimumZValue());
      members := members.(mirrorFlag := rhs.members.mirrorFlag);
      members := members.(neighborsUsedFlag := rhs.members.neighborsUsedFlag);
      members := members.(opacity := rhs.members.opacity);
      members := members.(opacityThickness := rhs.members.opacityThickness);
      members := members.(xRotation := rhs.members.xRotation);
      members := members.(yRotation := rhs.members.yRotation);
      members := members.(zRotation := rhs.members.zRotation);
      members := members.(xRotationIncrement := rhs.members.xRotationIncrement);
      members := members.(yRotationIncrement := rhs.members.yRotationIncrement);
      members := members.(zRotationIncrement := rhs.members.zRotationIncrement);
      members := members.(shades := rhs.members.shades);
      members := members.(startBlue := rhs.members.startBlue);
      members := members.(startGreen := rhs.members.startGreen);
      members := members.(startRed := rhs.members.startRed);
      members := members.(statusFlag := rhs.members.statusFlag);
      members := members.(xTranslation := rhs.members.xTranslation);
      members := members.(yTranslation := rhs.members.yTranslation);
      members := members.(zTranslation := rhs.members.zTranslation);
      members := members.(xTranslationIncrement := rhs.members.xTranslationIncrement);
      members := members.(yTranslationIncrement := rhs.members.yTranslationIncrement);
      members := members.(zTranslationIncrement := rhs.members.zTranslationIncrement);
      members := members.(xCenter := rhs.members.xCenter);
      members := members.(yCenter := rhs.members.yCenter);
      members := members.(zCenter := rhs.members.zCenter);
    }

    /** Members 1 to 6, the display flag, the four flags and the shades: `ReadBytes` of each in declaration
        order, stopping at the first that fails. */
    method ReadDisplayMembers(s: InputStream, swap: bool) returns (ok: bool)
      requires s.Valid()
      modifies this`members, s
      ensures s.Valid() && old(s.pos) <= s.pos && ok == !s.failed
      ensures ok <==> !old(s.failed) && old(s.pos) + 12 <= |s.data|
      ensures ok ==> s.pos == old(s.pos) + 12
      ensures ok ==> members == old(members).(
          displayFlag := Oriented(s.data[old(s.pos)..old(s.pos) + 4], swap),
          copyFlag := s.data[old(s.pos) + 4], mirrorFlag := s.data[old(s.pos) + 5],
          statusFlag := s.data[old(s.pos) + 6], neighborsUsedFlag := s.data[old(s.pos) + 7],
          shades := Oriented(s.data[old(s.pos) + 8..old(s.pos) + 12], swap))
    {
      var displayFlag;
      displayFlag, ok := ReadInt(s, members.displayFlag, swap);
      members := members.(displayFlag := displayFlag);
      if !ok {
        return;
      }
      var copyFlag;
      copyFlag, ok := ReadUChar(s, members.copyFlag, swap);
      members := members.(copyFlag := copyFlag);
      if !ok {
        return;
      }
      var mirrorFlag;
      mirrorFlag, ok := ReadUChar(s, members.mirrorFlag, swap);
      members := members.(mirrorFlag := mirrorFlag);
      if !ok {
        return;
      }
      var statusFlag;
      statusFlag, ok := ReadUChar(s, members.statusFlag, swap);
      members := members.(statusFlag := statusFlag);
      if !ok {
        return;
      }
      var neighborsUsedFlag;
      neighborsUsedFlag, ok := ReadUChar(s, members.neighborsUsedFlag, swap);
      members := members.(neighborsUsedFlag := neighborsUsedFlag);
      if !ok {
        return;
      }
      var shades;
      shades, ok := ReadInt(s, members.shades, swap);
      members := members.(shades := shades);
      if !ok {
        return;
      }
    }

    /** Members 7 to 12, the start and end colours: `ReadBytes` of each in declaration
        order, stopping at the first that fails. */
    method ReadColourMembers(s: InputStream, swap: bool) returns (ok: bool)
      requires s.Valid()
      modifies this`members, s
      ensures s.Valid() && old(s.pos) <= s.pos && ok == !s.failed
      ensures ok <==> !old(s.failed) && old(s.pos) + 24 <= |s.data|
      ensures ok ==> s.pos == old(s.pos) + 24
      ensures ok ==> members == old(members).(
          startRed := Oriented(s.data[old(s.pos)..old(s.pos) + 4], swap),
          startGreen := Oriented(s.data[old(s.pos) + 4..old(s.pos) + 8], swap),
          startBlue := Oriented(s.data[old(s.pos) + 8..old(s.pos) + 12], swap),
          endRed := Oriented(s.data[old(s.pos) + 12..old(s.pos) + 16], swap),
          endGreen := Oriented(s.data[old(s.pos) + 16..old(s.pos) + 20], swap),
          endBlue := Oriented(s.data[old(s.pos) + 20..old(s.pos) + 24], swap))
    {
      var startRed;
      startRed, ok := ReadInt(s, members.startRed, swap);
      members := members.(startRed := startRed);
      if !ok {
        return;
      }
      var startGreen;
      startGreen, ok := ReadInt(s, members.startGreen, swap);
      members := members.(startGreen := startGreen);
      if !ok {
        return;
      }
      var startBlue;
      startBlue, ok := ReadInt(s, members.startBlue, swap);
      members := members.(startBlue := startBlue);
      if !ok {
        return;
      }
      var endRed;
      endRed, ok := ReadInt(s, members.endRed, swap);
      members := members.(endRed := endRed);
      if !ok {
        return;
      }
      var endGreen;
      endGreen, ok := ReadInt(s, members.endGreen, swap);
      members := members.(endGreen := endGreen);
      if !ok {
        return;
      }
      var endBlue;
      endBlue, ok := ReadInt(s, members.endBlue, swap);
      members := members.(endBlue := endBlue);
      if !ok {
        return;
      }
    }

    /** Members 13 to 18, the rotation and the translation: `ReadBytes` of each in declaration
        order, stopping at the first that fails. */
    method ReadPlacementMembers(s: InputStream, swap: bool) returns (ok: bool)
      requires s.Valid()
      modifies this`members, s
      ensures s.Valid() && old(s.pos) <= s.pos && ok == !s.failed
      ensures ok <==> !old(s.failed) && old(s.pos) + 24 <= |s.data|
      ensures ok ==> s.pos == old(s.pos) + 24
      ensures ok ==> members == old(members).(
          xRotation := Oriented(s.data[old(s.pos)..old(s.pos) + 4], swap),
          yRotation := Oriented(s.data[old(s.pos) + 4..old(s.pos) + 8], swap),
          zRotation := Oriented(s.data[old(s.pos) + 8..old(s.pos) + 12], swap),
          xTranslation := Oriented(s.data[old(s.pos) + 12..old(s.pos) + 16], swap),
          yTranslation := Oriented(s.data[old(s.pos) + 16..old(s.pos) + 20], swap),
          zTranslation := Oriented(s.data[old(s.pos) + 20..old(s.pos) + 24], swap))
    {
      var xRotation;
      xRotation, ok := ReadInt(s, members.xRotation, swap);
      members := members.(xRotation := xRotation);
      if !ok {
        return;
      }
      var yRotation;
      yRotation, ok := ReadInt(s, members.yRotation, swap);
      members := members.(yRotation := yRotation);
      if !ok {
        return;
      }
      var zRotation;
      zRotation, ok := ReadInt(s, members.zRotation, swap);
      members := members.(zRotation := zRotation);
      if !ok {
        return;
      }
      var xTranslation;
      xTranslation, ok := ReadInt(s, members.xTranslation, swap);
      members := members.(xTranslation := xTranslation);
      if !ok {
        return;
      }
      var yTranslation;
      yTranslation, ok := ReadInt(s, members.yTranslation, swap);
      members := members.(yTranslation := yTranslation);
      if !ok {
        return;
      }
      var zTranslation;
      zTranslation, ok := ReadInt(s, members.zTranslation, swap);
      members := members.(zTranslation := zTranslation);
      if !ok {
        return;
      }
    }

    /** Members 19 to 21, the centre: `ReadBytes` of each in declaration
        order, stopping at the first that fails. */
    method ReadCentreMembers(s: InputStream, swap: bool) returns (ok: bool)
      requires s.Valid()
      modifies this`members, s
      ensures s.Valid() && old(s.pos) <= s.pos && ok == !s.failed
      ensures ok <==> !old(s.failed) && old(s.pos) + 12 <= |s.data|
      ensures ok ==> s.pos == old(s.pos) + 12
      ensures ok ==> members == old(members).(
          xCenter := Oriented(s.data[old(s.pos)..old(s.pos) + 4], swap),
          yCenter := Oriented(s.data[old(s.pos) + 4..old(s.pos) + 8], swap),
          zCenter := Oriented(s.data[old(s.pos) + 8..old(s.pos) + 12], swap))
    {
      var xCenter;
      xCenter, ok := ReadInt(s, members.xCenter, swap);
      members := members.(xCenter := xCenter);
      if !ok {
        return;
      }
      var yCenter;
      yCenter, ok := ReadInt(s, members.yCenter, swap);
      members := members.(yCenter := yCenter);
      if !ok {
        return;
      }
      var zCenter;
      zCenter, ok := ReadInt(s, members.zCenter, swap);
      members := members.(zCenter := zCenter);
      if !ok {
        return;
      }
    }

    /** Members 22 to 27, the rotation and translation increments: `ReadBytes` of each in declaration
        order, stopping at the first that fails. */
    method ReadIncrementMembers(s: InputStream, swap: bool) returns (ok: bool)
      requires s.Valid()
      modifies this`members, s
      ensures s.Valid() && old(s.pos) <= s.pos && ok == !s.failed
      ensures ok <==> !old(s.failed) && old(s.pos) + 24 <= |s.data|
      ensures ok ==> s.pos == old(s.pos) + 24
      ensures ok ==> members == old(members).(
          xRotationIncrement := Oriented(s.data[old(s.pos)..old(s.pos) + 4], swap),
          yRotationIncrement := Oriented(s.data[old(s.pos) + 4..old(s.pos) + 8], swap),
          zRotationIncrement := Oriented(s.data[old(s.pos) + 8..old(s.pos) + 12], swap),
          xTranslationIncrement := Oriented(s.data[old(s.pos) + 12..old(s.pos) + 16], swap),
          yTranslationIncrement := Oriented(s.data[old(s.pos) + 16..old(s.pos) + 20], swap),
          zTranslationIncrement := Oriented(s.data[old(s.pos) + 20..old(s.pos) + 24], swap))
    {
      var xRotationIncrement;
      xRotationIncrement, ok := ReadInt(s, members.xRotationIncrement, swap);
      members := members.(xRotationIncrement := xRotationIncrement);
      if !ok {
        return;
      }
      var yRotationIncrement;
      yRotationIncrement, ok := ReadInt(s, members.yRotationIncrement, swap);
      members := members.(yRotationIncrement := yRotationIncrement);
      if !ok {
        return;
      }
      var zRotationIncrement;
      zRotationIncrement, ok := ReadInt(s, members.zRotationIncrement, swap);
      members := members.(zRotationIncrement := zRotationIncrement);
      if !ok {
        return;
      }
      var xTranslationIncrement;
      xTranslationIncrement, ok := ReadInt(s, members.xTranslationIncrement, swap);
      members := members.(xTranslationIncrement := xTranslationIncrement);
      if !ok {
        return;
      }
      var yTranslationIncrement;
      yTranslationIncrement, ok := ReadInt(s, members.yTranslationIncrement, swap);
      members := members.(yTranslationIncrement := yTranslationIncrement);
      if !ok {
        return;
      }
      var zTranslationIncrement;
      zTranslationIncrement, ok := ReadInt(s, members.zTranslationIncrement, swap);
      members := members.(zTranslationIncrement := zTranslationIncrement);
      if !ok {
        return;
      }
    }

    /** Members 28 to 33, the bounding box: `ReadBytes` of each in declaration
        order, stopping at the first that fails. */
    method ReadBoundsMembers(s: InputStream, swap: bool) returns (ok: bool)
      requires s.Valid()
      modifies this`members, s
      ensures s.Valid() && old(s.pos) <= s.pos && ok == !s.failed
      ensures ok <==> !old(s.failed) && old(s.pos) + 12 <= |s.data|
      ensures ok ==> s.pos == old(s.pos) + 12
      ensures ok ==> members == old(members).(
          minimumXValue := Oriented(s.data[old(s.pos)..old(s.pos) + 2], swap),
          minimumYValue := Oriented(s.data[old(s.pos) + 2..old(s.pos) + 4], swap),
          minimumZValue := Oriented(s.data[old(s.pos) + 4..old(s.pos) + 6], swap),
          maximumXValue := Oriented(s.data[old(s.pos) + 6..old(s.pos) + 8], swap),
          maximumYValue := Oriented(s.data[old(s.pos) + 8..old(s.pos) + 10], swap),
          maximumZValue := Oriented(s.data[old(s.pos) + 10..old(s.pos) + 12], swap))
    {
      var minimumXValue;
      minimumXValue, ok := ReadShort(s, members.minimumXValue, swap);
      members := members.(minimumXValue := minimumXValue);
      if !ok {
        return;
      }
      var minimumYValue;
      minimumYValue, ok := ReadShort(s, members.minimumYValue, swap);
      members := members.(minimumYValue := minimumYValue);
      if !ok {
        return;
      }
      var minimumZValue;
      minimumZValue, ok := ReadShort(s, members.minimumZValue, swap);
      members := members.(minimumZValue := minimumZValue);
      if !ok {
        return;
      }
      var maximumXValue;
      maximumXValue, ok := ReadShort(s, members.maximumXValue, swap);
      members := members.(maximumXValue := maximumXValue);
      if !ok {
        return;
      }
      var maximumYValue;
      maximumYValue, ok := ReadShort(s, members.maximumYValue, swap);
      members := members.(maximumYValue := maximumYValue);
      if !ok {
        return;
      }
      var maximumZValue;
      maximumZValue, ok := ReadShort(s, members.maximumZValue, swap);
      members := members.(maximumZValue := maximumZValue);
      if !ok {
        return;
      }
    }

    /** Members 34 to 36, the opacity, the opacity thickness and the blend factor: `ReadBytes` of each in declaration
        order, stopping at the first that fails. */
    method ReadBlendMembers(s: InputStream, swap: bool) returns (ok: bool)
      requires s.Valid()
      modifies this`members, s
      ensures s.Valid() && old(s.pos) <= s.pos && ok == !s.failed
      ensures ok <==> !old(s.failed) && old(s.pos) + 12 <= |s.data|
      ensures ok ==> s.pos == old(s.pos) + 12
      ensures ok ==> members == old(members).(
          opacity := Oriented(s.data[old(s.pos)..old(s.pos) + 4], swap),
          opacityThickness := Oriented(s.data[old(s.pos) + 4..old(s.pos) + 8], swap),
          blendFactor := Oriented(s.data[old(s.pos) + 8..old(s.pos) + 12], swap))
    {
      var opacity;
      opacity, ok := ReadInt(s, members.opacity, swap);
      members := members.(opacity := opacity);
      if !ok {
        return;
      }
      var opacityThickness;
      opacityThickness, ok := ReadInt(s, members.opacityThickness, swap);
      members := members.(opacityThickness := opacityThickness);
      if !ok {
        return;
      }
      var blendFactor;
      blendFactor, ok := ReadInt(s, members.blendFactor, swap);
      members := members.(blendFactor := blendFactor);
      if !ok {
        return;
      }
    }

    /** `ReadFromFilePointer`: read the 37 fields in declaration order, each
        swapped after reading when `needByteSwap` is set. The blend factor is
        read whatever `needBlendFactor` says. The first read that fails stops
        the reading, where the source throws; on success the entry holds the
        record the 152 bytes read decode to. The members are read in the runs
        above, one run after another. */
    method ReadFromFilePointer(s: InputStream, needByteSwap: bool, needBlendFactor: bool) returns (ok: bool)
      requires Valid() && s.Valid()
      modifies name, this`members, s
      ensures Valid() && s.Valid() && ok == !s.failed
      ensures ok <==> !old(s.failed) && old(s.pos) + RecordSize <= |s.data|
      ensures ok ==> s.pos == old(s.pos) + RecordSize
      ensures ok ==> Value() == ReadRecord(s.data[old(s.pos)..s.pos], needByteSwap)
    {
      ghost var p0 := s.pos;
      var image;
      image, ok := ReadBytes(s, name[..32], 1, needByteSwap);
      forall i | 0 <= i < 32 {
        name[i] := image[i];
      }
      if !ok {
        return;
      }
      assert name[..32] == s.data[p0..p0 + 32];
      ok := ReadDisplayMembers(s, needByteSwap);
      if !ok {
        return;
      }
      ok := ReadColourMembers(s, needByteSwap);
      if !ok {
        return;
      }
      ok := ReadPlacementMembers(s, needByteSwap);
      if !ok {
        return;
      }
      ok := ReadCentreMembers(s, needByteSwap);
      if !ok {
        return;
      }
      ok := ReadIncrementMembers(s, needByteSwap);
      if !ok {
        return;
      }
      ok := ReadBoundsMembers(s, needByteSwap);
      if !ok {
        return;
      }
      ok := ReadBlendMembers(s, needByteSwap);
      if !ok {
        return;
      }
      assert members == ReadMembers(s.data, p0, needByteSwap);
    }

    /** `SwapObjectEndedness`: byte-swap every multi-byte member in place;
        the name and the four flags stay. */
    method SwapObjectEndedness()
      requires Valid()
      modifies this`members
      ensures Value() == Swap(old(Value()))
    {
      members := members.(displayFlag := Reverse(members.displayFlag));
      members := members.(shades := Reverse(members.shades));
      members := members.(startRed := Reverse(members.startRed));
      members := members.(startGreen := Reverse(members.startGreen));
      members := members.(startBlue := Reverse(members.startBlue));
      members := members.(endRed := Reverse(members.endRed));
      members := members.(endGreen := Reverse(members.endGreen));
      members := members.(endBlue := Reverse(members.endBlue));
      members := members.(xRotation := Reverse(members.xRotation));
      members := members.(yRotation := Reverse(members.yRotation));
      members := members.(zRotation := Reverse(members.zRotation));
      members := members.(xTranslation := Reverse(members.xTranslation));
      members := members.(yTranslation := Reverse(members.yTranslation));
      members := members.(zTranslation := Reverse(members.zTranslation));
      members := members.(xCenter := Reverse(members.xCenter));
      members := members.(yCenter := Reverse(members.yCenter));
      members := members.(zCenter := Reverse(members.zCenter));
      members := members.(xRotationIncrement := Reverse(members.xRotationIncrement));
      members := members.(yRotationIncrement := Reverse(members.yRotationIncrement));
      members := members.(zRotationIncrement := Reverse(members.zRotationIncrement));
      members := members.(xTranslationIncrement := Reverse(members.xTranslationIncrement));
      members := members.(yTranslationIncrement := Reverse(members.yTranslationIncrement));
      members := members.(zTranslationIncrement := Reverse(members.zTranslationIncrement));
      members := members.(minimumXValue := Reverse(members.minimumXValue));
      members := members.(minimumYValue := Reverse(members.minimumYValue));
      members := members.(minimumZValue := Reverse(members.minimumZValue));
      members := members.(maximumXValue := Reverse(members.maximumXValue));
      members := members.(maximumYValue := Reverse(members.maximumYValue));
      members := members.(maximumZValue := Reverse(members.maximumZValue));
      members := members.(opacity := Reverse(members.opacity));
      members := members.(opacityThickness := Reverse(members.opacityThickness));
      members := members.(blendFactor := Reverse(members.blendFactor));
    }

    /** `Write`: emit the 37 fields in declaration order, unswapped, the
        name as its first 32 bytes. */
    method Write(out: OutputStream)
      requires Valid()
      modifies out
      ensures out.data == old(out.data) + Encode(Value())
    {
      out.Write(name[..32]);
      ghost var written := name[..32];
      out.Write(members.displayFlag);
      AppendAssoc(old(out.data), written, members.displayFlag);
      written := written + members.displayFlag;
      out.Write([members.copyFlag]);
      AppendAssoc(old(out.data), written, [members.copyFlag]);
      written := written + [members.copyFlag];
      out.Write([members.mirrorFlag]);
      AppendAssoc(old(out.data), written, [members.mirrorFlag]);
      written := written + [members.mirrorFlag];
      out.Write([members.statusFlag]);
      AppendAssoc(old(out.data), written, [members.statusFlag]);
      written := written + [members.statusFlag];
      out.Write([members.neighborsUsedFlag]);
      AppendAssoc(old(out.data), written, [members.neighborsUsedFlag]);
      written := written + [members.neighborsUsedFlag];
      out.Write(members.shades);
      AppendAssoc(old(out.data), written, members.shades);
      written := written + members.shades;
      out.Write(members.startRed);
      AppendAssoc(old(out.data), written, members.startRed);
      written := written + members.startRed;
      out.Write(members.startGreen);
      AppendAssoc(old(out.data), written, members.startGreen);
      written := written + members.startGreen;
      out.Write(members.startBlue);
      AppendAssoc(old(out.data), written, members.startBlue);
      written := written + members.startBlue;
      out.Write(members.endRed);
      AppendAssoc(old(out.data), written, members.endRed);
      written := written + members.endRed;
      out.Write(members.endGreen);
      AppendAssoc(old(out.data), written, members.endGreen);
      written := written + members.endGreen;
      out.Write(members.endBlue);
      AppendAssoc(old(out.data), written, members.endBlue);
      written := written + members.endBlue;
      out.Write(members.xRotation);
      AppendAssoc(old(out.data), written, members.xRotation);
      written := written + members.xRotation;
      out.Write(members.yRotation);
      AppendAssoc(old(out.data), written, members.yRotation);
      written := written + members.yRotation;
      out.Write(members.zRotation);
      AppendAssoc(old(out.data), written, members.zRotation);
      written := written + members.zRotation;
      out.Write(members.xTranslation);
      AppendAssoc(old(out.data), written, members.xTranslation);
      written := written + members.xTranslation;
      out.Write(members.yTranslation);
      AppendAssoc(old(out.data), written, members.yTranslation);
      written := written + members.yTranslation;
      out.Write(members.zTranslation);
      AppendAssoc(old(out.data), written, members.zTranslation);
      written := written + members.zTranslation;
      out.Write(members.xCenter);
      AppendAssoc(old(out.data), written, members.xCenter);
      written := written + members.xCenter;
      out.Write(members.yCenter);
      AppendAssoc(old(out.data), written, members.yCenter);
      written := written + members.yCenter;
      out.Write(members.zCenter);
      AppendAssoc(old(out.data), written, members.zCenter);
      written := written + members.zCenter;
      out.Write(members.xRotationIncrement);
      AppendAssoc(old(out.data), written, members.xRotationIncrement);
      written := written + members.xRotationIncrement;
      out.Write(members.yRotationIncrement);
      AppendAssoc(old(out.data), written, members.yRotationIncrement);
      written := written + members.yRotationIncrement;
      out.Write(members.zRotationIncrement);
      AppendAssoc(old(out.data), written, members.zRotationIncrement);
      written := written + members.zRotationIncrement;
      out.Write(members.xTranslationIncrement);
      AppendAssoc(old(out.data), written, members.xTranslationIncrement);
      written := written + members.xTranslationIncrement;
      out.Write(members.yTranslationIncrement);
      AppendAssoc(old(out.data), written, members.yTranslationIncrement);
      written := written + members.yTranslationIncrement;
      out.Write(members.zTranslationIncrement);
      AppendAssoc(old(out.data), written, members.zTranslationIncrement);
      written := written + members.zTranslationIncrement;
      out.Write(members.minimumXValue);
      AppendAssoc(old(out.data), written, members.minimumXValue);
      written := written + members.minimumXValue;
      out.Write(members.minimumYValue);
      AppendAssoc(old(out.data), written, members.minimumYValue);
      written := written + members.minimumYValue;
      out.Write(members.minimumZValue);
      AppendAssoc(old(out.data), written, members.minimumZValue);
      written := written + members.minimumZValue;
      out.Write(members.maximumXValue);
      AppendAssoc(old(out.data), written, members.maximumXValue);
      written := written + members.maximumXValue;
      out.Write(members.maximumYValue);
      AppendAssoc(old(out.data), written, members.maximumYValue);
      written := written + members.maximumYValue;
      out.Write(members.maximumZValue);
      AppendAssoc(old(out.data), written, members.maximumZValue);
      written := written + members.maximumZValue;
      out.Write(members.opacity);
      AppendAssoc(old(out.data), written, members.opacity);
      written := written + members.opacity;
      out.Write(members.opacityThickness);
      AppendAssoc(old(out.data), written, members.opacityThickness);
      written := written + members.opacityThickness;
      out.Write(members.blendFactor);
      AppendAssoc(old(out.data), written, members.blendFactor);
      written := written + members.blendFactor;
      assert written == Encode(Value());
    }
  }

  lemma AppendAssoc(x: seq<byte>, y: seq<byte>, z: seq<byte>)
    ensures (x + y) + z == x + (y + z)
  {
  }

  /** The members a successful read of the record at `p` leaves, each
      taken from its own bytes of `data` as the runs above read it. With the
      32 name bytes they make up the record the 152 bytes decode to; the
      field-by-field form is what the runs' contracts match. */
  function ReadMembers(data: seq<byte>, p: nat, swap: bool): (m: Members)
    requires p + RecordSize <= |data|
    ensures Image(data[p..p + 32], m) == ReadRecord(data[p..p + RecordSize], swap)
  {
    DecodeAt(data, p);
    Members(Oriented(data[p + 32..p + 36], swap), data[p + 36], data[p + 37], data[p + 38],
      data[p + 39], Oriented(data[p + 40..p + 44], swap), Oriented(data[p + 44..p + 48], swap),
      Oriented(data[p + 48..p + 52], swap), Oriented(data[p + 52..p + 56], swap),
      Oriented(data[p + 56..p + 60], swap), Oriented(data[p + 60..p + 64], swap),
      Oriented(data[p + 64..p + 68], swap), Oriented(data[p + 68..p + 72], swap),
      Oriented(data[p + 72..p + 76], swap), Oriented(data[p + 76..p + 80], swap),
      Oriented(data[p + 80..p + 84], swap), Oriented(data[p + 84..p + 88], swap),
      Oriented(data[p + 88..p + 92], swap), Oriented(data[p + 92..p + 96], swap),
      Oriented(data[p + 96..p + 100], swap), Oriented(data[p + 100..p + 104], swap),
      Oriented(data[p + 104..p + 108], swap), Oriented(data[p + 108..p + 112], swap),
      Oriented(data[p + 112..p + 116], swap), Oriented(data[p + 116..p + 120], swap),
      Oriented(data[p + 120..p + 124], swap), Oriented(data[p + 124..p + 128], swap),
      Oriented(data[p + 128..p + 130], swap), Oriented(data[p + 130..p + 132], swap),
      Oriented(data[p + 132..p + 134], swap), Oriented(data[p + 134..p + 136], swap),
      Oriented(data[p + 136..p + 138], swap), Oriented(data[p + 138..p + 140], swap),
      Oriented(data[p + 140..p + 144], swap), Oriented(data[p + 144..p + 148], swap),
      Oriented(data[p + 148..p + 152], swap))
  }

  /** Fields 0 to 0 of the record at `p` as slices of the whole data. */
  lemma DecodeAt0(data: seq<byte>, p: nat)
    requires p + RecordSize <= |data|
    ensures Decode(data[p..p + RecordSize]).name == data[p..p + 32]
  {
    SliceOfSlice(data, p, RecordSize, 0, 32);
  }

  /** Fields 1 to 6 of the record at `p` as slices of the whole data. */
  lemma DecodeAt1(data: seq<byte>, p: nat)
    requires p + RecordSize <= |data|
    ensures Decode(data[p..p + RecordSize]).displayFlag == data[p + 32..p + 36] &&
      Decode(data[p..p + RecordSize]).copyFlag == data[p + 36] &&
      Decode(data[p..p + RecordSize]).mirrorFlag == data[p + 37] &&
      Decode(data[p..p + RecordSize]).statusFlag == data[p + 38] &&
      Decode(data[p..p + RecordSize]).neighborsUsedFlag == data[p + 39] &&
      Decode(data[p..p + RecordSize]).shades == data[p + 40..p + 44]
  {
    SliceOfSlice(data, p, RecordSize, 32, 36);
    SliceOfSlice(data, p, RecordSize, 40, 44);
  }

  /** Fields 7 to 12 of the record at `p` as slices of the whole data. */
  lemma DecodeAt2(data: seq<byte>, p: nat)
    requires p + RecordSize <= |data|
    ensures Decode(data[p..p + RecordSize]).startRed == data[p + 44..p + 48] &&
      Decode(data[p..p + RecordSize]).startGreen == data[p + 48..p + 52] &&
      Decode(data[p..p + RecordSize]).startBlue == data[p + 52..p + 56] &&
      Decode(data[p..p + RecordSize]).endRed == data[p + 56..p + 60] &&
      Decode(data[p..p + RecordSize]).endGreen == data[p + 60..p + 64] &&
      Decode(data[p..p + RecordSize]).endBlue == data[p + 64..p + 68]
  {
    SliceOfSlice(data, p, RecordSize, 44, 48);
    SliceOfSlice(data, p, RecordSize, 48, 52);
    SliceOfSlice(data, p, RecordSize, 52, 56);
    SliceOfSlice(data, p, RecordSize, 56, 60);
    SliceOfSlice(data, p, RecordSize, 60, 64);
    SliceOfSlice(data, p, RecordSize, 64, 68);
  }

  /** Fields 13 to 18 of the record at `p` as slices of the whole data. */
  lemma DecodeAt3(data: seq<byte>, p: nat)
    requires p + RecordSize <= |data|
    ensures Decode(data[p..p + RecordSize]).xRotation == data[p + 68..p + 72] &&
      Decode(data[p..p + RecordSize]).yRotation == data[p + 72..p + 76] &&
      Decode(data[p..p + RecordSize]).zRotation == data[p + 76..p + 80] &&
      Decode(data[p..p + RecordSize]).xTranslation == data[p + 80..p + 84] &&
      Decode(data[p..p + RecordSize]).yTranslation == data[p + 84..p + 88] &&
      Decode(data[p..p + RecordSize]).zTranslation == data[p + 88..p + 92]
  {
    SliceOfSlice(data, p, RecordSize, 68, 72);
    SliceOfSlice(data, p, RecordSize, 72, 76);
    SliceOfSlice(data, p, RecordSize, 76, 80);
    SliceOfSlice(data, p, RecordSize, 80, 84);
    SliceOfSlice(data, p, RecordSize, 84, 88);
    SliceOfSlice(data, p, RecordSize, 88, 92);
  }

  /** Fields 19 to 21 of the record at `p` as slices of the whole data. */
  lemma DecodeAt4(data: seq<byte>, p: nat)
    requires p + RecordSize <= |data|
    ensures Decode(data[p..p + RecordSize]).xCenter == data[p + 92..p + 96] &&
      Decode(data[p..p + RecordSize]).yCenter == data[p + 96..p + 100] &&
      Decode(data[p..p + RecordSize]).zCenter == data[p + 100..p + 104]
  {
    SliceOfSlice(data, p, RecordSize, 92, 96);
    SliceOfSlice(data, p, RecordSize, 96, 100);
    SliceOfSlice(data, p, RecordSize, 100, 104);
  }

  /** Fields 22 to 27 of the record at `p` as slices of the whole data. */
  lemma DecodeAt5(data: seq<byte>, p: nat)
    requires p + RecordSize <= |data|
    ensures Decode(data[p..p + RecordSize]).xRotationIncrement == data[p + 104..p + 108] &&
      Decode(data[p..p + RecordSize]).yRotationIncrement == data[p + 108..p + 112] &&
      Decode(data[p..p + RecordSize]).zRotationIncrement == data[p + 112..p + 116] &&
      Decode(data[p..p + RecordSize]).xTranslationIncrement == data[p + 116..p + 120] &&
      Decode(data[p..p + RecordSize]).yTranslationIncrement == data[p + 120..p + 124] &&
      Decode(data[p..p + RecordSize]).zTranslationIncrement == data[p + 124..p + 128]
  {
    SliceOfSlice(data, p, RecordSize, 104, 108);
    SliceOfSlice(data, p, RecordSize, 108, 112);
    SliceOfSlice(data, p, RecordSize, 112, 116);
    SliceOfSlice(data, p, RecordSize, 116, 120);
    SliceOfSlice(data, p, RecordSize, 120, 124);
    SliceOfSlice(data, p, RecordSize, 124, 128);
  }

  /** Fields 28 to 33 of the record at `p` as slices of the whole data. */
  lemma DecodeAt6(data: seq<byte>, p: nat)
    requires p + RecordSize <= |data|
    ensures Decode(data[p..p + RecordSize]).minimumXValue == data[p + 128..p + 130] &&
      Decode(data[p..p + RecordSize]).minimumYValue == data[p + 130..p + 132] &&
      Decode(data[p..p + RecordSize]).minimumZValue == data[p + 132..p + 134] &&
      Decode(data[p..p + RecordSize]).maximumXValue == data[p + 134..p + 136] &&
      Decode(data[p..p + RecordSize]).maximumYValue == data[p + 136..p + 138] &&
      Decode(data[p..p + RecordSize]).maximumZValue == data[p + 138..p + 140]
  {
    SliceOfSlice(data, p, RecordSize, 128, 130);
    SliceOfSlice(data, p, RecordSize, 130, 132);
    SliceOfSlice(data, p, RecordSize, 132, 134);
    SliceOfSlice(data, p, RecordSize, 134, 136);
    SliceOfSlice(data, p, RecordSize, 136, 138);
    SliceOfSlice(data, p, RecordSize, 138, 140);
  }

  /** Fields 34 to 36 of the record at `p` as slices of the whole data. */
  lemma DecodeAt7(data: seq<byte>, p: nat)
    requires p + RecordSize <= |data|
    ensures Decode(data[p..p + RecordSize]).opacity == data[p + 140..p + 144] &&
      Decode(data[p..p + RecordSize]).opacityThickness == data[p + 144..p + 148] &&
      Decode(data[p..p + RecordSize]).blendFactor == data[p + 148..p + 152]
  {
    SliceOfSlice(data, p, RecordSize, 140, 144);
    SliceOfSlice(data, p, RecordSize, 144, 148);
    SliceOfSlice(data, p, RecordSize, 148, 152);
  }

  /** The record at `p`, field by field as slices of the whole data. */
  lemma DecodeAt(data: seq<byte>, p: nat)
    requires p + RecordSize <= |data|
    ensures Decode(data[p..p + RecordSize]) == Record(
              data[p..p + 32], data[p + 32..p + 36], data[p + 36], data[p + 37], data[p + 38],
              data[p + 39], data[p + 40..p + 44], data[p + 44..p + 48], data[p + 48..p + 52],
              data[p + 52..p + 56], data[p + 56..p + 60], data[p + 60..p + 64],
              data[p + 64..p + 68], data[p + 68..p + 72], data[p + 72..p + 76],
              data[p + 76..p + 80], data[p + 80..p + 84], data[p + 84..p + 88],
              data[p + 88..p + 92], data[p + 92..p + 96], data[p + 96..p + 100],
              data[p + 100..p + 104], data[p + 104..p + 108], data[p + 108..p + 112],
              data[p + 112..p + 116], data[p + 116..p + 120], data[p + 120..p + 124],
              data[p + 124..p + 128], data[p + 128..p + 130], data[p + 130..p + 132],
              data[p + 132..p + 134], data[p + 134..p + 136], data[p + 136..p + 138],
              data[p + 138..p + 140], data[p + 140..p + 144], data[p + 144..p + 148],
              data[p + 148..p + 152])
  {
    DecodeAt0(data, p);
    DecodeAt1(data, p);
    DecodeAt2(data, p);
    DecodeAt3(data, p);
    DecodeAt4(data, p);
    DecodeAt5(data, p);
    DecodeAt6(data, p);
    DecodeAt7(data, p);
  }

  /** A slice of a slice is a slice of the whole. */
  lemma SliceOfSlice(data: seq<byte>, p: nat, n: nat, i: nat, j: nat)
    requires p + n <= |data| && i <= j <= n
    ensures data[p..p + n][i..j] == data[p + i..p + j]
  {
    var a, b := data[p..p + n][i..j], data[p + i..p + j];
    assert |a| == |b|;
    assert forall k :: 0 <= k < |a| ==> a[k] == b[k];
  }
}
