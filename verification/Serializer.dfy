/**
 What the serializer writes: each object in the shortest MessagePack form that
 holds it. Reading back gives the object, and the frame ends where it ends.
 */
module Serializer {
  import opened Seqs
  import opened MsgPack
  import Framing

  /** Strings and binaries are bytes; a floating-point number is its bits, in four bytes or
      eight; an extension value has a type of its own; a map is its keys and values in turn. */
  datatype Object =
    | Null
    | Boolean(b: bool)
    | Integer(n: int)
    | Text(bytes: Bytes)
    | Binary(bytes: Bytes)
    | Float(bits: Bytes)
    | Extension(kind: Byte, bytes: Bytes)
    | List(items: Objects)
    | Record(pairs: Objects)
  datatype Objects = Empty | More(head: Object, tail: Objects)

  function Length(os: Objects): nat {
    match os
    case Empty => 0
    case More(_, rest) => 1 + Length(rest)
  }

  const TWO_32: nat := 0x1_0000_0000
  const TWO_63: int := 0x8000_0000_0000_0000

  /** The objects the format can hold. */
  predicate Fits(o: Object) {
    match o
    case Integer(n) => -TWO_63 <= n < 2 * TWO_63
    case Text(bytes) => |bytes| < TWO_32
    case Binary(bytes) => |bytes| < TWO_32
    case Float(bits) => |bits| == 4 || |bits| == 8
    case Extension(_, bytes) => |bytes| < TWO_32
    case List(items) => Length(items) < TWO_32 && AllFit(items)
    case Record(pairs) => Length(pairs) % 2 == 0 && Length(pairs) / 2 < TWO_32 && AllFit(pairs)
    case _ => true
  }

  predicate AllFit(os: Objects) {
    match os
    case Empty => true
    case More(o, rest) => Fits(o) && AllFit(rest)
  }

  function Power(width: nat): nat {
    if width == 0 then 1 else 256 * Power(width - 1)
  }

  /** `n` as a big-endian field; it holds what is below 256^width. */
  function Field(n: nat, width: nat): (f: Bytes)
    ensures |f| == width
  {
    if width == 0 then [] else Field(n / 256, width - 1) + [n % 256]
  }

  lemma {:induction false} FieldHolds(n: nat, width: nat)
    requires n < Power(width)
    ensures BigEndian(Field(n, width)) == n
  {
    if width > 0 {
      FieldHolds(n / 256, width - 1);
      assert Field(n, width)[..width - 1] == Field(n / 256, width - 1);
    }
  }

  function Write(o: Object): Value {
    match o
    case Null => Leaf(0xc0, [])
    case Boolean(b) => Leaf(if b then 0xc3 else 0xc2, [])
    case Integer(n) => if n >= 0 then UnsignedOf(n) else NegativeOf(n)
    case Text(s) => TextOf(s)
    case Binary(s) => BinaryOf(s)
    case Float(bits) => Leaf(if |bits| == 4 then 0xca else 0xcb, bits)
    case Extension(kind, s) => ExtensionOf(|s|, [kind] + s)
    case List(items) => ListOf(Length(items), WriteAll(items))
    case Record(pairs) => RecordOf(Length(pairs) / 2, WriteAll(pairs))
  }

  function TextOf(s: Bytes): Value {
    if |s| < 32 then Leaf(0xa0 + |s|, s)
    else if |s| < 0x100 then Leaf(0xd9, Field(|s|, 1) + s)
    else if |s| < 0x1_0000 then Leaf(0xda, Field(|s|, 2) + s)
    else Leaf(0xdb, Field(|s|, 4) + s)
  }

  function BinaryOf(s: Bytes): Value {
    if |s| < 0x100 then Leaf(0xc4, Field(|s|, 1) + s)
    else if |s| < 0x1_0000 then Leaf(0xc5, Field(|s|, 2) + s)
    else Leaf(0xc6, Field(|s|, 4) + s)
  }

  function UnsignedOf(n: nat): Value {
    if n < 0x80 then Leaf(n, [])
    else if n < 0x100 then Leaf(0xcc, Field(n, 1))
    else if n < 0x1_0000 then Leaf(0xcd, Field(n, 2))
    else if n < TWO_32 then Leaf(0xce, Field(n, 4))
    else Leaf(0xcf, Field(n, 8))
  }

  /** Two's complement; what does not fit 64 bits has no form. */
  function NegativeOf(n: int): Value
    requires n < 0
  {
    if n >= -0x20 then Leaf(0x100 + n, [])
    else if n >= -0x80 then Leaf(0xd0, Field(0x100 + n, 1))
    else if n >= -0x8000 then Leaf(0xd1, Field(0x1_0000 + n, 2))
    else if n >= -0x8000_0000 then Leaf(0xd2, Field(TWO_32 + n, 4))
    else Leaf(0xd3, Field(if -TWO_63 <= n then 2 * TWO_63 + n else 0, 8))
  }

  /** `body` is the type and `n` bytes. */
  function ExtensionOf(n: nat, body: Bytes): Value {
    if n == 1 then Leaf(0xd4, body)
    else if n == 2 then Leaf(0xd5, body)
    else if n == 4 then Leaf(0xd6, body)
    else if n == 8 then Leaf(0xd7, body)
    else if n == 16 then Leaf(0xd8, body)
    else if n < 0x100 then Leaf(0xc7, Field(n, 1) + body)
    else if n < 0x1_0000 then Leaf(0xc8, Field(n, 2) + body)
    else Leaf(0xc9, Field(n, 4) + body)
  }

  function ListOf(n: nat, items: Values): Value {
    if n < 16 then Branch(0x90 + n, [], items)
    else if n < 0x1_0000 then Branch(0xdc, Field(n, 2), items)
    else Branch(0xdd, Field(n, 4), items)
  }

  function RecordOf(n: nat, items: Values): Value {
    if n < 16 then Branch(0x80 + n, [], items)
    else if n < 0x1_0000 then Branch(0xde, Field(n, 2), items)
    else Branch(0xdf, Field(n, 4), items)
  }

  function WriteAll(os: Objects): Values {
    match os
    case Empty => Nil
    case More(o, rest) => Cons(Write(o), WriteAll(rest))
  }

  /** A two's complement field of `width` bytes. */
  function Signed(field: Bytes): int {
    var n := BigEndian(field);
    if 2 * n < Power(|field|) then n else n - Power(|field|)
  }

  function ReadLeaf(m: Byte, body: Bytes): Option<Object> {
    if m < 0x80 then Some(Integer(m))
    else if m >= 0xe0 then Some(Integer(m - 0x100))
    else if 0xa0 <= m < 0xc0 then Some(Text(body))
    else if 0xc4 <= m <= 0xc6 then Body(m - 0xc4, body, false)
    else if 0xc7 <= m <= 0xc9 then ExtensionIn(body, WidthOf(m - 0xc7))
    else if 0xcc <= m <= 0xcf then Some(Integer(BigEndian(body)))
    else if 0xd0 <= m <= 0xd3 then Some(Integer(Signed(body)))
    else if 0xd4 <= m <= 0xd8 then ExtensionIn(body, 0)
    else if 0xd9 <= m <= 0xdb then Body(m - 0xd9, body, true)
    else match m
      case 0xc0 => Some(Null)
      case 0xc2 => Some(Boolean(false))
      case 0xc3 => Some(Boolean(true))
      case 0xca => Some(Float(body))
      case 0xcb => Some(Float(body))
      case _ => None
  }

  /** What a written value says, by the table of the specification. */
  function Read(v: Value): Option<Object> {
    match v
    case Leaf(m, body) => ReadLeaf(m, body)
    case Branch(m, _, items) =>
      match ReadAll(items)
      case None => None
      case Some(os) =>
        if 0x90 <= m < 0xa0 || m == 0xdc || m == 0xdd then Some(List(os))
        else if 0x80 <= m < 0x90 || m == 0xde || m == 0xdf then Some(Record(os))
        else None
  }

  function WidthOf(size: nat): nat {
    if size == 0 then 1 else if size == 1 then 2 else 4
  }

  /** What follows a length field of one, two or four bytes. */
  function Body(size: nat, body: Bytes, text: bool): Option<Object> {
    var width := WidthOf(size);
    if |body| < width then None
    else Some(if text then Text(body[width..]) else Binary(body[width..]))
  }

  /** The type and the bytes after a length field of `width` bytes. */
  function ExtensionIn(body: Bytes, width: nat): Option<Object> {
    if |body| <= width then None else Some(Extension(body[width], body[width + 1..]))
  }

  function ReadAll(vs: Values): Option<Objects> {
    match vs
    case Nil => Some(Empty)
    case Cons(v, rest) =>
      match (Read(v), ReadAll(rest))
      case (Some(o), Some(os)) => Some(More(o, os))
      case _ => None
  }

  /** The marker of an object in its shortest form, by the table of the specification. */
  function MarkerOf(o: Object): int {
    match o
    case Null => 0xc0
    case Boolean(b) => if b then 0xc3 else 0xc2
    case Integer(n) =>
      if 0 <= n < 128 then n
      else if n >= 0 then (if n < 256 then 0xcc else if n < 65536 then 0xcd else if n < 4294967296 then 0xce else 0xcf)
      else if n >= -32 then 256 + n
      else (if n >= -128 then 0xd0 else if n >= -32768 then 0xd1 else if n >= -2147483648 then 0xd2 else 0xd3)
    case Text(s) => if |s| < 32 then 0xa0 + |s| else 0xd9 + WidthClass(|s|)
    case Binary(s) => 0xc4 + WidthClass(|s|)
    case Float(bits) => if |bits| == 4 then 0xca else 0xcb
    case Extension(_, s) =>
      if |s| == 1 then 0xd4 else if |s| == 2 then 0xd5 else if |s| == 4 then 0xd6 else if |s| == 8 then 0xd7
      else if |s| == 16 then 0xd8 else 0xc7 + WidthClass(|s|)
    case List(items) =>
      var n := Length(items);
      if n < 16 then 0x90 + n else if n < 65536 then 0xdc else 0xdd
    case Record(pairs) =>
      var n := Length(pairs) / 2;
      if n < 16 then 0x80 + n else if n < 65536 then 0xde else 0xdf
  }

  /** Whether a length takes one byte, two, or four. */
  function WidthClass(n: nat): int {
    if n < 256 then 0 else if n < 65536 then 1 else 2
  }

  lemma MarkerIsWritten(o: Object)
    requires Fits(o)
    ensures Encode(Write(o))[0] == MarkerOf(o)
  {
  }

  lemma Powers()
    ensures Power(1) == 0x100 && Power(2) == 0x1_0000 && Power(4) == TWO_32 && Power(8) == 2 * TWO_63
  {
    assert Power(3) == 0x100_0000;
    assert Power(5) == 0x100_0000_0000;
    assert Power(6) == 0x1_0000_0000_0000;
    assert Power(7) == 0x100_0000_0000_0000;
  }

  lemma UnsignedIsRead(n: nat)
    requires n < 2 * TWO_63
    ensures WellFormed(UnsignedOf(n)) && Read(UnsignedOf(n)) == Some(Integer(n))
  {
    Powers();
    if n < 0x80 {
    } else if n < 0x100 {
      FieldHolds(n, 1);
    } else if n < 0x1_0000 {
      FieldHolds(n, 2);
    } else if n < TWO_32 {
      FieldHolds(n, 4);
    } else {
      FieldHolds(n, 8);
    }
  }

  lemma SignedHolds(n: int, width: nat)
    requires 0 < width && n < 0 <= 2 * n + Power(width)
    ensures Signed(Field(Power(width) + n, width)) == n
  {
    FieldHolds(Power(width) + n, width);
  }

  lemma SignedValueIsRead(field: Bytes, marker: Byte, n: int)
    requires 0xd0 <= marker <= 0xd3 && ShapeOf(marker) == Scalar(|field|) && Signed(field) == n
    ensures var v := Leaf(marker, field); WellFormed(v) && Read(v) == Some(Integer(n))
  {
  }

  lemma SignedFieldIsRead(n: int, marker: Byte, width: nat)
    requires 0xd0 <= marker <= 0xd3 && ShapeOf(marker) == Scalar(width)
    requires n < 0 <= 2 * n + Power(width)
    ensures var v := Leaf(marker, Field(Power(width) + n, width)); WellFormed(v) && Read(v) == Some(Integer(n))
  {
    SignedHolds(n, width);
    SignedValueIsRead(Field(Power(width) + n, width), marker, n);
  }

  lemma FixedNegativeIsRead(n: int)
    requires -0x20 <= n < 0
    ensures var v := Leaf(0x100 + n, []); WellFormed(v) && Read(v) == Some(Integer(n))
  {
    assert ShapeOf(0x100 + n) == Scalar(0);
  }

  lemma NegativeIsRead(n: int)
    requires -TWO_63 <= n < 0
    ensures WellFormed(NegativeOf(n)) && Read(NegativeOf(n)) == Some(Integer(n))
  {
    Powers();
    if n >= -0x20 {
      FixedNegativeIsRead(n);
    } else if n >= -0x80 {
      SignedFieldIsRead(n, 0xd0, 1);
    } else if n >= -0x8000 {
      SignedFieldIsRead(n, 0xd1, 2);
    } else if n >= -0x8000_0000 {
      SignedFieldIsRead(n, 0xd2, 4);
    } else {
      SignedFieldIsRead(n, 0xd3, 8);
    }
  }

  /** The bytes after a length field of a text or a binary. */
  lemma PrefixedIsRead(s: Bytes, marker: Byte, width: nat)
    requires |s| < Power(width) && ShapeOf(marker) == Blob(width, 0)
    requires 0xd9 <= marker <= 0xdb || 0xc4 <= marker <= 0xc6
    requires width == WidthOf(if marker < 0xd0 then marker - 0xc4 else marker - 0xd9)
    ensures var v := Leaf(marker, Field(|s|, width) + s);
            WellFormed(v) && Read(v) == Some(if marker < 0xd0 then Binary(s) else Text(s))
  {
    FieldHolds(|s|, width);
    PrefixedValueIsRead(Field(|s|, width), s, marker);
  }

  lemma PrefixedValueIsRead(field: Bytes, s: Bytes, marker: Byte)
    requires 0xd9 <= marker <= 0xdb || 0xc4 <= marker <= 0xc6
    requires |field| == WidthOf(if marker < 0xd0 then marker - 0xc4 else marker - 0xd9) && BigEndian(field) == |s|
    requires ShapeOf(marker) == Blob(|field|, 0)
    ensures var v := Leaf(marker, field + s);
            WellFormed(v) && Read(v) == Some(if marker < 0xd0 then Binary(s) else Text(s))
  {
    assert (field + s)[..|field|] == field && (field + s)[|field|..] == s;
  }

  lemma ShortTextIsRead(s: Bytes)
    requires |s| < 32
    ensures WellFormed(Leaf(0xa0 + |s|, s)) && Read(Leaf(0xa0 + |s|, s)) == Some(Text(s))
  {
    assert ShapeOf(0xa0 + |s|) == Scalar(|s|);
  }

  lemma TextIsRead(s: Bytes)
    requires |s| < TWO_32
    ensures WellFormed(TextOf(s)) && Read(TextOf(s)) == Some(Text(s))
  {
    Powers();
    if |s| < 32 {
      ShortTextIsRead(s);
    } else if |s| < 0x100 {
      PrefixedIsRead(s, 0xd9, 1);
    } else if |s| < 0x1_0000 {
      PrefixedIsRead(s, 0xda, 2);
    } else {
      PrefixedIsRead(s, 0xdb, 4);
    }
  }

  lemma BinaryIsRead(s: Bytes)
    requires |s| < TWO_32
    ensures WellFormed(BinaryOf(s)) && Read(BinaryOf(s)) == Some(Binary(s))
  {
    Powers();
    if |s| < 0x100 {
      PrefixedIsRead(s, 0xc4, 1);
    } else if |s| < 0x1_0000 {
      PrefixedIsRead(s, 0xc5, 2);
    } else {
      PrefixedIsRead(s, 0xc6, 4);
    }
  }

  lemma FloatIsRead(bits: Bytes)
    requires |bits| == 4 || |bits| == 8
    ensures WellFormed(Write(Float(bits))) && Read(Write(Float(bits))) == Some(Float(bits))
  {
    assert ShapeOf(0xca) == Scalar(4) && ShapeOf(0xcb) == Scalar(8);
  }

  lemma FixedExtensionIsRead(kind: Byte, s: Bytes, marker: Byte)
    requires 0xd4 <= marker <= 0xd8 && ShapeOf(marker) == Scalar(1 + |s|)
    ensures var v := Leaf(marker, [kind] + s); WellFormed(v) && Read(v) == Some(Extension(kind, s))
  {
    assert ([kind] + s)[1..] == s;
  }

  lemma ExtensionInIs(kind: Byte, s: Bytes, field: Bytes)
    ensures ExtensionIn(field + ([kind] + s), |field|) == Some(Extension(kind, s))
  {
    var body := field + ([kind] + s);
    assert body[|field| + 1..] == s;
  }

  lemma PrefixedExtensionIsRead(kind: Byte, s: Bytes, marker: Byte, width: nat)
    requires 0xc7 <= marker <= 0xc9 && width == WidthOf(marker - 0xc7) && |s| < Power(width)
    requires ShapeOf(marker) == Blob(width, 1)
    ensures var v := Leaf(marker, Field(|s|, width) + ([kind] + s));
            WellFormed(v) && Read(v) == Some(Extension(kind, s))
  {
    var field := Field(|s|, width);
    FieldHolds(|s|, width);
    ExtensionInIs(kind, s, field);
    assert (field + ([kind] + s))[..width] == field;
  }

  lemma ExtensionIsRead(kind: Byte, s: Bytes)
    requires |s| < TWO_32
    ensures var v := ExtensionOf(|s|, [kind] + s); WellFormed(v) && Read(v) == Some(Extension(kind, s))
  {
    Powers();
    if |s| == 1 {
      FixedExtensionIsRead(kind, s, 0xd4);
    } else if |s| == 2 {
      FixedExtensionIsRead(kind, s, 0xd5);
    } else if |s| == 4 {
      FixedExtensionIsRead(kind, s, 0xd6);
    } else if |s| == 8 {
      FixedExtensionIsRead(kind, s, 0xd7);
    } else if |s| == 16 {
      FixedExtensionIsRead(kind, s, 0xd8);
    } else if |s| < 0x100 {
      PrefixedExtensionIsRead(kind, s, 0xc7, 1);
    } else if |s| < 0x1_0000 {
      PrefixedExtensionIsRead(kind, s, 0xc8, 2);
    } else {
      PrefixedExtensionIsRead(kind, s, 0xc9, 4);
    }
  }

  lemma CountHolds(n: nat)
    requires n < TWO_32
    ensures n < 0x1_0000 ==> BigEndian(Field(n, 2)) == n
    ensures BigEndian(Field(n, 4)) == n
  {
    Powers();
    if n < 0x1_0000 { FieldHolds(n, 2); }
    FieldHolds(n, 4);
  }

  lemma ListIsRead(n: nat, vs: Values, os: Objects)
    requires n < TWO_32 && AllWellFormed(vs) && Count(vs) == n && ReadAll(vs) == Some(os)
    ensures WellFormed(ListOf(n, vs)) && Read(ListOf(n, vs)) == Some(List(os))
  {
    if n < 16 {
      assert ShapeOf(0x90 + n) == Few(n);
    } else {
      CountHolds(n);
      assert ShapeOf(0xdc) == Many(2, 1) && ShapeOf(0xdd) == Many(4, 1);
    }
  }

  lemma RecordIsRead(n: nat, vs: Values, os: Objects)
    requires n < TWO_32 && AllWellFormed(vs) && Count(vs) == 2 * n && ReadAll(vs) == Some(os)
    ensures WellFormed(RecordOf(n, vs)) && Read(RecordOf(n, vs)) == Some(Record(os))
  {
    if n < 16 {
      assert ShapeOf(0x80 + n) == Few(2 * n);
    } else {
      CountHolds(n);
      assert ShapeOf(0xde) == Many(2, 2) && ShapeOf(0xdf) == Many(4, 2);
    }
  }

  /** Reading back what was written. */
  lemma {:induction false} WrittenIsRead(o: Object)
    requires Fits(o)
    ensures WellFormed(Write(o)) && Read(Write(o)) == Some(o)
    decreases o, 0
  {
    match o
    case Null =>
    case Boolean(_) =>
    case Integer(n) => if n >= 0 { UnsignedIsRead(n); } else { NegativeIsRead(n); }
    case Text(s) => TextIsRead(s);
    case Binary(s) => BinaryIsRead(s);
    case Float(bits) => FloatIsRead(bits);
    case Extension(kind, s) => ExtensionIsRead(kind, s);
    case List(items) =>
      AllWrittenAreRead(items);
      ListIsRead(Length(items), WriteAll(items), items);
    case Record(pairs) =>
      AllWrittenAreRead(pairs);
      RecordIsRead(Length(pairs) / 2, WriteAll(pairs), pairs);
  }

  lemma {:induction false} AllWrittenAreRead(os: Objects)
    requires AllFit(os)
    ensures AllWellFormed(WriteAll(os)) && ReadAll(WriteAll(os)) == Some(os) && Count(WriteAll(os)) == Length(os)
    decreases os, 0
  {
    match os
    case Empty =>
    case More(o, rest) =>
      WrittenIsRead(o);
      AllWrittenAreRead(rest);
  }

  /** An object serialized and followed by anything is decoded as itself, from its own bytes. */
  lemma SerializedIsDecoded(o: Object, rest: Bytes)
    requires Fits(o)
    ensures var bytes := Encode(Write(o));
            && Parse(bytes + rest) == Done(Write(o), |bytes|)
            && Read(Parse(bytes + rest).value) == Some(o)
  {
    WrittenIsRead(o);
    EncodedIsParsed(Write(o), rest);
  }

  function SerializedAll(os: seq<Object>): Bytes {
    if os == [] then [] else Encode(Write(os[0])) + SerializedAll(os[1..])
  }

  function WrittenAll(os: seq<Object>): (r: seq<Value>)
    ensures |r| == |os| && forall i :: 0 <= i < |r| ==> r[i] == Write(os[i])
  {
    if os == [] then [] else [Write(os[0])] + WrittenAll(os[1..])
  }

  lemma {:induction false} SerializedMessages(os: seq<Object>)
    ensures SerializedAll(os) == Framing.Messages(WrittenAll(os))
  {
    if os != [] {
      SerializedMessages(os[1..]);
      assert WrittenAll(os)[1..] == WrittenAll(os[1..]);
    }
  }

  lemma {:induction false} FramesAt(vs: seq<Value>, i: nat)
    requires i < |vs|
    ensures |Framing.Frames(vs)| == |vs| && Framing.Frames(vs)[i] == Framing.Frame(vs[i], Encode(vs[i]))
  {
    if |vs| > 1 {
      FramesAt(vs[1..], if i == 0 then 0 else i - 1);
    }
  }

  /** From end to end: objects serialized one after another and cut into reads in any way
      come out of the receiver as those objects, in order, each with its own bytes. */
  lemma ObjectsArrive(os: seq<Object>, chunks: seq<Bytes>)
    requires forall i :: 0 <= i < |os| ==> Fits(os[i])
    requires Concat(chunks) == SerializedAll(os)
    ensures var d := Framing.FeedAll(Framing.START, chunks);
            && !d.broken && d.rest == [] && |d.frames| == |os|
            && forall i :: 0 <= i < |os| ==>
                 Read(d.frames[i].obj) == Some(os[i]) && d.frames[i].vec == Encode(Write(os[i]))
  {
    var vs := WrittenAll(os);
    forall i | 0 <= i < |vs| ensures WellFormed(vs[i]) && Read(vs[i]) == Some(os[i]) {
      WrittenIsRead(os[i]);
    }
    SerializedMessages(os);
    Framing.MessagesArrive(vs, chunks);
    forall i | 0 <= i < |vs|
      ensures |Framing.Frames(vs)| == |vs| && Framing.Frames(vs)[i] == Framing.Frame(vs[i], Encode(vs[i]))
    {
      FramesAt(vs, i);
    }
  }
}
