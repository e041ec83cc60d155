/**
 The MessagePack wire format, as far as it decides where a value ends: every
 marker of the specification's "Formats" section, with its length and count
 fields. A value keeps the bytes it was written with.
 */
module MsgPack {
  import opened Seqs

  /** What follows a marker: so many bytes; a length field of `width` bytes and that
      many bytes plus `extra`; so many values; a count field and `per` values each. */
  datatype Shape =
    | Scalar(bytes: nat)
    | Blob(width: nat, extra: nat)
    | Few(count: nat)
    | Many(width: nat, per: nat)
    | Unused

  function ShapeOf(marker: Byte): Shape {
    if marker < 0x80 then Scalar(0)                       // positive fixint
    else if marker < 0x90 then Few(2 * (marker - 0x80))   // fixmap
    else if marker < 0xa0 then Few(marker - 0x90)         // fixarray
    else if marker < 0xc0 then Scalar(marker - 0xa0)      // fixstr
    else if marker >= 0xe0 then Scalar(0)                 // negative fixint
    else match marker
      case 0xc1 => Unused
      case 0xc4 => Blob(1, 0) case 0xc5 => Blob(2, 0) case 0xc6 => Blob(4, 0)   // bin
      case 0xc7 => Blob(1, 1) case 0xc8 => Blob(2, 1) case 0xc9 => Blob(4, 1)   // ext
      case 0xca => Scalar(4) case 0xcb => Scalar(8)                             // float
      case 0xcc => Scalar(1) case 0xcd => Scalar(2) case 0xce => Scalar(4) case 0xcf => Scalar(8)   // uint
      case 0xd0 => Scalar(1) case 0xd1 => Scalar(2) case 0xd2 => Scalar(4) case 0xd3 => Scalar(8)   // int
      case 0xd4 => Scalar(2) case 0xd5 => Scalar(3) case 0xd6 => Scalar(5)      // fixext
      case 0xd7 => Scalar(9) case 0xd8 => Scalar(17)
      case 0xd9 => Blob(1, 0) case 0xda => Blob(2, 0) case 0xdb => Blob(4, 0)   // str
      case 0xdc => Many(2, 1) case 0xdd => Many(4, 1)                           // array
      case 0xde => Many(2, 2) case 0xdf => Many(4, 2)                           // map
      case _ => Scalar(0)                                                       // nil, false, true
  }

  function BigEndian(field: Bytes): nat {
    if field == [] then 0 else 256 * BigEndian(field[..|field| - 1]) + field[|field| - 1]
  }

  /** The first byte of a field counts most. */
  lemma BigEndianByValue(a: Byte, b: Byte, c: Byte, d: Byte)
    ensures BigEndian([a]) == a && BigEndian([a, b]) == 0x100 * a + b
    ensures BigEndian([a, b, c, d]) == 0x100_0000 * a + 0x1_0000 * b + 0x100 * c + d
  {
    assert [a, b, c, d][..3] == [a, b, c] && [a, b, c][..2] == [a, b] && [a, b][..1] == [a] && [a][..0] == [];
  }

  datatype Value = Leaf(marker: Byte, body: Bytes) | Branch(marker: Byte, size: Bytes, items: Values)
  datatype Values = Nil | Cons(head: Value, tail: Values)

  function Encode(v: Value): Bytes {
    match v
    case Leaf(marker, body) => [marker] + body
    case Branch(marker, size, items) => [marker] + size + EncodeAll(items)
  }

  function EncodeAll(vs: Values): Bytes {
    match vs
    case Nil => []
    case Cons(v, rest) => Encode(v) + EncodeAll(rest)
  }

  function Count(vs: Values): nat {
    match vs
    case Nil => 0
    case Cons(_, rest) => 1 + Count(rest)
  }

  /** The length and count fields say what is there. */
  predicate WellFormed(v: Value) {
    match v
    case Leaf(marker, body) => (
      match ShapeOf(marker)
      case Scalar(n) => |body| == n
      case Blob(width, extra) => |body| >= width && |body| == width + extra + BigEndian(body[..width])
      case _ => false)
    case Branch(marker, size, items) =>
      && AllWellFormed(items)
      && match ShapeOf(marker)
         case Few(n) => size == [] && Count(items) == n
         case Many(width, per) => |size| == width && Count(items) == per * BigEndian(size)
         case _ => false
  }

  predicate AllWellFormed(vs: Values) {
    match vs
    case Nil => true
    case Cons(v, rest) => WellFormed(v) && AllWellFormed(rest)
  }

  datatype Parsed<+T> = Done(value: T, len: nat) | NeedMore | Bad

  function Parse(b: Bytes): (r: Parsed<Value>)
    ensures r.Done? ==> 1 <= r.len <= |b|
    decreases |b|, 0
  {
    if b == [] then NeedMore else
    match ShapeOf(b[0])
    case Unused => Bad
    case Scalar(n) => if |b| < 1 + n then NeedMore else Done(Leaf(b[0], b[1..1 + n]), 1 + n)
    case Blob(width, extra) =>
      if |b| < 1 + width then NeedMore else
      var end := 1 + width + extra + BigEndian(b[1..1 + width]);
      if |b| < end then NeedMore else Done(Leaf(b[0], b[1..end]), end)
    case Few(n) => ParseBranch(b, 0, n)
    case Many(width, per) =>
      if |b| < 1 + width then NeedMore else ParseBranch(b, width, per * BigEndian(b[1..1 + width]))
  }

  function ParseBranch(b: Bytes, width: nat, n: nat): (r: Parsed<Value>)
    requires 1 + width <= |b|
    ensures r.Done? ==> 1 <= r.len <= |b|
    decreases |b|, 0, 0
  {
    match ParseAll(b[1 + width..], n)
    case Done(items, len) => Done(Branch(b[0], b[1..1 + width], items), 1 + width + len)
    case NeedMore => NeedMore
    case Bad => Bad
  }

  function ParseAll(b: Bytes, n: nat): (r: Parsed<Values>)
    ensures r.Done? ==> r.len <= |b|
    decreases |b|, n + 1
  {
    if n == 0 then Done(Nil, 0) else
    match Parse(b)
    case NeedMore => NeedMore
    case Bad => Bad
    case Done(v, len) =>
      match ParseAll(b[len..], n - 1)
      case Done(rest, more) => Done(Cons(v, rest), len + more)
      case NeedMore => NeedMore
      case Bad => Bad
  }

  /** What is parsed is what was there. */
  lemma {:induction false} ParsedIsThere(b: Bytes)
    requires Parse(b).Done?
    ensures WellFormed(Parse(b).value) && Encode(Parse(b).value) == b[..Parse(b).len]
    decreases |b|, 0
  {
    match ShapeOf(b[0])
    case Few(n) => BranchIsThere(b, 0, n);
    case Many(width, per) => BranchIsThere(b, width, per * BigEndian(b[1..1 + width]));
    case Scalar(_) =>
    case Blob(width, _) => assert Parse(b).value.body[..width] == b[1..1 + width];
  }

  lemma {:induction false} BranchIsThere(b: Bytes, width: nat, n: nat)
    requires 1 + width <= |b| && ParseBranch(b, width, n).Done?
    ensures var v := ParseBranch(b, width, n).value;
            && AllWellFormed(v.items) && Count(v.items) == n
            && Encode(v) == b[..ParseBranch(b, width, n).len]
    decreases |b|, 0, 0
  {
    AllParsedIsThere(b[1 + width..], n);
  }

  lemma {:induction false} AllParsedIsThere(b: Bytes, n: nat)
    requires ParseAll(b, n).Done?
    ensures var r := ParseAll(b, n);
            AllWellFormed(r.value) && Count(r.value) == n && EncodeAll(r.value) == b[..r.len]
    decreases |b|, n + 1
  {
    if n > 0 {
      ParsedIsThere(b);
      var len := Parse(b).len;
      AllParsedIsThere(b[len..], n - 1);
      Front(b, len, ParseAll(b[len..], n - 1).len);
    }
  }

  /** What is there is parsed, whatever follows it. */
  lemma {:induction false} EncodedIsParsed(v: Value, rest: Bytes)
    requires WellFormed(v)
    ensures Parse(Encode(v) + rest) == Done(v, |Encode(v)|)
    decreases v, 0
  {
    match v
    case Leaf(marker, body) => LeafIsParsed(marker, body, rest);
    case Branch(marker, size, items) =>
      AllEncodedIsParsed(items, rest);
      BranchIsParsed(marker, size, items, rest);
  }

  lemma LeafIsParsed(marker: Byte, body: Bytes, rest: Bytes)
    requires WellFormed(Leaf(marker, body))
    ensures Parse([marker] + body + rest) == Done(Leaf(marker, body), 1 + |body|)
  {
    var b := [marker] + body + rest;
    assert b[0] == marker && b[1..1 + |body|] == body;
    if ShapeOf(marker).Blob? {
      var width := ShapeOf(marker).width;
      assert b[1..1 + width] == body[..width];
    }
  }

  lemma BranchIsParsed(marker: Byte, size: Bytes, items: Values, rest: Bytes)
    requires WellFormed(Branch(marker, size, items))
    requires ParseAll(EncodeAll(items) + rest, Count(items)) == Done(items, |EncodeAll(items)|)
    ensures Parse([marker] + size + EncodeAll(items) + rest) ==
              Done(Branch(marker, size, items), |[marker] + size + EncodeAll(items)|)
  {
    Sections(marker, size, EncodeAll(items), rest);
  }

  lemma Sections(marker: Byte, size: Bytes, body: Bytes, rest: Bytes)
    ensures var b := [marker] + size + body + rest;
            b[0] == marker && b[1..1 + |size|] == size && b[1 + |size|..] == body + rest
  {
  }

  lemma ParseOneMore(b: Bytes, v: Value, len: nat, more: Values, n: nat, moreLen: nat)
    requires Parse(b) == Done(v, len) && ParseAll(b[len..], n) == Done(more, moreLen)
    ensures ParseAll(b, n + 1) == Done(Cons(v, more), len + moreLen)
  {
  }

  lemma After(a: Bytes, b: Bytes, c: Bytes)
    ensures a + b + c == a + (b + c) && (a + b + c)[|a|..] == b + c
  {
  }

  lemma {:induction false} AllEncodedIsParsed(vs: Values, rest: Bytes)
    requires AllWellFormed(vs)
    ensures ParseAll(EncodeAll(vs) + rest, Count(vs)) == Done(vs, |EncodeAll(vs)|)
    decreases vs, 0
  {
    match vs
    case Nil =>
    case Cons(v, more) =>
      EncodedIsParsed(v, EncodeAll(more) + rest);
      After(Encode(v), EncodeAll(more), rest);
      AllEncodedIsParsed(more, rest);
      ParseOneMore(EncodeAll(vs) + rest, v, |Encode(v)|, more, Count(more), |EncodeAll(more)|);
  }

  /** The one marker the specification leaves unused is an error, whatever follows; and there is
      no error without it. */
  lemma UnusedIsBad(x: Bytes)
    ensures Parse([0xc1] + x).Bad?
  {
  }

  lemma {:induction false} BadHasUnused(b: Bytes)
    requires Parse(b).Bad?
    ensures 0xc1 in b
    decreases |b|, 0
  {
    match ShapeOf(b[0])
    case Few(n) => AllBadHaveUnused(b[1..], n);
    case Many(width, per) => AllBadHaveUnused(b[1 + width..], per * BigEndian(b[1..1 + width]));
    case _ =>
  }

  lemma {:induction false} AllBadHaveUnused(b: Bytes, n: nat)
    requires ParseAll(b, n).Bad?
    ensures 0xc1 in b
    decreases |b|, n + 1
  {
    if Parse(b).Bad? {
      BadHasUnused(b);
    } else {
      AllBadHaveUnused(b[Parse(b).len..], n - 1);
    }
  }

  /** Bytes that cannot begin a value cannot be mended by more bytes. */
  lemma {:induction false} BadStaysBad(b: Bytes, x: Bytes)
    requires Parse(b).Bad?
    ensures Parse(b + x).Bad?
    decreases |b|, 0
  {
    match ShapeOf(b[0])
    case Few(n) => BranchStaysBad(b, 0, n, x);
    case Many(width, per) =>
      assert (b + x)[1..1 + width] == b[1..1 + width];
      BranchStaysBad(b, width, per * BigEndian(b[1..1 + width]), x);
    case _ =>
  }

  lemma {:induction false} BranchStaysBad(b: Bytes, width: nat, n: nat, x: Bytes)
    requires 1 + width <= |b| && ParseBranch(b, width, n).Bad?
    ensures ParseBranch(b + x, width, n).Bad?
    decreases |b|, 0, 0
  {
    AllStayBad(b[1 + width..], n, x);
    assert (b + x)[1 + width..] == b[1 + width..] + x;
  }

  lemma {:induction false} AllStayBad(b: Bytes, n: nat, x: Bytes)
    requires ParseAll(b, n).Bad?
    ensures ParseAll(b + x, n).Bad?
    decreases |b|, n + 1
  {
    if Parse(b).Bad? {
      BadStaysBad(b, x);
    } else {
      DoneStaysDone(b, x);
      var len := Parse(b).len;
      assert (b + x)[len..] == b[len..] + x;
      AllStayBad(b[len..], n - 1, x);
    }
  }

  /** A complete value is complete whatever follows it. */
  lemma {:induction false} DoneStaysDone(b: Bytes, x: Bytes)
    requires Parse(b).Done?
    ensures Parse(b + x) == Parse(b)
  {
    ParsedIsThere(b);
    var v, len := Parse(b).value, Parse(b).len;
    assert b + x == Encode(v) + (b[len..] + x);
    EncodedIsParsed(v, b[len..] + x);
  }

  /** A strict prefix of a value is neither an error nor some other value. */
  lemma {:induction false} PrefixNeedsMore(v: Value, p: Bytes)
    requires WellFormed(v) && p < Encode(v)
    ensures Parse(p).NeedMore?
  {
    var x := Encode(v)[|p|..];
    assert p + x == Encode(v) == Encode(v) + [];
    EncodedIsParsed(v, []);
    if Parse(p).Done? {
      DoneStaysDone(p, x);
    } else if Parse(p).Bad? {
      BadStaysBad(p, x);
    }
  }
}
