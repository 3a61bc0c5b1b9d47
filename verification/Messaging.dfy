/** The binary message format: typed values appended to a buffer and read back through a cursor. */
module Messaging {
  import opened Wire
  import Utf8

  const FILE_CHUNK: u32 := 4003
  const PAUSE_FILE_CHUNK_STREAM: u32 := 4004
  const RESUME_FILE_CHUNK_STREAM: u32 := 4005
  const FILE_UPLOAD_CHUNK: u32 := 4501
  const FILE_UPLOAD_COMPLETE: u32 := 4503
  const DB_JOB_SAVE: u32 := 5004

  datatype Priority = Highest | Medium | Lowest

  predicate IsWidth(w: nat) {
    w == 1 || w == 2 || w == 4 || w == 8
  }

  /** What can be pushed: integers of 1, 2, 4 or 8 bytes, booleans, byte strings and UTF-8 strings. */
  datatype Value =
    | UnsignedInt(w: nat, n: nat)
    | SignedInt(w: nat, v: int)
    | Boolean(b: bool)
    | Blob(bytes: Bytes)
    | Text(utf8: Bytes)
  {
    predicate WellFormed() {
      match this
      case UnsignedInt(w, n) => IsWidth(w) && n < Span(w)
      case SignedInt(w, v) => IsWidth(w) && -(Span(w) / 2) <= v < Span(w) / 2
      case Boolean(_) => true
      case Blob(bytes) => |bytes| <= U64_MAX
      case Text(utf8) => |utf8| <= U64_MAX && Utf8.Valid(utf8)
    }

    function KindOf(): Kind {
      match this
      case UnsignedInt(w, _) => UnsignedKind(w)
      case SignedInt(w, _) => SignedKind(w)
      case Boolean(_) => BooleanKind
      case Blob(_) => BlobKind
      case Text(_) => TextKind
    }
  }

  datatype Kind = UnsignedKind(w: nat) | SignedKind(w: nat) | BooleanKind | BlobKind | TextKind {
    predicate WellFormed() {
      (this.UnsignedKind? || this.SignedKind?) ==> IsWidth(this.w)
    }
  }

  datatype Cursor = Cursor(data: Bytes, index: nat) {
    predicate Valid() {
      index <= |data|
    }

    function Remaining(): (r: Bytes)
      requires Valid()
    {
      data[index..]
    }
  }

  // ----- encoding

  function EncodeBlob(bytes: Bytes): Bytes
    requires |bytes| <= U64_MAX
  {
    SpanValues();
    ToLE(|bytes|, 8) + bytes
  }

  function Encode(v: Value): Bytes
    requires v.WellFormed()
  {
    match v
    case UnsignedInt(w, n) => ToLE(n, w)
    case SignedInt(w, v) => ToLE(Unsigned(v, w), w)
    case Boolean(b) => [if b then 1 else 0]
    case Blob(bytes) => EncodeBlob(bytes)
    case Text(utf8) => EncodeBlob(utf8)
  }

  ghost predicate AllWellFormed(vs: seq<Value>) {
    forall i | 0 <= i < |vs| :: vs[i].WellFormed()
  }

  ghost function EncodeAll(vs: seq<Value>): Bytes
    requires AllWellFormed(vs)
  {
    if vs == [] then [] else Encode(vs[0]) + EncodeAll(vs[1..])
  }

  // ----- decoding: every pop is total, an underflow yields a default and leaves the cursor alone

  function PopUnsigned(c: Cursor, w: nat): (r: (nat, Cursor))
    requires c.Valid() && IsWidth(w)
    ensures r.0 < Span(w)
  {
    if c.index + w > |c.data| then (0, c)
    else (FromLE(c.data[c.index..c.index + w]), Cursor(c.data, c.index + w))
  }

  /** A length past the end of the buffer consumes the length field only. */
  function PopBlob(c: Cursor): (r: (Bytes, Cursor))
    requires c.Valid()
  {
    var (len, body) := PopUnsigned(c, 8);
    if len == 0 || len > |body.data| - body.index then ([], body)
    else (body.data[body.index..body.index + len], Cursor(body.data, body.index + len))
  }

  function Pop(c: Cursor, k: Kind): (r: (Value, Cursor))
    requires c.Valid() && k.WellFormed()
  {
    match k
    case UnsignedKind(w) => var (n, d) := PopUnsigned(c, w); (UnsignedInt(w, n), d)
    case SignedKind(w) => var (n, d) := PopUnsigned(c, w); (SignedInt(w, Signed(n, w)), d)
    case BooleanKind => var (n, d) := PopUnsigned(c, 1); (Boolean(n == 1), d)
    case BlobKind => var (bs, d) := PopBlob(c); (Blob(bs), d)
    case TextKind => var (bs, d) := PopBlob(c); (Text(Utf8.Lossy(bs)), d)
  }

  ghost function PopAll(c: Cursor, ks: seq<Kind>): (r: (seq<Value>, Cursor))
    requires c.Valid() && AllKinds(ks)
    decreases |ks|
  {
    if ks == [] then ([], c)
    else
      PopStaysInside(c, ks[0]);
      var (v, d) := Pop(c, ks[0]);
      var (vs, e) := PopAll(d, ks[1..]);
      ([v] + vs, e)
  }

  lemma PopStaysInside(c: Cursor, k: Kind)
    requires c.Valid() && k.WellFormed()
    ensures Pop(c, k).1.data == c.data
    ensures c.index <= Pop(c, k).1.index <= |c.data|
  {
  }

  /** On arbitrary bytes the cursor only moves forward and never leaves the buffer. */
  lemma {:induction false} PopAllStaysInside(c: Cursor, ks: seq<Kind>)
    requires c.Valid() && AllKinds(ks)
    ensures PopAll(c, ks).1.data == c.data
    ensures c.index <= PopAll(c, ks).1.index <= |c.data|
    ensures |PopAll(c, ks).0| == |ks|
    decreases |ks|
  {
    if ks != [] {
      PopStaysInside(c, ks[0]);
      PopAllStaysInside(Pop(c, ks[0]).1, ks[1..]);
    }
  }

  // ----- round trip

  /** The cursor is at the start of `image` inside its buffer. */
  ghost predicate At(c: Cursor, image: Bytes) {
    c.Valid() && image <= c.Remaining()
  }

  function Advance(c: Cursor, n: nat): Cursor {
    Cursor(c.data, c.index + n)
  }

  lemma AtSplit(c: Cursor, head: Bytes, tail: Bytes)
    requires At(c, head + tail)
    ensures At(c, head) && At(Advance(c, |head|), tail)
  {
    var r := c.Remaining();
    assert head == (head + tail)[..|head|] == r[..|head|];
    assert Advance(c, |head|).Remaining() == r[|head|..];
    assert tail == (head + tail)[|head|..] == r[..|head + tail|][|head|..];
  }

  lemma PopUnsignedEncoded(c: Cursor, n: nat, w: nat)
    requires IsWidth(w) && n < Span(w) && At(c, ToLE(n, w))
    ensures PopUnsigned(c, w) == (n, Advance(c, w))
  {
    FromToLE(n, w);
    assert c.data[c.index..c.index + w] == c.Remaining()[..w] == ToLE(n, w);
  }

  lemma PopBlobEncoded(c: Cursor, bytes: Bytes)
    requires |bytes| <= U64_MAX && At(c, EncodeBlob(bytes))
    ensures PopBlob(c) == (bytes, Advance(c, |EncodeBlob(bytes)|))
  {
    SpanValues();
    var image := EncodeBlob(bytes);
    var lenImage := ToLE(|bytes|, 8);
    assert c.Remaining()[..8] == image[..8] == lenImage;
    PopUnsignedEncoded(c, |bytes|, 8);
    var body := Advance(c, 8);
    assert body.data[body.index..body.index + |bytes|] == c.Remaining()[..|image|][8..] == bytes;
  }

  lemma PopEncoded(c: Cursor, v: Value)
    requires v.WellFormed() && At(c, Encode(v))
    ensures Pop(c, v.KindOf()) == (v, Advance(c, |Encode(v)|))
  {
    SpanValues();
    match v
    case UnsignedInt(w, n) => PopUnsignedEncoded(c, n, w);
    case SignedInt(w, v) => PopUnsignedEncoded(c, Unsigned(v, w), w);
    case Boolean(b) =>
      var n := if b then 1 else 0;
      assert ToLE(n, 1) == [n] + ToLE(0, 0) == [n];
      PopUnsignedEncoded(c, n, 1);
    case Blob(bytes) => PopBlobEncoded(c, bytes);
    case Text(utf8) =>
      PopBlobEncoded(c, utf8);
      Utf8.LossyKeepsValid(utf8);
  }

  ghost predicate AllKinds(ks: seq<Kind>) {
    forall i | 0 <= i < |ks| :: ks[i].WellFormed()
  }

  ghost function Kinds(vs: seq<Value>): (ks: seq<Kind>)
    requires AllWellFormed(vs)
    ensures |ks| == |vs| && AllKinds(ks)
  {
    if vs == [] then [] else [vs[0].KindOf()] + Kinds(vs[1..])
  }

  lemma PopAllCons(c: Cursor, ks: seq<Kind>, v: Value, d: Cursor, vs: seq<Value>, e: Cursor)
    requires c.Valid() && d.Valid() && AllKinds(ks) && ks != []
    requires Pop(c, ks[0]) == (v, d) && PopAll(d, ks[1..]) == (vs, e)
    ensures PopAll(c, ks) == ([v] + vs, e)
  {
  }

  lemma {:induction false} PopAllEncoded(c: Cursor, vs: seq<Value>)
    requires AllWellFormed(vs) && At(c, EncodeAll(vs))
    ensures PopAll(c, Kinds(vs)) == (vs, Advance(c, |EncodeAll(vs)|))
    decreases |vs|
  {
    if vs == [] {
      assert PopAll(c, []) == ([], c);
    } else {
      var rest := vs[1..];
      AtSplit(c, Encode(vs[0]), EncodeAll(rest));
      PopEncoded(c, vs[0]);
      var d := Advance(c, |Encode(vs[0])|);
      PopAllEncoded(d, rest);
      var e := Advance(d, |EncodeAll(rest)|);
      assert e == Advance(c, |EncodeAll(vs)|);
      assert Kinds(vs)[1..] == Kinds(rest);
      PopAllCons(c, Kinds(vs), vs[0], d, rest, e);
      assert vs == [vs[0]] + rest;
    }
  }

  // ----- messages: source and id, then the payload

  predicate IsSource(s: Bytes) {
    |s| <= U64_MAX && Utf8.Valid(s)
  }

  function Header(source: Bytes, id: u32): Bytes
    requires |source| <= U64_MAX
  {
    SpanValues();
    EncodeBlob(source) + ToLE(id, 4)
  }

  datatype Parsed = Parsed(source: Bytes, id: u32, payload: Cursor)

  function Parse(data: Bytes): (p: Parsed)
    ensures p.payload.Valid() && p.payload.data == data
  {
    SpanValues();
    var (source, c) := PopBlob(Cursor(data, 0));
    var (id, d) := PopUnsigned(c, 4);
    Parsed(Utf8.Lossy(source), id, d)
  }

  lemma ParseMessage(source: Bytes, id: u32, payload: Bytes)
    requires IsSource(source)
    ensures Parse(Header(source, id) + payload).source == source
    ensures Parse(Header(source, id) + payload).id == id
    ensures Parse(Header(source, id) + payload).payload.index == |Header(source, id)|
    ensures Parse(Header(source, id) + payload).payload.Remaining() == payload
  {
    SpanValues();
    var data := Header(source, id) + payload;
    var c := Cursor(data, 0);
    assert EncodeBlob(source) <= c.Remaining();
    PopBlobEncoded(c, source);
    Utf8.LossyKeepsValid(source);
    var d := Advance(c, |EncodeBlob(source)|);
    assert d.Remaining() == ToLE(id, 4) + payload;
    PopUnsignedEncoded(d, id, 4);
  }

  // ----- which bytes are written and what any bytes are read as

  ghost predicate ImageAt(bs: Bytes, at: nat, n: nat, w: nat) {
    at + w <= |bs| && forall i | 0 <= i < w :: bs[at + i] == (n / Span(i)) % 256
  }

  lemma UnsignedImage(n: nat, w: nat)
    requires n < Span(w)
    ensures ImageAt(ToLE(n, w), 0, n, w)
  {
    forall i: nat | i < w
      ensures ToLE(n, w)[i] == (n / Span(i)) % 256
    {
      ByteAt(n, w, i);
    }
  }

  /** Eight bytes of length, least significant first, then the bytes. */
  lemma BlobLayout(bytes: Bytes)
    requires |bytes| <= U64_MAX
    ensures |EncodeBlob(bytes)| == 8 + |bytes| && EncodeBlob(bytes)[8..] == bytes
    ensures ImageAt(EncodeBlob(bytes), 0, |bytes|, 8)
  {
    SpanValues();
    UnsignedImage(|bytes|, 8);
    var image := ToLE(|bytes|, 8);
    assert forall i | 0 <= i < 8 :: EncodeBlob(bytes)[i] == image[i];
  }

  /** A message starts with its source as a length-prefixed string and its id in four bytes. */
  lemma HeaderLayout(source: Bytes, id: u32)
    requires |source| <= U64_MAX
    ensures |Header(source, id)| == 12 + |source| && Header(source, id)[8..8 + |source|] == source
    ensures ImageAt(Header(source, id), 0, |source|, 8) && ImageAt(Header(source, id), 8 + |source|, id, 4)
  {
    SpanValues();
    BlobLayout(source);
    UnsignedImage(id, 4);
    var h := Header(source, id);
    var image := ToLE(id, 4);
    assert forall i | 0 <= i < 8 + |source| :: h[i] == EncodeBlob(source)[i];
    forall i | 0 <= i < 4
      ensures h[8 + |source| + i] == (id / Span(i)) % 256
    {
      assert h[8 + |source| + i] == image[i] == image[0 + i];
    }
  }

  /** On any bytes: the weighted bytes and a step of `w`, or on underflow 0 and no step. */
  lemma PopUnsignedExactly(c: Cursor, w: nat)
    requires c.Valid() && IsWidth(w)
    ensures PopUnsigned(c, w) ==
            if |c.Remaining()| < w then (0, c) else (Weighted(c.Remaining(), w), Advance(c, w))
  {
    var r := c.Remaining();
    if |r| >= w {
      var field := c.data[c.index..c.index + w];
      assert field == r[..w];
      FromLEIsWeighted(field);
      WeightedPrefix(r, w, w);
    }
  }

  /** On any bytes: what the length announces, or nothing when it is not all there, past the length field. */
  lemma PopBlobExactly(c: Cursor)
    requires c.Valid()
    ensures var r := c.Remaining();
            PopBlob(c) ==
            if |r| < 8 then ([], c)
            else
              var n := Weighted(r, 8);
              if 8 + n <= |r| then (r[8..8 + n], Advance(c, 8 + n)) else ([], Advance(c, 8))
  {
    PopUnsignedExactly(c, 8);
    var r := c.Remaining();
    if |r| >= 8 {
      var n := Weighted(r, 8);
      if 8 + n <= |r| {
        assert c.data[c.index + 8..c.index + 8 + n] == r[8..8 + n];
      }
    }
  }

  /** A boolean is the byte 1 or 0; only a byte 1 reads as true, and a missing byte as false. */
  lemma BooleanExactly(b: bool, c: Cursor)
    requires c.Valid()
    ensures Encode(Boolean(b)) == if b then [1] else [0]
    ensures Pop(c, BooleanKind).0 == Boolean(c.Remaining() != [] && c.Remaining()[0] == 1)
    ensures Pop(c, BooleanKind).1 == if c.Remaining() == [] then c else Advance(c, 1)
  {
    PopUnsignedExactly(c, 1);
    if c.Remaining() != [] {
      assert Weighted(c.Remaining(), 1) == c.Remaining()[0] * Span(0);
    }
  }

  /** Whatever the bytes, popped strings and parsed sources are valid, and a valid string comes back as it is. */
  lemma TextsAreValid(c: Cursor, data: Bytes)
    requires c.Valid()
    ensures Utf8.Valid(Pop(c, TextKind).0.utf8) && Pop(c, TextKind).1 == PopBlob(c).1
    ensures Utf8.Valid(PopBlob(c).0) ==> Pop(c, TextKind).0.utf8 == PopBlob(c).0
    ensures Utf8.Valid(Parse(data).source)
    ensures Utf8.Valid(PopBlob(Cursor(data, 0)).0) ==> Parse(data).source == PopBlob(Cursor(data, 0)).0
  {
    hide PopBlob;
    Utf8.LossyIsValid(PopBlob(c).0);
    Utf8.LossyIdentityIffValid(PopBlob(c).0);
    Utf8.LossyIsValid(PopBlob(Cursor(data, 0)).0);
    Utf8.LossyIdentityIffValid(PopBlob(Cursor(data, 0)).0);
  }

  /** `new`, any typed pushes, `from_data`, the matching pops: nothing is lost and nothing is left over. */
  lemma MessageRoundTrip(source: Bytes, id: u32, vs: seq<Value>)
    requires IsSource(source) && AllWellFormed(vs)
    ensures var data := Header(source, id) + EncodeAll(vs);
            var p := Parse(data);
            p.source == source && p.id == id
            && PopAll(p.payload, Kinds(vs)) == (vs, Cursor(data, |data|))
  {
    var data := Header(source, id) + EncodeAll(vs);
    ParseMessage(source, id, EncodeAll(vs));
    var c := Parse(data).payload;
    assert c.data == data && c.Remaining() == EncodeAll(vs);
    PopAllEncoded(c, vs);
    assert Advance(c, |EncodeAll(vs)|) == Cursor(data, |data|);
  }

  /** Two messages with the same bytes carry the same header, and the same values when read with the same kinds. */
  lemma EncodingIsInjective(source: Bytes, id: u32, vs: seq<Value>, source': Bytes, id': u32, vs': seq<Value>)
    requires IsSource(source) && AllWellFormed(vs) && IsSource(source') && AllWellFormed(vs')
    requires Header(source, id) + EncodeAll(vs) == Header(source', id') + EncodeAll(vs')
    ensures source == source' && id == id'
    ensures Kinds(vs) == Kinds(vs') ==> vs == vs'
  {
    MessageRoundTrip(source, id, vs);
    MessageRoundTrip(source', id', vs');
  }

  class Message {
    var id: u32
    var source: Bytes
    var priority: Priority
    var data: Bytes
    var index: nat

    ghost predicate Valid()
      reads this
    {
      index <= |data|
    }

    ghost function Reader(): Cursor
      reads this
    {
      Cursor(data, index)
    }

    constructor New(id: u32, priority: Priority, source: Bytes)
      requires IsSource(source)
      ensures Valid() && index == 0
      ensures this.id == id && this.priority == priority && this.source == source
      ensures data == Header(source, id)
    {
      this.id := id;
      this.source := source;
      this.priority := priority;
      data := [];
      index := 0;
      new;
      PushBytes(source);
      assert id < Span(4) by { SpanValues(); }
      PushUnsigned(id, 4);
    }

    constructor FromData(data: Bytes)
      ensures Valid() && this.data == data
      ensures Parsed(source, id, Reader()) == Parse(data)
      ensures priority == Lowest
    {
      id := 0;
      source := [];
      priority := Lowest;
      this.data := data;
      index := 0;
      new;
      SpanValues();
      source := PopString();
      var v := PopUnsigned(4);
      id := v;
    }

    /** A second reader over the same bytes, with the cursor where this one has it. */
    constructor Copy(m: Message)
      requires m.Valid()
      ensures Valid() && Reader() == m.Reader()
      ensures id == m.id && source == m.source && priority == m.priority
    {
      id := m.id;
      source := m.source;
      priority := m.priority;
      data := m.data;
      index := m.index;
    }

    /** push_ubyte, push_ushort, push_uint and push_ulong for widths 1, 2, 4 and 8. */
    method PushUnsigned(n: nat, w: nat)
      requires Valid() && IsWidth(w) && n < Span(w)
      modifies this`data
      ensures Valid() && data == old(data) + Encode(UnsignedInt(w, n))
    {
      data := data + ToLE(n, w);
    }

    method PopUnsigned(w: nat) returns (n: nat)
      requires Valid() && IsWidth(w)
      modifies this`index
      ensures Valid() && n < Span(w)
      ensures (UnsignedInt(w, n), Reader()) == old(Pop(Reader(), UnsignedKind(w)))
    {
      if index + w > |data| {
        return 0;
      }
      n := FromLE(data[index..index + w]);
      index := index + w;
    }

    /** push_byte, push_short, push_int and push_long for widths 1, 2, 4 and 8. */
    method PushSigned(v: int, w: nat)
      requires Valid() && IsWidth(w) && -(Span(w) / 2) <= v < Span(w) / 2
      modifies this`data
      ensures Valid() && data == old(data) + Encode(SignedInt(w, v))
    {
      data := data + ToLE(Unsigned(v, w), w);
    }

    method PopSigned(w: nat) returns (v: int)
      requires Valid() && IsWidth(w)
      modifies this`index
      ensures Valid()
      ensures (SignedInt(w, v), Reader()) == old(Pop(Reader(), SignedKind(w)))
    {
      if index + w > |data| {
        return 0;
      }
      v := Signed(FromLE(data[index..index + w]), w);
      index := index + w;
    }

    method PushBool(b: bool)
      requires Valid()
      modifies this`data
      ensures Valid() && data == old(data) + Encode(Boolean(b))
    {
      var n := if b then 1 else 0;
      SpanValues();
      assert ToLE(n, 1) == [n] + ToLE(0, 0) == [n];
      PushUnsigned(n, 1);
    }

    method PopBool() returns (b: bool)
      requires Valid()
      modifies this`index
      ensures Valid()
      ensures (Boolean(b), Reader()) == old(Pop(Reader(), BooleanKind))
    {
      var n := PopUnsigned(1);
      b := n == 1;
    }

    method PushBytes(bytes: Bytes)
      requires Valid() && |bytes| <= U64_MAX
      modifies this`data
      ensures Valid() && data == old(data) + Encode(Blob(bytes))
    {
      SpanValues();
      PushUnsigned(|bytes|, 8);
      data := data + bytes;
    }

    method PopBytes() returns (bytes: Bytes)
      requires Valid()
      modifies this`index
      ensures Valid()
      ensures (Blob(bytes), Reader()) == old(Pop(Reader(), BlobKind))
    {
      var len := PopUnsigned(8);
      if len == 0 {
        return [];
      }
      if len > RemainingLen() {
        return [];
      }
      bytes := data[index..index + len];
      index := index + len;
    }

    method PushString(utf8: Bytes)
      requires Valid() && Text(utf8).WellFormed()
      modifies this`data
      ensures Valid() && data == old(data) + Encode(Text(utf8))
    {
      PushBytes(utf8);
    }

    method PopString() returns (utf8: Bytes)
      requires Valid()
      modifies this`index
      ensures Valid()
      ensures (Text(utf8), Reader()) == old(Pop(Reader(), TextKind))
    {
      var bytes := PopBytes();
      utf8 := Utf8.Lossy(bytes);
    }

    function RemainingLen(): (n: nat)
      requires Valid()
      reads this
      ensures n == |Reader().Remaining()|
    {
      |data| - index
    }

    /** The payload of this message whatever has been popped from it so far. */
    method ClonePayloadBytes() returns (payload: Bytes)
      ensures payload == Parse(data).payload.Remaining()
    {
      var parsed := new Message.FromData(data);
      payload := parsed.data[parsed.index..];
    }

    /** A fresh message is read from its payload; a partly read one goes on where it was. */
    method CloneForPayloadReading() returns (m: Message)
      requires Valid()
      ensures fresh(m) && m.Valid()
      ensures m.Reader() == if index == 0 then Parse(data).payload else Reader()
      ensures if index == 0 then (m.source, m.id, m.priority) == (Parse(data).source, Parse(data).id, Lowest)
              else (m.source, m.id, m.priority) == (source, id, priority)
    {
      if index == 0 {
        m := new Message.FromData(data);
      } else {
        m := new Message.Copy(this);
      }
    }

    method AppendRawBytes(bytes: Bytes)
      requires Valid()
      modifies this`data
      ensures Valid() && data == old(data) + bytes
    {
      data := data + bytes;
    }
  }
}
