/** The hand-written protobuf encoder of the canary and the reader that inverts it.
    Protocol Buffers Encoding, sections "Base 128 Varints" and "Length-Delimited Records". */
module Protobuf {
  import opened Schema

  type byte = b: int | 0 <= b < 256

  // ---- varints ----

  /** Seven bits a byte, lowest first, the high bit set on all but the last. */
  function Varint(n: nat): (v: seq<byte>)
    ensures |v| > 0
  {
    if n < 128 then [n] else [n % 128 + 128] + Varint(n / 128)
  }

  /** The number that starts at `offset` and the offset behind it; None when the data runs out. */
  function ParseVarint(data: seq<byte>, offset: nat): (r: Option<(nat, nat)>)
    ensures r.Some? ==> offset < r.value.1 <= |data|
    decreases |data| - offset
  {
    if offset >= |data| then None
    else if data[offset] < 128 then Some((data[offset], offset + 1))
    else
      match ParseVarint(data, offset + 1)
      case None => None
      case Some((rest, next)) => Some((data[offset] - 128 + 128 * rest, next))
  }

  /** `bytes` stand in the data at `offset`, with anything before and after them. */
  ghost predicate At(data: seq<byte>, offset: nat, bytes: seq<byte>) {
    offset + |bytes| <= |data| && forall i :: 0 <= i < |bytes| ==> data[offset + i] == bytes[i]
  }

  lemma AtSplit(data: seq<byte>, offset: nat, first: seq<byte>, second: seq<byte>)
    requires At(data, offset, first + second)
    ensures At(data, offset, first) && At(data, offset + |first|, second)
  {
    var all := first + second;
    forall i | 0 <= i < |first| ensures data[offset + i] == first[i] {
      assert data[offset + i] == all[i];
    }
    forall i | 0 <= i < |second| ensures data[offset + |first| + i] == second[i] {
      assert data[offset + (|first| + i)] == all[|first| + i];
    }
  }

  /** Wherever an encoded number stands, it reads back to itself and uses exactly its own bytes. */
  lemma {:induction false} VarintRoundTrip(data: seq<byte>, offset: nat, n: nat)
    requires At(data, offset, Varint(n))
    ensures ParseVarint(data, offset) == Some((n, offset + |Varint(n)|))
    decreases n
  {
    assert data[offset + 0] == Varint(n)[0];
    if n >= 128 {
      AtSplit(data, offset, [n % 128 + 128], Varint(n / 128));
      VarintRoundTrip(data, offset + 1, n / 128);
    }
  }

  lemma {:induction false} VarintLength(n: nat)
    ensures n < 128 ==> |Varint(n)| == 1
    ensures n < 16384 ==> |Varint(n)| <= 2
  {
  }

  /** The encoding is the shortest: its last byte is never an empty continuation. */
  lemma {:induction false} VarintIsMinimal(n: nat)
    ensures |Varint(n)| > 1 ==> Varint(n)[|Varint(n)| - 1] != 0
    decreases n
  {
    if n >= 128 {
      VarintIsMinimal(n / 128);
      var rest := Varint(n / 128);
      assert Varint(n)[|Varint(n)| - 1] == rest[|rest| - 1];
    }
  }

  /** The number that bytes stand for in base 128, lowest digit first, whatever their high bits. */
  function Base128(v: seq<byte>): nat {
    if v == [] then 0 else v[0] % 128 + 128 * Base128(v[1..])
  }

  /** The bytes are the base-128 digits, lowest first, and the high bit is set on all but the last. */
  lemma {:induction false} VarintIsBase128(n: nat)
    ensures Base128(Varint(n)) == n
    ensures forall i :: 0 <= i < |Varint(n)| ==> (Varint(n)[i] >= 128 <==> i < |Varint(n)| - 1)
  {
    if n >= 128 {
      VarintIsBase128(n / 128);
      assert Varint(n)[1..] == Varint(n / 128);
    }
  }

  /** The encoder's loop; a negative number is refused. */
  method EncodeVarint(value: int) returns (encoded: Option<seq<byte>>)
    ensures encoded == if value < 0 then None else Some(Varint(value))
  {
    if value < 0 {
      return None;
    }
    var bytes: seq<byte> := [];
    var rest: nat := value;
    while rest > 0x7F
      invariant bytes + Varint(rest) == Varint(value)
    {
      bytes := bytes + [rest % 0x80 + 0x80];
      rest := rest / 0x80;
    }
    bytes := bytes + [rest];
    return Some(bytes);
  }

  /** What is left to read, scaled by what was read before it. */
  function Continue(value: nat, scale: nat, rest: Option<(nat, nat)>): Option<(nat, nat)> {
    match rest
    case None => None
    case Some((more, next)) => Some((value + scale * more, next))
  }

  /** One turn of the reader: take seven bits, or stop. */
  lemma ReaderTurn(data: seq<byte>, offset: nat, value: nat, scale: nat)
    requires offset < |data| && value < scale
    ensures var b := data[offset];
            var taken := value + (b % 128) * scale;
            && value <= taken < scale * 128
            && Continue(value, scale, ParseVarint(data, offset)) ==
               if b < 128 then Some((taken, offset + 1)) else Continue(taken, scale * 128, ParseVarint(data, offset + 1))
  {
    BelowScale(value, scale, data[offset] % 128);
    TurnContinues(data, offset, value, scale);
  }

  lemma TurnContinues(data: seq<byte>, offset: nat, value: nat, scale: nat)
    requires offset < |data|
    ensures var b := data[offset];
            var taken := value + (b % 128) * scale;
            Continue(value, scale, ParseVarint(data, offset)) ==
            if b < 128 then Some((taken, offset + 1)) else Continue(taken, scale * 128, ParseVarint(data, offset + 1))
  {
    var rest := ParseVarint(data, offset + 1);
    if data[offset] >= 128 && rest.Some? { Distribute(value, scale, data[offset] - 128, rest.value.0); }
  }

  /** The reader's loop. The bits it sets are above all bits set before, so setting them is adding them. */
  method ReadVarint(data: seq<byte>, start: nat) returns (r: Option<(nat, nat)>)
    ensures r == ParseVarint(data, start)
  {
    var value: nat, scale: nat, offset: nat := 0, 1, start;
    while offset < |data|
      invariant value < scale
      invariant ParseVarint(data, start) == Continue(value, scale, ParseVarint(data, offset))
      decreases |data| - offset
    {
      var b := data[offset];
      ReaderTurn(data, offset, value, scale);
      value := value + (b % 128) * scale;
      offset := offset + 1;
      if b < 0x80 {
        return Some((value, offset));
      }
      scale := scale * 128;
    }
    return None;
  }

  lemma Distribute(value: nat, scale: nat, low: nat, high: nat)
    ensures value + scale * (low + 128 * high) == (value + low * scale) + (scale * 128) * high
  {
  }

  lemma BelowScale(value: nat, scale: nat, digit: nat)
    requires value < scale && digit < 128
    ensures 0 <= digit * scale && value + digit * scale < scale * 128
  {
  }

  // ---- fields and messages ----

  /** A field as the reader reports it: its number, its wire type and its bytes. */
  datatype Field = Field(number: nat, wire: nat, value: seq<byte>)

  /** The two kinds of field the encoder writes: eight fixed bytes, or a length and that many bytes. */
  predicate Writable(f: Field) {
    (f.wire == 1 && |f.value| == 8) || f.wire == 2
  }

  function Encode(f: Field): seq<byte>
    requires Writable(f)
  {
    Varint(8 * f.number + f.wire) + (if f.wire == 1 then [] else Varint(|f.value|)) + f.value
  }

  function EncodeAll(fs: seq<Field>): seq<byte>
    requires forall i :: 0 <= i < |fs| ==> Writable(fs[i])
  {
    if fs == [] then [] else Encode(fs[0]) + EncodeAll(fs[1..])
  }

  /** A slice that stops at the end of the data instead of failing. */
  function Slice(data: seq<byte>, from: nat, to: nat): seq<byte>
    requires from <= to
  {
    if to <= |data| then data[from..to] else if from <= |data| then data[from..] else []
  }

  /** One field at `offset` and the offset behind it, which may lie beyond the data. */
  function ParseField(data: seq<byte>, offset: nat): (r: Option<(Field, nat)>)
    ensures r.Some? ==> offset < r.value.1
  {
    match ParseVarint(data, offset)
    case None => None
    case Some((tag, next)) =>
      if tag % 8 == 1 then Some((Field(tag / 8, 1, Slice(data, next, next + 8)), next + 8))
      else if tag % 8 == 2 then
        match ParseVarint(data, next)
        case None => None
        case Some((length, start)) => Some((Field(tag / 8, 2, Slice(data, start, start + length)), start + length))
      else None
  }

  function ParseFields(data: seq<byte>, offset: nat): Option<seq<Field>>
    decreases |data| - offset
  {
    if offset >= |data| then Some([])
    else
      match ParseField(data, offset)
      case None => None
      case Some((field, next)) =>
        match ParseFields(data, next)
        case None => None
        case Some(fields) => Some([field] + fields)
  }

  lemma FixedRoundTrip(data: seq<byte>, offset: nat, number: nat, value: seq<byte>)
    requires |value| == 8 && At(data, offset, Varint(8 * number + 1) + value)
    ensures ParseField(data, offset) == Some((Field(number, 1, value), offset + |Varint(8 * number + 1)| + 8))
  {
    AtSplit(data, offset, Varint(8 * number + 1), value);
    VarintRoundTrip(data, offset, 8 * number + 1);
    SliceAt(data, offset + |Varint(8 * number + 1)|, value);
    assert (8 * number + 1) / 8 == number && (8 * number + 1) % 8 == 1;
  }

  lemma SliceAt(data: seq<byte>, offset: nat, bytes: seq<byte>)
    requires At(data, offset, bytes)
    ensures Slice(data, offset, offset + |bytes|) == bytes
  {
  }

  lemma ParseBytes(data: seq<byte>, offset: nat, number: nat, next: nat, length: nat, start: nat)
    requires ParseVarint(data, offset) == Some((8 * number + 2, next)) && ParseVarint(data, next) == Some((length, start))
    ensures ParseField(data, offset) == Some((Field(number, 2, Slice(data, start, start + length)), start + length))
  {
  }

  /** With a tag and a length that read back, whatever their bytes, the whole field does. */
  lemma BytesReadBack(data: seq<byte>, offset: nat, number: nat, tag: seq<byte>, length: seq<byte>, value: seq<byte>)
    requires At(data, offset, tag + (length + value))
    requires At(data, offset, tag) ==> ParseVarint(data, offset) == Some((8 * number + 2, offset + |tag|))
    requires At(data, offset + |tag|, length) ==>
               ParseVarint(data, offset + |tag|) == Some((|value|, offset + |tag| + |length|))
    ensures ParseField(data, offset) == Some((Field(number, 2, value), offset + |tag| + |length| + |value|))
  {
    AtSplit(data, offset, tag, length + value);
    AtSplit(data, offset + |tag|, length, value);
    ParseBytes(data, offset, number, offset + |tag|, |value|, offset + |tag| + |length|);
    SliceAt(data, offset + |tag| + |length|, value);
  }

  lemma VarintIfThere(data: seq<byte>, offset: nat, n: nat)
    ensures At(data, offset, Varint(n)) ==> ParseVarint(data, offset) == Some((n, offset + |Varint(n)|))
  {
    if At(data, offset, Varint(n)) { VarintRoundTrip(data, offset, n); }
  }

  lemma BytesRoundTrip(data: seq<byte>, offset: nat, number: nat, value: seq<byte>)
    requires At(data, offset, Varint(8 * number + 2) + (Varint(|value|) + value))
    ensures ParseField(data, offset) ==
            Some((Field(number, 2, value), offset + |Varint(8 * number + 2)| + |Varint(|value|)| + |value|))
  {
    VarintIfThere(data, offset, 8 * number + 2);
    VarintIfThere(data, offset + |Varint(8 * number + 2)|, |value|);
    BytesReadBack(data, offset, number, Varint(8 * number + 2), Varint(|value|), value);
  }

  /** Wherever an encoded field stands, it reads back to itself and uses exactly its own bytes. */
  lemma FieldRoundTrip(data: seq<byte>, offset: nat, f: Field)
    requires Writable(f) && At(data, offset, Encode(f))
    ensures ParseField(data, offset) == Some((f, offset + |Encode(f)|))
  {
    if f.wire == 1 {
      assert Encode(f) == Varint(8 * f.number + 1) + f.value;
      FixedRoundTrip(data, offset, f.number, f.value);
    } else {
      assert Encode(f) == Varint(8 * f.number + 2) + (Varint(|f.value|) + f.value);
      BytesRoundTrip(data, offset, f.number, f.value);
    }
  }

  lemma ParseNext(data: seq<byte>, offset: nat, field: Field, next: nat, rest: seq<Field>)
    requires ParseField(data, offset) == Some((field, next)) && ParseFields(data, next) == Some(rest) && offset < |data|
    ensures ParseFields(data, offset) == Some([field] + rest)
  {
  }

  lemma FieldBefore(data: seq<byte>, offset: nat, f: Field, rest: seq<Field>)
    requires Writable(f) && At(data, offset, Encode(f)) && ParseFields(data, offset + |Encode(f)|) == Some(rest)
    ensures ParseFields(data, offset) == Some([f] + rest)
  {
    FieldRoundTrip(data, offset, f);
    ParseNext(data, offset, f, offset + |Encode(f)|, rest);
  }

  /** The layout of a short field: a tag byte of number and wire type, the length if it has one, the value. */
  lemma FieldLayout(f: Field)
    requires Writable(f) && f.number < 16 && |f.value| < 128
    ensures Encode(f) == [8 * f.number + f.wire] + (if f.wire == 2 then [|f.value|] else []) + f.value
  {
  }

  /** Any sequence of fields at the end of the data reads back to itself. */
  lemma {:induction false} FieldsRoundTrip(data: seq<byte>, offset: nat, fs: seq<Field>)
    requires forall i :: 0 <= i < |fs| ==> Writable(fs[i])
    requires At(data, offset, EncodeAll(fs)) && offset + |EncodeAll(fs)| == |data|
    ensures ParseFields(data, offset) == Some(fs)
    decreases |fs|
  {
    if fs != [] {
      AtSplit(data, offset, Encode(fs[0]), EncodeAll(fs[1..]));
      FieldsRoundTrip(data, offset + |Encode(fs[0])|, fs[1..]);
      FieldBefore(data, offset, fs[0], fs[1..]);
      assert [fs[0]] + fs[1..] == fs;
    }
  }

  /** A message reads back to the fields it was written from. */
  lemma MessageRoundTrip(fs: seq<Field>)
    requires forall i :: 0 <= i < |fs| ==> Writable(fs[i])
    ensures ParseFields(EncodeAll(fs), 0) == Some(fs)
  {
    FieldsRoundTrip(EncodeAll(fs), 0, fs);
  }

  /** No two field sequences share an encoding. */
  lemma EncodingIsInjective(fs: seq<Field>, gs: seq<Field>)
    requires forall i :: 0 <= i < |fs| ==> Writable(fs[i])
    requires forall i :: 0 <= i < |gs| ==> Writable(gs[i])
    requires EncodeAll(fs) == EncodeAll(gs)
    ensures fs == gs
  {
    MessageRoundTrip(fs);
    MessageRoundTrip(gs);
  }

  /** The values of one field number, in order, as the reader's dictionary keeps them. */
  function ValuesOf(fs: seq<Field>, number: nat): seq<(nat, seq<byte>)> {
    if fs == [] then []
    else
      var last := fs[|fs| - 1];
      ValuesOf(fs[..|fs| - 1], number) + if last.number == number then [(last.wire, last.value)] else []
  }

  /** The dictionary holds, for each number that occurs, exactly its values in order. */
  ghost predicate Groups(m: map<nat, seq<(nat, seq<byte>)>>, fs: seq<Field>) {
    forall number: nat :: ValuesOf(fs, number) == if number in m then m[number] else []
  }

  /** What was read so far, followed by what the rest reads to. */
  function Then(read: seq<Field>, rest: Option<seq<Field>>): Option<seq<Field>> {
    match rest
    case None => None
    case Some(more) => Some(read + more)
  }

  lemma ThenNext(data: seq<byte>, offset: nat, read: seq<Field>)
    requires offset < |data| && ParseField(data, offset).Some?
    ensures var (field, next) := ParseField(data, offset).value;
            Then(read, ParseFields(data, offset)) == Then(read + [field], ParseFields(data, next))
  {
    var (field, next) := ParseField(data, offset).value;
    var rest := ParseFields(data, next);
    if rest.Some? { assert read + ([field] + rest.value) == read + [field] + rest.value; }
  }

  lemma GroupsNext(m: map<nat, seq<(nat, seq<byte>)>>, fs: seq<Field>, f: Field)
    requires Groups(m, fs)
    ensures Groups(m[f.number := (if f.number in m then m[f.number] else []) + [(f.wire, f.value)]], fs + [f])
  {
  }

  /** The next field, as the loop reads it. */
  method ReadField(data: seq<byte>, offset: nat) returns (r: Option<(Field, nat)>)
    ensures r == ParseField(data, offset)
  {
    var tag := ReadVarint(data, offset);
    if tag.None? {
      return None;
    }
    var number, wire := tag.value.0 / 8, tag.value.0 % 8;
    if wire == 1 {
      return Some((Field(number, wire, Slice(data, tag.value.1, tag.value.1 + 8)), tag.value.1 + 8));
    } else if wire == 2 {
      var length := ReadVarint(data, tag.value.1);
      if length.None? {
        return None;
      }
      var end := length.value.1 + length.value.0;
      return Some((Field(number, wire, Slice(data, length.value.1, end)), end));
    }
    return None;
  }

  /** The reader's loop over a message. */
  method ReadMessage(data: seq<byte>) returns (r: Option<map<nat, seq<(nat, seq<byte>)>>>)
    ensures r.None? <==> ParseFields(data, 0).None?
    ensures r.Some? ==> Groups(r.value, ParseFields(data, 0).value)
  {
    var fields: map<nat, seq<(nat, seq<byte>)>> := map[];
    var offset: nat := 0;
    ghost var read: seq<Field> := [];
    assert ParseFields(data, 0).Some? ==> [] + ParseFields(data, 0).value == ParseFields(data, 0).value;
    while offset < |data|
      invariant Groups(fields, read)
      invariant ParseFields(data, 0) == Then(read, ParseFields(data, offset))
      decreases |data| - offset
    {
      var next := ReadField(data, offset);
      if next.None? {
        return None;
      }
      var f := next.value.0;
      ThenNext(data, offset, read);
      GroupsNext(fields, read, f);
      fields := fields[f.number := (if f.number in fields then fields[f.number] else []) + [(f.wire, f.value)]];
      read := read + [f];
      offset := next.value.1;
    }
    assert read + [] == read;
    return Some(fields);
  }
}
