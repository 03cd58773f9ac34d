/** Reading Soroban `ScVal`s from XDR with a cursor, and the encoding of RFC 4506 that it undoes. */
module Xdr {
  import opened Prelude
  import opened Numerals

  /** What the reader returns: the parts of a JSON value. Text is kept as its bytes. */
  datatype Json = Bool(b: bool) | Null | Number(n: int) | Text(bytes: seq<byte>) | HexText(bytes: seq<byte>)
    | Address(kind: nat, key: seq<byte>)

  /** A value together with the cursor behind it, or an error. */
  datatype Read<+T> = Ok(value: T, cursor: nat) | Err(error: string)

  const TWO_TO_31: int := 0x8000_0000
  const TWO_TO_32: int := 0x1_0000_0000
  const TWO_TO_63: int := 0x8000_0000_0000_0000

  // ---- The readers, as functions of the cursor --------------------------------------------

  function BytesAt(bytes: seq<byte>, cursor: nat, length: nat): (r: Read<seq<byte>>)
    ensures r.Ok? <==> cursor + length <= |bytes|
    ensures r.Ok? ==> r.cursor == cursor + length && |r.value| == length
  {
    if cursor + length <= |bytes| then Ok(bytes[cursor..cursor + length], cursor + length) else Err("truncated bytes")
  }

  /** A big-endian unsigned integer of `width` bytes. */
  function UintAt(bytes: seq<byte>, cursor: nat, width: nat): (r: Read<nat>)
    ensures r.Ok? <==> cursor + width <= |bytes|
    ensures r.Ok? ==> r.cursor == cursor + width
  {
    if cursor + width <= |bytes| then Ok(Val(256, bytes[cursor..cursor + width]), cursor + width)
    else Err(if width == 4 then "truncated u32" else "truncated u64")
  }

  function Padding(length: nat): (p: nat)
    ensures p < 4 && (length + p) % 4 == 0
  {
    (4 - length % 4) % 4
  }

  /** A length, that many bytes, and padding to a multiple of four. */
  function OpaqueAt(bytes: seq<byte>, cursor: nat): (r: Read<seq<byte>>)
    ensures r.Ok? ==> cursor + 4 + |r.value| <= r.cursor <= |bytes|
  {
    match UintAt(bytes, cursor, 4)
    case Err(e) => Err(e)
    case Ok(length, c1) =>
      match BytesAt(bytes, c1, length)
      case Err(e) => Err(e)
      case Ok(value, c2) =>
        match BytesAt(bytes, c2, Padding(length))
        case Err(e) => Err(e)
        case Ok(_, c3) => Ok(value, c3)
  }

  /** Two's complement. */
  function Signed(n: nat, half: int): (i: int) { if n < half then n else n - 2 * half }

  function Mapped<T>(r: Read<T>, f: T -> Json): (j: Read<Json>) {
    match r
    case Ok(value, cursor) => Ok(f(value), cursor)
    case Err(e) => Err(e)
  }

  /** The `match` of `decode_scval`: what stands behind the four bytes of the kind. */
  function PayloadAt(isUtf8: seq<byte> -> bool, kind: nat, bytes: seq<byte>): (r: Read<Json>)
    requires |bytes| >= 4
    ensures r.Ok? ==> 4 <= r.cursor <= |bytes|
  {
    if kind == 0 then Mapped(UintAt(bytes, 4, 4), (n: nat) => Bool(n != 0))
    else if kind == 1 then Ok(Null, 4)
    else if kind == 3 then Mapped(UintAt(bytes, 4, 4), (n: nat) => Number(n))
    else if kind == 4 then Mapped(UintAt(bytes, 4, 4), (n: nat) => Number(Signed(n, TWO_TO_31)))
    else if kind == 5 || kind == 7 || kind == 8 then Mapped(UintAt(bytes, 4, 8), (n: nat) => Number(n))
    else if kind == 6 then Mapped(UintAt(bytes, 4, 8), (n: nat) => Number(Signed(n, TWO_TO_63)))
    else if kind == 13 then Mapped(OpaqueAt(bytes, 4), (raw: seq<byte>) => HexText(raw))
    else if kind == 14 || kind == 15 then
      var raw := OpaqueAt(bytes, 4);
      if raw.Ok? && !isUtf8(raw.value) then Err("invalid ScVal text")
      else Mapped(raw, (raw: seq<byte>) => Text(raw))
    else if kind == 18 then
      match UintAt(bytes, 4, 4)
      case Err(e) => Err(e)
      case Ok(addressKind, c) => Mapped(BytesAt(bytes, c, 32), (key: seq<byte>) => Address(addressKind, key))
    else Err("unsupported ScVal type")
  }

  /** `decode_scval`, with the cursor it ends at; `isUtf8` is the text check. */
  function Decoded(isUtf8: seq<byte> -> bool, bytes: seq<byte>): (r: Read<Json>)
    ensures r.Ok? ==> 4 <= r.cursor <= |bytes|
  {
    if |bytes| < 4 then Err("missing ScVal type") else PayloadAt(isUtf8, Val(256, bytes[0..4]), bytes)
  }

  // ---- The readers as they run ------------------------------------------------------------

  /** The bytes and the `&mut usize` that the readers advance; a failed read leaves it where it was. */
  class Reader {
    const bytes: seq<byte>
    var cursor: nat

    constructor (bytes: seq<byte>, cursor: nat)
      ensures this.bytes == bytes && this.cursor == cursor
    {
      this.bytes, this.cursor := bytes, cursor;
    }

    method ReadUint(width: nat) returns (r: Read<nat>)
      modifies this
      ensures r == UintAt(bytes, old(cursor), width)
      ensures cursor == if r.Ok? then old(cursor) + width else old(cursor)
    {
      var end := cursor + width;
      if end > |bytes| { return Err(if width == 4 then "truncated u32" else "truncated u64"); }
      var value: nat := 0;
      for i := 0 to width
        invariant value == Val(256, bytes[cursor..cursor + i]) && cursor == old(cursor)
      {
        assert bytes[cursor..cursor + i + 1][..i] == bytes[cursor..cursor + i];
        value := value * 256 + bytes[cursor + i];
      }
      cursor := end;
      r := Ok(value, end);
    }

    method ReadBytes(length: nat) returns (r: Read<seq<byte>>)
      modifies this
      ensures r == BytesAt(bytes, old(cursor), length)
      ensures cursor == if r.Ok? then old(cursor) + length else old(cursor)
    {
      if cursor + length > |bytes| { return Err("truncated bytes"); }
      var value := bytes[cursor..cursor + length];
      cursor := cursor + length;
      r := Ok(value, cursor);
    }

    method ReadOpaque() returns (r: Read<seq<byte>>)
      modifies this
      ensures r == OpaqueAt(bytes, old(cursor))
      ensures r.Ok? ==> cursor == r.cursor
      ensures old(cursor) <= |bytes| ==> old(cursor) <= cursor <= |bytes|
    {
      var length := ReadUint(4);
      if length.Err? { return Err(length.error); }
      var value := ReadBytes(length.value);
      if value.Err? { return Err(value.error); }
      var padding := ReadBytes((4 - length.value % 4) % 4);
      if padding.Err? { return Err(padding.error); }
      r := Ok(value.value, cursor);
    }
  }

  /** `decode_scval`: the kind, then the readers it asks for on one cursor. */
  method DecodeScVal(isUtf8: seq<byte> -> bool, bytes: seq<byte>) returns (r: Read<Json>)
    ensures r == Decoded(isUtf8, bytes)
  {
    if |bytes| < 4 { return Err("missing ScVal type"); }
    var kind := Val(256, bytes[0..4]);
    var reader := new Reader(bytes, 4);
    if kind == 0 {
      var n := reader.ReadUint(4);
      r := Mapped(n, (n: nat) => Bool(n != 0));
    } else if kind == 1 {
      r := Ok(Null, 4);
    } else if kind == 3 || kind == 4 {
      var n := reader.ReadUint(4);
      r := Mapped(n, (n: nat) => Number(if kind == 3 then n else Signed(n, TWO_TO_31)));
    } else if kind == 5 || kind == 7 || kind == 8 {
      var n := reader.ReadUint(8);
      r := Mapped(n, (n: nat) => Number(n));
    } else if kind == 6 {
      var n := reader.ReadUint(8);
      r := Mapped(n, (n: nat) => Number(Signed(n, TWO_TO_63)));
    } else if 13 <= kind <= 15 {
      var raw := reader.ReadOpaque();
      if raw.Err? { return Err(raw.error); }
      if kind == 15 || kind == 14 {
        if !isUtf8(raw.value) { return Err("invalid ScVal text"); }
        r := Ok(Text(raw.value), reader.cursor);
      } else {
        r := Ok(HexText(raw.value), reader.cursor);
      }
    } else if kind == 18 {
      var addressKind := reader.ReadUint(4);
      if addressKind.Err? { return Err(addressKind.error); }
      var key := reader.ReadBytes(32);
      if key.Err? { return Err(key.error); }
      r := Ok(Address(addressKind.value, key.value), reader.cursor);
    } else {
      r := Err("unsupported ScVal type");
    }
  }

  // ---- The encoding -----------------------------------------------------------------------

  datatype ScVal =
    | ScBool(b: bool) | ScVoid
    | ScU32(u: nat) | ScI32(i: int) | ScU64(u: nat) | ScI64(i: int) | ScTimepoint(u: nat) | ScDuration(u: nat)
    | ScBytes(bytes: seq<byte>) | ScString(bytes: seq<byte>) | ScSymbol(bytes: seq<byte>)

  /** The value fits its type; texts are UTF-8. */
  predicate WellTyped(isUtf8: seq<byte> -> bool, v: ScVal) {
    match v
    case ScU32(u) => u < TWO_TO_32
    case ScI32(i) => -TWO_TO_31 <= i < TWO_TO_31
    case ScU64(u) => u < TWO_TO_64
    case ScTimepoint(u) => u < TWO_TO_64
    case ScDuration(u) => u < TWO_TO_64
    case ScI64(i) => -TWO_TO_63 <= i < TWO_TO_63
    case ScBytes(bytes) => |bytes| < TWO_TO_32
    case ScString(bytes) => |bytes| < TWO_TO_32 && isUtf8(bytes)
    case ScSymbol(bytes) => |bytes| < TWO_TO_32 && isUtf8(bytes)
    case _ => true
  }

  function Kind(v: ScVal): (k: nat)
    ensures k < 16
  {
    match v
    case ScBool(_) => 0
    case ScVoid => 1
    case ScU32(_) => 3
    case ScI32(_) => 4
    case ScU64(_) => 5
    case ScI64(_) => 6
    case ScTimepoint(_) => 7
    case ScDuration(_) => 8
    case ScBytes(_) => 13
    case ScString(_) => 14
    case ScSymbol(_) => 15
  }

  /** What a value becomes. */
  function JsonOf(v: ScVal): (j: Json) {
    match v
    case ScBool(b) => Bool(b)
    case ScVoid => Null
    case ScU32(u) => Number(u)
    case ScI32(i) => Number(i)
    case ScU64(u) => Number(u)
    case ScI64(i) => Number(i)
    case ScTimepoint(u) => Number(u)
    case ScDuration(u) => Number(u)
    case ScBytes(bytes) => HexText(bytes)
    case ScString(bytes) => Text(bytes)
    case ScSymbol(bytes) => Text(bytes)
  }

  function EncodeOpaque(bytes: seq<byte>): (r: seq<byte>) {
    Fixed(256, 4, |bytes|) + bytes + ZeroDigits(Padding(|bytes|))
  }

  function Unsigned(i: int, half: int): (n: int) { if i < 0 then i + 2 * half else i }

  /** What stands behind the four bytes of the kind. */
  function EncodePayload(isUtf8: seq<byte> -> bool, v: ScVal): (r: seq<byte>)
    requires WellTyped(isUtf8, v)
  {
    match v
    case ScBool(b) => Fixed(256, 4, if b then 1 else 0)
    case ScVoid => []
    case ScU32(u) => Fixed(256, 4, u)
    case ScI32(i) => Fixed(256, 4, Unsigned(i, TWO_TO_31))
    case ScU64(u) => Fixed(256, 8, u)
    case ScI64(i) => Fixed(256, 8, Unsigned(i, TWO_TO_63))
    case ScTimepoint(u) => Fixed(256, 8, u)
    case ScDuration(u) => Fixed(256, 8, u)
    case ScBytes(bytes) => EncodeOpaque(bytes)
    case ScString(bytes) => EncodeOpaque(bytes)
    case ScSymbol(bytes) => EncodeOpaque(bytes)
  }

  function Encode(isUtf8: seq<byte> -> bool, v: ScVal): (r: seq<byte>)
    requires WellTyped(isUtf8, v)
  {
    Fixed(256, 4, Kind(v)) + EncodePayload(isUtf8, v)
  }

  lemma Widths()
    ensures Pow(256, 4) == TWO_TO_32 && Pow(256, 8) == TWO_TO_64
  {}

  /** A fixed-width integer reads back wherever it stands. */
  lemma UintRoundTrip(before: seq<byte>, width: nat, n: nat, after: seq<byte>)
    requires n < Pow(256, width)
    ensures UintAt(before + Fixed(256, width, n) + after, |before|, width) == Ok(n, |before| + width)
  {
    var all := before + Fixed(256, width, n) + after;
    assert all[|before|..|before| + width] == Fixed(256, width, n);
    ValOfFixed(256, width, n);
  }

  /** Opaque data reads back wherever it stands, padding included. */
  lemma OpaqueRoundTrip(before: seq<byte>, bytes: seq<byte>, after: seq<byte>)
    requires |bytes| < TWO_TO_32
    ensures OpaqueAt(before + EncodeOpaque(bytes) + after, |before|) == Ok(bytes, |before| + |EncodeOpaque(bytes)|)
  {
    var len, pad := Fixed(256, 4, |bytes|), ZeroDigits(Padding(|bytes|));
    var all := before + EncodeOpaque(bytes) + after;
    Widths();
    assert all == before + len + (bytes + pad + after);
    UintRoundTrip(before, 4, |bytes|, bytes + pad + after);
    assert all[|before| + 4..|before| + 4 + |bytes|] == bytes;
  }

  lemma KindReads(k: nat, rest: seq<byte>, all: seq<byte>)
    requires k < 256 && all == Fixed(256, 4, k) + rest
    ensures |all| >= 4 && Val(256, all[0..4]) == k
  {
    Widths();
    assert all[0..4] == Fixed(256, 4, k);
    ValOfFixed(256, 4, k);
  }

  lemma NumberPayload(isUtf8: seq<byte> -> bool, v: ScVal, kind: seq<byte>, rest: seq<byte>)
    requires WellTyped(isUtf8, v) && |kind| == 4 && !v.ScBytes? && !v.ScString? && !v.ScSymbol?
    ensures PayloadAt(isUtf8, Kind(v), kind + EncodePayload(isUtf8, v) + rest) ==
            Ok(JsonOf(v), 4 + |EncodePayload(isUtf8, v)|)
  {
    Widths();
    match v
    case ScBool(b) => UintRoundTrip(kind, 4, if b then 1 else 0, rest);
    case ScVoid =>
    case ScU32(u) => UintRoundTrip(kind, 4, u, rest);
    case ScI32(i) => UintRoundTrip(kind, 4, Unsigned(i, TWO_TO_31), rest);
    case ScU64(u) => UintRoundTrip(kind, 8, u, rest);
    case ScI64(i) => UintRoundTrip(kind, 8, Unsigned(i, TWO_TO_63), rest);
    case ScTimepoint(u) => UintRoundTrip(kind, 8, u, rest);
    case ScDuration(u) => UintRoundTrip(kind, 8, u, rest);
  }

  lemma OpaquePayload(isUtf8: seq<byte> -> bool, v: ScVal, kind: seq<byte>, rest: seq<byte>)
    requires WellTyped(isUtf8, v) && |kind| == 4 && (v.ScBytes? || v.ScString? || v.ScSymbol?)
    ensures PayloadAt(isUtf8, Kind(v), kind + EncodePayload(isUtf8, v) + rest) ==
            Ok(JsonOf(v), 4 + |EncodePayload(isUtf8, v)|)
  {
    OpaqueRoundTrip(kind, v.bytes, rest);
  }

  /**
   Round trip: every well-typed value, whatever follows it, is decoded from its encoding as itself, with
   the cursor just behind it, padding included.
   */
  lemma DecodeEncode(isUtf8: seq<byte> -> bool, v: ScVal, rest: seq<byte>)
    requires WellTyped(isUtf8, v)
    ensures Decoded(isUtf8, Encode(isUtf8, v) + rest) == Ok(JsonOf(v), |Encode(isUtf8, v)|)
  {
    var kind, payload := Fixed(256, 4, Kind(v)), EncodePayload(isUtf8, v);
    assert kind + payload + rest == kind + (payload + rest);
    KindReads(Kind(v), payload + rest, kind + payload + rest);
    if v.ScBytes? || v.ScString? || v.ScSymbol? {
      OpaquePayload(isUtf8, v, kind, rest);
    } else {
      NumberPayload(isUtf8, v, kind, rest);
    }
  }

  /** What was decoded from some bytes is decoded from any continuation of them, with the same cursor. */
  lemma DecodedLocally(isUtf8: seq<byte> -> bool, bytes: seq<byte>, rest: seq<byte>)
    requires Decoded(isUtf8, bytes).Ok?
    ensures Decoded(isUtf8, bytes + rest) == Decoded(isUtf8, bytes)
  {
    var all := bytes + rest;
    assert all[0..4] == bytes[0..4];
    UintLocally(bytes, rest, 4, 4);
    UintLocally(bytes, rest, 4, 8);
    OpaqueLocally(bytes, rest, 4);
    BytesLocally(bytes, rest, 8, 32);
  }

  lemma UintLocally(bytes: seq<byte>, rest: seq<byte>, cursor: nat, width: nat)
    ensures UintAt(bytes, cursor, width).Ok? ==> UintAt(bytes + rest, cursor, width) == UintAt(bytes, cursor, width)
  {
    if cursor + width <= |bytes| {
      assert (bytes + rest)[cursor..cursor + width] == bytes[cursor..cursor + width];
    }
  }

  lemma BytesLocally(bytes: seq<byte>, rest: seq<byte>, cursor: nat, length: nat)
    ensures BytesAt(bytes, cursor, length).Ok? ==>
              BytesAt(bytes + rest, cursor, length) == BytesAt(bytes, cursor, length)
  {
    if cursor + length <= |bytes| {
      assert (bytes + rest)[cursor..cursor + length] == bytes[cursor..cursor + length];
    }
  }

  lemma OpaqueLocally(bytes: seq<byte>, rest: seq<byte>, cursor: nat)
    ensures OpaqueAt(bytes, cursor).Ok? ==> OpaqueAt(bytes + rest, cursor) == OpaqueAt(bytes, cursor)
  {
    UintLocally(bytes, rest, cursor, 4);
    if OpaqueAt(bytes, cursor).Ok? {
      var length := UintAt(bytes, cursor, 4).value;
      BytesLocally(bytes, rest, cursor + 4, length);
      BytesLocally(bytes, rest, cursor + 4 + length, Padding(length));
    }
  }

  /** Bytes that decode with nothing left over cannot be shortened. */
  lemma NothingToSpare(isUtf8: seq<byte> -> bool, bytes: seq<byte>, n: nat)
    requires n < |bytes| && Decoded(isUtf8, bytes).Ok? && Decoded(isUtf8, bytes).cursor == |bytes|
    ensures Decoded(isUtf8, bytes[..n]).Err?
  {
    var prefix := bytes[..n];
    assert prefix + bytes[n..] == bytes;
    if Decoded(isUtf8, prefix).Ok? { DecodedLocally(isUtf8, prefix, bytes[n..]); }
  }

  /** Truncation is always an error: no proper prefix of an encoding decodes to anything. */
  lemma TruncationFails(isUtf8: seq<byte> -> bool, v: ScVal, n: nat)
    requires WellTyped(isUtf8, v) && n < |Encode(isUtf8, v)|
    ensures Decoded(isUtf8, Encode(isUtf8, v)[..n]).Err?
  {
    var all := Encode(isUtf8, v);
    assert all + [] == all;
    DecodeEncode(isUtf8, v, []);
    NothingToSpare(isUtf8, all, n);
  }

  // ---- Code by code -----------------------------------------------------------------------

  /** The discriminants of `SCValType` in the Stellar XDR, as the first four bytes of an encoding. */
  lemma EncodingStartsWithItsKind(isUtf8: seq<byte> -> bool, v: ScVal)
    requires WellTyped(isUtf8, v)
    ensures |Encode(isUtf8, v)| >= 4
    ensures var kind := Val(256, Encode(isUtf8, v)[..4]);
            && (v.ScBool? <==> kind == 0) && (v.ScVoid? <==> kind == 1)
            && (v.ScU32? <==> kind == 3) && (v.ScI32? <==> kind == 4)
            && (v.ScU64? <==> kind == 5) && (v.ScI64? <==> kind == 6)
            && (v.ScTimepoint? <==> kind == 7) && (v.ScDuration? <==> kind == 8)
            && (v.ScBytes? <==> kind == 13) && (v.ScString? <==> kind == 14) && (v.ScSymbol? <==> kind == 15)
  {
    assert Encode(isUtf8, v)[..4] == Fixed(256, 4, Kind(v));
    Widths();
    ValOfFixed(256, 4, Kind(v));
  }

  /** Any other discriminant but that of an address is an error. */
  lemma UnknownKindsFail(isUtf8: seq<byte> -> bool, bytes: seq<byte>)
    requires |bytes| >= 4
    ensures var kind := Val(256, bytes[0..4]);
            kind == 2 || 9 <= kind <= 12 || kind == 16 || kind == 17 || kind > 18 ==> Decoded(isUtf8, bytes).Err?
  {}

  /** The signed readings are the unsigned ones modulo 2^32 and 2^64, in two's complement range. */
  lemma TwosComplement(n: nat)
    ensures n < 0x1_0000_0000 ==>
              var i := Signed(n, TWO_TO_31);
              -0x8000_0000 <= i < 0x8000_0000 && (i == n || i == n - 0x1_0000_0000)
    ensures n < 0x1_0000_0000_0000_0000 ==>
              var i := Signed(n, TWO_TO_63);
              -0x8000_0000_0000_0000 <= i < 0x8000_0000_0000_0000 && (i == n || i == n - 0x1_0000_0000_0000_0000)
  {}

  /**
   Integers are their bytes, most significant first, read in two's complement where they are signed; a bool is
   true unless all zero.
   */
  lemma IntegersAreBigEndian(isUtf8: seq<byte> -> bool, bytes: seq<byte>)
    requires |bytes| >= 8
    ensures var kind, n := Val(256, bytes[0..4]), Val(256, bytes[4..8]);
            && (kind == 0 ==> Decoded(isUtf8, bytes) == Ok(Bool(n != 0), 8))
            && (kind == 3 ==> Decoded(isUtf8, bytes) == Ok(Number(n), 8))
            && (kind == 4 ==> Decoded(isUtf8, bytes) == Ok(Number(if n < 0x8000_0000 then n else n - 0x1_0000_0000), 8))
    ensures |bytes| >= 12 ==>
              var kind, n := Val(256, bytes[0..4]), Val(256, bytes[4..12]);
              && (kind in {5, 7, 8} ==> Decoded(isUtf8, bytes) == Ok(Number(n), 12))
              && (kind == 6 ==>
                    Decoded(isUtf8, bytes) ==
                    Ok(Number(if n < 0x8000_0000_0000_0000 then n else n - 0x1_0000_0000_0000_0000), 12))
  {}

  /** Opaque data is copied, and read to the end of its padding; text has to be UTF-8, and bytes are written as hex. */
  lemma OpaquesAreCopied(isUtf8: seq<byte> -> bool, bytes: seq<byte>)
    requires |bytes| >= 8 && Val(256, bytes[0..4]) in {13, 14, 15}
    ensures var kind, len := Val(256, bytes[0..4]), Val(256, bytes[4..8]);
            var end := 8 + len + (if len % 4 == 0 then 0 else 4 - len % 4);
            if end > |bytes| then Decoded(isUtf8, bytes).Err?
            else if kind == 13 then Decoded(isUtf8, bytes) == Ok(HexText(bytes[8..8 + len]), end)
            else if isUtf8(bytes[8..8 + len]) then Decoded(isUtf8, bytes) == Ok(Text(bytes[8..8 + len]), end)
            else Decoded(isUtf8, bytes).Err?
  {}
}
