/** The cache-key encoder of examples/traits_tag_dispatch/main.cpp: when its keys are unambiguous, and its
    hexadecimal form. Integers are encoded in the machine's byte order, here little-endian. */
module CacheKeys {
  import opened Bytes
  import opened Division
  import opened Options
  import opened Sequences

  type ByteString = seq<Byte>

  /** The parts `append_part` accepts: string-like, fixed-width integer, and `UserKey`. */
  datatype Part =
    | Text(text: ByteString)
    | Fixed(width: nat, value: nat)
    | Key(userId: nat, region: ByteString)

  /** The C++ type of a part, which selects its tag. */
  datatype Kind = TextKind | FixedKind(width: nat) | KeyKind

  function KindOf(part: Part): Kind {
    match part
    case Text(_) => TextKind
    case Fixed(width, _) => FixedKind(width)
    case Key(_, _) => KeyKind
  }

  function Schema(parts: seq<Part>): seq<Kind> {
    seq(|parts|, i requires 0 <= i < |parts| => KindOf(parts[i]))
  }

  const USER_KEY_TAG: Byte := 0xA5

  // ---------- Integers as bytes ----------

  function Pow256(n: nat): nat {
    if n == 0 then 1 else 256 * Pow256(n - 1)
  }

  function LittleEndian(value: nat, width: nat): (bytes: ByteString)
    ensures |bytes| == width
  {
    if width == 0 then [] else [value % 256] + LittleEndian(value / 256, width - 1)
  }

  function FromLittleEndian(bytes: ByteString): nat {
    if bytes == [] then 0 else bytes[0] + 256 * FromLittleEndian(bytes[1..])
  }

  lemma {:induction false} LittleEndianRoundTrip(value: nat, width: nat)
    requires value < Pow256(width)
    ensures FromLittleEndian(LittleEndian(value, width)) == value
  {
    if width > 0 {
      LittleEndianRoundTrip(value / 256, width - 1);
      assert LittleEndian(value, width)[1..] == LittleEndian(value / 256, width - 1);
    }
  }

  /** Least significant byte first. */
  lemma {:induction false} LittleEndianByte(value: nat, width: nat, i: nat)
    requires i < width
    ensures Pow256(i) > 0 && LittleEndian(value, width)[i] == value / Pow256(i) % 256
    decreases width
  {
    if i > 0 {
      LittleEndianByte(value / 256, width - 1, i - 1);
      QuotientOfQuotient(value, 256, Pow256(i - 1));
    }
  }

  /** A `std::uint64_t` fits 8 bytes. */
  lemma EightBytes()
    ensures Pow256(8) == 0x1_0000_0000_0000_0000
  {
    assert Pow256(4) == 0x1_0000_0000;
    assert Pow256(8) == 256 * (256 * (256 * (256 * Pow256(4))));
  }

  // ---------- Encoding ----------

  /** What comes before the string content of a variable-length part. */
  function Head(part: Part): ByteString {
    match part
    case Key(userId, _) => [USER_KEY_TAG] + LittleEndian(userId, 8)
    case _ => []
  }

  function Encode(part: Part): ByteString {
    match part
    case Text(text) => text + [0]
    case Fixed(width, value) => LittleEndian(value, width)
    case Key(_, region) => Head(part) + (region + [0])
  }

  function EncodeAll(parts: seq<Part>): ByteString {
    Flat(parts, Encode)
  }

  /** Integers fit their width. */
  predicate InRange(part: Part) {
    match part
    case Text(_) => true
    case Fixed(width, value) => value < Pow256(width)
    case Key(userId, _) => userId < Pow256(8)
  }

  predicate AllInRange(parts: seq<Part>) {
    forall i | 0 <= i < |parts| :: InRange(parts[i])
  }

  predicate NulFree(part: Part) {
    match part
    case Text(text) => 0 !in text
    case Fixed(_, _) => true
    case Key(_, region) => 0 !in region
  }

  // ---------- Decoding ----------

  /** The bytes up to the first NUL, and what follows it. */
  function ReadText(bytes: ByteString): Option<(ByteString, ByteString)> {
    if bytes == [] then None
    else if bytes[0] == 0 then Some(([], bytes[1..]))
    else
      match ReadText(bytes[1..])
      case None => None
      case Some((text, rest)) => Some(([bytes[0]] + text, rest))
  }

  function Read(kind: Kind, bytes: ByteString): Option<(Part, ByteString)> {
    match kind
    case TextKind =>
      (match ReadText(bytes)
       case None => None
       case Some((text, rest)) => Some((Text(text), rest)))
    case FixedKind(width) =>
      if |bytes| < width then None
      else Some((Fixed(width, FromLittleEndian(bytes[..width])), bytes[width..]))
    case KeyKind =>
      if |bytes| < 9 || bytes[0] != USER_KEY_TAG then None
      else
        match ReadText(bytes[9..])
        case None => None
        case Some((region, rest)) => Some((Key(FromLittleEndian(bytes[1..9]), region), rest))
  }

  function Decode(schema: seq<Kind>, bytes: ByteString): Option<(seq<Part>, ByteString)> {
    if schema == [] then Some(([], bytes))
    else
      match Read(schema[0], bytes)
      case None => None
      case Some((part, rest)) =>
        match Decode(schema[1..], rest)
        case None => None
        case Some((parts, left)) => Some(([part] + parts, left))
  }

  lemma {:induction false} ReadTextBack(text: ByteString, rest: ByteString)
    requires 0 !in text
    ensures ReadText(text + ([0] + rest)) == Some((text, rest))
  {
    if text == [] {
      assert text + ([0] + rest) == [0] + rest;
    } else {
      ReadTextBack(text[1..], rest);
      assert (text + ([0] + rest))[1..] == text[1..] + ([0] + rest);
      assert [text[0]] + text[1..] == text;
    }
  }

  lemma SplitKey(id: ByteString, text: ByteString)
    requires |id| == 8
    ensures var bytes := ([USER_KEY_TAG] + id) + text;
            |bytes| >= 9 && bytes[0] == USER_KEY_TAG && bytes[1..9] == id && bytes[9..] == text
  {
  }

  lemma ReadKeyBack(userId: nat, region: ByteString, rest: ByteString)
    requires userId < Pow256(8) && 0 !in region
    ensures Read(KeyKind, Encode(Key(userId, region)) + rest) == Some((Key(userId, region), rest))
  {
    var head := Head(Key(userId, region));
    LittleEndianRoundTrip(userId, 8);
    ReadTextBack(region, rest);
    Regroup(head, region + [0], rest);
    Regroup(region, [0], rest);
    SplitKey(LittleEndian(userId, 8), region + ([0] + rest));
  }

  lemma ReadBack(part: Part, rest: ByteString)
    requires InRange(part) && NulFree(part)
    ensures Read(KindOf(part), Encode(part) + rest) == Some((part, rest))
  {
    match part
    case Text(text) =>
      ReadTextBack(text, rest);
      Regroup(text, [0], rest);
    case Fixed(width, value) =>
      var bytes := LittleEndian(value, width) + rest;
      LittleEndianRoundTrip(value, width);
      assert bytes[..width] == LittleEndian(value, width) && bytes[width..] == rest;
    case Key(userId, region) => ReadKeyBack(userId, region, rest);
  }

  lemma DecodeCons(part: Part, parts: seq<Part>, schema: seq<Kind>, bytes: ByteString, rest: ByteString)
    requires InRange(part) && NulFree(part) && Decode(schema, bytes) == Some((parts, rest))
    ensures Decode([KindOf(part)] + schema, Encode(part) + bytes) == Some(([part] + parts, rest))
  {
    ReadBack(part, bytes);
    assert ([KindOf(part)] + schema)[1..] == schema;
  }

  /** Main result: for any fixed sequence of part types, the key of NUL-free parts is uniquely decodable,
      even in front of other bytes. */
  lemma {:induction false} DecodeBack(parts: seq<Part>, rest: ByteString)
    requires AllInRange(parts) && forall i | 0 <= i < |parts| :: NulFree(parts[i])
    ensures Decode(Schema(parts), EncodeAll(parts) + rest) == Some((parts, rest))
  {
    if parts == [] {
      assert EncodeAll(parts) + rest == rest;
    } else {
      DecodeBack(parts[1..], rest);
      DecodeCons(parts[0], parts[1..], Schema(parts[1..]), EncodeAll(parts[1..]) + rest, rest);
      Regroup(Encode(parts[0]), EncodeAll(parts[1..]), rest);
      assert Schema(parts) == [KindOf(parts[0])] + Schema(parts[1..]);
      assert [parts[0]] + parts[1..] == parts;
    }
  }

  /** So such keys collide only for equal parts. */
  lemma NulFreeKeysInjective(a: seq<Part>, b: seq<Part>)
    requires forall i | 0 <= i < |a| ::
               match a[i]
               case Text(text) => 0 !in text
               case Fixed(width, value) => value < Pow256(width)
               case Key(userId, region) => userId < 0x1_0000_0000_0000_0000 && 0 !in region
    requires forall i | 0 <= i < |b| ::
               match b[i]
               case Text(text) => 0 !in text
               case Fixed(width, value) => value < Pow256(width)
               case Key(userId, region) => userId < 0x1_0000_0000_0000_0000 && 0 !in region
    requires Schema(a) == Schema(b) && EncodeAll(a) == EncodeAll(b)
    ensures a == b
  {
    EightBytes();
    DecodeBack(a, []);
    DecodeBack(b, []);
  }

  // ---------- Without the NUL-free condition ----------

  predicate IsVariable(kind: Kind) { !kind.FixedKind? }

  function Variables(schema: seq<Kind>): nat {
    if schema == [] then 0 else (if IsVariable(schema[0]) then 1 else 0) + Variables(schema[1..])
  }

  ghost predicate Unambiguous(schema: seq<Kind>) {
    forall a: seq<Part>, b: seq<Part> |
      Schema(a) == schema && Schema(b) == schema && AllInRange(a) && AllInRange(b)
      && EncodeAll(a) == EncodeAll(b) :: a == b
  }

  /** Parts of fixed width only have keys of one length. */
  lemma {:induction false} FixedLength(a: seq<Part>, b: seq<Part>)
    requires Schema(a) == Schema(b) && Variables(Schema(a)) == 0
    ensures |EncodeAll(a)| == |EncodeAll(b)|
  {
    assert |a| == |Schema(a)| == |b|;
    if a != [] {
      assert KindOf(a[0]) == Schema(a)[0] == Schema(b)[0] == KindOf(b[0]);
      assert Schema(a)[1..] == Schema(a[1..]) && Schema(b)[1..] == Schema(b[1..]);
      FixedLength(a[1..], b[1..]);
    }
  }

  lemma EncodeInjective(a: Part, b: Part)
    requires KindOf(a) == KindOf(b) && InRange(a) && InRange(b) && Encode(a) == Encode(b)
    ensures a == b
  {
    match a
    case Text(text) =>
      assert text == Encode(a)[..|Encode(a)| - 1] && b.text == Encode(b)[..|Encode(b)| - 1];
    case Fixed(width, value) =>
      LittleEndianRoundTrip(value, width);
      LittleEndianRoundTrip(b.value, width);
    case Key(userId, region) =>
      assert Encode(a)[1..9] == LittleEndian(userId, 8) && Encode(b)[1..9] == LittleEndian(b.userId, 8);
      LittleEndianRoundTrip(userId, 8);
      LittleEndianRoundTrip(b.userId, 8);
      assert region == Encode(a)[9..|Encode(a)| - 1] && b.region == Encode(b)[9..|Encode(b)| - 1];
  }

  lemma {:induction false} OneVariableInjective(a: seq<Part>, b: seq<Part>)
    requires Schema(a) == Schema(b) && Variables(Schema(a)) <= 1
    requires AllInRange(a) && AllInRange(b) && EncodeAll(a) == EncodeAll(b)
    ensures a == b
  {
    assert |a| == |Schema(a)| == |b|;
    if a != [] {
      assert KindOf(a[0]) == Schema(a)[0] == Schema(b)[0] == KindOf(b[0]);
      assert Schema(a)[1..] == Schema(a[1..]) && Schema(b)[1..] == Schema(b[1..]);
      if IsVariable(KindOf(a[0])) {
        FixedLength(a[1..], b[1..]);
      }
      var n := |Encode(a[0])|;
      assert n == |Encode(b[0])|;
      assert Encode(a[0]) == EncodeAll(a)[..n] && Encode(b[0]) == EncodeAll(b)[..n];
      assert EncodeAll(a[1..]) == EncodeAll(a)[n..] && EncodeAll(b[1..]) == EncodeAll(b)[n..];
      EncodeInjective(a[0], b[0]);
      OneVariableInjective(a[1..], b[1..]);
    }
  }

  /** A part of the given kind, with the given string content if it has any. */
  function Sample(kind: Kind, content: ByteString): (part: Part)
    ensures KindOf(part) == kind
  {
    match kind
    case TextKind => Text(content)
    case FixedKind(width) => Fixed(width, 0)
    case KeyKind => Key(0, content)
  }

  function Samples(schema: seq<Kind>): (parts: seq<Part>)
    ensures |parts| == |schema|
  {
    seq(|schema|, i requires 0 <= i < |schema| => Sample(schema[i], []))
  }

  /** Parts of schema pre + [k] + mid + [l] + post whose two chosen strings are `x` and `y`. */
  function TwoStrings(pre: seq<Kind>, k: Kind, mid: seq<Kind>, l: Kind, post: seq<Kind>, x: ByteString, y: ByteString)
    : seq<Part>
  {
    Samples(pre) + ([Sample(k, x)] + (Samples(mid) + ([Sample(l, y)] + Samples(post))))
  }

  lemma {:induction false} PowPositive(n: nat)
    ensures Pow256(n) > 0
  {
    if n > 0 {
      PowPositive(n - 1);
    }
  }

  lemma TwoStringsFit(pre: seq<Kind>, k: Kind, mid: seq<Kind>, l: Kind, post: seq<Kind>, x: ByteString, y: ByteString)
    ensures Schema(TwoStrings(pre, k, mid, l, post, x, y)) == pre + ([k] + (mid + ([l] + post)))
    ensures AllInRange(TwoStrings(pre, k, mid, l, post, x, y))
  {
    forall n: nat ensures Pow256(n) > 0 {
      PowPositive(n);
    }
  }

  lemma VariableKey(k: Kind, x: ByteString, rest: seq<Part>)
    requires IsVariable(k)
    ensures EncodeAll([Sample(k, x)] + rest) == Head(Sample(k, [])) + (x + ([0] + EncodeAll(rest)))
  {
    assert ([Sample(k, x)] + rest)[1..] == rest;
    assert Encode(Sample(k, x)) == Head(Sample(k, [])) + (x + [0]);
    Regroup(Head(Sample(k, [])), x + [0], EncodeAll(rest));
    Regroup(x, [0], EncodeAll(rest));
  }

  /** The bytes between the two strings of `TwoStrings`. */
  function Gap(mid: seq<Kind>, l: Kind): ByteString {
    [0] + (EncodeAll(Samples(mid)) + Head(Sample(l, [])))
  }

  lemma TwoStringsKey(pre: seq<Kind>, k: Kind, mid: seq<Kind>, l: Kind, post: seq<Kind>, x: ByteString, y: ByteString)
    requires IsVariable(k) && IsVariable(l)
    ensures EncodeAll(TwoStrings(pre, k, mid, l, post, x, y))
            == EncodeAll(Samples(pre))
               + (Head(Sample(k, [])) + (x + (Gap(mid, l) + (y + ([0] + EncodeAll(Samples(post)))))))
  {
    var last := [Sample(l, y)] + Samples(post);
    var tail := y + ([0] + EncodeAll(Samples(post)));
    FlatConcat(Samples(pre), [Sample(k, x)] + (Samples(mid) + last), Encode);
    VariableKey(k, x, Samples(mid) + last);
    FlatConcat(Samples(mid), last, Encode);
    VariableKey(l, y, Samples(post));
    Regroup(EncodeAll(Samples(mid)), Head(Sample(l, [])), tail);
    Regroup([0], EncodeAll(Samples(mid)) + Head(Sample(l, [])), tail);
  }

  lemma MoveGap(gap: ByteString, tail: ByteString)
    ensures [] + (gap + (gap + tail)) == gap + (gap + ([] + tail))
  {
    assert [] + tail == tail;
  }

  /** Moving the gap from the second string to the first gives different parts with the same key. */
  lemma SameKey(pre: seq<Kind>, k: Kind, mid: seq<Kind>, l: Kind, post: seq<Kind>)
    requires IsVariable(k) && IsVariable(l)
    ensures EncodeAll(TwoStrings(pre, k, mid, l, post, [], Gap(mid, l)))
            == EncodeAll(TwoStrings(pre, k, mid, l, post, Gap(mid, l), []))
  {
    TwoStringsKey(pre, k, mid, l, post, [], Gap(mid, l));
    TwoStringsKey(pre, k, mid, l, post, Gap(mid, l), []);
    MoveGap(Gap(mid, l), [0] + EncodeAll(Samples(post)));
  }

  lemma Collision(pre: seq<Kind>, k: Kind, mid: seq<Kind>, l: Kind, post: seq<Kind>)
    requires IsVariable(k) && IsVariable(l)
    ensures !Unambiguous(pre + ([k] + (mid + ([l] + post))))
  {
    var a := TwoStrings(pre, k, mid, l, post, [], Gap(mid, l));
    var b := TwoStrings(pre, k, mid, l, post, Gap(mid, l), []);
    TwoStringsFit(pre, k, mid, l, post, [], Gap(mid, l));
    TwoStringsFit(pre, k, mid, l, post, Gap(mid, l), []);
    SameKey(pre, k, mid, l, post);
    assert a[|pre|] == Sample(k, []) && b[|pre|] == Sample(k, Gap(mid, l));
  }

  /** Where the first variable-length kind is. */
  lemma {:induction false} FirstVariable(schema: seq<Kind>) returns (pre: seq<Kind>, k: Kind, post: seq<Kind>)
    requires Variables(schema) >= 1
    ensures schema == pre + ([k] + post) && IsVariable(k) && Variables(post) == Variables(schema) - 1
  {
    if IsVariable(schema[0]) {
      pre, k, post := [], schema[0], schema[1..];
    } else {
      pre, k, post := FirstVariable(schema[1..]);
      pre := [schema[0]] + pre;
    }
  }

  /** Main result: when strings may contain NUL, a sequence of part types gives unambiguous keys exactly when
      at most one of them is a string or a `UserKey`. */
  lemma UnambiguousIff(schema: seq<Kind>)
    ensures Unambiguous(schema) <==> Variables(schema) <= 1
  {
    if Variables(schema) <= 1 {
      forall a: seq<Part>, b: seq<Part> |
        Schema(a) == schema && Schema(b) == schema && AllInRange(a) && AllInRange(b) && EncodeAll(a) == EncodeAll(b)
        ensures a == b
      {
        OneVariableInjective(a, b);
      }
    } else {
      var pre, k, tail := FirstVariable(schema);
      var mid, l, post := FirstVariable(tail);
      Collision(pre, k, mid, l, post);
    }
  }

  /** Two strings with a NUL in one of them: the delimiter does not tell which. */
  lemma NulMovesBetweenStrings()
    ensures EncodeAll([Text([0]), Text([])]) == EncodeAll([Text([]), Text([0])]) == [0, 0, 0]
  {
    assert [Text([0]), Text([])][1..] == [Text([])] && [Text([]), Text([0])][1..] == [Text([0])];
  }

  // ---------- Hexadecimal ----------

  const DIGITS := "0123456789abcdef"

  function HexPair(b: Byte): string { [DIGITS[b / 16], DIGITS[b % 16]] }

  function ToHex(bytes: ByteString): string {
    Flat(bytes, HexPair)
  }

  function Nibble(digit: char): Option<nat> {
    if '0' <= digit <= '9' then Some((digit - '0') as nat)
    else if 'a' <= digit <= 'f' then Some((digit - 'a') as nat + 10)
    else None
  }

  function FromHex(hex: string): Option<ByteString> {
    if hex == "" then Some([])
    else if |hex| == 1 then None
    else
      var high, low, rest := Nibble(hex[0]), Nibble(hex[1]), FromHex(hex[2..]);
      if high.None? || low.None? || rest.None? || high.value > 15 || low.value > 15 then None
      else Some([high.value * 16 + low.value] + rest.value)
  }

  lemma ReadPair(b: Byte, hex: string, bytes: ByteString)
    requires FromHex(hex) == Some(bytes)
    ensures FromHex(HexPair(b) + hex) == Some([b] + bytes)
  {
    assert (HexPair(b) + hex)[2..] == hex;
    DigitRoundTrip(b / 16);
    DigitRoundTrip(b % 16);
  }

  /** Main result: the hexadecimal form has two digits a byte and is inverted by reading nibbles. */
  lemma {:induction false} FromHexToHex(bytes: ByteString)
    ensures |ToHex(bytes)| == 2 * |bytes| && FromHex(ToHex(bytes)) == Some(bytes)
  {
    if bytes != [] {
      FromHexToHex(bytes[1..]);
      ReadPair(bytes[0], ToHex(bytes[1..]), bytes[1..]);
      assert [bytes[0]] + bytes[1..] == bytes;
    }
  }

  /** Byte i has the digits 2i, for its high half, and 2i + 1. */
  lemma {:induction false} HexDigits(bytes: ByteString, i: nat)
    requires i < |bytes|
    ensures |ToHex(bytes)| == 2 * |bytes|
    ensures ToHex(bytes)[2 * i] == "0123456789abcdef"[bytes[i] / 16]
    ensures ToHex(bytes)[2 * i + 1] == "0123456789abcdef"[bytes[i] % 16]
    decreases i
  {
    FromHexToHex(bytes);
    FromHexToHex(bytes[1..]);
    if i > 0 {
      HexDigits(bytes[1..], i - 1);
      assert ToHex(bytes)[2..] == ToHex(bytes[1..]);
    }
  }

  lemma DigitRoundTrip(n: nat)
    requires n < 16
    ensures Nibble(DIGITS[n]) == Some(n)
  {
    assert DIGITS[0] == '0' && DIGITS[1] == '1' && DIGITS[2] == '2' && DIGITS[3] == '3';
    assert DIGITS[4] == '4' && DIGITS[5] == '5' && DIGITS[6] == '6' && DIGITS[7] == '7';
    assert DIGITS[8] == '8' && DIGITS[9] == '9' && DIGITS[10] == 'a' && DIGITS[11] == 'b';
    assert DIGITS[12] == 'c' && DIGITS[13] == 'd' && DIGITS[14] == 'e' && DIGITS[15] == 'f';
  }

  // ---------- The code ----------

  /** `std::vector<std::uint8_t>`, which the append functions extend in place. */
  class ByteVector {
    var bytes: ByteString

    constructor ()
      ensures bytes == []
    {
      bytes := [];
    }

    method PushBack(b: Byte)
      modifies this
      ensures bytes == old(bytes) + [b]
    {
      bytes := bytes + [b];
    }

    method AppendBytes(data: ByteString)
      modifies this
      ensures bytes == old(bytes) + data
    {
      bytes := bytes + data;
    }

    method AppendString(s: ByteString)
      modifies this
      ensures bytes == old(bytes) + (s + [0])
    {
      AppendBytes(s);
      PushBack(0);
    }

    /** `append_part` of a `UserKey`, through the overloads for its members. */
    method AppendUserKey(userId: nat, region: ByteString)
      modifies this
      ensures bytes == old(bytes) + Encode(Key(userId, region))
      ensures bytes == old(bytes) + ([0xA5] + LittleEndian(userId, 8) + (region + [0]))
    {
      PushBack(USER_KEY_TAG);
      AppendBytes(LittleEndian(userId, 8));
      Regroup(old(bytes), [USER_KEY_TAG], LittleEndian(userId, 8));
      AppendString(region);
      Regroup(old(bytes), Head(Key(userId, region)), region + [0]);
    }

    /** `append_part`, dispatched on the type of the part. */
    method AppendPart(part: Part)
      modifies this
      ensures bytes == old(bytes) + Encode(part)
      ensures match part
              case Text(text) => bytes == old(bytes) + (text + [0])
              case Fixed(width, value) => bytes == old(bytes) + LittleEndian(value, width)
              case Key(userId, region) => bytes == old(bytes) + ([0xA5] + LittleEndian(userId, 8) + (region + [0]))
    {
      match part
      case Text(text) => AppendString(text);
      case Fixed(width, value) => AppendBytes(LittleEndian(value, width));
      case Key(userId, region) => AppendUserKey(userId, region);
    }

    /** The key of a whole list of parts: NUL-free parts can be read back from what was appended. */
    method AppendParts(parts: seq<Part>)
      modifies this
      ensures bytes == old(bytes) + EncodeAll(parts)
    {
      for i := 0 to |parts|
        invariant bytes == old(bytes) + EncodeAll(parts[..i])
      {
        assert parts[..i + 1] == parts[..i] + [parts[i]];
        FlatSnoc(parts[..i], parts[i], Encode);
        Regroup(old(bytes), EncodeAll(parts[..i]), Encode(parts[i]));
        AppendPart(parts[i]);
      }
      assert parts[..|parts|] == parts;
    }
  }

  /** `to_hex`. */
  method ToHexLoop(bytes: ByteString) returns (out: string)
    ensures out == ToHex(bytes) && |out| == 2 * |bytes|
  {
    out := "";
    for i := 0 to |bytes|
      invariant out == ToHex(bytes[..i])
    {
      assert bytes[..i + 1] == bytes[..i] + [bytes[i]];
      FlatSnoc(bytes[..i], bytes[i], HexPair);
      out := out + [DIGITS[bytes[i] / 16]];
      out := out + [DIGITS[bytes[i] % 16]];
    }
    assert bytes[..|bytes|] == bytes;
    FromHexToHex(bytes);
  }
}
