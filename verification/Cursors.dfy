/** Cursors, common/utils.go: an id as the unpadded base64 text (sections 3.2 and 4 of RFC 4648) of
    "cursor" and its decimal digits. Bytes are characters below 256. */
module Cursors {
  import opened Wrappers
  import opened Text

  const MAX_INT: int := 0x7fff_ffff_ffff_ffff
  const TWO_64: nat := 0x1_0000_0000_0000_0000

  /** Go's `uint` on a 64-bit platform. */
  type Uint = n: nat | n < TWO_64

  type Byte = n: nat | n < 256
  type Six = n: nat | n < 64

  // ---- Groups of bits ----

  /** Three bytes as four groups of six bits. */
  function Four(a: Byte, b: Byte, c: Byte): (r: seq<Six>)
    ensures |r| == 4
  {
    [a / 4, a % 4 * 16 + b / 16, b % 16 * 4 + c / 64, c % 64]
  }

  /** At the end two bytes give three groups and one byte gives two, the missing bits being zero. */
  function Split(s: seq<Byte>): (r: seq<Six>)
    ensures |r| % 4 != 1
  {
    if s == [] then []
    else if |s| == 1 then Four(s[0], 0, 0)[..2]
    else if |s| == 2 then Four(s[0], s[1], 0)[..3]
    else Four(s[0], s[1], s[2]) + Split(s[3..])
  }

  function Three(a: Six, b: Six, c: Six, d: Six): (r: seq<Byte>)
    ensures |r| == 3
  {
    [a * 4 + b / 16, b % 16 * 16 + c / 4, c % 4 * 64 + d]
  }

  /** Bits left over at the end are not looked at. */
  function Unite(s: seq<Six>): seq<Byte>
    requires |s| % 4 != 1
  {
    if s == [] then []
    else if |s| == 2 then Three(s[0], s[1], 0, 0)[..1]
    else if |s| == 3 then Three(s[0], s[1], s[2], 0)[..2]
    else Three(s[0], s[1], s[2], s[3]) + Unite(s[4..])
  }

  lemma ThreeOfFour(a: Byte, b: Byte, c: Byte)
    ensures var r := Four(a, b, c); Three(r[0], r[1], r[2], r[3]) == [a, b, c]
  {
  }

  lemma {:induction false} UniteSplit(s: seq<Byte>)
    ensures Unite(Split(s)) == s
  {
    if |s| == 1 {
      ThreeOfFour(s[0], 0, 0);
    } else if |s| == 2 {
      ThreeOfFour(s[0], s[1], 0);
    } else if |s| > 2 {
      ThreeOfFour(s[0], s[1], s[2]);
      UniteSplit(s[3..]);
      assert Split(s)[4..] == Split(s[3..]);
      assert s == [s[0], s[1], s[2]] + s[3..];
    }
  }

  // ---- The alphabet ----

  function SixBits(c: char): (v: int)
    ensures -1 <= v < 64
  {
    if 'A' <= c <= 'Z' then c as int - 'A' as int
    else if 'a' <= c <= 'z' then c as int - 'a' as int + 26
    else if '0' <= c <= '9' then c as int - '0' as int + 52
    else if c == '+' then 62
    else if c == '/' then 63
    else -1
  }

  function Letter(v: Six): (c: char)
    ensures SixBits(c) == v
  {
    if v < 26 then (v + 'A' as int) as char
    else if v < 52 then (v - 26 + 'a' as int) as char
    else if v < 62 then (v - 52 + '0' as int) as char
    else if v == 62 then '+' else '/'
  }

  predicate IsLetters(s: string)
  {
    forall i :: 0 <= i < |s| ==> SixBits(s[i]) >= 0
  }

  function Spell(v: seq<Six>): (s: string)
    ensures |s| == |v| && IsLetters(s)
  {
    seq(|v|, i requires 0 <= i < |v| => Letter(v[i]))
  }

  function Read(s: string): (v: seq<Six>)
    requires IsLetters(s)
    ensures |v| == |s|
  {
    seq(|s|, i requires 0 <= i < |s| => SixBits(s[i]))
  }

  // ---- EncodeToString and DecodeString ----

  predicate IsBytes(s: string)
  {
    forall i :: 0 <= i < |s| ==> s[i] as int < 256
  }

  function BytesOf(s: string): (b: seq<Byte>)
    requires IsBytes(s)
    ensures |b| == |s|
  {
    seq(|s|, i requires 0 <= i < |s| => s[i] as int)
  }

  function StringOf(b: seq<Byte>): (s: string)
    ensures |s| == |b| && IsBytes(s)
  {
    seq(|b|, i requires 0 <= i < |b| => b[i] as char)
  }

  function Encode(s: string): string
    requires IsBytes(s)
  {
    Spell(Split(BytesOf(s)))
  }

  /** The decoder skips line breaks wherever they are. */
  function WithoutBreaks(s: string): string
  {
    if s == [] then []
    else (if s[0] == '\r' || s[0] == '\n' then [] else [s[0]]) + WithoutBreaks(s[1..])
  }

  function Decode(text: string): Option<string>
  {
    var s := WithoutBreaks(text);
    if IsLetters(s) && |s| % 4 != 1 then Some(StringOf(Unite(Read(s)))) else None
  }

  lemma {:induction false} LettersHaveNoBreaks(s: string)
    requires IsLetters(s)
    ensures WithoutBreaks(s) == s
  {
    if s != [] {
      assert SixBits(s[0]) >= 0;
      LettersHaveNoBreaks(s[1..]);
    }
  }

  /** Base64 round trip, for every byte string. */
  lemma DecodeEncode(s: string)
    requires IsBytes(s)
    ensures Decode(Encode(s)) == Some(s)
  {
    var v := Split(BytesOf(s));
    LettersHaveNoBreaks(Spell(v));
    assert Read(Spell(v)) == v;
    UniteSplit(BytesOf(s));
    assert StringOf(BytesOf(s)) == s;
  }

  // ---- strconv.Atoi and strings.TrimPrefix ----

  function Unsigned(s: string): string
  {
    if s != "" && (s[0] == '-' || s[0] == '+') then s[1..] else s
  }

  /** An optional sign and at least one decimal digit, in the range of a 64-bit int. */
  function Atoi(s: string): Option<int>
  {
    var digits := Unsigned(s);
    if digits == "" || !IsDigits(digits, 10) then None
    else
      var v: int := if s[0] == '-' then -(Value(digits, 10) as int) else Value(digits, 10) as int;
      if -MAX_INT - 1 <= v <= MAX_INT then Some(v) else None
  }

  function TrimPrefix(s: string, prefix: string): string
  {
    if prefix <= s then s[|prefix|..] else s
  }

  // ---- The cursor functions ----

  function EncodeCursor(id: Uint): string
  {
    CursorTextIsBytes(id);
    Encode("cursor" + Dec(id))
  }

  lemma CursorTextIsBytes(id: nat)
    ensures IsBytes("cursor" + Dec(id))
  {
    var s := Dec(id);
    forall i | 0 <= i < |s| ensures s[i] as int < 256 {
      assert 0 <= DigitValue(s[i]) < 10;
    }
  }

  /** A negative number becomes a `uint` by wrapping around. */
  function DecodeCursor(cursor: string): Option<Uint>
  {
    match Decode(cursor)
    case None => None
    case Some(text) =>
      match Atoi(TrimPrefix(text, "cursor"))
      case None => None
      case Some(v) => Some(if v < 0 then v + TWO_64 else v)
  }

  lemma AtoiOfDec(n: nat)
    ensures Atoi(Dec(n)) == if n <= MAX_INT then Some(n) else None
  {
    var s := Dec(n);
    assert 0 <= DigitValue(s[0]) < 10;
    ValueOfRender(n, 10);
  }

  /** The alphabet of RFC 4648, table 1: capitals, small letters, digits, '+' and '/'. */
  lemma Alphabet()
    ensures Letter(0) == 'A' && Letter(25) == 'Z' && Letter(26) == 'a' && Letter(51) == 'z'
    ensures Letter(52) == '0' && Letter(61) == '9' && Letter(62) == '+' && Letter(63) == '/'
  {
  }

  lemma Spells(s: string, v: seq<Six>, text: string)
    requires IsBytes(s) && Split(BytesOf(s)) == v
    requires |text| == |v| && forall i :: 0 <= i < |v| ==> text[i] == Letter(v[i])
    ensures Encode(s) == text
  {
  }

  /** Test vectors of section 10 of RFC 4648, without the padding: a rest of one byte, of two, and none. */
  lemma VectorOne()
    ensures IsBytes("f") && Encode("f") == "Zg"
  {
    assert BytesOf("f") == [102];
    Spells("f", [25, 32], "Zg");
  }

  lemma VectorTwo()
    ensures IsBytes("fo") && Encode("fo") == "Zm8"
  {
    assert BytesOf("fo") == [102, 111];
    Spells("fo", [25, 38, 60], "Zm8");
  }

  lemma VectorThree()
    ensures IsBytes("foo") && Encode("foo") == "Zm9v"
  {
    assert BytesOf("foo") == [102, 111, 111];
    assert Split([]) == [];
    Spells("foo", [25, 38, 61, 47], "Zm9v");
  }

  /** Behind the base64 text is "cursor" with the id in decimal. */
  lemma CursorText(id: Uint)
    ensures Decode(EncodeCursor(id)).Some?
    ensures var text := Decode(EncodeCursor(id)).value;
            "cursor" <= text && IsDigits(text[6..], 10) && Value(text[6..], 10) == id
  {
    CursorTextIsBytes(id);
    DecodeEncode("cursor" + Dec(id));
    ValueOfRender(id, 10);
    assert ("cursor" + Dec(id))[6..] == Dec(id);
  }

  /** A cursor leads back to its id exactly up to the largest int; above it, decoding fails. */
  lemma CursorRoundTrip(id: Uint)
    ensures DecodeCursor(EncodeCursor(id)) == if id <= MAX_INT then Some(id) else None
  {
    var text := "cursor" + Dec(id);
    CursorTextIsBytes(id);
    DecodeEncode(text);
    assert TrimPrefix(text, "cursor") == Dec(id);
    AtoiOfDec(id);
  }

  /** Different ids have different cursors, also where decoding fails. */
  lemma CursorInjective(a: Uint, b: Uint)
    requires EncodeCursor(a) == EncodeCursor(b)
    ensures a == b
  {
    CursorTextIsBytes(a);
    CursorTextIsBytes(b);
    DecodeEncode("cursor" + Dec(a));
    DecodeEncode("cursor" + Dec(b));
    assert ("cursor" + Dec(a))[6..] == Dec(a) && ("cursor" + Dec(b))[6..] == Dec(b);
    RenderInjective(a, b, 10);
  }

  lemma DecodePlain(s: string)
    requires IsBytes(s) && !("cursor" <= s)
    ensures DecodeCursor(Encode(s)) == match Atoi(s)
                                       case None => None
                                       case Some(v) => Some(if v < 0 then v + TWO_64 else v)
  {
    DecodeEncode(s);
  }

  lemma DigitsPlain(n: nat)
    ensures IsBytes(Dec(n)) && !("cursor" <= Dec(n))
  {
    var s := Dec(n);
    forall i | 0 <= i < |s| ensures s[i] as int < 256 && s[i] != 'c' {
      assert 0 <= DigitValue(s[i]) < 10;
    }
    assert s[0] != "cursor"[0];
  }

  lemma AtoiOfMinus(n: nat)
    requires 0 < n <= MAX_INT + 1
    ensures Atoi("-" + Dec(n)) == Some(-(n as int))
  {
    assert ("-" + Dec(n))[1..] == Dec(n);
    ValueOfRender(n, 10);
  }

  /** Encoded cursors are not the only ones that decode: the prefix may be missing, and a negative
      number names one of the ids whose own cursor fails. So every id has a cursor that decodes. */
  lemma EveryIdHasACursor(id: Uint) returns (cursor: string)
    ensures DecodeCursor(cursor) == Some(id)
  {
    if id <= MAX_INT {
      DigitsPlain(id);
      AtoiOfDec(id);
      DecodePlain(Dec(id));
      cursor := Encode(Dec(id));
    } else {
      var n := TWO_64 - id;
      DigitsPlain(n);
      AtoiOfMinus(n);
      DecodePlain("-" + Dec(n));
      cursor := Encode("-" + Dec(n));
    }
  }

  // ---- Cursors as a pair of functions ----

  /** What pagination needs to know of cursors. */
  datatype Codec = Codec(encode: Uint -> string, decode: string -> Option<Uint>)

  const CURSORS := Codec(EncodeCursor, DecodeCursor)

  ghost predicate RoundTrips(cc: Codec)
  {
    forall id: Uint :: id <= MAX_INT ==> cc.decode(cc.encode(id)) == Some(id)
  }

  lemma CursorsRoundTrip()
    ensures RoundTrips(CURSORS)
  {
    forall id: Uint | id <= MAX_INT ensures CURSORS.decode(CURSORS.encode(id)) == Some(id) {
      CursorRoundTrip(id);
    }
  }

  /** All the ids, in order, or an error if one cursor is bad. */
  method DecodeCursorBatch(cursors: seq<string>) returns (ids: Option<seq<Uint>>)
    ensures ids.Some? <==> forall i :: 0 <= i < |cursors| ==> DecodeCursor(cursors[i]).Some?
    ensures ids.Some? ==> |ids.value| == |cursors|
    ensures ids.Some? ==> forall i :: 0 <= i < |cursors| ==> DecodeCursor(cursors[i]) == Some(ids.value[i])
  {
    var out: seq<Uint> := [];
    for k := 0 to |cursors|
      invariant |out| == k && forall i :: 0 <= i < k ==> DecodeCursor(cursors[i]) == Some(out[i])
    {
      var id := DecodeCursor(cursors[k]);
      if id.None? {
        return None;
      }
      out := out + [id.value];
    }
    return Some(out);
  }
}
