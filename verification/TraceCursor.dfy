/** The opaque cursor of the trace listing: URL-safe base64 (section 5 of RFC 4648) with the padding
    stripped on the way out and restored on the way in. Text encoding and ISO timestamps are library
    round trips and enter as parameters. */
module TraceCursor {
  import opened Common

  type Byte = n: int | 0 <= n < 256

  type Sextet = n: int | 0 <= n < 64

  // ----- The alphabet -----

  function Letter(v: Sextet): (c: char)
    ensures c != '=' && c as int < 128
  {
    if v < 26 then ('A' as int + v) as char
    else if v < 52 then ('a' as int + v - 26) as char
    else if v < 62 then ('0' as int + v - 52) as char
    else if v == 62 then '-' else '_'
  }

  /** Both alphabets decode: the URL-safe one is translated to the standard one first. */
  function Value(c: char): Option<Sextet> {
    if 'A' <= c <= 'Z' then Some(c as int - 'A' as int)
    else if 'a' <= c <= 'z' then Some(c as int - 'a' as int + 26)
    else if '0' <= c <= '9' then Some(c as int - '0' as int + 52)
    else if c == '-' || c == '+' then Some(62)
    else if c == '_' || c == '/' then Some(63)
    else None
  }

  /** The alphabet of section 5 of RFC 4648. */
  lemma LetterIsUrlSafe(v: Sextet)
    ensures Letter(v) as int == if v <= 25 then 65 + v else if v <= 51 then 71 + v else if v <= 61 then v - 4 else if v == 62 then 45 else 95
  {
  }

  lemma LetterValue(v: Sextet)
    ensures Value(Letter(v)) == Some(v)
  {
  }

  // ----- Encoding -----

  /** Three bytes become four letters; a last group of one or two bytes becomes two or three. */
  function Letters(bytes: seq<Byte>): string {
    if |bytes| == 0 then ""
    else if |bytes| == 1 then [Letter(bytes[0] / 4), Letter(bytes[0] % 4 * 16)]
    else if |bytes| == 2 then
      [Letter(bytes[0] / 4), Letter(bytes[0] % 4 * 16 + bytes[1] / 16), Letter(bytes[1] % 16 * 4)]
    else
      [Letter(bytes[0] / 4), Letter(bytes[0] % 4 * 16 + bytes[1] / 16),
       Letter(bytes[1] % 16 * 4 + bytes[2] / 64), Letter(bytes[2] % 64)] + Letters(bytes[3..])
  }

  /** The digits of a text in the alphabet. */
  function Digit(text: string, k: nat): int
    requires k < |text|
  {
    if Value(text[k]).Some? then Value(text[k]).value else -1
  }

  /** The group `k` of the bytes as one number: three bytes are four digits in base 64, and a last group of
      one or two bytes is filled up with zero bits. */
  predicate GroupIsNumber(text: string, bytes: seq<Byte>, k: nat)
    requires 3 * k < |bytes|
  {
    var left, at, from := |bytes| - 3 * k, 4 * k, 3 * k;
    if left >= 3 then
      |text| >= at + 4 &&
      262144 * Digit(text, at) + 4096 * Digit(text, at + 1) + 64 * Digit(text, at + 2) + Digit(text, at + 3) ==
      65536 * (bytes[from] as int) + 256 * (bytes[from + 1] as int) + (bytes[from + 2] as int)
    else if left == 2 then
      |text| == at + 3 &&
      4096 * Digit(text, at) + 64 * Digit(text, at + 1) + Digit(text, at + 2) == 4 * (256 * (bytes[from] as int) + (bytes[from + 1] as int))
    else
      |text| == at + 2 && 64 * Digit(text, at) + Digit(text, at + 1) == 16 * (bytes[from] as int)
  }

  /** What base64 is, group by group. */
  lemma {:induction false} LettersAreDigits(bytes: seq<Byte>, k: nat)
    requires 3 * k < |bytes|
    ensures GroupIsNumber(Letters(bytes), bytes, k)
  {
    if k == 0 {
      FirstDigits(bytes);
    } else {
      LettersAreDigits(bytes[3..], k - 1);
      assert Letters(bytes)[4..] == Letters(bytes[3..]);
      LaterGroup(Letters(bytes), bytes, k);
    }
  }

  lemma LaterGroup(text: string, bytes: seq<Byte>, k: nat)
    requires 0 < k && 3 * k < |bytes| && |text| >= 4 && GroupIsNumber(text[4..], bytes[3..], k - 1)
    ensures GroupIsNumber(text, bytes, k)
  {
    forall j: nat | j < |text| - 4 ensures Digit(text, j + 4) == Digit(text[4..], j) {
    }
    forall j: nat | j < |bytes| - 3 ensures bytes[j + 3] == bytes[3..][j] {
    }
  }

  lemma FirstDigits(bytes: seq<Byte>)
    requires bytes != []
    ensures GroupIsNumber(Letters(bytes), bytes, 0)
  {
    forall v: Sextet ensures Value(Letter(v)) == Some(v) {
      LetterValue(v);
    }
  }

  function Pads(n: nat): string {
    seq(n, _ => '=')
  }

  /** `-n % 4` */
  function Missing(n: nat): nat {
    (4 - n % 4) % 4
  }

  /** `base64.urlsafe_b64encode` */
  function Encode64(bytes: seq<Byte>): string {
    Letters(bytes) + Pads(Missing(|Letters(bytes)|))
  }

  /** `text.rstrip("=")` */
  function StripPads(text: string): string {
    if text != "" && text[|text| - 1] == '=' then StripPads(text[..|text| - 1]) else text
  }

  lemma LetterIsNotPad(v: Sextet)
    ensures Letter(v) != '='
  {
    LetterValue(v);
  }

  lemma {:induction false} LettersHaveNoPads(bytes: seq<Byte>)
    ensures '=' !in Letters(bytes)
  {
    forall v: Sextet ensures Letter(v) != '=' {
      LetterIsNotPad(v);
    }
    if |bytes| >= 3 {
      LettersHaveNoPads(bytes[3..]);
    }
  }

  /** The number of letters n bytes become. */
  function LetterCount(n: nat): nat {
    if n == 0 then 0 else if n < 3 then n + 1 else 4 + LetterCount(n - 3)
  }

  lemma {:induction false} LetterCountGroups(n: nat)
    ensures LetterCount(n) % 4 == (if n % 3 == 0 then 0 else n % 3 + 1)
  {
    if n >= 3 {
      LetterCountGroups(n - 3);
    }
  }

  lemma {:induction false} LettersLength(bytes: seq<Byte>)
    ensures |Letters(bytes)| == LetterCount(|bytes|)
  {
    if |bytes| >= 3 {
      LettersLength(bytes[3..]);
    }
  }

  lemma {:induction false} StripUndoesPads(text: string, n: nat)
    requires text == "" || text[|text| - 1] != '='
    ensures StripPads(text + Pads(n)) == text
  {
    if n == 0 {
      assert text + Pads(0) == text;
    } else {
      var padded := text + Pads(n);
      assert padded[..|padded| - 1] == text + Pads(n - 1);
      StripUndoesPads(text, n - 1);
    }
  }

  // ----- Decoding -----

  /** The decoder's state: the position in the current group of four, the bits carried over, the
      padding seen since the last letter and the bytes written. */
  datatype Decoder = Decoder(position: nat, carried: int, pads: nat, written: seq<int>)

  function Feed(d: Decoder, v: Sextet): Decoder {
    if d.position == 0 then Decoder(1, v, 0, d.written)
    else if d.position == 1 then Decoder(2, v % 16, 0, d.written + [d.carried * 4 + v / 16])
    else if d.position == 2 then Decoder(3, v % 4, 0, d.written + [d.carried * 16 + v / 4])
    else Decoder(0, 0, 0, d.written + [d.carried * 64 + v])
  }

  /** The lenient decoder: characters outside the alphabet are skipped, a complete padding ends the
      input, and an incomplete group is an error. */
  function Decode(text: string, d: Decoder): Result<seq<int>> {
    if text == "" then (if d.position == 0 then Ok(d.written) else Err("Incorrect padding"))
    else if text[0] == '=' then
      if d.position >= 2 && d.position + d.pads + 1 >= 4 then Ok(d.written)
      else Decode(text[1..], if d.position >= 2 then d.(pads := d.pads + 1) else d)
    else
      match Value(text[0])
      case None => Decode(text[1..], d)
      case Some(v) => Decode(text[1..], Feed(d, v))
  }

  /** `base64.urlsafe_b64decode` of text, which must be ASCII. */
  function Decode64(text: string): Result<seq<int>> {
    if exists i :: 0 <= i < |text| && text[i] as int >= 128 then Err("string argument should contain only ASCII characters")
    else Decode(text, Decoder(0, 0, 0, []))
  }

  lemma DecodeLetter(v: Sextet, rest: string, d: Decoder)
    ensures Decode([Letter(v)] + rest, d) == Decode(rest, Feed(d, v))
  {
    LetterValue(v);
    assert ([Letter(v)] + rest)[1..] == rest;
  }

  lemma DecodeTwo(s0: Sextet, s1: Sextet, rest: string, written: seq<int>)
    ensures Decode([Letter(s0), Letter(s1)] + rest, Decoder(0, 0, 0, written)) ==
            Decode(rest, Decoder(2, s1 % 16, 0, written + [s0 * 4 + s1 / 16]))
  {
    assert [Letter(s0), Letter(s1)] + rest == [Letter(s0)] + ([Letter(s1)] + rest);
    DecodeLetter(s0, [Letter(s1)] + rest, Decoder(0, 0, 0, written));
    DecodeLetter(s1, rest, Decoder(1, s0, 0, written));
  }

  lemma DecodeThree(s0: Sextet, s1: Sextet, s2: Sextet, rest: string, written: seq<int>)
    ensures Decode([Letter(s0), Letter(s1), Letter(s2)] + rest, Decoder(0, 0, 0, written)) ==
            Decode(rest, Decoder(3, s2 % 4, 0, written + [s0 * 4 + s1 / 16, s1 % 16 * 16 + s2 / 4]))
  {
    assert [Letter(s0), Letter(s1), Letter(s2)] + rest == [Letter(s0), Letter(s1)] + ([Letter(s2)] + rest);
    DecodeTwo(s0, s1, [Letter(s2)] + rest, written);
    DecodeLetter(s2, rest, Decoder(2, s1 % 16, 0, written + [s0 * 4 + s1 / 16]));
    assert written + [s0 * 4 + s1 / 16] + [s1 % 16 * 16 + s2 / 4] == written + [s0 * 4 + s1 / 16, s1 % 16 * 16 + s2 / 4];
  }

  lemma DecodeFour(s0: Sextet, s1: Sextet, s2: Sextet, s3: Sextet, rest: string, written: seq<int>)
    ensures Decode([Letter(s0), Letter(s1), Letter(s2), Letter(s3)] + rest, Decoder(0, 0, 0, written)) ==
            Decode(rest, Decoder(0, 0, 0, written + [s0 * 4 + s1 / 16, s1 % 16 * 16 + s2 / 4, s2 % 4 * 64 + s3]))
  {
    var bytes := written + [s0 * 4 + s1 / 16, s1 % 16 * 16 + s2 / 4];
    assert [Letter(s0), Letter(s1), Letter(s2), Letter(s3)] + rest == [Letter(s0), Letter(s1), Letter(s2)] + ([Letter(s3)] + rest);
    DecodeThree(s0, s1, s2, [Letter(s3)] + rest, written);
    DecodeLetter(s3, rest, Decoder(3, s2 % 4, 0, bytes));
    assert bytes + [s2 % 4 * 64 + s3] == written + [s0 * 4 + s1 / 16, s1 % 16 * 16 + s2 / 4, s2 % 4 * 64 + s3];
  }

  /** The four sextets of a group hold its three bytes. */
  lemma GroupBits(a: Byte, b: Byte, c: Byte, s1: Sextet, s2: Sextet)
    requires s1 == a % 4 * 16 + b / 16 && s2 == b % 16 * 4 + c / 64
    ensures a / 4 * 4 + s1 / 16 == a && s1 % 16 * 16 + s2 / 4 == b && s2 % 4 * 64 + c % 64 == c
  {
    assert s1 / 16 == a % 4 && s1 % 16 == b / 16;
    assert s2 / 4 == b % 16 && s2 % 4 == c / 64;
  }

  /** A full group gives back its three bytes. */
  lemma DecodeGroup(a: Byte, b: Byte, c: Byte, rest: string, written: seq<int>)
    ensures Decode([Letter(a / 4), Letter(a % 4 * 16 + b / 16), Letter(b % 16 * 4 + c / 64), Letter(c % 64)] + rest,
                   Decoder(0, 0, 0, written)) ==
            Decode(rest, Decoder(0, 0, 0, written + [a, b, c]))
  {
    DecodeFour(a / 4, a % 4 * 16 + b / 16, b % 16 * 4 + c / 64, c % 64, rest, written);
    GroupBits(a, b, c, a % 4 * 16 + b / 16, b % 16 * 4 + c / 64);
  }

  lemma DecodeLastOne(a: Byte, written: seq<int>)
    ensures Decode([Letter(a / 4), Letter(a % 4 * 16)] + "==", Decoder(0, 0, 0, written)) == Ok(written + [a])
  {
    DecodeTwo(a / 4, a % 4 * 16, "==", written);
    assert "=="[1..] == "=";
  }

  lemma DecodeLastTwo(a: Byte, b: Byte, written: seq<int>)
    ensures Decode([Letter(a / 4), Letter(a % 4 * 16 + b / 16), Letter(b % 16 * 4)] + "=", Decoder(0, 0, 0, written)) ==
            Ok(written + [a, b])
  {
    DecodeThree(a / 4, a % 4 * 16 + b / 16, b % 16 * 4, "=", written);
    GroupBits(a, b, 0, a % 4 * 16 + b / 16, b % 16 * 4);
  }

  lemma {:induction false} DecodeLetters(bytes: seq<Byte>, written: seq<int>)
    ensures Decode(Encode64(bytes), Decoder(0, 0, 0, written)) == Ok(written + bytes)
    decreases |bytes|
  {
    if |bytes| == 0 {
      assert Encode64(bytes) == "" && written + bytes == written;
    } else if |bytes| == 1 {
      DecodeLastOne(bytes[0], written);
      assert Pads(2) == "==" && bytes == [bytes[0]];
    } else if |bytes| == 2 {
      DecodeLastTwo(bytes[0], bytes[1], written);
      assert Pads(1) == "=" && bytes == [bytes[0], bytes[1]];
    } else {
      DecodeFirstGroup(bytes, written);
      DecodeLetters(bytes[3..], written + bytes[..3]);
      assert written + bytes[..3] + bytes[3..] == written + bytes;
    }
  }

  lemma DecodeFirstGroup(bytes: seq<Byte>, written: seq<int>)
    requires |bytes| >= 3
    ensures Decode(Encode64(bytes), Decoder(0, 0, 0, written)) == Decode(Encode64(bytes[3..]), Decoder(0, 0, 0, written + bytes[..3]))
  {
    var a, b, c := bytes[0], bytes[1], bytes[2];
    var group := [Letter(a / 4), Letter(a % 4 * 16 + b / 16), Letter(b % 16 * 4 + c / 64), Letter(c % 64)];
    var rest := Letters(bytes[3..]);
    assert Letters(bytes) == group + rest;
    assert Missing(|Letters(bytes)|) == Missing(|rest|);
    assert Encode64(bytes) == group + Encode64(bytes[3..]);
    DecodeGroup(a, b, c, Encode64(bytes[3..]), written);
    assert [a, b, c] == bytes[..3];
  }

  /** Stripping the padding and restoring it from the length alone loses nothing. */
  lemma Base64RoundTrip(bytes: seq<Byte>)
    ensures var sent := StripPads(Encode64(bytes));
            '=' !in sent && Decode64(sent + Pads(Missing(|sent|))) == Ok(bytes)
  {
    LettersHaveNoPads(bytes);
    LettersLength(bytes);
    LetterCountGroups(|bytes|);
    StripUndoesPads(Letters(bytes), Missing(|Letters(bytes)|));
    DecodeLetters(bytes, []);
    LettersAreAscii(bytes);
    var text := Encode64(bytes);
    assert forall i :: 0 <= i < |text| ==> text[i] as int < 128;
    assert [] + bytes == bytes;
  }

  lemma {:induction false} LettersAreAscii(bytes: seq<Byte>)
    ensures forall i :: 0 <= i < |Letters(bytes)| ==> Letters(bytes)[i] as int < 128
  {
    if |bytes| >= 3 {
      LettersAreAscii(bytes[3..]);
    }
  }

  // ----- The cursor -----

  /** The library's text encoding and timestamp format. */
  datatype Codec = Codec(
    utf8: string -> seq<Byte>, fromUtf8: seq<int> -> Option<string>,
    iso: int -> string, fromIso: string -> Option<int>)

  ghost predicate CodecRight(c: Codec) {
    && (forall text :: c.fromUtf8(c.utf8(text)) == Some(text)) && c.fromUtf8([]) == Some("")
    && (forall t :: c.fromIso(c.iso(t)) == Some(t) && '|' !in c.iso(t))
  }

  const MAX_ID: nat := 32

  /** `raw.rsplit("|", 1)`; `None` where there is nothing to split. */
  function SplitLast(raw: string): Option<(string, string)> {
    if raw == "" then None
    else if raw[|raw| - 1] == '|' then Some((raw[..|raw| - 1], ""))
    else
      match SplitLast(raw[..|raw| - 1])
      case None => None
      case Some(parts) => Some((parts.0, parts.1 + [raw[|raw| - 1]]))
  }

  function EncodeCursor(c: Codec, startedAt: int, id: string): string {
    StripPads(Encode64(c.utf8(c.iso(startedAt) + "|" + id)))
  }

  function DecodeCursor(c: Codec, value: string): Result<(int, string)> {
    match Decode64(value + Pads(Missing(|value|)))
    case Err(e) => Err("Invalid Agent trace cursor")
    case Ok(bytes) =>
      match c.fromUtf8(bytes)
      case None => Err("Invalid Agent trace cursor")
      case Some(raw) =>
        match SplitLast(raw)
        case None => Err("Invalid Agent trace cursor")
        case Some(parts) =>
          match c.fromIso(parts.0)
          case None => Err("Invalid Agent trace cursor")
          case Some(startedAt) =>
            if parts.1 == "" || |parts.1| > MAX_ID then Err("Invalid Agent trace cursor") else Ok((startedAt, parts.1))
  }

  lemma {:induction false} SplitLastOfJoin(head: string, tail: string)
    ensures SplitLast(head + "|" + tail).Some?
    ensures '|' !in SplitLast(head + "|" + tail).value.1
    ensures '|' !in tail ==> SplitLast(head + "|" + tail) == Some((head, tail))
  {
    var raw := head + "|" + tail;
    if tail == "" {
      assert raw[..|raw| - 1] == head;
    } else {
      var init := tail[..|tail| - 1];
      assert raw[..|raw| - 1] == head + "|" + init;
      assert tail == init + [tail[|tail| - 1]];
      SplitLastOfJoin(head, init);
    }
  }

  lemma {:induction false} SplitLastIff(raw: string, head: string, tail: string)
    ensures SplitLast(raw) == Some((head, tail)) <==> raw == head + "|" + tail && '|' !in tail
  {
    if raw == head + "|" + tail && '|' !in tail {
      SplitLastOfJoin(head, tail);
    }
    if SplitLast(raw) == Some((head, tail)) {
      SplitJoins(raw);
    }
  }

  lemma {:induction false} SplitJoins(raw: string)
    requires SplitLast(raw).Some?
    ensures raw == SplitLast(raw).value.0 + "|" + SplitLast(raw).value.1 && '|' !in SplitLast(raw).value.1
  {
    var last := raw[|raw| - 1];
    assert raw == raw[..|raw| - 1] + [last];
    if last != '|' {
      SplitJoins(raw[..|raw| - 1]);
    }
  }

  /** Which texts are cursors: any text that was encoded decodes to a time and an id exactly when what
      follows its last separator is that id, of 1 to 32 characters, and what precedes it is that time. */
  lemma CursorDecodesIff(c: Codec, raw: string, startedAt: int, id: string)
    requires CodecRight(c)
    ensures DecodeCursor(c, StripPads(Encode64(c.utf8(raw)))) == Ok((startedAt, id)) <==>
            exists head :: raw == head + "|" + id && '|' !in id && 1 <= |id| <= 32 && c.fromIso(head) == Some(startedAt)
  {
    Base64RoundTrip(c.utf8(raw));
    assert c.fromUtf8(c.utf8(raw)) == Some(raw);
    forall head, tail ensures SplitLast(raw) == Some((head, tail)) <==> raw == head + "|" + tail && '|' !in tail {
      SplitLastIff(raw, head, tail);
    }
  }

  /** A cursor decodes to the row it was made from exactly when the row's id is not empty, has at most 32
      characters and contains no separator. */
  lemma CursorRoundTripIff(c: Codec, startedAt: int, id: string)
    requires CodecRight(c)
    ensures DecodeCursor(c, EncodeCursor(c, startedAt, id)) == Ok((startedAt, id)) <==>
            id != "" && |id| <= MAX_ID && '|' !in id
  {
    var raw := c.iso(startedAt) + "|" + id;
    Base64RoundTrip(c.utf8(raw));
    SplitLastOfJoin(c.iso(startedAt), id);
    assert c.fromUtf8(c.utf8(raw)) == Some(raw);
    assert c.fromIso(c.iso(startedAt)) == Some(startedAt);
  }
}
