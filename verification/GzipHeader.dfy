/** The gzip header reader of the release audit (section 2.3 of RFC 1952): the stream-advancing code,
    and the layout it reads back. */
module GzipHeader {
  import opened Common

  type Byte = n: int | 0 <= n < 256

  type Bytes = seq<Byte>

  const MAX_METADATA_BYTES: nat := 64 * 1024
  const MAGIC: Bytes := [0x1f, 0x8b, 0x08]
  const SEPARATOR: Bytes := [10]

  // ----- The layout -----

  /** `fixed` is the time stamp, the extra flags and the operating system: six bytes nobody reads. */
  datatype Header = Header(
    flags: Byte, fixed: Bytes, extra: Option<Bytes>, name: Option<Bytes>, comment: Option<Bytes>, checksum: Option<Bytes>)

  /** Bit `n` of a flag byte. */
  predicate Bit(flags: Byte, n: nat)
    requires n < 5
  {
    match n
    case 0 => flags % 2 == 1
    case 1 => flags / 2 % 2 == 1
    case 2 => flags / 4 % 2 == 1
    case 3 => flags / 8 % 2 == 1
    case _ => flags / 16 % 2 == 1
  }

  /** `flags & 0xE0` */
  predicate ReservedBits(flags: Byte) {
    flags >= 32
  }

  /** A field that ends in a zero byte. */
  predicate TextValid(text: Bytes) {
    0 !in text && |text| <= MAX_METADATA_BYTES
  }

  predicate HeaderValid(h: Header) {
    && !ReservedBits(h.flags) && |h.fixed| == 6
    && (h.extra.Some? <==> Bit(h.flags, 2)) && (h.extra.Some? ==> |h.extra.value| < 65536)
    && (h.name.Some? <==> Bit(h.flags, 3)) && (h.name.Some? ==> TextValid(h.name.value))
    && (h.comment.Some? <==> Bit(h.flags, 4)) && (h.comment.Some? ==> TextValid(h.comment.value))
    && (h.checksum.Some? <==> Bit(h.flags, 1)) && (h.checksum.Some? ==> |h.checksum.value| == 2)
  }

  function FixedBytes(flags: Byte, fixed: Bytes): Bytes {
    MAGIC + [flags] + fixed
  }

  /** The extra field is preceded by its length, low byte first. */
  function ExtraBytes(extra: Option<Bytes>): Bytes {
    if extra.None? then [] else [|extra.value| % 256, |extra.value| / 256 % 256] + extra.value
  }

  function TextBytes(text: Option<Bytes>): Bytes {
    if text.None? then [] else text.value + [0]
  }

  function ChecksumBytes(checksum: Option<Bytes>): Bytes {
    if checksum.None? then [] else checksum.value
  }

  function Layout(h: Header): Bytes {
    FixedBytes(h.flags, h.fixed) + (ExtraBytes(h.extra) + (TextBytes(h.name) + (TextBytes(h.comment) + ChecksumBytes(h.checksum))))
  }

  // ----- The specification of the reader -----

  datatype Parsed<T> = Parsed(value: T, rest: Bytes)

  function TakeExact(data: Bytes, n: nat): Result<Parsed<Bytes>> {
    if |data| < n then Err("gzip metadata is truncated") else Ok(Parsed(data[..n], data[n..]))
  }

  function TakeTerminated(data: Bytes, value: Bytes): Result<Parsed<Bytes>>
    decreases |data|
  {
    if |value| > MAX_METADATA_BYTES then Err("gzip metadata is too large to inspect safely")
    else if data == [] then Err("gzip metadata is truncated")
    else if data[0] == 0 then Ok(Parsed(value, data[1..]))
    else TakeTerminated(data[1..], value + [data[0]])
  }

  function TakeFixed(data: Bytes): Result<Parsed<Bytes>> {
    match TakeExact(data, 10)
    case Err(e) => Err(e)
    case Ok(p) =>
      if p.value[..3] != MAGIC || ReservedBits(p.value[3]) then Err("gzip header is invalid") else Ok(p)
  }

  /** `int.from_bytes(size, "little")` */
  function LittleEndian(size: Bytes): nat
    requires |size| == 2
  {
    size[0] as int + size[1] as int * 256
  }

  function TakeExtra(data: Bytes, flag: bool): Result<Parsed<Option<Bytes>>> {
    if !flag then Ok(Parsed(None, data))
    else
      match TakeExact(data, 2)
      case Err(e) => Err(e)
      case Ok(size) =>
        match TakeExact(size.rest, LittleEndian(size.value))
        case Err(e) => Err(e)
        case Ok(p) => Ok(Parsed(Some(p.value), p.rest))
  }

  function TakeText(data: Bytes, flag: bool): Result<Parsed<Option<Bytes>>> {
    if !flag then Ok(Parsed(None, data))
    else
      match TakeTerminated(data, [])
      case Err(e) => Err(e)
      case Ok(p) => Ok(Parsed(Some(p.value), p.rest))
  }

  function TakeChecksum(data: Bytes, flag: bool): Result<Parsed<Option<Bytes>>> {
    if !flag then Ok(Parsed(None, data))
    else
      match TakeExact(data, 2)
      case Err(e) => Err(e)
      case Ok(p) => Ok(Parsed(Some(p.value), p.rest))
  }

  function ParseHeader(data: Bytes): Result<Parsed<Header>> {
    match TakeFixed(data)
    case Err(e) => Err(e)
    case Ok(start) =>
      var flags := start.value[3];
      match TakeExtra(start.rest, Bit(flags, 2))
      case Err(e) => Err(e)
      case Ok(extra) =>
        match TakeText(extra.rest, Bit(flags, 3))
        case Err(e) => Err(e)
        case Ok(name) =>
          match TakeText(name.rest, Bit(flags, 4))
          case Err(e) => Err(e)
          case Ok(comment) =>
            match TakeChecksum(comment.rest, Bit(flags, 1))
            case Err(e) => Err(e)
            case Ok(checksum) =>
              Ok(Parsed(Header(flags, start.value[4..], extra.value, name.value, comment.value, checksum.value), checksum.rest))
  }

  // ----- What the reader returns -----

  function Join(values: seq<Bytes>): Bytes {
    if values == [] then []
    else if |values| == 1 then values[0]
    else Join(values[..|values| - 1]) + SEPARATOR + values[|values| - 1]
  }

  function NonEmpty(): Bytes -> bool {
    (value: Bytes) => value != []
  }

  /** `_metadata_body` */
  function MetadataBody(values: seq<Bytes>): Result<Bytes> {
    var body := Join(Filter(values, NonEmpty()));
    if |body| > MAX_METADATA_BYTES then Err("archive metadata is too large to inspect safely") else Ok(body)
  }

  function Present(field: Option<Bytes>): seq<Bytes> {
    if field.Some? then [field.value] else []
  }

  function Fields(h: Header): seq<Bytes> {
    Present(h.extra) + Present(h.name) + Present(h.comment)
  }

  function ReadHeader(data: Bytes): Result<Bytes> {
    match ParseHeader(data)
    case Err(e) => Err(e)
    case Ok(p) => MetadataBody(Fields(p.value))
  }

  // ----- The code -----

  class Stream {
    const data: Bytes
    var position: nat

    constructor (data: Bytes)
      ensures this.data == data && position == 0
    {
      this.data, position := data, 0;
    }

    ghost predicate Valid()
      reads this
    {
      position <= |data|
    }

    ghost function Rest(): Bytes
      requires Valid()
      reads this
    {
      data[position..]
    }

    /** `stream.read(length)`: at most `length` bytes. */
    method Read(length: nat) returns (body: Bytes)
      requires Valid()
      modifies this
      ensures Valid()
      ensures body == if |old(Rest())| < length then old(Rest()) else old(Rest())[..length]
      ensures old(Rest()) == body + Rest()
    {
      var end := if position + length <= |data| then position + length else |data|;
      body := data[position..end];
      position := end;
    }

    method Seek(to: nat)
      requires to <= |data|
      modifies this
      ensures Valid() && position == to
    {
      position := to;
    }

    method ReadExact(length: nat) returns (r: Result<Bytes>)
      requires Valid()
      modifies this
      ensures Valid()
      ensures r.Ok? <==> TakeExact(old(Rest()), length).Ok?
      ensures r.Ok? ==> TakeExact(old(Rest()), length) == Ok(Parsed(r.value, Rest()))
      ensures r.Err? ==> TakeExact(old(Rest()), length) == Err(r.error)
    {
      ghost var before := Rest();
      var body := Read(length);
      if |body| != length {
        return Err("gzip metadata is truncated");
      }
      assert before[..length] == body && before[length..] == Rest();
      r := Ok(body);
    }

    method ReadTerminated() returns (r: Result<Bytes>)
      requires Valid()
      modifies this
      ensures Valid()
      ensures r.Ok? ==> TakeTerminated(old(Rest()), []) == Ok(Parsed(r.value, Rest()))
      ensures r.Err? ==> TakeTerminated(old(Rest()), []) == Err(r.error)
    {
      var value: Bytes := [];
      while |value| <= MAX_METADATA_BYTES
        invariant Valid() && |value| <= MAX_METADATA_BYTES + 1
        invariant TakeTerminated(Rest(), value) == TakeTerminated(old(Rest()), [])
        decreases MAX_METADATA_BYTES + 1 - |value|
      {
        ghost var before := Rest();
        var byte := ReadExact(1);
        if byte.Err? {
          return Err(byte.error);
        }
        assert byte.value == before[..1] == [before[0]] && before[1..] == Rest();
        if byte.value[0] == 0 {
          return Ok(value);
        }
        value := value + byte.value;
      }
      return Err("gzip metadata is too large to inspect safely");
    }

    method ReadExtra(flag: bool) returns (r: Result<Option<Bytes>>)
      requires Valid()
      modifies this
      ensures Valid()
      ensures r.Ok? ==> TakeExtra(old(Rest()), flag) == Ok(Parsed(r.value, Rest()))
      ensures r.Err? ==> TakeExtra(old(Rest()), flag) == Err(r.error)
    {
      if !flag {
        return Ok(None);
      }
      var size := ReadExact(2);
      if size.Err? {
        return Err(size.error);
      }
      var extra := ReadExact(LittleEndian(size.value));
      r := if extra.Err? then Err(extra.error) else Ok(Some(extra.value));
    }

    method ReadText(flag: bool) returns (r: Result<Option<Bytes>>)
      requires Valid()
      modifies this
      ensures Valid()
      ensures r.Ok? ==> TakeText(old(Rest()), flag) == Ok(Parsed(r.value, Rest()))
      ensures r.Err? ==> TakeText(old(Rest()), flag) == Err(r.error)
    {
      if !flag {
        return Ok(None);
      }
      var text := ReadTerminated();
      r := if text.Err? then Err(text.error) else Ok(Some(text.value));
    }

    method SkipChecksum(flag: bool) returns (r: Result<bool>)
      requires Valid()
      modifies this
      ensures Valid()
      ensures r.Ok? ==> TakeChecksum(old(Rest()), flag).Ok?
      ensures r.Err? ==> TakeChecksum(old(Rest()), flag) == Err(r.error)
    {
      if !flag {
        return Ok(false);
      }
      var checksum := ReadExact(2);
      r := if checksum.Err? then Err(checksum.error) else Ok(true);
    }

    /** The fields after the fixed part, in the order the flags announce them. */
    method ReadFields(flags: Byte) returns (r: Result<seq<Bytes>>)
      requires Valid()
      modifies this
      ensures Valid()
      ensures r == FieldsFrom(old(Rest()), flags)
    {
      var extra := ReadExtra(Bit(flags, 2));
      if extra.Err? {
        return Err(extra.error);
      }
      var values := Present(extra.value);
      var name := ReadText(Bit(flags, 3));
      if name.Err? {
        return Err(name.error);
      }
      values := values + Present(name.value);
      var comment := ReadText(Bit(flags, 4));
      if comment.Err? {
        return Err(comment.error);
      }
      values := values + Present(comment.value);
      var checksum := SkipChecksum(Bit(flags, 1));
      if checksum.Err? {
        return Err(checksum.error);
      }
      r := Ok(values);
    }

    /** `_gzip_metadata`, whose `finally` rewinds the stream on every path. */
    method GzipMetadata() returns (r: Result<Bytes>)
      requires Valid()
      modifies this
      ensures r == ReadHeader(old(Rest()))
      ensures position == 0
    {
      ReadHeaderByFields(Rest());
      var header := ReadExact(10);
      if header.Err? {
        r := Err(header.error);
      } else if header.value[..3] != MAGIC || ReservedBits(header.value[3]) {
        r := Err("gzip header is invalid");
      } else {
        var values := ReadFields(header.value[3]);
        if values.Err? {
          r := Err(values.error);
        } else {
          r := MetadataBody(values.value);
        }
      }
      Seek(0);
    }
  }

  /** The fields read after the fixed part, or the first error. */
  function FieldsFrom(data: Bytes, flags: Byte): Result<seq<Bytes>> {
    match TakeExtra(data, Bit(flags, 2))
    case Err(e) => Err(e)
    case Ok(extra) =>
      match TakeText(extra.rest, Bit(flags, 3))
      case Err(e) => Err(e)
      case Ok(name) =>
        match TakeText(name.rest, Bit(flags, 4))
        case Err(e) => Err(e)
        case Ok(comment) =>
          match TakeChecksum(comment.rest, Bit(flags, 1))
          case Err(e) => Err(e)
          case Ok(_) => Ok(Present(extra.value) + Present(name.value) + Present(comment.value))
  }

  lemma ReadHeaderByFields(data: Bytes)
    ensures TakeFixed(data).Err? ==> ReadHeader(data) == Err(TakeFixed(data).error)
    ensures TakeFixed(data).Ok? ==>
              var start := TakeFixed(data).value;
              ReadHeader(data) ==
                match FieldsFrom(start.rest, start.value[3])
                case Err(e) => Err(e)
                case Ok(values) => MetadataBody(values)
  {
  }

  // ----- Reading what was laid out -----

  lemma TakeExactIff(data: Bytes, n: nat, value: Bytes, rest: Bytes)
    ensures TakeExact(data, n) == Ok(Parsed(value, rest)) <==> |value| == n && data == value + rest
  {
  }

  lemma {:induction false} TakeTerminatedIff(data: Bytes, prefix: Bytes, value: Bytes, rest: Bytes)
    requires |prefix| <= MAX_METADATA_BYTES
    ensures TakeTerminated(data, prefix) == Ok(Parsed(prefix + value, rest)) <==>
            0 !in value && |prefix + value| <= MAX_METADATA_BYTES && data == value + [0] + rest
    decreases |data|
  {
    if data == [] {
    } else if data[0] == 0 {
      if value == [] {
        assert [] + [0] + rest == [0] + rest;
        assert data == [0] + data[1..];
        assert prefix + [] == prefix;
      } else {
        assert |prefix + value| > |prefix|;
        assert (value + [0] + rest)[0] == value[0];
      }
    } else {
      TerminatedStep(data, prefix, value, rest);
    }
  }

  lemma TerminatedStep(data: Bytes, prefix: Bytes, value: Bytes, rest: Bytes)
    requires |prefix| <= MAX_METADATA_BYTES && data != [] && data[0] != 0
    ensures TakeTerminated(data, prefix) == Ok(Parsed(prefix + value, rest)) <==>
            0 !in value && |prefix + value| <= MAX_METADATA_BYTES && data == value + [0] + rest
    decreases |data|, 0
  {
    var longer := prefix + [data[0]];
    if value != [] && value[0] == data[0] {
      assert prefix + value == longer + value[1..];
      assert value == [value[0]] + value[1..];
      assert value + [0] + rest == [value[0]] + (value[1..] + [0] + rest);
      assert data == [data[0]] + data[1..];
      if |longer| <= MAX_METADATA_BYTES {
        TakeTerminatedIff(data[1..], longer, value[1..], rest);
      }
    } else {
      assert (value + [0] + rest)[0] == if value == [] then 0 else value[0];
      if |longer| <= MAX_METADATA_BYTES {
        TerminatedExtends(data[1..], longer);
        assert longer[|prefix|] == data[0];
      }
    }
  }

  /** What the loop returns extends what it already has. */
  lemma {:induction false} TerminatedExtends(data: Bytes, prefix: Bytes)
    ensures TakeTerminated(data, prefix).Ok? ==> prefix <= TakeTerminated(data, prefix).value.value
    decreases |data|
  {
    if |prefix| <= MAX_METADATA_BYTES && data != [] && data[0] != 0 {
      TerminatedExtends(data[1..], prefix + [data[0]]);
    }
  }

  lemma TakeTextIff(data: Bytes, flag: bool, text: Option<Bytes>, rest: Bytes)
    ensures TakeText(data, flag) == Ok(Parsed(text, rest)) <==>
            (text.Some? <==> flag) && (text.Some? ==> TextValid(text.value)) && data == TextBytes(text) + rest
  {
    assert TextBytes(None) + rest == rest;
    if flag && text.Some? {
      assert [] + text.value == text.value;
      TakeTerminatedIff(data, [], text.value, rest);
    }
  }

  lemma TakeChecksumIff(data: Bytes, flag: bool, checksum: Option<Bytes>, rest: Bytes)
    ensures TakeChecksum(data, flag) == Ok(Parsed(checksum, rest)) <==>
            (checksum.Some? <==> flag) && (checksum.Some? ==> |checksum.value| == 2) && data == ChecksumBytes(checksum) + rest
  {
    assert ChecksumBytes(None) + rest == rest;
    if flag && checksum.Some? {
      TakeExactIff(data, 2, checksum.value, rest);
    }
  }

  lemma TakeExtraIff(data: Bytes, flag: bool, extra: Option<Bytes>, rest: Bytes)
    ensures TakeExtra(data, flag) == Ok(Parsed(extra, rest)) <==>
            (extra.Some? <==> flag) && (extra.Some? ==> |extra.value| < 65536) && data == ExtraBytes(extra) + rest
  {
    assert ExtraBytes(None) + rest == rest;
    if flag && extra.Some? {
      SizedIff(data, extra.value, rest);
    }
  }

  lemma SizeBytes(n: nat, size: Bytes)
    requires n < 65536 && |size| == 2
    ensures LittleEndian(size) == n <==> size == [n % 256, n / 256 % 256]
  {
  }

  lemma SizedIff(data: Bytes, value: Bytes, rest: Bytes)
    ensures TakeExtra(data, true) == Ok(Parsed(Some(value), rest)) <==>
            |value| < 65536 && data == ExtraBytes(Some(value)) + rest
  {
    var size: Bytes := [|value| % 256, |value| / 256 % 256];
    assert ExtraBytes(Some(value)) + rest == size + (value + rest);
    if |data| >= 2 {
      assert data == data[..2] + data[2..];
      TakeExactIff(data[2..], LittleEndian(data[..2]), value, rest);
      if |value| < 65536 {
        SizeBytes(|value|, data[..2]);
      }
      assert (size + (value + rest))[..2] == size && (size + (value + rest))[2..] == value + rest;
    }
  }

  lemma TakeFixedIff(data: Bytes, start: Bytes, rest: Bytes)
    ensures TakeFixed(data) == Ok(Parsed(start, rest)) <==>
            |start| == 10 && start[..3] == MAGIC && !ReservedBits(start[3]) && data == start + rest
  {
    TakeExactIff(data, 10, start, rest);
  }

  lemma LayoutSplits(h: Header, rest: Bytes)
    ensures var afterComment := ChecksumBytes(h.checksum) + rest;
            var afterName := TextBytes(h.comment) + afterComment;
            var afterExtra := TextBytes(h.name) + afterName;
            Layout(h) + rest == FixedBytes(h.flags, h.fixed) + (ExtraBytes(h.extra) + afterExtra)
  {
  }

  /** Any valid header is read back, whatever follows it. */
  lemma ParseLaidOut(h: Header, rest: Bytes)
    requires HeaderValid(h)
    ensures ParseHeader(Layout(h) + rest) == Ok(Parsed(h, rest))
  {
    var afterComment := ChecksumBytes(h.checksum) + rest;
    var afterName := TextBytes(h.comment) + afterComment;
    var afterExtra := TextBytes(h.name) + afterName;
    var afterFixed := ExtraBytes(h.extra) + afterExtra;
    var start := FixedBytes(h.flags, h.fixed);
    LayoutSplits(h, rest);
    assert start[..3] == MAGIC && start[3] == h.flags && start[4..] == h.fixed;
    TakeFixedIff(Layout(h) + rest, start, afterFixed);
    TakeExtraIff(afterFixed, Bit(h.flags, 2), h.extra, afterExtra);
    TakeTextIff(afterExtra, Bit(h.flags, 3), h.name, afterName);
    TakeTextIff(afterName, Bit(h.flags, 4), h.comment, afterComment);
    TakeChecksumIff(afterComment, Bit(h.flags, 1), h.checksum, rest);
  }

  /** Conversely, the reader accepts nothing but a valid header laid out in full. */
  lemma ParsedIsLaidOut(data: Bytes)
    requires ParseHeader(data).Ok?
    ensures var p := ParseHeader(data).value; HeaderValid(p.value) && data == Layout(p.value) + p.rest
  {
    var p := ParseHeader(data).value;
    var h := p.value;
    var start := TakeFixed(data).value;
    var extra := TakeExtra(start.rest, Bit(h.flags, 2)).value;
    var name := TakeText(extra.rest, Bit(h.flags, 3)).value;
    var comment := TakeText(name.rest, Bit(h.flags, 4)).value;
    TakeFixedIff(data, start.value, start.rest);
    TakeExtraIff(start.rest, Bit(h.flags, 2), h.extra, extra.rest);
    TakeTextIff(extra.rest, Bit(h.flags, 3), h.name, name.rest);
    TakeTextIff(name.rest, Bit(h.flags, 4), h.comment, comment.rest);
    TakeChecksumIff(comment.rest, Bit(h.flags, 1), h.checksum, p.rest);
    assert start.value == FixedBytes(h.flags, h.fixed) by {
      assert start.value == start.value[..3] + [start.value[3]] + start.value[4..];
    }
    LayoutSplits(h, p.rest);
  }

  // ----- Main results -----

  /** For any flags, any field contents within the limits and anything after the header, reading a laid
      out header returns its non-empty fields in order, or refuses them for their joint size. */
  lemma HeaderRoundTrip(h: Header, rest: Bytes)
    requires HeaderValid(h)
    ensures ReadHeader(Layout(h) + rest) == MetadataBody(Fields(h))
  {
    ParseLaidOut(h, rest);
  }

  /** Data is accepted exactly when it begins with a valid header whose fields fit the limit together. */
  lemma AcceptedIff(data: Bytes)
    ensures ReadHeader(data).Ok? <==>
            exists h, rest :: HeaderValid(h) && data == Layout(h) + rest && MetadataBody(Fields(h)).Ok?
  {
    if ReadHeader(data).Ok? {
      ParsedIsLaidOut(data);
    }
    if h, rest :| HeaderValid(h) && data == Layout(h) + rest && MetadataBody(Fields(h)).Ok? {
      HeaderRoundTrip(h, rest);
    }
  }

  /** Header bytes are read in one way only. */
  lemma SameLayout(p: Header, rest: Bytes, h: Header)
    requires HeaderValid(p) && HeaderValid(h) && Layout(p) + rest == Layout(h)
    ensures p == h && rest == []
  {
    ParseLaidOut(p, rest);
    ParseLaidOut(h, []);
    assert Layout(h) + [] == Layout(h);
  }

  /** No strict prefix of a header is accepted. */
  lemma StrictPrefixIsRejected(h: Header, n: nat)
    requires HeaderValid(h) && n < |Layout(h)|
    ensures ReadHeader(Layout(h)[..n]).Err?
  {
    var short, tail := Layout(h)[..n], Layout(h)[n..];
    if ParseHeader(short).Ok? {
      ParsedIsLaidOut(short);
      var p := ParseHeader(short).value;
      assert Layout(h) == short + tail;
      Regroup(Layout(p.value), p.rest, tail);
      assert |p.rest + tail| > 0;
      SameLayout(p.value, p.rest + tail, h);
      assert false;
    }
  }
}
