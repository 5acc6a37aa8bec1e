/** What the release audit accepts, spelled out: gzip headers byte by byte (section 2.3 of RFC 1952), and
    archive member paths component by component. */
module AuditContract {
  import opened Common
  import opened ArchivePath
  import opened GzipHeader

  // ----- Gzip headers -----

  /** The parts of a member's beginning; absent fields are empty. */
  datatype Parts = Parts(flags: Byte, fixed: Bytes, extra: Bytes, name: Bytes, comment: Bytes, checksum: Bytes, rest: Bytes)

  /** The field is announced by the flag of this weight. */
  predicate Announced(flags: Byte, weight: Byte)
    requires weight > 0
  {
    flags / weight % 2 == 1
  }

  /** Length, low byte first, and content. */
  predicate IsSized(bytes: Bytes, content: Bytes) {
    |bytes| == 2 + |content| && bytes[2..] == content && |content| == bytes[0] as int + 256 * bytes[1] as int
  }

  predicate IsZeroEnded(bytes: Bytes, content: Bytes) {
    bytes == content + [0] && 0 !in content && |content| <= 65_536
  }

  /** Magic number and method, flags without a reserved bit, six bytes that are not read, and then the fields
      the flags announce, in this order. */
  ghost predicate Begins(data: Bytes, p: Parts, extra: Bytes, name: Bytes, comment: Bytes) {
    && data == [31, 139, 8, p.flags] + p.fixed + extra + name + comment + p.checksum + p.rest
    && p.flags < 32 && |p.fixed| == 6
    && (if Announced(p.flags, 4) then IsSized(extra, p.extra) else extra == [] && p.extra == [])
    && (if Announced(p.flags, 8) then IsZeroEnded(name, p.name) else name == [] && p.name == [])
    && (if Announced(p.flags, 16) then IsZeroEnded(comment, p.comment) else comment == [] && p.comment == [])
    && |p.checksum| == (if Announced(p.flags, 2) then 2 else 0)
  }

  /** Two texts on lines of their own, if there are two. */
  function Lines(a: Bytes, b: Bytes): Bytes {
    if a == [] then b else if b == [] then a else a + [10] + b
  }

  ghost predicate IsHeader(data: Bytes, p: Parts) {
    exists extra, name, comment :: Begins(data, p, extra, name, comment)
  }

  ghost predicate Yields(data: Bytes, body: Bytes) {
    |body| <= 65_536 && exists p :: IsHeader(data, p) && body == Lines(Lines(p.extra, p.name), p.comment)
  }

  lemma BitsAre(flags: Byte)
    ensures Bit(flags, 1) <==> Announced(flags, 2)
    ensures Bit(flags, 2) <==> Announced(flags, 4)
    ensures Bit(flags, 3) <==> Announced(flags, 8)
    ensures Bit(flags, 4) <==> Announced(flags, 16)
    ensures ReservedBits(flags) <==> flags >= 32
  {
  }

  function OrEmpty(field: Option<Bytes>): Bytes {
    if field.Some? then field.value else []
  }

  lemma ExtraIs(extra: Bytes)
    requires |extra| < 65536
    ensures IsSized(ExtraBytes(Some(extra)), extra)
  {
  }

  lemma SizedIs(bytes: Bytes, extra: Bytes)
    requires IsSized(bytes, extra)
    ensures |extra| < 65536 && bytes == ExtraBytes(Some(extra))
  {
    assert bytes == [bytes[0], bytes[1]] + bytes[2..];
    SizeBytes(|extra|, bytes[..2]);
  }

  lemma JoinTwo(a: Bytes, b: Bytes)
    ensures Join([a, b]) == a + [10] + b && Join([a]) == a && Join([]) == []
  {
    assert [a, b][..1] == [a];
  }

  lemma JoinThree(a: Bytes, b: Bytes, c: Bytes)
    ensures Join([a, b, c]) == a + [10] + b + [10] + c
  {
    assert [a, b, c][..2] == [a, b];
    JoinTwo(a, b);
  }

  lemma KeptOne(values: seq<Bytes>, value: Bytes)
    ensures Filter(values + [value], NonEmpty()) == if value == [] then Filter(values, NonEmpty()) else Filter(values, NonEmpty()) + [value]
  {
    FilterSnoc(values, value, NonEmpty());
  }

  lemma KeptField(values: seq<Bytes>, field: Option<Bytes>)
    ensures Filter(values + Present(field), NonEmpty()) ==
            if OrEmpty(field) == [] then Filter(values, NonEmpty()) else Filter(values, NonEmpty()) + [OrEmpty(field)]
  {
    if field.Some? {
      KeptOne(values, field.value);
    } else {
      assert values + [] == values;
    }
  }

  function Kept(a: Bytes, b: Bytes, c: Bytes): seq<Bytes> {
    (if a == [] then [] else [a]) + (if b == [] then [] else [b]) + (if c == [] then [] else [c])
  }

  lemma KeptFields(h: Header)
    ensures Filter(Fields(h), NonEmpty()) == Kept(OrEmpty(h.extra), OrEmpty(h.name), OrEmpty(h.comment))
  {
    KeptField([], h.extra);
    assert [] + Present(h.extra) == Present(h.extra);
    KeptField(Present(h.extra), h.name);
    KeptField(Present(h.extra) + Present(h.name), h.comment);
  }

  lemma JoinKept(a: Bytes, b: Bytes, c: Bytes)
    ensures Join(Kept(a, b, c)) == Lines(Lines(a, b), c)
  {
    JoinTwo(a, b);
    JoinTwo(a, c);
    JoinTwo(b, c);
    JoinTwo(c, c);
    JoinThree(a, b, c);
  }

  lemma BodyIs(h: Header)
    ensures Join(Filter(Fields(h), NonEmpty())) == Lines(Lines(OrEmpty(h.extra), OrEmpty(h.name)), OrEmpty(h.comment))
  {
    KeptFields(h);
    JoinKept(OrEmpty(h.extra), OrEmpty(h.name), OrEmpty(h.comment));
  }

  lemma LayoutIs(h: Header, rest: Bytes)
    ensures Layout(h) + rest ==
            [31, 139, 8, h.flags] + h.fixed + ExtraBytes(h.extra) + TextBytes(h.name) + TextBytes(h.comment) + ChecksumBytes(h.checksum) + rest
  {
  }

  lemma HeaderBegins(h: Header, rest: Bytes)
    requires HeaderValid(h)
    ensures IsHeader(Layout(h) + rest, Parts(h.flags, h.fixed, OrEmpty(h.extra), OrEmpty(h.name), OrEmpty(h.comment), OrEmpty(h.checksum), rest))
  {
    BitsAre(h.flags);
    LayoutIs(h, rest);
    if h.extra.Some? {
      ExtraIs(h.extra.value);
    }
    assert Begins(Layout(h) + rest, Parts(h.flags, h.fixed, OrEmpty(h.extra), OrEmpty(h.name), OrEmpty(h.comment), OrEmpty(h.checksum), rest),
                  ExtraBytes(h.extra), TextBytes(h.name), TextBytes(h.comment));
  }

  /** The header the parts belong to. */
  function HeaderOf(p: Parts): Header {
    Header(p.flags, p.fixed,
           if Announced(p.flags, 4) then Some(p.extra) else None, if Announced(p.flags, 8) then Some(p.name) else None,
           if Announced(p.flags, 16) then Some(p.comment) else None, if Announced(p.flags, 2) then Some(p.checksum) else None)
  }

  lemma BegunIsHeader(data: Bytes, p: Parts, extra: Bytes, name: Bytes, comment: Bytes)
    requires Begins(data, p, extra, name, comment)
    ensures HeaderValid(HeaderOf(p)) && data == Layout(HeaderOf(p)) + p.rest
    ensures OrEmpty(HeaderOf(p).extra) == p.extra && OrEmpty(HeaderOf(p).name) == p.name && OrEmpty(HeaderOf(p).comment) == p.comment
  {
    BitsAre(p.flags);
    if Announced(p.flags, 4) {
      SizedIs(extra, p.extra);
    }
    LayoutIs(HeaderOf(p), p.rest);
  }

  lemma ReadYields(data: Bytes, body: Bytes)
    requires ReadHeader(data) == Ok(body)
    ensures Yields(data, body)
  {
    ParsedIsLaidOut(data);
    var parsed := ParseHeader(data).value;
    HeaderBegins(parsed.value, parsed.rest);
    BodyIs(parsed.value);
  }

  lemma HeaderReads(data: Bytes, p: Parts, body: Bytes)
    requires IsHeader(data, p) && body == Lines(Lines(p.extra, p.name), p.comment) && |body| <= 65_536
    ensures ReadHeader(data) == Ok(body)
  {
    var extra, name, comment :| Begins(data, p, extra, name, comment);
    BegunIsHeader(data, p, extra, name, comment);
    HeaderRoundTrip(HeaderOf(p), p.rest);
    BodyIs(HeaderOf(p));
  }

  /** The reader returns exactly these metadata: those of a header the data begin with, its non-empty fields
      on lines of their own, and at most 64 KiB together. */
  lemma ReadsIff(data: Bytes, body: Bytes)
    ensures ReadHeader(data) == Ok(body) <==> Yields(data, body)
  {
    if ReadHeader(data) == Ok(body) {
      ReadYields(data, body);
    }
    if Yields(data, body) {
      var p :| IsHeader(data, p) && body == Lines(Lines(p.extra, p.name), p.comment);
      HeaderReads(data, p, body);
    }
  }

  // ----- Member paths -----

  /** The components with a slash between any two. */
  function Slashed(parts: seq<string>): string {
    if parts == [] then "" else if |parts| == 1 then parts[0] else Slashed(parts[..|parts| - 1]) + "/" + parts[|parts| - 1]
  }

  predicate AreComponents(path: string, parts: seq<string>) {
    |parts| >= 1 && path == Slashed(parts) && forall part :: part in parts ==> '/' !in part
  }

  /** At most 32 components, each a real name, and no drive letter in front. */
  predicate Descends(parts: seq<string>, isAlpha: char -> bool) {
    && 1 <= |parts| <= 32 && (forall part :: part in parts ==> part != "" && part != "." && part != "..")
    && !(|parts[0]| == 2 && isAlpha(parts[0][0]) && parts[0][1] == ':')
  }

  ghost predicate IsMember(path: string, name: string, directory: bool, size: nat, isAlpha: char -> bool) {
    && (name == path || (directory && name == path + "/"))
    && '\0' !in name && '\\' !in name && size <= 4096
    && exists parts :: AreComponents(path, parts) && Descends(parts, isAlpha)
  }

  lemma {:induction false} SlashedIsJoin(parts: seq<string>)
    ensures Slashed(parts) == JoinParts(parts)
  {
    if |parts| > 1 {
      SlashedIsJoin(parts[..|parts| - 1]);
    }
  }

  lemma {:induction false} SplitHasNoSlash(text: string)
    ensures forall part :: part in Split(text) ==> '/' !in part
  {
    if text != "" {
      SplitHasNoSlash(text[..|text| - 1]);
    }
  }

  lemma SplitIsComponents(text: string)
    ensures AreComponents(text, Split(text))
  {
    JoinSplit(text);
    SlashedIsJoin(Split(text));
    SplitHasNoSlash(text);
  }

  /** There is only one way to take a path apart. */
  lemma {:induction false} ComponentsAreSplit(init: seq<string>, last: string)
    requires forall part :: part in init + [last] ==> '/' !in part
    ensures Split(JoinParts(init + [last])) == init + [last]
    decreases |init|, |last|
  {
    if last != "" {
      var n := |last| - 1;
      assert forall part :: part in init ==> part in init + [last];
      assert last in init + [last] && last == last[..n] + [last[n]];
      ComponentsAreSplit(init, last[..n]);
      JoinAppends(init, last[..n], last[n]);
      SplitSnoc(JoinParts(init + [last[..n]]), last[n]);
    } else if init != [] {
      var front, end := init[..|init| - 1], init[|init| - 1];
      assert init == front + [end];
      assert forall part :: part in init ==> part in init + [last];
      ComponentsAreSplit(front, end);
      JoinSnoc(init, "");
      SplitSnoc(JoinParts(init), '/');
      assert JoinParts(init) + "/" + "" == JoinParts(init) + ['/'];
    }
  }

  lemma SplitSnoc(text: string, c: char)
    ensures Split(text + [c]) ==
            (var init := Split(text); if c == '/' then init + [""] else init[..|init| - 1] + [init[|init| - 1] + [c]])
  {
    assert (text + [c])[..|text|] == text;
  }

  lemma ComponentsIff(text: string, parts: seq<string>)
    ensures AreComponents(text, parts) <==> parts == Split(text)
  {
    SplitIsComponents(text);
    if AreComponents(text, parts) {
      SlashedIsJoin(parts);
      var init, last := parts[..|parts| - 1], parts[|parts| - 1];
      assert parts == init + [last];
      ComponentsAreSplit(init, last);
    }
  }

  /** The check returns exactly these paths: the name itself, without the slash that ends a directory's, if
      it has no null byte and no backslash, at most 4096 bytes and at most 32 real components. */
  lemma MemberIff(name: string, directory: bool, size: nat, isAlpha: char -> bool, path: string)
    ensures SafeMemberPath(name, directory, size, isAlpha) == Ok(path) <==> IsMember(path, name, directory, size, isAlpha)
  {
    AcceptedMemberIff(name, directory, size, isAlpha);
    if SafeMemberPath(name, directory, size, isAlpha) == Ok(path) {
      MemberIsReturned(name, directory, size, isAlpha, path);
      ComponentsIff(path, Split(path));
      assert Descends(Split(path), isAlpha);
    }
    if IsMember(path, name, directory, size, isAlpha) {
      var parts :| AreComponents(path, parts) && Descends(parts, isAlpha);
      ComponentsIff(path, parts);
      SourceIs(name, directory, path, parts);
      MemberIsReturned(name, directory, size, isAlpha, SafeMemberPath(name, directory, size, isAlpha).value);
    }
  }

  lemma MemberIsReturned(name: string, directory: bool, size: nat, isAlpha: char -> bool, path: string)
    requires SafeMemberPath(name, directory, size, isAlpha) == Ok(path)
    ensures path == CanonicalSource(name, directory) && (name == path || (directory && name == path + "/"))
  {
    AcceptedMemberStaysInside(name, directory, size, isAlpha, []);
    SourceOf(name, directory);
  }

  lemma SourceOf(name: string, directory: bool)
    ensures name == CanonicalSource(name, directory) || (directory && name == CanonicalSource(name, directory) + "/")
  {
    if name != "" && name[|name| - 1] == '/' {
      assert name == name[..|name| - 1] + [name[|name| - 1]];
    }
  }

  /** A path of real names does not end in a slash. */
  lemma SourceIs(name: string, directory: bool, path: string, parts: seq<string>)
    requires (name == path || (directory && name == path + "/")) && parts == Split(path) && forall part :: part in parts ==> part != ""
    ensures CanonicalSource(name, directory) == path
  {
    TrailingSlashIsSpecial(path);
    if name == path + "/" && name != path {
      assert name[..|name| - 1] == path;
    }
  }
}
