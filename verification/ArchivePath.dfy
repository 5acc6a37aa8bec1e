/** The member-path check of the release audit, and what it guarantees about unpacking. */
module ArchivePath {
  import opened Common

  const MAX_PATH_DEPTH: nat := 32
  const MAX_MEMBER_PATH_BYTES: nat := 4096

  /** `text.split("/")` */
  function Split(text: string): (parts: seq<string>)
    ensures parts != []
  {
    if text == "" then [""]
    else
      var init, last := Split(text[..|text| - 1]), text[|text| - 1];
      if last == '/' then init + [""] else init[..|init| - 1] + [init[|init| - 1] + [last]]
  }

  /** `"/".join(parts)` */
  function JoinParts(parts: seq<string>): string {
    if parts == [] then ""
    else if |parts| == 1 then parts[0]
    else JoinParts(parts[..|parts| - 1]) + "/" + parts[|parts| - 1]
  }

  predicate IsSpecial(part: string) {
    part == "" || part == "." || part == ".."
  }

  predicate HasDrive(part: string, isAlpha: char -> bool) {
    |part| == 2 && isAlpha(part[0]) && part[1] == ':'
  }

  predicate Plain(parts: seq<string>) {
    forall part :: part in parts ==> !IsSpecial(part)
  }

  /** The components a POSIX path object keeps: it drops empty and `.` ones. */
  function PathParts(text: string): seq<string> {
    Filter(Split(text), (part: string) => part != "" && part != ".")
  }

  predicate IsAbsolute(text: string) {
    text != "" && text[0] == '/'
  }

  function AsPosix(text: string): string {
    if IsAbsolute(text) then "/" + JoinParts(PathParts(text)) else JoinParts(PathParts(text))
  }

  function CanonicalSource(name: string, directory: bool): string {
    if directory && name != "" && name[|name| - 1] == '/' then name[..|name| - 1] else name
  }

  /** `_safe_member_path`; `size` is the length of the name in UTF-8, `isAlpha` the
      library's notion of a letter. */
  function SafeMemberPath(name: string, directory: bool, size: nat, isAlpha: char -> bool): Result<string> {
    var source := CanonicalSource(name, directory);
    if '\0' in name || '\\' in name || size > MAX_MEMBER_PATH_BYTES then Err("archive member paths must use POSIX separators")
    else if !directory && name != "" && name[|name| - 1] == '/' then Err("archive contains a non-canonical path")
    else if !Plain(Split(source)) then Err("archive contains a non-canonical path")
    else if HasDrive(Split(source)[0], isAlpha) then Err("archive contains an absolute path")
    else if IsAbsolute(source) || PathParts(source) == [] then Err("archive contains an absolute or empty path")
    else if AsPosix(source) != source then Err("archive contains a non-canonical path")
    else if |PathParts(source)| > MAX_PATH_DEPTH then Err("archive member path is too deep")
    else Ok(AsPosix(source))
  }

  lemma {:induction false} JoinSplit(text: string)
    ensures JoinParts(Split(text)) == text
    ensures text != "" && text[0] == '/' ==> Split(text)[0] == ""
  {
    if text != "" {
      var n := |text| - 1;
      JoinSplit(text[..n]);
      var init := Split(text[..n]);
      assert text == text[..n] + [text[n]];
      if text[n] == '/' {
        JoinSnoc(init, "");
        assert JoinParts(init) + "/" + "" == text;
      } else {
        var front, last := init[..|init| - 1], init[|init| - 1];
        assert init == front + [last];
        JoinAppends(front, last, text[n]);
      }
    }
  }

  lemma JoinSnoc(init: seq<string>, last: string)
    ensures JoinParts(init + [last]) == if init == [] then last else JoinParts(init) + "/" + last
  {
    assert (init + [last])[..|init|] == init;
  }

  lemma JoinAppends(init: seq<string>, last: string, c: char)
    ensures JoinParts(init + [last + [c]]) == JoinParts(init + [last]) + [c]
  {
    JoinSnoc(init, last);
    JoinSnoc(init, last + [c]);
    Regroup(JoinParts(init) + "/", last, [c]);
  }

  /** Walking a path from a directory, the way a file system does. */
  function Resolve(from: seq<string>, parts: seq<string>): seq<string> {
    if parts == [] then from
    else
      var at, part := Resolve(from, parts[..|parts| - 1]), parts[|parts| - 1];
      if part == "" || part == "." then at
      else if part == ".." then (if at == [] then [] else at[..|at| - 1])
      else at + [part]
  }

  lemma {:induction false} PlainPartsDescend(from: seq<string>, parts: seq<string>)
    requires Plain(parts)
    ensures Resolve(from, parts) == from + parts
  {
    if parts != [] {
      PlainPartsDescend(from, parts[..|parts| - 1]);
      assert parts == parts[..|parts| - 1] + [parts[|parts| - 1]];
      assert parts[|parts| - 1] in parts;
    } else {
      assert from + [] == from;
    }
  }

  /** Once no component is special the path object changes nothing, so its three checks never fire. */
  lemma PathObjectIsIdentity(source: string)
    requires Plain(Split(source))
    ensures PathParts(source) == Split(source) && !IsAbsolute(source) && AsPosix(source) == source
  {
    JoinSplit(source);
    FilterAll(Split(source), (part: string) => part != "" && part != ".");
    assert Split(source)[0] in Split(source);
  }

  /** An accepted member is returned unchanged but for a directory's trailing slash, and wherever it is
      unpacked it lands strictly below that directory, at most 32 levels deep. */
  lemma AcceptedMemberStaysInside(name: string, directory: bool, size: nat, isAlpha: char -> bool, root: seq<string>)
    requires SafeMemberPath(name, directory, size, isAlpha).Ok?
    ensures var path := SafeMemberPath(name, directory, size, isAlpha).value;
            && path == CanonicalSource(name, directory)
            && Resolve(root, Split(path)) == root + Split(path)
            && 1 <= |Split(path)| <= MAX_PATH_DEPTH
  {
    var source := CanonicalSource(name, directory);
    PathObjectIsIdentity(source);
    PlainPartsDescend(root, Split(source));
  }

  /** Exactly which names are accepted; none of the path object's own checks appears. */
  lemma AcceptedMemberIff(name: string, directory: bool, size: nat, isAlpha: char -> bool)
    ensures var parts := Split(CanonicalSource(name, directory));
            SafeMemberPath(name, directory, size, isAlpha).Ok? <==>
            && '\0' !in name && '\\' !in name && size <= MAX_MEMBER_PATH_BYTES
            && Plain(parts) && !HasDrive(parts[0], isAlpha) && |parts| <= MAX_PATH_DEPTH
  {
    var source := CanonicalSource(name, directory);
    TrailingSlashIsSpecial(source);
    if Plain(Split(source)) {
      PathObjectIsIdentity(source);
    }
  }

  lemma TrailingSlashIsSpecial(text: string)
    ensures text != "" && text[|text| - 1] == '/' ==> "" in Split(text)
  {
    if text != "" && text[|text| - 1] == '/' {
      assert Split(text)[|Split(text)| - 1] == "";
    }
  }
}
