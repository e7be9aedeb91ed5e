/** The content-addressed artifact store: a bounded copy that does not depend on how
    the reader chops its data up, and locators that parse back to what was printed. */
module Artifacts {
  import opened Text

  /** A Go string or byte slice: one char per byte. */
  type Bytes = string

  // ----- Readers ----------------------------------------------------------------------

  /** What one Read call returns besides its data. */
  datatype Status = More | Eof | Broken

  datatype Read = Read(data: Bytes, status: Status)

  /** A reader is the list of its answers; after the last one it reports EOF. */
  type Reader = seq<Read>

  /** What the reader delivers: everything up to and including the first answer that
      is not `More`. */
  function Source(r: Reader): Bytes {
    if r == [] then []
    else if r[0].status == More then r[0].data + Source(r[1..])
    else r[0].data
  }

  function EndsWith(r: Reader): Status {
    if r == [] then Eof else if r[0].status == More then EndsWith(r[1..]) else r[0].status
  }

  /** Some answer is an error. */
  predicate Breaks(r: Reader) {
    exists k :: 0 <= k < |r| && r[k].status == Broken
  }

  /** At most `limit` bytes; zero means unbounded. */
  function Bounded(b: Bytes, limit: nat): Bytes {
    if limit > 0 && |b| > limit then b[..limit] else b
  }

  function Truncates(b: Bytes, limit: nat): bool {
    limit > 0 && |b| > limit
  }

  // ----- Locators -----------------------------------------------------------------------

  predicate ProjectChar(c: char) {
    'a' <= c <= 'z' || '0' <= c <= '9' || c == '-' || c == '_'
  }

  predicate ValidProject(id: string) {
    id != "" && |id| <= 64 && forall k :: 0 <= k < |id| ==> ProjectChar(id[k])
  }

  predicate IsHex(s: string) {
    forall k :: 0 <= k < |s| ==> '0' <= s[k] <= '9' || 'a' <= s[k] <= 'f'
  }

  const LETTERS := "abcdefghijklmnopqrstuvwxyz"
  const DIGITS := "0123456789"

  /** Project ids have one to 64 characters of a small alphabet, and digests are lower-case hex. */
  lemma NamesAre(s: string)
    ensures ValidProject(s) <==> 1 <= |s| < 65 && forall k :: 0 <= k < |s| ==> s[k] in LETTERS + DIGITS + "-_"
    ensures IsHex(s) <==> forall k :: 0 <= k < |s| ==> s[k] in DIGITS + "abcdef"
  {
    hide LETTERS, DIGITS;
    forall k | 0 <= k < |s|
      ensures ProjectChar(s[k]) <==> s[k] in LETTERS + DIGITS + "-_"
      ensures '0' <= s[k] <= '9' || 'a' <= s[k] <= 'f' <==> s[k] in DIGITS + "abcdef"
    {
      LettersAre(s[k]);
      DigitsAre(s[k]);
    }
  }

  lemma LettersAre(c: char)
    ensures c in LETTERS <==> 'a' <= c <= 'z'
  {
    if 'a' <= c <= 'z' {
      assert LETTERS[c as int - 'a' as int] == c;
    }
  }

  lemma DigitsAre(c: char)
    ensures c in DIGITS <==> '0' <= c <= '9'
  {
    if '0' <= c <= '9' {
      assert DIGITS[c as int - '0' as int] == c;
    }
  }

  function LocatorFor(project: string, digest: string): string {
    "artifact:" + project + ":" + digest
  }

  function IndexOfColon(s: string): (k: Option<nat>)
    ensures match k
            case Some(i) => i < |s| && s[i] == ':' && forall j :: 0 <= j < i ==> s[j] != ':'
            case None => forall j :: 0 <= j < |s| ==> s[j] != ':'
  {
    if s == [] then None
    else if s[0] == ':' then Some(0)
    else
      match IndexOfColon(s[1..])
      case None => None
      case Some(i) => Some(i + 1)
  }

  /** parseLocator: strings.SplitN on ':' into at most three parts, then validation. */
  function ParseLocator(s: string): Option<(string, string)> {
    match IndexOfColon(s)
    case None => None
    case Some(i) =>
      var rest := s[i + 1..];
      match IndexOfColon(rest)
      case None => None
      case Some(j) =>
        var project, digest := rest[..j], rest[j + 1..];
        if s[..i] == "artifact" && ValidProject(project) && |digest| == 64 && IsHex(digest)
        then Some((project, digest)) else None
  }

  lemma ColonAt(s: string, i: nat)
    requires i < |s| && s[i] == ':' && forall j :: 0 <= j < i ==> s[j] != ':'
    ensures IndexOfColon(s) == Some(i)
  {
  }

  lemma PrintedParses(project: string, digest: string)
    requires ValidProject(project) && |digest| == 64 && IsHex(digest)
    ensures ParseLocator(LocatorFor(project, digest)) == Some((project, digest))
  {
    hide IsHex;
    var s := LocatorFor(project, digest);
    var rest := project + ":" + digest;
    assert s == "artifact:" + rest;
    assert s[8] == ':' && forall j :: 0 <= j < 8 ==> s[j] != ':';
    ColonAt(s, 8);
    assert s[9..] == rest && s[..8] == "artifact";
    ColonAt(rest, |project|);
    assert rest[..|project|] == project && rest[|project| + 1..] == digest;
  }

  lemma ParsedWasPrinted(s: string)
    ensures match ParseLocator(s)
            case None => true
            case Some((project, digest)) =>
              s == LocatorFor(project, digest) && ValidProject(project) && |digest| == 64 && IsHex(digest)
  {
    hide IsHex, ValidProject, IndexOfColon, LocatorFor;
    if ParseLocator(s).Some? {
      var i := IndexOfColon(s).value;
      var rest := s[i + 1..];
      var j := IndexOfColon(rest).value;
      AroundColon(s, i);
      AroundColon(rest, j);
      Printed(rest[..j], rest[j + 1..]);
    }
  }

  lemma Printed(project: string, digest: string)
    ensures LocatorFor(project, digest) == "artifact" + (":" + (project + (":" + digest)))
  {
    assert "artifact:" == "artifact" + ":";
  }

  lemma AroundColon(s: string, i: nat)
    requires i < |s| && s[i] == ':'
    ensures s == s[..i] + (":" + s[i + 1..])
  {
  }

  /** Locators are canonical: a string parses to a project and a digest exactly when it
      is the locator printed for them. */
  lemma LocatorRoundTrip(s: string, project: string, digest: string)
    ensures ParseLocator(s) == Some((project, digest))
            <==> s == LocatorFor(project, digest) && ValidProject(project) && |digest| == 64 && IsHex(digest)
  {
    hide ParseLocator, LocatorFor, IsHex, ValidProject;
    ParsedWasPrinted(s);
    if ValidProject(project) && |digest| == 64 && IsHex(digest) {
      PrintedParses(project, digest);
    }
  }

  // ----- The store ------------------------------------------------------------------------

  datatype Failure = InvalidArgument | Cancelled | WriteFailed | SourceFailed | StoreFailed | NotFound | Integrity

  datatype Result<+T> = Ok(value: T) | Err(error: Failure)

  datatype PutResult = PutResult(locator: string, digest: string, size: nat, truncated: bool)

  /** Object files, by project and digest. */
  type Objects = map<(string, string), Bytes>

  predicate Resolves(objects: Objects, locator: string, content: Bytes) {
    var p := ParseLocator(locator);
    p.Some? && p.value in objects && objects[p.value] == content
  }

  /** Every object is named by the digest of its own bytes. */
  ghost predicate Addressed(objects: Objects, sha256: Bytes -> string) {
    forall key :: key in objects ==> sha256(objects[key]) == key.1
  }

  ghost predicate HexDigests(sha256: Bytes -> string) {
    forall b :: |sha256(b)| == 64 && IsHex(sha256(b))
  }

  /** No object stored under the digest of `content` holds anything else. */
  ghost predicate NoCollision(sha256: Bytes -> string, objects: Objects, content: Bytes) {
    forall key :: key in objects && key.1 == sha256(content) ==> objects[key] == content
  }

  /** Nothing already stored is lost or altered. */
  ghost predicate Keeps(before: Objects, after: Objects) {
    forall key :: key in before ==> key in after && after[key] == before[key]
  }

  /** `after` is `before` with `content` under its digest, unless something was there. */
  predicate Added(before: Objects, project: string, sha256: Bytes -> string, content: Bytes, after: Objects) {
    var key := (project, sha256(content));
    after == if key in before then before else before[key := content]
  }

  class Store {
    const sha256: Bytes -> string
    var objects: Objects

    /** How often the file system has failed, or the caller has cancelled, so far. */
    ghost var failures: nat

    ghost predicate Valid()
      reads this
    {
      HexDigests(sha256) && Addressed(objects, sha256)
    }

    constructor (sha256: Bytes -> string)
      requires HexDigests(sha256)
      ensures Valid() && objects == map[] && this.sha256 == sha256 && failures == 0
    {
      this.sha256 := sha256;
      objects, failures := map[], 0;
    }

    /** One call into the file system, or one look at the context. */
    method Fails() returns (fails: bool)
      modifies this`failures
      ensures failures == old(failures) + if fails then 1 else 0
    {
      fails := *;
      if fails {
        failures := failures + 1;
      }
    }

    /** The copy loop of Put: what lands in the temp file, and whether more existed. */
    method CopyBounded(reader: Reader, limit: nat) returns (r: Result<(Bytes, bool)>)
      modifies this`failures
      ensures failures >= old(failures)
      ensures r.Err? ==> failures > old(failures) || (r.error == SourceFailed && Breaks(reader))
      ensures match r
              case Ok((written, truncated)) =>
                written == Bounded(Source(reader), limit) && truncated == Truncates(Source(reader), limit)
              case Err(e) => e in {Cancelled, WriteFailed, SourceFailed}
      ensures r.Ok? ==> failures == old(failures)
      ensures r.Ok? ==> EndsWith(reader) != Broken || Truncates(Source(reader), limit)
    {
      hide Source, EndsWith;
      var written: Bytes := [];
      var rest := reader;
      while true
        invariant Source(reader) == written + Source(rest) && EndsWith(reader) == EndsWith(rest)
        invariant limit > 0 ==> |written| <= limit
        invariant failures == old(failures) && (Breaks(rest) ==> Breaks(reader))
        decreases |rest|
      {
        var cancelled := Fails();
        if cancelled { return Err(Cancelled); }
        SourceUnfolds(rest);
        if rest == [] { return Ok((written, false)); }
        var chunk, status := rest[0].data, rest[0].status;
        ghost var now := rest;
        rest := rest[1..];
        if |chunk| > 0 {
          if limit > 0 && |written| + |chunk| > limit {
            TakeAcross(written, Source(now), chunk, limit);
            var allowed := limit - |written|;
            if allowed > 0 {
              var writeFails := Fails();
              if writeFails { return Err(WriteFailed); }
              written := written + chunk[..allowed];
            }
            var drained := Drain(rest);
            if !drained { return Err(SourceFailed); }
            return Ok((written, true));
          }
          var writeFails := Fails();
          if writeFails { return Err(WriteFailed); }
          assert written + Source(now) == (written + chunk) + (if status == More then Source(rest) else []);
          written := written + chunk;
        }
        if status == Eof { return Ok((written, false)); }
        if status == Broken { return Err(SourceFailed); }
      }
    }

    /** drainUntilCancelled: discard the rest until EOF, an error or cancellation. */
    method Drain(reader: Reader) returns (ok: bool)
      modifies this`failures
      ensures failures >= old(failures)
      ensures ok ==> EndsWith(reader) == Eof && failures == old(failures)
      ensures !ok ==> failures > old(failures) || Breaks(reader)
    {
      var rest := reader;
      while true
        invariant EndsWith(reader) == EndsWith(rest) && failures == old(failures) && (Breaks(rest) ==> Breaks(reader))
        decreases |rest|
      {
        var cancelled := Fails();
        if cancelled { return false; }
        if rest == [] { return true; }
        var status := rest[0].status;
        rest := rest[1..];
        if status == Eof { return true; }
        if status == Broken { return false; }
      }
    }

    /** Put. Existing objects are never touched. */
    method Put(project: string, kind: string, reader: Reader, maxBytes: int) returns (r: Result<PutResult>)
      requires Valid()
      modifies this
      ensures Valid() && Keeps(old(objects), objects) && failures >= old(failures)
      ensures r.Err? && failures == old(failures) ==>
        || (r.error == InvalidArgument && (!ValidProject(project) || kind == "" || maxBytes < 0))
        || (r.error == SourceFailed && Breaks(reader))
      ensures !ValidProject(project) || kind == "" || maxBytes < 0 ==> r == Err(InvalidArgument)
      ensures r.Err? && objects != old(objects) ==>
        maxBytes >= 0 && Added(old(objects), project, sha256, Bounded(Source(reader), maxBytes), objects)
      ensures match r
              case Ok(p) =>
                maxBytes >= 0 && failures == old(failures) &&
                var content := Bounded(Source(reader), maxBytes);
                && p == PutResult(LocatorFor(project, sha256(content)), "sha256:" + sha256(content),
                                  |content|, Truncates(Source(reader), maxBytes))
                && Added(old(objects), project, sha256, content, objects)
                && (Resolves(objects, p.locator, content)
                    <==> ((project, sha256(content)) in old(objects)
                          ==> old(objects)[(project, sha256(content))] == content))
              case Err(_) => true
    {
      if !ValidProject(project) || kind == "" || maxBytes < 0 { return Err(InvalidArgument); }
      var fails := Fails();
      if fails { return Err(StoreFailed); }
      var copied := CopyBounded(reader, maxBytes);
      if copied.Err? { return Err(copied.error); }
      var (written, truncated) := copied.value;
      var hex := sha256(written);
      fails := Fails();
      if fails { return Err(StoreFailed); }
      if (project, hex) !in objects {
        fails := Fails();
        if fails { return Err(StoreFailed); }
        objects := objects[(project, hex) := written];
      }
      PrintedParses(project, hex);
      fails := Fails();
      if fails { return Err(StoreFailed); }
      return Ok(PutResult(LocatorFor(project, hex), "sha256:" + hex, |written|, truncated));
    }

    /** Get by locator. */
    method Get(locator: string) returns (r: Result<Bytes>)
      modifies this`failures
      ensures failures >= old(failures)
      ensures match r
              case Ok(content) => Resolves(objects, locator, content) && failures == old(failures)
              case Err(e) =>
                (e == StoreFailed && failures > old(failures)) || (e == InvalidArgument && ParseLocator(locator).None?)
                             || (e == NotFound && forall content :: !Resolves(objects, locator, content))
    {
      var p := ParseLocator(locator);
      if p.None? { return Err(InvalidArgument); }
      if p.value !in objects { return Err(NotFound); }
      var readFails := Fails();
      if readFails { return Err(StoreFailed); }
      return Ok(objects[p.value]);
    }

    /** Verify: the stored bytes against the digest of the reference. */
    method Verify(locator: string, digest: string) returns (r: Result<()>)
      requires Valid()
      modifies this`failures
      ensures failures >= old(failures)
      ensures r.Ok? ==> exists content :: Resolves(objects, locator, content) && digest == "sha256:" + sha256(content)
      ensures r == Err(Integrity) ==>
        digest == ""
        || exists content :: Resolves(objects, locator, content) && digest != "sha256:" + sha256(content)
      ensures r.Err? && r.error != Integrity ==>
        (r.error == StoreFailed && failures > old(failures)) || forall content :: !Resolves(objects, locator, content)
      ensures r.Ok? ==> ParseLocator(locator).Some? && digest == "sha256:" + ParseLocator(locator).value.1
    {
      if digest == "" { return Err(Integrity); }
      var content := Get(locator);
      if content.Err? { return Err(content.error); }
      return if "sha256:" + sha256(content.value) == digest then Ok(()) else Err(Integrity);
    }
  }

  lemma SourceUnfolds(r: Reader)
    ensures r == [] ==> Source(r) == [] && EndsWith(r) == Eof
    ensures r != [] ==> Source(r) == r[0].data + (if r[0].status == More then Source(r[1..]) else [])
                        && EndsWith(r) == if r[0].status == More then EndsWith(r[1..]) else r[0].status
  {
  }

  lemma TakeAcross(a: Bytes, b: Bytes, chunk: Bytes, limit: nat)
    requires |a| <= limit < |a| + |chunk| && chunk <= b
    ensures (a + b)[..limit] == a + chunk[..limit - |a|]
  {
  }

  /** Any way of cutting `data` into chunks delivers `data`. */
  lemma {:induction false} ChunksDeliver(chunks: seq<Bytes>)
    ensures Source(seq(|chunks|, k requires 0 <= k < |chunks| => Read(chunks[k], More))) == Joined(chunks)
  {
    var r: Reader := seq(|chunks|, k requires 0 <= k < |chunks| => Read(chunks[k], More));
    if chunks != [] {
      ChunksDeliver(chunks[1..]);
      assert r[1..] == seq(|chunks[1..]|, k requires 0 <= k < |chunks[1..]| => Read(chunks[1..][k], More));
    }
  }

  function Joined(chunks: seq<Bytes>): Bytes {
    if chunks == [] then [] else chunks[0] + Joined(chunks[1..])
  }
}
