/**
 The portable release: the builder of scripts/build-portable-release.py and the manifest and checksum
 checks of scripts/release-security.py, and why they agree.

 Reading back a written archive is the identity, JSON text is parsed by a function that inverts the
 printer on manifests, and the hash, the case folding and the check of a source file are functions.
 */
module PortableFormat {
  import opened Wrappers
  import opened Manifest

  /** A parsed JSON value. */
  datatype Json =
    | Null
    | Bool(truth: bool)
    | Int(number: int)
    | Float(value: real)
    | Text(text: string)
    | List(items: seq<Json>)
    | Object(fields: map<string, Json>)

  /** Python's `==` between a JSON value and an integer: booleans and floats count by value. */
  predicate EqualsInt(json: Json, n: int) {
    match json
    case Int(number) => number == n
    case Bool(truth) => n == if truth then 1 else 0
    case Float(value) => value == n as real
    case _ => false
  }

  predicate IsDigits(s: string) {
    s != "" && forall c | c in s :: '0' <= c <= '9'
  }

  /** The first place of the character, or the length. */
  function IndexOf(s: string, c: char): (i: nat)
    ensures i <= |s| && c !in s[..i] && (i < |s| ==> s[i] == c)
  {
    if s == "" || s[0] == c then 0
    else
      var i := 1 + IndexOf(s[1..], c);
      assert s[..i] == [s[0]] + s[1..][..i - 1];
      i
  }

  /** Three runs of digits between two dots. */
  predicate IsVersion(s: string) {
    var i := IndexOf(s, '.');
    i < |s|
    && var rest := s[i + 1..]; var j := IndexOf(rest, '.');
       j < |rest| && IsDigits(s[..i]) && IsDigits(rest[..j]) && IsDigits(rest[j + 1..])
  }

  lemma {:induction false} FirstDot(a: string, rest: string)
    requires '.' !in a
    ensures IndexOf(a + "." + rest, '.') == |a|
  {
    assert (a + "." + rest)[|a|] == '.';
  }

  /** A version is three runs of digits joined by dots. */
  lemma {:induction false} DigitsJoined(a: string, b: string, c: string)
    requires IsDigits(a) && IsDigits(b) && IsDigits(c)
    ensures IsVersion(a + "." + (b + "." + c))
  {
    var rest := b + "." + c;
    var s := a + "." + rest;
    FirstDot(a, rest);
    FirstDot(b, c);
    assert s[..|a|] == a && s[|a| + 1..] == rest && rest[..|b|] == b && rest[|b| + 1..] == c;
  }

  predicate IsCommit(s: string) {
    |s| == 40 && forall c | c in s :: '0' <= c <= '9' || 'a' <= c <= 'f'
  }

  /** The archive. */
  datatype Body = Content(bytes: Bytes) | Unreadable | BadZip

  datatype Info = Info(body: Body, fileSize: nat, externalAttr: nat, encrypted: bool)

  function ModeBits(info: Info): nat {
    info.externalAttr / 0x10000 % 0x10000 % 512
  }

  const MANIFEST_FIELDS: set<string> := {"schema_version", "version", "source_commit", "source_date_epoch", "files"}
  const ENTRY_FIELDS: set<string> := {"path", "size", "mode", "sha256"}

  function EntryJson(entry: Entry): Json {
    Object(map[
      "path" := Text(entry.path), "size" := Int(entry.size), "mode" := Int(entry.mode),
      "sha256" := if entry.sha256.Some? then Text(entry.sha256.value) else Null])
  }

  function EntriesJson(entries: seq<Entry>): seq<Json> {
    seq(|entries|, i requires 0 <= i < |entries| => EntryJson(entries[i]))
  }

  /** The document that `build_manifest` prints. */
  function Document(entries: seq<Entry>, release: Release): Json {
    Object(map[
      "schema_version" := Text(SCHEMA), "version" := Text(release.version), "source_commit" := Text(release.commit),
      "source_date_epoch" := Int(release.epoch), "files" := List(EntriesJson(SortedByPath(entries)))])
  }

  /** The JSON parser reads a printed manifest back. */
  ghost predicate ReadsManifests(parse: Bytes -> Option<Json>, quote: string -> Bytes) {
    forall entries: seq<Entry>, release: Release ::
      parse(BuildManifest(entries, release, quote)) == Some(Document(entries, release))
  }
}

/** The verifier: `_portable_manifest_problems` and `_portable_checksum_problems`. */
module PortableVerifier {
  import opened Wrappers
  import opened Manifest
  import opened PortableFormat

  datatype External = Absent | UnreadableFile | Present(bytes: Bytes)

  datatype Problem =
    | ManifestMissing | ManifestEncrypted | ManifestInvalid
    | ExternalMissing | ExternalDiffers | ExternalUnreadable
    | SchemaInvalid | SchemaVersionInvalid | VersionInvalid | CommitInvalid | EpochInvalid | FilesInvalid
    | EntryInvalid | EntryPathInvalid | Repeats(name: string)
    | NotCovered(name: string) | NotArchived(name: string)
    | SizeMismatch(name: string) | ModeMismatch(name: string) | SelfHashPresent
    | CannotRead(name: string) | HashMismatch(name: string)

  /** The zip library's error, which the manifest check lets through when it meets it in the manifest itself. */
  datatype Failure = BadZipFile

  /** How far reading the manifest gets. */
  datatype Opening = Stopped(problem: Problem) | Raised | Read(bytes: Bytes, document: Json)

  function Open(infos: map<string, Info>, parse: Bytes -> Option<Json>): Opening {
    if SELF_PATH !in infos then Stopped(ManifestMissing)
    else if infos[SELF_PATH].encrypted then Stopped(ManifestEncrypted)
    else
      match infos[SELF_PATH].body
      case Unreadable => Stopped(ManifestInvalid)
      case BadZip => Raised
      case Content(bytes) =>
        var document := parse(bytes);
        if document.None? then Stopped(ManifestInvalid) else Read(bytes, document.value)
  }

  predicate HasFields(json: Json, fields: set<string>) {
    json.Object? && json.fields.Keys == fields
  }

  predicate IsEntry(json: Json) {
    HasFields(json, ENTRY_FIELDS)
  }

  /** An entry with a usable path. */
  predicate NamesFile(json: Json) {
    IsEntry(json) && json.fields["path"].Text?
  }

  function PathOf(json: Json): string
    requires NamesFile(json)
  {
    json.fields["path"].text
  }

  predicate Names(json: Json, path: string) {
    NamesFile(json) && PathOf(json) == path
  }

  /** The files section of a document whose fields are the expected ones. */
  function Listing(document: Json): Option<seq<Json>> {
    if HasFields(document, MANIFEST_FIELDS) && document.fields["files"].List? then Some(document.fields["files"].items)
    else None
  }

  /** The first entry that names the path decides. */
  ghost predicate Declares(entries: seq<Json>, k: nat, path: string) {
    k < |entries| && Names(entries[k], path) && forall i | 0 <= i < k :: !Names(entries[i], path)
  }

  /** The entry for an archived file differs from it in this way. */
  predicate Differs(problem: Problem, json: Json, name: string, info: Info, sha: Bytes -> string)
    requires IsEntry(json)
  {
    match problem
    case SizeMismatch(n) => n == name && !EqualsInt(json.fields["size"], info.fileSize)
    case ModeMismatch(n) => n == name && !EqualsInt(json.fields["mode"], ModeBits(info))
    case SelfHashPresent => name == SELF_PATH && json.fields["sha256"] != Null
    case CannotRead(n) => n == name && name != SELF_PATH && !info.encrypted && !info.body.Content?
    case HashMismatch(n) =>
      n == name && name != SELF_PATH && !info.encrypted && info.body.Content?
      && json.fields["sha256"] != Text(sha(info.body.bytes))
    case _ => false
  }

  /** Which problems the files section has on its own. */
  ghost predicate ListProblem(problem: Problem, entries: seq<Json>) {
    match problem
    case EntryInvalid => exists k | 0 <= k < |entries| :: !IsEntry(entries[k])
    case EntryPathInvalid => exists k | 0 <= k < |entries| :: IsEntry(entries[k]) && !NamesFile(entries[k])
    case Repeats(name) => exists i, k | 0 <= i < k < |entries| :: Names(entries[i], name) && Names(entries[k], name)
    case _ => false
  }

  /** Which problems it has against the archive. */
  ghost predicate ArchiveProblem(problem: Problem, entries: seq<Json>, infos: map<string, Info>, sha: Bytes -> string) {
    match problem
    case NotCovered(name) => name in infos && forall k | 0 <= k < |entries| :: !Names(entries[k], name)
    case NotArchived(name) => name !in infos && exists k | 0 <= k < |entries| :: Names(entries[k], name)
    case _ => exists name | name in infos :: FileProblem(problem, entries, name, infos[name], sha)
  }

  ghost predicate FileProblem(problem: Problem, entries: seq<Json>, name: string, info: Info, sha: Bytes -> string) {
    exists k | 0 <= k < |entries| :: Declares(entries, k, name) && Differs(problem, entries[k], name, info, sha)
  }

  /** Which problems the document's other fields have. */
  predicate HeaderProblem(problem: Problem, document: Json) {
    if !HasFields(document, MANIFEST_FIELDS) then problem == SchemaInvalid
    else
      var fields := document.fields;
      match problem
      case SchemaVersionInvalid => fields["schema_version"] != Text(SCHEMA)
      case VersionInvalid => !(fields["version"].Text? && IsVersion(fields["version"].text))
      case CommitInvalid => !(fields["source_commit"].Text? && IsCommit(fields["source_commit"].text))
      case EpochInvalid => !fields["source_date_epoch"].Int? && !fields["source_date_epoch"].Bool?
      case FilesInvalid => !fields["files"].List?
      case _ => false
  }

  predicate ExternalProblem(problem: Problem, external: External, bytes: Bytes) {
    match external
    case Absent => problem == ExternalMissing
    case UnreadableFile => problem == ExternalUnreadable
    case Present(found) => problem == ExternalDiffers && found != bytes
  }

  /** Exactly the problems that the manifest check reports. */
  ghost predicate Reported(
      problem: Problem, infos: map<string, Info>, external: External, parse: Bytes -> Option<Json>,
      sha: Bytes -> string) {
    match Open(infos, parse)
    case Stopped(first) => problem == first
    case Raised => false
    case Read(bytes, document) =>
      || ExternalProblem(problem, external, bytes)
      || HeaderProblem(problem, document)
      || (Listing(document).Some? && ListProblem(problem, Listing(document).value))
      || (Listing(document).Some? && ArchiveProblem(problem, Listing(document).value, infos, sha))
  }

  /** `declared`: each named path, with the first entry that names it. */
  ghost predicate IsDeclared(declared: map<string, Json>, entries: seq<Json>) {
    && (forall name | name in declared :: exists k | 0 <= k < |entries| ::
        Declares(entries, k, name) && declared[name] == entries[k])
    && (forall name, k | 0 <= k < |entries| && Names(entries[k], name) :: name in declared)
  }

  /** What the last entry adds to the problems of the files section. */
  ghost predicate NewListProblem(problem: Problem, entries: seq<Json>, n: nat)
    requires n < |entries|
  {
    match problem
    case EntryInvalid => !IsEntry(entries[n])
    case EntryPathInvalid => IsEntry(entries[n]) && !NamesFile(entries[n])
    case Repeats(name) => Names(entries[n], name) && exists i | 0 <= i < n :: Names(entries[i], name)
    case _ => false
  }

  lemma {:induction false} ListProblemsGrow(entries: seq<Json>, n: nat)
    requires n < |entries|
    ensures forall p :: ListProblem(p, entries[..n + 1]) <==>
            ListProblem(p, entries[..n]) || NewListProblem(p, entries, n)
  {
  }

  lemma {:induction false} DeclaredNames(declared: map<string, Json>, entries: seq<Json>, name: string)
    requires IsDeclared(declared, entries)
    ensures (exists i | 0 <= i < |entries| :: Names(entries[i], name)) <==> name in declared
  {
  }

  /** An entry that brings no new name leaves the names as they are. */
  lemma {:induction false} DeclaredKept(declared: map<string, Json>, entries: seq<Json>, next: Json)
    requires IsDeclared(declared, entries)
    requires forall name | Names(next, name) :: name in declared
    ensures IsDeclared(declared, entries + [next])
  {
    forall name | name in declared
      ensures exists k | 0 <= k < |entries + [next]| ::
              Declares(entries + [next], k, name) && declared[name] == (entries + [next])[k]
    {
      DeclaredStays(declared, entries, next, name);
    }
  }

  lemma {:induction false} DeclaredStays(declared: map<string, Json>, entries: seq<Json>, next: Json, name: string)
    requires IsDeclared(declared, entries) && name in declared
    ensures exists k | 0 <= k < |entries| ::
            Declares(entries + [next], k, name) && declared[name] == (entries + [next])[k]
  {
    var k :| 0 <= k < |entries| && Declares(entries, k, name) && declared[name] == entries[k];
    assert Declares(entries + [next], k, name);
  }

  /** An entry with a new name declares it. */
  lemma {:induction false} DeclaredGrows(declared: map<string, Json>, entries: seq<Json>, next: Json, path: string)
    requires IsDeclared(declared, entries) && Names(next, path) && path !in declared
    ensures IsDeclared(declared[path := next], entries + [next])
  {
    var now, longer := declared[path := next], entries + [next];
    forall name | name in now
      ensures exists k | 0 <= k < |longer| :: Declares(longer, k, name) && now[name] == longer[k]
    {
      if name == path {
        DeclaredNames(declared, entries, path);
        assert Declares(longer, |entries|, name) && now[name] == longer[|entries|];
      } else {
        DeclaredStays(declared, entries, next, name);
      }
    }
  }

  /** Which problem the last entry adds. */
  lemma {:induction false} NewProblem(declared: map<string, Json>, entries: seq<Json>, n: nat)
    requires n < |entries| && IsDeclared(declared, entries[..n])
    ensures !IsEntry(entries[n]) ==> forall p :: NewListProblem(p, entries, n) <==> p == EntryInvalid
    ensures IsEntry(entries[n]) && !NamesFile(entries[n]) ==>
              forall p :: NewListProblem(p, entries, n) <==> p == EntryPathInvalid
    ensures NamesFile(entries[n]) ==> forall p :: NewListProblem(p, entries, n) <==>
                                                  p == Repeats(PathOf(entries[n])) && PathOf(entries[n]) in declared
  {
  }

  ghost predicate ListsProblems(problems: seq<Problem>, entries: seq<Json>) {
    forall p :: p in problems <==> ListProblem(p, entries)
  }

  function FaultOf(declared: map<string, Json>, entry: Json): seq<Problem> {
    if !IsEntry(entry) then [EntryInvalid]
    else if !NamesFile(entry) then [EntryPathInvalid]
    else if PathOf(entry) in declared then [Repeats(PathOf(entry))]
    else []
  }

  lemma {:induction false} FaultAdded(declared: map<string, Json>, problems: seq<Problem>, entries: seq<Json>, n: nat)
    requires n < |entries| && IsDeclared(declared, entries[..n]) && ListsProblems(problems, entries[..n])
    ensures ListsProblems(problems + FaultOf(declared, entries[n]), entries[..n + 1])
  {
    ListProblemsGrow(entries, n);
    NewProblem(declared, entries, n);
    forall p
      ensures p in problems + FaultOf(declared, entries[n]) <==> ListProblem(p, entries[..n + 1])
    {
      assert p in FaultOf(declared, entries[n]) <==> NewListProblem(p, entries, n);
    }
  }

  /** The loop over the files section. */
  method Declare(entries: seq<Json>) returns (declared: map<string, Json>, problems: seq<Problem>)
    ensures IsDeclared(declared, entries)
    ensures ListsProblems(problems, entries)
  {
    declared, problems := map[], [];
    for n := 0 to |entries|
      invariant IsDeclared(declared, entries[..n])
      invariant ListsProblems(problems, entries[..n])
    {
      var entry := entries[n];
      assert entries[..n + 1] == entries[..n] + [entry];
      FaultAdded(declared, problems, entries, n);
      if !entry.Object? || entry.fields.Keys != ENTRY_FIELDS {
        DeclaredKept(declared, entries[..n], entry);
        problems := problems + [EntryInvalid];
        continue;
      }
      if !entry.fields["path"].Text? {
        DeclaredKept(declared, entries[..n], entry);
        problems := problems + [EntryPathInvalid];
        continue;
      }
      var entryPath := entry.fields["path"].text;
      if entryPath in declared {
        DeclaredKept(declared, entries[..n], entry);
        problems := problems + [Repeats(entryPath)];
        continue;
      }
      assert problems + [] == problems;
      DeclaredGrows(declared, entries[..n], entry, entryPath);
      declared := declared[entryPath := entry];
    }
    assert entries[..|entries|] == entries;
  }

  /** The comparison of one declared file with the archived one. */
  method CheckFile(entry: Json, name: string, current: Info, sha: Bytes -> string) returns (problems: seq<Problem>)
    requires IsEntry(entry)
    ensures forall p :: p in problems <==> Differs(p, entry, name, current, sha)
  {
    problems := [];
    var rawMode := current.externalAttr / 0x10000 % 0x10000;
    var mode := rawMode % 512;
    if !EqualsInt(entry.fields["size"], current.fileSize) { problems := problems + [SizeMismatch(name)]; }
    if !EqualsInt(entry.fields["mode"], mode) { problems := problems + [ModeMismatch(name)]; }
    if name == SELF_PATH {
      if entry.fields["sha256"] != Null { problems := problems + [SelfHashPresent]; }
      return;
    }
    if current.encrypted { return; }
    if !current.body.Content? { return problems + [CannotRead(name)]; }
    if entry.fields["sha256"] != Text(sha(current.body.bytes)) { problems := problems + [HashMismatch(name)]; }
  }

  ghost predicate DiffersAmong(
      problem: Problem, declared: map<string, Json>, infos: map<string, Info>, names: set<string>,
      sha: Bytes -> string)
    requires names <= declared.Keys * infos.Keys
  {
    exists name | name in names :: DiffersIn(problem, declared, infos, name, sha)
  }

  /** Which problems the declared files have against the archived ones. */
  ghost predicate MapProblem(
      problem: Problem, declared: map<string, Json>, infos: map<string, Info>, sha: Bytes -> string) {
    match problem
    case NotCovered(name) => name in infos && name !in declared
    case NotArchived(name) => name in declared && name !in infos
    case _ => DiffersAmong(problem, declared, infos, declared.Keys * infos.Keys, sha)
  }

  ghost predicate DiffersIn(
      problem: Problem, declared: map<string, Json>, infos: map<string, Info>, name: string, sha: Bytes -> string)
    requires name in declared && name in infos
  {
    IsEntry(declared[name]) && Differs(problem, declared[name], name, infos[name], sha)
  }

  lemma {:induction false} MapFollowsList(p: Problem, declared: map<string, Json>, entries: seq<Json>,
                                          infos: map<string, Info>, sha: Bytes -> string)
    requires IsDeclared(declared, entries)
    ensures MapProblem(p, declared, infos, sha) <==> ArchiveProblem(p, entries, infos, sha)
  {
    if p.NotCovered? || p.NotArchived? {
      DeclaredNames(declared, entries, p.name);
    } else {
      FilesFollowList(p, declared, entries, infos, sha);
    }
  }

  lemma {:induction false} FilesFollowList(p: Problem, declared: map<string, Json>, entries: seq<Json>,
                                           infos: map<string, Info>, sha: Bytes -> string)
    requires IsDeclared(declared, entries)
    ensures DiffersAmong(p, declared, infos, declared.Keys * infos.Keys, sha) <==>
            exists name | name in infos :: FileProblem(p, entries, name, infos[name], sha)
  {
    forall name | name in infos
      ensures FileProblem(p, entries, name, infos[name], sha) <==>
              name in declared && DiffersIn(p, declared, infos, name, sha)
    {
      FileFollowsList(p, declared, entries, infos, name, sha);
    }
    if name :| name in declared.Keys * infos.Keys && DiffersIn(p, declared, infos, name, sha) {
      assert FileProblem(p, entries, name, infos[name], sha);
    }
    if name :| name in infos && FileProblem(p, entries, name, infos[name], sha) {
      assert name in declared.Keys * infos.Keys;
    }
  }

  lemma {:induction false} DeclaredAreEntries(declared: map<string, Json>, entries: seq<Json>)
    requires IsDeclared(declared, entries)
    ensures forall name | name in declared :: IsEntry(declared[name])
  {
  }

  lemma {:induction false} FileFollowsList(
      p: Problem, declared: map<string, Json>, entries: seq<Json>, infos: map<string, Info>, name: string,
      sha: Bytes -> string)
    requires IsDeclared(declared, entries) && name in infos
    ensures FileProblem(p, entries, name, infos[name], sha) <==>
            name in declared && DiffersIn(p, declared, infos, name, sha)
  {
  }

  /** The loops over the names on one side only; the messages are collected in any order. */
  method CompareNames(declared: map<string, Json>, infos: map<string, Info>) returns (problems: seq<Problem>)
    ensures forall p :: p in problems <==>
                        || (p.NotCovered? && p.name in infos && p.name !in declared)
                        || (p.NotArchived? && p.name in declared && p.name !in infos)
  {
    problems := [];
    var uncovered := infos.Keys - declared.Keys;
    while uncovered != {}
      invariant uncovered <= infos.Keys - declared.Keys
      invariant forall p :: p in problems <==> p.NotCovered? && p.name in infos.Keys - declared.Keys - uncovered
    {
      SomeText(uncovered);
      var name :| name in uncovered;
      problems := problems + [NotCovered(name)];
      uncovered := uncovered - {name};
    }
    var missing := declared.Keys - infos.Keys;
    ghost var before := problems;
    while missing != {}
      invariant missing <= declared.Keys - infos.Keys
      invariant forall p :: p in problems <==>
                            p in before || (p.NotArchived? && p.name in declared.Keys - infos.Keys - missing)
    {
      SomeText(missing);
      var name :| name in missing;
      problems := problems + [NotArchived(name)];
      missing := missing - {name};
    }
  }

  /** The loop over the common names. */
  method CompareFiles(
      declared: map<string, Json>, infos: map<string, Info>, sha: Bytes -> string)
    returns (problems: seq<Problem>)
    requires forall name | name in declared :: IsEntry(declared[name])
    ensures forall p :: p in problems <==> DiffersAmong(p, declared, infos, declared.Keys * infos.Keys, sha)
  {
    problems := [];
    var common := infos.Keys * declared.Keys;
    ghost var seen: set<string> := {};
    while common != {}
      invariant common + seen == infos.Keys * declared.Keys
      invariant forall p :: p in problems <==> DiffersAmong(p, declared, infos, seen, sha)
    {
      SomeText(common);
      var name :| name in common;
      var more := CheckFile(declared[name], name, infos[name], sha);
      ghost var earlier := seen;
      seen := seen + {name};
      forall p
        ensures p in problems + more <==> DiffersAmong(p, declared, infos, seen, sha)
      {
        OneMoreFile(p, declared, infos, earlier, name, sha);
      }
      problems := problems + more;
      common := common - {name};
    }
    assert seen == infos.Keys * declared.Keys;
  }

  lemma {:induction false} OneMoreFile(
      p: Problem, declared: map<string, Json>, infos: map<string, Info>, names: set<string>, name: string,
      sha: Bytes -> string)
    requires names <= declared.Keys * infos.Keys && name in declared && name in infos
    ensures DiffersAmong(p, declared, infos, names + {name}, sha) <==>
            DiffersAmong(p, declared, infos, names, sha) || DiffersIn(p, declared, infos, name, sha)
  {
  }

  /** The comparison of the declared names with the archived ones. */
  method Compare(
      declared: map<string, Json>, infos: map<string, Info>, sha: Bytes -> string)
    returns (problems: seq<Problem>)
    requires forall name | name in declared :: IsEntry(declared[name])
    ensures forall p :: p in problems <==> MapProblem(p, declared, infos, sha)
  {
    var names := CompareNames(declared, infos);
    var files := CompareFiles(declared, infos, sha);
    problems := names + files;
  }

  /** `_portable_manifest_problems`. */
  method ManifestProblems(
      infos: map<string, Info>, external: External, parse: Bytes -> Option<Json>, sha: Bytes -> string)
    returns (r: Result<seq<Problem>, Failure>)
    ensures r.Err? <==> Open(infos, parse).Raised?
    ensures r.Ok? ==> forall p :: p in r.value <==> Reported(p, infos, external, parse, sha)
  {
    if SELF_PATH !in infos { return Ok([ManifestMissing]); }
    var info := infos[SELF_PATH];
    if info.encrypted { return Ok([ManifestEncrypted]); }
    if info.body.BadZip? { return Err(BadZipFile); }
    if info.body.Unreadable? { return Ok([ManifestInvalid]); }
    var payload := info.body.bytes;
    var parsed := parse(payload);
    if parsed.None? { return Ok([ManifestInvalid]); }
    var document := parsed.value;
    var problems: seq<Problem> := [];
    match external {
      case Absent => problems := [ExternalMissing];
      case UnreadableFile => problems := [ExternalUnreadable];
      case Present(bytes) => if bytes != payload { problems := [ExternalDiffers]; }
    }
    if !HasFields(document, MANIFEST_FIELDS) { return Ok(problems + [SchemaInvalid]); }
    var header := HeaderProblems(document);
    problems := problems + header;
    if !document.fields["files"].List? { return Ok(problems); }
    var entries := document.fields["files"].items;
    var declared, listed := Declare(entries);
    DeclaredAreEntries(declared, entries);
    var compared := Compare(declared, infos, sha);
    forall p
      ensures p in compared <==> ArchiveProblem(p, entries, infos, sha)
    {
      MapFollowsList(p, declared, entries, infos, sha);
    }
    return Ok(problems + listed + compared);
  }

  /** The checks of the document's own fields. */
  method HeaderProblems(document: Json) returns (problems: seq<Problem>)
    requires HasFields(document, MANIFEST_FIELDS)
    ensures forall p :: p in problems <==> HeaderProblem(p, document)
  {
    problems := [];
    var fields := document.fields;
    if fields["schema_version"] != Text(SCHEMA) { problems := problems + [SchemaVersionInvalid]; }
    if !fields["version"].Text? || !IsVersion(fields["version"].text) { problems := problems + [VersionInvalid]; }
    if !fields["source_commit"].Text? || !IsCommit(fields["source_commit"].text) {
      problems := problems + [CommitInvalid];
    }
    if !fields["source_date_epoch"].Int? && !fields["source_date_epoch"].Bool? {
      problems := problems + [EpochInvalid];
    }
    if !fields["files"].List? { problems := problems + [FilesInvalid]; }
  }
}
