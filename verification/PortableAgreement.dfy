/** Builder and verifier agree, and an accepted manifest pins the whole archive. */
module PortableAgreement {
  import opened Wrappers
  import opened Manifest
  import opened PortableFormat
  import opened PortableBuilder
  import opened PortableVerifier
  import Texts

  // ---- What the manifest check accepts ----

  predicate HeaderOk(document: Json) {
    && HasFields(document, MANIFEST_FIELDS)
    && document.fields["schema_version"] == Text(SCHEMA)
    && document.fields["version"].Text? && IsVersion(document.fields["version"].text)
    && document.fields["source_commit"].Text? && IsCommit(document.fields["source_commit"].text)
    && (document.fields["source_date_epoch"].Int? || document.fields["source_date_epoch"].Bool?)
    && document.fields["files"].List?
  }

  /**
   The entry states the file's size and mode. It states its hash too, unless the file is encrypted, where
   the stated hash is not looked at; the manifest's own entry has no hash.
   */
  predicate Describes(json: Json, name: string, info: Info, sha: Bytes -> string)
    requires IsEntry(json)
  {
    && EqualsInt(json.fields["size"], info.fileSize)
    && EqualsInt(json.fields["mode"], ModeBits(info))
    && if name == SELF_PATH then json.fields["sha256"] == Null
       else !info.encrypted ==> info.body.Content? && json.fields["sha256"] == Text(sha(info.body.bytes))
  }

  /** The list names every archived file once, and nothing else, and describes each. */
  predicate DescribesAll(entries: seq<Json>, infos: map<string, Info>, sha: Bytes -> string) {
    && (forall k | 0 <= k < |entries| :: NamesFile(entries[k]))
    && (forall i, k | 0 <= i < k < |entries| :: PathOf(entries[i]) != PathOf(entries[k]))
    && (forall k | 0 <= k < |entries| :: PathOf(entries[k]) in infos)
    && (forall k | 0 <= k < |entries| :: Describes(entries[k], PathOf(entries[k]), infos[PathOf(entries[k])], sha))
    && (forall name | name in infos :: exists k | 0 <= k < |entries| :: PathOf(entries[k]) == name)
  }

  predicate Faithful(infos: map<string, Info>, external: External, parse: Bytes -> Option<Json>, sha: Bytes -> string) {
    match Open(infos, parse)
    case Read(bytes, document) =>
      && external == Present(bytes)
      && HeaderOk(document)
      && DescribesAll(document.fields["files"].items, infos, sha)
    case _ => false
  }

  /** The manifest check finishes and reports nothing. */
  ghost predicate Passes(
      infos: map<string, Info>, external: External, parse: Bytes -> Option<Json>, sha: Bytes -> string) {
    !Open(infos, parse).Raised? && forall p :: !Reported(p, infos, external, parse, sha)
  }

  lemma {:induction false} NoListProblems(entries: seq<Json>)
    ensures (forall p :: !ListProblem(p, entries)) <==>
            && (forall k | 0 <= k < |entries| :: NamesFile(entries[k]))
            && (forall i, k | 0 <= i < k < |entries| :: PathOf(entries[i]) != PathOf(entries[k]))
  {
    if forall p :: !ListProblem(p, entries) {
      assert !ListProblem(EntryInvalid, entries) && !ListProblem(EntryPathInvalid, entries);
      forall k | 0 <= k < |entries|
        ensures NamesFile(entries[k])
      {
      }
      forall i, k | 0 <= i < k < |entries|
        ensures PathOf(entries[i]) != PathOf(entries[k])
      {
        assert !ListProblem(Repeats(PathOf(entries[i])), entries);
        assert Names(entries[i], PathOf(entries[i]));
      }
    }
  }

  lemma {:induction false} NoDifference(json: Json, name: string, info: Info, sha: Bytes -> string)
    requires IsEntry(json)
    ensures (forall p :: !Differs(p, json, name, info, sha)) <==> Describes(json, name, info, sha)
  {
    if forall p :: !Differs(p, json, name, info, sha) {
      assert !Differs(SizeMismatch(name), json, name, info, sha);
      assert !Differs(ModeMismatch(name), json, name, info, sha);
      assert !Differs(SelfHashPresent, json, name, info, sha);
      assert !Differs(CannotRead(name), json, name, info, sha);
      assert !Differs(HashMismatch(name), json, name, info, sha);
    }
  }

  /** For a list of distinct names, every entry is the declaring one. */
  lemma {:induction false} AllDeclare(entries: seq<Json>, k: nat)
    requires k < |entries|
    requires forall i | 0 <= i < |entries| :: NamesFile(entries[i])
    requires forall i, j | 0 <= i < j < |entries| :: PathOf(entries[i]) != PathOf(entries[j])
    ensures Declares(entries, k, PathOf(entries[k]))
  {
  }

  lemma {:induction false} PassingListDescribes(entries: seq<Json>, infos: map<string, Info>, sha: Bytes -> string)
    requires forall p :: !ListProblem(p, entries)
    requires forall p :: !ArchiveProblem(p, entries, infos, sha)
    ensures DescribesAll(entries, infos, sha)
  {
    NoListProblems(entries);
    forall k | 0 <= k < |entries|
      ensures PathOf(entries[k]) in infos && Describes(entries[k], PathOf(entries[k]), infos[PathOf(entries[k])], sha)
    {
      var name := PathOf(entries[k]);
      assert Names(entries[k], name);
      assert !ArchiveProblem(NotArchived(name), entries, infos, sha);
      AllDeclare(entries, k);
      forall p
        ensures !Differs(p, entries[k], name, infos[name], sha)
      {
        assert !ArchiveProblem(p, entries, infos, sha);
        if Differs(p, entries[k], name, infos[name], sha) { assert FileProblem(p, entries, name, infos[name], sha); }
      }
      NoDifference(entries[k], name, infos[name], sha);
    }
    forall name | name in infos
      ensures exists k | 0 <= k < |entries| :: PathOf(entries[k]) == name
    {
      assert !ArchiveProblem(NotCovered(name), entries, infos, sha);
    }
  }

  lemma {:induction false} DescribedListPasses(
      entries: seq<Json>, infos: map<string, Info>, sha: Bytes -> string, p: Problem)
    requires DescribesAll(entries, infos, sha)
    ensures !ListProblem(p, entries) && !ArchiveProblem(p, entries, infos, sha)
  {
    NoListProblems(entries);
    DescribedArchivePasses(entries, infos, sha, p);
  }

  ghost predicate SameNames(entries: seq<Json>, infos: map<string, Info>) {
    && (forall name | name in infos :: exists k | 0 <= k < |entries| :: Names(entries[k], name))
    && (forall k, name | 0 <= k < |entries| && Names(entries[k], name) :: name in infos)
  }

  lemma {:induction false} DescribedNamesAgree(entries: seq<Json>, infos: map<string, Info>, sha: Bytes -> string)
    requires DescribesAll(entries, infos, sha)
    ensures SameNames(entries, infos)
  {
  }

  lemma {:induction false} NoArchiveProblem(
      entries: seq<Json>, infos: map<string, Info>, sha: Bytes -> string, p: Problem)
    requires SameNames(entries, infos)
    requires forall name | name in infos :: !FileProblem(p, entries, name, infos[name], sha)
    ensures !ArchiveProblem(p, entries, infos, sha)
  {
  }

  lemma {:induction false} DescribedArchivePasses(
      entries: seq<Json>, infos: map<string, Info>, sha: Bytes -> string, p: Problem)
    requires DescribesAll(entries, infos, sha)
    ensures !ArchiveProblem(p, entries, infos, sha)
  {
    DescribedNamesAgree(entries, infos, sha);
    forall name | name in infos
      ensures !FileProblem(p, entries, name, infos[name], sha)
    {
      DescribedFilePasses(entries, infos, sha, p, name);
    }
    NoArchiveProblem(entries, infos, sha, p);
  }

  lemma {:induction false} DescribedFilePasses(
      entries: seq<Json>, infos: map<string, Info>, sha: Bytes -> string, p: Problem, name: string)
    requires DescribesAll(entries, infos, sha) && name in infos
    ensures !FileProblem(p, entries, name, infos[name], sha)
  {
  }

  lemma {:induction false} NoHeaderProblem(document: Json)
    ensures (forall p :: !HeaderProblem(p, document)) <==> HeaderOk(document)
  {
    if forall p :: !HeaderProblem(p, document) {
      assert !HeaderProblem(SchemaInvalid, document);
      assert !HeaderProblem(SchemaVersionInvalid, document) && !HeaderProblem(VersionInvalid, document);
      assert !HeaderProblem(CommitInvalid, document) && !HeaderProblem(EpochInvalid, document);
      assert !HeaderProblem(FilesInvalid, document);
    }
  }

  /**
   The manifest check reports nothing exactly when the manifest, with the same bytes inside and beside
   the archive, has one entry for every archived file and no other, with its size and mode and, for files
   that are not encrypted, its hash.
   */
  lemma {:induction false} PassesWhenFaithful(
      infos: map<string, Info>, external: External, parse: Bytes -> Option<Json>, sha: Bytes -> string)
    ensures Passes(infos, external, parse, sha) <==> Faithful(infos, external, parse, sha)
  {
    var opening := Open(infos, parse);
    match opening
    case Stopped(first) => assert Reported(first, infos, external, parse, sha);
    case Raised =>
    case Read(bytes, document) =>
      NoHeaderProblem(document);
      if Passes(infos, external, parse, sha) {
        PassingIsFaithful(infos, external, parse, sha, bytes, document);
      }
      if Faithful(infos, external, parse, sha) {
        forall p
          ensures !Reported(p, infos, external, parse, sha)
        {
          DescribedListPasses(document.fields["files"].items, infos, sha, p);
          assert !HeaderProblem(p, document);
        }
      }
  }

  lemma {:induction false} PassingIsFaithful(
      infos: map<string, Info>, external: External, parse: Bytes -> Option<Json>, sha: Bytes -> string, bytes: Bytes,
      document: Json)
    requires Passes(infos, external, parse, sha) && Open(infos, parse) == Read(bytes, document)
    ensures Faithful(infos, external, parse, sha)
  {
    assert !Reported(ExternalMissing, infos, external, parse, sha);
    assert !Reported(ExternalUnreadable, infos, external, parse, sha);
    assert !Reported(ExternalDiffers, infos, external, parse, sha);
    forall p
      ensures !HeaderProblem(p, document)
    {
      assert !Reported(p, infos, external, parse, sha);
    }
    NoHeaderProblem(document);
    var entries := document.fields["files"].items;
    forall p
      ensures !ListProblem(p, entries) && !ArchiveProblem(p, entries, infos, sha)
    {
      assert !Reported(p, infos, external, parse, sha);
    }
    PassingListDescribes(entries, infos, sha);
  }

  // ---- Stated hashes ----

  /** The manifest lists the file, every entry for it with this hash, or with none. */
  ghost predicate StatesHash(
      infos: map<string, Info>, parse: Bytes -> Option<Json>, name: string, hash: Option<string>) {
    match Open(infos, parse)
    case Read(_, document) =>
      && Listing(document).Some?
      && (exists json | json in Listing(document).value :: Names(json, name))
      && (forall json | json in Listing(document).value && Names(json, name) ::
            json.fields["sha256"] == if hash.Some? then Text(hash.value) else Null)
    case _ => false
  }

  /** The manifest states the hash of the file's contents. */
  ghost predicate HashStated(infos: map<string, Info>, parse: Bytes -> Option<Json>, sha: Bytes -> string, name: string)
    requires name in infos
  {
    infos[name].body.Content? && StatesHash(infos, parse, name, Some(sha(infos[name].body.bytes)))
  }

  /** Reading back a zip file that `_write_zip` wrote. */
  function InfoOf(payload: Payload): Info {
    Info(Content(payload.content), |payload.content|, payload.mode % 0x10000 * 0x10000, false)
  }

  /** The archive with this text as its manifest. */
  function Carrying(infos: map<string, Info>, bytes: Bytes): map<string, Info> {
    infos[SELF_PATH := InfoOf(Payload(SELF_PATH, bytes, SELF_MODE))]
  }

  /** Whatever text the manifest is: if the check accepts it, it states this file's hash. */
  ghost predicate HashForced(infos: map<string, Info>, parse: Bytes -> Option<Json>, sha: Bytes -> string, name: string)
    requires name in infos
  {
    forall bytes | Passes(Carrying(infos, bytes), Present(bytes), parse, sha) ::
      HashStated(Carrying(infos, bytes), parse, sha, name)
  }

  /** The manifest of an accepted archive. */
  lemma {:induction false} AcceptedDocument(
      infos: map<string, Info>, external: External, parse: Bytes -> Option<Json>, sha: Bytes -> string)
    returns (bytes: Bytes, document: Json)
    requires Passes(infos, external, parse, sha)
    ensures Open(infos, parse) == Read(bytes, document) && external == Present(bytes)
    ensures HeaderOk(document) && DescribesAll(document.fields["files"].items, infos, sha)
  {
    PassesWhenFaithful(infos, external, parse, sha);
    bytes, document := Open(infos, parse).bytes, Open(infos, parse).document;
  }

  lemma {:induction false} PlainHashStated(
      infos: map<string, Info>, external: External, parse: Bytes -> Option<Json>, sha: Bytes -> string, name: string)
    requires Passes(infos, external, parse, sha) && name in infos && name != SELF_PATH && !infos[name].encrypted
    ensures HashStated(infos, parse, sha, name)
  {
    var _, document := AcceptedDocument(infos, external, parse, sha);
    var entries := document.fields["files"].items;
    var k :| 0 <= k < |entries| && PathOf(entries[k]) == name;
    assert entries[k] in entries && Describes(entries[k], name, infos[name], sha);
    forall json | json in entries && Names(json, name)
      ensures json.fields["sha256"] == Text(sha(infos[name].body.bytes))
    {
      var i :| 0 <= i < |entries| && entries[i] == json;
      assert Describes(entries[i], PathOf(entries[i]), infos[PathOf(entries[i])], sha);
    }
  }

  // ---- Printed manifests ----

  predicate Fits(entry: Entry, infos: map<string, Info>, sha: Bytes -> string) {
    entry.path in infos && Describes(EntryJson(entry), entry.path, infos[entry.path], sha)
  }

  predicate Covers(entries: seq<Entry>, infos: map<string, Info>) {
    forall name | name in infos :: exists entry: Entry | entry in entries :: entry.path == name
  }

  /** The entries fit the archive, one for each file. */
  predicate AllFit(entries: seq<Entry>, infos: map<string, Info>, sha: Bytes -> string) {
    PathsDistinct(entries) && (forall entry | entry in entries :: Fits(entry, infos, sha)) && Covers(entries, infos)
  }

  lemma {:induction false} PrintedPaths(entries: seq<Entry>)
    ensures forall k | 0 <= k < |entries| ::
              NamesFile(EntriesJson(entries)[k]) && PathOf(EntriesJson(entries)[k]) == entries[k].path
  {
  }

  lemma {:induction false} ListedFit(entries: seq<Entry>, infos: map<string, Info>, sha: Bytes -> string)
    ensures DescribesAll(EntriesJson(entries), infos, sha) <==> AllFit(entries, infos, sha)
  {
    var list := EntriesJson(entries);
    PrintedPaths(entries);
    if DescribesAll(list, infos, sha) {
      forall entry | entry in entries
        ensures Fits(entry, infos, sha)
      {
        var k :| 0 <= k < |entries| && entries[k] == entry;
        assert Describes(list[k], PathOf(list[k]), infos[PathOf(list[k])], sha);
      }
      forall name | name in infos
        ensures exists entry | entry in entries :: entry.path == name
      {
        var k :| 0 <= k < |list| && PathOf(list[k]) == name;
        assert entries[k] in entries;
      }
      forall i, k | 0 <= i < k < |entries|
        ensures entries[i].path != entries[k].path
      {
        assert PathOf(list[i]) != PathOf(list[k]);
      }
    }
    if AllFit(entries, infos, sha) { FittingListDescribes(entries, list, infos, sha); }
  }

  lemma {:induction false} FittingListDescribes(
      entries: seq<Entry>, list: seq<Json>, infos: map<string, Info>, sha: Bytes -> string)
    requires AllFit(entries, infos, sha) && list == EntriesJson(entries)
    ensures DescribesAll(list, infos, sha)
  {
    PrintedPaths(entries);
    forall k | 0 <= k < |list|
      ensures PathOf(list[k]) in infos && Describes(list[k], PathOf(list[k]), infos[PathOf(list[k])], sha)
    {
      assert entries[k] in entries && Fits(entries[k], infos, sha);
    }
    forall name | name in infos
      ensures exists k | 0 <= k < |list| :: PathOf(list[k]) == name
    {
      var entry :| entry in entries && entry.path == name;
      var k :| 0 <= k < |entries| && entries[k] == entry;
      assert PathOf(list[k]) == name;
    }
  }

  lemma {:induction false} OrderedFit(
      entries: seq<Entry>, others: seq<Entry>, infos: map<string, Info>, sha: Bytes -> string)
    requires multiset(entries) == multiset(others) && AllFit(entries, infos, sha)
    ensures AllFit(others, infos, sha)
  {
    OrderKeepsDistinct(entries, others);
  }

  /** A sorted list of entries describes an archive when the entries fit it, in whatever order. */
  lemma {:induction false} SortedDescribes(entries: seq<Entry>, infos: map<string, Info>, sha: Bytes -> string)
    ensures DescribesAll(EntriesJson(SortedByPath(entries)), infos, sha) <==> AllFit(entries, infos, sha)
  {
    SortingSorts(entries);
    ListedFit(SortedByPath(entries), infos, sha);
    if AllFit(entries, infos, sha) { OrderedFit(entries, SortedByPath(entries), infos, sha); }
    if AllFit(SortedByPath(entries), infos, sha) { OrderedFit(SortedByPath(entries), entries, infos, sha); }
  }

  /** The entries, without the manifest's own, fit the other files of the archive. */
  predicate FilesFit(entries: seq<Entry>, infos: map<string, Info>, sha: Bytes -> string) {
    && PathsDistinct(entries)
    && (forall entry | entry in entries :: entry.path != SELF_PATH && Fits(entry, infos, sha))
    && Covers(entries, infos - {SELF_PATH})
  }

  lemma {:induction false} SelfFits(bytes: Bytes, n: nat, infos: map<string, Info>, sha: Bytes -> string)
    ensures Fits(Self(n), Carrying(infos, bytes), sha) <==> |bytes| == n
  {
  }

  lemma {:induction false} OtherFits(entry: Entry, bytes: Bytes, infos: map<string, Info>, sha: Bytes -> string)
    requires entry.path != SELF_PATH
    ensures Fits(entry, Carrying(infos, bytes), sha) <==> Fits(entry, infos, sha)
  {
  }

  lemma {:induction false} AddingSelfFits(
      entries: seq<Entry>, bytes: Bytes, n: nat, infos: map<string, Info>, sha: Bytes -> string)
    requires |bytes| == n && FilesFit(entries, infos, sha)
    ensures AllFit(entries + [Self(n)], Carrying(infos, bytes), sha)
  {
    var all, carrying := entries + [Self(n)], Carrying(infos, bytes);
    SelfFits(bytes, n, infos, sha);
    forall entry | entry in all
      ensures Fits(entry, carrying, sha)
    {
      if entry != Self(n) { OtherFits(entry, bytes, infos, sha); }
    }
    assert all[|entries|] == Self(n);
    forall name | name in carrying
      ensures exists entry: Entry | entry in all :: entry.path == name
    {
      if name != SELF_PATH {
        assert name in infos - {SELF_PATH};
        var entry: Entry :| entry in entries && entry.path == name;
        assert entry in all;
      }
    }
  }

  lemma {:induction false} WithoutSelfFit(
      entries: seq<Entry>, bytes: Bytes, n: nat, infos: map<string, Info>, sha: Bytes -> string)
    requires AllFit(entries + [Self(n)], Carrying(infos, bytes), sha)
    ensures |bytes| == n && FilesFit(entries, infos, sha)
  {
    var all := entries + [Self(n)];
    assert all[|entries|] == Self(n);
    SelfFits(bytes, n, infos, sha);
    forall i | 0 <= i < |entries|
      ensures entries[i].path != SELF_PATH && Fits(entries[i], infos, sha)
    {
      assert all[i] == entries[i] && all[i] in all;
      OtherFits(entries[i], bytes, infos, sha);
    }
    assert forall i, k | 0 <= i < k < |entries| :: all[i] == entries[i] && all[k] == entries[k];
    forall name | name in infos - {SELF_PATH}
      ensures exists entry: Entry | entry in entries :: entry.path == name
    {
      assert name in Carrying(infos, bytes);
      var entry: Entry :| entry in all && entry.path == name;
      assert entry in entries;
    }
  }

  lemma {:induction false} PrintedHeader(entries: seq<Entry>, release: Release)
    ensures HeaderOk(Document(entries, release)) <==> IsVersion(release.version) && IsCommit(release.commit)
    ensures Listing(Document(entries, release)) == Some(EntriesJson(SortedByPath(entries)))
  {
  }

  lemma {:induction false} PrintedOpens(
      entries: seq<Entry>, release: Release, infos: map<string, Info>, bytes: Bytes, parse: Bytes -> Option<Json>,
      quote: string -> Bytes)
    requires ReadsManifests(parse, quote) && bytes == BuildManifest(entries, release, quote)
    ensures Open(Carrying(infos, bytes), parse) == Read(bytes, Document(entries, release))
  {
  }

  /**
   Which printed manifests pass: those with a valid version and commit that state their own size and whose
   other entries fit the other files, one for each.
   */
  lemma {:induction false} PrintedPasses(
      entries: seq<Entry>, n: nat, release: Release, infos: map<string, Info>, parse: Bytes -> Option<Json>,
      quote: string -> Bytes, sha: Bytes -> string)
    requires ReadsManifests(parse, quote)
    ensures var bytes := Stating(entries, n, release, quote);
            Passes(Carrying(infos, bytes), Present(bytes), parse, sha) <==>
            && IsVersion(release.version) && IsCommit(release.commit)
            && |bytes| == n && FilesFit(entries, infos, sha)
  {
    var all, bytes := entries + [Self(n)], Stating(entries, n, release, quote);
    var carrying := Carrying(infos, bytes);
    PrintedOpens(all, release, infos, bytes, parse, quote);
    PassesWhenFaithful(carrying, Present(bytes), parse, sha);
    PrintedHeader(all, release);
    SortedDescribes(all, carrying, sha);
    if |bytes| == n && FilesFit(entries, infos, sha) { AddingSelfFits(entries, bytes, n, infos, sha); }
    if AllFit(all, carrying, sha) { WithoutSelfFit(entries, bytes, n, infos, sha); }
  }

  // ---- Encrypted files ----

  predicate Unencrypted(infos: map<string, Info>) {
    forall name | name in infos :: !infos[name].encrypted
  }

  /** Every file that is not encrypted can be read, the manifest aside. */
  predicate Readable(infos: map<string, Info>) {
    forall name | name in infos && name != SELF_PATH && !infos[name].encrypted :: infos[name].body.Content?
  }

  /** The entry for a file, with a claimed hash in place of that of an encrypted file. */
  function EntryFor(name: string, info: Info, claim: Option<string>, sha: Bytes -> string): Entry
    requires !info.encrypted ==> info.body.Content?
  {
    Entry(name, info.fileSize, ModeBits(info), if info.encrypted then claim else Some(sha(info.body.bytes)))
  }

  /** The entries for the named files. */
  function EntriesFor(
      names: seq<string>, infos: map<string, Info>, claims: string -> Option<string>, sha: Bytes -> string): seq<Entry>
    requires Readable(infos) && forall name | name in names :: name in infos && name != SELF_PATH
  {
    seq(|names|, i requires 0 <= i < |names| => EntryFor(names[i], infos[names[i]], claims(names[i]), sha))
  }

  lemma {:induction false} NamesListed(names: set<string>) returns (list: seq<string>)
    ensures forall name :: name in list <==> name in names
    ensures forall i, j | 0 <= i < j < |list| :: list[i] != list[j]
  {
    if names == {} {
      list := [];
    } else {
      SomeText(names);
      var name :| name in names;
      var rest := NamesListed(names - {name});
      list := rest + [name];
    }
  }

  lemma {:induction false} ClaimedEntriesFit(
      names: seq<string>, infos: map<string, Info>, claims: string -> Option<string>, sha: Bytes -> string)
    requires Readable(infos) && forall name :: name in names <==> name in infos && name != SELF_PATH
    requires forall i, j | 0 <= i < j < |names| :: names[i] != names[j]
    ensures FilesFit(EntriesFor(names, infos, claims, sha), infos, sha)
  {
    var entries := EntriesFor(names, infos, claims, sha);
    forall entry | entry in entries
      ensures entry.path != SELF_PATH && Fits(entry, infos, sha)
    {
      var k :| 0 <= k < |entries| && entries[k] == entry;
      assert names[k] in names;
    }
    forall name | name in infos - {SELF_PATH}
      ensures exists entry | entry in entries :: entry.path == name
    {
      var k :| 0 <= k < |names| && names[k] == name;
      assert entries[k] in entries;
    }
  }

  /** The printed list has one entry of this path. */
  lemma {:induction false} ListedEntryIsOne(entries: seq<Entry>, entry: Entry)
    requires PathsDistinct(entries) && entry in entries
    ensures EntryJson(entry) in EntriesJson(entries) && Names(EntryJson(entry), entry.path)
    ensures forall json | json in EntriesJson(entries) && Names(json, entry.path) :: json == EntryJson(entry)
  {
    var list := EntriesJson(entries);
    PrintedPaths(entries);
    var k :| 0 <= k < |entries| && entries[k] == entry;
    assert list[k] == EntryJson(entry);
    forall json | json in list && Names(json, entry.path)
      ensures json == EntryJson(entry)
    {
      var i :| 0 <= i < |list| && list[i] == json;
      assert entries[i].path == entries[k].path;
    }
  }

  lemma {:induction false} PrintedStates(
      entries: seq<Entry>, entry: Entry, release: Release, infos: map<string, Info>, parse: Bytes -> Option<Json>,
      quote: string -> Bytes)
    requires ReadsManifests(parse, quote) && PathsDistinct(entries) && entry in entries
    ensures StatesHash(Carrying(infos, BuildManifest(entries, release, quote)), parse, entry.path, entry.sha256)
  {
    var sorted := SortedByPath(entries);
    PrintedOpens(entries, release, infos, BuildManifest(entries, release, quote), parse, quote);
    PrintedHeader(entries, release);
    SortingSorts(entries);
    OrderKeepsDistinct(entries, sorted);
    ListedEntryIsOne(sorted, entry);
  }

  /** For encrypted files any claimed hashes pass, and none: some accepted manifest states them. */
  lemma {:induction false} AnyClaimsPass(
      infos: map<string, Info>, claims: string -> Option<string>, release: Release, parse: Bytes -> Option<Json>,
      quote: string -> Bytes, sha: Bytes -> string)
    returns (bytes: Bytes)
    requires ReadsManifests(parse, quote) && Readable(infos)
    requires IsVersion(release.version) && IsCommit(release.commit)
    ensures Passes(Carrying(infos, bytes), Present(bytes), parse, sha)
    ensures forall name | name in infos && name != SELF_PATH && infos[name].encrypted ::
              StatesHash(Carrying(infos, bytes), parse, name, claims(name))
  {
    var names := NamesListed(infos.Keys - {SELF_PATH});
    var entries := EntriesFor(names, infos, claims, sha);
    var n := SettledSize(entries, release, quote);
    bytes := Stating(entries, n, release, quote);
    ClaimedEntriesFit(names, infos, claims, sha);
    PrintedPasses(entries, n, release, infos, parse, quote, sha);
    AddingSelfFits(entries, bytes, n, infos, sha);
    forall name | name in infos && name != SELF_PATH && infos[name].encrypted
      ensures StatesHash(Carrying(infos, bytes), parse, name, claims(name))
    {
      var k :| 0 <= k < |names| && names[k] == name;
      assert (entries + [Self(n)])[k] == entries[k];
      PrintedStates(entries + [Self(n)], entries[k], release, infos, parse, quote);
    }
  }

  lemma {:induction false} OneHash(
      infos: map<string, Info>, parse: Bytes -> Option<Json>, sha: Bytes -> string, name: string, hash: Option<string>)
    requires StatesHash(infos, parse, name, hash) && name in infos
    ensures HashStated(infos, parse, sha, name) <==>
            infos[name].body.Content? && hash == Some(sha(infos[name].body.bytes))
  {
  }

  lemma {:induction false} PlainVersion()
    ensures IsVersion("1.0.0")
  {
  }

  lemma {:induction false} PlainRelease() returns (release: Release)
    ensures IsVersion(release.version) && IsCommit(release.commit)
  {
    var n: nat :| n == 40;
    PlainVersion();
    release := Release("1.0.0", Texts.Repeated('0', n), ZIP_MINIMUM_EPOCH);
  }

  lemma {:induction false} PassingIsReadable(
      infos: map<string, Info>, bytes: Bytes, parse: Bytes -> Option<Json>, sha: Bytes -> string)
    requires Passes(Carrying(infos, bytes), Present(bytes), parse, sha)
    ensures Readable(infos)
  {
    forall name | name in infos && name != SELF_PATH && !infos[name].encrypted
      ensures infos[name].body.Content?
    {
      PlainHashStated(Carrying(infos, bytes), Present(bytes), parse, sha, name);
    }
  }

  /** Some manifest passes for an archive exactly when its files that are not encrypted can be read. */
  lemma {:induction false} SomeManifestPasses(
      infos: map<string, Info>, parse: Bytes -> Option<Json>, quote: string -> Bytes, sha: Bytes -> string)
    requires ReadsManifests(parse, quote)
    ensures (exists bytes :: Passes(Carrying(infos, bytes), Present(bytes), parse, sha)) <==> Readable(infos)
  {
    if bytes :| Passes(Carrying(infos, bytes), Present(bytes), parse, sha) {
      PassingIsReadable(infos, bytes, parse, sha);
    }
    if Readable(infos) {
      var release := PlainRelease();
      var bytes := AnyClaimsPass(infos, _ => None, release, parse, quote, sha);
    }
  }

  lemma {:induction false} PlainHashForced(
      infos: map<string, Info>, parse: Bytes -> Option<Json>, sha: Bytes -> string, name: string)
    requires name in infos && name != SELF_PATH && !infos[name].encrypted
    ensures HashForced(infos, parse, sha, name)
  {
    forall bytes | Passes(Carrying(infos, bytes), Present(bytes), parse, sha)
      ensures HashStated(Carrying(infos, bytes), parse, sha, name)
    {
      PlainHashStated(Carrying(infos, bytes), Present(bytes), parse, sha, name);
    }
  }

  lemma {:induction false} EncryptedHashFree(
      infos: map<string, Info>, parse: Bytes -> Option<Json>, quote: string -> Bytes, sha: Bytes -> string,
      name: string)
    requires ReadsManifests(parse, quote) && Readable(infos)
    requires name in infos && name != SELF_PATH && infos[name].encrypted
    ensures !HashForced(infos, parse, sha, name)
  {
    var release := PlainRelease();
    var bytes := AnyClaimsPass(infos, _ => None, release, parse, quote, sha);
    OneHash(Carrying(infos, bytes), parse, sha, name, None);
  }

  /**
   For an archive that some manifest passes, whatever text its manifest is, if that is accepted it states
   the hash of a file: this holds if and only if the file is not encrypted. So all stated hashes are forced
   exactly when nothing is encrypted.
   */
  lemma {:induction false} HashesForced(
      infos: map<string, Info>, parse: Bytes -> Option<Json>, quote: string -> Bytes, sha: Bytes -> string)
    requires ReadsManifests(parse, quote) && Readable(infos)
    ensures forall name | name in infos && name != SELF_PATH ::
              HashForced(infos, parse, sha, name) <==> !infos[name].encrypted
    ensures (forall name | name in infos && name != SELF_PATH :: HashForced(infos, parse, sha, name)) <==>
            Unencrypted(infos - {SELF_PATH})
  {
    forall name | name in infos && name != SELF_PATH
      ensures HashForced(infos, parse, sha, name) <==> !infos[name].encrypted
    {
      if infos[name].encrypted { EncryptedHashFree(infos, parse, quote, sha, name); }
      else { PlainHashForced(infos, parse, sha, name); }
    }
    assert forall name :: name in infos - {SELF_PATH} <==> name in infos && name != SELF_PATH;
  }

  const SEALED: map<string, Info> := map["a" := Info(Content("x"), 1, 420 * 0x10000, true)]

  /** An accepted archive whose manifest states a wrong hash for an encrypted file. */
  lemma {:induction false} WrongHashPasses(
      parse: Bytes -> Option<Json>, quote: string -> Bytes, sha: Bytes -> string, wrong: string)
    returns (infos: map<string, Info>, bytes: Bytes)
    requires ReadsManifests(parse, quote) && sha("x") != wrong
    ensures "a" in infos && infos["a"] == Info(Content("x"), 1, 420 * 0x10000, true)
    ensures Passes(infos, Present(bytes), parse, sha)
    ensures StatesHash(infos, parse, "a", Some(wrong)) && !HashStated(infos, parse, sha, "a")
  {
    assert "a" != SELF_PATH by { assert |SELF_PATH| != 1; }
    var release := PlainRelease();
    var claims := (_: string) => Some(wrong);
    bytes := AnyClaimsPass(SEALED, claims, release, parse, quote, sha);
    infos := Carrying(SEALED, bytes);
    assert claims("a") == Some(wrong);
    OneHash(infos, parse, sha, "a", Some(wrong));
  }

  // ---- An accepted manifest pins the archive ----

  /** Two files that the manifest cannot tell apart. */
  predicate Alike(a: Info, b: Info) {
    a.fileSize == b.fileSize && ModeBits(a) == ModeBits(b) && a.body == b.body
  }

  /** No two different contents of one name share a hash. */
  predicate NoCollision(a: map<string, Info>, b: map<string, Info>, sha: Bytes -> string) {
    forall name | name in a && name in b && a[name].body.Content? && b[name].body.Content? ::
      sha(a[name].body.bytes) == sha(b[name].body.bytes) ==> a[name].body == b[name].body
  }

  /**
   Two accepted archives without encrypted files that carry the same manifest hold the same files, with
   the same sizes, modes and contents, unless contents collide under the hash.
   */
  lemma {:induction false} ManifestPinsArchive(
      a: map<string, Info>, b: map<string, Info>, aExternal: External, bExternal: External,
      parse: Bytes -> Option<Json>, sha: Bytes -> string)
    requires Passes(a, aExternal, parse, sha) && Passes(b, bExternal, parse, sha)
    requires SELF_PATH in a && SELF_PATH in b && a[SELF_PATH].body == b[SELF_PATH].body
    requires Unencrypted(a) && Unencrypted(b) && NoCollision(a, b, sha)
    ensures a.Keys == b.Keys && forall name | name in a :: Alike(a[name], b[name])
  {
    var entries := PassingEntries(a, aExternal, parse, sha);
    var same := PassingEntries(b, bExternal, parse, sha);
    assert entries == same;
    SameArchives(entries, a, b, sha);
  }

  lemma {:induction false} PassingEntries(
      infos: map<string, Info>, external: External, parse: Bytes -> Option<Json>, sha: Bytes -> string)
    returns (entries: seq<Json>)
    requires Passes(infos, external, parse, sha)
    ensures SELF_PATH in infos && infos[SELF_PATH].body.Content?
    ensures var document := parse(infos[SELF_PATH].body.bytes);
            document.Some? && Listing(document.value) == Some(entries)
    ensures DescribesAll(entries, infos, sha)
  {
    PassesWhenFaithful(infos, external, parse, sha);
    entries := Open(infos, parse).document.fields["files"].items;
  }

  lemma {:induction false} SameArchives(
      entries: seq<Json>, a: map<string, Info>, b: map<string, Info>, sha: Bytes -> string)
    requires DescribesAll(entries, a, sha) && DescribesAll(entries, b, sha)
    requires SELF_PATH in a && SELF_PATH in b && a[SELF_PATH].body == b[SELF_PATH].body
    requires Unencrypted(a) && Unencrypted(b) && NoCollision(a, b, sha)
    ensures a.Keys == b.Keys && forall name | name in a :: Alike(a[name], b[name])
  {
    SameFiles(entries, a, b, sha);
    SameFiles(entries, b, a, sha);
  }

  lemma {:induction false} SameFiles(
      entries: seq<Json>, a: map<string, Info>, b: map<string, Info>, sha: Bytes -> string)
    requires DescribesAll(entries, a, sha) && DescribesAll(entries, b, sha)
    requires SELF_PATH in a && SELF_PATH in b && a[SELF_PATH].body == b[SELF_PATH].body
    requires Unencrypted(a) && Unencrypted(b) && NoCollision(a, b, sha)
    ensures forall name | name in a :: name in b && Alike(a[name], b[name])
  {
    forall name | name in a
      ensures name in b && Alike(a[name], b[name])
    {
      var k :| 0 <= k < |entries| && PathOf(entries[k]) == name;
      OneNumber(entries[k].fields["size"], a[name].fileSize, b[name].fileSize);
      OneNumber(entries[k].fields["mode"], ModeBits(a[name]), ModeBits(b[name]));
    }
  }

  lemma OneNumber(json: Json, m: int, n: int)
    requires EqualsInt(json, m) && EqualsInt(json, n)
    ensures m == n
  {
  }

  // ---- The builder's output is accepted ----

  function ArchiveOf(payloads: seq<Payload>): map<string, Info> {
    if payloads == [] then map[]
    else ArchiveOf(payloads[..|payloads| - 1])[payloads[|payloads| - 1].path := InfoOf(payloads[|payloads| - 1])]
  }

  predicate DistinctPaths(payloads: seq<Payload>) {
    forall i, j | 0 <= i < j < |payloads| :: payloads[i].path != payloads[j].path
  }

  lemma {:induction false} ArchiveHolds(payloads: seq<Payload>)
    requires DistinctPaths(payloads)
    ensures forall i | 0 <= i < |payloads| ::
            payloads[i].path in ArchiveOf(payloads) && ArchiveOf(payloads)[payloads[i].path] == InfoOf(payloads[i])
    ensures forall name | name in ArchiveOf(payloads) :: exists i | 0 <= i < |payloads| :: payloads[i].path == name
  {
    if payloads != [] { ArchiveHolds(payloads[..|payloads| - 1]); }
  }

  lemma {:induction false} BuiltPathsDistinct(tools: Tools, tracked: seq<Tracked>, release: Release, output: Output)
    requires BuiltFrom(tools, tracked, release, output) && tools.normalized(SELF_PATH).None?
    ensures DistinctPaths(output.payloads)
  {
    var n, files := |tracked|, output.payloads[..|tracked|];
    forall i, j | 0 <= i < j < |output.payloads|
      ensures output.payloads[i].path != output.payloads[j].path
    {
      assert FileBuilt(tools, tracked[i], files[i]) && files[i] == output.payloads[i];
      if j < n {
        assert files[j] == output.payloads[j];
        assert tools.fold(files[i].path) != tools.fold(files[j].path);
      } else {
        MappedIsNotSelf(tracked[i].path);
      }
    }
  }

  lemma MappedIsNotSelf(path: string)
    ensures ArchivePath(path) == SELF_PATH ==> path == SELF_PATH
  {
  }

  // ---- What a build archives ----

  /** Readable by all, writable by its owner only, and executable by all or by none. */
  predicate HasMode(info: Info, executable: bool) {
    var mode := info.externalAttr / 0x1_0000;
    && mode < 512
    && mode / 256 % 2 == 1 && mode / 32 % 2 == 1 && mode / 4 % 2 == 1
    && mode / 128 % 2 == 1 && mode / 16 % 2 == 0 && mode / 2 % 2 == 0
    && (mode / 64 % 2 == 1 <==> executable) && (mode / 8 % 2 == 1 <==> executable) && (mode % 2 == 1 <==> executable)
  }

  /** The archived file is the tracked one: its checked content, executable exactly for index mode 0o100755. */
  predicate IsArchived(tools: Tools, file: Tracked, info: Info) {
    && tools.normalized(file.path).Some? && info.body == Content(tools.normalized(file.path).value)
    && info.fileSize == |tools.normalized(file.path).value| && !info.encrypted
    && HasMode(info, file.indexMode == 0x81ED)
  }

  lemma {:induction false} ArchivedMode(payload: Payload, file: Tracked)
    requires payload.mode == ModeFor(file.indexMode)
    ensures HasMode(InfoOf(payload), file.indexMode == 0x81ED)
  {
    assert payload.mode == 493 || payload.mode == 420;
    assert InfoOf(payload).externalAttr / 0x1_0000 == payload.mode;
  }

  /** Every successful build archives each tracked file under its name, with its content and mode. */
  lemma {:induction false} BuiltFilesAreTracked(tools: Tools, tracked: seq<Tracked>, release: Release, output: Output)
    requires BuiltFrom(tools, tracked, release, output) && tools.normalized(SELF_PATH).None?
    ensures forall file, name | file in tracked && IsArchivedAs(file.path, name) ::
              name in ArchiveOf(output.payloads) && IsArchived(tools, file, ArchiveOf(output.payloads)[name])
  {
    BuiltPathsDistinct(tools, tracked, release, output);
    forall file, name | file in tracked && IsArchivedAs(file.path, name)
      ensures name in ArchiveOf(output.payloads) && IsArchived(tools, file, ArchiveOf(output.payloads)[name])
    {
      var i :| 0 <= i < |tracked| && tracked[i] == file;
      BuiltFile(tools, tracked, release, output, i, name);
    }
  }

  /** Besides the tracked files it archives only the manifest, as a plain file. */
  lemma {:induction false} NothingElseIsBuilt(tools: Tools, tracked: seq<Tracked>, release: Release, output: Output)
    requires BuiltFrom(tools, tracked, release, output) && tools.normalized(SELF_PATH).None?
    ensures forall name | name in ArchiveOf(output.payloads) && name != "release-manifest.json" ::
              exists file | file in tracked :: IsArchivedAs(file.path, name)
    ensures var name := "release-manifest.json";
            name in ArchiveOf(output.payloads)
            && ArchiveOf(output.payloads)[name] == InfoOf(Payload(name, output.externalManifest, 420))
  {
    BuiltPathsDistinct(tools, tracked, release, output);
    ArchiveHolds(output.payloads);
    forall name | name in ArchiveOf(output.payloads) && name != "release-manifest.json"
      ensures exists file | file in tracked :: IsArchivedAs(file.path, name)
    {
      var i :| 0 <= i < |output.payloads| && output.payloads[i].path == name;
      BuiltName(tools, tracked, release, output, i);
      assert tracked[i] in tracked;
    }
    assert output.payloads[|tracked|].path == SELF_PATH;
  }

  lemma {:induction false} BuiltName(tools: Tools, tracked: seq<Tracked>, release: Release, output: Output, i: nat)
    requires BuiltFrom(tools, tracked, release, output)
    requires i < |output.payloads| && output.payloads[i].path != SELF_PATH
    ensures i < |tracked| && IsArchivedAs(tracked[i].path, output.payloads[i].path)
  {
    if i < |tracked| {
      assert FileBuilt(tools, tracked[i], output.payloads[..|tracked|][i]);
      ArchivedName(tracked[i].path, output.payloads[i].path);
    }
  }

  lemma {:induction false} BuiltFile(
      tools: Tools, tracked: seq<Tracked>, release: Release, output: Output, i: nat, name: string)
    requires BuiltFrom(tools, tracked, release, output) && DistinctPaths(output.payloads)
    requires i < |tracked| && IsArchivedAs(tracked[i].path, name)
    ensures name in ArchiveOf(output.payloads) && IsArchived(tools, tracked[i], ArchiveOf(output.payloads)[name])
  {
    assert FileBuilt(tools, tracked[i], output.payloads[..|tracked|][i]);
    ArchivedName(tracked[i].path, name);
    ArchivedMode(output.payloads[i], tracked[i]);
    ArchiveHolds(output.payloads);
  }

  /** The entry that the manifest of a build lists for a payload. */
  function BuiltEntry(payload: Payload, sha: Bytes -> string): Entry {
    if payload.path == SELF_PATH then Self(|payload.content|) else EntryOf(payload, sha)
  }

  function BuiltEntries(tools: Tools, tracked: seq<Tracked>, output: Output): seq<Entry>
    requires |output.payloads| == |tracked| + 1
  {
    EntriesOf(output.payloads[..|tracked|], tools.sha) + [Self(|output.externalManifest|)]
  }

  lemma {:induction false} BuiltEntriesAre(tools: Tools, tracked: seq<Tracked>, release: Release, output: Output)
    requires BuiltFrom(tools, tracked, release, output) && DistinctPaths(output.payloads)
    ensures var entries := BuiltEntries(tools, tracked, output);
            |entries| == |output.payloads| &&
            forall i | 0 <= i < |entries| :: entries[i] == BuiltEntry(output.payloads[i], tools.sha)
  {
  }

  predicate PlainMode(payload: Payload) {
    if payload.path == SELF_PATH then payload.mode == SELF_MODE else payload.mode == 493 || payload.mode == 420
  }

  lemma {:induction false} EntryDescribes(payload: Payload, sha: Bytes -> string)
    requires PlainMode(payload)
    ensures Describes(EntryJson(BuiltEntry(payload, sha)), payload.path, InfoOf(payload), sha)
  {
  }

  lemma {:induction false} BuiltModesPlain(tools: Tools, tracked: seq<Tracked>, release: Release, output: Output)
    requires BuiltFrom(tools, tracked, release, output) && DistinctPaths(output.payloads)
    ensures forall payload | payload in output.payloads :: PlainMode(payload)
  {
  }

  lemma {:induction false} BuiltEntryFits(payloads: seq<Payload>, payload: Payload, sha: Bytes -> string)
    requires DistinctPaths(payloads) && payload in payloads && PlainMode(payload)
    ensures Fits(BuiltEntry(payload, sha), ArchiveOf(payloads), sha)
  {
    ArchiveHolds(payloads);
    EntryDescribes(payload, sha);
  }

  lemma {:induction false} BuiltEntriesFit(payloads: seq<Payload>, entries: seq<Entry>, sha: Bytes -> string)
    requires DistinctPaths(payloads) && |entries| == |payloads|
    requires forall payload | payload in payloads :: PlainMode(payload)
    requires forall i | 0 <= i < |payloads| :: entries[i] == BuiltEntry(payloads[i], sha)
    ensures AllFit(entries, ArchiveOf(payloads), sha)
  {
    forall i | 0 <= i < |entries|
      ensures Fits(entries[i], ArchiveOf(payloads), sha) && entries[i].path == payloads[i].path
    {
      BuiltEntryFits(payloads, payloads[i], sha);
    }
    ArchiveHolds(payloads);
    forall name | name in ArchiveOf(payloads)
      ensures exists entry: Entry | entry in entries :: entry.path == name
    {
      var i :| 0 <= i < |payloads| && payloads[i].path == name;
      assert entries[i] in entries;
    }
  }

  lemma {:induction false} BuiltListDescribes(tools: Tools, tracked: seq<Tracked>, release: Release, output: Output)
    requires BuiltFrom(tools, tracked, release, output) && tools.normalized(SELF_PATH).None?
    ensures DescribesAll(
              EntriesJson(SortedByPath(BuiltEntries(tools, tracked, output))), ArchiveOf(output.payloads), tools.sha)
  {
    var entries := BuiltEntries(tools, tracked, output);
    BuiltPathsDistinct(tools, tracked, release, output);
    BuiltEntriesAre(tools, tracked, release, output);
    BuiltModesPlain(tools, tracked, release, output);
    BuiltEntriesFit(output.payloads, entries, tools.sha);
    SortedDescribes(entries, ArchiveOf(output.payloads), tools.sha);
  }

  lemma {:induction false} DocumentHeader(entries: seq<Entry>, release: Release, p: Problem)
    requires IsVersion(release.version)
    ensures HeaderProblem(p, Document(entries, release)) <==> p == CommitInvalid && !IsCommit(release.commit)
    ensures Listing(Document(entries, release)) == Some(EntriesJson(SortedByPath(entries)))
  {
  }

  /**
   Agreement: on what a build writes, the manifest check reports nothing, except that it reports the
   commit exactly when that is not forty lower-case hexadecimal digits. The builder takes the commit as
   Git gives it; a repository with longer object names builds a release that its verifier refuses.
   */
  lemma {:induction false} BuilderIsAccepted(tools: Tools, tracked: seq<Tracked>, release: Release, output: Output,
                                             parse: Bytes -> Option<Json>, p: Problem)
    requires IsVersion(release.version) && BuiltFrom(tools, tracked, release, output)
    requires tools.normalized(SELF_PATH).None?
    requires ReadsManifests(parse, tools.quote)
    ensures !Open(ArchiveOf(output.payloads), parse).Raised?
    ensures Reported(p, ArchiveOf(output.payloads), Present(output.externalManifest), parse, tools.sha) <==>
            p == CommitInvalid && !IsCommit(release.commit)
  {
    var infos, entries := ArchiveOf(output.payloads), BuiltEntries(tools, tracked, output);
    BuiltManifestOpens(tools, tracked, release, output, parse);
    BuiltListDescribes(tools, tracked, release, output);
    DocumentHeader(entries, release, p);
    OnlyHeader(p, infos, output.externalManifest, parse, tools.sha, Document(entries, release),
               EntriesJson(SortedByPath(entries)));
  }

  lemma {:induction false} OnlyHeader(
      p: Problem, infos: map<string, Info>, bytes: Bytes, parse: Bytes -> Option<Json>, sha: Bytes -> string,
      document: Json, entries: seq<Json>)
    requires Open(infos, parse) == Read(bytes, document) && Listing(document) == Some(entries)
             && DescribesAll(entries, infos, sha)
    ensures Reported(p, infos, Present(bytes), parse, sha) <==> HeaderProblem(p, document)
  {
    DescribedListPasses(entries, infos, sha, p);
  }

  lemma {:induction false} BuiltManifestOpens(tools: Tools, tracked: seq<Tracked>, release: Release, output: Output,
                                              parse: Bytes -> Option<Json>)
    requires BuiltFrom(tools, tracked, release, output) && tools.normalized(SELF_PATH).None?
    requires ReadsManifests(parse, tools.quote)
    ensures Open(ArchiveOf(output.payloads), parse)
            == Read(output.externalManifest, Document(BuiltEntries(tools, tracked, output), release))
  {
  }

  /** A repository with nothing tracked and longer object names: its release is built and refused. */
  lemma {:induction false} LongCommitIsRefused(tools: Tools, commit: string, parse: Bytes -> Option<Json>)
    returns (release: Release, output: Output)
    requires |commit| == 64
    requires tools.normalized(SELF_PATH).None? && ReadsManifests(parse, tools.quote)
    ensures release.commit == commit && IsVersion(release.version) && release.epoch >= ZIP_MINIMUM_EPOCH
    ensures BuiltFrom(tools, [], release, output)
    ensures Reported(CommitInvalid, ArchiveOf(output.payloads), Present(output.externalManifest), parse, tools.sha)
  {
    var plain := PlainRelease();
    release := plain.(commit := commit, epoch := ZIP_MINIMUM_EPOCH);
    var n := SettledSize([], release, tools.quote);
    var manifest := Stating([], n, release, tools.quote);
    var payloads := [Payload(SELF_PATH, manifest, SELF_MODE)];
    var zip := tools.pack(payloads, release.epoch);
    output := Output(payloads, zip, manifest, ChecksumText(tools.sha(zip), ZipName(release.version)));
    assert EntriesOf(payloads[..0], tools.sha) == [];
    BuilderIsAccepted(tools, [], release, output, parse, CommitInvalid);
  }

  // ---- Checksums ----

  datatype ChecksumFile = NoFile | NotText | Written(text: string)

  datatype ChecksumProblem = ChecksumMissing | ChecksumInvalid | ChecksumMismatch

  /** `_portable_checksum_problems`. */
  function ChecksumProblems(file: ChecksumFile, digest: string, name: string): seq<ChecksumProblem> {
    match file
    case NoFile => [ChecksumMissing]
    case NotText => [ChecksumInvalid]
    case Written(text) => if text == digest + "  " + name + "\n" then [] else [ChecksumMismatch]
  }

  /** The written checksums pass for the written archive, and vouch for no other digest or file name. */
  lemma {:induction false} ChecksumsVouchForOneArchive(
      tools: Tools, tracked: seq<Tracked>, release: Release, output: Output, digest: string, name: string)
    requires BuiltFrom(tools, tracked, release, output)
    requires ' ' !in digest && ' ' !in tools.sha(output.zip)
    ensures ChecksumProblems(Written(output.checksums), digest, name) == [] <==>
            digest == tools.sha(output.zip) && name == ZipName(release.version)
  {
    var written := tools.sha(output.zip);
    if ChecksumProblems(Written(output.checksums), digest, name) == [] {
      assert digest + "  " + name + "\n" == digest + [' '] + (" " + name + "\n");
      assert output.checksums == written + [' '] + (" " + ZipName(release.version) + "\n");
      Texts.SplitUnique(digest, " " + name + "\n", written, " " + ZipName(release.version) + "\n", ' ');
      assert name == (" " + name + "\n")[1..|name| + 1];
      assert ZipName(release.version) == (" " + ZipName(release.version) + "\n")[1..|ZipName(release.version)| + 1];
    }
  }
}
