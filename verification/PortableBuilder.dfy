/** The release builder: `build_portable_release` of scripts/build-portable-release.py. */
module PortableBuilder {
  import opened Wrappers
  import opened Manifest
  import opened PortableFormat

  /** One tracked file: its path and its mode in the Git index. */
  datatype Tracked = Tracked(path: string, indexMode: nat)

  datatype Payload = Payload(path: string, content: Bytes, mode: nat)

  const SYMLINK_MODE: nat := 0xA000
  const EXECUTABLE_MODE: nat := 0x81ED
  const ZIP_MINIMUM_EPOCH: nat := 315532800

  const PORTABLE_ROOT_MAPPING: map<string, string> := map[
    "portable/启动运营工具-macOS.command" := "启动运营工具-macOS.command",
    "portable/停止运营工具-macOS.command" := "停止运营工具-macOS.command",
    "portable/启动运营工具-Windows.bat" := "启动运营工具-Windows.bat",
    "portable/停止运营工具-Windows.bat" := "停止运营工具-Windows.bat",
    "portable/使用说明.txt" := "使用说明.txt"]

  /**
   What the builder calls: the check and line-ending normalisation of a source file (none if it
   raises), case folding, the hash, JSON quoting, and zip writing.
   */
  datatype Tools = Tools(
    normalized: string -> Option<Bytes>, fold: string -> string, sha: Bytes -> string, quote: string -> Bytes,
    pack: (seq<Payload>, nat) -> Bytes)

  datatype Error =
    | BadVersion | BadEpoch | Dirty
    | Symlink(path: string) | Rejected(path: string) | Collision(previous: string, path: string)

  datatype Output = Output(payloads: seq<Payload>, zip: Bytes, externalManifest: Bytes, checksums: Bytes)

  function ArchivePath(path: string): string {
    if path in PORTABLE_ROOT_MAPPING then PORTABLE_ROOT_MAPPING[path] else path
  }

  function ModeFor(indexMode: nat): nat {
    if indexMode == EXECUTABLE_MODE then 493 else 420
  }

  function EntryOf(payload: Payload, sha: Bytes -> string): Entry {
    Entry(payload.path, |payload.content|, payload.mode, Some(sha(payload.content)))
  }

  function EntriesOf(payloads: seq<Payload>, sha: Bytes -> string): seq<Entry> {
    seq(|payloads|, i requires 0 <= i < |payloads| => EntryOf(payloads[i], sha))
  }

  function ZipName(version: string): string {
    "operations-ai-portable-" + version + ".zip"
  }

  function ChecksumText(digest: string, name: string): string {
    digest + "  " + name + "\n"
  }

  /** The payload of one tracked file. */
  predicate FileBuilt(tools: Tools, tracked: Tracked, payload: Payload) {
    && tracked.indexMode != SYMLINK_MODE
    && tools.normalized(tracked.path) == Some(payload.content)
    && payload.path == ArchivePath(tracked.path)
    && payload.mode == ModeFor(tracked.indexMode)
  }

  predicate FoldedApart(tools: Tools, files: seq<Payload>) {
    forall i, j | 0 <= i < j < |files| :: tools.fold(files[i].path) != tools.fold(files[j].path)
  }

  /** The payloads of all tracked files, one each, whose archive paths differ by more than case. */
  predicate Collected(tools: Tools, tracked: seq<Tracked>, files: seq<Payload>) {
    && |files| == |tracked|
    && (forall i | 0 <= i < |tracked| :: FileBuilt(tools, tracked[i], files[i]))
    && FoldedApart(tools, files)
  }

  /** The first tracked file that cannot be taken, and why. */
  ghost predicate Refused(tools: Tools, tracked: seq<Tracked>, error: Error) {
    exists n, files | 0 <= n < |tracked| && Collected(tools, tracked[..n], files) ::
        RefusedAt(tools, tracked[n], files, error)
  }

  predicate RefusedAt(tools: Tools, file: Tracked, files: seq<Payload>, error: Error) {
    match error
    case Symlink(path) => file.indexMode == SYMLINK_MODE && path == file.path
    case Rejected(path) => file.indexMode != SYMLINK_MODE && tools.normalized(file.path).None? && path == file.path
    case Collision(previous, path) =>
      && file.indexMode != SYMLINK_MODE && tools.normalized(file.path).Some? && path == ArchivePath(file.path)
      && tools.fold(previous) == tools.fold(path) && exists p | p in files :: p.path == previous
    case _ => false
  }

  /** What a successful build writes. */
  predicate BuiltFrom(tools: Tools, tracked: seq<Tracked>, release: Release, output: Output) {
    && |output.payloads| == |tracked| + 1
    && Collected(tools, tracked, output.payloads[..|tracked|])
    && output.payloads[|tracked|] == Payload(SELF_PATH, output.externalManifest, SELF_MODE)
    && output.externalManifest == BuildManifest(
         EntriesOf(output.payloads[..|tracked|], tools.sha) + [Self(|output.externalManifest|)], release, tools.quote)
    && output.zip == tools.pack(output.payloads, release.epoch)
    && output.checksums == ChecksumText(tools.sha(output.zip), ZipName(release.version))
  }

  // ---- What the source promises of a build ----

  /** The name of a file in the archive: the five files of `portable/` move to its root, the others stay. */
  predicate IsArchivedAs(path: string, name: string) {
    match path
    case "portable/启动运营工具-macOS.command" => name == "启动运营工具-macOS.command"
    case "portable/停止运营工具-macOS.command" => name == "停止运营工具-macOS.command"
    case "portable/启动运营工具-Windows.bat" => name == "启动运营工具-Windows.bat"
    case "portable/停止运营工具-Windows.bat" => name == "停止运营工具-Windows.bat"
    case "portable/使用说明.txt" => name == "使用说明.txt"
    case _ => name == path
  }

  lemma {:induction false} ArchivedName(path: string, name: string)
    ensures IsArchivedAs(path, name) <==> name == ArchivePath(path)
  {
  }

  /** Mode 0o120000 of the Git index. */
  predicate IsSymlink(file: Tracked) {
    file.indexMode == 0xA000
  }

  /** Two files would get names that differ by case at most. */
  ghost predicate Collide(tools: Tools, a: Tracked, b: Tracked) {
    exists name, other | IsArchivedAs(a.path, name) && IsArchivedAs(b.path, other) ::
        tools.fold(name) == tools.fold(other)
  }

  /** No tracked file is a symbolic link, every one is a good source file, and no two of them collide. */
  ghost predicate Buildable(tools: Tools, tracked: seq<Tracked>) {
    && (forall file | file in tracked :: !IsSymlink(file) && tools.normalized(file.path).Some?)
    && (forall i, j | 0 <= i < j < |tracked| :: !Collide(tools, tracked[i], tracked[j]))
  }

  lemma {:induction false} CollideByName(tools: Tools, a: Tracked, b: Tracked)
    ensures Collide(tools, a, b) <==> tools.fold(ArchivePath(a.path)) == tools.fold(ArchivePath(b.path))
  {
    ArchivedName(a.path, ArchivePath(a.path));
    ArchivedName(b.path, ArchivePath(b.path));
    forall name, other | IsArchivedAs(a.path, name) && IsArchivedAs(b.path, other)
      ensures name == ArchivePath(a.path) && other == ArchivePath(b.path)
    {
      ArchivedName(a.path, name);
      ArchivedName(b.path, other);
    }
  }

  lemma {:induction false} CollectedIsBuildable(tools: Tools, tracked: seq<Tracked>, files: seq<Payload>)
    requires Collected(tools, tracked, files)
    ensures Buildable(tools, tracked)
  {
    forall i | 0 <= i < |tracked|
      ensures !IsSymlink(tracked[i]) && tools.normalized(tracked[i].path).Some?
    {
      assert FileBuilt(tools, tracked[i], files[i]);
    }
    forall i, j | 0 <= i < j < |tracked|
      ensures !Collide(tools, tracked[i], tracked[j])
    {
      assert FileBuilt(tools, tracked[i], files[i]) && FileBuilt(tools, tracked[j], files[j]);
      CollideByName(tools, tracked[i], tracked[j]);
    }
  }

  /** A refusal names a real fault. */
  lemma {:induction false} RefusedIsNotBuildable(tools: Tools, tracked: seq<Tracked>, error: Error)
    requires Refused(tools, tracked, error)
    ensures !Buildable(tools, tracked)
  {
    var n, files :| 0 <= n < |tracked| && Collected(tools, tracked[..n], files)
        && RefusedAt(tools, tracked[n], files, error);
    assert tracked[n] in tracked;
    if error.Collision? {
      var p: Payload :| p in files && p.path == error.previous;
      var i :| 0 <= i < |files| && files[i] == p;
      assert FileBuilt(tools, tracked[..n][i], files[i]);
      CollideByName(tools, tracked[i], tracked[n]);
    }
  }

  /** The case-folded archive paths so far, each with the path it came from. */
  ghost predicate KeysOf(keys: map<string, string>, tools: Tools, files: seq<Payload>) {
    && (forall key | key in keys :: tools.fold(keys[key]) == key && exists p | p in files :: p.path == keys[key])
    && (forall p | p in files :: tools.fold(p.path) in keys)
  }

  lemma {:induction false} OneMoreCollected(
      tools: Tools, tracked: seq<Tracked>, n: nat, keys: map<string, string>, files: seq<Payload>, content: Bytes)
    requires n < |tracked| && Collected(tools, tracked[..n], files) && KeysOf(keys, tools, files)
    requires tracked[n].indexMode != SYMLINK_MODE && tools.normalized(tracked[n].path) == Some(content)
    requires tools.fold(ArchivePath(tracked[n].path)) !in keys
    ensures var payload := Payload(ArchivePath(tracked[n].path), content, ModeFor(tracked[n].indexMode));
            && Collected(tools, tracked[..n + 1], files + [payload])
            && KeysOf(keys[tools.fold(payload.path) := payload.path], tools, files + [payload])
  {
    assert tracked[..n + 1] == tracked[..n] + [tracked[n]];
  }

  method BuildPortableRelease(
      tools: Tools, tracked: seq<Tracked>, dirty: bool, release: Release)
    returns (r: Result<Output, Error>)
    ensures r.Ok? ==> IsVersion(release.version) && release.epoch >= ZIP_MINIMUM_EPOCH && !dirty
    ensures r.Ok? ==> BuiltFrom(tools, tracked, release, r.value)
    ensures r.Ok? <==>
            IsVersion(release.version) && release.epoch >= 315532800 && !dirty && Buildable(tools, tracked)
    ensures r == Err(BadVersion) <==> !IsVersion(release.version)
    ensures r == Err(BadEpoch) <==> IsVersion(release.version) && release.epoch < ZIP_MINIMUM_EPOCH
    ensures r == Err(Dirty) <==> IsVersion(release.version) && release.epoch >= ZIP_MINIMUM_EPOCH && dirty
    ensures r.Err? && !r.error.BadVersion? && !r.error.BadEpoch? && !r.error.Dirty? ==> Refused(tools, tracked, r.error)
  {
    if !IsVersion(release.version) { return Err(BadVersion); }
    if release.epoch < ZIP_MINIMUM_EPOCH { return Err(BadEpoch); }
    if dirty { return Err(Dirty); }
    var payloads: seq<Payload> := [];
    var archiveKeys: map<string, string> := map[];
    for n := 0 to |tracked|
      invariant Collected(tools, tracked[..n], payloads)
      invariant KeysOf(archiveKeys, tools, payloads)
    {
      var path, indexMode := tracked[n].path, tracked[n].indexMode;
      if indexMode == SYMLINK_MODE {
        assert RefusedAt(tools, tracked[n], payloads, Symlink(path));
        RefusedIsNotBuildable(tools, tracked, Symlink(path));
        return Err(Symlink(path));
      }
      var content := tools.normalized(path);
      if content.None? {
        assert RefusedAt(tools, tracked[n], payloads, Rejected(path));
        RefusedIsNotBuildable(tools, tracked, Rejected(path));
        return Err(Rejected(path));
      }
      var archivePath := ArchivePath(path);
      var collisionKey := tools.fold(archivePath);
      if collisionKey in archiveKeys {
        assert RefusedAt(tools, tracked[n], payloads, Collision(archiveKeys[collisionKey], archivePath));
        RefusedIsNotBuildable(tools, tracked, Collision(archiveKeys[collisionKey], archivePath));
        return Err(Collision(archiveKeys[collisionKey], archivePath));
      }
      OneMoreCollected(tools, tracked, n, archiveKeys, payloads, content.value);
      archiveKeys := archiveKeys[collisionKey := archivePath];
      payloads := payloads + [Payload(archivePath, content.value, ModeFor(indexMode))];
    }
    assert tracked[..|tracked|] == tracked;
    CollectedIsBuildable(tools, tracked, payloads);
    var entries := EntriesOf(payloads, tools.sha);
    var found := ManifestPayload(entries, release, tools.quote);
    ManifestConverges(entries, 10, release, tools.quote, found);
    var (manifest, manifestEntry) := found.value;
    var all := payloads + [Payload(manifestEntry.path, manifest, manifestEntry.mode)];
    assert all[..|tracked|] == payloads;
    var zip := tools.pack(all, release.epoch);
    return Ok(Output(all, zip, manifest, ChecksumText(tools.sha(zip), ZipName(release.version))));
  }
}

/** Releases whose manifests meet the borders of the size search. */
module ManifestSamples {
  import Wrappers
  import opened Manifest
  import opened PortableFormat
  import PortableBuilder
  import Texts

  /** The JSON text of a string that needs no escapes. */
  function Quoted(s: string): Bytes {
    "\"" + s + "\""
  }

  /** A release with no files but its manifest, and a version of n + 5 characters. */
  function Sample(n: nat, commit: string): Release {
    Release("1.0.0" + Texts.Repeated('0', n), commit, PortableBuilder.ZIP_MINIMUM_EPOCH)
  }

  lemma {:induction false} SampleIsRelease(n: nat, commit: string)
    ensures IsVersion(Sample(n, commit).version)
  {
    var zeros := "0" + Texts.Repeated('0', n);
    DigitsJoined("1", "0", zeros);
    assert Sample(n, commit).version == "1" + "." + ("0" + "." + zeros);
  }

  lemma {:induction false} SampleSize(n: nat, commit: string)
    requires IsCommit(commit)
    ensures |TextFor([], Sample(n, commit), Quoted)(0)| == 239 + n
  {
    StatingShape([], 0, Sample(n, commit), Quoted);
    SelfTextSize();
    ClosingSize(n, commit);
    assert SortedByPath([]) == [];
  }

  lemma {:induction false} SelfTextSize()
    ensures |EntryText(Self(0), Quoted)| == 66
  {
    JoinedFourSize(EntryMembers(Self(0), Quoted));
    assert |Digits(420)| == 3;
    assert |SELF_PATH| == 21;
  }

  lemma {:induction false} ClosingSize(n: nat, commit: string)
    requires IsCommit(commit)
    ensures |Joined(ReleaseMembers(Sample(n, commit), Quoted))| == 159 + n
  {
    JoinedFourSize(ReleaseMembers(Sample(n, commit), Quoted));
    assert |SCHEMA| == 33;
    EpochDigits();
  }

  lemma {:induction false} EpochDigits()
    ensures |Digits(PortableBuilder.ZIP_MINIMUM_EPOCH)| == 9
  {
  }

  /** A release whose manifest the search would miss with three rounds. */
  lemma {:induction false} ThreeRoundsMissAManifest(commit: string) returns (release: Release)
    requires IsCommit(commit)
    ensures IsVersion(release.version) && release.commit == commit && release.epoch >= PortableBuilder.ZIP_MINIMUM_EPOCH
    ensures Searched(TextFor([], release, Quoted), 3, Wrappers.Err(DidNotConverge))
  {
    var n: nat :| 239 + n == 998;
    release := Sample(n, commit);
    SampleIsRelease(n, commit);
    SampleSize(n, commit);
    ManifestGrowsByDigits([], release, Quoted);
    ThreeRoundsAreTooFew(TextFor([], release, Quoted));
  }

  /** A release whose manifest could state either of two sizes of itself. */
  lemma {:induction false} AManifestWithTwoSizes(commit: string) returns (release: Release)
    requires IsCommit(commit)
    ensures IsVersion(release.version) && release.commit == commit && release.epoch >= PortableBuilder.ZIP_MINIMUM_EPOCH
    ensures |Stating([], 999, release, Quoted)| == 999 && |Stating([], 1000, release, Quoted)| == 1000
  {
    var n: nat :| 239 + n == 997;
    release := Sample(n, commit);
    SampleIsRelease(n, commit);
    SampleSize(n, commit);
    ManifestGrowsByDigits([], release, Quoted);
    TwoSizesCanFit(TextFor([], release, Quoted));
    assert TextFor([], release, Quoted)(999) == Stating([], 999, release, Quoted);
    assert TextFor([], release, Quoted)(1000) == Stating([], 1000, release, Quoted);
  }
}
