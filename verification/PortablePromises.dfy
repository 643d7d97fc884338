/**
 What the manifest check promises, on the archive and the fields of the document alone: which manifests pass, and
 what is reported when the manifest cannot be read.
 */
module PortablePromises {
  import opened Wrappers
  import opened Manifest
  import opened PortableFormat
  import opened PortableBuilder
  import opened PortableVerifier
  import opened PortableAgreement

  // ---- Texts and numbers ----

  predicate IsNumeral(s: string) {
    s != "" && forall c | c in s :: c in "0123456789"
  }

  /** Three numerals with dots between them. */
  ghost predicate IsThreeNumerals(s: string) {
    exists a: string, b: string, c: string ::
      IsNumeral(a) && IsNumeral(b) && IsNumeral(c) && s == a + "." + (b + "." + c)
  }

  lemma {:induction false} NumeralIsDigits(s: string)
    ensures IsNumeral(s) <==> IsDigits(s)
  {
    assert forall c: char :: c in "0123456789" <==> '0' <= c <= '9' by {
      forall c: char
        ensures c in "0123456789" <==> '0' <= c <= '9'
      {
        if '0' <= c <= '9' { assert "0123456789"[c as int - '0' as int] == c; }
      }
    }
  }

  lemma {:induction false} VersionSplits(s: string)
    requires IsVersion(s)
    ensures IsThreeNumerals(s)
  {
    var i := IndexOf(s, '.');
    var rest := s[i + 1..];
    var j := IndexOf(rest, '.');
    var a, b, c := s[..i], rest[..j], rest[j + 1..];
    NumeralIsDigits(a);
    NumeralIsDigits(b);
    NumeralIsDigits(c);
    assert rest == b + "." + c && s == a + "." + (b + "." + c);
  }

  lemma {:induction false} VersionsAreNumerals(s: string)
    ensures IsVersion(s) <==> IsThreeNumerals(s)
  {
    if IsVersion(s) { VersionSplits(s); }
    if IsThreeNumerals(s) {
      var a: string, b: string, c: string :|
        IsNumeral(a) && IsNumeral(b) && IsNumeral(c) && s == a + "." + (b + "." + c);
      NumeralIsDigits(a);
      NumeralIsDigits(b);
      NumeralIsDigits(c);
      DigitsJoined(a, b, c);
    }
  }

  /** Forty hexadecimal digits, in lower case. */
  predicate IsHex40(s: string) {
    |s| == 40 && forall c | c in s :: c in "0123456789abcdef"
  }

  lemma {:induction false} CommitsAreHex(s: string)
    ensures IsCommit(s) <==> IsHex40(s)
  {
    forall c: char
      ensures c in "0123456789abcdef" <==> '0' <= c <= '9' || 'a' <= c <= 'f'
    {
      if '0' <= c <= '9' { assert "0123456789abcdef"[c as int - '0' as int] == c; }
      if 'a' <= c <= 'f' { assert "0123456789abcdef"[c as int - 'a' as int + 10] == c; }
    }
  }

  /** The value equals the number in Python, where truth values and floats are numbers too. */
  predicate IsNumber(json: Json, n: int) {
    json == Int(n) || json == Float(n as real) || (json == Bool(true) && n == 1) || (json == Bool(false) && n == 0)
  }

  // ---- Good manifests ----

  /** An entry that is right about the archived file of its path. */
  predicate IsRight(json: Json, infos: map<string, Info>, sha: Bytes -> string) {
    && json.Object? && json.fields.Keys == {"path", "size", "mode", "sha256"}
    && json.fields["path"].Text? && json.fields["path"].text in infos
    && var name := json.fields["path"].text; var info := infos[name];
       && IsNumber(json.fields["size"], info.fileSize)
       && IsNumber(json.fields["mode"], info.externalAttr / 0x1_0000 % 512)
       && (name == "release-manifest.json" ==> json.fields["sha256"] == Null)
       && (name != "release-manifest.json" && !info.encrypted ==>
             info.body.Content? && json.fields["sha256"] == Text(sha(info.body.bytes)))
  }

  predicate OfPath(json: Json, name: string) {
    json.Object? && "path" in json.fields && json.fields["path"] == Text(name)
  }

  /** One right entry for every archived file, and no other. */
  ghost predicate ListsAll(entries: seq<Json>, infos: map<string, Info>, sha: Bytes -> string) {
    && (forall json | json in entries :: IsRight(json, infos, sha))
    && (forall i, k, name | 0 <= i < k < |entries| && OfPath(entries[i], name) :: !OfPath(entries[k], name))
    && (forall name | name in infos :: exists json | json in entries :: OfPath(json, name))
  }

  ghost predicate IsGoodHeader(document: Json) {
    && document.Object?
    && document.fields.Keys == {"schema_version", "version", "source_commit", "source_date_epoch", "files"}
    && document.fields["schema_version"] == Text("operations-ai-portable-release/v1")
    && document.fields["version"].Text? && IsThreeNumerals(document.fields["version"].text)
    && document.fields["source_commit"].Text? && IsHex40(document.fields["source_commit"].text)
    && (document.fields["source_date_epoch"].Int? || document.fields["source_date_epoch"].Bool?)
    && document.fields["files"].List?
  }

  ghost predicate IsGoodDocument(document: Json, infos: map<string, Info>, sha: Bytes -> string) {
    IsGoodHeader(document) && ListsAll(document.fields["files"].items, infos, sha)
  }

  /** The manifest is readable, lies beside the archive too, and is good. */
  ghost predicate IsGoodArchive(
      infos: map<string, Info>, external: External, parse: Bytes -> Option<Json>, sha: Bytes -> string) {
    && "release-manifest.json" in infos && !infos["release-manifest.json"].encrypted
    && infos["release-manifest.json"].body.Content?
    && var bytes := infos["release-manifest.json"].body.bytes;
       && external == Present(bytes) && parse(bytes).Some? && IsGoodDocument(parse(bytes).value, infos, sha)
  }

  lemma ModesAgree(n: nat)
    ensures n % 0x1_0000 % 512 == n % 512
  {
    var q, r := n / 0x1_0000, n % 0x1_0000;
    assert n == (q * 128) * 512 + r;
    var p, m := r / 512, r % 512;
    assert n == (q * 128 + p) * 512 + m;
  }

  lemma {:induction false} RightIfDescribed(json: Json, infos: map<string, Info>, sha: Bytes -> string)
    ensures IsRight(json, infos, sha) <==>
            NamesFile(json) && PathOf(json) in infos && Describes(json, PathOf(json), infos[PathOf(json)], sha)
  {
    if NamesFile(json) && PathOf(json) in infos { ModesAgree(infos[PathOf(json)].externalAttr / 0x1_0000); }
  }

  lemma {:induction false} AllListed(entries: seq<Json>, infos: map<string, Info>, sha: Bytes -> string)
    ensures ListsAll(entries, infos, sha) <==> DescribesAll(entries, infos, sha)
  {
    forall json
      ensures IsRight(json, infos, sha) <==>
              NamesFile(json) && PathOf(json) in infos && Describes(json, PathOf(json), infos[PathOf(json)], sha)
    {
      RightIfDescribed(json, infos, sha);
    }
    if DescribesAll(entries, infos, sha) { DescribedIsListed(entries, infos, sha); }
    if ListsAll(entries, infos, sha) { ListedIsDescribed(entries, infos, sha); }
  }

  lemma {:induction false} DescribedIsListed(entries: seq<Json>, infos: map<string, Info>, sha: Bytes -> string)
    requires DescribesAll(entries, infos, sha)
    ensures ListsAll(entries, infos, sha)
  {
    forall json | json in entries
      ensures IsRight(json, infos, sha)
    {
      var k :| 0 <= k < |entries| && entries[k] == json;
      RightIfDescribed(json, infos, sha);
    }
    forall name | name in infos
      ensures exists json | json in entries :: OfPath(json, name)
    {
      var k :| 0 <= k < |entries| && PathOf(entries[k]) == name;
      assert OfPath(entries[k], name) && entries[k] in entries;
    }
  }

  lemma {:induction false} ListedIsDescribed(entries: seq<Json>, infos: map<string, Info>, sha: Bytes -> string)
    requires ListsAll(entries, infos, sha)
    ensures DescribesAll(entries, infos, sha)
  {
    forall k | 0 <= k < |entries|
      ensures NamesFile(entries[k]) && PathOf(entries[k]) in infos && OfPath(entries[k], PathOf(entries[k]))
      ensures Describes(entries[k], PathOf(entries[k]), infos[PathOf(entries[k])], sha)
    {
      RightIfDescribed(entries[k], infos, sha);
    }
    forall name | name in infos
      ensures exists k | 0 <= k < |entries| :: PathOf(entries[k]) == name
    {
      var json :| json in entries && OfPath(json, name);
      var k :| 0 <= k < |entries| && entries[k] == json;
    }
  }

  lemma {:induction false} GoodHeaders(document: Json)
    ensures IsGoodHeader(document) <==> HeaderOk(document)
  {
    if HasFields(document, MANIFEST_FIELDS) {
      if document.fields["version"].Text? { VersionsAreNumerals(document.fields["version"].text); }
      if document.fields["source_commit"].Text? { CommitsAreHex(document.fields["source_commit"].text); }
    }
  }

  lemma {:induction false} GoodDocuments(document: Json, infos: map<string, Info>, sha: Bytes -> string)
    ensures IsGoodDocument(document, infos, sha) <==>
            HeaderOk(document) && DescribesAll(document.fields["files"].items, infos, sha)
  {
    GoodHeaders(document);
    if HeaderOk(document) { AllListed(document.fields["files"].items, infos, sha); }
  }

  lemma {:induction false} OpensIf(infos: map<string, Info>, parse: Bytes -> Option<Json>)
    ensures Open(infos, parse).Read? <==>
            && "release-manifest.json" in infos && !infos["release-manifest.json"].encrypted
            && infos["release-manifest.json"].body.Content? && parse(infos["release-manifest.json"].body.bytes).Some?
    ensures Open(infos, parse).Read? ==>
              var bytes := infos["release-manifest.json"].body.bytes;
              Open(infos, parse) == Read(bytes, parse(bytes).value)
  {
  }

  lemma {:induction false} GoodIf(
      infos: map<string, Info>, external: External, parse: Bytes -> Option<Json>, sha: Bytes -> string,
      bytes: Bytes, document: Json)
    requires Open(infos, parse) == Read(bytes, document)
    ensures IsGoodArchive(infos, external, parse, sha) <==>
            external == Present(bytes) && IsGoodDocument(document, infos, sha)
  {
    OpensIf(infos, parse);
  }

  lemma {:induction false} FaithfulIf(
      infos: map<string, Info>, external: External, parse: Bytes -> Option<Json>, sha: Bytes -> string,
      bytes: Bytes, document: Json)
    requires Open(infos, parse) == Read(bytes, document)
    ensures Faithful(infos, external, parse, sha) <==>
            external == Present(bytes) && HeaderOk(document) && DescribesAll(document.fields["files"].items, infos, sha)
  {
  }

  lemma {:induction false} FaithfulIsGood(
      infos: map<string, Info>, external: External, parse: Bytes -> Option<Json>, sha: Bytes -> string,
      bytes: Bytes, document: Json)
    requires Open(infos, parse) == Read(bytes, document)
    ensures Faithful(infos, external, parse, sha) <==> IsGoodArchive(infos, external, parse, sha)
  {
    GoodIf(infos, external, parse, sha, bytes, document);
    FaithfulIf(infos, external, parse, sha, bytes, document);
    GoodDocuments(document, infos, sha);
  }

  /** The manifest check reports nothing exactly on good archives. */
  lemma {:induction false} GoodArchivesPass(
      infos: map<string, Info>, external: External, parse: Bytes -> Option<Json>, sha: Bytes -> string)
    ensures Passes(infos, external, parse, sha) <==> IsGoodArchive(infos, external, parse, sha)
  {
    PassesWhenFaithful(infos, external, parse, sha);
    OpensIf(infos, parse);
    match Open(infos, parse)
    case Read(bytes, document) => FaithfulIsGood(infos, external, parse, sha, bytes, document);
    case _ =>
  }

  /**
   A manifest that is missing, encrypted, unreadable or no JSON is the only thing reported; one whose archive
   member is damaged lets the zip library's error through.
   */
  lemma {:induction false} UnreadableManifests(
      infos: map<string, Info>, external: External, parse: Bytes -> Option<Json>, sha: Bytes -> string, p: Problem)
    ensures "release-manifest.json" !in infos ==>
              !Open(infos, parse).Raised? && (Reported(p, infos, external, parse, sha) <==> p == ManifestMissing)
    ensures "release-manifest.json" in infos ==>
              var info := infos["release-manifest.json"];
              && (info.encrypted ==>
                    !Open(infos, parse).Raised?
                        && (Reported(p, infos, external, parse, sha) <==> p == ManifestEncrypted))
              && (!info.encrypted && info.body == Unreadable ==>
                    !Open(infos, parse).Raised? && (Reported(p, infos, external, parse, sha) <==> p == ManifestInvalid))
              && (!info.encrypted && info.body.Content? && parse(info.body.bytes) == None ==>
                    !Open(infos, parse).Raised? && (Reported(p, infos, external, parse, sha) <==> p == ManifestInvalid))
              && (!info.encrypted && info.body == BadZip <==> Open(infos, parse).Raised?)
  {
  }

  /** What a build writes beside the archive: the manifest that is in it, and the digest with the archive's name. */
  lemma {:induction false} BuiltBeside(tools: Tools, tracked: seq<Tracked>, release: Release, output: Output)
    requires BuiltFrom(tools, tracked, release, output) && tools.normalized(SELF_PATH).None?
    ensures "release-manifest.json" in ArchiveOf(output.payloads)
    ensures ArchiveOf(output.payloads)["release-manifest.json"].body == Content(output.externalManifest)
    ensures output.checksums
            == tools.sha(output.zip) + "  " + ("operations-ai-portable-" + release.version + ".zip") + "\n"
  {
    NothingElseIsBuilt(tools, tracked, release, output);
  }
}
