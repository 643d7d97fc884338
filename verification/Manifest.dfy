/**
 The release manifest of scripts/build-portable-release.py: canonical text, and the search for the
 size that the manifest states of itself.

 `Bytes` is a byte string, one character per byte. Paths are texts; UTF-8 keeps the order of code
 points, so ordering the texts by character orders their encodings. `quote` is the JSON encoder's
 UTF-8 output for one text.
 */
module Manifest {
  import opened Wrappers

  type Bytes = string

  datatype Entry = Entry(path: string, size: nat, mode: nat, sha256: Option<string>)

  datatype Release = Release(version: string, commit: string, epoch: nat)

  const SELF_PATH := "release-manifest.json"
  const SELF_MODE: nat := 420
  const SCHEMA := "operations-ai-portable-release/v1"

  function Self(size: nat): Entry {
    Entry(SELF_PATH, size, SELF_MODE, None)
  }

  function Digits(n: nat): (d: Bytes)
    ensures |d| >= 1
  {
    if n < 10 then [('0' as int + n) as char] else Digits(n / 10) + [('0' as int + n % 10) as char]
  }

  // ---- Order ----

  /** Lexicographic order, reflexive. */
  predicate Precedes(a: string, b: string) {
    a == [] || (b != [] && (a[0] < b[0] || (a[0] == b[0] && Precedes(a[1..], b[1..]))))
  }

  lemma {:induction false} PrecedesTotal(a: string, b: string)
    ensures Precedes(a, b) || Precedes(b, a)
    ensures Precedes(a, b) && Precedes(b, a) ==> a == b
  {
    if a != [] && b != [] {
      PrecedesTotal(a[1..], b[1..]);
      assert a == [a[0]] + a[1..] && b == [b[0]] + b[1..];
    }
  }

  lemma {:induction false} PrecedesTransitive(a: string, b: string, c: string)
    requires Precedes(a, b) && Precedes(b, c)
    ensures Precedes(a, c)
  {
    if a != [] && a[0] == b[0] && b[0] == c[0] { PrecedesTransitive(a[1..], b[1..], c[1..]); }
  }

  /** The texts agree up to a place, at which the first one is smaller. */
  predicate SmallerAt(a: string, b: string, k: nat) {
    k < |a| && k < |b| && a[..k] == b[..k] && a[k] < b[k]
  }

  /** The order of byte strings: a beginning comes first, and otherwise the first difference decides. */
  lemma {:induction false} PrecedesIsLexicographic(a: string, b: string)
    ensures Precedes(a, b) <==> a <= b || exists k: nat :: SmallerAt(a, b, k)
  {
    if a != [] && b != [] {
      assert a == [a[0]] + a[1..] && b == [b[0]] + b[1..];
      if a[0] == b[0] {
        PrecedesIsLexicographic(a[1..], b[1..]);
        assert a <= b <==> a[1..] <= b[1..];
        forall k: nat
          ensures SmallerAt(a, b, k + 1) <==> SmallerAt(a[1..], b[1..], k)
        {
          LaterPlace(a, b, k);
        }
        assert forall k: nat :: SmallerAt(a, b, k) ==> k > 0 && SmallerAt(a[1..], b[1..], k - 1);
      } else {
        assert SmallerAt(a, b, 0) <==> a[0] < b[0];
      }
    }
  }

  lemma {:induction false} LaterPlace(a: string, b: string, k: nat)
    requires a != [] && b != [] && a[0] == b[0]
    ensures SmallerAt(a, b, k + 1) <==> SmallerAt(a[1..], b[1..], k)
  {
    if k + 1 < |a| && k + 1 < |b| {
      assert a[..k + 1] == [a[0]] + a[1..][..k] && b[..k + 1] == [b[0]] + b[1..][..k];
      assert a[..k + 1][1..] == a[1..][..k] && b[..k + 1][1..] == b[1..][..k];
    }
  }

  /** Into its place, behind the entries of equal path. */
  function Insert(entry: Entry, entries: seq<Entry>): seq<Entry> {
    if entries == [] then [entry]
    else if Precedes(entries[0].path, entry.path) then [entries[0]] + Insert(entry, entries[1..])
    else [entry] + entries
  }

  /** `sorted(entries, key=path)`, which keeps the order of equal keys. */
  function SortedByPath(entries: seq<Entry>): seq<Entry> {
    if entries == [] then []
    else Insert(entries[|entries| - 1], SortedByPath(entries[..|entries| - 1]))
  }

  predicate InOrder(entries: seq<Entry>) {
    forall i, j | 0 <= i < j < |entries| :: Precedes(entries[i].path, entries[j].path)
  }

  predicate PathsDistinct(entries: seq<Entry>) {
    forall i, j | 0 <= i < j < |entries| :: entries[i].path != entries[j].path
  }

  lemma {:induction false} InsertAdds(entry: Entry, entries: seq<Entry>)
    ensures multiset(Insert(entry, entries)) == multiset(entries) + multiset{entry}
    ensures forall e | e in Insert(entry, entries) :: e == entry || e in entries
  {
    if entries != [] && Precedes(entries[0].path, entry.path) {
      InsertAdds(entry, entries[1..]);
      assert entries == [entries[0]] + entries[1..];
    }
  }

  lemma {:induction false} InsertKeepsOrder(entry: Entry, entries: seq<Entry>)
    requires InOrder(entries)
    ensures InOrder(Insert(entry, entries))
  {
    if entries == [] {
    } else if Precedes(entries[0].path, entry.path) {
      InsertKeepsOrder(entry, entries[1..]);
      InsertAdds(entry, entries[1..]);
      InOrderInFront(entries[0], Insert(entry, entries[1..]));
    } else {
      PrecedesTotal(entry.path, entries[0].path);
      forall e | e in entries
        ensures Precedes(entry.path, e.path)
      {
        var k :| 0 <= k < |entries| && entries[k] == e;
        if k > 0 { PrecedesTransitive(entry.path, entries[0].path, e.path); }
      }
      InOrderInFront(entry, entries);
    }
  }

  lemma {:induction false} InOrderInFront(entry: Entry, rest: seq<Entry>)
    requires InOrder(rest) && forall e | e in rest :: Precedes(entry.path, e.path)
    ensures InOrder([entry] + rest)
  {
  }

  lemma {:induction false} SortingSorts(entries: seq<Entry>)
    ensures InOrder(SortedByPath(entries))
    ensures multiset(SortedByPath(entries)) == multiset(entries)
  {
    if entries != [] {
      var rest, last := entries[..|entries| - 1], entries[|entries| - 1];
      SortingSorts(rest);
      InsertAdds(last, SortedByPath(rest));
      InsertKeepsOrder(last, SortedByPath(rest));
      assert entries == rest + [last];
    }
  }

  /** Two ordered lists of the same entries, of distinct paths, are one list. */
  lemma {:induction false} OrderedUnique(a: seq<Entry>, b: seq<Entry>)
    requires InOrder(a) && InOrder(b) && multiset(a) == multiset(b) && PathsIdentify(a)
    ensures a == b
  {
    assert |a| == |b| by { assert |multiset(a)| == |multiset(b)|; }
    if a != [] {
      HeadsAgree(a, b);
      assert a == [a[0]] + a[1..] && b == [b[0]] + b[1..];
      OrderedUnique(a[1..], b[1..]);
    }
  }

  /** A path names one entry. */
  predicate PathsIdentify(entries: seq<Entry>) {
    forall x, y | x in entries && y in entries && x.path == y.path :: x == y
  }

  lemma {:induction false} HeadsAgree(a: seq<Entry>, b: seq<Entry>)
    requires InOrder(a) && InOrder(b) && multiset(a) == multiset(b) && a != [] && b != [] && PathsIdentify(a)
    ensures a[0] == b[0] && multiset(a[1..]) == multiset(b[1..])
  {
    assert a[0] in multiset(b) && b[0] in multiset(a);
    var i :| 0 <= i < |b| && b[i] == a[0];
    var j :| 0 <= j < |a| && a[j] == b[0];
    if i != 0 && j != 0 {
      assert Precedes(a[0].path, a[j].path) && Precedes(b[0].path, b[i].path);
      PrecedesTotal(a[0].path, b[0].path);
      assert a[0] == a[j];
    }
    RestOf(a);
    RestOf(b);
  }

  lemma RestOf(entries: seq<Entry>)
    requires entries != []
    ensures multiset(entries[1..]) == multiset(entries) - multiset{entries[0]}
  {
    assert entries == [entries[0]] + entries[1..];
  }

  lemma {:induction false} CountOnce(entries: seq<Entry>, entry: Entry)
    requires PathsDistinct(entries)
    ensures multiset(entries)[entry] <= 1
  {
    if entries != [] {
      RestOf(entries);
      CountOnce(entries[1..], entry);
      if entry == entries[0] { assert entry !in entries[1..]; }
    }
  }

  lemma {:induction false} CountTwice(entries: seq<Entry>, i: nat, j: nat)
    requires i < j < |entries| && entries[i] == entries[j]
    ensures multiset(entries)[entries[i]] >= 2
  {
    var front, back := entries[..j], entries[j..];
    assert entries == front + back;
    assert front[i] in multiset(front) && back[0] in multiset(back);
  }

  /** Paths stay distinct in any order. */
  lemma {:induction false} OrderKeepsDistinct(entries: seq<Entry>, others: seq<Entry>)
    requires PathsDistinct(entries) && multiset(entries) == multiset(others)
    ensures PathsDistinct(others)
    ensures forall e :: e in others <==> e in entries
  {
    forall e
      ensures e in others <==> e in entries
    {
      assert e in others <==> e in multiset(others);
      assert e in entries <==> e in multiset(entries);
    }
    forall i, j | 0 <= i < j < |others|
      ensures others[i].path != others[j].path
    {
      if others[i] == others[j] {
        CountTwice(others, i, j);
        CountOnce(entries, others[i]);
      }
      assert others[i] in entries && others[j] in entries;
    }
  }

  // ---- Text ----

  /** Texts joined by commas. */
  function Joined(texts: seq<Bytes>): Bytes {
    if texts == [] then "" else if |texts| == 1 then texts[0] else texts[0] + "," + Joined(texts[1..])
  }

  /** One field of an object; the names need no escapes. */
  function Member(name: string, text: Bytes): Bytes {
    "\"" + name + "\"" + ":" + text
  }

  /** The printed fields of these names, in their order. */
  function Members(names: seq<string>, texts: seq<Bytes>): (members: seq<Bytes>)
    requires |names| == |texts|
    ensures |members| == |names| && forall i | 0 <= i < |names| :: members[i] == Member(names[i], texts[i])
  {
    seq(|names|, i requires 0 <= i < |names| => Member(names[i], texts[i]))
  }

  const ENTRY_ORDER: seq<string> := ["mode", "path", "sha256", "size"]
  const RELEASE_ORDER: seq<string> := ["schema_version", "source_commit", "source_date_epoch", "version"]

  function EntryFields(entry: Entry, quote: string -> Bytes): (texts: seq<Bytes>)
    ensures |texts| == 4
  {
    [Digits(entry.mode), quote(entry.path), if entry.sha256.Some? then quote(entry.sha256.value) else "null",
     Digits(entry.size)]
  }

  function EntryMembers(entry: Entry, quote: string -> Bytes): seq<Bytes> {
    Members(ENTRY_ORDER, EntryFields(entry, quote))
  }

  function EntryText(entry: Entry, quote: string -> Bytes): Bytes {
    "{" + Joined(EntryMembers(entry, quote)) + "}"
  }

  function EntryTexts(entries: seq<Entry>, quote: string -> Bytes): (texts: seq<Bytes>)
    ensures |texts| == |entries| && forall i | 0 <= i < |entries| :: texts[i] == EntryText(entries[i], quote)
  {
    seq(|entries|, i requires 0 <= i < |entries| => EntryText(entries[i], quote))
  }

  function ReleaseFields(release: Release, quote: string -> Bytes): (texts: seq<Bytes>)
    ensures |texts| == 4
  {
    [quote(SCHEMA), quote(release.commit), Digits(release.epoch), quote(release.version)]
  }

  function ReleaseMembers(release: Release, quote: string -> Bytes): seq<Bytes> {
    Members(RELEASE_ORDER, ReleaseFields(release, quote))
  }

  function FilesText(entries: seq<Entry>, quote: string -> Bytes): Bytes {
    "[" + Joined(EntryTexts(SortedByPath(entries), quote)) + "]"
  }

  function ManifestMembers(entries: seq<Entry>, release: Release, quote: string -> Bytes): seq<Bytes> {
    Members(["files"] + RELEASE_ORDER, [FilesText(entries, quote)] + ReleaseFields(release, quote))
  }

  /** `build_manifest`: keys sorted, no spaces, one final newline. */
  function BuildManifest(entries: seq<Entry>, release: Release, quote: string -> Bytes): Bytes {
    "{" + Joined(ManifestMembers(entries, release, quote)) + "}\n"
  }

  /** The manifest does not depend on the order in which the files were collected. */
  lemma {:induction false} ManifestIsCanonical(
      entries: seq<Entry>, others: seq<Entry>, release: Release, quote: string -> Bytes)
    requires PathsDistinct(entries) && multiset(entries) == multiset(others)
    ensures BuildManifest(entries, release, quote) == BuildManifest(others, release, quote)
  {
    SortingSorts(entries);
    SortingSorts(others);
    forall x, y | x in SortedByPath(entries) && y in SortedByPath(entries) && x.path == y.path
      ensures x == y
    {
      assert x in multiset(entries) && y in multiset(entries);
    }
    OrderedUnique(SortedByPath(entries), SortedByPath(others));
  }

  // ---- The size of the manifest inside the manifest ----

  function TextSize(entries: seq<Entry>, quote: string -> Bytes): nat {
    if entries == [] then 0 else |EntryText(entries[0], quote)| + 1 + TextSize(entries[1..], quote)
  }

  lemma {:induction false} ListedSize(entries: seq<Entry>, quote: string -> Bytes)
    requires entries != []
    ensures |Joined(EntryTexts(entries, quote))| == TextSize(entries, quote) - 1
  {
    if |entries| > 1 {
      ListedSize(entries[1..], quote);
      assert EntryTexts(entries, quote)[1..] == EntryTexts(entries[1..], quote);
    }
  }

  lemma {:induction false} JoinedFourSize(texts: seq<Bytes>)
    requires |texts| == 4
    ensures |Joined(texts)| == |texts[0]| + |texts[1]| + |texts[2]| + |texts[3]| + 3
  {
    assert |Joined(texts)| == |texts[0]| + 1 + |Joined(texts[1..])|;
    assert |Joined(texts[1..])| == |texts[1]| + 1 + |Joined(texts[2..])| by { assert texts[1..][1..] == texts[2..]; }
    assert |Joined(texts[2..])| == |texts[2]| + 1 + |texts[3]| by { assert texts[2..][1..] == [texts[3]]; }
  }

  /** Only the digits of the size make the manifest's own entry longer. */
  lemma {:induction false} SelfSize(size: nat, quote: string -> Bytes)
    ensures |EntryText(Self(size), quote)| + 1 == |EntryText(Self(0), quote)| + |Digits(size)|
  {
    JoinedFourSize(EntryMembers(Self(size), quote));
    JoinedFourSize(EntryMembers(Self(0), quote));
  }

  lemma {:induction false} InsertSize(entry: Entry, entries: seq<Entry>, quote: string -> Bytes)
    ensures TextSize(Insert(entry, entries), quote) == |EntryText(entry, quote)| + 1 + TextSize(entries, quote)
  {
    if entries != [] && Precedes(entries[0].path, entry.path) {
      InsertSize(entry, entries[1..], quote);
      var all := Insert(entry, entries);
      assert all[1..] == Insert(entry, entries[1..]);
    } else {
      assert ([entry] + entries)[1..] == entries;
    }
  }

  /** The manifest for a stated size of itself. */
  function Stating(entries: seq<Entry>, size: nat, release: Release, quote: string -> Bytes): Bytes {
    BuildManifest(entries + [Self(size)], release, quote)
  }

  lemma {:induction false} StatingSize(entries: seq<Entry>, size: nat, release: Release, quote: string -> Bytes)
    ensures |Stating(entries, size, release, quote)| + 1 == |Stating(entries, 0, release, quote)| + |Digits(size)|
  {
    StatingShape(entries, size, release, quote);
    StatingShape(entries, 0, release, quote);
    SelfSize(size, quote);
  }

  lemma {:induction false} StatingShape(entries: seq<Entry>, size: nat, release: Release, quote: string -> Bytes)
    ensures |Stating(entries, size, release, quote)|
            == 14 + TextSize(SortedByPath(entries), quote) + |EntryText(Self(size), quote)|
               + |Joined(ReleaseMembers(release, quote))|
  {
    var all := entries + [Self(size)];
    assert all[..|all| - 1] == entries;
    InsertSize(Self(size), SortedByPath(entries), quote);
    ListedSize(SortedByPath(all), quote);
    var members := ManifestMembers(all, release, quote);
    assert members[1..] == ReleaseMembers(release, quote);
    assert members[0] == Member("files", FilesText(all, quote));
  }

  lemma {:induction false} MoreDigits(a: nat, b: nat)
    requires a <= b
    ensures |Digits(a)| <= |Digits(b)|
    ensures b <= 10 * a ==> |Digits(b)| <= |Digits(a)| + 1
    decreases b
  {
    if a >= 10 {
      MoreDigits(a / 10, b / 10);
    } else if b >= 10 {
      if b <= 10 * a { assert b / 10 < 10; }
    }
  }

  lemma {:induction false} FewDigits(n: nat)
    requires n >= 1
    ensures |Digits(n)| <= n
  {
    if n >= 10 { FewDigits(n / 10); }
  }

  datatype Failure = DidNotConverge

  function TextFor(entries: seq<Entry>, release: Release, quote: string -> Bytes): nat -> Bytes {
    (size: nat) => Stating(entries, size, release, quote)
  }

  /** The stated size after some rounds; `text` is the manifest for a stated size. */
  function SizeAfter(text: nat -> Bytes, rounds: nat): nat {
    if rounds == 0 then 0 else |text(SizeAfter(text, rounds - 1))|
  }

  /** The size stated after these rounds is the size of the manifest that states it. */
  predicate SettledAfter(text: nat -> Bytes, rounds: nat) {
    SizeAfter(text, rounds + 1) == SizeAfter(text, rounds)
  }

  /** What a search of at most `rounds` rounds gives: the first settled size. */
  predicate Searched(text: nat -> Bytes, rounds: nat, r: Result<(Bytes, Entry), Failure>) {
    match r
    case Ok((payload, entry)) =>
      exists n | 0 <= n < rounds ::
          FirstSettled(text, n) && payload == text(SizeAfter(text, n)) && entry == Self(SizeAfter(text, n))
    case Err(_) => NoneSettled(text, rounds)
  }

  predicate FirstSettled(text: nat -> Bytes, n: nat) {
    SettledAfter(text, n) && NoneSettled(text, n)
  }

  predicate NoneSettled(text: nat -> Bytes, n: nat) {
    forall k | 0 <= k < n :: !SettledAfter(text, k)
  }

  lemma {:induction false} NextRound(text: nat -> Bytes, n: nat, payload: Bytes)
    requires NoneSettled(text, n) && payload == text(SizeAfter(text, n))
    ensures SizeAfter(text, n + 1) == |payload|
    ensures |payload| == SizeAfter(text, n) ==> FirstSettled(text, n)
    ensures |payload| != SizeAfter(text, n) ==> NoneSettled(text, n + 1)
  {
  }

  /** `_manifest_payload`. */
  method ManifestPayload(entries: seq<Entry>, release: Release, quote: string -> Bytes)
    returns (r: Result<(Bytes, Entry), Failure>)
    ensures Searched(TextFor(entries, release, quote), 10, r)
  {
    var manifestEntry := Entry(SELF_PATH, 0, SELF_MODE, None);
    ghost var text := TextFor(entries, release, quote);
    for i := 0 to 10
      invariant manifestEntry == Self(SizeAfter(text, i))
      invariant NoneSettled(text, i)
    {
      var payload := BuildManifest(entries + [manifestEntry], release, quote);
      NextRound(text, i, payload);
      var updated := manifestEntry.(size := |payload|);
      if updated == manifestEntry { return Ok((payload, manifestEntry)); }
      manifestEntry := updated;
    }
    return Err(DidNotConverge);
  }

  /** A text that grows only with the digits of the number it states. */
  ghost predicate GrowsByDigits(text: nat -> Bytes) {
    |text(0)| >= 1 && forall size: nat :: |text(size)| + 1 == |text(0)| + |Digits(size)|
  }

  lemma {:induction false} ManifestGrowsByDigits(entries: seq<Entry>, release: Release, quote: string -> Bytes)
    ensures GrowsByDigits(TextFor(entries, release, quote))
  {
    forall size: nat
      ensures |Stating(entries, size, release, quote)| + 1 == |Stating(entries, 0, release, quote)| + |Digits(size)|
    {
      StatingSize(entries, size, release, quote);
    }
    StatingShape(entries, 0, release, quote);
  }

  lemma {:induction false} SizesSettle(text: nat -> Bytes)
    requires GrowsByDigits(text)
    ensures SettledAfter(text, 3)
  {
    var first := |text(0)|;
    var second := |text(first)|;
    var third := |text(second)|;
    assert SizeAfter(text, 1) == first;
    assert SizeAfter(text, 2) == second;
    FewDigits(first);
    MoreDigits(first, second);
    MoreDigits(second, third);
    MoreDigits(first, third);
  }

  /** A size that the manifest can state of itself. */
  lemma {:induction false} SettledSize(entries: seq<Entry>, release: Release, quote: string -> Bytes) returns (n: nat)
    ensures |Stating(entries, n, release, quote)| == n
  {
    var text := TextFor(entries, release, quote);
    ManifestGrowsByDigits(entries, release, quote);
    SizesSettle(text);
    n := SizeAfter(text, 3);
  }

  lemma {:induction false} SizesStayBelow(text: nat -> Bytes, rounds: nat, size: nat)
    requires GrowsByDigits(text) && |text(size)| == size
    ensures SizeAfter(text, rounds) <= size
  {
    if rounds > 0 {
      SizesStayBelow(text, rounds - 1, size);
      MoreDigits(SizeAfter(text, rounds - 1), size);
    }
  }

  /**
   Four rounds always suffice, so the ten of `_manifest_payload` never run out. The manifest found is
   as long as it says, and no smaller size would be consistent with itself.
   */
  lemma {:induction false} ManifestConverges(entries: seq<Entry>, rounds: nat, release: Release, quote: string -> Bytes,
                                             found: Result<(Bytes, Entry), Failure>)
    requires rounds >= 4
    ensures Searched(TextFor(entries, release, quote), rounds, found) ==>
              && found.Ok?
              && found.value.1 == Self(|found.value.0|)
              && found.value.0 == BuildManifest(entries + [found.value.1], release, quote)
              && forall size: nat | |Stating(entries, size, release, quote)| == size :: |found.value.0| <= size
  {
    var text := TextFor(entries, release, quote);
    ManifestGrowsByDigits(entries, release, quote);
    SizesSettle(text);
    if Searched(text, rounds, found) {
      assert found.Ok?;
      var n :| 0 <= n < rounds && FirstSettled(text, n)
               && found.value.0 == text(SizeAfter(text, n)) && found.value.1 == Self(SizeAfter(text, n));
      forall size: nat | |Stating(entries, size, release, quote)| == size
        ensures SizeAfter(text, n) <= size
      {
        assert text(size) == Stating(entries, size, release, quote);
        SizesStayBelow(text, n, size);
      }
    }
  }

  /** Four rounds are also needed: three give up on some texts. */
  lemma {:induction false} ThreeRoundsAreTooFew(text: nat -> Bytes)
    requires GrowsByDigits(text) && |text(0)| == 998
    ensures Searched(text, 3, Err(DidNotConverge))
  {
    assert |Digits(99)| == 2 && |Digits(100)| == 3;
    assert |Digits(998)| == 3 && |Digits(1000)| == 4;
    assert |text(998)| == 1000 && |text(1000)| == 1001;
    assert SizeAfter(text, 1) == 998;
    assert SizeAfter(text, 2) == 1000;
    assert SizeAfter(text, 3) == 1001;
  }

  /** Consistency alone does not determine the size: around a power of ten two sizes can fit. */
  lemma {:induction false} TwoSizesCanFit(text: nat -> Bytes)
    requires GrowsByDigits(text) && |text(0)| == 997
    ensures |text(999)| == 999 && |text(1000)| == 1000
  {
  }
}
