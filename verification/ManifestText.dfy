/**
 The manifest as JSON text: what the builder writes is its document printed with sorted keys and without spaces,
 and the document says what was built.
 */
module ManifestText {
  import opened Wrappers
  import opened Manifest
  import opened PortableFormat

  /** These keys, each once, in increasing order. */
  predicate IsKeyOrder(order: seq<string>, keys: set<string>) {
    && (forall i, j | 0 <= i < j < |order| :: Precedes(order[i], order[j]) && order[i] != order[j])
    && (forall key | key in order :: key in keys) && (forall key | key in keys :: key in order)
  }

  lemma {:induction false} Inserted(order: seq<string>, keys: set<string>, key: string) returns (more: seq<string>)
    requires IsKeyOrder(order, keys) && key !in keys
    ensures IsKeyOrder(more, keys + {key})
  {
    var i := 0;
    while i < |order| && Precedes(order[i], key)
      invariant 0 <= i <= |order| && forall j | 0 <= j < i :: Precedes(order[j], key)
    {
      i := i + 1;
    }
    more := order[..i] + [key] + order[i..];
    if i < |order| {
      PrecedesTotal(key, order[i]);
      forall j | i < j < |order|
        ensures Precedes(key, order[j])
      {
        PrecedesTransitive(key, order[i], order[j]);
      }
    }
    forall x | x in keys + {key}
      ensures x in more
    {
      if x != key {
        var j :| 0 <= j < |order| && order[j] == x;
        assert more[if j < i then j else j + 1] == x;
      } else {
        assert more[i] == key;
      }
    }
  }

  lemma {:induction false} KeysHaveOrder(keys: set<string>)
    ensures exists order :: IsKeyOrder(order, keys)
  {
    SomeText(keys);
    if keys == {} {
      assert IsKeyOrder([], keys);
    } else {
      var key :| key in keys;
      KeysHaveOrder(keys - {key});
      var order :| IsKeyOrder(order, keys - {key});
      var more := Inserted(order, keys - {key}, key);
      assert keys - {key} + {key} == keys;
    }
  }

  lemma {:induction false} OneOrder(a: seq<string>, b: seq<string>, keys: set<string>)
    requires IsKeyOrder(a, keys) && IsKeyOrder(b, keys)
    ensures a == b
  {
    if a == [] {
      assert forall i | 0 <= i < |b| :: b[i] in keys;
    } else {
      assert a[0] in keys;
      HeadsEqual(a, b, keys);
      assert a == [a[0]] + a[1..] && b == [b[0]] + b[1..];
      assert IsKeyOrder(a[1..], keys - {a[0]}) && IsKeyOrder(b[1..], keys - {a[0]});
      OneOrder(a[1..], b[1..], keys - {a[0]});
    }
  }

  lemma {:induction false} HeadsEqual(a: seq<string>, b: seq<string>, keys: set<string>)
    requires IsKeyOrder(a, keys) && IsKeyOrder(b, keys) && a != [] && b != []
    ensures a[0] == b[0]
  {
    assert a[0] in b && b[0] in a;
    var i :| 0 <= i < |b| && b[i] == a[0];
    var j :| 0 <= j < |a| && a[j] == b[0];
    PrecedesTotal(a[0], b[0]);
  }

  /** `json.dumps` with sorted keys and compact separators; how texts and floats are printed is given. */
  ghost function Printed(json: Json, quote: string -> Bytes, float: real -> Bytes): Bytes
    decreases json, 1, 0
  {
    match json
    case Null => "null"
    case Bool(truth) => if truth then "true" else "false"
    case Int(number) => if number < 0 then "-" + Digits(-number) else Digits(number)
    case Float(value) => float(value)
    case Text(text) => quote(text)
    case List(items) => "[" + Joined(PrintedItems(json, |items|, quote, float)) + "]"
    case Object(fields) =>
      KeysHaveOrder(fields.Keys);
      var order :| IsKeyOrder(order, fields.Keys);
      "{" + Joined(PrintedFields(json, order, quote, float)) + "}"
  }

  ghost function PrintedItems(json: Json, n: nat, quote: string -> Bytes, float: real -> Bytes): (texts: seq<Bytes>)
    requires json.List? && n <= |json.items|
    ensures |texts| == n
    ensures forall i | 0 <= i < n :: texts[i] == Printed(json.items[i], quote, float)
    decreases json, 0, n
  {
    if n == 0 then [] else PrintedItems(json, n - 1, quote, float) + [Printed(json.items[n - 1], quote, float)]
  }

  ghost function PrintedFields(
      json: Json, order: seq<string>, quote: string -> Bytes, float: real -> Bytes): (texts: seq<Bytes>)
    requires json.Object? && forall key | key in order :: key in json.fields
    ensures |texts| == |order|
    ensures forall i | 0 <= i < |order| ::
              texts[i] == quote(order[i]) + ":" + Printed(json.fields[order[i]], quote, float)
    decreases json, 0, |order|
  {
    if order == [] then []
    else
      [quote(order[0]) + ":" + Printed(json.fields[order[0]], quote, float)]
      + PrintedFields(json, order[1..], quote, float)
  }

  lemma {:induction false} ObjectPrinted(json: Json, order: seq<string>, quote: string -> Bytes, float: real -> Bytes)
    requires json.Object? && IsKeyOrder(order, json.fields.Keys)
    ensures Printed(json, quote, float) == "{" + Joined(PrintedFields(json, order, quote, float)) + "}"
  {
    KeysHaveOrder(json.fields.Keys);
    forall other | IsKeyOrder(other, json.fields.Keys)
      ensures other == order
    {
      OneOrder(other, order, json.fields.Keys);
    }
  }

  // ---- The manifest ----

  /** The field names need no escapes, so they are quoted as they are. */
  predicate QuotesNames(quote: string -> Bytes) {
    forall name | name in ENTRY_FIELDS + MANIFEST_FIELDS :: quote(name) == "\"" + name + "\""
  }

  /** The texts agree up to some place, where the first one has the smaller character. */
  lemma {:induction false} PrecedesAt(a: string, b: string, n: nat)
    requires n < |a| && n < |b| && a[n] < b[n] && forall i | 0 <= i < n :: a[i] == b[i]
    ensures Precedes(a, b) && a != b
  {
    if n > 0 { PrecedesAt(a[1..], b[1..], n - 1); }
  }

  lemma {:induction false} ManifestOrder()
    ensures IsKeyOrder(["files"] + RELEASE_ORDER, MANIFEST_FIELDS)
  {
    var o := ["files"] + RELEASE_ORDER;
    assert o[0] == "files" && o[1] == "schema_version" && o[2] == "source_commit" && o[3] == "source_date_epoch"
        && o[4] == "version";
    forall i, j | 0 <= i < j < |o|
      ensures Precedes(o[i], o[j]) && o[i] != o[j]
    {
      PrecedesAt(o[i], o[j], if i == 0 || j == 4 then 0 else if i == 1 then 1 else 7);
    }
  }

  lemma {:induction false} EntryOrder()
    ensures IsKeyOrder(ENTRY_ORDER, ENTRY_FIELDS)
  {
    var o := ENTRY_ORDER;
    assert o[0] == "mode" && o[1] == "path" && o[2] == "sha256" && o[3] == "size";
    forall i, j | 0 <= i < j < |o|
      ensures Precedes(o[i], o[j]) && o[i] != o[j]
    {
      PrecedesAt(o[i], o[j], if i == 2 then 1 else 0);
    }
  }

  lemma {:induction false} FieldsPrinted(
      json: Json, order: seq<string>, texts: seq<Bytes>, quote: string -> Bytes, float: real -> Bytes)
    requires json.Object? && IsKeyOrder(order, json.fields.Keys) && |texts| == |order|
    requires QuotesNames(quote) && json.fields.Keys <= ENTRY_FIELDS + MANIFEST_FIELDS
    requires forall i | 0 <= i < |order| :: Printed(json.fields[order[i]], quote, float) == texts[i]
    ensures Printed(json, quote, float) == "{" + Joined(Members(order, texts)) + "}"
  {
    ObjectPrinted(json, order, quote, float);
    assert forall i | 0 <= i < |order| :: order[i] in order;
    assert PrintedFields(json, order, quote, float) == Members(order, texts);
  }

  lemma {:induction false} EntryPrinted(entry: Entry, quote: string -> Bytes, float: real -> Bytes)
    requires QuotesNames(quote)
    ensures EntryText(entry, quote) == Printed(EntryJson(entry), quote, float)
  {
    var json, texts := EntryJson(entry), EntryFields(entry, quote);
    EntryOrder();
    assert json.fields.Keys == ENTRY_FIELDS;
    forall i | 0 <= i < 4
      ensures Printed(json.fields[ENTRY_ORDER[i]], quote, float) == texts[i]
    {
    }
    FieldsPrinted(json, ENTRY_ORDER, texts, quote, float);
  }

  lemma {:induction false} FilesPrinted(entries: seq<Entry>, release: Release, quote: string -> Bytes,
                                        float: real -> Bytes)
    requires QuotesNames(quote)
    ensures Printed(List(EntriesJson(SortedByPath(entries))), quote, float) == FilesText(entries, quote)
  {
    var list, sorted := List(EntriesJson(SortedByPath(entries))), SortedByPath(entries);
    forall i | 0 <= i < |sorted|
      ensures Printed(list.items[i], quote, float) == EntryText(sorted[i], quote)
    {
      EntryPrinted(sorted[i], quote, float);
    }
    assert PrintedItems(list, |sorted|, quote, float) == EntryTexts(sorted, quote);
  }

  lemma {:induction false} ReleasePrinted(
      entries: seq<Entry>, release: Release, quote: string -> Bytes, float: real -> Bytes, i: nat)
    requires QuotesNames(quote) && i < 5 && (["files"] + RELEASE_ORDER)[i] in Document(entries, release).fields
    ensures Printed(Document(entries, release).fields[(["files"] + RELEASE_ORDER)[i]], quote, float)
            == ([FilesText(entries, quote)] + ReleaseFields(release, quote))[i]
  {
    FilesPrinted(entries, release, quote, float);
  }

  lemma {:induction false} DocumentPrinted(
      entries: seq<Entry>, release: Release, quote: string -> Bytes, float: real -> Bytes)
    requires QuotesNames(quote)
    ensures Printed(Document(entries, release), quote, float)
            == "{" + Joined(ManifestMembers(entries, release, quote)) + "}"
  {
    var document, order := Document(entries, release), ["files"] + RELEASE_ORDER;
    var texts := [FilesText(entries, quote)] + ReleaseFields(release, quote);
    ManifestOrder();
    assert document.fields.Keys == MANIFEST_FIELDS;
    forall i | 0 <= i < 5
      ensures Printed(document.fields[order[i]], quote, float) == texts[i]
    {
      ReleasePrinted(entries, release, quote, float, i);
    }
    FieldsPrinted(document, order, texts, quote, float);
  }

  /**
   `build_manifest` writes the document of the release, printed as JSON with sorted keys and without spaces, and
   a newline.
   */
  lemma {:induction false} ManifestIsPrintedDocument(
      entries: seq<Entry>, release: Release, quote: string -> Bytes, float: real -> Bytes)
    requires QuotesNames(quote)
    ensures BuildManifest(entries, release, quote) == Printed(Document(entries, release), quote, float) + "\n"
  {
    DocumentPrinted(entries, release, quote, float);
  }

  /** What the document says. */
  lemma {:induction false} DocumentSays(entries: seq<Entry>, release: Release, k: nat)
    requires k < |entries|
    ensures var fields := Document(entries, release).fields;
            && fields["schema_version"] == Text("operations-ai-portable-release/v1")
            && fields["version"] == Text(release.version) && fields["source_commit"] == Text(release.commit)
            && fields["source_date_epoch"] == Int(release.epoch)
            && fields["files"].List? && |fields["files"].items| == |entries|
            && Object(map[
                 "path" := Text(entries[k].path), "size" := Int(entries[k].size), "mode" := Int(entries[k].mode),
                 "sha256" := match entries[k].sha256 { case Some(hash) => Text(hash) case None => Null }])
               in fields["files"].items
  {
    EntryListed(entries, k);
  }

  lemma {:induction false} EntryListed(entries: seq<Entry>, k: nat)
    requires k < |entries|
    ensures |SortedByPath(entries)| == |entries|
    ensures EntryJson(entries[k]) in EntriesJson(SortedByPath(entries))
  {
    var sorted := SortedByPath(entries);
    SortingSorts(entries);
    assert |multiset(sorted)| == |multiset(entries)|;
    assert entries[k] in multiset(sorted);
    var i :| 0 <= i < |sorted| && sorted[i] == entries[k];
    assert EntriesJson(sorted)[i] == EntryJson(entries[k]);
  }
}
