/** What an upload's manifest holds, in the words of the files that were listed
    (server/src/handlers/files-handlers.js, lines 348-375; server/src/main/kernel.js, lines 4289-4324). */
module UploadListing {
  import opened JsText
  import opened Options
  import opened FsJob
  import opened UploadManifest

  predicate IsSeparator(c: char) {
    c == '/' || c == '\\'
  }

  /** A relative path without separators is its own normal form, unless it is no name at all. */
  lemma NormalizeSegment(s: string)
    requires forall i :: 0 <= i < |s| ==> !IsSeparator(s[i])
    ensures NormalizeRelativePath(s) == if s == "" || s == "." || s == ".." then "" else s
  {
    assert Slashed(s) == s;
    assert Split(s, '/') == [s];
    assert Names([s]) == (if IsName(s) then [s] else []) + Names([]);
  }

  /** Either separator joins what the two sides come to; a side that comes to nothing is left out.
      With `NormalizeSegment` this settles the normal form of every path. */
  lemma NormalizeConcat(a: string, c: char, b: string)
    requires IsSeparator(c)
    ensures var left, right := NormalizeRelativePath(a), NormalizeRelativePath(b);
      NormalizeRelativePath(a + [c] + b) ==
        if left == "" then right else if right == "" then left else left + "/" + right
  {
    assert Slashed(a + [c] + b) == Slashed(a) + "/" + Slashed(b);
    SplitConcat(Slashed(a), Slashed(b));
    var left, right := Split(Slashed(a), '/'), Split(Slashed(b), '/');
    NamesConcat(left, right);
    JoinConcat(Names(left), Names(right));
    JoinEmpty(Names(left));
    JoinEmpty(Names(right));
  }

  lemma JoinFirst(first: string, parts: seq<string>)
    requires parts != []
    ensures Join([first] + parts, "/") == first + "/" + Join(parts, "/")
  {
    assert ([first] + parts)[1..] == parts;
  }

  lemma {:induction false} JoinSplit(s: string)
    ensures Join(Split(s, '/'), "/") == s
    decreases |s|
  {
    if '/' in s {
      var k := IndexOfChar(s, '/');
      JoinSplit(s[k + 1..]);
      JoinFirst(s[..k], Split(s[k + 1..], '/'));
      assert s == s[..k] + "/" + s[k + 1..];
    }
  }

  lemma SplitConcat(a: string, b: string)
    ensures Split(a + "/" + b, '/') == Split(a, '/') + Split(b, '/')
  {
    var parts := Split(a, '/') + Split(b, '/');
    SplitHasNoSeparator(a, '/');
    SplitHasNoSeparator(b, '/');
    JoinConcat(Split(a, '/'), Split(b, '/'));
    JoinSplit(a);
    JoinSplit(b);
    assert forall i :: 0 <= i < |parts| ==> '/' !in parts[i];
    SplitJoin(parts);
  }

  lemma {:induction false} NamesConcat(a: seq<string>, b: seq<string>)
    ensures Names(a + b) == Names(a) + Names(b)
  {
    if a == [] {
      assert a + b == b;
    } else {
      assert (a + b)[1..] == a[1..] + b;
      NamesConcat(a[1..], b);
    }
  }

  lemma {:induction false} JoinConcat(a: seq<string>, b: seq<string>)
    ensures Join(a + b, "/") ==
      if a == [] then Join(b, "/") else if b == [] then Join(a, "/") else Join(a, "/") + "/" + Join(b, "/")
  {
    if a == [] {
      assert a + b == b;
    } else if b == [] {
      assert a + b == a;
    } else {
      assert (a + b)[1..] == a[1..] + b;
      JoinConcat(a[1..], b);
    }
  }

  lemma JoinEmpty(names: seq<string>)
    requires forall i :: 0 <= i < |names| ==> names[i] != ""
    ensures Join(names, "/") == "" <==> names == []
  {
  }

  /** The path that each file of a list goes by. */
  ghost function KeysOf(files: seq<ManifestEntry>): (r: seq<string>)
    ensures |r| == |files|
  {
    if files == [] then []
    else KeysOf(files[..|files| - 1]) + [NormalizeRelativePath(files[|files| - 1].relativePath)]
  }

  lemma {:induction false} KeyAt(files: seq<ManifestEntry>, i: nat)
    requires i < |files|
    ensures KeysOf(files)[i] == NormalizeRelativePath(files[i].relativePath)
  {
    if i < |files| - 1 {
      KeyAt(files[..|files| - 1], i);
    }
  }

  predicate IsLast(keys: seq<string>, i: nat) {
    i < |keys| && forall j :: i < j < |keys| ==> keys[j] != keys[i]
  }

  /** The last file that goes by the path of `e` has the size of `e`. */
  predicate LastListed(keys: seq<string>, files: seq<ManifestEntry>, e: ManifestEntry)
    requires |keys| == |files|
  {
    exists i :: 0 <= i < |keys| && keys[i] == e.relativePath && files[i].size == e.size && IsLast(keys, i)
  }

  predicate ListedBefore(keys: seq<string>, path: string, n: nat)
    requires n <= |keys|
  {
    exists i :: 0 <= i < n && keys[i] == path
  }

  predicate InOrder(keys: seq<string>, manifest: seq<ManifestEntry>) {
    forall a, b, j {:trigger manifest[a], manifest[b], keys[j]} ::
      0 <= a < b < |manifest| && 0 <= j < |keys| && keys[j] == manifest[b].relativePath ==>
        ListedBefore(keys, manifest[a].relativePath, j)
  }

  ghost predicate Holds(keys: seq<string>, files: seq<ManifestEntry>, manifest: seq<ManifestEntry>)
    requires |keys| == |files|
  {
    && DistinctPaths(manifest)
    && (forall e :: e in manifest <==> e.relativePath != "" && LastListed(keys, files, e))
    && InOrder(keys, manifest)
  }

  /** The manifest of a list of files: every path that some file goes by, once, with the size of the
      last such file, in the order in which the paths were first listed; files without a name are
      left out. */
  ghost predicate StoredAs(files: seq<ManifestEntry>, manifest: seq<ManifestEntry>) {
    Holds(KeysOf(files), files, manifest)
  }

  lemma LastListedNext(keys: seq<string>, files: seq<ManifestEntry>, key: string, last: ManifestEntry, e: ManifestEntry)
    requires |keys| == |files|
    ensures LastListed(keys + [key], files + [last], e) <==>
      if e.relativePath == key then e.size == last.size else LastListed(keys, files, e)
  {
    var n := |keys|;
    var keys', files' := keys + [key], files + [last];
    assert IsLast(keys', n) && keys'[n] == key && files'[n] == last;
    if e.relativePath != key {
      if i :| 0 <= i < |keys'| && keys'[i] == e.relativePath && files'[i].size == e.size && IsLast(keys', i) {
        assert keys[i] == keys'[i] && files[i] == files'[i];
        assert forall j :: i < j < |keys| ==> keys[j] == keys'[j];
      }
      if i :| 0 <= i < n && keys[i] == e.relativePath && files[i].size == e.size && IsLast(keys, i) {
        assert keys'[i] == keys[i] && files'[i] == files[i] && IsLast(keys', i);
      }
    }
  }

  lemma {:induction false} PutKnown(entries: seq<ManifestEntry>, entry: ManifestEntry, k: nat)
    requires DistinctPaths(entries) && k < |entries| && entries[k].relativePath == entry.relativePath
    ensures Put(entries, entry) == entries[k := entry]
  {
    if k > 0 {
      PutKnown(entries[1..], entry, k - 1);
    }
  }

  lemma {:induction false} StoredIsListed(
      keys: seq<string>, files: seq<ManifestEntry>, manifest: seq<ManifestEntry>, a: nat)
    requires |keys| == |files| && Holds(keys, files, manifest) && a < |manifest|
    ensures ListedBefore(keys, manifest[a].relativePath, |keys|) && manifest[a].relativePath != ""
  {
    assert manifest[a] in manifest;
  }

  /** Every file with a name is in the manifest, under its path. */
  lemma {:induction false} ListedIsStored(
      keys: seq<string>, files: seq<ManifestEntry>, manifest: seq<ManifestEntry>, j: nat)
    requires |keys| == |files| && Holds(keys, files, manifest) && j < |keys| && keys[j] != ""
    ensures exists k :: 0 <= k < |manifest| && manifest[k].relativePath == keys[j]
    decreases |keys| - j
  {
    if i :| j < i < |keys| && keys[i] == keys[j] {
      ListedIsStored(keys, files, manifest, i);
    } else {
      assert IsLast(keys, j);
      var e := ManifestEntry(keys[j], files[j].size);
      assert e in manifest;
    }
  }

  /** A known path keeps its place. */
  lemma OrderKept(keys: seq<string>, key: string, manifest: seq<ManifestEntry>)
    requires InOrder(keys, manifest)
    requires forall a :: 0 <= a < |manifest| ==> ListedBefore(keys, manifest[a].relativePath, |keys|)
    ensures InOrder(keys + [key], manifest)
  {
    var keys' := keys + [key];
    forall a, b, j {:trigger manifest[a], manifest[b], keys'[j]} |
      0 <= a < b < |manifest| && 0 <= j < |keys'| && keys'[j] == manifest[b].relativePath
      ensures ListedBefore(keys', manifest[a].relativePath, j)
    {
      assert j < |keys| ==> keys[j] == keys'[j];
      assert ListedBefore(keys, manifest[a].relativePath, j);
      var i :| 0 <= i < j && keys[i] == manifest[a].relativePath;
      assert keys'[i] == keys[i];
    }
  }

  /** A new one comes last. */
  lemma OrderExtended(keys: seq<string>, manifest: seq<ManifestEntry>, entry: ManifestEntry)
    requires InOrder(keys, manifest) && entry.relativePath !in keys
    requires forall a :: 0 <= a < |manifest| ==> ListedBefore(keys, manifest[a].relativePath, |keys|)
    ensures InOrder(keys + [entry.relativePath], manifest + [entry])
  {
    var keys', next := keys + [entry.relativePath], manifest + [entry];
    OrderKept(keys, entry.relativePath, manifest);
    forall a, b, j {:trigger next[a], next[b], keys'[j]} |
      0 <= a < b < |next| && 0 <= j < |keys'| && keys'[j] == next[b].relativePath
      ensures ListedBefore(keys', next[a].relativePath, j)
    {
      assert next[a] == manifest[a];
      if b < |manifest| {
        assert next[b] == manifest[b];
        assert ListedBefore(keys', manifest[a].relativePath, j);
      } else {
        assert j == |keys|;
        var i :| 0 <= i < |keys| && keys[i] == manifest[a].relativePath;
        assert keys'[i] == keys[i];
      }
    }
  }

  lemma OrderNext(keys: seq<string>, files: seq<ManifestEntry>, manifest: seq<ManifestEntry>, entry: ManifestEntry)
    requires |keys| == |files| && Holds(keys, files, manifest) && entry.relativePath != ""
    ensures InOrder(keys + [entry.relativePath], Put(manifest, entry))
  {
    forall a | 0 <= a < |manifest|
      ensures ListedBefore(keys, manifest[a].relativePath, |keys|)
    {
      StoredIsListed(keys, files, manifest, a);
    }
    if k :| 0 <= k < |manifest| && manifest[k].relativePath == entry.relativePath {
      PutKnown(manifest, entry, k);
      OrderKept(keys, entry.relativePath, manifest);
      SamePathsInOrder(keys + [entry.relativePath], manifest, manifest[k := entry]);
    } else {
      PutNew(manifest, entry);
      if j :| 0 <= j < |keys| && keys[j] == entry.relativePath {
        ListedIsStored(keys, files, manifest, j);
      }
      OrderExtended(keys, manifest, entry);
    }
  }

  lemma SamePathsInOrder(keys: seq<string>, manifest: seq<ManifestEntry>, other: seq<ManifestEntry>)
    requires InOrder(keys, manifest) && |manifest| == |other|
    requires forall k :: 0 <= k < |manifest| ==> manifest[k].relativePath == other[k].relativePath
    ensures InOrder(keys, other)
  {
    forall a, b, j {:trigger other[a], other[b], keys[j]} |
      0 <= a < b < |other| && 0 <= j < |keys| && keys[j] == other[b].relativePath
      ensures ListedBefore(keys, other[a].relativePath, j)
    {
      assert manifest[a].relativePath == other[a].relativePath && manifest[b].relativePath == other[b].relativePath;
    }
  }

  /** One more file. */
  lemma HoldsNext(keys: seq<string>, files: seq<ManifestEntry>, manifest: seq<ManifestEntry>,
      key: string, last: ManifestEntry)
    requires |keys| == |files| && Holds(keys, files, manifest)
    ensures Holds(keys + [key], files + [last],
      if key == "" then manifest else Put(manifest, last.(relativePath := key)))
  {
    forall e
      ensures LastListed(keys + [key], files + [last], e) <==>
        if e.relativePath == key then e.size == last.size else LastListed(keys, files, e)
    {
      LastListedNext(keys, files, key, last, e);
    }
    if key == "" {
      forall a | 0 <= a < |manifest|
        ensures ListedBefore(keys, manifest[a].relativePath, |keys|)
      {
        StoredIsListed(keys, files, manifest, a);
      }
      OrderKept(keys, key, manifest);
    } else {
      var entry := last.(relativePath := key);
      PutKeepsDistinct(manifest, entry);
      OrderNext(keys, files, manifest, entry);
      assert forall e: ManifestEntry :: e.relativePath == key && e.size == last.size ==> e == entry;
    }
  }

  lemma CleanedNext(front: seq<ManifestEntry>, last: ManifestEntry) returns (key: string)
    ensures KeysOf(front + [last]) == KeysOf(front) + [key]
    ensures Cleaned(front + [last]) == Cleaned(front) + if key == "" then [] else [last.(relativePath := key)]
  {
    key := NormalizeRelativePath(last.relativePath);
    assert (front + [last])[..|front|] == front;
  }

  lemma DedupeNext(cleaned: seq<ManifestEntry>, entry: ManifestEntry)
    ensures Dedupe(cleaned + [entry]) == Put(Dedupe(cleaned), entry)
  {
    assert (cleaned + [entry])[..|cleaned|] == cleaned;
  }

  lemma NextManifest(front: seq<ManifestEntry>, last: ManifestEntry)
    requires StoredAs(front, Dedupe(Cleaned(front)))
    ensures StoredAs(front + [last], Dedupe(Cleaned(front + [last])))
  {
    var key := CleanedNext(front, last);
    var cleaned := Cleaned(front);
    HoldsNext(KeysOf(front), front, Dedupe(cleaned), key, last);
    if key == "" {
      assert cleaned + [] == cleaned;
    } else {
      DedupeNext(cleaned, last.(relativePath := key));
    }
  }

  /** What the creation of an upload computes is the manifest of the list. */
  lemma {:induction false} ManifestStored(files: seq<ManifestEntry>)
    ensures StoredAs(files, Dedupe(Cleaned(files)))
  {
    if files != [] {
      var front, last := files[..|files| - 1], files[|files| - 1];
      ManifestStored(front);
      NextManifest(front, last);
      assert front + [last] == files;
    }
  }

  /** A path is accepted exactly if it is not empty and some listed file goes by it. */
  lemma StoredExactly(files: seq<ManifestEntry>, manifest: seq<ManifestEntry>, path: string)
    requires StoredAs(files, manifest)
    ensures (exists k :: 0 <= k < |manifest| && manifest[k].relativePath == path) <==>
      path != "" && exists i :: 0 <= i < |files| && NormalizeRelativePath(files[i].relativePath) == path
  {
    var keys := KeysOf(files);
    if k :| 0 <= k < |manifest| && manifest[k].relativePath == path {
      StoredIsListed(keys, files, manifest, k);
      var i :| 0 <= i < |keys| && keys[i] == path;
      KeyAt(files, i);
    }
    if i :| 0 <= i < |files| && NormalizeRelativePath(files[i].relativePath) == path && path != "" {
      KeyAt(files, i);
      ListedIsStored(keys, files, manifest, i);
    }
  }

  predicate Nameless(files: seq<ManifestEntry>) {
    forall i :: 0 <= i < |files| ==> NormalizeRelativePath(files[i].relativePath) == ""
  }

  /** A manifest is empty exactly if no listed file has a name. */
  lemma EmptyExactly(files: seq<ManifestEntry>, manifest: seq<ManifestEntry>)
    requires StoredAs(files, manifest)
    ensures manifest == [] <==> Nameless(files)
  {
    if manifest != [] {
      StoredExactly(files, manifest, manifest[0].relativePath);
    }
    if i :| 0 <= i < |files| && NormalizeRelativePath(files[i].relativePath) != "" {
      StoredExactly(files, manifest, NormalizeRelativePath(files[i].relativePath));
    }
  }
}
