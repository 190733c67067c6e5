/** Relative paths and file lists of an upload (dashboard/app/files/filesystem-operations.ts,
    `normalizeRelativePath`, `dedupeUploadFiles`; server/src/main/kernel.js,
    `normalizeFsUploadRelativePath`; server/src/handlers/files-handlers.js, upload creation). */
module UploadManifest {
  import opened JsText
  import opened Options
  import opened FsJob

  function Slashed(s: string): string {
    seq(|s|, i requires 0 <= i < |s| => if s[i] == '\\' then '/' else s[i])
  }

  predicate IsName(segment: string) {
    segment != "" && segment != "." && segment != ".."
  }

  function Names(segments: seq<string>): (r: seq<string>)
    ensures forall i :: 0 <= i < |r| ==> IsName(r[i]) && r[i] in segments
  {
    if segments == [] then []
    else (if IsName(segments[0]) then [segments[0]] else []) + Names(segments[1..])
  }

  /** The client's and the server's normalization are the same. */
  function NormalizeRelativePath(value: string): string {
    Join(Names(Split(Slashed(value), '/')), "/")
  }

  lemma {:induction false} NamesOfNames(segments: seq<string>)
    requires forall i :: 0 <= i < |segments| ==> IsName(segments[i])
    ensures Names(segments) == segments
  {
    if segments != [] {
      NamesOfNames(segments[1..]);
    }
  }

  lemma {:induction false} SplitHasNoSeparator(s: string, c: char)
    ensures forall i :: 0 <= i < |Split(s, c)| ==> c !in Split(s, c)[i]
    ensures forall i, d :: 0 <= i < |Split(s, c)| && d in Split(s, c)[i] ==> d in s
    decreases |s|
  {
    if c in s {
      var k := IndexOfChar(s, c);
      var rest := s[k + 1..];
      SplitHasNoSeparator(rest, c);
      forall i, d | 0 <= i < |Split(s, c)| && d in Split(s, c)[i]
        ensures d in s
      {
        assert i > 0 ==> Split(s, c)[i] == Split(rest, c)[i - 1];
        assert d in rest ==> d in s;
      }
    }
  }

  lemma {:induction false} SplitJoin(parts: seq<string>)
    requires parts != [] && forall i :: 0 <= i < |parts| ==> '/' !in parts[i]
    ensures Split(Join(parts, "/"), '/') == parts
  {
    if |parts| > 1 {
      var rest := Join(parts[1..], "/");
      var s := parts[0] + "/" + rest;
      SplitJoin(parts[1..]);
      assert s[..|parts[0]|] == parts[0] && s[|parts[0]| + 1..] == rest;
      IndexOfCharIs(s, '/', |parts[0]|);
    }
  }

  lemma {:induction false} JoinHasNoBackslash(parts: seq<string>)
    requires forall i :: 0 <= i < |parts| ==> '\\' !in parts[i]
    ensures '\\' !in Join(parts, "/")
  {
    if |parts| > 1 {
      JoinHasNoBackslash(parts[1..]);
    }
  }

  /** A normalized path is left alone: the server may normalize again what the client has. */
  lemma NormalizeIdempotent(value: string)
    ensures NormalizeRelativePath(NormalizeRelativePath(value)) == NormalizeRelativePath(value)
  {
    var segments := Split(Slashed(value), '/');
    var names := Names(segments);
    var path := Join(names, "/");
    SplitHasNoSeparator(Slashed(value), '/');
    assert '\\' !in Slashed(value);
    assert forall i :: 0 <= i < |names| ==> '/' !in names[i] && '\\' !in names[i];
    JoinHasNoBackslash(names);
    assert Slashed(path) == path;
    NamesOfNames(names);
    if names != [] {
      SplitJoin(names);
    }
  }

  /** `map.set(entry.relativePath, entry)`: a known path keeps its place. */
  function Put(entries: seq<ManifestEntry>, entry: ManifestEntry): seq<ManifestEntry> {
    if entries == [] then [entry]
    else if entries[0].relativePath == entry.relativePath then [entry] + entries[1..]
    else [entries[0]] + Put(entries[1..], entry)
  }

  function Dedupe(files: seq<ManifestEntry>): seq<ManifestEntry> {
    if files == [] then [] else Put(Dedupe(files[..|files| - 1]), files[|files| - 1])
  }

  method DedupeUploadFiles(files: seq<ManifestEntry>) returns (byPath: seq<ManifestEntry>)
    ensures byPath == Dedupe(files)
  {
    byPath := [];
    for i := 0 to |files|
      invariant byPath == Dedupe(files[..i])
    {
      assert files[..i + 1][..i] == files[..i];
      byPath := Put(byPath, files[i]);
    }
    assert files[..|files|] == files;
  }

  predicate DistinctPaths(entries: seq<ManifestEntry>) {
    forall i, j :: 0 <= i < j < |entries| ==> entries[i].relativePath != entries[j].relativePath
  }

  /** The entry that the last one for its path left. */
  function LastFor(files: seq<ManifestEntry>, path: string): Option<ManifestEntry> {
    if files == [] then None
    else if files[|files| - 1].relativePath == path then Some(files[|files| - 1])
    else LastFor(files[..|files| - 1], path)
  }

  lemma {:induction false} PutKeepsDistinct(entries: seq<ManifestEntry>, entry: ManifestEntry)
    requires DistinctPaths(entries)
    ensures DistinctPaths(Put(entries, entry))
    ensures forall e :: e in Put(entries, entry) <==>
      e == entry || (e in entries && e.relativePath != entry.relativePath)
  {
    if entries != [] {
      var rest := entries[1..];
      assert entries == [entries[0]] + rest;
      PutKeepsDistinct(rest, entry);
    }
  }

  /** Each path once, with the last entry given for it. */
  lemma {:induction false} DedupeKeepsTheLast(files: seq<ManifestEntry>)
    ensures DistinctPaths(Dedupe(files))
    ensures forall e :: e in Dedupe(files) <==> LastFor(files, e.relativePath) == Some(e)
  {
    if files != [] {
      DedupeKeepsTheLast(files[..|files| - 1]);
      PutKeepsDistinct(Dedupe(files[..|files| - 1]), files[|files| - 1]);
    }
  }

  lemma {:induction false} PutNew(entries: seq<ManifestEntry>, entry: ManifestEntry)
    requires forall i :: 0 <= i < |entries| ==> entries[i].relativePath != entry.relativePath
    ensures Put(entries, entry) == entries + [entry]
  {
    if entries != [] {
      PutNew(entries[1..], entry);
    }
  }

  /** A list without repetitions is left alone, order included. */
  lemma {:induction false} DedupeIdempotent(files: seq<ManifestEntry>)
    requires DistinctPaths(files)
    ensures Dedupe(files) == files
  {
    if files != [] {
      DedupeIdempotent(files[..|files| - 1]);
      PutNew(files[..|files| - 1], files[|files| - 1]);
    }
  }

  /** The manifest as the server stores it: normalized, nameless entries left out, each path once. */
  function Cleaned(manifest: seq<ManifestEntry>): seq<ManifestEntry> {
    if manifest == [] then []
    else
      var last := manifest[|manifest| - 1];
      var path := NormalizeRelativePath(last.relativePath);
      Cleaned(manifest[..|manifest| - 1]) + if path == "" then [] else [last.(relativePath := path)]
  }
}
