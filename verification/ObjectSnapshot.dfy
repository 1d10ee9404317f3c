/**
 Capture of one object-store prefix into a local tree, and the check of a restored tree. A path is its text
 relative to the target; a digest is an injective wrapper around the bytes; the manifest file holds the
 manifest itself. A capture that fails removes the target, so it returns no tree.
 */
module ObjectSnapshot {
  import opened Wrappers
  import opened TextOrder
  import opened ObjectListing

  const MANIFEST_NAME: string := "S3_SOURCE_MANIFEST.json"

  datatype Digest = Sha256(of: seq<int>)
  datatype Record = Record(key: string, relativePath: string, versionId: string, size: int, sha256: Digest)
  datatype Manifest = Manifest(
    version: int, bucket: string, prefix: string, objectCount: int, totalBytes: int, objects: seq<Record>)
  datatype File = Data(content: seq<int>) | ManifestFile(manifest: Manifest)
  datatype Tree = Tree(files: map<string, File>, dirs: set<string>)
  datatype Snapshot = Snapshot(tree: Tree, records: seq<Record>, seen: set<string>, totalBytes: int)

  // ---------------------------------------------------------------- paths

  /** The parts of `s.split("/")`. */
  function Split(s: string): (parts: seq<string>)
    ensures parts != []
  {
    if s == "" then [""]
    else var rest := Split(s[1..]);
      if s[0] == '/' then [""] + rest else [[s[0]] + rest[0]] + rest[1..]
  }

  predicate SafeParts(s: string) {
    "" !in Split(s) && "." !in Split(s) && ".." !in Split(s)
  }

  predicate EndsWithSlash(s: string) {
    s != "" && s[|s| - 1] == '/'
  }

  predicate BucketChar(c: char) {
    'a' <= c <= 'z' || '0' <= c <= '9'
  }

  predicate SafeBucket(bucket: string) {
    && 3 <= |bucket| <= 63 && BucketChar(bucket[0]) && BucketChar(bucket[|bucket| - 1])
    && forall i :: 0 <= i < |bucket| ==> BucketChar(bucket[i]) || bucket[i] == '.' || bucket[i] == '-'
  }

  predicate SafePrefix(prefix: string) {
    EndsWithSlash(prefix) && prefix[0] != '/' && SafeParts(prefix[..|prefix| - 1])
  }

  /** `p` is one of the directories on the way from the target to `path`. */
  predicate IsParent(p: string, path: string) {
    |p| < |path| && path[..|p|] == p && path[|p|] == '/'
  }

  function Parents(path: string): (dirs: set<string>)
    ensures forall p :: p in dirs <==> IsParent(p, path)
  {
    set i | 0 <= i < |path| && path[i] == '/' :: path[..i]
  }

  // ---------------------------------------------------------------- capture

  function SafeRelativeKey(key: string, prefix: string): Result<Option<string>, string> {
    if !(prefix <= key) then Err("S3 source returned an object outside the reviewed prefix")
    else if key[|prefix|..] == "" then Ok(None)
    else if !SafeParts(key[|prefix|..]) then Err("S3 source contains an unsafe object key")
    else Ok(Some(key[|prefix|..]))
  }

  /** The pinned version and size that `head-object` reports, when it reports usable ones. */
  function Pinned(head: Head): Option<(string, int)> {
    if head.versionId.None? || head.versionId.value == "" || head.versionId.value == "null" then None
    else if head.contentLength.None? || head.contentLength.value < 0 then None
    else Some((head.versionId.value, head.contentLength.value))
  }

  /** One pass of the capture loop, branch by branch; the download goes through the `.part` file. */
  function Stored(s: Snapshot, listed: Listed, prefix: string, remote: Remote): Result<Snapshot, string> {
    if listed.Invalid? then Err("S3 source listing contains an invalid object")
    else if EndsWithSlash(listed.key) then
      if listed.size != 0 then Err("S3 source contains an invalid directory marker") else Ok(s)
    else match SafeRelativeKey(listed.key, prefix)
      case Err(e) => Err(e)
      case Ok(None) => Ok(s)
      case Ok(Some(relative)) =>
        if relative == MANIFEST_NAME then Err("S3 source object conflicts with the snapshot manifest")
        else if relative in s.seen then Err("S3 source listing contains duplicate object keys")
        else match Pinned(remote.head(listed.key))
          case None => Err("S3 source object lacks a pinned version or valid size")
          case Some(pin) => Downloaded(s.(seen := s.seen + {relative}), listed.key, relative, pin, remote)
  }

  function Downloaded(s: Snapshot, key: string, relative: string, pin: (string, int),
                      remote: Remote): Result<Snapshot, string> {
    if Parents(relative) * s.tree.files.Keys != {} then Err("S3 source object keys conflict with a file path")
    else
      var dirs := s.tree.dirs + Parents(relative);
      var partial := relative + ".part";
      var content := remote.download(key, pin.0);
      if partial in dirs || content.None? then Err("Unable to download a version-pinned S3 source object")
      else if |content.value| != pin.1 then Err("Downloaded S3 source object does not match its pinned size")
      else if relative in dirs then Err("Is a directory")
      else
        var files := s.tree.files[partial := Data(content.value)] - {partial};
        Ok(Snapshot(
             Tree(files[relative := Data(content.value)], dirs),
             s.records + [Record(key, relative, pin.0, pin.1, Sha256(content.value))],
             s.seen, s.totalBytes + pin.1))
  }

  function SortKey(o: Listed): string {
    if o.Invalid? then o.sortKey else o.key
  }

  function Inserted(o: Listed, s: seq<Listed>): seq<Listed> {
    if s == [] then [o]
    else if AtMost(SortKey(o), SortKey(s[0])) then [o] + s
    else [s[0]] + Inserted(o, s[1..])
  }

  /** `sorted(objects, key=...)`. */
  function Sorted(s: seq<Listed>): seq<Listed> {
    if s == [] then [] else Inserted(s[0], Sorted(s[1..]))
  }

  ghost predicate KeysAscend(s: seq<Listed>) {
    forall i, j :: 0 <= i < j < |s| ==> AtMost(SortKey(s[i]), SortKey(s[j]))
  }

  predicate Captured(o: Listed) {
    o.Object? && !EndsWithSlash(o.key)
  }

  function Relative(key: string, prefix: string): string {
    if prefix <= key then key[|prefix|..] else ""
  }

  /** How many captured objects have this key. */
  function KeyCount(s: seq<Listed>, key: string): nat {
    if s == [] then 0 else (if Captured(s[0]) && s[0].key == key then 1 else 0) + KeyCount(s[1..], key)
  }

  /** On its own, the object can be captured: a safe key, a pinned version, and the bytes it promises. */
  predicate Capturable(o: Listed, prefix: string, remote: Remote) {
    o.Object? &&
    if EndsWithSlash(o.key) then o.size == 0
    else
      && prefix <= o.key && SafeParts(Relative(o.key, prefix)) && Relative(o.key, prefix) != MANIFEST_NAME
      && Pinned(remote.head(o.key)).Some?
      && var pin := Pinned(remote.head(o.key)).value;
      remote.download(o.key, pin.0).Some? && |remote.download(o.key, pin.0).value| == pin.1
  }

  /** The bytes of the version that was current. */
  function Bytes(remote: Remote, key: string): seq<int> {
    match Pinned(remote.head(key))
    case None => []
    case Some(pin) => GetOr(remote.download(key, pin.0), [])
  }

  ghost predicate NoFileOverTree(objects: seq<Listed>, prefix: string) {
    forall a, b :: a in objects && b in objects && Captured(a) && Captured(b) ==>
      !IsParent(Relative(a.key, prefix), Relative(b.key, prefix))
  }

  /** What a capture needs of a listing, whatever its order. */
  ghost predicate Consistent(objects: seq<Listed>, prefix: string, remote: Remote) {
    && (forall o :: o in objects ==> Capturable(o, prefix, remote))
    && (forall key :: KeyCount(objects, key) <= 1)
    && NoFileOverTree(objects, prefix)
  }

  ghost predicate ManifestFree(objects: seq<Listed>, prefix: string) {
    forall o :: o in objects && Captured(o) ==> !IsParent(MANIFEST_NAME, Relative(o.key, prefix))
  }

  function Paths(objects: seq<Listed>, prefix: string): set<string> {
    set o | o in objects && Captured(o) :: Relative(o.key, prefix)
  }

  function RecordOf(o: Listed, prefix: string, remote: Remote): Record
    requires Captured(o)
  {
    Record(o.key, Relative(o.key, prefix), GetOr(remote.head(o.key).versionId, ""), |Bytes(remote, o.key)|,
           Sha256(Bytes(remote, o.key)))
  }

  function RecordsOf(objects: seq<Listed>, prefix: string, remote: Remote): seq<Record> {
    if objects == [] then []
    else RecordsOf(objects[..|objects| - 1], prefix, remote)
         + (if Captured(objects[|objects| - 1]) then [RecordOf(objects[|objects| - 1], prefix, remote)] else [])
  }

  function SumSizes(records: seq<Record>): int {
    if records == [] then 0 else SumSizes(records[..|records| - 1]) + records[|records| - 1].size
  }

  ghost predicate DirsFor(dirs: set<string>, paths: set<string>) {
    forall d :: d in dirs <==> exists p :: p in paths && IsParent(d, p)
  }

  /** The tree has the bytes of every captured object at its relative key. */
  ghost predicate Holding(tree: Tree, objects: seq<Listed>, prefix: string, remote: Remote) {
    forall o :: o in objects && Captured(o) ==>
      Relative(o.key, prefix) in tree.files && tree.files[Relative(o.key, prefix)] == Data(Bytes(remote, o.key))
  }

  /** `s` is what capturing exactly `done` leaves: no `.part` file, nothing overwritten. */
  ghost predicate Describes(s: Snapshot, done: seq<Listed>, prefix: string, remote: Remote) {
    && s.tree.files.Keys == s.seen == Paths(done, prefix)
    && Holding(s.tree, done, prefix, remote)
    && DirsFor(s.tree.dirs, Paths(done, prefix))
    && s.records == RecordsOf(done, prefix, remote)
    && s.totalBytes == SumSizes(s.records)
  }

  /** A key that contains another as a path prefix, or as the start of its `.part` name, sorts after it. */
  lemma {:induction false} LaterKeys(a: string, b: string, prefix: string)
    requires prefix <= a && prefix <= b && AtMost(a, b)
    ensures !IsParent(Relative(b, prefix), Relative(a, prefix))
    ensures Relative(a, prefix) != Relative(b, prefix) + ".part"
    ensures !IsParent(Relative(b, prefix) + ".part", Relative(a, prefix))
  {
    hide AtMost;
    var ra, rb := Relative(a, prefix), Relative(b, prefix);
    assert a == prefix + ra && b == prefix + rb;
    if IsParent(rb, ra) || ra == rb + ".part" || IsParent(rb + ".part", ra) {
      assert rb < ra;
      assert ra == rb + ra[|rb|..];
      assert a == b + ra[|rb|..];
      PrefixFirst(b, a);
    }
  }

  ghost predicate SortedAfter(done: seq<Listed>, x: Listed) {
    forall o :: o in done ==> AtMost(SortKey(o), SortKey(x))
  }

  /** `x` can follow what was captured. */
  ghost predicate Fits(done: seq<Listed>, x: Listed, prefix: string, remote: Remote) {
    && Capturable(x, prefix, remote)
    && (Captured(x) ==>
          && Relative(x.key, prefix) !in Paths(done, prefix)
          && forall p :: p in Paths(done, prefix) ==> !IsParent(p, Relative(x.key, prefix)))
  }

  /** In sorted order neither the `.part` file nor the destination of `x` is in the tree yet. */
  lemma NothingInTheWay(s: Snapshot, done: seq<Listed>, x: Listed, prefix: string, remote: Remote)
    requires Describes(s, done, prefix, remote) && SortedAfter(done, x) && Captured(x) && prefix <= x.key
    requires forall o :: o in done ==> Capturable(o, prefix, remote)
    ensures var r := Relative(x.key, prefix);
      r !in s.tree.dirs && r + ".part" !in s.tree.dirs && r + ".part" !in s.tree.files
  {
    forall o | o in done && Captured(o)
      ensures !IsParent(Relative(x.key, prefix), Relative(o.key, prefix))
      ensures Relative(o.key, prefix) != Relative(x.key, prefix) + ".part"
      ensures !IsParent(Relative(x.key, prefix) + ".part", Relative(o.key, prefix))
    {
      LaterKeys(o.key, x.key, prefix);
    }
  }

  /** A listing entry that is skipped changes nothing. */
  lemma SkippedDescribes(s: Snapshot, done: seq<Listed>, x: Listed, prefix: string, remote: Remote)
    requires Describes(s, done, prefix, remote) && !Captured(x)
    ensures Describes(s, done + [x], prefix, remote)
  {
  }

  /** The tree that results when nothing is in the way: `x` and its directories are added. */
  function WithObject(s: Snapshot, x: Listed, prefix: string, remote: Remote): Snapshot
    requires Captured(x)
  {
    var r := Relative(x.key, prefix);
    var record := RecordOf(x, prefix, remote);
    Snapshot(Tree(s.tree.files[r := Data(Bytes(remote, x.key))], s.tree.dirs + Parents(r)),
             s.records + [record], s.seen + {r}, s.totalBytes + record.size)
  }

  lemma WithObjectDescribes(s: Snapshot, done: seq<Listed>, x: Listed, prefix: string, remote: Remote)
    requires Describes(s, done, prefix, remote) && Captured(x) && Relative(x.key, prefix) !in s.seen
    ensures Describes(WithObject(s, x, prefix, remote), done + [x], prefix, remote)
  {
    hide EndsWithSlash, IsParent, Bytes, Relative, DirsFor, Holding, Paths;
    var more, r := done + [x], Relative(x.key, prefix);
    var s' := WithObject(s, x, prefix, remote);
    assert more[..|done|] == done && s'.records[..|s.records|] == s.records;
    PathsAdd(done, x, prefix);
    assert s'.tree.files.Keys == s.tree.files.Keys + {r};
    HoldingMore(s.tree, done, x, prefix, remote, s'.tree.dirs);
    DirsGrow(s.tree.dirs, Paths(done, prefix), r);
  }

  lemma HoldingMore(tree: Tree, done: seq<Listed>, x: Listed, prefix: string, remote: Remote, dirs: set<string>)
    requires Holding(tree, done, prefix, remote) && Captured(x) && Relative(x.key, prefix) !in Paths(done, prefix)
    ensures Holding(Tree(tree.files[Relative(x.key, prefix) := Data(Bytes(remote, x.key))], dirs), done + [x],
                    prefix, remote)
  {
    hide EndsWithSlash, Relative, Bytes;
    forall o | o in done + [x] ensures o in done || o == x {}
    forall o | o in done && Captured(o) ensures Relative(o.key, prefix) in Paths(done, prefix) {}
  }

  lemma DirsGrow(dirs: set<string>, paths: set<string>, r: string)
    requires DirsFor(dirs, paths)
    ensures DirsFor(dirs + Parents(r), paths + {r})
  {
  }

  lemma PathsOfSnapshot(s: Snapshot, done: seq<Listed>, prefix: string, remote: Remote)
    requires Describes(s, done, prefix, remote)
    ensures s.tree.files.Keys == s.seen == Paths(done, prefix)
  {
  }

  lemma NoCommonElement<T>(a: set<T>, b: set<T>)
    ensures a * b == {} <==> forall p :: p in b ==> p !in a
  {
    assert forall p :: p in a * b <==> p in a && p in b;
  }

  lemma PartIsNoParent(r: string)
    ensures r !in Parents(r) && r + ".part" !in Parents(r)
  {
  }

  lemma PinOf(remote: Remote, key: string)
    requires Pinned(remote.head(key)).Some?
    ensures var pin := Pinned(remote.head(key)).value;
      pin == (GetOr(remote.head(key).versionId, ""), pin.1)
        && Bytes(remote, key) == GetOr(remote.download(key, pin.0), [])
  {
  }

  /** With nothing in the way, the download leaves no `.part` file and overwrites nothing. */
  lemma DownloadedAdds(s: Snapshot, x: Listed, prefix: string, remote: Remote)
    requires Captured(x) && Pinned(remote.head(x.key)).Some?
    requires var r := Relative(x.key, prefix);
      r !in s.tree.files && r !in s.tree.dirs && r + ".part" !in s.tree.dirs && r + ".part" !in s.tree.files
    ensures var r := Relative(x.key, prefix); var pin := Pinned(remote.head(x.key)).value;
      var d := Downloaded(s.(seen := s.seen + {r}), x.key, r, pin, remote);
      && (d.Ok? <==>
            && (forall p :: p in s.tree.files ==> !IsParent(p, r))
            && remote.download(x.key, pin.0).Some? && |remote.download(x.key, pin.0).value| == pin.1)
      && (d.Ok? ==> d.value == WithObject(s, x, prefix, remote))
  {
    hide EndsWithSlash, IsParent, Pinned, Bytes, Relative;
    var r, content := Relative(x.key, prefix), Bytes(remote, x.key);
    PartIsNoParent(r);
    PinOf(remote, x.key);
    NoCommonElement(Parents(r), s.tree.files.Keys);
    assert (s.tree.files[r + ".part" := Data(content)] - {r + ".part"}) == s.tree.files;
  }

  /** One pass succeeds exactly when the object fits, and then the tree gains exactly that object. */
  lemma StoredFits(s: Snapshot, done: seq<Listed>, x: Listed, prefix: string, remote: Remote)
    requires Describes(s, done, prefix, remote) && SortedAfter(done, x)
    requires forall o :: o in done ==> Capturable(o, prefix, remote)
    requires EndsWithSlash(prefix)
    ensures Stored(s, x, prefix, remote).Ok? <==> Fits(done, x, prefix, remote)
    ensures Stored(s, x, prefix, remote).Ok? ==>
              Stored(s, x, prefix, remote).value == if Captured(x) then WithObject(s, x, prefix, remote) else s
  {
    hide Describes, SafeParts, IsParent, SortedAfter, Pinned, Paths, WithObject, Downloaded;
    if Captured(x) && prefix <= x.key {
      NothingInTheWay(s, done, x, prefix, remote);
      PathsOfSnapshot(s, done, prefix, remote);
      assert Relative(x.key, prefix) != "";
      if Pinned(remote.head(x.key)).Some? && Relative(x.key, prefix) !in s.seen {
        DownloadedAdds(s, x, prefix, remote);
      }
    }
  }

  // ---------------------------------------------------------------- order does not matter

  lemma {:induction false} InsertedKeeps(o: Listed, s: seq<Listed>, key: string)
    ensures forall x :: x in Inserted(o, s) <==> x == o || x in s
    ensures KeyCount(Inserted(o, s), key) == KeyCount([o] + s, key)
    ensures |Inserted(o, s)| == |s| + 1
  {
    assert ([o] + s)[1..] == s;
    if s != [] && !AtMost(SortKey(o), SortKey(s[0])) {
      InsertedKeeps(o, s[1..], key);
      assert ([o] + s[1..])[1..] == s[1..];
      assert Inserted(o, s)[1..] == Inserted(o, s[1..]);
      assert s == [s[0]] + s[1..];
    }
  }

  lemma {:induction false} InsertedAscends(o: Listed, s: seq<Listed>)
    requires KeysAscend(s)
    ensures KeysAscend(Inserted(o, s))
  {
    if s != [] {
      if AtMost(SortKey(o), SortKey(s[0])) {
        forall i | 0 <= i < |s| ensures AtMost(SortKey(o), SortKey(s[i])) {
          if i > 0 { Transitive(SortKey(o), SortKey(s[0]), SortKey(s[i])); }
        }
      } else {
        Total(SortKey(o), SortKey(s[0]));
        InsertedAscends(o, s[1..]);
        InsertedKeeps(o, s[1..], "");
        forall x | x in Inserted(o, s[1..]) ensures AtMost(SortKey(s[0]), SortKey(x)) { }
      }
    }
  }

  /** Sorting reorders the listing and nothing else. */
  lemma {:induction false} SortedKeeps(s: seq<Listed>, key: string)
    ensures KeysAscend(Sorted(s)) && forall x :: x in Sorted(s) <==> x in s
    ensures KeyCount(Sorted(s), key) == KeyCount(s, key)
  {
    if s != [] {
      SortedKeeps(s[1..], key);
      InsertedAscends(s[0], Sorted(s[1..]));
      InsertedKeeps(s[0], Sorted(s[1..]), key);
      assert ([s[0]] + Sorted(s[1..]))[1..] == Sorted(s[1..]);
      assert s == [s[0]] + s[1..];
    }
  }

  lemma SortedConsistent(s: seq<Listed>, prefix: string, remote: Remote)
    ensures KeysAscend(Sorted(s)) && Paths(Sorted(s), prefix) == Paths(s, prefix)
    ensures Consistent(Sorted(s), prefix, remote) <==> Consistent(s, prefix, remote)
    ensures ManifestFree(Sorted(s), prefix) <==> ManifestFree(s, prefix)
  {
    hide Capturable, Captured, Sorted, KeysAscend, KeyCount, IsParent, Relative;
    forall key ensures KeyCount(Sorted(s), key) == KeyCount(s, key) && KeysAscend(Sorted(s)) {
      SortedKeeps(s, key);
    }
    SortedKeeps(s, "");
  }

  lemma {:induction false} KeyCountAdds(a: seq<Listed>, b: seq<Listed>, key: string)
    ensures KeyCount(a + b, key) == KeyCount(a, key) + KeyCount(b, key)
  {
    if a == [] { assert a + b == b; } else {
      KeyCountAdds(a[1..], b, key);
      assert (a + b)[1..] == a[1..] + b;
    }
  }

  lemma {:induction false} KeyCountIff(s: seq<Listed>, key: string)
    ensures KeyCount(s, key) > 0 <==> exists o :: o in s && Captured(o) && o.key == key
  {
    if s != [] {
      KeyCountIff(s[1..], key);
      assert s == [s[0]] + s[1..];
    }
  }

  lemma ConsistentPrefix(s: seq<Listed>, k: nat, prefix: string, remote: Remote)
    requires k <= |s| && Consistent(s, prefix, remote)
    ensures Consistent(s[..k], prefix, remote)
  {
    hide Capturable, Captured, IsParent, Relative;
    assert s == s[..k] + s[k..];
    forall key ensures KeyCount(s[..k], key) <= 1 { KeyCountAdds(s[..k], s[k..], key); }
  }

  /** In sorted order, a consistent beginning goes on being consistent exactly when the next object fits. */
  lemma ConsistentGrows(done: seq<Listed>, x: Listed, prefix: string, remote: Remote)
    requires Consistent(done, prefix, remote) && SortedAfter(done, x)
    ensures Consistent(done + [x], prefix, remote) <==> Fits(done, x, prefix, remote)
  {
    var more := done + [x];
    assert x in more;
    forall key
      ensures KeyCount(more, key) == KeyCount(done, key) + (if Captured(x) && x.key == key then 1 else 0)
    {
      KeyCountAdds(done, [x], key);
    }
    if Captured(x) && Capturable(x, prefix, remote) {
      KeyCountIff(done, x.key);
      assert Relative(x.key, prefix) in Paths(done, prefix) <==> KeyCount(done, x.key) > 0 by {
        SameRelative(done, x.key, prefix, remote);
      }
      forall o | o in done && Captured(o) ensures !IsParent(Relative(x.key, prefix), Relative(o.key, prefix)) {
        LaterKeys(o.key, x.key, prefix);
      }
    }
  }

  lemma SameRelative(done: seq<Listed>, key: string, prefix: string, remote: Remote)
    requires prefix <= key && forall o :: o in done ==> Capturable(o, prefix, remote)
    ensures Relative(key, prefix) in Paths(done, prefix) <==> exists o :: o in done && Captured(o) && o.key == key
  {
  }

  // ---------------------------------------------------------------- verify

  predicate RecordMatches(tree: Tree, prefix: string, record: Record) {
    && SafeParts(record.relativePath) && record.key == prefix + record.relativePath
    && record.versionId != "" && record.size >= 0 && record.relativePath != MANIFEST_NAME
    && record.relativePath in tree.files && tree.files[record.relativePath].Data?
    && |tree.files[record.relativePath].content| == record.size
    && Sha256(tree.files[record.relativePath].content) == record.sha256
  }

  function RecordPaths(records: seq<Record>): set<string> {
    set i | 0 <= i < |records| :: records[i].relativePath
  }

  ghost predicate DistinctRecords(records: seq<Record>) {
    forall i, j :: 0 <= i < j < |records| ==> records[i].relativePath != records[j].relativePath
  }

  predicate Readable(tree: Tree) {
    && MANIFEST_NAME in tree.files && tree.files[MANIFEST_NAME].ManifestFile?
    && var m := tree.files[MANIFEST_NAME].manifest;
    m.version == 1 && SafeBucket(m.bucket) && SafePrefix(m.prefix)
  }

  /** The tree is the manifest and exactly the files it records, each once and with its size and digest. */
  ghost predicate Accepts(tree: Tree) {
    && Readable(tree)
    && var m := tree.files[MANIFEST_NAME].manifest;
    && (forall i :: 0 <= i < |m.objects| ==> RecordMatches(tree, m.prefix, m.objects[i]))
    && DistinctRecords(m.objects)
    && tree.files.Keys == {MANIFEST_NAME} + RecordPaths(m.objects)
    && m.objectCount == |m.objects| && m.totalBytes == SumSizes(m.objects)
  }

  lemma PathsGrow(records: seq<Record>, i: nat)
    requires i < |records|
    ensures RecordPaths(records[..i + 1]) == RecordPaths(records[..i]) + {records[i].relativePath}
    ensures SumSizes(records[..i + 1]) == SumSizes(records[..i]) + records[i].size
    ensures DistinctRecords(records[..i]) ==>
              (DistinctRecords(records[..i + 1]) <==> records[i].relativePath !in RecordPaths(records[..i]))
  {
    var more := records[..i + 1];
    assert more[..i] == records[..i] && more[i] == records[i];
    forall p | p in RecordPaths(records[..i]) ensures p in RecordPaths(more) {
      var k :| 0 <= k < i && records[..i][k].relativePath == p;
      assert more[k].relativePath == p;
    }
  }

  /** `verify_tree`. */
  method VerifyTree(tree: Tree) returns (r: Result<(int, int), string>)
    ensures r.Ok? <==> Accepts(tree)
    ensures r.Ok? ==> var m := tree.files[MANIFEST_NAME].manifest; r.value == (|m.objects|, SumSizes(m.objects))
  {
    hide SafeParts, SafePrefix, SafeBucket, RecordMatches, RecordPaths, DistinctRecords, SumSizes;
    if !Readable(tree) { return Err("S3 source restore manifest shape is invalid"); }
    var m := tree.files[MANIFEST_NAME].manifest;
    var expected := {MANIFEST_NAME};
    var totalBytes := 0;
    NoRecordsYet();
    for i := 0 to |m.objects|
      invariant forall k :: 0 <= k < i ==> RecordMatches(tree, m.prefix, m.objects[k])
      invariant expected == {MANIFEST_NAME} + RecordPaths(m.objects[..i])
      invariant totalBytes == SumSizes(m.objects[..i])
      invariant DistinctRecords(m.objects[..i])
    {
      var record := m.objects[i];
      PathsGrow(m.objects, i);
      if DistinctRecords(m.objects) { DistinctStart(m.objects, i + 1); }
      if !RecordMatches(tree, m.prefix, record) || record.relativePath in expected {
        NotTheManifest(tree, m.prefix, record);
        return Err("S3 source restored object does not match its manifest");
      }
      expected := expected + {record.relativePath};
      totalBytes := totalBytes + record.size;
    }
    assert m.objects[..|m.objects|] == m.objects;
    if tree.files.Keys != expected { return Err("S3 source restore contains untracked or missing files"); }
    if m.objectCount != |m.objects| || m.totalBytes != totalBytes {
      return Err("S3 source restore summary does not match its records");
    }
    r := Ok((|m.objects|, totalBytes));
  }

  lemma NoRecordsYet()
    ensures RecordPaths([]) == {} && DistinctRecords([]) && SumSizes([]) == 0
  {
  }

  lemma DistinctStart(records: seq<Record>, n: nat)
    requires n <= |records| && DistinctRecords(records)
    ensures DistinctRecords(records[..n])
  {
  }

  lemma NotTheManifest(tree: Tree, prefix: string, record: Record)
    ensures RecordMatches(tree, prefix, record) ==> record.relativePath != MANIFEST_NAME
  {
  }

  /** An accepted tree is determined by its manifest: no other accepted tree holds the same one. */
  lemma ManifestPinsTree(a: Tree, b: Tree)
    requires Accepts(a) && Accepts(b) && a.files[MANIFEST_NAME] == b.files[MANIFEST_NAME]
    ensures a.files == b.files
  {
    hide SafeParts, SafePrefix, SafeBucket, SumSizes;
    var m := a.files[MANIFEST_NAME].manifest;
    forall p | p in a.files && p != MANIFEST_NAME ensures a.files[p] == b.files[p] {
      var i :| 0 <= i < |m.objects| && m.objects[i].relativePath == p;
      assert RecordMatches(a, m.prefix, m.objects[i]) && RecordMatches(b, m.prefix, m.objects[i]);
    }
  }

  // ---------------------------------------------------------------- the whole capture

  /** The records of consistent objects list each captured path once and match the tree that holds them. */
  lemma {:induction false} RecordsMatch(tree: Tree, objects: seq<Listed>, prefix: string, remote: Remote)
    requires Consistent(objects, prefix, remote) && Holding(tree, objects, prefix, remote)
    ensures var records := RecordsOf(objects, prefix, remote);
      && (forall i :: 0 <= i < |records| ==> RecordMatches(tree, prefix, records[i]))
      && RecordPaths(records) == Paths(objects, prefix) && DistinctRecords(records)
  {
    hide Consistent, Holding, RecordMatches, Paths, RecordPaths, DistinctRecords, RecordOf, Captured;
    if objects == [] {
      NoRecords(prefix);
    } else {
      var n := |objects| - 1;
      var x, rest := objects[n], objects[..n];
      assert objects == rest + [x];
      ConsistentPrefix(objects, n, prefix, remote);
      HoldingPrefix(tree, rest, x, prefix, remote);
      RecordsMatch(tree, rest, prefix, remote);
      PathsAdd(rest, x, prefix);
      if Captured(x) {
        NewPath(rest, x, prefix, remote);
        RecordFits(tree, rest, x, prefix, remote);
        AppendRecord(RecordsOf(rest, prefix, remote), RecordOf(x, prefix, remote));
      } else {
        assert RecordsOf(objects, prefix, remote) == RecordsOf(rest, prefix, remote);
      }
    }
  }

  lemma NoRecords(prefix: string)
    ensures RecordPaths([]) == Paths([], prefix) && DistinctRecords([])
  {
  }

  lemma HoldingPrefix(tree: Tree, rest: seq<Listed>, x: Listed, prefix: string, remote: Remote)
    requires Holding(tree, rest + [x], prefix, remote)
    ensures Holding(tree, rest, prefix, remote)
  {
    forall o | o in rest ensures o in rest + [x] {}
  }

  lemma PathsAdd(rest: seq<Listed>, x: Listed, prefix: string)
    ensures Paths(rest + [x], prefix) == Paths(rest, prefix) + if Captured(x) then {Relative(x.key, prefix)} else {}
  {
    hide Captured, Relative;
    forall o ensures o in rest + [x] <==> o in rest || o == x {}
  }

  /** The relative key of a captured object of a consistent listing is new. */
  lemma NewPath(rest: seq<Listed>, x: Listed, prefix: string, remote: Remote)
    requires Consistent(rest + [x], prefix, remote) && Captured(x)
    ensures Relative(x.key, prefix) !in Paths(rest, prefix)
  {
    KeyCountAdds(rest, [x], x.key);
    KeyCountIff(rest, x.key);
    KeyCountIff([x], x.key);
    hide KeyCount, NoFileOverTree, SafeParts, Bytes;
    assert x in rest + [x];
    forall o | o in rest ensures Capturable(o, prefix, remote) { assert o in rest + [x]; }
    SameRelative(rest, x.key, prefix, remote);
  }

  lemma RecordFits(tree: Tree, rest: seq<Listed>, x: Listed, prefix: string, remote: Remote)
    requires Consistent(rest + [x], prefix, remote) && Holding(tree, rest + [x], prefix, remote) && Captured(x)
    ensures RecordMatches(tree, prefix, RecordOf(x, prefix, remote))
    ensures RecordOf(x, prefix, remote).relativePath == Relative(x.key, prefix)
  {
    hide KeyCount, NoFileOverTree, SafeParts;
    assert x in rest + [x];
  }

  lemma AppendRecord(records: seq<Record>, r: Record)
    requires DistinctRecords(records) && r.relativePath !in RecordPaths(records)
    ensures DistinctRecords(records + [r]) && RecordPaths(records + [r]) == RecordPaths(records) + {r.relativePath}
  {
    var more := records + [r];
    assert more[..|records|] == records && more[..|more|] == more;
    PathsGrow(more, |records|);
  }

  /** What a capture of `objects` leaves at the target: their files, the directories they need, the manifest. */
  ghost predicate Materialized(tree: Tree, objects: seq<Listed>, bucket: string, prefix: string, remote: Remote) {
    var records := RecordsOf(Sorted(objects), prefix, remote);
    && tree.files.Keys == Paths(objects, prefix) + {MANIFEST_NAME} && MANIFEST_NAME !in Paths(objects, prefix)
    && Holding(tree, objects, prefix, remote)
    && tree.files[MANIFEST_NAME]
       == ManifestFile(Manifest(1, bucket, prefix, |records|, SumSizes(records), records))
    && DirsFor(tree.dirs, Paths(objects, prefix))
  }

  lemma HoldingSorted(tree: Tree, objects: seq<Listed>, prefix: string, remote: Remote)
    ensures Holding(tree, Sorted(objects), prefix, remote) <==> Holding(tree, objects, prefix, remote)
  {
    hide Sorted, Captured, Relative, Bytes;
    SortedKeeps(objects, "");
  }

  /** A materialized tree passes `verify_tree`. */
  lemma MaterializedAccepted(tree: Tree, objects: seq<Listed>, bucket: string, prefix: string, remote: Remote)
    requires Consistent(objects, prefix, remote) && SafeBucket(bucket) && SafePrefix(prefix)
    requires Materialized(tree, objects, bucket, prefix, remote)
    ensures Accepts(tree)
  {
    hide Consistent, SafePrefix, SafeBucket, DirsFor, RecordMatches, KeysAscend, Sorted, Holding, RecordsOf, Paths;
    hide RecordPaths, DistinctRecords, SumSizes, ManifestFree;
    SortedConsistent(objects, prefix, remote);
    HoldingSorted(tree, objects, prefix, remote);
    RecordsMatch(tree, Sorted(objects), prefix, remote);
  }

  /** The loop over the sorted listing: it succeeds exactly on consistent objects and captures all of them. */
  method StoreAll(objects: seq<Listed>, prefix: string, remote: Remote) returns (r: Result<Snapshot, string>)
    requires EndsWithSlash(prefix)
    ensures r.Ok? <==> Consistent(objects, prefix, remote)
    ensures r.Ok? ==> Describes(r.value, Sorted(objects), prefix, remote)
  {
    hide Stored, Describes, Consistent, Sorted, KeysAscend, SortedAfter, ManifestFree, Paths;
    var sorted := Sorted(objects);
    SortedConsistent(objects, prefix, remote);
    var s := Snapshot(Tree(map[], {}), [], {}, 0);
    EmptyDescribes(prefix, remote);
    for i := 0 to |sorted|
      invariant Describes(s, sorted[..i], prefix, remote) && Consistent(sorted[..i], prefix, remote)
    {
      var x := sorted[i];
      assert sorted[..i + 1] == sorted[..i] + [x];
      AfterEarlier(sorted, i);
      StepOutcome(s, sorted[..i], x, prefix, remote);
      var stored := Stored(s, x, prefix, remote);
      if stored.Err? {
        if Consistent(sorted, prefix, remote) { ConsistentPrefix(sorted, i + 1, prefix, remote); }
        return Err(stored.error);
      }
      s := stored.value;
    }
    assert sorted[..|sorted|] == sorted;
    r := Ok(s);
  }

  lemma AfterEarlier(sorted: seq<Listed>, i: nat)
    requires KeysAscend(sorted) && i < |sorted|
    ensures SortedAfter(sorted[..i], sorted[i])
  {
  }

  lemma EmptyDescribes(prefix: string, remote: Remote)
    ensures Describes(Snapshot(Tree(map[], {}), [], {}, 0), [], prefix, remote) && Consistent([], prefix, remote)
  {
  }

  lemma StepOutcome(s: Snapshot, done: seq<Listed>, x: Listed, prefix: string, remote: Remote)
    requires Describes(s, done, prefix, remote) && Consistent(done, prefix, remote) && SortedAfter(done, x)
    requires EndsWithSlash(prefix)
    ensures Stored(s, x, prefix, remote).Ok? <==> Consistent(done + [x], prefix, remote)
    ensures Stored(s, x, prefix, remote).Ok? ==>
        Describes(Stored(s, x, prefix, remote).value, done + [x], prefix, remote)
  {
    hide Stored, Describes, WithObject, Capturable, NoFileOverTree, KeyCount, SortedAfter;
    StoredFits(s, done, x, prefix, remote);
    ConsistentGrows(done, x, prefix, remote);
    if Stored(s, x, prefix, remote).Ok? {
      if Captured(x) {
        PathsOfSnapshot(s, done, prefix, remote);
        WithObjectDescribes(s, done, x, prefix, remote);
      } else {
        SkippedDescribes(s, done, x, prefix, remote);
      }
    }
  }

  /** A complete listing whose objects can be captured together. */
  ghost predicate Capturing(tokens: seq<string>, objects: seq<Listed>, prefix: string, remote: Remote) {
    Lists(remote, tokens, objects) && Consistent(objects, prefix, remote) && ManifestFree(objects, prefix)
  }

  /**
   `capture`. It succeeds exactly when the store offers a complete listing whose objects are consistent and
   leave the manifest's name free, whatever order they were listed in; and then the target holds their
   bytes and the manifest, nothing else, and passes the check of a restored tree.
   */
  method Capture(bucket: string, prefix: string, targetExists: bool, versioning: Option<string>, remote: Remote)
    returns (r: Result<Tree, string>)
    ensures r.Ok? <==>
              && SafeBucket(bucket) && SafePrefix(prefix) && !targetExists && versioning == Some("Enabled")
              && exists tokens, objects :: Capturing(tokens, objects, prefix, remote)
    ensures r.Ok? ==> Accepts(r.value)
    ensures r.Ok? ==> exists tokens, objects ::
                Lists(remote, tokens, objects) && Materialized(r.value, objects, bucket, prefix, remote)
  {
    hide SafeParts, Lists, CompleteListing, Consistent, Describes, ManifestFree, Sorted, Materialized, Accepts;
    if !SafeBucket(bucket) { return Err("S3 source bucket name is invalid"); }
    if !SafePrefix(prefix) { return Err("S3 source prefix is unsafe"); }
    if targetExists { return Err("S3 source snapshot target already exists"); }
    if versioning != Some("Enabled") { return Err("S3 source bucket versioning is not enabled"); }
    var listing := ListObjects(remote);
    if listing.Err? {
      ListedIsComplete(remote);
      return Err(listing.error);
    }
    var objects := listing.value;
    ghost var tokens :| Lists(remote, tokens, objects);
    OneListing(remote, tokens, objects);
    ListedIsComplete(remote);
    var stored := StoreAll(objects, prefix, remote);
    if stored.Err? { return Err(stored.error); }
    var s := stored.value;
    ManifestPlace(s, objects, prefix, remote);
    if MANIFEST_NAME in s.tree.dirs { return Err("Is a directory"); }
    var manifest := Manifest(1, bucket, prefix, |s.records|, s.totalBytes, s.records);
    var tree := s.tree.(files := s.tree.files[MANIFEST_NAME := ManifestFile(manifest)]);
    CompletedMaterialized(s, objects, bucket, prefix, remote);
    MaterializedAccepted(tree, objects, bucket, prefix, remote);
    assert Capturing(tokens, objects, prefix, remote);
    r := Ok(tree);
  }

  lemma ListedIsComplete(remote: Remote)
    ensures forall tokens, objects :: Lists(remote, tokens, objects) ==> CompleteListing(remote, tokens)
    ensures forall tokens, a, b :: Lists(remote, tokens, a) && Lists(remote, tokens, b) ==> a == b
  {
  }

  lemma ManifestPlace(s: Snapshot, objects: seq<Listed>, prefix: string, remote: Remote)
    requires Describes(s, Sorted(objects), prefix, remote)
    ensures MANIFEST_NAME in s.tree.dirs <==> !ManifestFree(objects, prefix)
  {
    hide Sorted, IsParent, Captured, KeysAscend;
    SortedConsistent(objects, prefix, remote);
    assert ManifestFree(objects, prefix) <==> forall p :: p in Paths(objects, prefix) ==> !IsParent(MANIFEST_NAME, p);
  }

  lemma CompletedMaterialized(s: Snapshot, objects: seq<Listed>, bucket: string, prefix: string, remote: Remote)
    requires Describes(s, Sorted(objects), prefix, remote) && Consistent(objects, prefix, remote)
    ensures var m := ManifestFile(Manifest(1, bucket, prefix, |s.records|, s.totalBytes, s.records));
      Materialized(s.tree.(files := s.tree.files[MANIFEST_NAME := m]), objects, bucket, prefix, remote)
  {
    hide Sorted, KeysAscend, RecordsOf, SumSizes, Holding, Consistent, DirsFor, Paths, ManifestFree;
    var m := ManifestFile(Manifest(1, bucket, prefix, |s.records|, s.totalBytes, s.records));
    SortedConsistent(objects, prefix, remote);
    HoldingSorted(s.tree, objects, prefix, remote);
    ManifestNotCaptured(objects, prefix, remote);
    ManifestKeepsHeld(s.tree, objects, prefix, remote, m);
    assert s.tree.files[MANIFEST_NAME := m].Keys == s.tree.files.Keys + {MANIFEST_NAME};
  }

  lemma ManifestNotCaptured(objects: seq<Listed>, prefix: string, remote: Remote)
    requires Consistent(objects, prefix, remote)
    ensures MANIFEST_NAME !in Paths(objects, prefix)
  {
    hide KeyCount, NoFileOverTree, SafeParts, Relative;
  }

  lemma ManifestKeepsHeld(tree: Tree, objects: seq<Listed>, prefix: string, remote: Remote, m: File)
    requires Holding(tree, objects, prefix, remote) && MANIFEST_NAME !in Paths(objects, prefix)
    ensures Holding(tree.(files := tree.files[MANIFEST_NAME := m]), objects, prefix, remote)
  {
    hide Relative, Bytes;
  }
}
