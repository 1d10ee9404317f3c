/**
 The file backup's archive and its streaming restore. A text path is the list of its "/"-separated parts,
 so a trailing slash is a trailing empty part; a digest is an injective wrapper around what was hashed.
 */
module FileBackup {
  import opened Wrappers

  const MANIFEST_NAME: string := "BACKUP_MANIFEST.json"
  const MANIFEST_VERSION := 1
  const PRIVATE_MODE := 448

  type Text = seq<string>
  type Path = seq<string>

  datatype Content = Bytes(bytes: seq<int>) | Json(manifest: Manifest, length: nat)
  datatype Digest = Sha256(of: Content)
  datatype DirItem = DirItem(path: Text, mode: int)
  datatype FileItem = FileItem(path: Text, size: int, sha256: Digest, mode: int, mtimeNs: int)
  datatype Manifest = Manifest(
    version: int, createdAt: string, roots: seq<string>, fileCount: int, directoryCount: int, totalBytes: int,
    directories: seq<DirItem>, files: seq<FileItem>)
  datatype Kind = DirKind | RegularKind | SpecialKind
  datatype Member = Member(name: Text, kind: Kind, mode: int, content: Content)
  datatype ArchiveDigest = StreamSha256(of: seq<Member>)

  /** `mtimeNs` of a restored file is 0 when the restore left its time alone. */
  datatype Entry = Directory(mode: int) | File(content: Content, mode: int, mtimeNs: int) | Other
  type Tree = map<Path, Entry>

  function Size(content: Content): nat {
    match content case Bytes(b) => |b| case Json(_, length) => length
  }

  // ---------------------------------------------------------------- text paths

  /** `rstrip("/")`. */
  function Strip(name: Text): Text {
    if |name| > 1 && name[|name| - 1] == "" then Strip(name[..|name| - 1]) else name
  }

  predicate Absolute(name: Text) {
    |name| > 1 && name[0] == ""
  }

  /** `PurePosixPath(name).parts` of a relative path. */
  function Parts(name: Text): Path {
    if name == [] then []
    else (if name[0] == "" || name[0] == "." then [] else [name[0]]) + Parts(name[1..])
  }

  function MemberName(path: Text): Text {
    ["data"] + path
  }

  predicate LabelChar(c: char) {
    'a' <= c <= 'z' || '0' <= c <= '9' || c == '-'
  }

  predicate SafeLabel(name: string) {
    2 <= |name| <= 32 && 'a' <= name[0] <= 'z' && forall i :: 0 <= i < |name| ==> LabelChar(name[i])
  }

  // ---------------------------------------------------------------- manifest

  function DirPaths(items: seq<DirItem>): seq<Text> {
    if items == [] then [] else [items[0].path] + DirPaths(items[1..])
  }

  function FilePaths(items: seq<FileItem>): seq<Text> {
    if items == [] then [] else [items[0].path] + FilePaths(items[1..])
  }

  function ItemPaths(m: Manifest): seq<Text> {
    DirPaths(m.directories) + FilePaths(m.files)
  }

  predicate SafePath(path: Text, roots: seq<string>) {
    !Absolute(path) && ".." !in Parts(path) && Parts(path) != [] && Parts(path)[0] in roots
  }

  ghost predicate ValidManifest(m: Manifest) {
    && (forall root :: root in m.roots ==> SafeLabel(root))
    && (forall path :: path in ItemPaths(m) ==> SafePath(path, m.roots))
    && Distinct(ItemPaths(m))
  }

  /** `validate_manifest`. */
  method ValidateManifest(m: Manifest) returns (ok: bool)
    ensures ok <==> ValidManifest(m)
  {
    hide SafePath, ItemPaths, SafeLabel;
    if exists root :: root in m.roots && !SafeLabel(root) { return false; }
    var expectedPaths: set<Text> := {};
    var items := ItemPaths(m);
    for i := 0 to |items|
      invariant expectedPaths == set p | p in items[..i]
      invariant Distinct(items[..i]) && forall p :: p in items[..i] ==> SafePath(p, m.roots)
    {
      assert items[..i + 1] == items[..i] + [items[i]];
      if !SafePath(items[i], m.roots) || items[i] in expectedPaths { return false; }
      expectedPaths := expectedPaths + {items[i]};
    }
    assert items[..|items|] == items;
    ok := true;
  }

  function SumSizes(files: seq<FileItem>): int {
    if files == [] then 0 else files[0].size + SumSizes(files[1..])
  }

  predicate TotalsAgree(m: Manifest) {
    m.fileCount == |m.files| && m.directoryCount == |m.directories| && m.totalBytes == SumSizes(m.files)
  }

  function DirNames(m: Manifest): set<Text> {
    set d | d in m.directories :: MemberName(d.path)
  }

  function FileNames(m: Manifest): set<Text> {
    set f | f in m.files :: MemberName(f.path)
  }

  function ExpectedNames(m: Manifest): set<Text> {
    DirNames(m) + FileNames(m) + {[MANIFEST_NAME]}
  }

  function FindFile(files: seq<FileItem>, name: Text): (r: Option<FileItem>)
    ensures r.Some? ==> r.value in files && MemberName(r.value.path) == name
    ensures r.None? ==> forall f :: f in files ==> MemberName(f.path) != name
  {
    if files == [] then None
    else if MemberName(files[0].path) == name then Some(files[0])
    else FindFile(files[1..], name)
  }

  // ---------------------------------------------------------------- restore_stream

  datatype Progress = Progress(tree: Tree, seen: set<Text>, internal: Option<Manifest>)

  /** The directories on the way to `path`, and `path` itself; the target is not one of them. */
  function Prefixes(path: Path): (s: set<Path>)
    ensures forall p :: p in s <==> p != [] && p <= path
  {
    assert forall p :: p != [] && p <= path ==> 1 <= |p| <= |path| && path[..|p|] == p;
    set i | 1 <= i <= |path| :: path[..i]
  }

  predicate IsDirectory(tree: Tree, path: Path) {
    path == [] || (path in tree && tree[path].Directory?)
  }

  /** `mkdir(mode=0o700, parents=True, exist_ok=True)`. */
  function MakeDirectories(tree: Tree, path: Path): Result<Tree, string> {
    if exists p :: p in Prefixes(path) && p in tree && !tree[p].Directory? then Err("File exists")
    else Ok(map p | p in tree.Keys + Prefixes(path) :: if p in tree then tree[p] else Directory(PRIVATE_MODE))
  }

  function RestoredFile(item: FileItem): Entry {
    File(item.sha256.of, item.mode, if item.mtimeNs > 0 then item.mtimeNs else 0)
  }

  /** One pass of the loop over the members, branch by branch. */
  function Restored(s: Progress, member: Member, m: Manifest): Result<Progress, string> {
    var name := Strip(member.name);
    if Absolute(name) || ".." in Parts(name) || name in s.seen || name !in ExpectedNames(m)
    then Err("Archive contains an unsafe, duplicate, or unexpected path")
    else
      var s' := s.(seen := s.seen + {name});
      if name == [MANIFEST_NAME] then
        if !member.kind.RegularKind? then Err("Archive manifest is not a regular file")
        else if !member.content.Json? then Err("Archive manifest cannot be read")
        else Ok(s'.(internal := Some(member.content.manifest)))
      else if name in DirNames(m) then
        if !member.kind.DirKind? then Err("Archive directory changed type")
        else match MakeDirectories(s.tree, Parts(name[1..]))
          case Err(e) => Err(e)
          case Ok(tree) => Ok(s'.(tree := tree))
      else RestoredRegular(s', member, Parts(name[1..]), FindFile(m.files, name))
  }

  function RestoredRegular(s: Progress, member: Member, destination: Path,
                           found: Option<FileItem>): Result<Progress, string> {
    if found.None? || destination == [] then Err("KeyError")
    else
      var item := found.value;
      if !member.kind.RegularKind? || Size(member.content) != item.size
         || !IsDirectory(s.tree, destination[..|destination| - 1]) then Err("Archive file metadata does not match")
      else if destination in s.tree then Err("File exists")
      else if Sha256(member.content) != item.sha256 then Err("Restored file digest does not match")
      else Ok(s.(tree := s.tree[destination := RestoredFile(item)]))
  }

  function RestoredAll(s: Progress, members: seq<Member>, m: Manifest): Result<Progress, string>
    decreases |members|
  {
    if members == [] then Ok(s)
    else match RestoredAll(s, members[..|members| - 1], m)
      case Err(e) => Err(e)
      case Ok(s') => Restored(s', members[|members| - 1], m)
  }

  const START := Progress(map[], {}, None)

  function DeepestFirst(item: DirItem, items: seq<DirItem>): seq<DirItem> {
    if items == [] then [item]
    else if |Parts(items[0].path)| > |Parts(item.path)| then [items[0]] + DeepestFirst(item, items[1..])
    else [item] + items
  }

  /** `sorted(..., key=depth, reverse=True)`: stable. */
  function ByDepth(items: seq<DirItem>): seq<DirItem> {
    if items == [] then [] else DeepestFirst(items[0], ByDepth(items[1..]))
  }

  function WithModes(tree: Tree, items: seq<DirItem>): Tree
    decreases |items|
  {
    if items == [] then tree
    else WithModes(tree, items[..|items| - 1])[Parts(items[|items| - 1].path) := Directory(items[|items| - 1].mode)]
  }

  /** What `restore_stream` leaves at an empty target. */
  function RestoreOf(members: seq<Member>, m: Manifest, expected: ArchiveDigest): Result<Tree, string> {
    match RestoredAll(START, members, m)
    case Err(e) => Err(e)
    case Ok(s) =>
      if StreamSha256(members) != expected then Err("Compressed archive SHA-256 does not match")
      else if s.seen != ExpectedNames(m) || s.internal != Some(m)
        then Err("Restored archive does not match its complete manifest")
      else Ok(WithModes(s.tree, ByDepth(m.directories)))
  }

  /** `restore_stream`. */
  method RestoreStream(members: seq<Member>, m: Manifest, expected: ArchiveDigest, targetIsEmpty: bool)
    returns (r: Result<Tree, string>)
    ensures r.Ok? <==> targetIsEmpty && m.version == MANIFEST_VERSION && ValidManifest(m) && TotalsAgree(m)
                       && RestoreOf(members, m, expected).Ok?
    ensures r.Ok? ==> r == RestoreOf(members, m, expected)
  {
    hide ValidManifest, Restored, WithModes, ByDepth, ExpectedNames;
    if !targetIsEmpty { return Err("Restore target must be empty"); }
    if m.version != MANIFEST_VERSION { return Err("External manifest version is unsupported"); }
    var valid := ValidateManifest(m);
    if !valid { return Err("Archive manifest shape is invalid"); }
    if !TotalsAgree(m) { return Err("External manifest totals are inconsistent"); }
    var s := START;
    for i := 0 to |members|
      invariant RestoredAll(START, members[..i], m) == Ok(s)
    {
      assert members[..i + 1][..i] == members[..i];
      var next := Restored(s, members[i], m);
      if next.Err? {
        ErrorStays(members, m, i + 1);
        return Err(next.error);
      }
      s := next.value;
    }
    assert members[..|members|] == members;
    if StreamSha256(members) != expected { return Err("Compressed archive SHA-256 does not match"); }
    if s.seen != ExpectedNames(m) || s.internal != Some(m) {
      return Err("Restored archive does not match its complete manifest");
    }
    var tree := s.tree;
    var items := ByDepth(m.directories);
    assert WithModes(s.tree, items[..0]) == s.tree by { NoModes(s.tree); }
    for i := 0 to |items|
      invariant tree == WithModes(s.tree, items[..i])
    {
      assert items[..i + 1][..i] == items[..i];
      ModesGrow(s.tree, items[..i + 1]);
      tree := tree[Parts(items[i].path) := Directory(items[i].mode)];
    }
    assert items[..|items|] == items;
    r := Ok(tree);
  }

  lemma NoModes(tree: Tree)
    ensures WithModes(tree, []) == tree
  {
  }

  lemma ModesGrow(tree: Tree, items: seq<DirItem>)
    requires items != []
    ensures WithModes(tree, items)
            == (var last := items[|items| - 1];
                WithModes(tree, items[..|items| - 1])[Parts(last.path) := Directory(last.mode)])
  {
  }

  lemma {:induction false} ErrorStays(members: seq<Member>, m: Manifest, k: nat)
    requires k <= |members| && RestoredAll(START, members[..k], m).Err?
    ensures RestoredAll(START, members, m).Err?
    decreases |members|
  {
    if k < |members| {
      assert members[..|members| - 1][..k] == members[..k];
      ErrorStays(members[..|members| - 1], m, k);
    } else {
      assert members[..k] == members;
    }
  }
}
