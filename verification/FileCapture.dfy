/** The walk over the backed-up directories and the archive `capture` writes from it. */
module FileCapture {
  import opened Wrappers
  import opened TextOrder
  import opened FileBackup

  /** The file system: every entry by its path from the root. */
  type Host = map<Path, Entry>

  datatype Root = Root(name: string, path: Path)
  datatype Located = Located(path: Path, entry: Entry)

  predicate ValidName(name: string) {
    name != "" && name != "." && name != ".."
  }

  ghost predicate ValidHost(host: Host) {
    forall p :: p in host ==>
      && p != [] && (forall i :: 0 <= i < |p| ==> ValidName(p[i]))
      && (|p| > 1 ==> p[..|p| - 1] in host && host[p[..|p| - 1]].Directory?)
  }

  function Parent(p: Path): Path
    requires p != []
  {
    p[..|p| - 1]
  }

  // ---------------------------------------------------------------- os.walk

  function Below(host: Host, at: Path): set<Path> {
    set p | p in host && at < p
  }

  function ChildNames(host: Host, at: Path, dirs: bool): set<string> {
    set p | p in host && |p| == |at| + 1 && at < p && host[p].Directory? == dirs :: p[|at|]
  }

  lemma ChildIsBelow(host: Host, at: Path, name: string)
    requires at + [name] in host
    ensures at + [name] in Below(host, at) && Below(host, at + [name]) < Below(host, at)
  {
  }

  lemma ChildNamesAt(host: Host, at: Path, dirs: bool)
    ensures forall n :: n in ChildNames(host, at, dirs) <==> at + [n] in host && host[at + [n]].Directory? == dirs
  {
    forall n | n in ChildNames(host, at, dirs) ensures at + [n] in host && host[at + [n]].Directory? == dirs {
      var p :| p in host && |p| == |at| + 1 && at < p && host[p].Directory? == dirs && p[|at|] == n;
      assert p == at + [n];
    }
    forall n | at + [n] in host && host[at + [n]].Directory? == dirs ensures n in ChildNames(host, at, dirs) {
      assert (at + [n])[|at|] == n && at < at + [n];
    }
  }

  function Extend(at: Path, names: seq<string>): (r: seq<Path>)
    ensures |r| == |names| && forall i :: 0 <= i < |r| ==> r[i] == at + [names[i]]
  {
    if names == [] then [] else [at + [names[0]]] + Extend(at, names[1..])
  }

  /** `os.walk` from the top, names sorted: a directory's directories, its files, then each directory in turn. */
  function Walk(host: Host, at: Path): seq<Path>
    decreases Below(host, at), 1, 0
  {
    var dirs, files := SortedNames(ChildNames(host, at, true)), SortedNames(ChildNames(host, at, false));
    ChildNamesAt(host, at, true);
    Extend(at, dirs) + Extend(at, files) + WalkEach(host, at, dirs)
  }

  function WalkEach(host: Host, at: Path, names: seq<string>): seq<Path>
    requires forall n :: n in names ==> at + [n] in host
    decreases Below(host, at), 0, |names|
  {
    if names == [] then [] else
      ChildIsBelow(host, at, names[0]);
      Walk(host, at + [names[0]]) + WalkEach(host, at, names[1..])
  }

  ghost predicate IsChild(host: Host, at: Path, dirs: bool, p: Path) {
    p in host && |p| == |at| + 1 && at < p && host[p].Directory? == dirs
  }

  lemma ChildrenVisited(host: Host, at: Path, dirs: bool, p: Path)
    ensures p in Extend(at, SortedNames(ChildNames(host, at, dirs))) <==> IsChild(host, at, dirs, p)
  {
    ChildNamesAt(host, at, dirs);
    hide ChildNames;
    var names := SortedNames(ChildNames(host, at, dirs));
    hide SortedNames;
    if IsChild(host, at, dirs, p) {
      assert p == at + [p[|at|]];
      var i :| 0 <= i < |names| && names[i] == p[|at|];
      assert Extend(at, names)[i] == p;
    }
  }

  /** What lies below is a child, or lies below a child that is a directory. */
  lemma BelowSplits(host: Host, at: Path, p: Path)
    requires ValidHost(host)
    ensures p in Below(host, at) <==>
              || IsChild(host, at, true, p) || IsChild(host, at, false, p)
              || (p in host && exists n :: n in ChildNames(host, at, true) && at + [n] < p)
  {
    hide ChildNames, ValidHost;
    ChildNamesAt(host, at, true);
    if p in Below(host, at) && |p| > |at| + 1 {
      assert p[..|at| + 1] == at + [p[|at|]];
      AncestorInHost(host, p, |at| + 1);
      assert at + [p[|at|]] < p;
    }
  }

  /** The walk visits exactly what lies below. */
  lemma {:induction false} WalkVisits(host: Host, at: Path)
    requires ValidHost(host)
    ensures forall p :: p in Walk(host, at) <==> p in Below(host, at)
    decreases Below(host, at), 1, 0
  {
    hide ValidHost, Below, IsChild, ChildNames, WalkEach;
    var dirs := SortedNames(ChildNames(host, at, true));
    ChildNamesAt(host, at, true);
    WalkEachVisits(host, at, dirs);
    forall p ensures p in Walk(host, at) <==> p in Below(host, at) {
      ChildrenVisited(host, at, true, p);
      ChildrenVisited(host, at, false, p);
      BelowSplits(host, at, p);
    }
  }

  lemma {:induction false} WalkEachVisits(host: Host, at: Path, names: seq<string>)
    requires ValidHost(host) && forall n :: n in names ==> at + [n] in host
    ensures forall p :: p in WalkEach(host, at, names) <==> p in host && exists n :: n in names && at + [n] < p
    decreases Below(host, at), 0, |names|
  {
    if names != [] {
      ChildIsBelow(host, at, names[0]);
      WalkVisits(host, at + [names[0]]);
      WalkEachVisits(host, at, names[1..]);
      assert names == [names[0]] + names[1..];
    }
  }

  lemma {:induction false} AncestorInHost(host: Host, p: Path, k: nat)
    requires ValidHost(host) && p in host && 1 <= k < |p|
    ensures p[..k] in host && host[p[..k]].Directory?
    decreases |p|
  {
    var q := Parent(p);
    if k < |q| {
      AncestorInHost(host, q, k);
      assert q[..k] == p[..k];
    } else {
      assert q == p[..k];
    }
  }

  /** Each path comes after its parent, or its parent is one of `known`. */
  ghost predicate TopDown(list: seq<Path>, known: set<Path>) {
    forall i :: 0 <= i < |list| ==> list[i] != [] && (Parent(list[i]) in known || Parent(list[i]) in list[..i])
  }

  lemma TopDownJoins(a: seq<Path>, b: seq<Path>, known: set<Path>, more: set<Path>)
    requires TopDown(a, known) && TopDown(b, more) && forall p :: p in more ==> p in known || p in a
    ensures TopDown(a + b, known)
  {
    var list := a + b;
    forall i | 0 <= i < |list| ensures list[i] != [] && (Parent(list[i]) in known || Parent(list[i]) in list[..i]) {
      if i < |a| {
        assert list[..i] == a[..i];
      } else {
        assert list[i] == b[i - |a|] && list[..i] == a + b[..i - |a|];
      }
    }
  }

  lemma ExtendTopDown(at: Path, names: seq<string>)
    ensures TopDown(Extend(at, names), {at})
  {
  }

  /** A parent is visited before its children. */
  lemma {:induction false} WalkTopDown(host: Host, at: Path)
    ensures TopDown(Walk(host, at), {at})
    decreases Below(host, at), 1, 0
  {
    var dirs, files := SortedNames(ChildNames(host, at, true)), SortedNames(ChildNames(host, at, false));
    ChildNamesAt(host, at, true);
    hide ChildNames, WalkEach, TopDown, Extend;
    var children := set n | n in dirs :: at + [n];
    ExtendTopDown(at, dirs);
    ExtendTopDown(at, files);
    TopDownJoins(Extend(at, dirs), Extend(at, files), {at}, {at});
    WalkEachTopDown(host, at, dirs);
    forall n | n in dirs ensures at + [n] in Extend(at, dirs) { ExtendHas(at, dirs, n); }
    TopDownJoins(Extend(at, dirs) + Extend(at, files), WalkEach(host, at, dirs), {at}, children);
  }

  lemma ExtendHas(at: Path, names: seq<string>, n: string)
    requires n in names
    ensures at + [n] in Extend(at, names)
  {
  }

  lemma {:induction false} WalkEachTopDown(host: Host, at: Path, names: seq<string>)
    requires forall n :: n in names ==> at + [n] in host
    ensures TopDown(WalkEach(host, at, names), set n | n in names :: at + [n])
    decreases Below(host, at), 0, |names|
  {
    if names != [] {
      ChildIsBelow(host, at, names[0]);
      WalkTopDown(host, at + [names[0]]);
      WalkEachTopDown(host, at, names[1..]);
      var known := set n | n in names :: at + [n];
      TopDownMore(Walk(host, at + [names[0]]), {at + [names[0]]}, known);
      var later := set n | n in names[1..] :: at + [n];
      TopDownJoins(Walk(host, at + [names[0]]), WalkEach(host, at, names[1..]), known, later);
    }
  }

  lemma TopDownMore(list: seq<Path>, known: set<Path>, more: set<Path>)
    requires TopDown(list, known) && known <= more
    ensures TopDown(list, more)
  {
  }

  /** Nothing is visited twice. */
  lemma {:induction false} WalkDistinct(host: Host, at: Path)
    requires ValidHost(host)
    ensures Distinct(Walk(host, at))
    decreases Below(host, at), 1, 0
  {
    hide ValidHost, Below, ChildNames, WalkEach, Distinct;
    var dirs, files := SortedNames(ChildNames(host, at, true)), SortedNames(ChildNames(host, at, false));
    ChildNamesAt(host, at, true);
    ExtendDistinct(at, dirs);
    ExtendDistinct(at, files);
    WalkEachVisits(host, at, dirs);
    NamesDistinct(dirs);
    WalkEachDistinct(host, at, dirs);
    forall p | p in Extend(at, dirs) + Extend(at, files)
      ensures p !in WalkEach(host, at, dirs) && (p in Extend(at, dirs) ==> p !in Extend(at, files))
    {
      ChildrenVisited(host, at, true, p);
      ChildrenVisited(host, at, false, p);
    }
    DistinctJoins(Extend(at, dirs), Extend(at, files));
    DistinctJoins(Extend(at, dirs) + Extend(at, files), WalkEach(host, at, dirs));
  }

  lemma NamesDistinct(names: seq<string>)
    requires forall i, j :: 0 <= i < j < |names| ==> names[i] != names[j]
    ensures Distinct(names)
  {
  }

  lemma {:induction false} WalkEachDistinct(host: Host, at: Path, names: seq<string>)
    requires ValidHost(host) && Distinct(names) && forall n :: n in names ==> at + [n] in host
    ensures Distinct(WalkEach(host, at, names))
    decreases Below(host, at), 0, |names|
  {
    hide ValidHost, Below, ChildNames, Walk;
    if names != [] {
      var child, rest := at + [names[0]], names[1..];
      ChildIsBelow(host, at, names[0]);
      assert Distinct(rest) && names[0] !in rest;
      hide Distinct;
      WalkDistinct(host, child);
      WalkVisits(host, child);
      WalkEachDistinct(host, at, rest);
      WalkEachVisits(host, at, rest);
      forall p | p in Walk(host, child) ensures p !in WalkEach(host, at, rest) {
        forall n | n in rest ensures !(at + [n] < p) { BelowOneChild(host, at, names[0], n, p); }
      }
      DistinctJoins(Walk(host, child), WalkEach(host, at, rest));
    }
  }

  lemma BelowOneChild(host: Host, at: Path, n: string, other: string, p: Path)
    requires p in Below(host, at + [n]) && n != other
    ensures !(at + [other] < p)
  {
    assert p[|at|] == n;
  }

  lemma ExtendDistinct(at: Path, names: seq<string>)
    requires forall i, j :: 0 <= i < j < |names| ==> names[i] != names[j]
    ensures Distinct(Extend(at, names))
  {
    forall i, j | 0 <= i < j < |names| ensures Extend(at, names)[i] != Extend(at, names)[j] {
      assert (at + [names[i]])[|at|] != (at + [names[j]])[|at|];
    }
  }

  lemma DistinctJoins<T>(a: seq<T>, b: seq<T>)
    requires Distinct(a) && Distinct(b) && forall x :: x in a ==> x !in b
    ensures Distinct(a + b)
  {
    var s := a + b;
    forall i, j | 0 <= i < j < |s| ensures s[i] != s[j] {
      if i < |a| <= j { assert s[i] in a && s[j] == b[j - |a|]; }
    }
  }

  // ---------------------------------------------------------------- capture

  /** `parse_root` and the checks on the roots together. */
  ghost predicate ValidRoots(host: Host, roots: seq<Root>) {
    && (forall r :: r in roots ==> SafeLabel(r.name) && r.path in host && host[r.path].Directory?)
    && (forall i, j :: 0 <= i < j < |roots| ==>
          roots[i].name != roots[j].name && !(roots[i].path <= roots[j].path) && !(roots[j].path <= roots[i].path))
  }

  function PathInArchive(root: Root, p: Path): Path {
    [root.name] + if root.path <= p then p[|root.path|..] else []
  }

  function Locate(host: Host, root: Root, paths: seq<Path>): (r: seq<Located>)
    requires forall p :: p in paths ==> p in host
    ensures |r| == |paths| && forall i :: 0 <= i < |r| ==>
        r[i] == Located(PathInArchive(root, paths[i]), host[paths[i]])
  {
    if paths == [] then []
    else [Located(PathInArchive(root, paths[0]), host[paths[0]])] + Locate(host, root, paths[1..])
  }

  /** The root directory and what `stable_entries` yields for it. */
  function RootPaths(host: Host, root: Root): seq<Path> {
    [root.path] + Walk(host, root.path)
  }

  lemma RootPathsInHost(host: Host, roots: seq<Root>, root: Root)
    requires ValidHost(host) && ValidRoots(host, roots) && root in roots
    ensures forall p :: p in RootPaths(host, root) <==> p in host && root.path <= p
  {
    hide Walk, ValidHost;
    WalkVisits(host, root.path);
    forall p ensures p in RootPaths(host, root) <==> p in host && root.path <= p {
      assert root.path <= p && |p| == |root.path| ==> p == root.path;
    }
  }

  /** One root in the archive: its directory first. */
  function RootListing(host: Host, roots: seq<Root>, root: Root): seq<Located>
    requires ValidHost(host) && ValidRoots(host, roots) && root in roots
  {
    RootPathsInHost(host, roots, root);
    Locate(host, root, RootPaths(host, root))
  }

  function ListingOf(host: Host, all: seq<Root>, roots: seq<Root>): seq<Located>
    requires ValidHost(host) && ValidRoots(host, all) && forall r :: r in roots ==> r in all
  {
    if roots == [] then []
    else ListingOf(host, all, roots[..|roots| - 1]) + RootListing(host, all, roots[|roots| - 1])
  }

  function MemberOf(e: Located): Member {
    match e.entry
    case File(content, mode, _) => Member(MemberName(e.path), RegularKind, mode, content)
    case Directory(mode) => Member(MemberName(e.path) + [""], DirKind, mode, Bytes([]))
    case Other => Member(MemberName(e.path), SpecialKind, 0, Bytes([]))
  }

  function MembersOf(list: seq<Located>): (r: seq<Member>)
    ensures |r| == |list| && forall i :: 0 <= i < |r| ==> r[i] == MemberOf(list[i])
  {
    if list == [] then [] else MembersOf(list[..|list| - 1]) + [MemberOf(list[|list| - 1])]
  }

  function DirItemsOf(list: seq<Located>): seq<DirItem> {
    if list == [] then []
    else var e := list[|list| - 1];
      DirItemsOf(list[..|list| - 1]) + if e.entry.Directory? then [DirItem(e.path, e.entry.mode)] else []
  }

  function FileItemOf(e: Located): FileItem
    requires e.entry.File?
  {
    FileItem(e.path, Size(e.entry.content), Sha256(e.entry.content), e.entry.mode, e.entry.mtimeNs)
  }

  function FileItemsOf(list: seq<Located>): seq<FileItem> {
    if list == [] then []
    else var e := list[|list| - 1];
      FileItemsOf(list[..|list| - 1]) + if e.entry.File? then [FileItemOf(e)] else []
  }

  function NamesOf(roots: seq<Root>): (r: seq<string>)
    ensures |r| == |roots| && forall i :: 0 <= i < |r| ==> r[i] == roots[i].name
  {
    if roots == [] then [] else [roots[0].name] + NamesOf(roots[1..])
  }

  function ManifestOf(list: seq<Located>, names: seq<string>, createdAt: string): Manifest {
    var dirs, files := DirItemsOf(list), FileItemsOf(list);
    Manifest(MANIFEST_VERSION, createdAt, names, |files|, |dirs|, SumSizes(files), dirs, files)
  }

  function ManifestMember(m: Manifest, length: nat): Member {
    Member([MANIFEST_NAME], RegularKind, 384, Json(m, length))
  }

  ghost predicate RootCapturable(host: Host, root: Root) {
    forall p :: p in host && root.path <= p ==> !host[p].Other?
  }

  ghost predicate Capturable(host: Host, roots: seq<Root>) {
    forall r :: r in roots ==> RootCapturable(host, r)
  }

  lemma {:induction false} SumSizesAppend(files: seq<FileItem>, f: FileItem)
    ensures SumSizes(files + [f]) == SumSizes(files) + f.size
  {
    if files == [] { assert [] + [f] == [f]; } else {
      assert (files + [f])[1..] == files[1..] + [f];
      SumSizesAppend(files[1..], f);
    }
  }

  lemma ListingGrows(list: seq<Located>, e: Located)
    ensures MembersOf(list + [e]) == MembersOf(list) + [MemberOf(e)]
    ensures DirItemsOf(list + [e])
            == DirItemsOf(list) + if e.entry.Directory? then [DirItem(e.path, e.entry.mode)] else []
    ensures FileItemsOf(list + [e]) == FileItemsOf(list) + if e.entry.File? then [FileItemOf(e)] else []
  {
  }

  /** The entries of `capture` that were written: archive members, and their manifest items. */
  datatype Written = Written(members: seq<Member>, directories: seq<DirItem>, files: seq<FileItem>, totalBytes: int)

  ghost predicate Writes(w: Written, list: seq<Located>) {
    && w.members == MembersOf(list) && w.directories == DirItemsOf(list) && w.files == FileItemsOf(list)
    && w.totalBytes == SumSizes(w.files)
  }

  /** One entry: its member, and its item in the manifest. */
  method WriteEntry(w: Written, e: Located, ghost list: seq<Located>) returns (w': Written)
    requires Writes(w, list) && !e.entry.Other?
    ensures Writes(w', list + [e])
  {
    hide MembersOf, DirItemsOf, FileItemsOf;
    ListingGrows(list, e);
    w' := w.(members := w.members + [MemberOf(e)]);
    if e.entry.Directory? {
      w' := w'.(directories := w.directories + [DirItem(e.path, e.entry.mode)]);
      assert w.files + [] == w.files;
    } else {
      SumSizesAppend(w.files, FileItemOf(e));
      w' := w'.(files := w.files + [FileItemOf(e)], totalBytes := w.totalBytes + Size(e.entry.content));
      assert w.directories + [] == w.directories;
    }
  }

  /** The inner loop of `capture`: one root directory and all its stable entries. */
  method CaptureRoot(host: Host, roots: seq<Root>, root: Root, w: Written, ghost list: seq<Located>)
    returns (r: Result<Written, string>)
    requires ValidHost(host) && ValidRoots(host, roots) && root in roots && Writes(w, list)
    ensures r.Ok? ==> Writes(r.value, list + RootListing(host, roots, root))
    ensures r.Ok? <==> RootCapturable(host, root)
  {
    hide ValidHost, ValidRoots, RootPaths, Writes, PathInArchive;
    RootPathsInHost(host, roots, root);
    var paths := RootPaths(host, root);
    ghost var located, done := Locate(host, root, paths), [];
    assert list + done == list;
    var now := w;
    for i := 0 to |paths|
      invariant done == located[..i] && Writes(now, list + done)
      invariant forall k :: 0 <= k < i ==> !host[paths[k]].Other?
    {
      assert paths[i] in paths;
      var e := Located(PathInArchive(root, paths[i]), host[paths[i]]);
      if e.entry.Other? { return Err("Unsupported file entry"); }
      now := WriteEntry(now, e, list + done);
      assert list + done + [e] == list + (done + [e]);
      done := done + [e];
    }
    assert done == located;
    forall p | p in paths ensures !host[p].Other? {
      var k :| 0 <= k < |paths| && paths[k] == p;
    }
    r := Ok(now);
  }

  lemma NothingWritten(host: Host, all: seq<Root>)
    requires ValidHost(host) && ValidRoots(host, all)
    ensures Writes(Written([], [], [], 0), ListingOf(host, all, all[..0])) && Capturable(host, all[..0])
  {
    hide ValidHost, ValidRoots, RootListing;
  }

  lemma RootsGrow(host: Host, all: seq<Root>, i: nat)
    requires ValidHost(host) && ValidRoots(host, all) && i < |all|
    ensures ListingOf(host, all, all[..i + 1]) == ListingOf(host, all, all[..i]) + RootListing(host, all, all[i])
    ensures Capturable(host, all[..i + 1]) <==> Capturable(host, all[..i]) && RootCapturable(host, all[i])
    ensures Capturable(host, all) ==> RootCapturable(host, all[i])
  {
    hide ValidHost, ValidRoots, RootListing, RootCapturable;
    assert all[..i + 1] == all[..i] + [all[i]] && all[..i + 1][..i] == all[..i];
    assert all[i] in all;
  }

  lemma WrittenManifest(w: Written, list: seq<Located>, names: seq<string>, createdAt: string)
    requires Writes(w, list)
    ensures w.members == MembersOf(list)
    ensures Manifest(MANIFEST_VERSION, createdAt, names, |w.files|, |w.directories|, w.totalBytes, w.directories,
                     w.files)
            == ManifestOf(list, names, createdAt)
  {
    hide MembersOf, DirItemsOf, FileItemsOf;
  }

  /** The checks on the roots: real directories with safe labels, none of them at or below another. */
  method RefusedRoots(host: Host, roots: seq<Root>) returns (error: Option<string>)
    ensures error.None? <==> ValidRoots(host, roots)
  {
    hide SafeLabel;
    if exists i | 0 <= i < |roots| ::
         !SafeLabel(roots[i].name) || roots[i].path !in host || !host[roots[i].path].Directory? {
      return Some("Backup root must be a real directory");
    }
    if exists i | 0 <= i < |roots| :: exists j | i < j < |roots| ::
         roots[i].name == roots[j].name || roots[i].path <= roots[j].path || roots[j].path <= roots[i].path {
      return Some("Backup roots must not overlap");
    }
    error := None;
  }

  /** `capture`: fails on an unsupported entry, otherwise writes the whole listing and then its manifest. */
  method Capture(host: Host, roots: seq<Root>, outputExists: bool, createdAt: string, encodedLength: nat)
    returns (r: Result<(seq<Member>, Manifest), string>)
    requires ValidHost(host)
    ensures r.Ok? <==> !outputExists && ValidRoots(host, roots) && Capturable(host, roots)
    ensures r.Ok? ==>
              var list := ListingOf(host, roots, roots); var m := ManifestOf(list, NamesOf(roots), createdAt);
              r.value == (MembersOf(list) + [ManifestMember(m, encodedLength)], m)
  {
    hide ValidHost, ValidRoots, Capturable, RootCapturable, ListingOf, RootListing, Writes, MembersOf, ManifestOf;
    if outputExists { return Err("Refusing to overwrite an existing file backup"); }
    var refused := RefusedRoots(host, roots);
    if refused.Some? { return Err(refused.value); }
    var w := Written([], [], [], 0);
    NothingWritten(host, roots);
    for i := 0 to |roots|
      invariant Writes(w, ListingOf(host, roots, roots[..i])) && Capturable(host, roots[..i])
    {
      RootsGrow(host, roots, i);
      var next := CaptureRoot(host, roots, roots[i], w, ListingOf(host, roots, roots[..i]));
      if next.Err? { return Err(next.error); }
      w := next.value;
    }
    assert roots[..|roots|] == roots;
    var m := Manifest(MANIFEST_VERSION, createdAt, NamesOf(roots), |w.files|, |w.directories|, w.totalBytes,
                      w.directories, w.files);
    WrittenManifest(w, ListingOf(host, roots, roots), NamesOf(roots), createdAt);
    r := Ok((w.members + [ManifestMember(m, encodedLength)], m));
  }
}
