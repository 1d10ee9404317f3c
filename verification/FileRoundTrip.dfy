/** `restore_stream` undoes `capture`. */
module FileRoundTrip {
  import opened Wrappers
  import opened FileBackup
  import opened FileCapture
  import opened FileRestore

  ghost predicate HasParent(list: seq<Located>, i: nat)
    requires i < |list|
  {
    list[i].path != []
    && (|list[i].path| == 1
        || exists j :: 0 <= j < i && list[j].path == Parent(list[i].path) && list[j].entry.Directory?)
  }

  ghost predicate WellNamed(path: Path) {
    path != [] && forall k :: 0 <= k < |path| ==> ValidName(path[k])
  }

  ghost predicate DistinctPaths(list: seq<Located>) {
    forall i, j :: 0 <= i < j < |list| ==> list[i].path != list[j].path
  }

  /** A listing the archive can carry: safe distinct paths, no special entry, parents first. */
  ghost predicate Orderly(list: seq<Located>) {
    && (forall i :: 0 <= i < |list| ==> HasParent(list, i) && WellNamed(list[i].path) && !list[i].entry.Other?)
    && DistinctPaths(list)
  }

  // ---------------------------------------------------------------- the walk is orderly

  lemma {:induction false} InArchive(host: Host, root: Root, p: Path)
    requires ValidHost(host) && p in host && root.path <= p && root.path in host && SafeLabel(root.name)
    ensures WellNamed(PathInArchive(root, p)) && PathInArchive(root, p)[0] == root.name
    ensures p == root.path + PathInArchive(root, p)[1..]
    ensures p != root.path ==> |PathInArchive(root, p)| > 1 && root.path <= Parent(p)
                               && PathInArchive(root, Parent(p)) == Parent(PathInArchive(root, p))
    ensures p == root.path ==> |PathInArchive(root, p)| == 1
  {
    var n, rest := |root.path|, p[|root.path|..];
    assert p == root.path + rest && PathInArchive(root, p) == [root.name] + rest && ([root.name] + rest)[1..] == rest;
    SafeIsValid(root.name);
    hide SafeLabel;
    if p != root.path {
      assert rest != [] && root.path <= Parent(p);
      assert Parent(p)[n..] == rest[..|rest| - 1];
      assert ([root.name] + rest)[..|rest|] == [root.name] + rest[..|rest| - 1];
    }
  }

  lemma SafeIsValid(name: string)
    requires SafeLabel(name)
    ensures ValidName(name)
  {
  }

  /** The paths of one root's listing, and how they correspond to those of the walk. */
  lemma RootListed(host: Host, roots: seq<Root>, root: Root, i: nat)
    requires ValidHost(host) && ValidRoots(host, roots) && root in roots && i < |RootPaths(host, root)|
    ensures |RootListing(host, roots, root)| == |RootPaths(host, root)|
    ensures var p, e := RootPaths(host, root)[i], RootListing(host, roots, root)[i];
      && p in host && e == Located(PathInArchive(root, p), host[p])
      && WellNamed(e.path) && e.path[0] == root.name && p == root.path + e.path[1..] && root.path <= p
  {
    hide ValidHost, PathInArchive, RootPaths, WellNamed, SafeLabel;
    RootPathsInHost(host, roots, root);
    assert RootPaths(host, root)[i] in RootPaths(host, root);
    InArchive(host, root, RootPaths(host, root)[i]);
  }

  lemma RootParents(host: Host, roots: seq<Root>, root: Root, i: nat)
    requires ValidHost(host) && ValidRoots(host, roots) && root in roots && i < |RootListing(host, roots, root)|
    ensures HasParent(RootListing(host, roots, root), i)
  {
    hide ValidHost, PathInArchive, Walk, WellNamed, SafeLabel;
    var list, paths := RootListing(host, roots, root), RootPaths(host, root);
    RootListed(host, roots, root, i);
    var p := paths[i];
    InArchive(host, root, p);
    if p != root.path {
      RootPathsTopDown(host, root, i);
      var j :| 0 <= j < i && paths[j] == Parent(p);
      RootListed(host, roots, root, j);
      assert |p| > 1 ==> host[Parent(p)].Directory? by { if |p| > 1 { ParentIsDirectory(host, p); } }
      assert list[j].path == Parent(list[i].path);
    }
  }

  lemma RootOrderly(host: Host, roots: seq<Root>, root: Root)
    requires ValidHost(host) && ValidRoots(host, roots) && Capturable(host, roots) && root in roots
    ensures Orderly(RootListing(host, roots, root))
    ensures forall e :: e in RootListing(host, roots, root) ==> e.path != [] && e.path[0] == root.name
    ensures forall p, e: Entry :: Located([root.name] + p, e) in RootListing(host, roots, root)
              <==> root.path + p in host && host[root.path + p] == e
  {
    hide ValidHost, PathInArchive, RootPaths, RootListing, SafeLabel, HasParent;
    var list, paths := RootListing(host, roots, root), RootPaths(host, root);
    forall i | 0 <= i < |list| ensures HasParent(list, i) && WellNamed(list[i].path) && !list[i].entry.Other?
      && list[i].path[0] == root.name && |list| == |paths| && paths[i] == root.path + list[i].path[1..]
    {
      RootPathsInHost(host, roots, root);
      SameLength(host, roots, root);
      RootListed(host, roots, root, i);
      RootParents(host, roots, root, i);
    }
    hide WellNamed;
    RootPathsDistinct(host, root);
    assert DistinctPaths(list);
    forall p, e: Entry
      ensures Located([root.name] + p, e) in list <==> root.path + p in host && host[root.path + p] == e
    {
      LocatedAt(host, roots, root, p, e);
    }
  }

  lemma SameLength(host: Host, roots: seq<Root>, root: Root)
    requires ValidHost(host) && ValidRoots(host, roots) && root in roots
    ensures |RootListing(host, roots, root)| == |RootPaths(host, root)|
  {
  }

  lemma ParentIsDirectory(host: Host, p: Path)
    requires ValidHost(host) && p in host && |p| > 1
    ensures Parent(p) in host && host[Parent(p)].Directory?
  {
  }

  lemma LocatedAt(host: Host, roots: seq<Root>, root: Root, p: Path, e: Entry)
    requires ValidHost(host) && ValidRoots(host, roots) && root in roots
    ensures Located([root.name] + p, e) in RootListing(host, roots, root) <==>
              root.path + p in host && host[root.path + p] == e
  {
    hide ValidHost, RootPaths, RootListing, PathInArchive, ValidRoots;
    RootPathsInHost(host, roots, root);
    ListedInOrder(host, roots, root);
    var list, paths := RootListing(host, roots, root), RootPaths(host, root);
    var q := root.path + p;
    if q in host && host[q] == e {
      var k :| 0 <= k < |paths| && paths[k] == q;
      PathBelow(root, q, p);
      assert list[k] == Located([root.name] + p, e);
    }
    if Located([root.name] + p, e) in list {
      var k :| 0 <= k < |list| && list[k] == Located([root.name] + p, e);
      assert paths[k] in paths;
      PathBelow(root, paths[k], p);
    }
  }

  lemma ListedInOrder(host: Host, roots: seq<Root>, root: Root)
    requires ValidHost(host) && ValidRoots(host, roots) && root in roots
    ensures var list, paths := RootListing(host, roots, root), RootPaths(host, root);
      && |list| == |paths| && (forall p :: p in paths ==> p in host)
      && forall i :: 0 <= i < |list| ==> list[i] == Located(PathInArchive(root, paths[i]), host[paths[i]])
  {
    hide ValidHost, RootPaths, PathInArchive, ValidRoots;
    RootPathsInHost(host, roots, root);
  }

  lemma PathBelow(root: Root, q: Path, p: Path)
    requires root.path <= q
    ensures PathInArchive(root, q) == [root.name] + p <==> q == root.path + p
  {
    assert q == root.path + q[|root.path|..];
    assert PathInArchive(root, q)[1..] == q[|root.path|..] && ([root.name] + p)[1..] == p;
  }

  lemma RootPathsTopDown(host: Host, root: Root, i: nat)
    requires ValidHost(host) && i < |RootPaths(host, root)| && RootPaths(host, root)[i] != root.path
    ensures var paths := RootPaths(host, root);
      paths[i] != [] && exists j :: 0 <= j < i && paths[j] == Parent(paths[i])
  {
    hide ValidHost, Walk;
    var walk := Walk(host, root.path);
    WalkTopDown(host, root.path);
    assert RootPaths(host, root) == [root.path] + walk;
    hide RootPaths, Below;
    TopDownUnder(walk, root.path, i);
  }

  lemma {:induction false} TopDownUnder(walk: seq<Path>, root: Path, i: nat)
    requires TopDown(walk, {root}) && 1 <= i <= |walk|
    ensures var paths := [root] + walk; paths[i] != [] && exists j :: 0 <= j < i && paths[j] == Parent(paths[i])
  {
    var paths := [root] + walk;
    assert walk[i - 1] != [] && (Parent(walk[i - 1]) == root || Parent(walk[i - 1]) in walk[..i - 1]);
    hide TopDown;
    var up := Parent(walk[i - 1]);
    assert paths[i] == walk[i - 1];
    hide Parent;
    if up in walk[..i - 1] {
      var j :| 0 <= j < i - 1 && walk[j] == up;
      assert paths[j + 1] == up;
    } else {
      assert paths[0] == up;
    }
  }

  lemma RootPathsDistinct(host: Host, root: Root)
    requires ValidHost(host)
    ensures Distinct(RootPaths(host, root))
  {
    hide ValidHost, Walk;
    WalkVisits(host, root.path);
    WalkDistinct(host, root.path);
    hide Distinct;
    NamesAlone(root.path);
    DistinctJoins([root.path], Walk(host, root.path));
  }

  lemma NamesAlone(p: Path)
    ensures Distinct([p])
  {
  }

  lemma ParentsJoin(a: seq<Located>, b: seq<Located>, i: nat)
    requires i < |a + b| && if i < |a| then HasParent(a, i) else HasParent(b, i - |a|)
    ensures HasParent(a + b, i)
  {
    var list := a + b;
    if i < |a| {
      assert list[i] == a[i];
      if |a[i].path| != 1 {
        var j :| 0 <= j < i && a[j].path == Parent(a[i].path) && a[j].entry.Directory?;
        assert list[j] == a[j];
      }
    } else {
      assert list[i] == b[i - |a|];
      if |list[i].path| != 1 {
        var j :| 0 <= j < i - |a| && b[j].path == Parent(b[i - |a|].path) && b[j].entry.Directory?;
        assert list[|a| + j] == b[j];
      }
    }
  }

  lemma OrderlyJoins(a: seq<Located>, b: seq<Located>)
    requires Orderly(a) && Orderly(b) && forall e, f :: e in a && f in b ==> e.path != f.path
    ensures Orderly(a + b)
  {
    hide WellNamed, HasParent;
    var list := a + b;
    forall i | 0 <= i < |list| ensures HasParent(list, i) && WellNamed(list[i].path) && !list[i].entry.Other? {
      assert if i < |a| then HasParent(a, i) && list[i] == a[i] else HasParent(b, i - |a|) && list[i] == b[i - |a|];
      ParentsJoin(a, b, i);
    }
    forall i, j | 0 <= i < j < |list| ensures list[i].path != list[j].path {
      if i < |a| <= j { assert list[i] in a && list[j] == b[j - |a|]; }
    }
  }

  /** The whole listing is orderly, and holds exactly the entries at and below the roots, under their labels. */
  lemma {:induction false} ListingOrderly(host: Host, all: seq<Root>, k: nat)
    requires ValidHost(host) && ValidRoots(host, all) && Capturable(host, all) && k <= |all|
    ensures Orderly(ListingOf(host, all, all[..k]))
    ensures forall e :: e in ListingOf(host, all, all[..k]) ==>
        e.path != [] && exists i :: 0 <= i < k && all[i].name == e.path[0]
    ensures forall i, p, e: Entry :: 0 <= i < k ==>
              (Located([all[i].name] + p, e) in ListingOf(host, all, all[..k])
               <==> all[i].path + p in host && host[all[i].path + p] == e)
  {
    hide ValidHost, Orderly, RootListing, Capturable, SafeLabel;
    if k == 0 {
      NothingOrderly();
    } else {
      assert all[..k][..k - 1] == all[..k - 1];
      ListingOrderly(host, all, k - 1);
      RootOrderly(host, all, all[k - 1]);
      var a, b := ListingOf(host, all, all[..k - 1]), RootListing(host, all, all[k - 1]);
      OrderlyJoins(a, b);
      forall i, p, e: Entry | 0 <= i < k
        ensures Located([all[i].name] + p, e) in a + b <==> all[i].path + p in host && host[all[i].path + p] == e
      {
        assert ([all[i].name] + p)[0] == all[i].name;
        if i < k - 1 {
          assert Located([all[i].name] + p, e) !in b;
        } else {
          assert Located([all[i].name] + p, e) !in a;
        }
      }
    }
  }

  lemma NothingOrderly()
    ensures Orderly([])
  {
  }

  // ---------------------------------------------------------------- the manifest of an orderly listing

  lemma {:induction false} PartsSame(path: Path)
    requires forall k :: 0 <= k < |path| ==> ValidName(path[k])
    ensures Parts(path) == path
  {
    if path != [] { PartsSame(path[1..]); }
  }

  lemma NameOfMember(e: Located)
    requires WellNamed(e.path)
    ensures Strip(MemberOf(e).name) == MemberName(e.path) && Parts(MemberName(e.path)) == MemberName(e.path)
    ensures !Absolute(MemberName(e.path)) && ".." !in MemberName(e.path)
    ensures Parts(e.path) == e.path && MemberName(e.path)[1..] == e.path
  {
    var name := MemberName(e.path);
    NamesOfMember(e.path);
    PartsSame(name);
    PartsSame(e.path);
    NotAboveSelf(name);
    hide Parts, ValidName;
    StripSame(e);
  }

  /** A member is named by its path under `data`. */
  lemma NamesOfMember(path: Path)
    requires WellNamed(path)
    ensures var name := MemberName(path);
      name != [] && name[1..] == path && forall k :: 0 <= k < |name| ==> ValidName(name[k])
  {
    var name := MemberName(path);
    forall k | 0 <= k < |name| ensures ValidName(name[k]) {
      if k > 0 { assert name[k] == path[k - 1]; }
    }
  }

  lemma NotAboveSelf(name: Path)
    requires name != [] && forall k :: 0 <= k < |name| ==> ValidName(name[k])
    ensures !Absolute(name) && ".." !in name
  {
  }

  /** A directory's member ends in a slash, which `Strip` takes off again. */
  lemma StripSame(e: Located)
    requires WellNamed(e.path) && forall k :: 0 <= k < |MemberName(e.path)| ==> ValidName(MemberName(e.path)[k])
    ensures Strip(MemberOf(e).name) == MemberName(e.path)
  {
    var name := MemberName(e.path);
    assert name[|name| - 1] == e.path[|e.path| - 1];
    assert (name + [""])[..|name|] == name;
  }

  lemma {:induction false} DirItemsAre(list: seq<Located>)
    ensures forall d :: d in DirItemsOf(list) <==>
              exists e :: e in list && e.entry.Directory? && d == DirItem(e.path, e.entry.mode)
  {
    if list != [] {
      var n := |list| - 1;
      DirItemsAre(list[..n]);
      assert list == list[..n] + [list[n]];
      assert list[n] in list;
    }
  }

  lemma {:induction false} FileItemsAre(list: seq<Located>)
    ensures forall f :: f in FileItemsOf(list) <==> exists e :: e in list && e.entry.File? && f == FileItemOf(e)
  {
    hide FileItemOf;
    if list != [] {
      var n := |list| - 1;
      FileItemsAre(list[..n]);
      assert list == list[..n] + [list[n]];
      assert list[n] in list;
    }
  }

  lemma {:induction false} PathsOfItems(dirs: seq<DirItem>, files: seq<FileItem>)
    ensures forall p :: p in DirPaths(dirs) <==> exists d :: d in dirs && d.path == p
    ensures forall p :: p in FilePaths(files) <==> exists f :: f in files && f.path == p
  {
    DirPathsAt(dirs);
    FilePathsAt(files);
  }

  lemma {:induction false} ItemPathsDistinct(list: seq<Located>)
    requires DistinctPaths(list)
    ensures Distinct(DirPaths(DirItemsOf(list))) && Distinct(FilePaths(FileItemsOf(list)))
  {
    if list != [] {
      var n := |list| - 1;
      var rest, e := list[..n], list[n];
      ItemPathsDistinct(rest);
      assert list == rest + [e];
      ListingGrows(rest, e);
      PathsOfItems(DirItemsOf(rest), FileItemsOf(rest));
      DirItemsAre(rest);
      FileItemsAre(rest);
      hide DirItemsOf, FileItemsOf;
      DirPathsAppend(DirItemsOf(rest), DirItemsOf(list));
      FilePathsAppend(FileItemsOf(rest), FileItemsOf(list));
    }
  }

  lemma AppendDistinct<T>(s: seq<T>, x: T)
    requires Distinct(s) && x !in s
    ensures Distinct(s + [x])
  {
  }

  lemma DirPathsAppend(a: seq<DirItem>, b: seq<DirItem>)
    requires b == a || (|b| == |a| + 1 && b[..|a|] == a && b[|a|].path !in DirPaths(a))
    requires Distinct(DirPaths(a))
    ensures Distinct(DirPaths(b))
  {
    hide Distinct;
    if b != a {
      DirPathsAt(a);
      DirPathsAt(b);
      forall i | 0 <= i < |a| ensures DirPaths(b)[i] == DirPaths(a)[i] { assert b[..|a|][i] == b[i]; }
      assert DirPaths(b) == DirPaths(a) + [b[|a|].path];
      AppendDistinct(DirPaths(a), b[|a|].path);
    }
  }

  lemma FilePathsAppend(a: seq<FileItem>, b: seq<FileItem>)
    requires b == a || (|b| == |a| + 1 && b[..|a|] == a && b[|a|].path !in FilePaths(a))
    requires Distinct(FilePaths(a))
    ensures Distinct(FilePaths(b))
  {
    hide Distinct;
    if b != a {
      FilePathsAt(a);
      FilePathsAt(b);
      forall i | 0 <= i < |a| ensures FilePaths(b)[i] == FilePaths(a)[i] { assert b[..|a|][i] == b[i]; }
      assert FilePaths(b) == FilePaths(a) + [b[|a|].path];
      AppendDistinct(FilePaths(a), b[|a|].path);
    }
  }

  ghost predicate UnderLabels(list: seq<Located>, names: seq<string>) {
    && (forall name :: name in names ==> SafeLabel(name))
    && (forall e :: e in list ==> e.path != [] && e.path[0] in names)
  }

  lemma ManifestValid(list: seq<Located>, names: seq<string>, createdAt: string)
    requires Orderly(list) && UnderLabels(list, names)
    ensures ValidManifest(ManifestOf(list, names, createdAt)) && TotalsAgree(ManifestOf(list, names, createdAt))
  {
    hide HasParent, SafeLabel, DirItemsOf, FileItemsOf, DirPaths, FilePaths, SumSizes;
    var m := ManifestOf(list, names, createdAt);
    DirItemsAre(list);
    FileItemsAre(list);
    PathsOfItems(m.directories, m.files);
    ItemPathsDistinct(list);
    forall p | p in DirPaths(m.directories) ensures p !in FilePaths(m.files) { }
    hide Distinct;
    DistinctJoins(DirPaths(m.directories), FilePaths(m.files));
    forall p | p in ItemPaths(m) ensures SafePath(p, m.roots) {
      var e :| e in list && e.path == p;
      NameOfMember(e);
    }
  }

  // ---------------------------------------------------------------- every member is restored

  lemma {:induction false} PrefixListed(list: seq<Located>, i: nat, p: Path) returns (j: nat)
    requires Orderly(list) && i < |list| && p != [] && p < list[i].path
    ensures j < i && list[j].path == p && list[j].entry.Directory?
  {
    hide WellNamed;
    assert HasParent(list, i);
    j :| 0 <= j < i && list[j].path == Parent(list[i].path) && list[j].entry.Directory?;
    if p != list[j].path { j := PrefixListed(list, j, p); }
  }

  ghost predicate SamePath(list: seq<Located>, a: Located, b: Located) {
    a in list && b in list && a.path == b.path
  }

  lemma OnePerPath(list: seq<Located>, a: Located, b: Located)
    requires Orderly(list) && SamePath(list, a, b)
    ensures a == b
  {
  }

  lemma NoFileOnTheWay(list: seq<Located>, e: Located, k: nat, p: Path)
    requires Orderly(list) && e in list && e.entry.Directory? && p != [] && p <= e.path
    requires k < |list| && list[k].entry.File?
    ensures list[k].path != p
  {
    hide HasParent, WellNamed;
    var i: nat :| i < |list| && list[i] == e;
    var j := i;
    if p != e.path { j := PrefixListed(list, i, p); }
    assert j != k;
  }

  /** Nothing but directories at or above the place of a listed directory. */
  lemma NoFileAbove(s: Progress, list: seq<Located>, k: nat, m: Manifest, p: Path)
    requires Orderly(list) && k < |list| && list[k].entry.Directory? && p != [] && p <= list[k].path
    requires m.files == FileItemsOf(list) && HoldsFiles(s.tree, SeenFiles(s, m)) && p in s.tree
    ensures s.tree[p].Directory?
  {
    hide HasParent, FileItemsOf, FileAt;
    if !s.tree[p].Directory? {
      var f :| f in SeenFiles(s, m) && Parts(f.path) == p;
      FileItemsAre(list);
      var e :| e in list && e.entry.File? && f == FileItemOf(e);
      NameOfMember(e);
      var j := k;
      if p != list[k].path { j := PrefixListed(list, k, p); }
      OnePerPath(list, e, list[j]);
    }
  }

  ghost predicate SawFirst(s: Progress, list: seq<Located>, k: nat)
    requires k <= |list|
  {
    s.seen == set i | 0 <= i < k :: MemberName(list[i].path)
  }

  lemma FreshName(s: Progress, list: seq<Located>, k: nat)
    requires Orderly(list) && k < |list| && SawFirst(s, list, k)
    ensures MemberName(list[k].path) !in s.seen
  {
    forall i | 0 <= i < k ensures MemberName(list[i].path) != MemberName(list[k].path) {
      MemberNames(list[i].path, list[k].path);
    }
  }

  lemma ParentRestored(s: Progress, list: seq<Located>, k: nat, m: Manifest)
    requires Orderly(list) && k < |list| && SawFirst(s, list, k)
    requires m.directories == DirItemsOf(list) && HoldsDirs(s.tree, SeenDirs(s, m))
    ensures IsDirectory(s.tree, Parent(list[k].path))
  {
    hide DirItemsOf, WellNamed;
    assert HasParent(list, k);
    if |list[k].path| > 1 {
      var j :| 0 <= j < k && list[j].path == Parent(list[k].path) && list[j].entry.Directory?;
      var d := DirItem(list[j].path, list[j].entry.mode);
      DirItemsAre(list);
      assert list[j] in list && d in SeenDirs(s, m);
      NameOfMember(list[j]) by { assert WellNamed(list[j].path); }
      assert Under(list[j].path, d);
    }
  }

  /** The place of the next file is free. */
  lemma FilePlaceFree(s: Progress, list: seq<Located>, k: nat, m: Manifest)
    requires Orderly(list) && k < |list| && SawFirst(s, list, k) && list[k].entry.File?
    requires m.directories == DirItemsOf(list) && m.files == FileItemsOf(list)
    requires HoldsDirs(s.tree, SeenDirs(s, m)) && HoldsFiles(s.tree, SeenFiles(s, m))
    ensures list[k].path !in s.tree
  {
    hide DirItemsOf, FileItemsOf, HasParent, FileAt;
    var p := list[k].path;
    if p in s.tree {
      if s.tree[p].Directory? {
        var d :| d in SeenDirs(s, m) && Under(p, d);
        DirItemsAre(list);
        var e :| e in list && e.entry.Directory? && d == DirItem(e.path, e.entry.mode);
        NameOfMember(e);
        NoFileOnTheWay(list, e, k, p);
      } else {
        var f :| f in SeenFiles(s, m) && Parts(f.path) == p;
        FileItemsAre(list);
        var e :| e in list && e.entry.File? && f == FileItemOf(e);
        NameOfMember(e);
        FreshName(s, list, k);
      }
    }
  }

  ghost predicate CleanName(name: Text) {
    !Absolute(name) && ".." !in Parts(name)
  }

  lemma AcceptsDirectory(s: Progress, member: Member, m: Manifest, path: Path)
    requires Strip(member.name) == MemberName(path) && CleanName(MemberName(path)) && MemberName(path) !in s.seen
    requires member.kind.DirKind? && MemberName(path) in DirNames(m) && Parts(path) == path
    requires forall p :: p in Prefixes(path) && p in s.tree ==> s.tree[p].Directory?
    ensures Restored(s, member, m).Ok? && Restored(s, member, m).value.internal == s.internal
  {
  }

  lemma AcceptsFile(s: Progress, member: Member, m: Manifest, f: FileItem)
    requires Strip(member.name) == MemberName(f.path) && CleanName(MemberName(f.path)) && MemberName(f.path) !in s.seen
    requires member.kind.RegularKind? && MemberName(f.path) in FileNames(m) && MemberName(f.path) !in DirNames(m)
    requires FindFile(m.files, MemberName(f.path)) == Some(f) && Parts(f.path) == f.path && f.path != []
    requires Size(member.content) == f.size && Sha256(member.content) == f.sha256
    requires IsDirectory(s.tree, Parent(f.path)) && f.path !in s.tree
    ensures Restored(s, member, m).Ok? && Restored(s, member, m).value.internal == s.internal
  {
  }

  lemma DirectoryRestores(s: Progress, list: seq<Located>, k: nat, m: Manifest)
    requires Orderly(list) && k < |list| && list[k].entry.Directory? && SawFirst(s, list, k)
    requires m.directories == DirItemsOf(list) && m.files == FileItemsOf(list) && Sound(s, m)
    ensures Restored(s, MemberOf(list[k]), m).Ok?
    ensures Restored(s, MemberOf(list[k]), m).value.internal == s.internal
  {
    hide DirItemsOf, FileItemsOf, HasParent, FileAt, HoldsDirs, HoldsFiles, SawFirst, Restored, MemberName, Strip;
    hide Parts;
    var e := list[k];
    NameOfMember(e);
    FreshName(s, list, k);
    DirItemsAre(list);
    assert DirItem(e.path, e.entry.mode) in m.directories;
    forall p | p in Prefixes(e.path) && p in s.tree ensures s.tree[p].Directory? { NoFileAbove(s, list, k, m, p); }
    AcceptsDirectory(s, MemberOf(e), m, e.path);
  }

  lemma FileRestores(s: Progress, list: seq<Located>, k: nat, m: Manifest)
    requires Orderly(list) && k < |list| && list[k].entry.File? && SawFirst(s, list, k)
    requires m.directories == DirItemsOf(list) && m.files == FileItemsOf(list) && Sound(s, m) && ValidManifest(m)
    ensures Restored(s, MemberOf(list[k]), m).Ok?
    ensures Restored(s, MemberOf(list[k]), m).value.internal == s.internal
  {
    hide DirItemsOf, FileItemsOf, HasParent, FileAt, HoldsDirs, HoldsFiles, SawFirst, ValidManifest, Restored;
    hide MemberName, Strip, Parts, IsDirectory;
    var e := list[k];
    NameOfMember(e);
    FreshName(s, list, k);
    FileItemsAre(list);
    var f := FileItemOf(e);
    assert f in m.files;
    forall d | d in m.directories ensures MemberName(d.path) != MemberName(e.path) {
      FileIsNoDir(m, f, d);
      MemberNames(d.path, e.path);
    }
    var found := FindFile(m.files, MemberName(e.path));
    assert found.Some?;
    MemberNames(found.value.path, e.path);
    FilesDiffer(m, found.value, f);
    ParentRestored(s, list, k, m);
    FilePlaceFree(s, list, k, m);
    AcceptsFile(s, MemberOf(e), m, f);
  }

  lemma SawNext(s: Progress, list: seq<Located>, k: nat, s': Progress)
    requires k < |list| && SawFirst(s, list, k) && s'.seen == s.seen + {MemberName(list[k].path)}
    ensures SawFirst(s', list, k + 1)
  {
  }

  lemma {:induction false} PrefixRestores(list: seq<Located>, k: nat, m: Manifest)
    requires Orderly(list) && k <= |list| && ValidManifest(m)
    requires m.directories == DirItemsOf(list) && m.files == FileItemsOf(list)
    ensures var r := RestoredAll(START, MembersOf(list)[..k], m);
      r.Ok? && SawFirst(r.value, list, k) && r.value.internal.None?
  {
    hide DirItemsOf, FileItemsOf, Orderly, ValidManifest, Restored, Sound, StrippedNames, SawFirst;
    if k == 0 {
      SawNone(list);
    } else {
      PrefixRestores(list, k - 1, m);
      var members := MembersOf(list)[..k];
      assert members[..k - 1] == MembersOf(list)[..k - 1];
      AllSound(MembersOf(list)[..k - 1], m);
      var s := RestoredAll(START, MembersOf(list)[..k - 1], m).value;
      EntryRestores(s, list, k - 1, m);
      RestoredSound(s, MemberOf(list[k - 1]), m);
      SawNext(s, list, k - 1, Restored(s, MemberOf(list[k - 1]), m).value);
    }
  }

  lemma EntryRestores(s: Progress, list: seq<Located>, k: nat, m: Manifest)
    requires Orderly(list) && k < |list| && SawFirst(s, list, k)
    requires m.directories == DirItemsOf(list) && m.files == FileItemsOf(list) && Sound(s, m) && ValidManifest(m)
    ensures Restored(s, MemberOf(list[k]), m).Ok?
    ensures Restored(s, MemberOf(list[k]), m).value.internal == s.internal
    ensures Strip(MemberOf(list[k]).name) == MemberName(list[k].path)
  {
    hide DirItemsOf, FileItemsOf, HasParent, ValidManifest, Restored, Sound, SawFirst, Strip;
    NameOfMember(list[k]);
    if list[k].entry.Directory? { DirectoryRestores(s, list, k, m); } else { FileRestores(s, list, k, m); }
  }

  lemma SawNone(list: seq<Located>)
    ensures SawFirst(START, list, 0)
  {
  }

  /** The members of an orderly listing and their manifest are restored to the end. */
  lemma OrderlyRestores(list: seq<Located>, m: Manifest, length: nat)
    requires Orderly(list) && ValidManifest(m)
    requires m.directories == DirItemsOf(list) && m.files == FileItemsOf(list)
    ensures var members := MembersOf(list) + [ManifestMember(m, length)];
      RestoreOf(members, m, StreamSha256(members)).Ok?
  {
    hide DirItemsOf, FileItemsOf, Orderly, ValidManifest, Restored, Sound, StrippedNames, WithModes, ByDepth, SawFirst;
    var members := MembersOf(list) + [ManifestMember(m, length)];
    var n := |list|;
    assert members[..n] == MembersOf(list) == MembersOf(list)[..n];
    PrefixRestores(list, n, m);
    var s := RestoredAll(START, MembersOf(list), m).value;
    NoSpecial(list);
    AllSeen(s, list, m);
    AcceptsManifest(s, m, length);
  }

  lemma NoSpecial(list: seq<Located>)
    requires Orderly(list)
    ensures forall e :: e in list ==> !e.entry.Other? && WellNamed(e.path)
  {
  }

  lemma ListedNames(list: seq<Located>, m: Manifest, name: Text)
    requires forall e :: e in list ==> !e.entry.Other?
    requires m.directories == DirItemsOf(list) && m.files == FileItemsOf(list)
    ensures name in DirNames(m) + FileNames(m) <==> exists e :: e in list && MemberName(e.path) == name
  {
    hide DirItemsOf, FileItemsOf, MemberName;
    DirItemsAre(list);
    FileItemsAre(list);
    if e :| e in list && MemberName(e.path) == name {
      if e.entry.Directory? { assert DirItem(e.path, e.entry.mode) in m.directories; }
      else { assert FileItemOf(e) in m.files; }
    }
  }

  lemma AllSeen(s: Progress, list: seq<Located>, m: Manifest)
    requires SawFirst(s, list, |list|) && forall e :: e in list ==> !e.entry.Other?
    requires m.directories == DirItemsOf(list) && m.files == FileItemsOf(list)
    ensures s.seen + {[MANIFEST_NAME]} == ExpectedNames(m) && [MANIFEST_NAME] !in s.seen
  {
    hide DirItemsOf, FileItemsOf, MemberName, DirNames, FileNames;
    forall path: Text ensures MemberName(path) != [MANIFEST_NAME] { MemberNames(path, path); }
    forall name ensures name in s.seen <==> name in DirNames(m) + FileNames(m) {
      ListedNames(list, m, name);
      if e :| e in list && MemberName(e.path) == name {
        var i :| 0 <= i < |list| && list[i] == e;
      }
    }
    assert s.seen == DirNames(m) + FileNames(m);
  }

  lemma AcceptsManifest(s: Progress, m: Manifest, length: nat)
    requires [MANIFEST_NAME] !in s.seen
    ensures Restored(s, ManifestMember(m, length), m) == Ok(s.(seen := s.seen + {[MANIFEST_NAME]}, internal := Some(m)))
  {
    assert Parts([MANIFEST_NAME]) == [MANIFEST_NAME];
  }

  // ---------------------------------------------------------------- what comes back

  /** An entry after the restore: a modification time that was not positive is not set. */
  function AsRestored(entry: Entry): Entry {
    match entry
    case File(content, mode, mtimeNs) => File(content, mode, if mtimeNs > 0 then mtimeNs else 0)
    case Directory(mode) => Directory(mode)
    case Other => Other
  }

  lemma FileComesBack(list: seq<Located>, m: Manifest, tree: Tree, e: Located)
    requires Orderly(list) && e in list && e.entry.File? && m.files == FileItemsOf(list) && HoldsFiles(tree, FileSet(m))
    ensures e.path in tree && tree[e.path] == AsRestored(e.entry)
  {
    hide FileItemsOf, HasParent;
    FileItemsAre(list);
    NameOfMember(e);
    assert FileItemOf(e) in FileSet(m);
    assert FileAt(tree, FileItemOf(e));
  }

  lemma DirectoryComesBack(list: seq<Located>, m: Manifest, tree: Tree, e: Located)
    requires Orderly(list) && e in list && e.entry.Directory? && m.directories == DirItemsOf(list)
    requires HoldsDirs(tree, Items(m.directories)) && HoldsModes(tree, Items(m.directories))
    ensures e.path in tree && tree[e.path] == AsRestored(e.entry)
  {
    hide DirItemsOf, HasParent;
    DirItemsAre(list);
    NameOfMember(e);
    var d := DirItem(e.path, e.entry.mode);
    assert d in Items(m.directories) && Under(e.path, d) && Listed(e.path, Items(m.directories));
    var d' :| d' in Items(m.directories) && Parts(d'.path) == e.path && tree[e.path] == Directory(d'.mode);
    var e' :| e' in list && e'.entry.Directory? && d' == DirItem(e'.path, e'.entry.mode);
    NameOfMember(e');
    OnePerPath(list, e, e');
  }

  lemma NothingElseComesBack(list: seq<Located>, m: Manifest, tree: Tree, p: Path)
    requires Orderly(list) && m.directories == DirItemsOf(list) && m.files == FileItemsOf(list)
    requires HoldsFiles(tree, FileSet(m)) && HoldsDirs(tree, Items(m.directories)) && p in tree
    ensures exists e :: e in list && e.path == p
  {
    hide DirItemsOf, FileItemsOf, HasParent, FileAt;
    DirItemsAre(list);
    FileItemsAre(list);
    if tree[p].Directory? {
      var d :| d in Items(m.directories) && Under(p, d);
      var e :| e in list && e.entry.Directory? && d == DirItem(e.path, e.entry.mode);
      NameOfMember(e);
      if p != e.path {
        var i :| 0 <= i < |list| && list[i] == e;
        var j := PrefixListed(list, i, p);
        assert list[j] in list;
      }
    } else {
      var f :| f in FileSet(m) && Parts(f.path) == p;
      var e :| e in list && e.entry.File? && f == FileItemOf(e);
      NameOfMember(e);
    }
  }

  /** The tree holds every entry at and below the roots under the root's label, and nothing else. */
  ghost predicate Rebuilds(tree: Tree, host: Host, roots: seq<Root>) {
    && (forall r, p :: r in roots && r.path + p in host ==>
          [r.name] + p in tree && tree[[r.name] + p] == AsRestored(host[r.path + p]))
    && (forall q :: q in tree ==> exists r :: r in roots && q != [] && q[0] == r.name && r.path + q[1..] in host)
  }

  lemma ListingRebuilds(host: Host, roots: seq<Root>, m: Manifest, tree: Tree)
    requires ValidHost(host) && ValidRoots(host, roots) && Capturable(host, roots)
    requires var list := ListingOf(host, roots, roots);
      m.directories == DirItemsOf(list) && m.files == FileItemsOf(list)
    requires HoldsFiles(tree, FileSet(m)) && HoldsDirs(tree, Items(m.directories))
             && HoldsModes(tree, Items(m.directories))
    ensures Rebuilds(tree, host, roots)
  {
    hide ValidHost, ValidRoots, Capturable, ListingOf, Orderly, HoldsFiles, HoldsDirs, HoldsModes, DirItemsOf;
    hide FileItemsOf;
    var list := ListingOf(host, roots, roots);
    assert roots[..|roots|] == roots;
    ListingOrderly(host, roots, |roots|);
    NoSpecial(list);
    forall r, p | r in roots && r.path + p in host
      ensures [r.name] + p in tree && tree[[r.name] + p] == AsRestored(host[r.path + p])
    {
      var i :| 0 <= i < |roots| && roots[i] == r;
      var e := Located([roots[i].name] + p, host[roots[i].path + p]);
      assert e in list;
      if e.entry.Directory? { DirectoryComesBack(list, m, tree, e); } else { FileComesBack(list, m, tree, e); }
    }
    forall q | q in tree ensures exists r :: r in roots && q != [] && q[0] == r.name && r.path + q[1..] in host {
      NothingElseComesBack(list, m, tree, q);
      var e :| e in list && e.path == q;
      var i :| 0 <= i < |roots| && roots[i].name == e.path[0];
      assert e == Located([roots[i].name] + q[1..], e.entry);
      assert roots[i] in roots;
    }
  }

  lemma LabelsSafe(host: Host, roots: seq<Root>)
    requires ValidHost(host) && ValidRoots(host, roots) && Capturable(host, roots)
    ensures UnderLabels(ListingOf(host, roots, roots), NamesOf(roots))
  {
    hide ValidHost, Capturable, Orderly, SafeLabel, RootListing, PathInArchive, ListingOf, ValidRoots;
    assert roots[..|roots|] == roots;
    ListingOrderly(host, roots, |roots|);
    NamesSafe(host, roots);
    NamesAreLabels(ListingOf(host, roots, roots), roots);
  }

  lemma {:induction false} NamesAreLabels(list: seq<Located>, roots: seq<Root>)
    requires forall e :: e in list ==> e.path != [] && exists i :: 0 <= i < |roots| && roots[i].name == e.path[0]
    ensures forall e :: e in list ==> e.path != [] && e.path[0] in NamesOf(roots)
  {
    forall e | e in list ensures e.path != [] && e.path[0] in NamesOf(roots) {
      var i :| 0 <= i < |roots| && roots[i].name == e.path[0];
      assert NamesOf(roots)[i] == roots[i].name;
    }
  }

  lemma NamesSafe(host: Host, roots: seq<Root>)
    requires ValidRoots(host, roots)
    ensures forall name :: name in NamesOf(roots) ==> SafeLabel(name)
  {
  }

  /**
   The round trip, for every file system and every valid choice of roots without special files: the manifest
   that `capture` writes is valid, `restore_stream` accepts the archive, and the restored tree is exactly the
   captured one: paths, contents, directory and file modes, and positive modification times.
   */
  lemma RoundTrip(host: Host, roots: seq<Root>, createdAt: string, length: nat)
    requires ValidHost(host) && ValidRoots(host, roots) && Capturable(host, roots)
    ensures var list := ListingOf(host, roots, roots); var m := ManifestOf(list, NamesOf(roots), createdAt);
      var members := MembersOf(list) + [ManifestMember(m, length)];
      && m.version == MANIFEST_VERSION && ValidManifest(m) && TotalsAgree(m)
      && RestoreOf(members, m, StreamSha256(members)).Ok?
      && Rebuilds(RestoreOf(members, m, StreamSha256(members)).value, host, roots)
  {
    hide ValidHost, ValidRoots, Capturable, ListingOf, Orderly, HoldsFiles, HoldsDirs, HoldsModes, DirItemsOf;
    hide FileItemsOf;
    hide RestoreOf, ValidManifest, TotalsAgree, UnderLabels, Rebuilds;
    var list := ListingOf(host, roots, roots);
    var m := ManifestOf(list, NamesOf(roots), createdAt);
    var members := MembersOf(list) + [ManifestMember(m, length)];
    assert roots[..|roots|] == roots;
    ListingOrderly(host, roots, |roots|);
    LabelsSafe(host, roots);
    ManifestValid(list, NamesOf(roots), createdAt);
    OrderlyRestores(list, m, length);
    RestoreIsSound(members, m, StreamSha256(members));
    ListingRebuilds(host, roots, m, RestoreOf(members, m, StreamSha256(members)).value);
  }
}
