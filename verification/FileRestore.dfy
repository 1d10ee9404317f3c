/** What a streaming restore that returns has restored, for arbitrary members and an arbitrary manifest. */
module FileRestore {
  import opened Wrappers
  import opened FileBackup

  ghost predicate Under(p: Path, d: DirItem) {
    p != [] && p <= Parts(d.path)
  }

  ghost predicate FileAt(tree: Tree, f: FileItem) {
    var p := Parts(f.path);
    && p != [] && p in tree && tree[p] == RestoredFile(f) && Size(f.sha256.of) == f.size
    && IsDirectory(tree, p[..|p| - 1])
  }

  /** The regular files of the tree are exactly `files`, each at a path of its own, in a directory. */
  ghost predicate HoldsFiles(tree: Tree, files: set<FileItem>) {
    && (forall f :: f in files ==> FileAt(tree, f))
    && (forall f, g :: f in files && g in files && Parts(f.path) == Parts(g.path) ==> f == g)
    && (forall p :: p in tree && !tree[p].Directory? ==> exists f :: f in files && Parts(f.path) == p)
  }

  /** The directories of the tree are exactly `dirs` and those on the way to them. */
  ghost predicate HoldsDirs(tree: Tree, dirs: set<DirItem>) {
    && (forall p :: p in tree && tree[p].Directory? ==> exists d :: d in dirs && Under(p, d))
    && (forall p, d :: d in dirs && Under(p, d) ==> p in tree && tree[p].Directory?)
  }

  ghost predicate AllPrivate(tree: Tree) {
    forall p :: p in tree && tree[p].Directory? ==> tree[p].mode == PRIVATE_MODE
  }

  ghost function SeenFiles(s: Progress, m: Manifest): set<FileItem> {
    set f | f in m.files && MemberName(f.path) in s.seen
  }

  ghost function SeenDirs(s: Progress, m: Manifest): set<DirItem> {
    set d | d in m.directories && MemberName(d.path) in s.seen
  }

  ghost predicate Sound(s: Progress, m: Manifest) {
    && s.seen <= ExpectedNames(m) && AllPrivate(s.tree)
    && HoldsFiles(s.tree, SeenFiles(s, m)) && HoldsDirs(s.tree, SeenDirs(s, m))
  }

  // ---------------------------------------------------------------- items of a valid manifest

  lemma {:induction false} DirPathsAt(items: seq<DirItem>)
    ensures |DirPaths(items)| == |items| && forall i :: 0 <= i < |items| ==> DirPaths(items)[i] == items[i].path
  {
    if items != [] { DirPathsAt(items[1..]); }
  }

  lemma {:induction false} FilePathsAt(items: seq<FileItem>)
    ensures |FilePaths(items)| == |items| && forall i :: 0 <= i < |items| ==> FilePaths(items)[i] == items[i].path
  {
    if items != [] { FilePathsAt(items[1..]); }
  }

  lemma ItemPathsAt(m: Manifest)
    ensures |ItemPaths(m)| == |m.directories| + |m.files|
    ensures forall i :: 0 <= i < |m.directories| ==> ItemPaths(m)[i] == m.directories[i].path
    ensures forall i :: 0 <= i < |m.files| ==> ItemPaths(m)[|m.directories| + i] == m.files[i].path
  {
    DirPathsAt(m.directories);
    FilePathsAt(m.files);
  }


  lemma SafeDir(m: Manifest, d: DirItem)
    requires ValidManifest(m) && d in m.directories
    ensures SafePath(d.path, m.roots)
  {
    hide SafePath;
    ItemPathsAt(m);
    var i :| 0 <= i < |m.directories| && m.directories[i] == d;
    assert d.path == ItemPaths(m)[i];
  }

  lemma FilesDiffer(m: Manifest, f: FileItem, g: FileItem)
    requires ValidManifest(m) && f in m.files && g in m.files && f.path == g.path
    ensures f == g
  {
    hide SafePath;
    ItemPathsAt(m);
    var i :| 0 <= i < |m.files| && m.files[i] == f;
    var k :| 0 <= k < |m.files| && m.files[k] == g;
    assert ItemPaths(m)[|m.directories| + i] == ItemPaths(m)[|m.directories| + k];
  }

  lemma DirsDiffer(m: Manifest, d: DirItem, e: DirItem)
    requires ValidManifest(m) && d in m.directories && e in m.directories && d.path == e.path
    ensures d == e
  {
    hide SafePath;
    ItemPathsAt(m);
    var i :| 0 <= i < |m.directories| && m.directories[i] == d;
    var k :| 0 <= k < |m.directories| && m.directories[k] == e;
    assert ItemPaths(m)[i] == ItemPaths(m)[k];
  }

  lemma FileIsNoDir(m: Manifest, f: FileItem, d: DirItem)
    requires ValidManifest(m) && f in m.files && d in m.directories
    ensures f.path != d.path
  {
    hide SafePath;
    ItemPathsAt(m);
    var i :| 0 <= i < |m.files| && m.files[i] == f;
    var k :| 0 <= k < |m.directories| && m.directories[k] == d;
    assert ItemPaths(m)[|m.directories| + i] == f.path && ItemPaths(m)[k] == d.path;
  }

  /** `data/` in front keeps paths apart from each other and from the manifest's name. */
  lemma MemberNames(a: Text, b: Text)
    ensures MemberName(a) == MemberName(b) ==> a == b
    ensures MemberName(a)[1..] == a && MemberName(a) != [MANIFEST_NAME]
  {
    assert MemberName(a)[1..] == a && MemberName(b)[1..] == b;
    assert MemberName(a)[0] == "data";
  }

  // ---------------------------------------------------------------- one member

  lemma SeesDir(s: Progress, s': Progress, d: DirItem, m: Manifest)
    requires ValidManifest(m) && d in m.directories && s'.seen == s.seen + {MemberName(d.path)}
    ensures SeenDirs(s', m) == SeenDirs(s, m) + {d} && SeenFiles(s', m) == SeenFiles(s, m)
  {
    hide ValidManifest, MemberName;
    forall f | f in m.files ensures MemberName(f.path) != MemberName(d.path) {
      MemberNames(f.path, d.path);
      FileIsNoDir(m, f, d);
    }
    forall e | e in m.directories && MemberName(e.path) == MemberName(d.path) ensures e == d {
      MemberNames(e.path, d.path);
      DirsDiffer(m, e, d);
    }
  }

  lemma SeesFile(s: Progress, s': Progress, f: FileItem, m: Manifest)
    requires ValidManifest(m) && f in m.files && s'.seen == s.seen + {MemberName(f.path)}
    ensures SeenDirs(s', m) == SeenDirs(s, m) && SeenFiles(s', m) == SeenFiles(s, m) + {f}
  {
    hide ValidManifest, MemberName;
    forall d | d in m.directories ensures MemberName(d.path) != MemberName(f.path) {
      MemberNames(d.path, f.path);
      FileIsNoDir(m, f, d);
    }
    forall g | g in m.files && MemberName(g.path) == MemberName(f.path) ensures g == f {
      MemberNames(g.path, f.path);
      FilesDiffer(m, g, f);
    }
  }

  lemma SeesManifest(s: Progress, s': Progress, m: Manifest)
    requires s'.seen == s.seen + {[MANIFEST_NAME]}
    ensures SeenDirs(s', m) == SeenDirs(s, m) && SeenFiles(s', m) == SeenFiles(s, m)
  {
    forall path: Text ensures MemberName(path) != [MANIFEST_NAME] { MemberNames(path, path); }
  }

  lemma DirectoryAdds(tree: Tree, d: DirItem, dirs: set<DirItem>, files: set<FileItem>, tree': Tree)
    requires HoldsFiles(tree, files) && HoldsDirs(tree, dirs) && AllPrivate(tree)
    requires MakeDirectories(tree, Parts(d.path)) == Ok(tree')
    ensures HoldsFiles(tree', files) && HoldsDirs(tree', dirs + {d}) && AllPrivate(tree')
  {
    hide Parts, RestoredFile;
    forall p ensures p in tree' <==> p in tree || Under(p, d) { }
    forall f | f in files ensures FileAt(tree', f) { assert FileAt(tree, f); }
    assert d in dirs + {d};
    forall p, e | e in dirs + {d} && Under(p, e) ensures p in tree' && tree'[p].Directory? { }
  }

  lemma FileAddsFile(tree: Tree, f: FileItem, files: set<FileItem>)
    requires HoldsFiles(tree, files)
    requires var p := Parts(f.path);
      p != [] && p !in tree && IsDirectory(tree, p[..|p| - 1]) && Size(f.sha256.of) == f.size
    ensures HoldsFiles(tree[Parts(f.path) := RestoredFile(f)], files + {f})
  {
    hide Parts;
    var p := Parts(f.path);
    var tree' := tree[p := RestoredFile(f)];
    forall g | g in files + {f} ensures FileAt(tree', g) {
      if g in files { assert FileAt(tree, g); }
    }
    assert f in files + {f};
    forall g | g in files ensures Parts(g.path) != p && g in files + {f} { assert FileAt(tree, g); }
  }

  lemma FileKeepsDirs(tree: Tree, p: Path, file: Entry, dirs: set<DirItem>)
    requires HoldsDirs(tree, dirs) && AllPrivate(tree) && p !in tree && !file.Directory?
    ensures HoldsDirs(tree[p := file], dirs) && AllPrivate(tree[p := file])
  {
  }

  lemma RestoredIsFile(f: FileItem)
    ensures RestoredFile(f).File? && RestoredFile(f).content == f.sha256.of && RestoredFile(f).mode == f.mode
  {
  }

  /** Every member the loop accepts keeps the restored tree equal to what the manifest says of it. */
  lemma RestoredSound(s: Progress, member: Member, m: Manifest)
    requires ValidManifest(m) && Sound(s, m) && Restored(s, member, m).Ok?
    ensures Sound(Restored(s, member, m).value, m)
    ensures Restored(s, member, m).value.seen == s.seen + {Strip(member.name)} && Strip(member.name) !in s.seen
  {
    hide ValidManifest, HoldsFiles, HoldsDirs, AllPrivate, Parts, MakeDirectories, SeenFiles, SeenDirs, IsDirectory;
    hide RestoredFile, Strip, MemberName;
    var name, s' := Strip(member.name), Restored(s, member, m).value;
    if name == [MANIFEST_NAME] {
      SeesManifest(s, s', m);
    } else if name in DirNames(m) {
      var d :| d in m.directories && MemberName(d.path) == name;
      MemberNames(d.path, d.path);
      SeesDir(s, s', d, m);
      DirectoryAdds(s.tree, d, SeenDirs(s, m), SeenFiles(s, m), s'.tree);
    } else {
      var f := FindFile(m.files, name).value;
      MemberNames(f.path, f.path);
      SeesFile(s, s', f, m);
      FileAddsFile(s.tree, f, SeenFiles(s, m));
      RestoredIsFile(f);
      FileKeepsDirs(s.tree, Parts(f.path), RestoredFile(f), SeenDirs(s, m));
    }
  }

  // ---------------------------------------------------------------- the whole stream

  function StrippedNames(members: seq<Member>): seq<Text> {
    if members == [] then []
    else StrippedNames(members[..|members| - 1]) + [Strip(members[|members| - 1].name)]
  }

  lemma {:induction false} AllSound(members: seq<Member>, m: Manifest)
    requires ValidManifest(m) && RestoredAll(START, members, m).Ok?
    ensures Sound(RestoredAll(START, members, m).value, m)
    ensures Distinct(StrippedNames(members))
    ensures forall n :: n in StrippedNames(members) <==> n in RestoredAll(START, members, m).value.seen
    decreases |members|
  {
    hide ValidManifest, Sound, Restored, Strip;
    if members == [] {
      NothingSound(m);
    } else {
      var n := |members| - 1;
      AllSound(members[..n], m);
      RestoredSound(RestoredAll(START, members[..n], m).value, members[n], m);
    }
  }

  lemma NothingSound(m: Manifest)
    ensures Sound(START, m)
  {
  }

  lemma {:induction false} DeepestFirstSame(item: DirItem, items: seq<DirItem>)
    ensures multiset(DeepestFirst(item, items)) == multiset(items) + multiset{item}
  {
    if items != [] {
      assert items == [items[0]] + items[1..];
      if |Parts(items[0].path)| > |Parts(item.path)| { DeepestFirstSame(item, items[1..]); }
    }
  }

  lemma {:induction false} ByDepthSame(items: seq<DirItem>)
    ensures multiset(ByDepth(items)) == multiset(items)
  {
    if items != [] {
      ByDepthSame(items[1..]);
      DeepestFirstSame(items[0], ByDepth(items[1..]));
      assert items == [items[0]] + items[1..];
    }
  }

  /** `p` is a listed directory. */
  ghost predicate Listed(p: Path, dirs: set<DirItem>) {
    exists d :: d in dirs && Parts(d.path) == p
  }

  ghost predicate ListedMode(p: Path, entry: Entry, dirs: set<DirItem>) {
    exists d :: d in dirs && Parts(d.path) == p && entry == Directory(d.mode)
  }

  ghost function Items(items: seq<DirItem>): set<DirItem> {
    set d | d in items
  }

  /** The final `chmod`s touch listed directories only, and each path ends with a mode listed for it. */
  lemma {:induction false} ModesSet(tree: Tree, items: seq<DirItem>)
    ensures forall p :: p in WithModes(tree, items) <==> p in tree || Listed(p, Items(items))
    ensures forall p :: p in WithModes(tree, items) ==>
              if Listed(p, Items(items)) then ListedMode(p, WithModes(tree, items)[p], Items(items))
              else p in tree && WithModes(tree, items)[p] == tree[p]
    decreases |items|
  {
    hide Parts;
    if items != [] {
      var n := |items| - 1;
      ModesSet(tree, items[..n]);
      assert items == items[..n] + [items[n]];
      assert Items(items) == Items(items[..n]) + {items[n]};
      assert items[n] in Items(items);
    }
  }

  /** A tree whose directory modes are the listed ones, private where none is listed. */
  ghost predicate HoldsModes(tree: Tree, dirs: set<DirItem>) {
    forall p :: p in tree && tree[p].Directory? ==>
      if Listed(p, dirs) then ListedMode(p, tree[p], dirs) else tree[p] == Directory(PRIVATE_MODE)
  }

  ghost function FileSet(m: Manifest): set<FileItem> {
    set f | f in m.files
  }

  /** Two trees that differ in directory modes only. */
  ghost predicate SameShape(tree: Tree, t: Tree) {
    && tree.Keys == t.Keys
    && forall p :: p in tree ==> if tree[p].Directory? then t[p].Directory? else t[p] == tree[p]
  }

  lemma ShapeHolds(tree: Tree, t: Tree, dirs: set<DirItem>, files: set<FileItem>)
    requires SameShape(tree, t) && HoldsFiles(tree, files) && HoldsDirs(tree, dirs)
    ensures HoldsFiles(t, files) && HoldsDirs(t, dirs)
  {
  }

  lemma ModesKeep(tree: Tree, m: Manifest)
    requires ValidManifest(m) && AllPrivate(tree)
    requires HoldsFiles(tree, FileSet(m)) && HoldsDirs(tree, Items(m.directories))
    ensures var t := WithModes(tree, ByDepth(m.directories));
      HoldsFiles(t, FileSet(m)) && HoldsDirs(t, Items(m.directories)) && HoldsModes(t, Items(m.directories))
  {
    hide Parts, RestoredFile, ValidManifest, ByDepth, WithModes, HoldsFiles, ListedMode, Listed;
    var items, dirs := ByDepth(m.directories), Items(m.directories);
    var t := WithModes(tree, items);
    ByDepthSame(m.directories);
    assert forall d :: d in items <==> d in multiset(items);
    assert forall d :: d in m.directories <==> d in multiset(m.directories);
    assert Items(items) == dirs;
    ModesSet(tree, items);
    ListedHeld(tree, m);
    assert SameShape(tree, t);
    assert HoldsModes(t, dirs);
    hide HoldsDirs;
    ShapeHolds(tree, t, dirs, FileSet(m));
  }

  lemma ListedHeld(tree: Tree, m: Manifest)
    requires ValidManifest(m) && HoldsDirs(tree, Items(m.directories))
    ensures forall p :: Listed(p, Items(m.directories)) ==> p in tree && tree[p].Directory?
    ensures forall p, e :: ListedMode(p, e, Items(m.directories)) ==> e.Directory?
  {
    hide Parts, ValidManifest;
    forall d | d in m.directories ensures Parts(d.path) in tree && tree[Parts(d.path)].Directory? {
      DirNotEmpty(m, d);
      assert Under(Parts(d.path), d);
    }
  }

  lemma DirNotEmpty(m: Manifest, d: DirItem)
    requires ValidManifest(m) && d in m.directories
    ensures Parts(d.path) != []
  {
    SafeDir(m, d);
  }

  /**
   Soundness, for any members and any manifest: if the restore returns, every member name was seen once and
   they are exactly the manifest's; the regular files are exactly the manifest's, with the recorded size,
   digest and mode; the directories are the manifest's and those on the way to them, with the recorded modes.
   */
  lemma RestoreIsSound(members: seq<Member>, m: Manifest, expected: ArchiveDigest)
    requires ValidManifest(m) && RestoreOf(members, m, expected).Ok?
    ensures var tree := RestoreOf(members, m, expected).value;
      HoldsFiles(tree, FileSet(m)) && HoldsDirs(tree, Items(m.directories)) && HoldsModes(tree, Items(m.directories))
    ensures Distinct(StrippedNames(members)) && forall n :: n in StrippedNames(members) <==> n in ExpectedNames(m)
    ensures StreamSha256(members) == expected
  {
    hide ValidManifest, HoldsFiles, HoldsDirs, HoldsModes, WithModes, ByDepth;
    AllSound(members, m);
    var s := RestoredAll(START, members, m).value;
    assert SeenDirs(s, m) == Items(m.directories) && SeenFiles(s, m) == FileSet(m);
    ModesKeep(s.tree, m);
  }
}
