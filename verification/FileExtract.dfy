/**
 `restore`, which extracts a verified archive file instead of a stream. It makes directories with their
 mode, but through the process's file mode creation mask, a parameter here, and never sets it again.
 */
module FileExtract {
  import opened Wrappers
  import opened FileBackup
  import opened FileCapture
  import opened FileRestore
  import opened FileRoundTrip
  import opened FileVerify

  type Mask = int -> int

  const DEFAULT_MODE := 511

  /** `mkdir(mode=mode, parents=True, exist_ok=True)`. */
  function MakeDirectory(tree: Tree, path: Path, mode: int, mask: Mask): Result<Tree, string> {
    if exists p :: p in Prefixes(path) && p in tree && !tree[p].Directory? then Err("File exists")
    else Ok(map p | p in tree.Keys + Prefixes(path) ::
              if p in tree then tree[p] else Directory(mask(if p == path then mode else DEFAULT_MODE)))
  }

  function ShallowestFirst(item: DirItem, items: seq<DirItem>): seq<DirItem> {
    if items == [] then [item]
    else if |Parts(items[0].path)| < |Parts(item.path)| then [items[0]] + ShallowestFirst(item, items[1..])
    else [item] + items
  }

  /** `sorted(directories, key=depth)`. */
  function ByHeight(items: seq<DirItem>): seq<DirItem> {
    if items == [] then [] else ShallowestFirst(items[0], ByHeight(items[1..]))
  }

  function DirsMade(items: seq<DirItem>, mask: Mask): Result<Tree, string> {
    if items == [] then Ok(map[])
    else
      var last := items[|items| - 1];
      match DirsMade(items[..|items| - 1], mask)
      case Err(e) => Err(e)
      case Ok(tree) => MakeDirectory(tree, Parts(last.path), last.mode, mask)
  }

  function FileMade(tree: Tree, item: FileItem, members: seq<Member>, mask: Mask): Result<Tree, string> {
    var destination, found := Parts(item.path), FindMember(members, MemberName(item.path));
    if destination == [] then Err("Is a directory")
    else match MakeDirectory(tree, Parent(destination), PRIVATE_MODE, mask)
      case Err(e) => Err(e)
      case Ok(tree') =>
        if found.None? || !found.value.kind.RegularKind? then Err("Archive file cannot be restored")
        else if destination in tree' then Err("File exists")
        else if Size(found.value.content) != item.size || Sha256(found.value.content) != item.sha256
        then Err("Restored file does not match")
        else Ok(tree'[destination := RestoredFile(item)])
  }

  function FilesMade(tree: Tree, items: seq<FileItem>, members: seq<Member>, mask: Mask): Result<Tree, string>
    decreases |items|
  {
    if items == [] then Ok(tree)
    else match FilesMade(tree, items[..|items| - 1], members, mask)
      case Err(e) => Err(e)
      case Ok(tree') => FileMade(tree', items[|items| - 1], members, mask)
  }

  function ExtractOf(members: seq<Member>, m: Manifest, mask: Mask): Result<Tree, string> {
    match DirsMade(ByHeight(m.directories), mask)
    case Err(e) => Err(e)
    case Ok(tree) => FilesMade(tree, m.files, members, mask)
  }

  /** `restore`: the embedded manifest, and the two loops over what it lists. */
  method Extract(members: seq<Member>, mask: Mask, targetIsEmpty: bool) returns (r: Result<Tree, string>)
    ensures r.Ok? <==> targetIsEmpty
                       && exists m :: Reads(members, m) && ValidManifest(m) && ExtractOf(members, m, mask).Ok?
    ensures forall m :: r.Ok? && Reads(members, m) ==> r == ExtractOf(members, m, mask)
  {
    hide ValidManifest, MakeDirectory, FileMade, ByHeight, Reads, DirsMade, FilesMade;
    if !targetIsEmpty { return Err("Restore target must be empty"); }
    ReadsOne(members);
    var read := ReadManifest(members);
    if read.Err? { return Err(read.error); }
    var m := read.value;
    var valid := ValidateManifest(m);
    if !valid { return Err("Archive manifest shape is invalid"); }
    r := ExtractListed(members, m, mask);
  }

  /** The two loops. */
  method ExtractListed(members: seq<Member>, m: Manifest, mask: Mask) returns (r: Result<Tree, string>)
    ensures r.Ok? <==> ExtractOf(members, m, mask).Ok?
    ensures r.Ok? ==> r == ExtractOf(members, m, mask)
  {
    hide MakeDirectory, FileMade, ByHeight;
    var items := ByHeight(m.directories);
    var tree: Tree := map[];
    for i := 0 to |items|
      invariant DirsMade(items[..i], mask) == Ok(tree)
    {
      assert items[..i + 1][..i] == items[..i];
      var made := MakeDirectory(tree, Parts(items[i].path), items[i].mode, mask);
      if made.Err? {
        DirErrorStays(items, mask, i + 1);
        return Err(made.error);
      }
      tree := made.value;
    }
    assert items[..|items|] == items;
    ghost var dirs := tree;
    for i := 0 to |m.files|
      invariant FilesMade(dirs, m.files[..i], members, mask) == Ok(tree)
    {
      assert m.files[..i + 1][..i] == m.files[..i];
      var made := FileMade(tree, m.files[i], members, mask);
      if made.Err? {
        FileErrorStays(dirs, m.files, members, mask, i + 1);
        return Err(made.error);
      }
      tree := made.value;
    }
    assert m.files[..|m.files|] == m.files;
    r := Ok(tree);
  }

  lemma {:induction false} DirErrorStays(items: seq<DirItem>, mask: Mask, k: nat)
    requires k <= |items| && DirsMade(items[..k], mask).Err?
    ensures DirsMade(items, mask).Err?
    decreases |items|
  {
    if k < |items| {
      assert items[..|items| - 1][..k] == items[..k];
      DirErrorStays(items[..|items| - 1], mask, k);
    } else {
      assert items[..k] == items;
    }
  }

  lemma {:induction false} FileErrorStays(tree: Tree, items: seq<FileItem>, members: seq<Member>, mask: Mask, k: nat)
    requires k <= |items| && FilesMade(tree, items[..k], members, mask).Err?
    ensures FilesMade(tree, items, members, mask).Err?
    decreases |items|
  {
    if k < |items| {
      assert items[..|items| - 1][..k] == items[..k];
      FileErrorStays(tree, items[..|items| - 1], members, mask, k);
    } else {
      assert items[..k] == items;
    }
  }

  // ---------------------------------------------------------------- directories, shallowest first

  ghost predicate HeightAscends(items: seq<DirItem>) {
    forall i, j :: 0 <= i < j < |items| ==> |Parts(items[i].path)| <= |Parts(items[j].path)|
  }

  lemma {:induction false} ShallowestFirstSame(item: DirItem, items: seq<DirItem>)
    ensures multiset(ShallowestFirst(item, items)) == multiset(items) + multiset{item}
    ensures forall d :: d in ShallowestFirst(item, items) <==> d == item || d in items
  {
    hide Parts;
    if items != [] {
      assert items == [items[0]] + items[1..];
      if |Parts(items[0].path)| < |Parts(item.path)| { ShallowestFirstSame(item, items[1..]); }
    }
  }

  lemma {:induction false} ShallowestFirstSorts(item: DirItem, items: seq<DirItem>)
    requires HeightAscends(items)
    ensures HeightAscends(ShallowestFirst(item, items))
  {
    hide Parts;
    if items != [] && |Parts(items[0].path)| < |Parts(item.path)| {
      var rest := ShallowestFirst(item, items[1..]);
      ShallowestFirstSorts(item, items[1..]);
      ShallowestFirstSame(item, items[1..]);
      forall i | 0 <= i < |rest| ensures |Parts(items[0].path)| <= |Parts(rest[i].path)| { assert rest[i] in rest; }
    }
  }

  lemma {:induction false} ByHeightSorts(items: seq<DirItem>)
    ensures HeightAscends(ByHeight(items)) && multiset(ByHeight(items)) == multiset(items)
  {
    hide Parts;
    if items != [] {
      ByHeightSorts(items[1..]);
      ShallowestFirstSorts(items[0], ByHeight(items[1..]));
      ShallowestFirstSame(items[0], ByHeight(items[1..]));
      assert items == [items[0]] + items[1..];
    }
  }

  /** The directories of an orderly listing: clean distinct paths, each with its parent. */
  ghost predicate Family(dirs: set<DirItem>) {
    && (forall d :: d in dirs ==> d.path != [] && Parts(d.path) == d.path)
    && (forall d, e :: d in dirs && e in dirs && d.path == e.path ==> d == e)
    && (forall d :: d in dirs && |d.path| > 1 ==> exists e :: e in dirs && e.path == Parent(d.path))
  }

  lemma ItemEntry(list: seq<Located>, d: DirItem) returns (i: nat)
    requires Orderly(list) && d in Items(DirItemsOf(list))
    ensures i < |list| && list[i].entry.Directory? && list[i].path == d.path && list[i].entry.mode == d.mode
    ensures d.path != [] && Parts(d.path) == d.path
  {
    hide DirItemsOf, HasParent;
    DirItemsAre(list);
    var e :| e in list && e.entry.Directory? && d == DirItem(e.path, e.entry.mode);
    i :| 0 <= i < |list| && list[i] == e;
    NameOfMember(e);
  }

  lemma ItemParent(list: seq<Located>, d: DirItem)
    requires Orderly(list) && d in Items(DirItemsOf(list)) && |d.path| > 1
    ensures exists e :: e in Items(DirItemsOf(list)) && e.path == Parent(d.path)
  {
    hide DirItemsOf, WellNamed;
    var i := ItemEntry(list, d);
    DirItemsAre(list);
    assert HasParent(list, i);
    var j :| 0 <= j < i && list[j].path == Parent(list[i].path) && list[j].entry.Directory?;
    assert list[j] in list && DirItem(list[j].path, list[j].entry.mode) in Items(DirItemsOf(list));
  }

  lemma ListingFamily(list: seq<Located>)
    requires Orderly(list)
    ensures Family(Items(DirItemsOf(list)))
  {
    hide WellNamed, HasParent, DirItemsOf, Items, Parts;
    var dirs := Items(DirItemsOf(list));
    forall d | d in dirs ensures d.path != [] && Parts(d.path) == d.path
      && (|d.path| > 1 ==> exists e :: e in dirs && e.path == Parent(d.path))
    {
      var i := ItemEntry(list, d);
      if |d.path| > 1 { ItemParent(list, d); }
    }
    forall d, e | d in dirs && e in dirs && d.path == e.path ensures d == e {
      var i := ItemEntry(list, d);
      var j := ItemEntry(list, e);
      OnePerPath(list, list[i], list[j]);
    }
  }

  /** The tree holds exactly these directories, with masked modes. */
  ghost predicate HoldsMasked(tree: Tree, dirs: set<DirItem>, mask: Mask) {
    && (forall d :: d in dirs ==> d.path in tree && tree[d.path] == Directory(mask(d.mode)))
    && (forall p :: p in tree ==> exists d :: d in dirs && d.path == p)
  }

  /** Every directory above a made one was made. */
  ghost predicate ParentsMade(tree: Tree, path: Path) {
    forall p :: p != [] && p < path ==> p in tree && tree[p].Directory?
  }

  lemma MakesOne(tree: Tree, dirs: set<DirItem>, d: DirItem, mask: Mask)
    requires HoldsMasked(tree, dirs, mask) && d.path != [] && Parts(d.path) == d.path && d.path !in tree
    requires ParentsMade(tree, d.path)
    ensures var made := MakeDirectory(tree, Parts(d.path), d.mode, mask);
      made.Ok? && HoldsMasked(made.value, dirs + {d}, mask)
  {
    hide Parts;
    var made := MakeDirectory(tree, d.path, d.mode, mask);
    forall p | p in Prefixes(d.path) ensures p == d.path || (p in tree && tree[p].Directory?) {
      if p != d.path { assert p < d.path; }
    }
    assert d in dirs + {d};
    forall p | p in made.value ensures exists e :: e in dirs + {d} && e.path == p {
      if p != d.path { var e :| e in dirs && e.path == p; assert e in dirs + {d}; }
    }
  }

  lemma {:induction false} FamilyAbove(all: set<DirItem>, done: set<DirItem>, tree: Tree, path: Path, mask: Mask)
    requires Family(all) && HoldsMasked(tree, done, mask) && path != []
    requires exists d :: d in all && d.path == path
    requires forall e :: e in all && |e.path| < |path| ==> e in done
    ensures ParentsMade(tree, path)
    decreases |path|
  {
    if |path| > 1 {
      var up := Parent(path);
      var e :| e in all && e.path == up;
      assert e in done;
      FamilyAbove(all, done, tree, up, mask);
      forall p | p != [] && p < path ensures p in tree && tree[p].Directory? {
        if p != up { assert p < up; }
      }
    }
  }

  /** Directory `k` is made on the ones before it: those above it are there, and it is not. */
  lemma NextDirMade(tree: Tree, items: seq<DirItem>, k: nat, mask: Mask)
    requires Family(Items(items)) && HeightAscends(items) && Distinct(items) && k < |items|
    requires HoldsMasked(tree, Items(items[..k]), mask)
    ensures var made := MakeDirectory(tree, Parts(items[k].path), items[k].mode, mask);
      made.Ok? && HoldsMasked(made.value, Items(items[..k + 1]), mask)
  {
    hide Parts, MakeDirectory, HeightAscends, ParentsMade, HoldsMasked, Distinct;
    var d := items[k];
    ItemsGrow(items, k);
    CleanItem(items, k);
    EarlierAbove(items, k);
    OthersEarlier(items, k);
    hide Family, Items;
    FamilyAbove(Items(items), Items(items[..k]), tree, d.path, mask);
    NotMade(tree, Items(items[..k]), d, mask);
    MakesOne(tree, Items(items[..k]), d, mask);
  }

  lemma ItemsGrow(items: seq<DirItem>, k: nat)
    requires k < |items|
    ensures items[k] in Items(items) && Items(items[..k + 1]) == Items(items[..k]) + {items[k]}
  {
    assert items[..k + 1] == items[..k] + [items[k]];
  }

  lemma CleanItem(items: seq<DirItem>, k: nat)
    requires Family(Items(items)) && k < |items|
    ensures items[k].path != [] && Parts(items[k].path) == items[k].path
  {
    hide Parts;
    assert items[k] in Items(items);
  }

  lemma {:induction false} DirsMadeAll(items: seq<DirItem>, k: nat, mask: Mask)
    requires Family(Items(items)) && HeightAscends(items) && Distinct(items) && k <= |items|
    ensures DirsMade(items[..k], mask).Ok? && HoldsMasked(DirsMade(items[..k], mask).value, Items(items[..k]), mask)
  {
    hide Parts, MakeDirectory, HeightAscends, HoldsMasked, Family, Items, Distinct;
    if k == 0 {
      NoneMade(mask);
    } else {
      DirsMadeAll(items, k - 1, mask);
      NextDirMade(DirsMade(items[..k - 1], mask).value, items, k - 1, mask);
      assert items[..k][..k - 1] == items[..k - 1] && items[..k][k - 1] == items[k - 1];
    }
  }

  lemma NoneMade(mask: Mask)
    ensures HoldsMasked(map[], Items([]), mask)
  {
  }

  lemma NotMade(tree: Tree, dirs: set<DirItem>, d: DirItem, mask: Mask)
    requires HoldsMasked(tree, dirs, mask) && forall e :: e in dirs ==> e.path != d.path
    ensures d.path !in tree
  {
  }

  lemma LowerComesFirst(items: seq<DirItem>, i: nat, k: nat)
    requires HeightAscends(items) && i < |items| && k < |items| && |Parts(items[i].path)| < |Parts(items[k].path)|
    ensures i < k
  {
    hide Parts;
  }

  /** What lies higher comes earlier. */
  lemma EarlierAbove(items: seq<DirItem>, k: nat)
    requires Family(Items(items)) && HeightAscends(items) && k < |items|
    ensures forall e :: e in Items(items) && |e.path| < |items[k].path| ==> e in Items(items[..k])
  {
    hide Parts, HeightAscends;
    assert items[k] in Items(items);
    forall e | e in Items(items) && |e.path| < |items[k].path| ensures e in Items(items[..k]) {
      var i :| 0 <= i < |items| && items[i] == e;
      LowerComesFirst(items, i, k);
      assert items[..k][i] == e;
    }
  }

  lemma OthersEarlier(items: seq<DirItem>, k: nat)
    requires Family(Items(items)) && Distinct(items) && k < |items|
    ensures forall e :: e in Items(items[..k]) ==> e.path != items[k].path
  {
    hide Parts;
    assert items[k] in Items(items);
    forall e | e in Items(items[..k]) ensures e.path != items[k].path {
      var i :| 0 <= i < k && items[i] == e;
      assert e in Items(items);
    }
  }

  // ---------------------------------------------------------------- files

  /** What an entry is after `restore`: its directory mode went through the mask. */
  function AsExtracted(entry: Entry, mask: Mask): Entry {
    if entry.Directory? then Directory(mask(entry.mode)) else AsRestored(entry)
  }

  /** The tree holds all directories of the listing and its first `k` entries that are files. */
  ghost predicate ExtractedUpTo(tree: Tree, list: seq<Located>, k: nat, mask: Mask)
    requires k <= |list|
  {
    && (forall i :: 0 <= i < |list| && (i < k || list[i].entry.Directory?) ==>
          list[i].path in tree && tree[list[i].path] == AsExtracted(list[i].entry, mask))
    && (forall p :: p in tree ==>
          exists i :: 0 <= i < |list| && (i < k || list[i].entry.Directory?) && list[i].path == p)
  }

  lemma DirsExtracted(list: seq<Located>, tree: Tree, mask: Mask)
    requires Orderly(list) && HoldsMasked(tree, Items(DirItemsOf(list)), mask)
    ensures ExtractedUpTo(tree, list, 0, mask)
  {
    hide DirItemsOf, HasParent, WellNamed;
    DirItemsAre(list);
    var dirs := Items(DirItemsOf(list));
    forall i | 0 <= i < |list| && list[i].entry.Directory?
      ensures list[i].path in tree && tree[list[i].path] == AsExtracted(list[i].entry, mask)
    {
      assert list[i] in list && DirItem(list[i].path, list[i].entry.mode) in dirs;
    }
    forall p | p in tree ensures exists i :: 0 <= i < |list| && list[i].entry.Directory? && list[i].path == p {
      var d :| d in dirs && d.path == p;
      var e :| e in list && e.entry.Directory? && d == DirItem(e.path, e.entry.mode);
      var i :| 0 <= i < |list| && list[i] == e;
    }
  }

  lemma StandsStill(tree: Tree, path: Path, mode: int, mask: Mask)
    requires forall p :: p in Prefixes(path) ==> p in tree && tree[p].Directory?
    ensures MakeDirectory(tree, path, mode, mask) == Ok(tree)
  {
    assert tree.Keys + Prefixes(path) == tree.Keys;
    assert MakeDirectory(tree, path, mode, mask).value == tree;
  }

  /** All directories on the way to a listed file are there, so making its parent changes nothing. */
  lemma ParentStands(tree: Tree, list: seq<Located>, k: nat, mask: Mask)
    requires Orderly(list) && k < |list| && ExtractedUpTo(tree, list, k, mask)
    ensures MakeDirectory(tree, Parent(list[k].path), PRIVATE_MODE, mask) == Ok(tree)
  {
    hide WellNamed, MakeDirectory;
    assert HasParent(list, k);
    var up := Parent(list[k].path);
    forall p | p in Prefixes(up) ensures p in tree && tree[p].Directory? {
      assert p < list[k].path;
      var j := PrefixListed(list, k, p);
    }
    StandsStill(tree, up, PRIVATE_MODE, mask);
  }

  lemma FileExtracts(tree: Tree, list: seq<Located>, k: nat, members: seq<Member>, mask: Mask)
    requires Orderly(list) && k < |list| && list[k].entry.File? && ExtractedUpTo(tree, list, k, mask)
    requires FindMember(members, MemberName(list[k].path)) == Some(MemberOf(list[k]))
    ensures FileMade(tree, FileItemOf(list[k]), members, mask)
            == Ok(tree[list[k].path := AsExtracted(list[k].entry, mask)])
  {
    hide MakeDirectory, HasParent, FindMember;
    NameOfMember(list[k]);
    ParentStands(tree, list, k, mask);
    PathsApart(list, k);
  }

  lemma PathsApart(list: seq<Located>, k: nat)
    requires Orderly(list) && k < |list|
    ensures forall i :: 0 <= i < |list| && i != k ==> list[i].path != list[k].path
  {
    hide HasParent, WellNamed;
    forall i | 0 <= i < |list| && i != k ensures list[i].path != list[k].path {
      assert if i < k then list[i].path != list[k].path else list[k].path != list[i].path;
    }
  }

  lemma FileAdded(tree: Tree, list: seq<Located>, k: nat, mask: Mask)
    requires Orderly(list) && k < |list| && list[k].entry.File? && ExtractedUpTo(tree, list, k, mask)
    ensures ExtractedUpTo(tree[list[k].path := AsExtracted(list[k].entry, mask)], list, k + 1, mask)
  {
    hide Orderly, AsExtracted;
    PathsApart(list, k);
  }

  lemma DirectorySkipped(tree: Tree, list: seq<Located>, k: nat, mask: Mask)
    requires k < |list| && list[k].entry.Directory? && ExtractedUpTo(tree, list, k, mask)
    ensures ExtractedUpTo(tree, list, k + 1, mask)
  {
  }

  lemma {:induction false} FilesExtract(dirs: Tree, list: seq<Located>, k: nat, members: seq<Member>, mask: Mask)
    requires Orderly(list) && k <= |list| && ExtractedUpTo(dirs, list, 0, mask)
    requires forall e :: e in list && e.entry.File? ==> FindMember(members, MemberName(e.path)) == Some(MemberOf(e))
    ensures var r := FilesMade(dirs, FileItemsOf(list[..k]), members, mask);
      r.Ok? && ExtractedUpTo(r.value, list, k, mask)
  {
    hide Orderly, ExtractedUpTo, FileMade, FindMember, AsExtracted, FileItemOf;
    if k > 0 {
      FilesExtract(dirs, list, k - 1, members, mask);
      var tree, e := FilesMade(dirs, FileItemsOf(list[..k - 1]), members, mask).value, list[k - 1];
      assert list[..k] == list[..k - 1] + [e] && e in list;
      ListingGrows(list[..k - 1], e);
      NoSpecial(list);
      hide FileItemsOf, FilesMade;
      var items := FileItemsOf(list[..k - 1]);
      if e.entry.File? {
        LastFileMade(dirs, items, FileItemOf(e), members, mask);
        FileExtracts(tree, list, k - 1, members, mask);
        FileAdded(tree, list, k - 1, mask);
      } else {
        assert items + [] == items;
        DirectorySkipped(tree, list, k - 1, mask);
      }
    } else {
      assert list[..0] == [] && FilesMade(dirs, FileItemsOf([]), members, mask) == Ok(dirs);
    }
  }

  lemma LastFileMade(dirs: Tree, items: seq<FileItem>, item: FileItem, members: seq<Member>, mask: Mask)
    requires FilesMade(dirs, items, members, mask).Ok?
    ensures FilesMade(dirs, items + [item], members, mask)
            == FileMade(FilesMade(dirs, items, members, mask).value, item, members, mask)
  {
    hide FileMade;
    assert (items + [item])[..|items|] == items;
  }

  lemma DistinctItems(list: seq<Located>)
    requires Orderly(list)
    ensures var items := ByHeight(DirItemsOf(list));
      && Items(items) == Items(DirItemsOf(list)) && Distinct(items)
  {
    hide HasParent, WellNamed, HeightAscends;
    var dirs := DirItemsOf(list);
    ItemPathsDistinct(list);
    DirPathsAt(dirs);
    ByHeightSorts(dirs);
    forall i, j | 0 <= i < j < |dirs| ensures dirs[i] != dirs[j] { assert DirPaths(dirs)[i] != DirPaths(dirs)[j]; }
    SameDistinct(dirs, ByHeight(dirs));
  }

  lemma {:induction false} OnlyOnce(s: seq<DirItem>, d: DirItem)
    requires Distinct(s)
    ensures multiset(s)[d] <= 1
  {
    if s != [] {
      assert s == [s[0]] + s[1..];
      OnlyOnce(s[1..], d);
    }
  }

  lemma SameDistinct(s: seq<DirItem>, t: seq<DirItem>)
    requires multiset(s) == multiset(t) && Distinct(s)
    ensures Items(s) == Items(t) && Distinct(t)
  {
    assert forall d :: d in s <==> d in multiset(s);
    assert forall d :: d in t <==> d in multiset(t);
    forall i, j | 0 <= i < j < |t| ensures t[i] != t[j] {
      OnlyOnce(s, t[i]);
      if t[i] == t[j] { CountedTwice(t, i, j); }
    }
  }

  lemma CountedTwice(t: seq<DirItem>, i: nat, j: nat)
    requires i < j < |t| && t[i] == t[j]
    ensures multiset(t)[t[i]] >= 2
  {
    var upper, lower := t[..j], t[j..];
    assert t == upper + lower;
    assert upper[i] in multiset(upper) && lower[0] in multiset(lower);
  }

  /** `restore` succeeds on every captured listing, and the directories' modes went through the mask. */
  lemma OrderlyExtracts(list: seq<Located>, m: Manifest, length: nat, mask: Mask)
    requires Orderly(list) && m.directories == DirItemsOf(list) && m.files == FileItemsOf(list)
    ensures var r := ExtractOf(MembersOf(list) + [ManifestMember(m, length)], m, mask);
      r.Ok? && ExtractedUpTo(r.value, list, |list|, mask)
  {
    hide Orderly, DirItemsOf, FileItemsOf, HoldsMasked, ExtractedUpTo, DirsMade, FilesMade, Family, HeightAscends;
    hide Distinct;
    var members, items := MembersOf(list) + [ManifestMember(m, length)], ByHeight(m.directories);
    ListingFamily(list);
    DistinctItems(list);
    ByHeightSorts(m.directories);
    hide ByHeight;
    assert items[..|items|] == items && list[..|list|] == list;
    DirsMadeAll(items, |items|, mask);
    DirsExtracted(list, DirsMade(items, mask).value, mask);
    forall e | e in list && e.entry.File? ensures FindMember(members, MemberName(e.path)) == Some(MemberOf(e)) {
      MemberFound(list, m, length, e);
    }
    FilesExtract(DirsMade(items, mask).value, list, |list|, members, mask);
  }

  lemma MemberFound(list: seq<Located>, m: Manifest, length: nat, e: Located)
    requires Orderly(list) && e in list && e.entry.File?
    ensures FindMember(MembersOf(list) + [ManifestMember(m, length)], MemberName(e.path)) == Some(MemberOf(e))
  {
    hide HasParent, WellNamed, MemberName;
    var i :| 0 <= i < |list| && list[i] == e;
    MemberOfListed(e);
    CapturedDistinct(list, m, length);
    FoundWhenDistinct(MembersOf(list) + [ManifestMember(m, length)], i, MemberName(e.path));
  }

  /** The mask leaves the mode of every captured directory alone. */
  ghost predicate MaskSpares(host: Host, roots: seq<Root>, mask: Mask) {
    forall r, p :: r in roots && r.path + p in host && host[r.path + p].Directory? ==>
      mask(host[r.path + p].mode) == host[r.path + p].mode
  }

  lemma EntryExtracted(host: Host, roots: seq<Root>, tree: Tree, mask: Mask, r: Root, p: Path)
    requires ValidHost(host) && ValidRoots(host, roots) && Capturable(host, roots)
    requires var list := ListingOf(host, roots, roots); ExtractedUpTo(tree, list, |list|, mask)
    requires r in roots && r.path + p in host
    ensures [r.name] + p in tree && tree[[r.name] + p] == AsExtracted(host[r.path + p], mask)
  {
    hide ValidHost, ValidRoots, Capturable, ListingOf, Orderly, AsExtracted;
    var list := ListingOf(host, roots, roots);
    assert roots[..|roots|] == roots;
    ListingOrderly(host, roots, |roots|);
    var i :| 0 <= i < |roots| && roots[i] == r;
    var e := Located([roots[i].name] + p, host[roots[i].path + p]);
    assert e in list;
    var k :| 0 <= k < |list| && list[k] == e;
  }

  lemma NothingElseExtracted(host: Host, roots: seq<Root>, tree: Tree, mask: Mask, q: Path)
    requires ValidHost(host) && ValidRoots(host, roots) && Capturable(host, roots) && q in tree
    requires var list := ListingOf(host, roots, roots); ExtractedUpTo(tree, list, |list|, mask)
    ensures exists r :: r in roots && q != [] && q[0] == r.name && r.path + q[1..] in host
  {
    hide ValidHost, ValidRoots, Capturable, ListingOf, Orderly, AsExtracted;
    var list := ListingOf(host, roots, roots);
    assert roots[..|roots|] == roots;
    ListingOrderly(host, roots, |roots|);
    var k :| 0 <= k < |list| && list[k].path == q;
    var e := list[k];
    var i :| 0 <= i < |roots| && roots[i].name == e.path[0];
    assert e == Located([roots[i].name] + q[1..], e.entry);
    assert roots[i] in roots;
  }

  /**
   The round trip through `restore`: it always succeeds, and it rebuilds the captured tree exactly if the
   process's mask leaves every captured directory mode alone. `restore_stream` needs no such condition.
   */
  lemma ExtractRoundTrip(host: Host, roots: seq<Root>, createdAt: string, length: nat, mask: Mask)
    requires ValidHost(host) && ValidRoots(host, roots) && Capturable(host, roots)
    ensures var list := ListingOf(host, roots, roots); var m := ManifestOf(list, NamesOf(roots), createdAt);
      var members := MembersOf(list) + [ManifestMember(m, length)];
      var r := ExtractOf(members, m, mask);
      Reads(members, m) && ValidManifest(m) && r.Ok?
        && (Rebuilds(r.value, host, roots) <==> MaskSpares(host, roots, mask))
  {
    hide ValidHost, ValidRoots, Capturable, ListingOf, Orderly, ExtractedUpTo, DirItemsOf, FileItemsOf, ExtractOf;
    hide Reads, ValidManifest, MembersOf;
    CaptureReads(host, roots, createdAt, length);
    var list := ListingOf(host, roots, roots);
    var m := ManifestOf(list, NamesOf(roots), createdAt);
    assert roots[..|roots|] == roots;
    ListingOrderly(host, roots, |roots|);
    OrderlyExtracts(list, m, length, mask);
    var tree := ExtractOf(MembersOf(list) + [ManifestMember(m, length)], m, mask).value;
    forall r, p | r in roots && r.path + p in host
      ensures [r.name] + p in tree && tree[[r.name] + p] == AsExtracted(host[r.path + p], mask)
    {
      EntryExtracted(host, roots, tree, mask, r, p);
    }
    forall q | q in tree ensures exists r :: r in roots && q != [] && q[0] == r.name && r.path + q[1..] in host {
      NothingElseExtracted(host, roots, tree, mask, q);
    }
  }

  lemma CaptureReads(host: Host, roots: seq<Root>, createdAt: string, length: nat)
    requires ValidHost(host) && ValidRoots(host, roots) && Capturable(host, roots)
    ensures var list := ListingOf(host, roots, roots); var m := ManifestOf(list, NamesOf(roots), createdAt);
      Reads(MembersOf(list) + [ManifestMember(m, length)], m) && ValidManifest(m)
  {
    hide ValidHost, ValidRoots, Capturable, ListingOf, Reads, ValidManifest, HoldsFileItem, MembersOf;
    CaptureVerifies(host, roots, createdAt, length);
  }

  const OPEN_HOST: Host := map[["srv"] := Directory(511)]
  const OPEN_ROOTS: seq<Root> := [Root("ab", ["srv"])]

  function BitAt(mode: int, value: nat): int
    requires value > 0
  {
    mode / value % 2 * value
  }

  /** The creation mask 022: the write bits of group and others are cleared. */
  function UsualMask(mode: int): int {
    mode - BitAt(mode, 16) - BitAt(mode, 2)
  }

  /** Under the usual mask the file restore is exact iff no captured directory lets its group or others write. */
  lemma UsualMaskSparesIff(host: Host, roots: seq<Root>)
    ensures MaskSpares(host, roots, UsualMask) <==>
      forall r, p :: r in roots && r.path + p in host && host[r.path + p].Directory? ==>
        BitAt(host[r.path + p].mode, 16) == 0 && BitAt(host[r.path + p].mode, 2) == 0
  {
  }

  /** A directory open to all, restored under it: its mode 0777 comes back as 0755. */
  lemma MaskNarrows()
    ensures ValidHost(OPEN_HOST) && ValidRoots(OPEN_HOST, OPEN_ROOTS) && Capturable(OPEN_HOST, OPEN_ROOTS)
    ensures !MaskSpares(OPEN_HOST, OPEN_ROOTS, UsualMask) && UsualMask(511) == 493
  {
    OpenIsValid();
    UsualMaskSparesIff(OPEN_HOST, OPEN_ROOTS);
    assert OPEN_ROOTS[0].path + [] == ["srv"] && OPEN_ROOTS[0] in OPEN_ROOTS;
    hide ValidHost, ValidRoots, Capturable;
  }

  lemma OpenIsValid()
    ensures ValidHost(OPEN_HOST) && ValidRoots(OPEN_HOST, OPEN_ROOTS) && Capturable(OPEN_HOST, OPEN_ROOTS)
  {
  }
}
