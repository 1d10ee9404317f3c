/** The recovery floor the pruner keeps, and how far a dry run predicts what an apply run does. */
module RetentionTheorems {
  import opened Wrappers
  import opened TextOrder
  import opened Retention

  // ---------------------------------------------------------------- sets and their files

  ghost function FileNames(archive: string): set<string> {
    {archive, archive + ".manifest.json", archive + ".sha256"}
  }

  lemma LocalSetFiles(d: Dir, archive: string, verifyHashes: bool)
    requires LocalSet(d, archive, verifyHashes).Ok?
    ensures var s := LocalSet(d, archive, verifyHashes).value;
      && s.name == archive && Unchanged(d, s)
      && s.files.Keys == FileNames(archive)
  {
  }

  ghost predicate AreArchives(names: seq<string>) {
    && (forall i :: 0 <= i < |names| ==> IsArchive(names[i]))
    && (forall i, j :: 0 <= i < j < |names| ==> names[i] != names[j] && AtMost(names[j], names[i]))
  }

  lemma NewestFirstOrder(d: Dir)
    ensures AreArchives(NewestFirst(d))
  {
    hide IsStamp;
    var sorted := SortedNames(Archives(d));
    forall i | 0 <= i < |sorted| ensures IsArchive(sorted[i]) {
      assert sorted[i] in Archives(d);
      var name :| name in d.entries && IsMember(name) && name[..37] == sorted[i];
    }
  }

  /** Passing sets keep the order of their names. */
  lemma {:induction false} PassingOrder(d: Dir, names: seq<string>, verifyHashes: bool)
    requires AreArchives(names)
    ensures var sets := Passing(d, names, verifyHashes);
      && AreArchives(NamesOf(sets)) && |sets| <= |names|
      && (forall i :: 0 <= i < |sets| ==>
            sets[i].name in names && LocalSet(d, sets[i].name, verifyHashes) == Ok(sets[i]))
  {
    hide LocalSet, IsArchive, AtMost, NamesOf;
    if names != [] {
      var n := |names| - 1;
      assert AreArchives(names[..n]);
      PassingOrder(d, names[..n], verifyHashes);
      var last := LocalSet(d, names[n], verifyHashes);
      if last.Ok? {
        LocalSetFiles(d, names[n], verifyHashes);
        var before := Passing(d, names[..n], verifyHashes);
        assert Passing(d, names, verifyHashes) == before + [last.value];
        hide Passing;
        forall i | 0 <= i < |before|
          ensures before[i].name in names && before[i].name != names[n] && AtMost(names[n], before[i].name)
        {
          var k :| 0 <= k < n && names[..n][k] == before[i].name;
          assert names[k] == before[i].name;
        }
        AppendArchive(before, last.value);
      }
    }
  }

  lemma {:induction false} AppendArchive(sets: seq<BackupSet>, last: BackupSet)
    requires AreArchives(NamesOf(sets)) && IsArchive(last.name)
    requires forall i :: 0 <= i < |sets| ==> sets[i].name != last.name && AtMost(last.name, sets[i].name)
    ensures AreArchives(NamesOf(sets + [last]))
  {
    hide IsArchive, AtMost, AreArchives, NamesOf;
    assert NamesOf(sets + [last]) == NamesOf(sets) + [last.name];
    AppendName(NamesOf(sets), last.name);
  }

  lemma {:induction false} AppendName(names: seq<string>, last: string)
    requires AreArchives(names) && IsArchive(last)
    requires forall i :: 0 <= i < |names| ==> names[i] != last && AtMost(last, names[i])
    ensures AreArchives(names + [last])
  {
    hide IsArchive, AtMost;
    var more := names + [last];
    forall i, j | 0 <= i < j < |more| ensures more[i] != more[j] && AtMost(more[j], more[i]) {
      if j < |names| { assert more[i] == names[i] && more[j] == names[j]; }
    }
  }

  /** The valid sets: distinct archives, newest first, each passing; all hash-verified if any is beyond the floor. */
  lemma ValidSetsOrder(d: Dir, keepCount: nat)
    ensures var valid := ValidSets(d, keepCount);
      && AreArchives(NamesOf(valid))
      && (forall i :: 0 <= i < |valid| ==>
            LocalSet(d, valid[i].name, |Passing(d, NewestFirst(d), false)| > keepCount) == Ok(valid[i]))
      && (|valid| > keepCount ==> |Passing(d, NewestFirst(d), false)| > keepCount)
  {
    hide LocalSet, Passing, NewestFirst, AreArchives;
    NewestFirstOrder(d);
    PassingOrder(d, NewestFirst(d), false);
    PassingOrder(d, NamesOf(Passing(d, NewestFirst(d), false)), true);
  }

  lemma FilesAreMembers(a: string)
    requires IsArchive(a)
    ensures forall n :: n in FileNames(a) ==> IsMember(n) && n[..37] == a
  {
    hide IsStamp;
    assert (a + ".manifest.json")[..37] == a && (a + ".manifest.json")[37..] == ".manifest.json";
    assert (a + ".sha256")[..37] == a && (a + ".sha256")[37..] == ".sha256";
    assert a[..37] == a && a[37..] == "";
  }

  lemma FilesApart(a: string, b: string)
    requires IsArchive(a) && IsArchive(b) && a != b
    ensures FileNames(a) !! FileNames(b)
  {
    FilesAreMembers(a);
    FilesAreMembers(b);
    hide FileNames, IsMember;
    forall n | n in FileNames(a) ensures n !in FileNames(b) { }
  }

  lemma MemberIsNotResidual(name: string)
    requires IsMember(name)
    ensures !IsResidual(name)
  {
  }

  lemma SnapshotBeforeFailed(s: string, f: string)
    requires IsSnapshot(s) && IsFailed(f)
    ensures AtMost(s, f) && !AtMost(f, s)
  {
  }

  // ---------------------------------------------------------------- removing names

  /** Removing names keeps every other sole file sole. */
  lemma StaysSole(d: Dir, gone: set<string>, name: string)
    requires Sole(d, name) && name !in gone
    ensures Sole(WithoutNames(d, gone), name) && WithoutNames(d, gone).entries[name] == d.entries[name]
  {
  }

  lemma StaysUnchanged(d: Dir, gone: set<string>, item: BackupSet)
    requires Unchanged(d, item) && item.files.Keys !! gone
    ensures Unchanged(WithoutNames(d, gone), item)
  {
  }

  // ---------------------------------------------------------------- the floor, whatever others do meanwhile

  /**
   One removal, in whatever directory `d` the pass finds: the set matches its off-site copy, every protected
   file is still the very file that was checked, before and after, and nothing but the set's files goes.
   */
  lemma FloorAtEachRemoval(o: Outcome, d: Dir, item: BackupSet, protected: seq<BackupSet>, cfg: Config)
    requires forall i :: 0 <= i < |protected| ==> protected[i].files.Keys !! item.files.Keys
    requires |Pruned(o, d, item, protected, cfg).removed| > |o.removed|
    ensures var r := Pruned(o, d, item, protected, cfg);
      && cfg.apply && Offsite(item, cfg) && Unchanged(d, item)
      && r.removed == o.removed + [item.name] && r.dir == WithoutNames(d, item.files.Keys)
      && (forall i :: 0 <= i < |protected| ==> Unchanged(d, protected[i]) && Unchanged(r.dir, protected[i]))
  {
    hide Unchanged, Offsite, Blocks;
    forall i | 0 <= i < |protected| ensures Unchanged(WithoutNames(d, item.files.Keys), protected[i]) {
      StaysUnchanged(d, item.files.Keys, protected[i]);
    }
  }

  /** The pruning loop while others are at work: the pass for `older[i]` finds the directory `worlds[i]`. */
  function PrunedAmid(o: Outcome, older: seq<BackupSet>, protected: seq<BackupSet>, cfg: Config,
                      worlds: seq<Dir>): Outcome
    requires |worlds| == |older|
    decreases |older|
  {
    if older == [] then o
    else
      var n := |older| - 1;
      Pruned(PrunedAmid(o, older[..n], protected, cfg, worlds[..n]), worlds[n], older[n], protected, cfg)
  }

  /** Left alone, the loop finds in each pass what the pass before left. */
  lemma {:induction false} QuietIsAmid(o: Outcome, older: seq<BackupSet>, protected: seq<BackupSet>, cfg: Config)
    returns (worlds: seq<Dir>)
    ensures |worlds| == |older| && PrunedAmid(o, older, protected, cfg, worlds) == PrunedAll(o, older, protected, cfg)
    decreases |older|
  {
    hide Pruned;
    if older == [] {
      worlds := [];
    } else {
      var n := |older| - 1;
      var before := QuietIsAmid(o, older[..n], protected, cfg);
      worlds := before + [PrunedAll(o, older[..n], protected, cfg).dir];
      assert worlds[..n] == before;
    }
  }

  /** What holds in the directory `w` of the pass that removes `item`, before the removal and after it. */
  ghost predicate RemovedFairly(w: Dir, item: BackupSet, protected: seq<BackupSet>, cfg: Config) {
    && cfg.apply && Offsite(item, cfg) && Unchanged(w, item)
    && forall p :: p in protected ==> Unchanged(w, p) && Unchanged(WithoutNames(w, item.files.Keys), p)
  }

  ghost predicate FairlyRemoved(name: string, older: seq<BackupSet>, protected: seq<BackupSet>, cfg: Config,
                                worlds: seq<Dir>)
    requires |worlds| == |older|
  {
    exists i :: 0 <= i < |older| && older[i].name == name && RemovedFairly(worlds[i], older[i], protected, cfg)
  }

  /** Every name the loop reports as removed was removed fairly, in the pass of its set. */
  lemma {:induction false} RemovalsAreFair(o: Outcome, older: seq<BackupSet>, protected: seq<BackupSet>, cfg: Config,
                                           worlds: seq<Dir>)
    requires |worlds| == |older| && o.removed == [] && forall p :: p in protected ==> ApartFrom(older, p)
    ensures forall name :: name in PrunedAmid(o, older, protected, cfg, worlds).removed ==>
              FairlyRemoved(name, older, protected, cfg, worlds)
    decreases |older|
  {
    hide Unchanged, Offsite, RemovedFairly, Pruned;
    if older != [] {
      var n := |older| - 1;
      RemovalsAreFair(o, older[..n], protected, cfg, worlds[..n]);
      var before := PrunedAmid(o, older[..n], protected, cfg, worlds[..n]);
      assert older[n] in older;
      PassIsFair(before, worlds[n], older[n], protected, cfg);
      forall i | 0 <= i < n ensures older[..n][i] == older[i] && worlds[..n][i] == worlds[i] {}
    }
  }

  lemma PassIsFair(o: Outcome, w: Dir, item: BackupSet, protected: seq<BackupSet>, cfg: Config)
    requires forall p :: p in protected ==> p.files.Keys !! item.files.Keys
    ensures var r := Pruned(o, w, item, protected, cfg);
      r.removed == o.removed || (r.removed == o.removed + [item.name] && RemovedFairly(w, item, protected, cfg))
  {
    hide Unchanged, Offsite, Blocks;
    if |Pruned(o, w, item, protected, cfg).removed| > |o.removed| {
      FloorAtEachRemoval(o, w, item, protected, cfg);
      forall p | p in protected ensures Unchanged(w, p) && Unchanged(WithoutNames(w, item.files.Keys), p) {
        var i :| 0 <= i < |protected| && protected[i] == p;
      }
    }
  }

  // ---------------------------------------------------------------- a quiet run of the pruning loop

  function Copied(older: seq<BackupSet>, cfg: Config): seq<BackupSet> {
    if older == [] then []
    else Copied(older[..|older| - 1], cfg) + if Offsite(older[|older| - 1], cfg) then [older[|older| - 1]] else []
  }

  function NotCopied(older: seq<BackupSet>, cfg: Config): seq<Blocked> {
    if older == [] then []
    else NotCopied(older[..|older| - 1], cfg)
         + if Offsite(older[|older| - 1], cfg) then []
           else [Blocked(older[|older| - 1].name, OffsiteFault(older[|older| - 1], cfg).value)]
  }

  function FilesOf(sets: seq<BackupSet>): set<string> {
    set item, name | item in sets && name in item.files :: name
  }

  ghost predicate Disjoint(sets: seq<BackupSet>) {
    forall i, j :: 0 <= i < j < |sets| ==> sets[i].files.Keys !! sets[j].files.Keys
  }

  ghost predicate ApartFrom(sets: seq<BackupSet>, item: BackupSet) {
    forall other :: other in sets ==> other.files.Keys !! item.files.Keys
  }

  ghost predicate AllUnchanged(d: Dir, sets: seq<BackupSet>) {
    forall item :: item in sets ==> Unchanged(d, item)
  }

  lemma {:induction false} CopiedAmong(older: seq<BackupSet>, cfg: Config)
    ensures forall item :: item in Copied(older, cfg) <==> item in older && Offsite(item, cfg)
  {
    hide Offsite;
    if older != [] {
      CopiedAmong(older[..|older| - 1], cfg);
      assert older == older[..|older| - 1] + [older[|older| - 1]];
    }
  }

  lemma NamesGrow(sets: seq<BackupSet>, item: BackupSet)
    ensures NamesOf(sets + [item]) == NamesOf(sets) + [item.name]
  {
    hide NamesOf;
  }

  lemma FilesGrow(sets: seq<BackupSet>, item: BackupSet)
    ensures FilesOf(sets + [item]) == FilesOf(sets) + item.files.Keys
  {
    forall x ensures x in sets + [item] <==> x in sets || x == item {}
  }

  lemma CopiedGrows(rest: seq<BackupSet>, item: BackupSet, cfg: Config)
    ensures var now := Copied(rest + [item], cfg);
      && NamesOf(now) == NamesOf(Copied(rest, cfg)) + (if Offsite(item, cfg) then [item.name] else [])
      && FilesOf(now) == FilesOf(Copied(rest, cfg)) + (if Offsite(item, cfg) then item.files.Keys else {})
    ensures NotCopied(rest + [item], cfg)
            == NotCopied(rest, cfg)
              + (if Offsite(item, cfg) then [] else [Blocked(item.name, OffsiteFault(item, cfg).value)])
  {
    assert (rest + [item])[..|rest|] == rest;
    var copied := Copied(rest, cfg);
    NamesGrow(copied, item);
    FilesGrow(copied, item);
    assert copied + [] == copied && NotCopied(rest, cfg) + [] == NotCopied(rest, cfg);
    hide Offsite, NamesOf, FilesOf;
  }

  lemma WithoutMore(d: Dir, a: set<string>, b: set<string>)
    ensures WithoutNames(WithoutNames(d, a), b) == WithoutNames(d, a + b) && WithoutNames(d, {}) == d
  {
  }

  /** Removing copied sets changes nothing of a set that shares no file with them. */
  lemma CopiedGone(d: Dir, older: seq<BackupSet>, cfg: Config, item: BackupSet)
    requires ApartFrom(older, item) && Unchanged(d, item)
    ensures Unchanged(WithoutNames(d, FilesOf(Copied(older, cfg))), item)
  {
  }

  ghost predicate PrunedTo(r: Outcome, o: Outcome, older: seq<BackupSet>, cfg: Config) {
    && r.dir == WithoutNames(o.dir, if cfg.apply then FilesOf(Copied(older, cfg)) else {})
    && r.candidates == o.candidates + NamesOf(Copied(older, cfg))
    && r.removed == o.removed + (if cfg.apply then NamesOf(Copied(older, cfg)) else [])
    && r.blocked == o.blocked + NotCopied(older, cfg) && r.residual == o.residual
  }

  lemma PrunesOne(r: Outcome, o: Outcome, rest: seq<BackupSet>, item: BackupSet, protected: seq<BackupSet>, cfg: Config)
    requires PrunedTo(r, o, rest, cfg) && AllUnchanged(r.dir, protected) && Unchanged(r.dir, item)
    ensures PrunedTo(Pruned(r, r.dir, item, protected, cfg), o, rest + [item], cfg)
  {
    hide Unchanged, Offsite, Blocks, Copied, NotCopied, FilesOf;
    CopiedGrows(rest, item, cfg);
    WithoutMore(o.dir, FilesOf(Copied(rest, cfg)), item.files.Keys);
    WithoutMore(o.dir, {}, item.files.Keys);
    assert forall i :: 0 <= i < |protected| ==> protected[i] in protected;
  }

  /** With nobody else at work the identity checks never fail: exactly the sets with off-site copies go. */
  lemma {:induction false} PrunedQuietly(o: Outcome, older: seq<BackupSet>, protected: seq<BackupSet>, cfg: Config)
    requires Disjoint(older) && forall item :: item in protected ==> ApartFrom(older, item)
    requires AllUnchanged(o.dir, older) && AllUnchanged(o.dir, protected)
    ensures PrunedTo(PrunedAll(o, older, protected, cfg), o, older, cfg)
    decreases |older|
  {
    hide Unchanged, Pruned, PrunedTo;
    if older == [] {
      PrunedNothing(o, cfg);
    } else {
      var n := |older| - 1;
      var rest, item := older[..n], older[n];
      assert older == rest + [item];
      PrunedQuietly(o, rest, protected, cfg);
      var r := PrunedAll(o, rest, protected, cfg);
      assert ApartFrom(rest, item);
      assert item in older;
      PrunedDir(r, o, rest, cfg);
      CopiedGone(o.dir, rest, cfg, item);
      WithoutMore(o.dir, {}, {});
      forall p | p in protected ensures Unchanged(r.dir, p) { CopiedGone(o.dir, rest, cfg, p); }
      PrunesOne(r, o, rest, item, protected, cfg);
    }
  }

  lemma PrunedDir(r: Outcome, o: Outcome, rest: seq<BackupSet>, cfg: Config)
    requires PrunedTo(r, o, rest, cfg)
    ensures r.dir == WithoutNames(o.dir, if cfg.apply then FilesOf(Copied(rest, cfg)) else {})
  {
  }

  lemma PrunedNothing(o: Outcome, cfg: Config)
    ensures PrunedTo(o, o, [], cfg)
  {
  }

  // ---------------------------------------------------------------- the selection is fit for pruning

  lemma ValidSetFit(d: Dir, keepCount: nat, i: nat)
    requires i < |ValidSets(d, keepCount)|
    ensures var item := ValidSets(d, keepCount)[i];
      && IsArchive(item.name) && Unchanged(d, item) && item.files.Keys == FileNames(item.name)
      && (forall j :: i < j < |ValidSets(d, keepCount)| ==>
            item.name != ValidSets(d, keepCount)[j].name && AtMost(ValidSets(d, keepCount)[j].name, item.name))
  {
    hide LocalSet, ValidSets, Unchanged, IsArchive, AtMost, FileNames;
    ValidSetsOrder(d, keepCount);
    var valid := ValidSets(d, keepCount);
    assert forall k :: 0 <= k < |valid| ==> NamesOf(valid)[k] == valid[k].name;
    LocalSetFiles(d, valid[i].name, |Passing(d, NewestFirst(d), false)| > keepCount);
  }

  lemma SelectionFit(d: Dir, keepCount: nat)
    ensures var protected, older := Protected(d, keepCount), Older(d, keepCount);
      && Disjoint(older) && (forall item :: item in protected ==> ApartFrom(older, item))
      && AllUnchanged(d, older) && AllUnchanged(d, protected)
      && (forall item :: item in older ==> forall n :: n in item.files ==> IsMember(n))
  {
    hide ValidSets, Unchanged, IsArchive, IsMember, AtMost, FileNames;
    var valid := ValidSets(d, keepCount);
    forall i | 0 <= i < |valid|
      ensures Unchanged(d, valid[i]) && (forall n :: n in valid[i].files ==> IsMember(n))
    {
      ValidSetFit(d, keepCount, i);
      FilesAreMembers(valid[i].name);
    }
    forall i, j | 0 <= i < j < |valid| ensures valid[i].files.Keys !! valid[j].files.Keys {
      ValidSetFit(d, keepCount, i);
      ValidSetFit(d, keepCount, j);
      FilesApart(valid[i].name, valid[j].name);
    }
  }

  /** What the pruning phase does in a quiet directory. */
  lemma NothingCopied(cfg: Config)
    ensures Copied([], cfg) == [] && NotCopied([], cfg) == [] && Unverified([]) == []
    ensures NamesOf([]) == [] && FilesOf([]) == {}
  {
  }

  lemma QuietPruning(d: Dir, cfg: Config)
    ensures var o, older := AfterPruning(d, cfg), Older(d, cfg.keepCount);
      var copied := if cfg.settingsApproved && cfg.policyVerified then Copied(older, cfg) else [];
      && o.candidates == NamesOf(copied) && o.removed == (if cfg.apply then NamesOf(copied) else [])
      && o.dir == WithoutNames(d, if cfg.apply then FilesOf(copied) else {}) && o.residual == []
      && o.blocked == LocalBlocked(d, cfg.keepCount)
                      + if cfg.settingsApproved && cfg.policyVerified then NotCopied(older, cfg) else Unverified(older)
  {
    hide LocalBlocked, Protected, Older, Pruned, PrunedAll, Disjoint, ApartFrom, AllUnchanged, Copied, NotCopied;
    hide NamesOf;
    hide Unverified, IsMember;
    SelectionFit(d, cfg.keepCount);
    WithoutMore(d, {}, {});
    NothingCopied(cfg);
    PrunedQuietly(Outcome(d, [], [], LocalBlocked(d, cfg.keepCount), [], 0), Older(d, cfg.keepCount),
                  Protected(d, cfg.keepCount), cfg);
  }

  // ---------------------------------------------------------------- the age-only loop

  function Kept(names: seq<string>, keep: set<string>): seq<string> {
    if names == [] then []
    else Kept(names[..|names| - 1], keep) + if names[|names| - 1] in keep then [names[|names| - 1]] else []
  }

  function Unsafe(names: seq<string>): seq<Blocked> {
    if names == [] then [] else Unsafe(names[..|names| - 1]) + [Blocked(names[|names| - 1], "unsafe-residual-entry")]
  }

  ghost predicate Expired(d: Dir, name: string, cfg: Config)
    requires name in d.entries
  {
    Mtime(d.entries[name]) <= Cutoff(cfg)
  }

  ghost function ExpiredSnapshots(d: Dir, cfg: Config): set<string> {
    set n | n in d.entries && IsSnapshot(n) && ValidType(d, n) && Expired(d, n, cfg)
  }

  /** The check of an entry once the expired snapshots before it are gone. */
  ghost predicate ValidThen(d: Dir, name: string, cfg: Config)
    requires name in d.entries
  {
    if IsFailed(name) then Sole(WithoutNames(d, ExpiredSnapshots(d, cfg)), name) else ValidType(d, name)
  }

  /** What is removed for its age, and what is left as unsafe: by an apply run, and as a dry run predicts. */
  ghost function Going(d: Dir, cfg: Config): set<string> {
    set n | n in d.entries && IsResidual(n) && (if cfg.apply then ValidThen(d, n, cfg) else ValidType(d, n))
      && Expired(d, n, cfg)
  }

  ghost function Bad(d: Dir, cfg: Config): set<string> {
    set n | n in d.entries && IsResidual(n) && !(if cfg.apply then ValidThen(d, n, cfg) else ValidType(d, n))
  }

  ghost function Set(names: seq<string>): set<string> {
    set n | n in names
  }

  ghost predicate SweptTo(r: Outcome, o: Outcome, d: Dir, gone: set<string>, names: seq<string>, cfg: Config) {
    SweptLists(r, o, d, names, cfg) && SweptFiles(r, d, gone, names, cfg)
  }

  ghost predicate SweptLists(r: Outcome, o: Outcome, d: Dir, names: seq<string>, cfg: Config) {
    && r.residual == o.residual + Kept(names, Going(d, cfg))
    && r.blocked == o.blocked + Unsafe(Kept(names, Bad(d, cfg)))
    && r.removed == o.removed + (if cfg.apply then Kept(names, Going(d, cfg)) else [])
    && r.candidates == o.candidates
  }

  ghost predicate SweptFiles(r: Outcome, d: Dir, gone: set<string>, names: seq<string>, cfg: Config) {
    r.dir == WithoutNames(d, gone + if cfg.apply then Going(d, cfg) * Set(names) else {})
  }

  /** Files already gone for other reasons do not change the check: each was the only link of its inode. */
  ghost predicate SoleOnes(d: Dir, gone: set<string>) {
    forall n :: n in gone ==> n in d.entries && Sole(d, n) && !IsResidual(n)
  }

  lemma SoleAfter(d: Dir, cfg: Config, gone: set<string>, name: string)
    requires name in d.entries && IsFailed(name) && name !in gone && ExpiredSnapshots(d, cfg) <= gone
    requires forall n :: n in gone && n !in ExpiredSnapshots(d, cfg) ==>
        Sole(WithoutNames(d, ExpiredSnapshots(d, cfg)), n)
    ensures Sole(WithoutNames(d, gone), name) <==> Sole(WithoutNames(d, ExpiredSnapshots(d, cfg)), name)
  {
    hide ExpiredSnapshots, IsFailed;
    var snaps := ExpiredSnapshots(d, cfg);
    var mid := WithoutNames(d, snaps);
    assert WithoutNames(mid, gone) == WithoutNames(d, gone) by {
      WithoutMore(d, snaps, gone);
      assert snaps + gone == gone;
    }
    if Sole(mid, name) { StaysSole(mid, gone, name); }
    var after := WithoutNames(d, gone);
    if Sole(after, name) {
      assert mid.entries[name] == d.entries[name] == after.entries[name];
      forall other | other in mid.entries && other != name ensures
        match mid.entries[other]
        case Regular(j, _) => j != mid.entries[name].inode
        case Tree(_, _, links) => mid.entries[name].inode !in links
        case Special => true
      {
        if other in gone {
          assert Sole(mid, other) && name in mid.entries;
        } else {
          assert other in after.entries && after.entries[other] == mid.entries[other];
        }
      }
    }
  }

  lemma Earlier(names: seq<string>, j: nat, k: nat)
    requires Ascending(names) && j < |names| && k < |names| && !AtMost(names[k], names[j])
    ensures j < k || j == k
  {
  }

  lemma SnapshotsEarlier(names: seq<string>, k: nat, s: string)
    requires Ascending(names) && k < |names| && IsFailed(names[k]) && IsSnapshot(s) && s in names
    ensures s in names[..k]
  {
    hide AtMost, IsFailed, IsSnapshot;
    var j :| 0 <= j < |names| && names[j] == s;
    SnapshotBeforeFailed(s, names[k]);
    Earlier(names, j, k);
    assert names[..k][j] == s;
  }

  /** At its turn, an entry passes the check exactly as `ValidThen` says. */
  lemma CheckAtTurn(d: Dir, cfg: Config, gone: set<string>, names: seq<string>, k: nat)
    requires cfg.apply && SoleOnes(d, gone) && Ascending(names)
             && (forall i, j :: 0 <= i < j < |names| ==> names[i] != names[j])
    requires Set(names) == d.entries.Keys - gone && k < |names| && IsResidual(names[k])
    ensures var now := WithoutNames(d, gone + Going(d, cfg) * Set(names[..k]));
      && names[k] in now.entries && now.entries[names[k]] == d.entries[names[k]]
      && (ValidType(now, names[k]) <==> ValidThen(d, names[k], cfg))
  {
    hide Sole, IsFailed, IsSnapshot, Mtime, Ascending;
    var name := names[k];
    assert name in Set(names) && name !in names[..k];
    var all := gone + Going(d, cfg) * Set(names[..k]);
    if IsFailed(name) {
      var snaps := ExpiredSnapshots(d, cfg);
      forall s | s in snaps ensures s in all {
        assert s in Set(names);
        SnapshotsEarlier(names, k, s);
        SnapshotIsNoFile(s);
      }
      forall n | n in all && n !in snaps ensures Sole(WithoutNames(d, snaps), n) {
        if n in gone { StaysSole(d, snaps, n); } else { FailedOrSnapshot(d, n, cfg); }
      }
      SoleAfter(d, cfg, all, name);
      SnapshotIsNoFile(name);
    }
  }

  lemma SnapshotIsNoFile(s: string)
    ensures IsSnapshot(s) ==> !IsFailed(s)
  {
    if IsSnapshot(s) && IsFailed(s) { SnapshotBeforeFailed(s, s); }
  }

  /** What goes for its age and is no expired snapshot is a failed part whose last link it is. */
  lemma FailedOrSnapshot(d: Dir, n: string, cfg: Config)
    requires cfg.apply && n in Going(d, cfg) && n !in ExpiredSnapshots(d, cfg)
    ensures Sole(WithoutNames(d, ExpiredSnapshots(d, cfg)), n)
  {
  }

  lemma {:induction false} KeptGrows(names: seq<string>, keep: set<string>, name: string)
    ensures Kept(names + [name], keep) == if name in keep then Kept(names, keep) + [name] else Kept(names, keep)
  {
  }

  lemma UnsafeGrows(names: seq<string>, name: string)
    ensures Unsafe(names + [name]) == Unsafe(names) + [Blocked(name, "unsafe-residual-entry")]
  {
  }

  /** What one pass does with an entry that is as `d` has it and passes the check as predicted. */
  lemma SweptIs(r: Outcome, d: Dir, name: string, cfg: Config)
    requires name in d.entries && name in r.dir.entries && r.dir.entries[name] == d.entries[name]
    requires IsResidual(name) ==>
               (ValidType(r.dir, name) <==> if cfg.apply then ValidThen(d, name, cfg) else ValidType(d, name))
    ensures var s := Swept(r, name, cfg);
      && s.candidates == r.candidates
      && s.residual == (if name in Going(d, cfg) then r.residual + [name] else r.residual)
      && s.blocked == (if name in Bad(d, cfg) then r.blocked + [Blocked(name, "unsafe-residual-entry")] else r.blocked)
      && s.removed == (if cfg.apply && name in Going(d, cfg) then r.removed + [name] else r.removed)
      && s.dir == (if cfg.apply && name in Going(d, cfg) then WithoutNames(r.dir, {name}) else r.dir)
  {
  }

  lemma GoingGrows(d: Dir, gone: set<string>, names: seq<string>, name: string, going: set<string>)
    ensures gone + going * Set(names + [name])
            == if name in going then gone + going * Set(names) + {name} else gone + going * Set(names)
  {
  }

  lemma SweepsOne(r: Outcome, o: Outcome, d: Dir, gone: set<string>, names: seq<string>, name: string, cfg: Config)
    requires SweptTo(r, o, d, gone, names, cfg) && name in d.entries
    requires name in r.dir.entries && r.dir.entries[name] == d.entries[name]
    requires IsResidual(name) ==>
               (ValidType(r.dir, name) <==> if cfg.apply then ValidThen(d, name, cfg) else ValidType(d, name))
    ensures SweptTo(Swept(r, name, cfg), o, d, gone, names + [name], cfg)
  {
    SweptIs(r, d, name, cfg);
    hide Swept, Going, Bad, Kept, Unsafe, ValidType, ValidThen, IsResidual, Set, WithoutNames;
    var s := Swept(r, name, cfg);
    assert SweptFiles(s, d, gone, names + [name], cfg) by {
      GoingGrows(d, gone, names, name, Going(d, cfg));
      WithoutMore(d, gone + Going(d, cfg) * Set(names), {name});
    }
    hide SweptFiles;
    SweptListsGrow(r, s, o, d, names, name, cfg);
  }

  lemma SweptListsGrow(r: Outcome, s: Outcome, o: Outcome, d: Dir, names: seq<string>, name: string, cfg: Config)
    requires SweptLists(r, o, d, names, cfg) && s.candidates == r.candidates
    requires s.residual == (if name in Going(d, cfg) then r.residual + [name] else r.residual)
    requires s.blocked
             == (if name in Bad(d, cfg) then r.blocked + [Blocked(name, "unsafe-residual-entry")] else r.blocked)
    requires s.removed == (if cfg.apply && name in Going(d, cfg) then r.removed + [name] else r.removed)
    ensures SweptLists(s, o, d, names + [name], cfg)
  {
    hide Going, Bad, Kept, Unsafe;
    KeptGrows(names, Going(d, cfg), name);
    KeptGrows(names, Bad(d, cfg), name);
    UnsafeGrows(Kept(names, Bad(d, cfg)), name);
  }

  /** The whole sweep of a directory from which only sole set files are gone. */
  lemma {:induction false} SweepsAll(o: Outcome, d: Dir, gone: set<string>, names: seq<string>, k: nat, cfg: Config)
    requires SoleOnes(d, gone) && o.dir == WithoutNames(d, gone) && (!cfg.apply ==> gone == {})
    requires Ascending(names) && (forall i, j :: 0 <= i < j < |names| ==> names[i] != names[j])
    requires Set(names) == d.entries.Keys - gone && k <= |names|
    ensures SweptTo(SweptAll(o, names[..k], cfg), o, d, gone, names[..k], cfg)
    decreases k
  {
    hide Ascending, Swept, SweptTo, ValidType, ValidThen, IsResidual, SoleOnes;
    if k == 0 {
      SweptNothing(o, d, gone, cfg);
    } else {
      assert names[..k][..k - 1] == names[..k - 1] && names[..k] == names[..k - 1] + [names[k - 1]];
      SweepsAll(o, d, gone, names, k - 1, cfg);
      var r := SweptAll(o, names[..k - 1], cfg);
      SweptDir(r, o, d, gone, names[..k - 1], cfg);
      assert names[k - 1] in Set(names);
      if cfg.apply && IsResidual(names[k - 1]) {
        CheckAtTurn(d, cfg, gone, names, k - 1);
      } else {
        NotYetGone(d, cfg, gone, names, k - 1);
      }
      SweepsOne(r, o, d, gone, names[..k - 1], names[k - 1], cfg);
    }
  }

  lemma NotYetGone(d: Dir, cfg: Config, gone: set<string>, names: seq<string>, k: nat)
    requires (forall i, j :: 0 <= i < j < |names| ==> names[i] != names[j])
    requires Set(names) == d.entries.Keys - gone && k < |names|
    ensures var now := WithoutNames(d, gone + if cfg.apply then Going(d, cfg) * Set(names[..k]) else {});
      names[k] in now.entries && now.entries[names[k]] == d.entries[names[k]]
  {
    assert names[k] in Set(names) && names[k] !in names[..k];
  }

  lemma SweptDir(r: Outcome, o: Outcome, d: Dir, gone: set<string>, names: seq<string>, cfg: Config)
    requires SweptTo(r, o, d, gone, names, cfg)
    ensures r.dir == WithoutNames(d, gone + if cfg.apply then Going(d, cfg) * Set(names) else {})
    ensures !cfg.apply && gone == {} ==> r.dir == d
  {
  }

  lemma SweptNothing(o: Outcome, d: Dir, gone: set<string>, cfg: Config)
    requires o.dir == WithoutNames(d, gone)
    ensures SweptTo(o, o, d, gone, [], cfg)
  {
  }

  // ---------------------------------------------------------------- a whole run in closed form

  lemma SetOf(names: seq<string>)
    ensures Set(names) == {} <==> names == []
    ensures forall i :: 0 <= i < |names| ==> names[i] in Set(names)
  {
    if names != [] { assert names[0] in Set(names); }
  }

  lemma {:induction false} AscendingUnique(a: seq<string>, b: seq<string>)
    requires Ascending(a) && Ascending(b) && Distinct(a) && Distinct(b) && Set(a) == Set(b)
    ensures a == b
  {
    SetOf(a);
    SetOf(b);
    hide AtMost, Set;
    if a != [] {
      SameFirst(a, b);
      RestOf(a);
      RestOf(b);
      AscendingUnique(a[1..], b[1..]);
    }
  }

  lemma SameFirst(a: seq<string>, b: seq<string>)
    requires Ascending(a) && Ascending(b) && Set(a) == Set(b) && a != [] && b != []
    ensures a[0] == b[0]
  {
    hide AtMost;
    assert a[0] in Set(b) && b[0] in Set(a);
    var i :| 0 <= i < |a| && a[i] == b[0];
    var j :| 0 <= j < |b| && b[j] == a[0];
    if i > 0 && j > 0 { Antisymmetric(a[0], b[0]); }
  }

  lemma RestOf(s: seq<string>)
    requires s != [] && Ascending(s) && Distinct(s)
    ensures Ascending(s[1..]) && Distinct(s[1..]) && Set(s[1..]) == Set(s) - {s[0]} && s == [s[0]] + s[1..]
  {
    hide AtMost;
    var rest := s[1..];
    forall k | 0 <= k < |rest| ensures rest[k] == s[k + 1] {}
  }

  lemma AppendInOrder(s: seq<string>, x: string)
    requires Ascending(s) && Distinct(s) && forall y :: y in Set(s) ==> AtMost(y, x) && y != x
    ensures Ascending(s + [x]) && Distinct(s + [x]) && Set(s + [x]) == Set(s) + {x}
  {
  }

  lemma InitOf(s: seq<string>)
    requires s != [] && Ascending(s) && Distinct(s)
    ensures var rest, x := s[..|s| - 1], s[|s| - 1];
      && Ascending(rest) && Distinct(rest) && Set(s) == Set(rest) + {x}
      && forall y :: y in Set(rest) ==> AtMost(y, x) && y != x
  {
    hide AtMost;
    assert s == s[..|s| - 1] + [s[|s| - 1]];
  }

  lemma {:induction false} KeptInOrder(names: seq<string>, keep: set<string>)
    requires Ascending(names) && Distinct(names)
    ensures Ascending(Kept(names, keep)) && Distinct(Kept(names, keep)) && Set(Kept(names, keep)) == Set(names) * keep
  {
    hide AtMost;
    if names != [] {
      var n := |names| - 1;
      var rest, x := names[..n], names[n];
      InitOf(names);
      hide Ascending, Distinct, Set;
      KeptInOrder(rest, keep);
      assert Set(names) * keep == if x in keep then Set(rest) * keep + {x} else Set(rest) * keep;
      if x in keep { AppendInOrder(Kept(rest, keep), x); }
    }
  }

  function InOrder(names: set<string>): seq<string> {
    SortedNames(names)
  }

  lemma KeptSorted(all: set<string>, keep: set<string>)
    requires keep <= all
    ensures Kept(SortedNames(all), keep) == InOrder(keep)
  {
    KeptInOrder(SortedNames(all), keep);
    assert Set(SortedNames(all)) == all && Set(SortedNames(keep)) == keep;
    AscendingUnique(Kept(SortedNames(all), keep), SortedNames(keep));
  }

  function CopiedSets(d: Dir, cfg: Config): seq<BackupSet> {
    if cfg.settingsApproved && cfg.policyVerified then Copied(Older(d, cfg.keepCount), cfg) else []
  }

  function SetsBlocked(d: Dir, cfg: Config): seq<Blocked> {
    LocalBlocked(d, cfg.keepCount)
    + if cfg.settingsApproved && cfg.policyVerified then NotCopied(Older(d, cfg.keepCount), cfg)
      else Unverified(Older(d, cfg.keepCount))
  }

  /** Each file of a set that goes is the only link of its inode, and no residual entry. */
  lemma CopiedSole(d: Dir, cfg: Config)
    ensures SoleOnes(d, FilesOf(CopiedSets(d, cfg))) && forall n :: n in FilesOf(CopiedSets(d, cfg)) ==> IsMember(n)
  {
    hide Older, Protected, Sole, IsResidual, IsMember, Offsite, Disjoint, ApartFrom, Copied;
    SelectionFit(d, cfg.keepCount);
    CopiedAmong(Older(d, cfg.keepCount), cfg);
    forall n | n in FilesOf(CopiedSets(d, cfg)) ensures n in d.entries && Sole(d, n) && !IsResidual(n) && IsMember(n) {
      var item :| item in CopiedSets(d, cfg) && n in item.files;
      assert RegularFile(d, n) == Ok(item.files[n]);
      MemberIsNotResidual(n);
    }
  }

  /** The age-only loop after a quiet pruning phase, its lists sorted. */
  lemma SweepInClosedForm(d: Dir, cfg: Config, o: Outcome, gone: set<string>)
    requires SoleOnes(d, gone) && o.dir == WithoutNames(d, gone) && (!cfg.apply ==> gone == {})
    ensures var r := SweptAll(o, SortedNames(o.dir.entries.Keys), cfg);
      && r.candidates == o.candidates && r.residual == o.residual + InOrder(Going(d, cfg))
      && r.blocked == o.blocked + Unsafe(InOrder(Bad(d, cfg)))
      && r.removed == o.removed + (if cfg.apply then InOrder(Going(d, cfg)) else [])
      && r.dir == WithoutNames(d, gone + if cfg.apply then Going(d, cfg) else {})
  {
    hide Ascending, SweptTo, SoleOnes, Going, Bad, SweptAll, WithoutNames, Kept, Unsafe, InOrder, SortedNames, Distinct;
    var names, all := SortedNames(o.dir.entries.Keys), d.entries.Keys - gone;
    KeysWithout(d, gone);
    assert Set(names) == all;
    GoingAmong(d, cfg, gone);
    assert names[..|names|] == names;
    SweepsAll(o, d, gone, names, |names|, cfg);
    SweptSorted(SweptAll(o, names, cfg), o, d, gone, all, cfg);
  }

  lemma KeysWithout(d: Dir, gone: set<string>)
    ensures WithoutNames(d, gone).entries.Keys == d.entries.Keys - gone
  {
  }

  lemma GoingAmong(d: Dir, cfg: Config, gone: set<string>)
    requires SoleOnes(d, gone)
    ensures Going(d, cfg) <= d.entries.Keys - gone && Bad(d, cfg) <= d.entries.Keys - gone
  {
  }

  lemma SweptSorted(r: Outcome, o: Outcome, d: Dir, gone: set<string>, all: set<string>, cfg: Config)
    requires SweptTo(r, o, d, gone, SortedNames(all), cfg) && Going(d, cfg) <= all && Bad(d, cfg) <= all
    ensures r.candidates == o.candidates && r.residual == o.residual + InOrder(Going(d, cfg))
    ensures r.blocked == o.blocked + Unsafe(InOrder(Bad(d, cfg)))
    ensures r.removed == o.removed + (if cfg.apply then InOrder(Going(d, cfg)) else [])
    ensures r.dir == WithoutNames(d, gone + if cfg.apply then Going(d, cfg) else {})
  {
    hide Going, Bad, WithoutNames, Unsafe, Kept, InOrder;
    KeptSorted(all, Going(d, cfg));
    KeptSorted(all, Bad(d, cfg));
    assert Set(SortedNames(all)) == all;
    assert Going(d, cfg) * all == Going(d, cfg);
  }

  /** What a run reports and leaves, from the directory it starts in. */
  lemma RunInClosedForm(d: Dir, cfg: Config)
    ensures var r, copied := RetainOf(d, cfg), CopiedSets(d, cfg);
      && r.candidates == NamesOf(copied) && r.residual == InOrder(Going(d, cfg))
      && r.blocked == SetsBlocked(d, cfg) + Unsafe(InOrder(Bad(d, cfg)))
      && r.removed == (if cfg.apply then NamesOf(copied) + InOrder(Going(d, cfg)) else [])
      && r.dir == WithoutNames(d, if cfg.apply then FilesOf(copied) + Going(d, cfg) else {})
  {
    hide AfterPruning, SetsBlocked, CopiedSets, FilesOf, Going, Bad, Unsafe, WithoutNames, SweptAll, SoleOnes, NamesOf;
    hide IsMember, InOrder, RetainOf, SortedNames;
    RetainSweeps(d, cfg);
    QuietRun(d, cfg);
    CopiedSole(d, cfg);
    NothingGone(d);
    SweepInClosedForm(d, cfg, AfterPruning(d, cfg), if cfg.apply then FilesOf(CopiedSets(d, cfg)) else {});
    assert [] + InOrder(Going(d, cfg)) == InOrder(Going(d, cfg));
  }

  lemma RetainSweeps(d: Dir, cfg: Config)
    ensures RetainOf(d, cfg) == SweptAll(AfterPruning(d, cfg), SortedNames(AfterPruning(d, cfg).dir.entries.Keys), cfg)
  {
    hide AfterPruning, SweptAll, SortedNames;
  }

  lemma NothingGone(d: Dir)
    ensures SoleOnes(d, {}) && WithoutNames(d, {}) == d
  {
  }

  lemma QuietRun(d: Dir, cfg: Config)
    ensures var o, copied := AfterPruning(d, cfg), CopiedSets(d, cfg);
      && o.candidates == NamesOf(copied) && o.removed == (if cfg.apply then NamesOf(copied) else []) && o.residual == []
      && o.dir == WithoutNames(d, if cfg.apply then FilesOf(copied) else {}) && o.blocked == SetsBlocked(d, cfg)
  {
    hide AfterPruning, FilesOf, NamesOf, Copied, NotCopied, LocalBlocked, Older;
    QuietPruning(d, cfg);
  }

  // ---------------------------------------------------------------- main results

  /** `LocalSet` reads nothing but the set's three files. */
  lemma SameLocalSet(d: Dir, e: Dir, item: BackupSet, verifyHashes: bool)
    requires LocalSet(d, item.name, verifyHashes) == Ok(item) && Unchanged(e, item)
    ensures LocalSet(e, item.name, verifyHashes) == Ok(item)
  {
  }

  /**
   The recovery floor, for every directory content and every pattern of failed checks: if any file of a
   backup set goes, then the policy was verified, the file's set is older than `keepCount` protected sets
   and matches its off-site copy, and all those protected sets are still there and pass the hash check.
   */
  lemma RetentionFloor(d: Dir, cfg: Config, name: string)
    requires name in d.entries && name !in RetainOf(d, cfg).dir.entries && IsMember(name)
    ensures cfg.apply && cfg.settingsApproved && cfg.policyVerified
    ensures exists item :: item in Older(d, cfg.keepCount) && name in item.files && Offsite(item, cfg)
                           && LocalSet(d, item.name, true) == Ok(item)
                           && forall p :: p in Protected(d, cfg.keepCount) ==>
                             p.name != item.name && AtMost(item.name, p.name)
    ensures |Protected(d, cfg.keepCount)| == cfg.keepCount
    ensures forall p :: p in Protected(d, cfg.keepCount) ==> LocalSet(RetainOf(d, cfg).dir, p.name, true) == Ok(p)
  {
    hide RetainOf, IsMember, LocalSet, Offsite, Unchanged, AtMost, Protected, Older;
    var item := RemovedFrom(d, cfg, name);
    OlderThanFloor(d, cfg.keepCount, item);
    forall p | p in Protected(d, cfg.keepCount) ensures LocalSet(RetainOf(d, cfg).dir, p.name, true) == Ok(p) {
      ProtectedStays(d, cfg, p);
      SameLocalSet(d, RetainOf(d, cfg).dir, p, true);
    }
  }

  /** In the directory `w` where `item` goes, `keepCount` newer sets pass the hash check, before and after. */
  ghost predicate FloorHolds(d: Dir, w: Dir, item: BackupSet, cfg: Config) {
    && cfg.apply && Offsite(item, cfg) && |Protected(d, cfg.keepCount)| == cfg.keepCount
    && forall p :: p in Protected(d, cfg.keepCount) ==>
         && p.name != item.name && AtMost(item.name, p.name)
         && LocalSet(w, p.name, true) == Ok(p) && LocalSet(WithoutNames(w, item.files.Keys), p.name, true) == Ok(p)
  }

  /**
   The floor whatever others do meanwhile: after the selection from `d`, each pass may find any directory at
   all; still, whenever a set is removed, `keepCount` newer sets with verified hashes are in that very
   directory, and stay there.
   */
  lemma FloorHeldMeanwhile(d: Dir, cfg: Config, start: Outcome, worlds: seq<Dir>)
    requires |worlds| == |Older(d, cfg.keepCount)| && start.removed == []
    ensures var older := Older(d, cfg.keepCount);
      forall name :: name in PrunedAmid(start, older, Protected(d, cfg.keepCount), cfg, worlds).removed ==>
        exists i :: 0 <= i < |older| && older[i].name == name && FloorHolds(d, worlds[i], older[i], cfg)
  {
    hide Older, Protected, PrunedAmid, RemovedFairly, FloorHolds, AllUnchanged, Disjoint, IsMember;
    var older, protected := Older(d, cfg.keepCount), Protected(d, cfg.keepCount);
    SelectionFit(d, cfg.keepCount);
    RemovalsAreFair(start, older, protected, cfg, worlds);
    forall name | name in PrunedAmid(start, older, protected, cfg, worlds).removed
      ensures exists i :: 0 <= i < |older| && older[i].name == name && FloorHolds(d, worlds[i], older[i], cfg)
    {
      assert FairlyRemoved(name, older, protected, cfg, worlds);
      var i :| 0 <= i < |older| && older[i].name == name && RemovedFairly(worlds[i], older[i], protected, cfg);
      FairKeepsFloor(d, worlds[i], older[i], cfg);
    }
  }

  lemma FairKeepsFloor(d: Dir, w: Dir, item: BackupSet, cfg: Config)
    requires item in Older(d, cfg.keepCount) && RemovedFairly(w, item, Protected(d, cfg.keepCount), cfg)
    ensures FloorHolds(d, w, item, cfg)
  {
    hide Older, Protected, LocalSet, AtMost, Unchanged, Offsite, WithoutNames;
    OlderThanFloor(d, cfg.keepCount, item);
    forall p | p in Protected(d, cfg.keepCount)
      ensures LocalSet(w, p.name, true) == Ok(p) && LocalSet(WithoutNames(w, item.files.Keys), p.name, true) == Ok(p)
    {
      SameLocalSet(d, w, p, true);
      SameLocalSet(d, WithoutNames(w, item.files.Keys), p, true);
    }
  }

  /** The set a removed file belonged to. */
  lemma RemovedFrom(d: Dir, cfg: Config, name: string) returns (item: BackupSet)
    requires name in d.entries && name !in RetainOf(d, cfg).dir.entries && IsMember(name)
    ensures cfg.apply && cfg.settingsApproved && cfg.policyVerified
    ensures item in Older(d, cfg.keepCount) && name in item.files && Offsite(item, cfg)
  {
    hide RetainOf, Older, IsMember, IsResidual, Offsite, FilesOf, Going, Copied, SetsBlocked;
    RunInClosedForm(d, cfg);
    GoingResidual(d, cfg);
    CopiedHas(d, cfg, name);
    item :| item in CopiedSets(d, cfg) && name in item.files;
    CopiedAmong(Older(d, cfg.keepCount), cfg);
  }

  lemma GoingResidual(d: Dir, cfg: Config)
    ensures forall n :: n in Going(d, cfg) ==> IsResidual(n) && !IsMember(n)
  {
  }

  lemma CopiedHas(d: Dir, cfg: Config, name: string)
    requires name in FilesOf(CopiedSets(d, cfg))
    ensures exists item :: item in CopiedSets(d, cfg) && name in item.files
  {
  }

  lemma OlderThanFloor(d: Dir, keepCount: nat, item: BackupSet)
    requires item in Older(d, keepCount)
    ensures LocalSet(d, item.name, true) == Ok(item) && |Protected(d, keepCount)| == keepCount
    ensures forall p :: p in Protected(d, keepCount) ==>
              p.name != item.name && AtMost(item.name, p.name) && LocalSet(d, p.name, true) == Ok(p)
  {
    hide ValidSets, LocalSet, IsArchive, AtMost, FileNames, Unchanged;
    var valid := ValidSets(d, keepCount);
    ValidSetsOrder(d, keepCount);
    var k :| 0 <= k < |valid| - keepCount && valid[keepCount..][k] == item;
    forall i | 0 <= i < keepCount
      ensures valid[i].name != item.name && AtMost(item.name, valid[i].name)
              && LocalSet(d, valid[i].name, true) == Ok(valid[i])
    {
      ValidSetFit(d, keepCount, i);
    }
  }

  lemma ProtectedStays(d: Dir, cfg: Config, p: BackupSet)
    requires p in Protected(d, cfg.keepCount)
    ensures Unchanged(RetainOf(d, cfg).dir, p)
  {
    hide RetainOf, Protected, Older, Unchanged, Going, IsMember, IsResidual, Disjoint;
    RunInClosedForm(d, cfg);
    SelectionFit(d, cfg.keepCount);
    ProtectedMembers(d, cfg.keepCount, p);
    GoingResidual(d, cfg);
    CopiedAmong(Older(d, cfg.keepCount), cfg);
    var gone := if cfg.apply then FilesOf(CopiedSets(d, cfg)) + Going(d, cfg) else {};
    hide Copied, Offsite;
    assert p.files.Keys !! gone;
    StaysUnchanged(d, gone, p);
  }

  lemma ProtectedMembers(d: Dir, keepCount: nat, p: BackupSet)
    requires p in Protected(d, keepCount)
    ensures forall n :: n in p.files ==> IsMember(n)
  {
    hide ValidSets, Unchanged, IsArchive, IsMember, AtMost, FileNames;
    var i :| 0 <= i < |ValidSets(d, keepCount)| && ValidSets(d, keepCount)[i] == p;
    ValidSetFit(d, keepCount, i);
    FilesAreMembers(p.name);
  }

  /** The age-only loop never touches an archive or one of its sidecars. */
  lemma AgeOnlySparesSets(d: Dir, cfg: Config, name: string)
    requires IsMember(name)
    ensures name in RetainOf(d, cfg).dir.entries <==> name in AfterPruning(d, cfg).dir.entries
    ensures name !in RetainOf(d, cfg).residual
  {
    hide RetainOf, AfterPruning, IsMember, IsResidual, Going, FilesOf, CopiedSets, SetsBlocked;
    RunInClosedForm(d, cfg);
    QuietRun(d, cfg);
    GoingResidual(d, cfg);
  }

  /** No `.failed` part gets its link count down to one by the removal of an expired snapshot. */
  ghost predicate NoLastLink(d: Dir, cfg: Config) {
    forall n :: n in d.entries && IsFailed(n) && Sole(WithoutNames(d, ExpiredSnapshots(d, cfg)), n) ==> Sole(d, n)
  }

  lemma {:induction false} UnsafeInjective(a: seq<string>, b: seq<string>)
    requires Unsafe(a) == Unsafe(b)
    ensures a == b
  {
    if a == [] {
      assert b != [] ==> |Unsafe(b)| > 0;
    } else {
      assert b != [];
      var i, j := |a| - 1, |b| - 1;
      UnsafeLength(a);
      UnsafeLength(b);
      assert Unsafe(a)[i] == Blocked(a[i], "unsafe-residual-entry")
        && Unsafe(b)[j] == Blocked(b[j], "unsafe-residual-entry");
      assert Unsafe(a[..i]) == Unsafe(a)[..i] && Unsafe(b[..j]) == Unsafe(b)[..j];
      UnsafeInjective(a[..i], b[..j]);
      assert a == a[..i] + [a[i]] && b == b[..j] + [b[j]];
    }
  }

  lemma {:induction false} UnsafeLength(a: seq<string>)
    ensures |Unsafe(a)| == |a|
  {
    if a != [] { UnsafeLength(a[..|a| - 1]); }
  }

  function As(cfg: Config, apply: bool): Config {
    cfg.(apply := apply)
  }

  lemma SameSelection(d: Dir, cfg: Config, apply: bool)
    ensures CopiedSets(d, As(cfg, apply)) == CopiedSets(d, cfg) && SetsBlocked(d, As(cfg, apply)) == SetsBlocked(d, cfg)
  {
    SameCopied(Older(d, cfg.keepCount), cfg, apply);
  }

  lemma {:induction false} SameHeads(item: BackupSet, names: seq<string>, cfg: Config, apply: bool)
    ensures HeadFaults(item, names, As(cfg, apply)) == HeadFaults(item, names, cfg)
  {
    if names != [] { SameHeads(item, names[1..], cfg, apply); }
  }

  lemma {:induction false} SameCopied(older: seq<BackupSet>, cfg: Config, apply: bool)
    ensures Copied(older, As(cfg, apply)) == Copied(older, cfg)
            && NotCopied(older, As(cfg, apply)) == NotCopied(older, cfg)
  {
    if older != [] {
      SameCopied(older[..|older| - 1], cfg, apply);
      var item := older[|older| - 1];
      SameHeads(item, SetNames(item.name), cfg, apply);
      assert OffsiteFault(item, As(cfg, apply)) == OffsiteFault(item, cfg);
      hide OffsiteFault;
    }
  }

  lemma SameResiduals(d: Dir, cfg: Config)
    ensures NoLastLink(d, cfg) <==> Bad(d, As(cfg, true)) == Bad(d, As(cfg, false))
    ensures NoLastLink(d, cfg) ==> Going(d, As(cfg, true)) == Going(d, As(cfg, false))
  {
    hide Sole, IsFailed, IsSnapshot, Mtime;
    var a, b := As(cfg, true), As(cfg, false);
    assert ExpiredSnapshots(d, a) == ExpiredSnapshots(d, cfg);
    forall n | n in d.entries && IsResidual(n)
      ensures ValidThen(d, n, a) <==>
                if IsFailed(n) then Sole(WithoutNames(d, ExpiredSnapshots(d, cfg)), n) else ValidType(d, n)
      ensures IsFailed(n) ==> (ValidType(d, n) <==> Sole(d, n)) && (Sole(d, n) ==> ValidThen(d, n, a))
    {
      SnapshotIsNoFile(n);
      if IsFailed(n) && Sole(d, n) {
        assert n !in ExpiredSnapshots(d, cfg);
        StaysSole(d, ExpiredSnapshots(d, cfg), n);
      }
    }
    hide ExpiredSnapshots, ValidType, Expired;
    if Bad(d, a) == Bad(d, b) {
      forall n | n in d.entries && IsFailed(n) && Sole(WithoutNames(d, ExpiredSnapshots(d, cfg)), n)
        ensures Sole(d, n)
      {
        assert n !in Bad(d, a);
      }
    }
  }

  /**
   Dry run against apply, from the same directory, clock and answers. The backup sets are always predicted;
   the residual and blocked lists are predicted exactly when no `.failed` part is hard-linked into expired
   snapshots only. Then the apply run removes just the union of the two candidate lists of the dry run.
   */
  lemma DryRunPredicts(d: Dir, cfg: Config)
    ensures var dry, run := RetainOf(d, As(cfg, false)), RetainOf(d, As(cfg, true));
      && run.candidates == dry.candidates && dry.removed == [] && dry.dir == d
      && (run.residual == dry.residual && run.blocked == dry.blocked <==> NoLastLink(d, cfg))
      && (NoLastLink(d, cfg) ==>
            && run.removed == dry.candidates + dry.residual
            && run.dir == WithoutNames(d, FilesOf(CopiedSets(d, cfg)) + Set(dry.residual)))
  {
    hide RetainOf, CopiedSets, SetsBlocked, Going, Bad, NoLastLink, FilesOf, Ascending, InOrder, Unsafe, NamesOf;
    hide WithoutNames;
    var a, b := As(cfg, true), As(cfg, false);
    RunInClosedForm(d, a);
    RunInClosedForm(d, b);
    SameSelection(d, cfg, true);
    SameSelection(d, cfg, false);
    SameResiduals(d, cfg);
    WithoutMore(d, {}, {});
    if !NoLastLink(d, cfg) { BlockedDiffers(d, cfg); }
    OrderedSet(Going(d, b));
  }

  lemma OrderedSet(names: set<string>)
    ensures Set(InOrder(names)) == names
  {
  }

  lemma SameTail<T>(prefix: seq<T>, a: seq<T>, b: seq<T>)
    requires prefix + a == prefix + b
    ensures a == b
  {
    assert a == (prefix + a)[|prefix|..] && b == (prefix + b)[|prefix|..];
  }

  lemma SortedDetermines(a: set<string>, b: set<string>)
    requires InOrder(a) == InOrder(b)
    ensures a == b
  {
  }

  const STAMP: string := "20240101T000000Z"
  const OLD_ARCHIVE: string := "vendure-files-" + STAMP + ".tar.gz"
  const OLD_PART: string := OLD_ARCHIVE + ".part.failed"
  const OLD_SNAPSHOT: string := ".s3-source-" + STAMP

  lemma OldNames()
    ensures IsSnapshot(OLD_SNAPSHOT) && IsFailed(OLD_PART) && OLD_SNAPSHOT != OLD_PART
  {
  }

  /**
   The dry run does not always predict: an old failed part that is also hard-linked into an old snapshot is
   reported as blocked by the dry run, and removed by the apply run once the snapshot is gone.
   */
  lemma DryRunMisses(cfg: Config)
    requires Cutoff(cfg) >= 0
    ensures var d := Dir(map[OLD_SNAPSHOT := Tree(0, true, {7}),
                             OLD_PART := Regular(7, FileData(Payload([]), 0, 0, 0))], {});
      && !NoLastLink(d, cfg) && RetainOf(d, As(cfg, false)).blocked != RetainOf(d, As(cfg, true)).blocked
      && OLD_PART in Bad(d, As(cfg, false)) && OLD_PART in Going(d, As(cfg, true))
  {
    hide IsFailed, IsSnapshot, RetainOf;
    var d := Dir(map[OLD_SNAPSHOT := Tree(0, true, {7}), OLD_PART := Regular(7, FileData(Payload([]), 0, 0, 0))], {});
    OldNames();
    SnapshotIsNoFile(OLD_SNAPSHOT);
    SnapshotIsNoFile(OLD_PART);
    assert OLD_SNAPSHOT in ExpiredSnapshots(d, cfg) && OLD_PART !in ExpiredSnapshots(d, cfg);
    assert OLD_SNAPSHOT in ExpiredSnapshots(d, As(cfg, true)) && OLD_PART !in ExpiredSnapshots(d, As(cfg, true));
    assert Sole(WithoutNames(d, ExpiredSnapshots(d, cfg)), OLD_PART);
    assert !Sole(d, OLD_PART) by { assert d.entries[OLD_SNAPSHOT] == Tree(0, true, {7}); }
    assert ValidThen(d, OLD_PART, As(cfg, true));
    BlockedDiffers(d, cfg);
  }

  lemma BlockedDiffers(d: Dir, cfg: Config)
    requires !NoLastLink(d, cfg)
    ensures RetainOf(d, As(cfg, false)).blocked != RetainOf(d, As(cfg, true)).blocked
  {
    hide RetainOf, CopiedSets, SetsBlocked, Going, Bad, NoLastLink, FilesOf, Ascending, InOrder, Unsafe, NamesOf;
    hide WithoutNames;
    var a, b := As(cfg, true), As(cfg, false);
    RunInClosedForm(d, a);
    RunInClosedForm(d, b);
    SameSelection(d, cfg, true);
    SameSelection(d, cfg, false);
    SameResiduals(d, cfg);
    if RetainOf(d, a).blocked == RetainOf(d, b).blocked {
      SameTail(SetsBlocked(d, cfg), Unsafe(InOrder(Bad(d, a))), Unsafe(InOrder(Bad(d, b))));
      UnsafeInjective(InOrder(Bad(d, a)), InOrder(Bad(d, b)));
      SortedDetermines(Bad(d, a), Bad(d, b));
    }
  }
}
