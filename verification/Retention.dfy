/**
 The retention pruner. A directory maps names to regular files, which carry their inode, and to directory
 trees, which carry the inodes linked inside them; a file's link count is 1 when nothing else links it.
 Identity is the inode with all recorded metadata and bytes; a digest is an injective wrapper.
 */
module Retention {
  import opened Wrappers
  import opened TextOrder

  datatype Digest = Sha256(of: Content)
  datatype Line = Line(digest: Digest, file: string) | Garbled
  datatype Content = Payload(bytes: seq<int>) | Checksum(lines: seq<Line>)
  datatype FileData = FileData(content: Content, size: int, mtime: int, blocks: int)
  datatype Entry =
    | Regular(inode: nat, data: FileData)
    | Tree(mtime: int, sameDevice: bool, links: set<nat>)
    | Special

  /** `outside` are the inodes that also have a link somewhere else. */
  datatype Dir = Dir(entries: map<string, Entry>, outside: set<nat>)

  datatype Id = Id(inode: nat, data: FileData)
  datatype BackupSet = BackupSet(name: string, files: map<string, Id>, checksum: Content)
  datatype Blocked = Blocked(name: string, reason: string)
  datatype Head = Head(length: int, encryption: string, version: Option<string>)

  /** Everything `retain` is told: settings, policy and off-site answers, the clock, and the mode. */
  datatype Config = Config(
    apply: bool, keepCount: nat, residualDays: nat, now: int, settingsApproved: bool, policyVerified: bool,
    head: string -> Result<Head, string>, remoteChecksum: (string, string) -> Result<Content, string>)

  datatype Outcome = Outcome(
    dir: Dir, candidates: seq<string>, removed: seq<string>, blocked: seq<Blocked>, residual: seq<string>,
    reclaimed: int)

  // ---------------------------------------------------------------- names

  predicate Digits(s: string) {
    forall i :: 0 <= i < |s| ==> '0' <= s[i] <= '9'
  }

  predicate IsStamp(s: string) {
    |s| == 16 && Digits(s[..8]) && s[8] == 'T' && Digits(s[9..15]) && s[15] == 'Z'
  }

  predicate IsArchive(name: string) {
    |name| == 37 && name[..14] == "vendure-files-" && IsStamp(name[14..30]) && name[30..] == ".tar.gz"
  }

  predicate IsMember(name: string) {
    |name| >= 37 && IsArchive(name[..37]) && name[37..] in {"", ".manifest.json", ".sha256"}
  }

  predicate IsFailed(name: string) {
    |name| >= 37 && IsArchive(name[..37])
    && name[37..] in {".part.failed", ".part.manifest.json.failed", ".sha256.part.failed"}
  }

  predicate IsSnapshot(name: string) {
    |name| == 27 && name[..11] == ".s3-source-" && IsStamp(name[11..])
  }

  predicate IsResidual(name: string) {
    IsFailed(name) || IsSnapshot(name)
  }

  function SetNames(archive: string): seq<string> {
    [archive, archive + ".manifest.json", archive + ".sha256"]
  }

  function Archives(d: Dir): set<string> {
    set name | name in d.entries && IsMember(name) :: name[..37]
  }

  // ---------------------------------------------------------------- local sets

  /** A regular file with one link. */
  predicate Sole(d: Dir, name: string) {
    && name in d.entries && d.entries[name].Regular?
    && var i := d.entries[name].inode;
    && i !in d.outside
    && (forall other :: other in d.entries && other != name ==>
          match d.entries[other]
          case Regular(j, _) => j != i
          case Tree(_, _, links) => i !in links
          case Special => true)
  }

  /** `regular_file`: missing, unsafe, or the file's identity. */
  function RegularFile(d: Dir, name: string): Result<Id, string> {
    if name !in d.entries then Err("missing")
    else if !Sole(d, name) then Err("unsafe-local-file")
    else Ok(Id(d.entries[name].inode, d.entries[name].data))
  }

  predicate ListsBoth(lines: seq<Line>, archive: string) {
    && |lines| == 2 && lines[0].Line? && lines[1].Line?
    && {lines[0].file, lines[1].file} == {archive, archive + ".manifest.json"}
  }

  function Expected(lines: seq<Line>, archive: string, file: string): Digest
    requires ListsBoth(lines, archive)
  {
    if lines[0].file == file then lines[0].digest else lines[1].digest
  }

  function FileError(id: Id, expected: Digest, verifyHashes: bool): Option<string> {
    if id.data.size <= 0 then Some("invalid-local-file-size")
    else if verifyHashes && Sha256(id.data.content) != expected then Some("local-checksum-mismatch")
    else None
  }

  function LocalSet(d: Dir, archive: string, verifyHashes: bool): Result<BackupSet, string> {
    var names := SetNames(archive);
    var a, m, c := RegularFile(d, names[0]), RegularFile(d, names[1]), RegularFile(d, names[2]);
    if a.Err? then Err(a.error) else if m.Err? then Err(m.error) else if c.Err? then Err(c.error)
    else
      var checksum := c.value.data.content;
      if !(0 < c.value.data.size <= 8191) then Err("invalid-local-file-size")
      else if !checksum.Checksum? || !ListsBoth(checksum.lines, archive) then Err("invalid-local-checksum")
      else if FileError(a.value, Expected(checksum.lines, archive, names[0]), verifyHashes).Some?
      then Err(FileError(a.value, Expected(checksum.lines, archive, names[0]), verifyHashes).value)
      else if FileError(m.value, Expected(checksum.lines, archive, names[1]), verifyHashes).Some?
      then Err(FileError(m.value, Expected(checksum.lines, archive, names[1]), verifyHashes).value)
      else Ok(BackupSet(archive, map[names[0] := a.value, names[1] := m.value, names[2] := c.value], checksum))
  }

  /** The sets that pass, in order, and why the others do not. */
  function Passing(d: Dir, names: seq<string>, verifyHashes: bool): seq<BackupSet> {
    if names == [] then []
    else
      var last := LocalSet(d, names[|names| - 1], verifyHashes);
      Passing(d, names[..|names| - 1], verifyHashes) + if last.Ok? then [last.value] else []
  }

  function Failing(d: Dir, names: seq<string>, verifyHashes: bool): seq<Blocked> {
    if names == [] then []
    else
      var last := LocalSet(d, names[|names| - 1], verifyHashes);
      Failing(d, names[..|names| - 1], verifyHashes) +
      if last.Ok? then []
      else [Blocked(names[|names| - 1], if last.error == "missing" then "incomplete-local-set" else last.error)]
  }

  function NamesOf(sets: seq<BackupSet>): (r: seq<string>)
    ensures |r| == |sets| && forall i :: 0 <= i < |r| ==> r[i] == sets[i].name
  {
    if sets == [] then [] else [sets[0].name] + NamesOf(sets[1..])
  }

  function Reversed(s: seq<string>): (r: seq<string>)
    ensures |r| == |s| && forall i :: 0 <= i < |s| ==> r[i] == s[|s| - 1 - i]
  {
    if s == [] then [] else Reversed(s[1..]) + [s[0]]
  }

  /** Archive names, newest stamp first. */
  function NewestFirst(d: Dir): seq<string> {
    Reversed(SortedNames(Archives(d)))
  }

  /** The valid sets, newest first; hashes are read only when there is something to prune. */
  function ValidSets(d: Dir, keepCount: nat): seq<BackupSet> {
    var complete := Passing(d, NewestFirst(d), false);
    if |complete| > keepCount then Passing(d, NamesOf(complete), true) else complete
  }

  function LocalBlocked(d: Dir, keepCount: nat): seq<Blocked> {
    var complete := Passing(d, NewestFirst(d), false);
    Failing(d, NewestFirst(d), false)
    + if |complete| > keepCount then Failing(d, NamesOf(complete), true) else []
  }

  function Protected(d: Dir, keepCount: nat): seq<BackupSet> {
    var valid := ValidSets(d, keepCount);
    if |valid| <= keepCount then valid else valid[..keepCount]
  }

  function Older(d: Dir, keepCount: nat): seq<BackupSet> {
    var valid := ValidSets(d, keepCount);
    if |valid| <= keepCount then [] else valid[keepCount..]
  }

  // ---------------------------------------------------------------- pruning older sets

  /** Why the off-site head of one file does not match it, if it does not. */
  function HeadFault(name: string, id: Id, cfg: Config): Option<string> {
    match cfg.head("files/" + name)
    case Err(reason) => Some(reason)
    case Ok(head) =>
      if head.length != id.data.size || head.encryption != "AES256" then Some("offsite-metadata-mismatch")
      else if head.version.None? || head.version.value == "" || head.version.value == "null"
      then Some("offsite-version-missing")
      else None
  }

  function HeadFaults(item: BackupSet, names: seq<string>, cfg: Config): Option<string> {
    if names == [] then None
    else if names[0] in item.files && HeadFault(names[0], item.files[names[0]], cfg).Some?
    then HeadFault(names[0], item.files[names[0]], cfg)
    else HeadFaults(item, names[1..], cfg)
  }

  /** The off-site checksum file, read at the version its head names, has other bytes or cannot be read. */
  function ChecksumFault(item: BackupSet, cfg: Config): Option<string> {
    match cfg.head("files/" + item.name + ".sha256")
    case Err(reason) => Some(reason)
    case Ok(head) =>
      match cfg.remoteChecksum(item.name + ".sha256", GetOr(head.version, ""))
      case Err(reason) => Some(reason)
      case Ok(content) => if content != item.checksum then Some("offsite-checksum-mismatch") else None
  }

  /** `offsite_set`: the first reason against the copies of a set, in the order of its files. */
  function OffsiteFault(item: BackupSet, cfg: Config): Option<string> {
    OrElse(HeadFaults(item, SetNames(item.name), cfg), ChecksumFault(item, cfg))
  }

  predicate Offsite(item: BackupSet, cfg: Config) {
    OffsiteFault(item, cfg).None?
  }

  /** Every file of the set is still the very file that was checked. */
  predicate Unchanged(d: Dir, item: BackupSet) {
    forall name :: name in item.files ==> RegularFile(d, name) == Ok(item.files[name])
  }

  const OWN_CHANGED := "local-file-changed-before-delete"
  const FLOOR_CHANGED := "protected-local-set-changed"

  /** The first reason why a file of the set is not the one that was checked; a missing file is an untyped error. */
  function SetFault(d: Dir, item: BackupSet, names: seq<string>, changed: string): Option<string> {
    if names == [] then None
    else if names[0] !in item.files || RegularFile(d, names[0]) == Ok(item.files[names[0]])
    then SetFault(d, item, names[1..], changed)
    else
      match RegularFile(d, names[0])
      case Ok(_) => Some(changed)
      case Err(reason) => Some(if reason == "missing" then "offsite-or-local-verification-failed" else reason)
  }

  function ChangedReason(d: Dir, item: BackupSet, changed: string): string {
    GetOr(SetFault(d, item, SetNames(item.name), changed), changed)
  }

  /** The reason of the first protected set that is not as it was checked. */
  function ProtectedReason(d: Dir, protected: seq<BackupSet>): string {
    if protected == [] then FLOOR_CHANGED
    else if !Unchanged(d, protected[0]) then ChangedReason(d, protected[0], FLOOR_CHANGED)
    else ProtectedReason(d, protected[1..])
  }

  function WithoutNames(d: Dir, names: set<string>): Dir {
    d.(entries := d.entries - names)
  }

  function Blocks(item: BackupSet): int {
    BlocksOf(item, item.name) + BlocksOf(item, item.name + ".manifest.json") + BlocksOf(item, item.name + ".sha256")
  }

  function BlocksOf(item: BackupSet, name: string): int {
    if name in item.files then 512 * item.files[name].data.blocks else 0
  }

  /** One pass of the pruning loop over the directory as it is then. */
  function Pruned(o: Outcome, d: Dir, item: BackupSet, protected: seq<BackupSet>, cfg: Config): Outcome {
    if !Offsite(item, cfg) then o.(dir := d, blocked := o.blocked + [Blocked(item.name, OffsiteFault(item, cfg).value)])
    else if exists i :: 0 <= i < |protected| && !Unchanged(d, protected[i])
    then o.(dir := d, blocked := o.blocked + [Blocked(item.name, ProtectedReason(d, protected))])
    else if !Unchanged(d, item)
    then o.(dir := d, blocked := o.blocked + [Blocked(item.name, ChangedReason(d, item, OWN_CHANGED))])
    else if !cfg.apply then o.(dir := d, candidates := o.candidates + [item.name])
    else o.(dir := WithoutNames(d, item.files.Keys), candidates := o.candidates + [item.name],
            removed := o.removed + [item.name], reclaimed := o.reclaimed + Blocks(item))
  }

  function PrunedAll(o: Outcome, older: seq<BackupSet>, protected: seq<BackupSet>, cfg: Config): Outcome
    decreases |older|
  {
    if older == [] then o
    else
      var before := PrunedAll(o, older[..|older| - 1], protected, cfg);
      Pruned(before, before.dir, older[|older| - 1], protected, cfg)
  }

  function Unverified(older: seq<BackupSet>): seq<Blocked> {
    if older == [] then []
    else Unverified(older[..|older| - 1]) + [Blocked(older[|older| - 1].name, "offsite-policy-unverified")]
  }

  function AfterPruning(d: Dir, cfg: Config): Outcome {
    var start := Outcome(d, [], [], LocalBlocked(d, cfg.keepCount), [], 0);
    var older := Older(d, cfg.keepCount);
    if older != [] && !(cfg.settingsApproved && cfg.policyVerified)
    then start.(blocked := start.blocked + Unverified(older))
    else PrunedAll(start, older, Protected(d, cfg.keepCount), cfg)
  }

  // ---------------------------------------------------------------- residual entries

  function Cutoff(cfg: Config): int {
    cfg.now - (cfg.residualDays + 1) * 86400
  }

  predicate ValidType(d: Dir, name: string)
    requires name in d.entries
  {
    (IsFailed(name) && Sole(d, name)) || (IsSnapshot(name) && d.entries[name].Tree? && d.entries[name].sameDevice)
  }

  function Mtime(e: Entry): int {
    match e case Regular(_, data) => data.mtime case Tree(mtime, _, _) => mtime case Special => 0
  }

  /** One pass of the loop over the sorted listing. */
  function Swept(o: Outcome, name: string, cfg: Config): Outcome {
    if !IsResidual(name) || name !in o.dir.entries then o
    else if !ValidType(o.dir, name) then o.(blocked := o.blocked + [Blocked(name, "unsafe-residual-entry")])
    else if Mtime(o.dir.entries[name]) > Cutoff(cfg) then o
    else if !cfg.apply then o.(residual := o.residual + [name])
    else
      o.(residual := o.residual + [name], removed := o.removed + [name], dir := WithoutNames(o.dir, {name}),
         reclaimed := o.reclaimed + if o.dir.entries[name].Regular? then 512 * o.dir.entries[name].data.blocks else 0)
  }

  function SweptAll(o: Outcome, names: seq<string>, cfg: Config): Outcome
    decreases |names|
  {
    if names == [] then o else Swept(SweptAll(o, names[..|names| - 1], cfg), names[|names| - 1], cfg)
  }

  function RetainOf(d: Dir, cfg: Config): Outcome {
    var o := AfterPruning(d, cfg);
    SweptAll(o, SortedNames(o.dir.entries.Keys), cfg)
  }

  /** `retain`, in a directory nobody else changes meanwhile. */
  method Retain(d: Dir, cfg: Config) returns (r: Result<Outcome, string>)
    ensures r.Ok? <==> cfg.keepCount >= 3 && cfg.residualDays >= 5
    ensures r.Ok? ==> r.value == RetainOf(d, cfg)
  {
    hide AfterPruning;
    if cfg.keepCount < 3 { return Err("at-least-three-local-backups-required"); }
    if cfg.residualDays < 5 { return Err("residual-retention-requires-at-least-five-days"); }
    var o := Prune(d, cfg);
    o := Sweep(o, cfg);
    r := Ok(o);
  }

  /** The selection of valid sets and the loop over those beyond the protected ones. */
  method Prune(d: Dir, cfg: Config) returns (o: Outcome)
    ensures o == AfterPruning(d, cfg)
  {
    hide Pruned, Passing, Failing;
    var names := NewestFirst(d);
    var complete, blocked := CheckSets(d, names, false);
    var valid := complete;
    if |complete| > cfg.keepCount {
      var more: seq<Blocked>;
      valid, more := CheckSets(d, NamesOf(complete), true);
      blocked := blocked + more;
    } else {
      assert blocked + [] == blocked;
    }
    var protected := if |valid| <= cfg.keepCount then valid else valid[..cfg.keepCount];
    var older := if |valid| <= cfg.keepCount then [] else valid[cfg.keepCount..];
    assert protected == Protected(d, cfg.keepCount) && older == Older(d, cfg.keepCount);
    o := Outcome(d, [], [], blocked, [], 0);
    if older != [] && !(cfg.settingsApproved && cfg.policyVerified) {
      o := o.(blocked := blocked + Unverified(older));
    } else {
      o := PruneOlder(o, older, protected, cfg);
    }
  }

  method PruneOlder(start: Outcome, older: seq<BackupSet>, protected: seq<BackupSet>, cfg: Config) returns (o: Outcome)
    ensures o == PrunedAll(start, older, protected, cfg)
  {
    hide Pruned;
    o := start;
    for i := 0 to |older|
      invariant o == PrunedAll(start, older[..i], protected, cfg)
    {
      assert older[..i + 1][..i] == older[..i];
      o := Pruned(o, o.dir, older[i], protected, cfg);
    }
    assert older[..|older|] == older;
  }

  /** The age-only loop, over a fresh listing. */
  method Sweep(start: Outcome, cfg: Config) returns (o: Outcome)
    ensures o == SweptAll(start, SortedNames(start.dir.entries.Keys), cfg)
  {
    hide Swept, SortedNames, Cutoff;
    o := start;
    var listing := SortedNames(o.dir.entries.Keys);
    for i := 0 to |listing|
      invariant o == SweptAll(start, listing[..i], cfg)
    {
      assert listing[..i + 1][..i] == listing[..i];
      o := Swept(o, listing[i], cfg);
    }
    assert listing[..|listing|] == listing;
  }

  method CheckSets(d: Dir, names: seq<string>, verifyHashes: bool) returns (sets: seq<BackupSet>, blocked: seq<Blocked>)
    ensures sets == Passing(d, names, verifyHashes) && blocked == Failing(d, names, verifyHashes)
  {
    hide LocalSet;
    sets, blocked := [], [];
    for i := 0 to |names|
      invariant sets == Passing(d, names[..i], verifyHashes) && blocked == Failing(d, names[..i], verifyHashes)
    {
      assert names[..i + 1][..i] == names[..i];
      var result := LocalSet(d, names[i], verifyHashes);
      if result.Ok? {
        sets := sets + [result.value];
      } else {
        var reason := if result.error == "missing" then "incomplete-local-set" else result.error;
        blocked := blocked + [Blocked(names[i], reason)];
      }
    }
    assert names[..|names|] == names;
  }
}
