/** `verify`: the check of a finished archive, and that it accepts whatever `capture` wrote. */
module FileVerify {
  import opened Wrappers
  import opened FileBackup
  import opened FileCapture
  import opened FileRestore
  import opened FileRoundTrip

  /** `archive.getmember(name)`, which strips the slashes of what it looks for. */
  function FindMember(members: seq<Member>, name: Text): Option<Member> {
    if members == [] then None
    else if members[|members| - 1].name == Strip(name) then Some(members[|members| - 1])
    else FindMember(members[..|members| - 1], name)
  }

  predicate SafeMember(member: Member) {
    !Absolute(member.name) && ".." !in Parts(member.name) && !member.kind.SpecialKind?
  }

  predicate HoldsFileItem(members: seq<Member>, item: FileItem) {
    var found := FindMember(members, MemberName(item.path));
    && found.Some? && found.value.kind.RegularKind?
    && Size(found.value.content) == item.size && Sha256(found.value.content) == item.sha256
  }

  function NamesSeen(members: seq<Member>): set<Text> {
    set member | member in members :: Strip(member.name)
  }

  ghost predicate DistinctMembers(members: seq<Member>) {
    forall i, j :: 0 <= i < j < |members| ==> members[i].name != members[j].name
  }

  function EmbeddedManifest(members: seq<Member>): Option<Manifest> {
    var found := FindMember(members, [MANIFEST_NAME]);
    if found.Some? && found.value.kind.RegularKind? && found.value.content.Json? then Some(found.value.content.manifest)
    else None
  }

  /** What `read_manifest` accepts, and the manifest it returns. */
  ghost predicate Reads(members: seq<Member>, m: Manifest) {
    && DistinctMembers(members) && (forall member :: member in members ==> SafeMember(member))
    && EmbeddedManifest(members) == Some(m) && m.version == MANIFEST_VERSION
  }

  /** The archive is its manifest's: safe, without duplicates, complete, and every file as recorded. */
  ghost predicate Verified(members: seq<Member>, m: Manifest) {
    && Reads(members, m) && ValidManifest(m)
    && (forall item :: item in m.files ==> HoldsFileItem(members, item))
    && NamesSeen(members) == ExpectedNames(m)
  }

  /** `read_manifest`: no duplicate, unsafe or special member, and a manifest of this version. */
  method ReadManifest(members: seq<Member>) returns (r: Result<Manifest, string>)
    ensures r.Ok? <==> exists m :: Reads(members, m)
    ensures r.Ok? ==> Reads(members, r.value)
  {
    hide SafeMember, FindMember;
    var names: set<Text> := {};
    for i := 0 to |members|
      invariant names == set k | 0 <= k < i :: members[k].name
      invariant DistinctMembers(members[..i])
    {
      if members[i].name in names { return Err("Archive contains duplicate paths"); }
      names := names + {members[i].name};
    }
    assert members[..|members|] == members;
    for i := 0 to |members|
      invariant forall k :: 0 <= k < i ==> SafeMember(members[k])
    {
      if !SafeMember(members[i]) { return Err("Archive contains an unsafe path or a special file"); }
    }
    if EmbeddedManifest(members).None? { return Err("Archive manifest is missing"); }
    var m := EmbeddedManifest(members).value;
    if m.version != MANIFEST_VERSION { return Err("Archive manifest version is unsupported"); }
    assert Reads(members, m);
    r := Ok(m);
  }

  lemma ReadsOne(members: seq<Member>)
    ensures forall a, b :: Reads(members, a) && Reads(members, b) ==> a == b
  {
  }

  method Verify(members: seq<Member>) returns (r: Result<Manifest, string>)
    ensures r.Ok? <==> exists m :: Verified(members, m)
    ensures r.Ok? ==> Verified(members, r.value)
  {
    hide ValidManifest, HoldsFileItem, ExpectedNames, NamesSeen, Reads;
    ReadsOne(members);
    var read := ReadManifest(members);
    if read.Err? { return Err(read.error); }
    var m := read.value;
    var valid := ValidateManifest(m);
    if !valid { return Err("Archive manifest shape is invalid"); }
    for i := 0 to |m.files|
      invariant forall k :: 0 <= k < i ==> HoldsFileItem(members, m.files[k])
    {
      if !HoldsFileItem(members, m.files[i]) { return Err("Archive file does not match"); }
    }
    if NamesSeen(members) != ExpectedNames(m) { return Err("Archive contains files not represented by its manifest"); }
    assert Verified(members, m);
    r := Ok(m);
  }

  lemma {:induction false} FoundWhenDistinct(members: seq<Member>, i: nat, name: Text)
    requires i < |members| && DistinctMembers(members) && members[i].name == Strip(name)
    ensures FindMember(members, name) == Some(members[i])
  {
    if i < |members| - 1 { FoundWhenDistinct(members[..|members| - 1], i, name); }
  }

  lemma MemberOfListed(e: Located)
    requires WellNamed(e.path) && !e.entry.Other?
    ensures SafeMember(MemberOf(e)) && Strip(MemberOf(e).name) == MemberName(e.path) == Strip(MemberName(e.path))
    ensures e.entry.File? ==> MemberOf(e).name == MemberName(e.path)
  {
    NameOfMember(e);
    NameOfMember(Located(e.path, File(Bytes([]), 0, 0)));
    PartsTrailing(MemberName(e.path));
  }

  /** A trailing slash adds no part. */
  lemma {:induction false} PartsTrailing(a: Text)
    ensures Parts(a + [""]) == Parts(a)
  {
    if a == [] {
      assert a + [""] == [""] && [""][1..] == [];
    } else {
      PartsTrailing(a[1..]);
      assert (a + [""])[1..] == a[1..] + [""] && (a + [""])[0] == a[0];
    }
  }

  lemma CapturedDistinct(list: seq<Located>, m: Manifest, length: nat)
    requires Orderly(list)
    ensures DistinctMembers(MembersOf(list) + [ManifestMember(m, length)])
  {
    hide HasParent, WellNamed;
    var members := MembersOf(list) + [ManifestMember(m, length)];
    forall i, j | 0 <= i < j < |members| ensures members[i].name != members[j].name {
      MemberOfListed(list[i]);
      if j < |list| {
        MemberOfListed(list[j]);
        MemberNames(list[i].path, list[j].path);
      } else {
        MemberNames(list[i].path, list[i].path);
      }
    }
  }

  lemma CapturedHolds(list: seq<Located>, m: Manifest, length: nat, item: FileItem)
    requires Orderly(list) && m.files == FileItemsOf(list) && item in m.files
    ensures HoldsFileItem(MembersOf(list) + [ManifestMember(m, length)], item)
  {
    hide HasParent, WellNamed, FileItemsOf, MemberName;
    var members := MembersOf(list) + [ManifestMember(m, length)];
    FileItemsAre(list);
    var e :| e in list && e.entry.File? && item == FileItemOf(e);
    var i :| 0 <= i < |list| && list[i] == e;
    MemberOfListed(e);
    CapturedDistinct(list, m, length);
    FoundWhenDistinct(members, i, MemberName(item.path));
  }

  lemma CapturedNames(list: seq<Located>, m: Manifest, length: nat)
    requires Orderly(list) && m.directories == DirItemsOf(list) && m.files == FileItemsOf(list)
    ensures NamesSeen(MembersOf(list) + [ManifestMember(m, length)]) == ExpectedNames(m)
  {
    hide HasParent, WellNamed, FileItemsOf, DirItemsOf, MemberName, DirNames, FileNames, Strip;
    var members := MembersOf(list) + [ManifestMember(m, length)];
    ManifestStrip();
    NoSpecial(list);
    forall name ensures name in NamesSeen(members) <==> name in ExpectedNames(m) {
      ListedNames(list, m, name);
      if e :| e in list && MemberName(e.path) == name {
        var i :| 0 <= i < |list| && list[i] == e;
        MemberOfListed(e);
        assert members[i] in members && Strip(members[i].name) == name;
      }
      if name == [MANIFEST_NAME] { assert members[|list|] in members; }
      if member :| member in members && Strip(member.name) == name {
        var i :| 0 <= i < |members| && members[i] == member;
        if i < |list| { MemberOfListed(list[i]); }
      }
    }
  }

  lemma ManifestStrip()
    ensures Strip([MANIFEST_NAME]) == [MANIFEST_NAME] && Parts([MANIFEST_NAME]) == [MANIFEST_NAME]
  {
  }

  /** `verify` accepts every archive `capture` writes. */
  lemma CaptureVerifies(host: Host, roots: seq<Root>, createdAt: string, length: nat)
    requires ValidHost(host) && ValidRoots(host, roots) && Capturable(host, roots)
    ensures var list := ListingOf(host, roots, roots); var m := ManifestOf(list, NamesOf(roots), createdAt);
      Verified(MembersOf(list) + [ManifestMember(m, length)], m)
  {
    hide ValidHost, ValidRoots, Capturable, ListingOf, Orderly, DirItemsOf, FileItemsOf, ValidManifest, UnderLabels;
    hide HoldsFileItem, DistinctMembers, NamesSeen, ExpectedNames, SafeMember, TotalsAgree;
    var list := ListingOf(host, roots, roots);
    var m := ManifestOf(list, NamesOf(roots), createdAt);
    var members := MembersOf(list) + [ManifestMember(m, length)];
    assert roots[..|roots|] == roots;
    ListingOrderly(host, roots, |roots|);
    LabelsSafe(host, roots);
    ManifestValid(list, NamesOf(roots), createdAt);
    CapturedDistinct(list, m, length);
    CapturedNames(list, m, length);
    CapturedSafe(list, m, length);
    forall item | item in m.files ensures HoldsFileItem(members, item) { CapturedHolds(list, m, length, item); }
    ManifestStrip();
    FoundWhenDistinct(members, |list|, [MANIFEST_NAME]);
  }

  lemma CapturedSafe(list: seq<Located>, m: Manifest, length: nat)
    requires Orderly(list)
    ensures forall member :: member in MembersOf(list) + [ManifestMember(m, length)] ==> SafeMember(member)
  {
    hide HasParent, WellNamed, SafeMember;
    var members := MembersOf(list) + [ManifestMember(m, length)];
    forall i | 0 <= i < |members| ensures SafeMember(members[i]) {
      if i < |list| { MemberOfListed(list[i]); } else { ManifestSafe(m, length); }
    }
  }

  lemma ManifestSafe(m: Manifest, length: nat)
    ensures SafeMember(ManifestMember(m, length))
  {
  }
}
