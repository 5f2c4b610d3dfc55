/** The sealer and the verifier describe the same archive. */
module LandingAgreement {
  import opened Basics
  import opened LandingArtifact
  import opened LandingRetention

  // Inventories

  ghost predicate SoundInventory(f: Formats, members: seq<Member>) {
    && members != [] && InOrder(Paths(members))
    && (forall k :: 0 <= k < |members| ==>
          PathOk(members[k].path) && members[k].mode == "100644" && IsHex(members[k].objectId, 40))
    && (forall j, k :: 0 <= j < k < |members| ==>
          members[j].path != members[k].path && f.casefold(members[j].path) != f.casefold(members[k].path))
  }

  lemma {:induction false} NoMemberErrorExactlyWhen(f: Formats, members: seq<Member>, k: nat)
    requires k <= |members|
    ensures FirstMemberError(f, members, k) == None <==>
            forall j :: k <= j < |members| ==> MemberError(f, members, j) == None
    decreases |members| - k
  {
    if k < |members| { NoMemberErrorExactlyWhen(f, members, k + 1); }
  }

  /** An inventory is accepted exactly when it is non-empty, sorted, made of plain files under sound paths,
      and free of repeats even up to letter case. */
  lemma InventoryAcceptedExactlyWhen(f: Formats, members: seq<Member>, name: string)
    ensures InventoryError(f, members, name) == None <==> SoundInventory(f, members)
  {
    hide PathOk, IsHex, InOrder;
    NoMemberErrorExactlyWhen(f, members, 0);
    if InventoryError(f, members, name) == None {
      forall j, k | 0 <= j < k < |members|
        ensures members[j].path != members[k].path && f.casefold(members[j].path) != f.casefold(members[k].path)
      {
        assert MemberError(f, members, k) == None;
      }
      forall k | 0 <= k < |members|
        ensures PathOk(members[k].path) && members[k].mode == "100644" && IsHex(members[k].objectId, 40)
      {
        assert MemberError(f, members, k) == None;
      }
    }
  }

  lemma {:induction false} ByPathFinds(members: seq<Member>, path: string)
    requires path in ByPath(members)
    ensures ByPath(members)[path] in members && ByPath(members)[path].path == path
  {
    var n := |members| - 1;
    if members[n].path != path { ByPathFinds(members[..n], path); }
  }

  lemma PlainMember(f: Formats, members: seq<Member>, name: string, path: string)
    requires InventoryError(f, members, name) == None && path in ByPath(members)
    ensures var m := ByPath(members)[path]; m.path == path && m.mode == "100644" && IsHex(m.objectId, 40)
  {
    hide PathOk, IsHex, InOrder;
    InventoryAcceptedExactlyWhen(f, members, name);
    ByPathFinds(members, path);
  }

  // What a successful sealing knows

  ghost predicate SealedFrom(f: Formats, s: Snapshot, a: Attempt, e: Evaluation, w: Workspace) {
    && BindingError(s, a, e) == None
    && InventoryError(f, s.sourceMembers, "source") == None
    && InventoryError(f, s.candidateMembers, "candidate") == None
    && DeltaError(f, s, ByPath(s.sourceMembers), ByPath(s.candidateMembers)) == None
    && WorkspaceError(s, w) == None && BodiesMatch(f, ByPath(s.candidateMembers), w.contents)
  }

  ghost function ManifestOf(f: Formats, s: Snapshot, a: Attempt, e: Evaluation, w: Workspace): Manifest
    requires Complete(ByPath(s.sourceMembers), ByPath(s.candidateMembers), w.contents)
  {
    SealedManifest(s, a, e, Records(f, ByPath(s.sourceMembers), ByPath(s.candidateMembers), w.contents))
  }

  lemma SealedKnows(f: Formats, s: Snapshot, a: Attempt, e: Evaluation, w: Workspace, files: map<string, Bytes>)
    requires SealOutcome(f, s, a, e, w, files).0.Ok?
    ensures SealedFrom(f, s, a, e, w)
    ensures Complete(ByPath(s.sourceMembers), ByPath(s.candidateMembers), w.contents)
    ensures forall i :: 0 <= i < |DEPLOY_MEMBERS| ==> DEPLOY_MEMBERS[i] in w.contents
    ensures var manifest := f.canonical(ManifestOf(f, s, a, e, w));
            var zip := f.zip(SealedArchive(w.contents));
            var t := SiteArtifactFor(f, s, a, e, manifest, zip);
            && PairError(f, files, zip, t) == None
            && SealOutcome(f, s, a, e, w, files) ==
               (Ok(Sealed(t, ZipName(f.sha256(zip)), SidecarName(ZipName(f.sha256(zip))), Sidecar(f.sha256(zip)),
                          manifest, DEPLOY_MEMBERS)),
                WrittenPair(f, files, zip))
  {
    hide DEPLOY_MEMBERS, BindingError, InventoryError, DeltaError, WorkspaceError, BodiesMatch, PairError, WrittenPair;
    AllThere(f, s, w, ByPath(s.sourceMembers), ByPath(s.candidateMembers));
  }

  // Members

  /** In a sealed manifest a member comes from the candidate exactly when its object changed, and those are
      the two files a landing may write. */
  lemma OnlyWrittenMembersChange(f: Formats, s: Snapshot, a: Attempt, e: Evaluation, w: Workspace, i: nat)
    requires SealedFrom(f, s, a, e, w) && i < |DEPLOY_MEMBERS|
    requires Complete(ByPath(s.sourceMembers), ByPath(s.candidateMembers), w.contents)
    ensures var item := Records(f, ByPath(s.sourceMembers), ByPath(s.candidateMembers), w.contents)[i];
            && item.path == DEPLOY_MEMBERS[i]
            && (item.path in LANDING_WRITE_PATHS <==> item.sourceObjectId != item.candidateObjectId)
            && (item.provenance == "candidate" <==> item.sourceObjectId != item.candidateObjectId)
            && IsHex(item.sourceObjectId, 40) && IsHex(item.candidateObjectId, 40)
  {
    hide DEPLOY_MEMBERS, InventoryError, WorkspaceError, BindingError, BodiesMatch, IsHex;
    var path := DEPLOY_MEMBERS[i];
    var source, candidate := ByPath(s.sourceMembers), ByPath(s.candidateMembers);
    PlainMember(f, s.sourceMembers, "source", path);
    PlainMember(f, s.candidateMembers, "candidate", path);
    ChangedAt(f, s, source, candidate, path);
  }

  lemma ChangedAt(f: Formats, s: Snapshot, source: map<string, Member>, candidate: map<string, Member>, path: string)
    requires DeltaError(f, s, source, candidate) == None && path in source
    ensures path in candidate && (path in LANDING_WRITE_PATHS <==> source[path] != candidate[path])
  {
    hide DEPLOY_MEMBERS, LANDING_WRITE_PATHS;
    assert path in Changed(source, candidate) <==> source[path] != candidate[path];
  }

  lemma EntriesAgree(f: Formats, s: Snapshot, a: Attempt, e: Evaluation, w: Workspace, i: nat)
    requires SealedFrom(f, s, a, e, w) && i < |DEPLOY_MEMBERS|
    requires Complete(ByPath(s.sourceMembers), ByPath(s.candidateMembers), w.contents)
    ensures EntryOk(f, Records(f, ByPath(s.sourceMembers), ByPath(s.candidateMembers), w.contents)[i],
                    SealedArchive(w.contents).entries[i])
  {
    hide DEPLOY_MEMBERS, SealedFrom, IsHex;
    OnlyWrittenMembersChange(f, s, a, e, w, i);
  }

  // Agreement

  ghost predicate HasContents(w: Workspace) {
    forall i :: 0 <= i < |DEPLOY_MEMBERS| ==> DEPLOY_MEMBERS[i] in w.contents
  }

  /** The manifest and the archive of this sealing read back as they were written. */
  ghost predicate ReadBack(f: Formats, s: Snapshot, a: Attempt, e: Evaluation, w: Workspace) {
    && (Complete(ByPath(s.sourceMembers), ByPath(s.candidateMembers), w.contents) ==>
          var m := ManifestOf(f, s, a, e, w); f.parse(f.canonical(m)) == Some(m))
    && (HasContents(w) ==> var archive := SealedArchive(w.contents); f.unzip(f.zip(archive)) == Some(archive))
  }

  /** Sealer and verifier compute the same names and the same sidecar. */
  lemma NamesAgree(t: SiteArtifact, b: Bytes)
    requires IsHex(t.zipSha256, 64)
    ensures ExpectedZip(t) == ZipName(t.zipSha256)
    ensures ExpectedZip(t) + ".sha256" == SidecarName(ZipName(t.zipSha256))
    ensures Encodes(b, ExpectedSidecarText(t, ZipName(t.zipSha256))) <==> b == Sidecar(t.zipSha256)
  {
    var d := t.zipSha256;
    assert InCapitals(d) == Uppercase(d);
    var text := ExpectedSidecarText(t, ZipName(d));
    assert Sidecar(d) == Ascii(text);
    forall i | 0 <= i < |text| ensures text[i] as int < 128 {
      PlainText(d, i);
    }
  }

  lemma PlainText(d: string, i: nat)
    requires IsHex(d, 64) && i < |Uppercase(d) + "  " + ZipName(d) + "\n"|
    ensures (Uppercase(d) + "  " + ZipName(d) + "\n")[i] as int < 128
  {
  }

  /** The evidence and the input this attempt was made for. */
  ghost predicate Matching(s: Snapshot, a: Attempt, ev: Evidence, source: Input) {
    && ev.disposition == (if ev.isV1 then "fixture_ready" else "normalized")
    && ev.schemaVersion == (if ev.isV1 then 1 else 2)
    && ev.inputDigest == source.inputDigest == a.inputDigest && ev.profileDigest == a.profileDigest
    && source.exactBaseSha == s.sourceSha && source.exactBaseTree == s.sourceTree
  }

  function Capture(sealed: Sealed, root: string, ev: Evidence, a: Attempt, e: Evaluation): Retained {
    Retained(sealed.artifact, root, sealed.zipName, sealed.sidecarName, sealed.sidecarBytes, sealed.manifestBytes,
             sealed.memberNames, ev, a, e)
  }

  lemma {:induction false} WithoutLacks(members: seq<string>, missing: set<string>)
    ensures forall m :: m in Without(members, missing) <==> m in members && m !in missing
  {
    if members != [] { WithoutLacks(members[1..], missing); }
  }

  lemma DeployedExactlyWhen(sourceSha: string, sourceTree: string)
    ensures DeployMembersForSource(sourceSha, sourceTree) == Some(DEPLOY_MEMBERS) <==>
            CurrentEpoch(sourceSha, sourceTree)
  {
    hide Without, DEPLOY_MEMBERS, PriorEpoch, OldestEpoch, CurrentEpoch;
    AnalyticsIsDeployed();
    WithoutLacks(DEPLOY_MEMBERS, {"analytics.js", "analytics.css"});
    WithoutLacks(DEPLOY_MEMBERS, {"analytics.js", "analytics.css", "index.css"});
    if CurrentEpoch(sourceSha, sourceTree) { EpochsDiffer(sourceSha, sourceTree); }
  }

  lemma AnalyticsIsDeployed()
    ensures "analytics.js" in DEPLOY_MEMBERS
  {
    assert DEPLOY_MEMBERS[2] == "analytics.js";
  }

  lemma EpochsDiffer(sourceSha: string, sourceTree: string)
    requires CurrentEpoch(sourceSha, sourceTree)
    ensures !PriorEpoch(sourceSha, sourceTree) && !OldestEpoch(sourceSha, sourceTree)
  {
    assert sourceSha[0] == 'f';
  }

  lemma NamesAreFileNames(digest: string)
    requires IsHex(digest, 64)
    ensures IsFileName(ZipName(digest)) && IsFileName(SidecarName(ZipName(digest)))
  {
    var name := ZipName(digest);
    assert |name| > 64 && |SidecarName(name)| > 64;
  }

  /** The archive a sealing writes. */
  ghost function ZipOf(f: Formats, w: Workspace): Bytes {
    if HasContents(w) then f.zip(SealedArchive(w.contents)) else []
  }

  /** No other content in the directory shares the archive's digest. */
  ghost predicate NoCollision(f: Formats, files: map<string, Bytes>, zip: Bytes) {
    forall name :: name in files && f.sha256(files[name]) == f.sha256(zip) ==> files[name] == zip
  }

  /** After a successful write both files are there with their own content. */
  lemma PairIsThere(f: Formats, files: map<string, Bytes>, zip: Bytes, t: SiteArtifact)
    requires PairError(f, files, zip, t) == None && NoCollision(f, files, zip)
    ensures var after := WrittenPair(f, files, zip);
            var zipName := ZipName(f.sha256(zip));
            && zipName in after && after[zipName] == zip
            && SidecarName(zipName) in after && after[SidecarName(zipName)] == Sidecar(f.sha256(zip))
            && (forall name :: name in files ==> name in after && after[name] == files[name])
            && 0 < |zip| <= MAX_ARCHIVE_BYTES
  {
    var zipName := ZipName(f.sha256(zip));
    assert |SidecarName(zipName)| != |zipName|;
  }

  lemma SealedIsHex(f: Formats, files: map<string, Bytes>, zip: Bytes, t: SiteArtifact)
    requires PairError(f, files, zip, t) == None
    ensures IsHex(t.zipSha256, 64)
  {
  }

  lemma SidecarFits(digest: string)
    requires IsHex(digest, 64)
    ensures 0 < |Sidecar(digest)| <= MAX_SIDECAR_BYTES
  {}

  /** Every sealing the sealer completes is accepted by the verifier, for the evidence and input it was made
      for, exactly when the source is the present epoch and the manifest within the verifier's bound. */
  lemma SealedIsAcceptedExactlyWhen(f: Formats, s: Snapshot, a: Attempt, e: Evaluation, w: Workspace,
                                    files: map<string, Bytes>, root: string, ev: Evidence, source: Input)
    requires SealOutcome(f, s, a, e, w, files).0.Ok? && ReadBack(f, s, a, e, w) && Matching(s, a, ev, source)
    requires NoCollision(f, files, ZipOf(f, w))
    ensures var (sealed, after) := SealOutcome(f, s, a, e, w, files);
            Validate(f, Capture(sealed.value, root, ev, a, e), source, after) == None <==>
            && CurrentEpoch(s.sourceSha, s.sourceTree)
            && 0 < |sealed.value.manifestBytes| <= MAX_MANIFEST_BYTES
  {
    hide DEPLOY_MEMBERS, SealOutcome, DeployMembersForSource, CurrentEpoch, SealedFrom, IsHex, Sidecar, ZipName,
      SidecarName, IsFileName, Records, SealedArchive, EntryOk, WrittenPair, PairError;
    SealedKnows(f, s, a, e, w, files);
    var zip := f.zip(SealedArchive(w.contents));
    var digest := f.sha256(zip);
    var (sealed, after) := SealOutcome(f, s, a, e, w, files);
    var r := Capture(sealed.value, root, ev, a, e);
    PairIsThere(f, files, zip, r.artifact);
    SealedIsHex(f, files, zip, r.artifact);
    NamesAgree(r.artifact, Sidecar(digest));
    NamesAreFileNames(digest);
    SidecarFits(digest);
    DeployedExactlyWhen(s.sourceSha, s.sourceTree);
    BindingAgrees(f, s, a, e, w, r, ev, source);
    ArchiveAgrees(f, s, a, e, w, r);
  }

  lemma BindingAgrees(f: Formats, s: Snapshot, a: Attempt, e: Evaluation, w: Workspace, r: Retained, ev: Evidence,
                      source: Input)
    requires SealedFrom(f, s, a, e, w) && Matching(s, a, ev, source)
    requires r.evidence == ev && r.attempt == a && r.evaluation == e
    requires exists manifest, zip :: r.artifact == SiteArtifactFor(f, s, a, e, manifest, zip)
    ensures BindingOk(r, source)
  {
    hide InventoryError, DeltaError, WorkspaceError, BodiesMatch, IsHex;
  }

  lemma ArchiveAgrees(f: Formats, s: Snapshot, a: Attempt, e: Evaluation, w: Workspace, r: Retained)
    requires SealedFrom(f, s, a, e, w) && r.memberNames == DEPLOY_MEMBERS
    requires Complete(ByPath(s.sourceMembers), ByPath(s.candidateMembers), w.contents) && HasContents(w)
    requires exists manifest, zip :: r.artifact == SiteArtifactFor(f, s, a, e, manifest, zip)
    ensures ManifestOk(ManifestOf(f, s, a, e, w), r)
    ensures ArchiveOk(f, ManifestOf(f, s, a, e, w), r, SealedArchive(w.contents))
  {
    hide DEPLOY_MEMBERS, EntryOk, InventoryError, DeltaError, WorkspaceError, BodiesMatch, IsHex;
    forall i | 0 <= i < |DEPLOY_MEMBERS|
      ensures EntryOk(f, ManifestOf(f, s, a, e, w).members[i], SealedArchive(w.contents).entries[i])
    {
      EntriesAgree(f, s, a, e, w, i);
    }
  }

  ghost predicate NoClash(f: Formats, b: Bytes, c: Bytes) { f.sha256(b) == f.sha256(c) ==> b == c }

  /** An accepted record with a sealed artifact's identity is that sealed artifact, byte for byte, as long
      as SHA-256 does not collide on what is found. */
  lemma AcceptedIsWhatWasSealed(f: Formats, s: Snapshot, a: Attempt, e: Evaluation, w: Workspace,
                                files: map<string, Bytes>, r: Retained, source: Input, later: map<string, Bytes>)
    requires SealOutcome(f, s, a, e, w, files).0.Ok?
    requires Validate(f, r, source, later) == None
    requires r.zipName in later ==> NoClash(f, later[r.zipName], ZipOf(f, w))
    requires NoClash(f, r.manifestBytes, SealOutcome(f, s, a, e, w, files).0.value.manifestBytes)
    requires r.artifact == SealOutcome(f, s, a, e, w, files).0.value.artifact
    ensures var sealed := SealOutcome(f, s, a, e, w, files).0.value;
            && r.manifestBytes == sealed.manifestBytes && r.sidecarBytes == sealed.sidecarBytes
            && r.zipName == sealed.zipName && r.sidecarName == sealed.sidecarName
            && r.zipName in later && later[r.zipName] == ZipOf(f, w)
            && r.sidecarName in later && later[r.sidecarName] == sealed.sidecarBytes
  {
    hide DEPLOY_MEMBERS, SealOutcome, DeployMembersForSource, SealedFrom, IsHex, Sidecar, ZipName, SidecarName,
      IsFileName, Records, SealedArchive, ManifestOk, ArchiveOk, WrittenPair, PairError;
    SealedKnows(f, s, a, e, w, files);
    var zip := f.zip(SealedArchive(w.contents));
    SealedIsHex(f, files, zip, r.artifact);
    NamesAgree(r.artifact, r.sidecarBytes);
    if r.sidecarName in later { NamesAgree(r.artifact, later[r.sidecarName]); }
  }

  /** Sealing touches nothing but its own two files, and a failed sealing touches nothing; sealing again
      changes nothing more. */
  lemma SealingIsContained(f: Formats, s: Snapshot, a: Attempt, e: Evaluation, w: Workspace, files: map<string, Bytes>)
    ensures var (sealed, after) := SealOutcome(f, s, a, e, w, files);
            && (sealed.Err? ==> after == files)
            && (sealed.Ok? ==>
                  && after.Keys == files.Keys + {sealed.value.zipName, sealed.value.sidecarName}
                  && (forall name :: name in files ==> after[name] == files[name])
                  && SealOutcome(f, s, a, e, w, after) == (sealed, after))
  {
    hide DEPLOY_MEMBERS, SealedFrom, IsHex, Records, SealedArchive, BindingError, InventoryError, DeltaError,
      WorkspaceError, BodiesMatch, Complete;
    var (sealed, after) := SealOutcome(f, s, a, e, w, files);
    if sealed.Ok? {
      SealedKnows(f, s, a, e, w, files);
      AgainIsSame(f, files, f.zip(SealedArchive(w.contents)), sealed.value.artifact);
    }
  }

  lemma AgainIsSame(f: Formats, files: map<string, Bytes>, zip: Bytes, t: SiteArtifact)
    requires PairError(f, files, zip, t) == None && t.zipSha256 == f.sha256(zip)
    ensures PairError(f, WrittenPair(f, files, zip), zip, t) == None
    ensures WrittenPair(f, WrittenPair(f, files, zip), zip) == WrittenPair(f, files, zip)
  {
    SidecarFits(f.sha256(zip));
    var zipName := ZipName(f.sha256(zip));
    assert |SidecarName(zipName)| != |zipName|;
  }
}
