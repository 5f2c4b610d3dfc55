/** When a sealing completes, and which fault it names otherwise, over the members and files at hand: the
    bindings, the two inventories, the change between them, the rebuilt candidate and its bodies, and what
    already lies in the place of the archive. */
module LandingSealing {
  import opened Basics
  import opened LandingArtifact
  import opened LandingRetention
  import opened LandingAgreement

  // Paths

  function Joined(parts: seq<string>): string {
    if parts == [] then "" else if |parts| == 1 then parts[0] else parts[0] + "/" + Joined(parts[1..])
  }

  lemma EmptyHasOnePart()
    ensures Parts("") == [""]
  {
  }

  lemma PartsOfSlash(path: string)
    ensures Parts("/" + path) == [""] + Parts(path)
  {
    assert ("/" + path)[1..] == path;
  }

  lemma PartsOfCharacter(c: char, path: string)
    requires c != '/'
    ensures Parts(path) != [] && Parts([c] + path) == [[c] + Parts(path)[0]] + Parts(path)[1..]
  {
    assert ([c] + path)[1..] == path;
  }

  lemma JoinedAfterSlash(parts: seq<string>)
    requires parts != []
    ensures Joined([""] + parts) == "/" + Joined(parts)
  {
    assert ([""] + parts)[1..] == parts;
  }

  lemma JoinedAfterCharacter(c: char, parts: seq<string>)
    requires parts != []
    ensures Joined([[c] + parts[0]] + parts[1..]) == [c] + Joined(parts)
  {
    var longer := [[c] + parts[0]] + parts[1..];
    assert longer[1..] == parts[1..];
    if |parts| == 1 {
      assert parts[1..] == [] && longer == [[c] + parts[0]];
    } else {
      assert Joined(longer) == [c] + parts[0] + "/" + Joined(parts[1..]);
    }
  }

  /** The parts of a path are what lies between its slashes. */
  lemma {:induction false} PartsRejoin(path: string)
    ensures Parts(path) != [] && Joined(Parts(path)) == path
    ensures forall i :: 0 <= i < |Parts(path)| ==> '/' !in Parts(path)[i]
  {
    hide Parts, Joined;
    if path == "" {
      EmptyHasOnePart();
      OnePart("");
    } else {
      var c, rest := path[0], path[1..];
      PartsRejoin(rest);
      assert path == [c] + rest;
      if c == '/' {
        PartsOfSlash(rest);
        JoinedAfterSlash(Parts(rest));
      } else {
        PartsOfCharacter(c, rest);
        JoinedAfterCharacter(c, Parts(rest));
      }
    }
  }

  lemma OnePart(part: string)
    ensures Joined([part]) == part
  {
  }

  /** And names without a slash are the parts of what they join to. */
  lemma {:induction false} JoinedParts(parts: seq<string>)
    requires parts != [] && forall i :: 0 <= i < |parts| ==> '/' !in parts[i]
    ensures Parts(Joined(parts)) == parts
    decreases |parts|, |parts[0]|
  {
    hide Parts, Joined;
    if parts == [""] {
      EmptyHasOnePart();
      OnePart("");
    } else if parts[0] == "" {
      JoinedParts(parts[1..]);
      PartsOfSlash(Joined(parts[1..]));
      JoinedAfterSlash(parts[1..]);
      assert parts == [""] + parts[1..];
    } else {
      var c, rest := parts[0][0], parts[0][1..];
      assert c in parts[0] && forall d :: d in rest ==> d in parts[0];
      var shorter := parts[0 := rest];
      JoinedParts(shorter);
      PartsOfCharacter(c, Joined(shorter));
      JoinedAfterCharacter(c, shorter);
      assert parts[0] == [c] + rest;
      assert parts == [[c] + shorter[0]] + shorter[1..];
    }
  }

  /** Sound names joined by slashes: none empty, none the directory itself or the one above. */
  ghost predicate SoundParts(parts: seq<string>) {
    parts != [] && forall i :: 0 <= i < |parts| ==>
                     parts[i] != "" && parts[i] != "." && parts[i] != ".." && '/' !in parts[i]
  }

  /** A path is let through exactly when it is sound names joined by slashes, without a backslash or a NUL, or
      the directory itself. */
  lemma PathOkExactlyWhen(path: string)
    ensures PathOk(path) <==>
            || path == "."
            || ('\\' !in path && '\0' !in path && exists parts :: SoundParts(parts) && Joined(parts) == path)
  {
    PartsRejoin(path);
    if PathOk(path) && path != "." {
      forall i | 0 <= i < |Parts(path)|
        ensures Parts(path)[i] != "" && Parts(path)[i] != "." && Parts(path)[i] != ".."
      {
        assert Parts(path)[i] in Parts(path);
      }
      assert SoundParts(Parts(path));
    }
    if parts :| SoundParts(parts) && Joined(parts) == path {
      JoinedParts(parts);
    }
  }

  /** The error of an inventory with members is that of the first faulty one. */
  lemma {:induction false} FirstFaultyMember(f: Formats, members: seq<Member>, k: nat)
    requires k <= |members|
    ensures var error := FirstMemberError(f, members, k);
            error.Some? ==> exists j :: k <= j < |members| && MemberError(f, members, j) == error
                                        && forall m :: k <= m < j ==> MemberError(f, members, m) == None
    decreases |members| - k
  {
    hide MemberError;
    if k < |members| && MemberError(f, members, k).None? { FirstFaultyMember(f, members, k + 1); }
  }

  // What is asked

  ghost predicate SnapshotSound(s: Snapshot) {
    && s.repositoryId == "github.com/Dimkox/ai-dark-factory-landing" && s.commitTime == "2000-01-01T00:00:00Z"
    && IsHex(s.sourceSha, 40) && IsHex(s.sourceTree, 40) && IsHex(s.candidateSha, 40) && IsHex(s.candidateTree, 40)
    && s.cloneStrategy == "no-local-no-hardlinks" && s.headDetached && s.objectStorageIndependent
    && s.workspaceMode == 448
  }

  ghost predicate AttemptIsOf(a: Attempt, s: Snapshot) {
    a == a.(ordinal := s.ordinal, exactBaseSha := s.sourceSha, exactHeadSha := s.candidateSha,
            workspaceResultDigest := s.workspaceResultDigest, rendererDigest := s.rendererDigest)
  }

  ghost predicate EvaluationPasses(e: Evaluation, a: Attempt, s: Snapshot) {
    e == Evaluation(a.attemptDigest, s.candidateSha, "pass", [], [], e.evaluationDigest)
  }

  ghost predicate Has(members: seq<Member>, path: string) {
    exists k :: 0 <= k < |members| && members[k].path == path
  }

  /** The member of this path has this object. */
  ghost predicate HasObject(members: seq<Member>, path: string, objectId: string) {
    exists k :: 0 <= k < |members| && members[k].path == path && members[k].objectId == objectId
  }

  predicate IsWritten(path: string) { path == "index.html" || path == "content.css" }

  ghost predicate SamePaths(a: seq<Member>, b: seq<Member>) {
    forall path :: Has(a, path) <==> Has(b, path)
  }

  /** The two files a landing may write changed, and no other. */
  ghost predicate OnlyWrittenChanged(s: Snapshot) {
    && s.changedPaths == ["content.css", "index.html"]
    && Has(s.sourceMembers, "index.html") && Has(s.sourceMembers, "content.css")
    && forall i, j :: 0 <= i < |s.sourceMembers| && 0 <= j < |s.candidateMembers| &&
                      s.sourceMembers[i].path == s.candidateMembers[j].path ==>
                      (s.sourceMembers[i] != s.candidateMembers[j] <==> IsWritten(s.sourceMembers[i].path))
  }

  ghost predicate HasAllDeployed(members: seq<Member>) {
    forall i :: 0 <= i < |DEPLOY_MEMBERS| ==> Has(members, DEPLOY_MEMBERS[i])
  }

  // Lists and maps

  lemma {:induction false} ByPathHas(members: seq<Member>, path: string)
    ensures path in ByPath(members) <==> Has(members, path)
  {
    if members != [] {
      var n := |members| - 1;
      ByPathHas(members[..n], path);
      if Has(members, path) && members[n].path != path {
        var k :| 0 <= k < |members| && members[k].path == path;
        assert members[..n][k].path == path;
      }
      if Has(members[..n], path) {
        var k :| 0 <= k < n && members[..n][k].path == path;
        assert members[k].path == path;
      }
    }
  }

  /** Without repeats the map has each member itself. */
  lemma ByPathIs(f: Formats, members: seq<Member>, name: string, k: nat)
    requires InventoryError(f, members, name) == None && k < |members|
    ensures members[k].path in ByPath(members) && ByPath(members)[members[k].path] == members[k]
  {
    hide SoundInventory, InOrder;
    ByPathHas(members, members[k].path);
    ByPathFinds(members, members[k].path);
    InventoryAcceptedExactlyWhen(f, members, name);
    var m := ByPath(members)[members[k].path];
    var j :| 0 <= j < |members| && members[j] == m;
    PathsDiffer(f, members, j, k);
  }

  lemma PathsDiffer(f: Formats, members: seq<Member>, j: nat, k: nat)
    requires SoundInventory(f, members) && j < |members| && k < |members| && members[j].path == members[k].path
    ensures j == k
  {
    hide InOrder;
  }

  lemma ObjectIs(f: Formats, members: seq<Member>, name: string, path: string, objectId: string)
    requires InventoryError(f, members, name) == None && path in ByPath(members)
    ensures ByPath(members)[path].objectId == objectId <==> HasObject(members, path, objectId)
  {
    hide InventoryError;
    ByPathFinds(members, path);
    var m := ByPath(members)[path];
    var j :| 0 <= j < |members| && members[j] == m;
    if HasObject(members, path, objectId) {
      var k :| 0 <= k < |members| && members[k].path == path && members[k].objectId == objectId;
      ByPathIs(f, members, name, k);
    }
  }

  lemma SamePathsExactlyWhen(a: seq<Member>, b: seq<Member>)
    ensures ByPath(a).Keys == ByPath(b).Keys <==> SamePaths(a, b)
  {
    forall path ensures (path in ByPath(a) <==> Has(a, path)) && (path in ByPath(b) <==> Has(b, path)) {
      ByPathHas(a, path);
      ByPathHas(b, path);
    }
  }

  /** Both inventories are sound. */
  ghost predicate InventoriesSound(f: Formats, s: Snapshot) {
    InventoryError(f, s.sourceMembers, "source") == None && InventoryError(f, s.candidateMembers, "candidate") == None
  }

  lemma ChangedExactlyWhen(f: Formats, s: Snapshot)
    requires InventoriesSound(f, s) && SamePaths(s.sourceMembers, s.candidateMembers)
    ensures ByPath(s.sourceMembers).Keys == ByPath(s.candidateMembers).Keys
    ensures s.changedPaths == SORTED_WRITE_PATHS
            && Changed(ByPath(s.sourceMembers), ByPath(s.candidateMembers)) == LANDING_WRITE_PATHS
       <==> OnlyWrittenChanged(s)
  {
    hide InventoryError, ByPath;
    SamePathsExactlyWhen(s.sourceMembers, s.candidateMembers);
    var source, candidate := ByPath(s.sourceMembers), ByPath(s.candidateMembers);
    forall i, j | 0 <= i < |s.sourceMembers| && 0 <= j < |s.candidateMembers| &&
                  s.sourceMembers[i].path == s.candidateMembers[j].path
      ensures s.sourceMembers[i] != s.candidateMembers[j] <==> s.sourceMembers[i].path in Changed(source, candidate)
    {
      ByPathIs(f, s.sourceMembers, "source", i);
      ByPathIs(f, s.candidateMembers, "candidate", j);
    }
    ByPathHas(s.sourceMembers, "index.html");
    ByPathHas(s.sourceMembers, "content.css");
    if OnlyWrittenChanged(s) {
      forall path ensures path in Changed(source, candidate) <==> path in LANDING_WRITE_PATHS {
        ByPathHas(s.sourceMembers, path);
        ByPathHas(s.candidateMembers, path);
        if path in source {
          var i :| 0 <= i < |s.sourceMembers| && s.sourceMembers[i].path == path;
          var j :| 0 <= j < |s.candidateMembers| && s.candidateMembers[j].path == path;
        }
      }
    }
  }

  // The faults, in the order they are asked

  /** What is wrong with the change from source to candidate. */
  ghost function DeltaFault(f: Formats, s: Snapshot): Option<string> {
    if !SamePaths(s.sourceMembers, s.candidateMembers) then Some("tree_shape")
    else if !OnlyWrittenChanged(s) then Some("changed_paths")
    else if !HasAllDeployed(s.candidateMembers) then Some("deploy_inventory")
    else if !HasObject(s.sourceMembers, "index.html", f.blobId(s.sourceIndexHtml)) then Some("source_index")
    else if !HasObject(s.sourceMembers, "content.css", f.blobId(s.sourceContentCss)) then Some("source_css")
    else if !HasObject(s.candidateMembers, "index.html", f.blobId(s.indexHtml)) then Some("candidate_index")
    else if !HasObject(s.candidateMembers, "content.css", f.blobId(s.contentCss)) then Some("candidate_css")
    else None
  }

  /** A file that can be written and archived. */
  ghost predicate Sized(b: Bytes) { 0 < |b| <= 26_214_400 }

  ghost predicate AllReadable(w: Workspace) {
    forall i :: 0 <= i < |DEPLOY_MEMBERS| ==> DEPLOY_MEMBERS[i] in w.contents && Sized(w.contents[DEPLOY_MEMBERS[i]])
  }

  /** What of the rebuilt candidate differs from the snapshot. */
  ghost function RebuildFault(s: Snapshot, w: Workspace): Option<string> {
    if w.sourceMembers != s.sourceMembers then Some("source_inventory")
    else if w.sourceIndexHtml != s.sourceIndexHtml then Some("source_index")
    else if w.sourceContentCss != s.sourceContentCss then Some("source_css")
    else if !Sized(s.indexHtml) || !Sized(s.contentCss) then Some("member_write")
    else if w.staged != ["content.css", "index.html"] then Some("changed_paths")
    else if w.tree != s.candidateTree then Some("candidate_tree")
    else if w.commit != s.candidateSha then Some("candidate_commit")
    else if w.candidateMembers != s.candidateMembers then Some("candidate_inventory")
    else if !AllReadable(w) then Some("member_file")
    else None
  }

  /** Every deployed file is the object the candidate lists for it. */
  ghost predicate BodiesAreObjects(f: Formats, s: Snapshot, w: Workspace) {
    forall i :: 0 <= i < |DEPLOY_MEMBERS| ==>
      DEPLOY_MEMBERS[i] in w.contents
      && HasObject(s.candidateMembers, DEPLOY_MEMBERS[i], f.blobId(w.contents[DEPLOY_MEMBERS[i]]))
  }

  /** Nothing else is in the place of the archive or its sidecar. */
  ghost function PlaceFault(f: Formats, files: map<string, Bytes>, zip: Bytes, t: SiteArtifact): Option<string> {
    var zipName := "therealaidarkfactory.online-" + f.sha256(zip) + ".zip";
    if !(0 < |zip| <= 104_857_600) then Some("zip_size")
    else if zipName in files && !(0 < |files[zipName]| <= 104_857_600 && f.sha256(files[zipName]) == f.sha256(zip))
    then Some("artifact_exists")
    else if zipName + ".sha256" in files
            && !(|files[zipName + ".sha256"]| <= 1_024 && files[zipName + ".sha256"] == Sidecar(f.sha256(zip)))
    then Some("artifact_exists")
    else if !AllHex(t) then Some("artifact_facts")
    else None
  }

  function Digests(t: SiteArtifact): seq<string> {
    [t.inputDigest, t.specDigest, t.profileDigest, t.attemptDigest, t.evaluationDigest, t.manifestDigest, t.zipSha256,
     t.sidecarSha256]
  }

  /** The facts of an artifact are well-formed identities. */
  ghost predicate AllHex(t: SiteArtifact) {
    && (forall sha :: sha in [t.sourceSha, t.sourceTree, t.candidateSha, t.candidateTree] ==> IsHex(sha, 40))
    && (forall digest :: digest in Digests(t) ==> IsHex(digest, 64))
    && 1 <= t.memberCount <= 1_024 && 1 <= t.byteLength <= 104_857_600
  }

  lemma DeltaFaultIs(f: Formats, s: Snapshot)
    requires InventoriesSound(f, s)
    ensures DeltaError(f, s, ByPath(s.sourceMembers), ByPath(s.candidateMembers)) == DeltaFault(f, s)
  {
    hide InventoryError, ByPath, DEPLOY_MEMBERS, OnlyWrittenChanged, HasObject, Changed;
    SamePathsExactlyWhen(s.sourceMembers, s.candidateMembers);
    var source, candidate := ByPath(s.sourceMembers), ByPath(s.candidateMembers);
    if SamePaths(s.sourceMembers, s.candidateMembers) {
      ChangedExactlyWhen(f, s);
      ModesAgree(f, s);
      DeployedExactlyThere(s.candidateMembers);
      if HasAllDeployed(s.candidateMembers) {
        WrittenAreDeployed();
        ByPathHas(s.candidateMembers, "index.html");
        ByPathHas(s.candidateMembers, "content.css");
        ObjectIs(f, s.sourceMembers, "source", "index.html", f.blobId(s.sourceIndexHtml));
        ObjectIs(f, s.sourceMembers, "source", "content.css", f.blobId(s.sourceContentCss));
        ObjectIs(f, s.candidateMembers, "candidate", "index.html", f.blobId(s.indexHtml));
        ObjectIs(f, s.candidateMembers, "candidate", "content.css", f.blobId(s.contentCss));
      }
    }
  }

  lemma WrittenAreDeployed()
    ensures "index.html" in DEPLOY_MEMBERS && "content.css" in DEPLOY_MEMBERS
  {
    assert DEPLOY_MEMBERS[9] == "index.html" && DEPLOY_MEMBERS[4] == "content.css";
  }

  lemma DeployedExactlyThere(members: seq<Member>)
    ensures HasAllDeployed(members) <==> forall i :: 0 <= i < |DEPLOY_MEMBERS| ==> DEPLOY_MEMBERS[i] in ByPath(members)
  {
    hide DEPLOY_MEMBERS, ByPath, Has;
    forall i | 0 <= i < |DEPLOY_MEMBERS|
      ensures DEPLOY_MEMBERS[i] in ByPath(members) <==> Has(members, DEPLOY_MEMBERS[i])
    {
      ByPathHas(members, DEPLOY_MEMBERS[i]);
    }
  }

  lemma ModesAgree(f: Formats, s: Snapshot)
    requires InventoriesSound(f, s) && ByPath(s.sourceMembers).Keys == ByPath(s.candidateMembers).Keys
    ensures forall path :: path in ByPath(s.sourceMembers) ==>
              ByPath(s.sourceMembers)[path].mode == ByPath(s.candidateMembers)[path].mode
  {
    hide InventoryError, ByPath;
    forall path | path in ByPath(s.sourceMembers)
      ensures ByPath(s.sourceMembers)[path].mode == ByPath(s.candidateMembers)[path].mode
    {
      PlainMember(f, s.sourceMembers, "source", path);
      PlainMember(f, s.candidateMembers, "candidate", path);
    }
  }

  lemma RebuildFaultIs(s: Snapshot, w: Workspace)
    ensures WorkspaceError(s, w) == RebuildFault(s, w)
  {
    hide DEPLOY_MEMBERS;
    if AllReadable(w) {
      forall i | 0 <= i < |DEPLOY_MEMBERS| ensures Readable(w.contents, DEPLOY_MEMBERS[i]) {}
    } else {
      var i :| 0 <= i < |DEPLOY_MEMBERS|
        && !(DEPLOY_MEMBERS[i] in w.contents && Sized(w.contents[DEPLOY_MEMBERS[i]]));
      assert !Readable(w.contents, DEPLOY_MEMBERS[i]);
    }
  }

  lemma BodiesExactlyWhen(f: Formats, s: Snapshot, w: Workspace)
    requires InventoriesSound(f, s) && HasAllDeployed(s.candidateMembers)
    ensures BodiesMatch(f, ByPath(s.candidateMembers), w.contents) <==> BodiesAreObjects(f, s, w)
  {
    hide DEPLOY_MEMBERS, InventoryError, ByPath, HasObject, Has;
    DeployedExactlyThere(s.candidateMembers);
    forall i | 0 <= i < |DEPLOY_MEMBERS| && DEPLOY_MEMBERS[i] in w.contents
      ensures f.blobId(w.contents[DEPLOY_MEMBERS[i]]) == ByPath(s.candidateMembers)[DEPLOY_MEMBERS[i]].objectId
         <==> HasObject(s.candidateMembers, DEPLOY_MEMBERS[i], f.blobId(w.contents[DEPLOY_MEMBERS[i]]))
    {
      ObjectIs(f, s.candidateMembers, "candidate", DEPLOY_MEMBERS[i], f.blobId(w.contents[DEPLOY_MEMBERS[i]]));
    }
  }

  lemma PlaceFaultIs(f: Formats, files: map<string, Bytes>, zip: Bytes, t: SiteArtifact)
    ensures PairError(f, files, zip, t) == PlaceFault(f, files, zip, t)
  {
    hide IsHex, Sidecar;
    assert ArtifactOk(t) == AllHex(t) by { FactsAreHex(t); }
  }

  lemma FactsAreHex(t: SiteArtifact)
    ensures ArtifactOk(t) == AllHex(t)
  {
    hide IsHex;
    var shas := [t.sourceSha, t.sourceTree, t.candidateSha, t.candidateTree];
    var digests := Digests(t);
    assert shas[0] in shas && shas[1] in shas && shas[2] in shas && shas[3] in shas;
    assert digests[0] in digests && digests[1] in digests && digests[2] in digests && digests[3] in digests;
    assert digests[4] in digests && digests[5] in digests && digests[6] in digests && digests[7] in digests;
  }

  /** The first thing that is wrong, if anything is, in the order it is asked. */
  ghost function Fault(f: Formats, s: Snapshot, a: Attempt, e: Evaluation, w: Workspace, files: map<string, Bytes>)
    : Option<string>
  {
    if !SnapshotSound(s) then Some("snapshot_identity")
    else if !AttemptIsOf(a, s) then Some("attempt_binding")
    else if !EvaluationPasses(e, a, s) then Some("evaluation_binding")
    else if InventoryError(f, s.sourceMembers, "source").Some? then InventoryError(f, s.sourceMembers, "source")
    else if InventoryError(f, s.candidateMembers, "candidate").Some? then
      InventoryError(f, s.candidateMembers, "candidate")
    else if DeltaFault(f, s).Some? then DeltaFault(f, s)
    else if RebuildFault(s, w).Some? then RebuildFault(s, w)
    else if !BodiesAreObjects(f, s, w) then Some("member_object")
    else if Complete(ByPath(s.sourceMembers), ByPath(s.candidateMembers), w.contents) then
      var manifest, zip := f.canonical(ManifestOf(f, s, a, e, w)), f.zip(SealedArchive(w.contents));
      PlaceFault(f, files, zip, SiteArtifactFor(f, s, a, e, manifest, zip))
    else Some("member_file")
  }

  /** A sealing completes exactly when nothing is wrong, and otherwise names the first fault and leaves the
      directory as it was. */
  lemma SealsExactlyWhen(f: Formats, s: Snapshot, a: Attempt, e: Evaluation, w: Workspace, files: map<string, Bytes>)
    ensures var (sealed, after) := SealOutcome(f, s, a, e, w, files);
            match Fault(f, s, a, e, w, files)
            case None => sealed.Ok?
            case Some(fault) => sealed == Err(fault) && after == files
  {
    hide DEPLOY_MEMBERS, InventoryError, DeltaError, WorkspaceError, BodiesMatch, PairError, ByPath, Records,
      SealedArchive, IsHex, DeltaFault, RebuildFault, BodiesAreObjects, PlaceFault, SiteArtifactFor, SealedManifest;
    BindingFaults(s, a, e);
    if InventoriesSound(f, s) {
      DeltaFaultIs(f, s);
      RebuildFaultIs(s, w);
      if DeltaFault(f, s).None? && RebuildFault(s, w).None? {
        AllThere(f, s, w, ByPath(s.sourceMembers), ByPath(s.candidateMembers));
        assert HasAllDeployed(s.candidateMembers) by { NoDeltaFault(f, s); }
        BodiesExactlyWhen(f, s, w);
        var manifest, zip := f.canonical(ManifestOf(f, s, a, e, w)), f.zip(SealedArchive(w.contents));
        PlaceFaultIs(f, files, zip, SiteArtifactFor(f, s, a, e, manifest, zip));
      }
    }
  }

  lemma NoDeltaFault(f: Formats, s: Snapshot)
    requires DeltaFault(f, s).None?
    ensures HasAllDeployed(s.candidateMembers)
  {
  }

  lemma BindingFaults(s: Snapshot, a: Attempt, e: Evaluation)
    ensures BindingError(s, a, e)
         == if !SnapshotSound(s) then Some("snapshot_identity")
            else if !AttemptIsOf(a, s) then Some("attempt_binding")
            else if !EvaluationPasses(e, a, s) then Some("evaluation_binding") else None
  {
    hide IsHex;
  }
}
