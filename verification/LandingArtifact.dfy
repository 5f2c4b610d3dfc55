/** Sealing one site artifact: the checks on a candidate snapshot, the manifest, the archive and the
    pair of files written beside each other. SHA-1, SHA-256, canonical JSON and the ZIP container are
    uninterpreted functions; an archive is its ordered list of entries. */
module LandingArtifact {
  import opened Basics

  type Byte = b: int | 0 <= b < 256
  type Bytes = seq<Byte>

  datatype Result<T> = Ok(value: T) | Err(error: string)

  const CONTROL_REPOSITORY_ID := "github.com/Dimkox/adaptive-grok-build-pro"
  const TARGET_REPOSITORY_ID := "github.com/Dimkox/ai-dark-factory-landing"
  const FIXED_COMMIT_TIME := "2000-01-01T00:00:00Z"
  const MAX_MEMBER_BYTES := 25 * 1_048_576
  const MAX_ARCHIVE_BYTES := 100 * 1_048_576
  const ARCHIVE_TIMESTAMP := [2000, 1, 1, 0, 0, 0]
  const ARCHIVE_MODE := 33188

  const DEPLOY_MEMBERS: seq<string> := [
    ".htaccess", "analytics.css", "analytics.js", "california-privacy.html", "content.css", "cookies.html",
    "favicon.png", "google4175cca555a80a32.html", "index.css", "index.html", "km/index.html", "ko/index.html",
    "lv/index.html", "nl/index.html", "og-image-automatic.jpg", "privacy.html", "roadmap.html", "robots.txt",
    "sitemap.xml", "terms.html", "yandex_15bd00519dc47ca1.html", "zh-cn/index.html"]

  const LANDING_WRITE_PATHS: set<string> := {"index.html", "content.css"}
  const SORTED_WRITE_PATHS: seq<string> := ["content.css", "index.html"]

  datatype Member = Member(path: string, mode: string, objectId: string)

  datatype Snapshot = Snapshot(
    repositoryId: string, sourceSha: string, sourceTree: string, candidateSha: string, candidateTree: string,
    ordinal: int, changedPaths: seq<string>, sourceMembers: seq<Member>, candidateMembers: seq<Member>,
    sourceIndexHtml: Bytes, sourceContentCss: Bytes, indexHtml: Bytes, contentCss: Bytes,
    rendererDigest: string, workspaceResultDigest: string, workspaceMode: int, cloneStrategy: string,
    headDetached: bool, objectStorageIndependent: bool, commitTime: string)

  datatype Attempt = Attempt(
    inputDigest: string, specDigest: string, profileDigest: string, ordinal: int, exactBaseSha: string,
    exactHeadSha: string, workspaceResultDigest: string, rendererDigest: string, attemptDigest: string)

  datatype Evaluation = Evaluation(
    attemptDigest: string, candidateHeadSha: string, decision: string, reasonCodes: seq<string>,
    findingDigests: seq<string>, evaluationDigest: string)

  /** What Git and the file system report while the candidate is rebuilt in a private clone. */
  datatype Workspace = Workspace(
    sourceMembers: seq<Member>, sourceIndexHtml: Bytes, sourceContentCss: Bytes, staged: seq<string>,
    tree: string, commit: string, candidateMembers: seq<Member>, contents: map<string, Bytes>)

  datatype ArchiveFacts = ArchiveFacts(
    compression: string, dosTimestamp: string, memberCount: int, memberMode: string, membersSorted: bool)

  datatype MemberRecord = MemberRecord(
    archiveMode: string, candidateObjectId: string, path: string, provenance: string, sha256: string,
    sizeBytes: int, sourceObjectId: string)

  datatype Manifest = Manifest(
    schemaVersion: int, artifactKind: string, controlRepositoryId: string, targetRepositoryId: string,
    sourceSha: string, sourceTree: string, candidateSha: string, candidateTree: string,
    changedPaths: seq<string>, attemptDigest: string, evaluationDigest: string, archive: ArchiveFacts,
    members: seq<MemberRecord>)

  datatype Entry = Entry(
    name: string, body: Bytes, dateTime: seq<int>, createSystem: int, mode: int, extra: Bytes, comment: Bytes,
    deflated: bool)

  datatype Archive = Archive(entries: seq<Entry>, comment: Bytes)

  datatype SiteArtifact = SiteArtifact(
    sourceSha: string, sourceTree: string, candidateSha: string, candidateTree: string, inputDigest: string,
    specDigest: string, profileDigest: string, attemptDigest: string, evaluationDigest: string,
    manifestDigest: string, zipSha256: string, sidecarSha256: string, memberCount: int, byteLength: int)

  datatype Sealed = Sealed(
    artifact: SiteArtifact, zipName: string, sidecarName: string, sidecarBytes: Bytes, manifestBytes: Bytes,
    memberNames: seq<string>)

  /** The formats and digests the sealer relies on. */
  datatype Formats = Formats(
    blobId: Bytes -> string, sha256: Bytes -> string, casefold: string -> string,
    zip: Archive -> Bytes, unzip: Bytes -> Option<Archive>,
    canonical: Manifest -> Bytes, parse: Bytes -> Option<Manifest>)

  predicate IsHex(s: string, n: nat) {
    |s| == n && forall i :: 0 <= i < n ==> '0' <= s[i] <= '9' || 'a' <= s[i] <= 'f'
  }

  // Inventories

  /** The parts of a path between slashes. */
  function Parts(path: string): seq<string> {
    if path == [] then [""]
    else if path[0] == '/' then [""] + Parts(path[1..])
    else var rest := Parts(path[1..]); if rest == [] then [[path[0]]] else [[path[0]] + rest[0]] + rest[1..]
  }

  /** `.` alone has no parts and is let through. */
  predicate PathOk(path: string) {
    && path != "" && '\\' !in path && '\0' !in path
    && (path == "." || ("" !in Parts(path) && "." !in Parts(path) && ".." !in Parts(path)))
  }

  function MemberError(f: Formats, members: seq<Member>, k: nat): Option<string>
    requires k < |members|
  {
    var m := members[k];
    if !PathOk(m.path) then Some("invalid_path")
    else if exists j :: 0 <= j < k && members[j].path == m.path then Some("duplicate_path")
    else if exists j :: 0 <= j < k && f.casefold(members[j].path) == f.casefold(m.path) then Some("case_collision")
    else if m.mode != "100644" then Some("member_type")
    else if !IsHex(m.objectId, 40) then Some("member_object")
    else None
  }

  /** The error of the first faulty member. */
  function FirstMemberError(f: Formats, members: seq<Member>, k: nat): Option<string>
    requires k <= |members|
    decreases |members| - k
  {
    if k == |members| then None
    else if MemberError(f, members, k).Some? then MemberError(f, members, k)
    else FirstMemberError(f, members, k + 1)
  }

  function Paths(members: seq<Member>): seq<string> {
    seq(|members|, i requires 0 <= i < |members| => members[i].path)
  }

  function ByPath(members: seq<Member>): map<string, Member> {
    if members == [] then map[]
    else var last := members[|members| - 1]; ByPath(members[..|members| - 1])[last.path := last]
  }

  function InventoryError(f: Formats, members: seq<Member>, name: string): Option<string> {
    if members == [] then Some(name + "_inventory")
    else if FirstMemberError(f, members, 0).Some? then FirstMemberError(f, members, 0)
    else if !InOrder(Paths(members)) then Some(name + "_inventory_order")
    else None
  }

  method ValidatedInventory(f: Formats, members: seq<Member>, name: string)
    returns (r: Result<map<string, Member>>)
    ensures r == match InventoryError(f, members, name)
                 case Some(error) => Err(error)
                 case None => Ok(ByPath(members))
  {
    hide PathOk, IsHex, InOrder;
    if members == [] { return Err(name + "_inventory"); }
    var result: map<string, Member> := map[];
    var casefolded: set<string> := {};
    for k := 0 to |members|
      invariant result == ByPath(members[..k])
      invariant forall p :: p in result <==> exists j :: 0 <= j < k && members[j].path == p
      invariant forall c :: c in casefolded <==> exists j :: 0 <= j < k && f.casefold(members[j].path) == c
      invariant FirstMemberError(f, members, 0) == FirstMemberError(f, members, k)
    {
      var member := members[k];
      if !PathOk(member.path) { return Err("invalid_path"); }
      var folded := f.casefold(member.path);
      if member.path in result { return Err("duplicate_path"); }
      if folded in casefolded { return Err("case_collision"); }
      if member.mode != "100644" { return Err("member_type"); }
      if !IsHex(member.objectId, 40) { return Err("member_object"); }
      assert members[..k + 1][..k] == members[..k];
      result := result[member.path := member];
      casefolded := casefolded + {folded};
    }
    assert members[..|members|] == members;
    if !InOrder(Paths(members)) { return Err(name + "_inventory_order"); }
    return Ok(result);
  }

  // Binding and delta

  function BindingError(s: Snapshot, a: Attempt, e: Evaluation): Option<string> {
    if s.repositoryId != TARGET_REPOSITORY_ID || !IsHex(s.sourceSha, 40) || !IsHex(s.sourceTree, 40)
       || !IsHex(s.candidateSha, 40) || !IsHex(s.candidateTree, 40) || s.commitTime != FIXED_COMMIT_TIME
       || s.cloneStrategy != "no-local-no-hardlinks" || !s.headDetached || !s.objectStorageIndependent
       || s.workspaceMode != 448
    then Some("snapshot_identity")
    else if a.ordinal != s.ordinal || a.exactBaseSha != s.sourceSha || a.exactHeadSha != s.candidateSha
            || a.workspaceResultDigest != s.workspaceResultDigest || a.rendererDigest != s.rendererDigest
    then Some("attempt_binding")
    else if e.attemptDigest != a.attemptDigest || e.candidateHeadSha != s.candidateSha || e.decision != "pass"
            || e.reasonCodes != [] || e.findingDigests != []
    then Some("evaluation_binding")
    else None
  }

  function Changed(source: map<string, Member>, candidate: map<string, Member>): set<string>
    requires source.Keys == candidate.Keys
  {
    set path | path in source && source[path] != candidate[path]
  }

  function DeltaError(f: Formats, s: Snapshot, source: map<string, Member>, candidate: map<string, Member>)
    : Option<string>
  {
    assert DEPLOY_MEMBERS[9] == "index.html" && DEPLOY_MEMBERS[4] == "content.css";
    if source.Keys != candidate.Keys then Some("tree_shape")
    else if s.changedPaths != SORTED_WRITE_PATHS || Changed(source, candidate) != LANDING_WRITE_PATHS then
      Some("changed_paths")
    else if exists path :: path in source && source[path].mode != candidate[path].mode then Some("mode_drift")
    else if exists i :: 0 <= i < |DEPLOY_MEMBERS| && DEPLOY_MEMBERS[i] !in candidate then Some("deploy_inventory")
    else if f.blobId(s.sourceIndexHtml) != source["index.html"].objectId then Some("source_index")
    else if f.blobId(s.sourceContentCss) != source["content.css"].objectId then Some("source_css")
    else if f.blobId(s.indexHtml) != candidate["index.html"].objectId then Some("candidate_index")
    else if f.blobId(s.contentCss) != candidate["content.css"].objectId then Some("candidate_css")
    else None
  }

  // The candidate rebuilt

  predicate Writable(b: Bytes) { 0 < |b| <= MAX_MEMBER_BYTES }
  predicate Readable(contents: map<string, Bytes>, path: string) { path in contents && Writable(contents[path]) }

  function WorkspaceError(s: Snapshot, w: Workspace): Option<string> {
    if w.sourceMembers != s.sourceMembers then Some("source_inventory")
    else if w.sourceIndexHtml != s.sourceIndexHtml then Some("source_index")
    else if w.sourceContentCss != s.sourceContentCss then Some("source_css")
    else if !Writable(s.indexHtml) || !Writable(s.contentCss) then Some("member_write")
    else if w.staged != SORTED_WRITE_PATHS then Some("changed_paths")
    else if w.tree != s.candidateTree then Some("candidate_tree")
    else if w.commit != s.candidateSha then Some("candidate_commit")
    else if w.candidateMembers != s.candidateMembers then Some("candidate_inventory")
    else if exists i :: 0 <= i < |DEPLOY_MEMBERS| && !Readable(w.contents, DEPLOY_MEMBERS[i]) then Some("member_file")
    else None
  }

  /** Everything the member records are made from is there. */
  ghost predicate Complete(source: map<string, Member>, candidate: map<string, Member>, contents: map<string, Bytes>) {
    forall i :: 0 <= i < |DEPLOY_MEMBERS| ==>
      DEPLOY_MEMBERS[i] in source && DEPLOY_MEMBERS[i] in candidate && DEPLOY_MEMBERS[i] in contents
  }

  function RecordFor(f: Formats, source: Member, candidate: Member, path: string, body: Bytes): MemberRecord {
    MemberRecord("0644", candidate.objectId, path, if path in LANDING_WRITE_PATHS then "candidate" else "source",
                 f.sha256(body), |body|, source.objectId)
  }

  function Records(f: Formats, source: map<string, Member>, candidate: map<string, Member>,
                   contents: map<string, Bytes>): seq<MemberRecord>
    requires Complete(source, candidate, contents)
  {
    seq(|DEPLOY_MEMBERS|, i requires 0 <= i < |DEPLOY_MEMBERS| =>
      var path := DEPLOY_MEMBERS[i]; RecordFor(f, source[path], candidate[path], path, contents[path]))
  }

  predicate BodiesMatch(f: Formats, candidate: map<string, Member>, contents: map<string, Bytes>) {
    forall i :: 0 <= i < |DEPLOY_MEMBERS| ==>
      var path := DEPLOY_MEMBERS[i];
      path in candidate && path in contents && f.blobId(contents[path]) == candidate[path].objectId
  }

  function SealedManifest(s: Snapshot, a: Attempt, e: Evaluation, records: seq<MemberRecord>): Manifest {
    Manifest(1, "static-deploy-root", CONTROL_REPOSITORY_ID, s.repositoryId, s.sourceSha, s.sourceTree,
             s.candidateSha, s.candidateTree, SORTED_WRITE_PATHS, a.attemptDigest, e.evaluationDigest,
             ArchiveFacts("deflate-9", "2000-01-01T00:00:00Z", |DEPLOY_MEMBERS|, "0644", true), records)
  }

  function SealedArchive(contents: map<string, Bytes>): Archive
    requires forall i :: 0 <= i < |DEPLOY_MEMBERS| ==> DEPLOY_MEMBERS[i] in contents
  {
    Archive(seq(|DEPLOY_MEMBERS|, i requires 0 <= i < |DEPLOY_MEMBERS| =>
              Entry(DEPLOY_MEMBERS[i], contents[DEPLOY_MEMBERS[i]], ARCHIVE_TIMESTAMP, 3, ARCHIVE_MODE, [], [], true)),
            [])
  }

  // The pair of files

  function Upper(c: char): char { if 'a' <= c <= 'f' then (c as int - 32) as char else c }
  function Uppercase(s: string): string { seq(|s|, i requires 0 <= i < |s| => Upper(s[i])) }

  /** Encoding of ASCII text; any other character has no place in it. */
  function Ascii(s: string): Bytes {
    seq(|s|, i requires 0 <= i < |s| => if s[i] as int < 128 then s[i] as int else 0)
  }

  function ZipName(zipSha256: string): string { "therealaidarkfactory.online-" + zipSha256 + ".zip" }
  function SidecarName(zipName: string): string { zipName + ".sha256" }
  function Sidecar(zipSha256: string): Bytes { Ascii(Uppercase(zipSha256) + "  " + ZipName(zipSha256) + "\n") }

  function SiteArtifactFor(f: Formats, s: Snapshot, a: Attempt, e: Evaluation, manifest: Bytes, zip: Bytes)
    : SiteArtifact
  {
    SiteArtifact(s.sourceSha, s.sourceTree, s.candidateSha, s.candidateTree, a.inputDigest, a.specDigest,
                 a.profileDigest, a.attemptDigest, e.evaluationDigest, f.sha256(manifest), f.sha256(zip),
                 f.sha256(Sidecar(f.sha256(zip))), |DEPLOY_MEMBERS|, |zip|)
  }

  predicate ArtifactOk(t: SiteArtifact) {
    && IsHex(t.sourceSha, 40) && IsHex(t.sourceTree, 40) && IsHex(t.candidateSha, 40) && IsHex(t.candidateTree, 40)
    && IsHex(t.inputDigest, 64) && IsHex(t.specDigest, 64) && IsHex(t.profileDigest, 64)
    && IsHex(t.attemptDigest, 64) && IsHex(t.evaluationDigest, 64) && IsHex(t.manifestDigest, 64)
    && IsHex(t.zipSha256, 64) && IsHex(t.sidecarSha256, 64)
    && 1 <= t.memberCount <= 1_024 && 1 <= t.byteLength <= 100 * 1_048_576
  }

  /** A file already there must be the file about to be written. */
  predicate Clashes(files: map<string, Bytes>, name: string, same: Bytes -> bool) {
    name in files && !same(files[name])
  }

  function WrittenPair(f: Formats, files: map<string, Bytes>, zip: Bytes): map<string, Bytes> {
    var zipName := ZipName(f.sha256(zip));
    var withZip := if zipName in files then files else files[zipName := zip];
    if SidecarName(zipName) in withZip then withZip else withZip[SidecarName(zipName) := Sidecar(f.sha256(zip))]
  }

  function PairError(f: Formats, files: map<string, Bytes>, zip: Bytes, artifact: SiteArtifact): Option<string> {
    var digest := f.sha256(zip);
    var sidecar := Sidecar(digest);
    if !(0 < |zip| <= MAX_ARCHIVE_BYTES) then Some("zip_size")
    else if Clashes(files, ZipName(digest), b => 0 < |b| <= MAX_ARCHIVE_BYTES && f.sha256(b) == digest) then
      Some("artifact_exists")
    else if Clashes(files, SidecarName(ZipName(digest)), b => |b| <= 1_024 && b == sidecar) then Some("artifact_exists")
    else if !ArtifactOk(artifact) then Some("artifact_facts")
    else None
  }

  /** The whole of a sealing: what it returns and what it leaves in the output directory. */
  function SealOutcome(f: Formats, s: Snapshot, a: Attempt, e: Evaluation, w: Workspace, files: map<string, Bytes>)
    : (Result<Sealed>, map<string, Bytes>)
  {
    var binding := BindingError(s, a, e);
    if binding.Some? then (Err(binding.value), files)
    else
      var sourceError := InventoryError(f, s.sourceMembers, "source");
      if sourceError.Some? then (Err(sourceError.value), files)
      else
        var candidateError := InventoryError(f, s.candidateMembers, "candidate");
        if candidateError.Some? then (Err(candidateError.value), files)
        else SealChecked(f, s, a, e, w, files)
  }

  function SealChecked(f: Formats, s: Snapshot, a: Attempt, e: Evaluation, w: Workspace, files: map<string, Bytes>)
    : (Result<Sealed>, map<string, Bytes>)
  {
    var source, candidate := ByPath(s.sourceMembers), ByPath(s.candidateMembers);
    var delta := DeltaError(f, s, source, candidate);
    if delta.Some? then (Err(delta.value), files)
    else
      var workspace := WorkspaceError(s, w);
      if workspace.Some? then (Err(workspace.value), files)
      else if !BodiesMatch(f, candidate, w.contents) then (Err("member_object"), files)
      else
        var manifest := f.canonical(SealedManifest(s, a, e, Records(f, source, candidate, w.contents)));
        var zip := f.zip(SealedArchive(w.contents));
        var artifact := SiteArtifactFor(f, s, a, e, manifest, zip);
        var pair := PairError(f, files, zip, artifact);
        if pair.Some? then (Err(pair.value), files)
        else
          var zipName := ZipName(f.sha256(zip));
          (Ok(Sealed(artifact, zipName, SidecarName(zipName), Sidecar(f.sha256(zip)), manifest, DEPLOY_MEMBERS)),
           WrittenPair(f, files, zip))
  }

  lemma AllThere(f: Formats, s: Snapshot, w: Workspace, source: map<string, Member>, candidate: map<string, Member>)
    requires DeltaError(f, s, source, candidate) == None && WorkspaceError(s, w) == None
    ensures Complete(source, candidate, w.contents)
    ensures forall i :: 0 <= i < |DEPLOY_MEMBERS| ==> DEPLOY_MEMBERS[i] in w.contents
  {
    hide DEPLOY_MEMBERS;
  }

  // The packager

  method MemberRecords(f: Formats, source: map<string, Member>, candidate: map<string, Member>,
                       contents: map<string, Bytes>)
    returns (r: Result<seq<MemberRecord>>)
    requires Complete(source, candidate, contents)
    ensures r == if BodiesMatch(f, candidate, contents) then Ok(Records(f, source, candidate, contents))
                 else Err("member_object")
  {
    hide DEPLOY_MEMBERS, IsHex;
    var records: seq<MemberRecord> := [];
    for k := 0 to |DEPLOY_MEMBERS|
      invariant forall i :: 0 <= i < k ==>
                  f.blobId(contents[DEPLOY_MEMBERS[i]]) == candidate[DEPLOY_MEMBERS[i]].objectId
      invariant records == Records(f, source, candidate, contents)[..k]
    {
      var path := DEPLOY_MEMBERS[k];
      var body := contents[path];
      if f.blobId(body) != candidate[path].objectId { return Err("member_object"); }
      records := records + [RecordFor(f, source[path], candidate[path], path, body)];
    }
    assert records == Records(f, source, candidate, contents);
    return Ok(records);
  }

  class OutputDirectory {
    var files: map<string, Bytes>

    /** Writes the archive and its sidecar beside each other. Whatever fails, the directory is left as it
        was. */
    method WritePair(f: Formats, s: Snapshot, a: Attempt, e: Evaluation, contents: map<string, Bytes>, manifest: Bytes)
      returns (r: Result<Sealed>)
      requires forall i :: 0 <= i < |DEPLOY_MEMBERS| ==> DEPLOY_MEMBERS[i] in contents
      modifies this
      ensures var zip := f.zip(SealedArchive(contents));
              var error := PairError(f, old(files), zip, SiteArtifactFor(f, s, a, e, manifest, zip));
              var zipName := ZipName(f.sha256(zip));
              && files == (if error.Some? then old(files) else WrittenPair(f, old(files), zip))
              && r == if error.Some? then Err(error.value)
                      else Ok(Sealed(SiteArtifactFor(f, s, a, e, manifest, zip), zipName, SidecarName(zipName),
                                     Sidecar(f.sha256(zip)), manifest, DEPLOY_MEMBERS))
    {
      var zip := f.zip(SealedArchive(contents));
      if !(0 < |zip| <= MAX_ARCHIVE_BYTES) { return Err("zip_size"); }
      var digest := f.sha256(zip);
      var zipName := ZipName(digest);
      var sidecarName := SidecarName(zipName);
      var sidecar := Sidecar(digest);
      var zipPresent := zipName in files;
      if zipPresent && !(0 < |files[zipName]| <= MAX_ARCHIVE_BYTES && f.sha256(files[zipName]) == digest) {
        return Err("artifact_exists");
      }
      var sidecarPresent := sidecarName in files;
      if sidecarPresent && !(|files[sidecarName]| <= 1_024 && files[sidecarName] == sidecar) {
        return Err("artifact_exists");
      }
      assert |sidecarName| != |zipName|;
      if !zipPresent { files := files[zipName := zip]; }
      if !sidecarPresent { files := files[sidecarName := sidecar]; }
      var artifact := SiteArtifactFor(f, s, a, e, manifest, zip);
      if !ArtifactOk(artifact) {
        if !sidecarPresent { files := files - {sidecarName}; }
        if !zipPresent { files := files - {zipName}; }
        assert files == old(files);
        return Err("artifact_facts");
      }
      return Ok(Sealed(artifact, zipName, sidecarName, sidecar, manifest, DEPLOY_MEMBERS));
    }

    method Seal(f: Formats, s: Snapshot, a: Attempt, e: Evaluation, w: Workspace) returns (r: Result<Sealed>)
      modifies this
      ensures (r, files) == SealOutcome(f, s, a, e, w, old(files))
    {
      hide DeltaError, WorkspaceError, BindingError, InventoryError, ArtifactOk, PairError, WrittenPair, DEPLOY_MEMBERS,
        BodiesMatch, Records, Complete;
      var binding := BindingError(s, a, e);
      if binding.Some? { return Err(binding.value); }
      var source := ValidatedInventory(f, s.sourceMembers, "source");
      if source.Err? { return Err(source.error); }
      var candidate := ValidatedInventory(f, s.candidateMembers, "candidate");
      if candidate.Err? { return Err(candidate.error); }
      var delta := DeltaError(f, s, source.value, candidate.value);
      if delta.Some? { return Err(delta.value); }
      var workspace := WorkspaceError(s, w);
      if workspace.Some? { return Err(workspace.value); }
      AllThere(f, s, w, source.value, candidate.value);
      var records := MemberRecords(f, source.value, candidate.value, w.contents);
      if records.Err? { return Err(records.error); }
      var manifest := f.canonical(SealedManifest(s, a, e, records.value));
      r := WritePair(f, s, a, e, w.contents, manifest);
    }
  }
}
