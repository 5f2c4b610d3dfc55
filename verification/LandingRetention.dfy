/** The verifier of a retained site artifact. */
module LandingRetention {
  import opened Basics
  import opened LandingArtifact

  // It recomputes names, sidecar, digests, manifest and archive entries on its own, and stores records as
  // JSON-like dictionaries. The member list, the bounds and the archive constants are the sealer's, as in the
  // source.

  const MAX_SIDECAR_BYTES := 1_024
  const MAX_MANIFEST_BYTES := 1_048_576

  datatype Evidence = Evidence(
    isV1: bool, schemaVersion: int, disposition: string, inputDigest: string, profileDigest: string)

  datatype Input = Input(inputDigest: string, exactBaseSha: string, exactBaseTree: string)

  datatype Retained = Retained(
    artifact: SiteArtifact, outputRoot: string, zipName: string, sidecarName: string, sidecarBytes: Bytes,
    manifestBytes: Bytes, memberNames: seq<string>, evidence: Evidence, attempt: Attempt, evaluation: Evaluation)

  /** The members of a past source epoch: those of the present one without the ones it did not have. */
  function Without(members: seq<string>, missing: set<string>): seq<string> {
    if members == [] then []
    else if members[0] in missing then Without(members[1..], missing)
    else [members[0]] + Without(members[1..], missing)
  }

  predicate CurrentEpoch(sourceSha: string, sourceTree: string) {
    sourceSha == "fde60e040167c10975b00d11f578c4da6763069a" && sourceTree == "21817e70e079b772e1f3114a80dfc0320d1ada91"
  }

  predicate PriorEpoch(sourceSha: string, sourceTree: string) {
    sourceSha == "699010380f4f90a0193a9c22090c35e6aded7d2c" && sourceTree == "f7dbbd80c6e95d2a365109d937f5be76d8fe0bd4"
  }

  predicate OldestEpoch(sourceSha: string, sourceTree: string) {
    sourceSha == "176efcaab931c2482781ff163c621b10aa05dee9" && sourceTree == "f2bdcecc6dbe9ecc82007610d398ca12bd75e07f"
  }

  /** `None` for an unknown source epoch. */
  function DeployMembersForSource(sourceSha: string, sourceTree: string): Option<seq<string>> {
    if PriorEpoch(sourceSha, sourceTree) then Some(Without(DEPLOY_MEMBERS, {"analytics.js", "analytics.css"}))
    else if OldestEpoch(sourceSha, sourceTree) then
      Some(Without(DEPLOY_MEMBERS, {"analytics.js", "analytics.css", "index.css"}))
    else if CurrentEpoch(sourceSha, sourceTree) then Some(DEPLOY_MEMBERS)
    else None
  }

  // The verifier

  predicate BindingOk(r: Retained, source: Input) {
    var t, ev, a, e := r.artifact, r.evidence, r.attempt, r.evaluation;
    && ev.disposition == (if ev.isV1 then "fixture_ready" else "normalized")
    && ev.schemaVersion == (if ev.isV1 then 1 else 2)
    && ev.inputDigest == source.inputDigest
    && t.sourceSha == source.exactBaseSha && t.sourceTree == source.exactBaseTree
    && t.inputDigest == source.inputDigest && t.profileDigest == ev.profileDigest
    && a.inputDigest == source.inputDigest && a.specDigest == t.specDigest && a.profileDigest == ev.profileDigest
    && a.exactBaseSha == t.sourceSha && a.exactHeadSha == t.candidateSha && a.attemptDigest == t.attemptDigest
    && e.attemptDigest == a.attemptDigest && e.candidateHeadSha == t.candidateSha
    && e.evaluationDigest == t.evaluationDigest && e.decision == "pass" && e.reasonCodes == [] && e.findingDigests == []
  }

  /** A bare file name, with no directory part. */
  predicate IsFileName(name: string) { name != "" && name != "." && '/' !in name }

  function ExpectedZip(t: SiteArtifact): string {
    "therealaidarkfactory.online-" + t.zipSha256 + ".zip"
  }

  function InCapitals(s: string): string {
    seq(|s|, i requires 0 <= i < |s| => if 'a' <= s[i] <= 'z' then (s[i] as int - 32) as char else s[i])
  }

  function ExpectedSidecarText(t: SiteArtifact, zipName: string): string {
    InCapitals(t.zipSha256) + "  " + zipName + "\n"
  }

  /** The bytes are the ASCII encoding of the text. */
  predicate Encodes(b: Bytes, text: string) {
    |b| == |text| && forall i :: 0 <= i < |b| ==> text[i] as int < 128 && b[i] == text[i] as int
  }

  predicate NamesOk(r: Retained) {
    && r.zipName == ExpectedZip(r.artifact) && r.sidecarName == ExpectedZip(r.artifact) + ".sha256"
    && IsFileName(r.zipName) && IsFileName(r.sidecarName)
  }

  predicate FilesOk(f: Formats, r: Retained, files: map<string, Bytes>) {
    var t := r.artifact;
    && Encodes(r.sidecarBytes, ExpectedSidecarText(t, r.zipName)) && f.sha256(r.sidecarBytes) == t.sidecarSha256
    && r.zipName in files && 0 < |files[r.zipName]| <= MAX_ARCHIVE_BYTES
    && r.sidecarName in files && 0 < |files[r.sidecarName]| <= MAX_SIDECAR_BYTES
    && |files[r.zipName]| == t.byteLength && f.sha256(files[r.zipName]) == t.zipSha256
    && Encodes(files[r.sidecarName], ExpectedSidecarText(t, r.zipName))
    && r.manifestBytes != [] && f.sha256(r.manifestBytes) == t.manifestDigest
  }

  predicate ManifestOk(m: Manifest, r: Retained) {
    var t := r.artifact;
    && m.schemaVersion == 1 && m.artifactKind == "static-deploy-root"
    && m.controlRepositoryId == CONTROL_REPOSITORY_ID && m.targetRepositoryId == TARGET_REPOSITORY_ID
    && m.sourceSha == t.sourceSha && m.sourceTree == t.sourceTree
    && m.candidateSha == t.candidateSha && m.candidateTree == t.candidateTree
    && m.changedPaths == SORTED_WRITE_PATHS
    && m.attemptDigest == t.attemptDigest && m.evaluationDigest == t.evaluationDigest
    && m.archive == ArchiveFacts("deflate-9", "2000-01-01T00:00:00Z", |r.memberNames|, "0644", true)
    && |m.members| == |r.memberNames| && forall i :: 0 <= i < |m.members| ==> m.members[i].path == r.memberNames[i]
  }

  predicate EntryOk(f: Formats, item: MemberRecord, info: Entry) {
    var sourceOwned := info.name !in LANDING_WRITE_PATHS;
    && info.dateTime == ARCHIVE_TIMESTAMP && info.createSystem == 3 && info.mode == ARCHIVE_MODE
    && info.extra == [] && info.comment == [] && info.deflated
    && item.archiveMode == "0644" && item.sizeBytes == |info.body| && item.sha256 == f.sha256(info.body)
    && IsHex(item.sourceObjectId, 40) && IsHex(item.candidateObjectId, 40)
    && item.provenance == (if sourceOwned then "source" else "candidate")
    && (sourceOwned ==> item.sourceObjectId == item.candidateObjectId)
  }

  predicate ArchiveOk(f: Formats, m: Manifest, r: Retained, archive: Archive) {
    && |archive.entries| == |r.memberNames| && archive.comment == []
    && (forall i :: 0 <= i < |archive.entries| ==> archive.entries[i].name == r.memberNames[i])
    && |archive.entries| == |m.members|
    && (forall i :: 0 <= i < |m.members| ==> EntryOk(f, m.members[i], archive.entries[i]))
  }

  /** What `_validate` says of a record against a directory; `None` is acceptance. */
  function Validate(f: Formats, r: Retained, source: Input, files: map<string, Bytes>): Option<string> {
    if !BindingOk(r, source) || !NamesOk(r) then Some("artifact_integrity")
    else
      var members := DeployMembersForSource(r.artifact.sourceSha, r.artifact.sourceTree);
      if members.None? then Some("source_identity")
      else if r.memberNames != members.value || r.artifact.memberCount != |r.memberNames| || !FilesOk(f, r, files)
              || |r.manifestBytes| > MAX_MANIFEST_BYTES then Some("artifact_integrity")
      else
        var manifest, archive := f.parse(r.manifestBytes), f.unzip(files[r.zipName]);
        if manifest.None? || f.canonical(manifest.value) != r.manifestBytes || !ManifestOk(manifest.value, r)
           || archive.None? || !ArchiveOk(f, manifest.value, r, archive.value) then Some("artifact_integrity")
        else None
  }

  // Round trip through dictionaries

  datatype RetainedDict = RetainedDict(
    schemaVersion: int, artifact: SiteArtifact, outputRoot: string, zipName: string, sidecarName: string,
    sidecarHex: string, manifestHex: string, memberNames: seq<string>, evidence: Evidence, attempt: Attempt,
    evaluation: Evaluation)

  predicate IsHexDigit(c: char) { '0' <= c <= '9' || 'a' <= c <= 'f' }

  function DigitValue(c: char): (n: int)
    requires IsHexDigit(c)
    ensures 0 <= n < 16 && HexDigit(n) == c
  {
    if c <= '9' then c as int - '0' as int else c as int - 'a' as int + 10
  }

  function Hex(b: Bytes): string {
    if b == [] then "" else [HexDigit(b[0] / 16), HexDigit(b[0] % 16)] + Hex(b[1..])
  }

  predicate IsHexBytes(s: string) {
    |s| % 2 == 0 && forall i :: 0 <= i < |s| ==> IsHexDigit(s[i])
  }

  function Unhex(s: string): Bytes
    requires IsHexBytes(s)
  {
    if s == "" then [] else [16 * DigitValue(s[0]) + DigitValue(s[1])] + Unhex(s[2..])
  }

  function HexBytes(value: string, maximum: nat): Option<Bytes> {
    if value == "" || |value| > 2 * maximum || !IsHexBytes(value) then None else Some(Unhex(value))
  }

  function ToDict(r: Retained): RetainedDict {
    RetainedDict(r.evidence.schemaVersion, r.artifact, r.outputRoot, r.zipName, r.sidecarName, Hex(r.sidecarBytes),
                 Hex(r.manifestBytes), r.memberNames, r.evidence, r.attempt, r.evaluation)
  }

  function FromDict(d: RetainedDict): Option<Retained> {
    if d.schemaVersion != 1 && d.schemaVersion != 2 then None
    else if d.evidence.schemaVersion != d.schemaVersion || !ArtifactOk(d.artifact) then None
    else
      var sidecar, manifest := HexBytes(d.sidecarHex, MAX_SIDECAR_BYTES), HexBytes(d.manifestHex, MAX_MANIFEST_BYTES);
      if sidecar.None? || manifest.None? then None
      else Some(Retained(d.artifact, d.outputRoot, d.zipName, d.sidecarName, sidecar.value, manifest.value,
                         d.memberNames, d.evidence, d.attempt, d.evaluation))
  }

  lemma {:induction false} HexRoundTrip(b: Bytes)
    ensures |Hex(b)| == 2 * |b| && IsHexBytes(Hex(b)) && Unhex(Hex(b)) == b
  {
    if b != [] {
      HexRoundTrip(b[1..]);
      assert Hex(b)[2..] == Hex(b[1..]);
      forall i | 0 <= i < |Hex(b)| ensures IsHexDigit(Hex(b)[i]) {
        if i >= 2 { assert Hex(b)[i] == Hex(b[1..])[i - 2]; }
      }
      assert b == [b[0]] + b[1..];
    }
  }

  lemma HexPair(high: char, low: char)
    requires IsHexDigit(high) && IsHexDigit(low)
    ensures var b := 16 * DigitValue(high) + DigitValue(low); HexDigit(b / 16) == high && HexDigit(b % 16) == low
  {}

  lemma {:induction false} UnhexRoundTrip(s: string)
    requires IsHexBytes(s)
    ensures Hex(Unhex(s)) == s
  {
    hide HexDigit, DigitValue, IsHexDigit;
    if s != "" {
      UnhexRoundTrip(s[2..]);
      HexPair(s[0], s[1]);
      var b := Unhex(s);
      assert b[1..] == Unhex(s[2..]);
      assert s == [s[0], s[1]] + s[2..];
    }
  }

  /** Writing a record and reading it back gives it back, exactly for the records the reader's bounds let
      through. */
  lemma RoundTripExactlyWhen(r: Retained)
    ensures FromDict(ToDict(r)) == Some(r) <==>
            && (r.evidence.schemaVersion == 1 || r.evidence.schemaVersion == 2) && ArtifactOk(r.artifact)
            && 0 < |r.sidecarBytes| <= MAX_SIDECAR_BYTES && 0 < |r.manifestBytes| <= MAX_MANIFEST_BYTES
  {
    HexRoundTrip(r.sidecarBytes);
    HexRoundTrip(r.manifestBytes);
  }

  /** And reading then writing gives the dictionary back. */
  lemma DictRoundTrip(d: RetainedDict)
    requires FromDict(d).Some?
    ensures ToDict(FromDict(d).value) == d
  {
    UnhexRoundTrip(d.sidecarHex);
    UnhexRoundTrip(d.manifestHex);
  }

  /** Whatever the verifier accepts can be stored and read back. */
  lemma AcceptedIsStorable(f: Formats, r: Retained, source: Input, files: map<string, Bytes>)
    requires Validate(f, r, source, files) == None && ArtifactOk(r.artifact)
    ensures FromDict(ToDict(r)) == Some(r)
  {
    RoundTripExactlyWhen(r);
  }
}
