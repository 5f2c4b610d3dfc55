/** Which members the verifier expects of a retained artifact, epoch by epoch, and which records it then
    accepts. */
module LandingEpochs {
  import opened Basics
  import opened LandingArtifact
  import opened LandingRetention
  import opened LandingAgreement

  // Sorted lists

  /** In order and without repeats. */
  ghost predicate Rising(names: seq<string>) {
    forall i, j :: 0 <= i < j < |names| ==> Precedes(names[i], names[j]) && names[i] != names[j]
  }

  lemma {:induction false} PrecedesOneWay(a: string, b: string)
    requires Precedes(a, b) && Precedes(b, a)
    ensures a == b
  {
    if a != [] {
      PrecedesOneWay(a[1..], b[1..]);
      assert a == [a[0]] + a[1..] && b == [b[0]] + b[1..];
    }
  }

  lemma LastIsGreatest(a: seq<string>, b: seq<string>)
    requires Rising(a) && Rising(b) && a != [] && forall m :: m in a <==> m in b
    ensures b != [] && a[|a| - 1] == b[|b| - 1]
  {
    hide Precedes;
    var x := a[|a| - 1];
    assert x in b;
    var y := b[|b| - 1];
    assert y in a;
    var i :| 0 <= i < |b| && b[i] == x;
    var j :| 0 <= j < |a| && a[j] == y;
    if x != y { PrecedesOneWay(x, y); }
  }

  /** A rising list is determined by what is in it. */
  lemma {:induction false} RisingIsUnique(a: seq<string>, b: seq<string>)
    requires Rising(a) && Rising(b) && forall m :: m in a <==> m in b
    ensures a == b
  {
    hide Precedes;
    if a != [] {
      LastIsGreatest(a, b);
      var n, k := |a| - 1, |b| - 1;
      forall m ensures m in a[..n] <==> m in b[..k] {
        if m in a[..n] { assert m in b && m != a[n]; }
        if m in b[..k] { assert m in a && m != b[k]; }
      }
      RisingIsUnique(a[..n], b[..k]);
      assert a == a[..n] + [a[n]] && b == b[..k] + [b[k]];
    } else if b != [] {
      LastIsGreatest(b, a);
    }
  }

  lemma {:induction false} WithoutIsRising(names: seq<string>, missing: set<string>)
    requires Rising(names)
    ensures Rising(Without(names, missing))
  {
    hide Precedes;
    if names != [] {
      WithoutIsRising(names[1..], missing);
      WithoutLacks(names[1..], missing);
      var rest := Without(names[1..], missing);
      if names[0] !in missing {
        forall j | 0 <= j < |rest| ensures Precedes(names[0], rest[j]) && names[0] != rest[j] {
          assert rest[j] in names[1..];
          var k :| 0 <= k < |names[1..]| && names[1..][k] == rest[j];
          assert names[k + 1] == rest[j];
        }
      }
    }
  }

  // The members of an epoch

  /** The two source epochs before the present one, and the present one, by commit and tree. */
  predicate IsPresent(sha: string, tree: string) {
    sha == "fde60e040167c10975b00d11f578c4da6763069a" && tree == "21817e70e079b772e1f3114a80dfc0320d1ada91"
  }

  predicate IsPrior(sha: string, tree: string) {
    sha == "699010380f4f90a0193a9c22090c35e6aded7d2c" && tree == "f7dbbd80c6e95d2a365109d937f5be76d8fe0bd4"
  }

  predicate IsOldest(sha: string, tree: string) {
    sha == "176efcaab931c2482781ff163c621b10aa05dee9" && tree == "f2bdcecc6dbe9ecc82007610d398ca12bd75e07f"
  }

  /** The analytics files are deployed in the present epoch only, the index style sheet in all but the
      oldest, and every other member in each. */
  ghost predicate DeployedIn(member: string, sha: string, tree: string) {
    && member in DEPLOY_MEMBERS
    && (member == "analytics.js" || member == "analytics.css" ==> IsPresent(sha, tree))
    && (member == "index.css" ==> !IsOldest(sha, tree))
  }

  /** The members of a known epoch, in order. */
  ghost predicate IsExpected(members: seq<string>, sha: string, tree: string) {
    && (IsPresent(sha, tree) || IsPrior(sha, tree) || IsOldest(sha, tree))
    && Rising(members) && forall member :: member in members <==> DeployedIn(member, sha, tree)
  }

  /** The first difference of two neighbours. */
  lemma Neighbours(i: nat, k: nat)
    requires i + 1 < |DEPLOY_MEMBERS| && k < |DEPLOY_MEMBERS[i]| && k < |DEPLOY_MEMBERS[i + 1]|
    requires DEPLOY_MEMBERS[i][..k] == DEPLOY_MEMBERS[i + 1][..k] && DEPLOY_MEMBERS[i][k] < DEPLOY_MEMBERS[i + 1][k]
    ensures Precedes(DEPLOY_MEMBERS[i], DEPLOY_MEMBERS[i + 1]) && DEPLOY_MEMBERS[i] != DEPLOY_MEMBERS[i + 1]
  {
    hide DEPLOY_MEMBERS, Precedes;
    PrecedesExactlyWhen(DEPLOY_MEMBERS[i], DEPLOY_MEMBERS[i + 1]);
    assert SmallerAt(DEPLOY_MEMBERS[i], DEPLOY_MEMBERS[i + 1], k);
  }

  lemma NeighboursRise(i: nat)
    requires i < |DEPLOY_MEMBERS| - 1
    ensures Precedes(DEPLOY_MEMBERS[i], DEPLOY_MEMBERS[i + 1]) && DEPLOY_MEMBERS[i] != DEPLOY_MEMBERS[i + 1]
  {
    hide Precedes;
    Neighbours(i, if i == 1 then 10 else if i == 3 then 1 else if i == 4 then 2 else if i == 7 then 0
                  else if i == 8 then 6 else if i == 10 then 1 else if i == 15 then 0 else if i == 16 then 2 else 0);
  }

  /** The deploy list is what its manifest claims of it: sorted. */
  lemma {:induction false} MembersAreSorted()
    ensures Rising(DEPLOY_MEMBERS)
  {
    hide DEPLOY_MEMBERS, Precedes;
    forall i | 0 <= i < |DEPLOY_MEMBERS| - 1
      ensures Precedes(DEPLOY_MEMBERS[i], DEPLOY_MEMBERS[i + 1]) && DEPLOY_MEMBERS[i] != DEPLOY_MEMBERS[i + 1]
    {
      NeighboursRise(i);
    }
    forall i, j | 0 <= i < j < |DEPLOY_MEMBERS|
      ensures Precedes(DEPLOY_MEMBERS[i], DEPLOY_MEMBERS[j]) && DEPLOY_MEMBERS[i] != DEPLOY_MEMBERS[j]
    {
      InOrderMeans(DEPLOY_MEMBERS, i, j);
      if i + 1 < j {
        InOrderMeans(DEPLOY_MEMBERS, i + 1, j);
        if DEPLOY_MEMBERS[i] == DEPLOY_MEMBERS[j] { PrecedesOneWay(DEPLOY_MEMBERS[i], DEPLOY_MEMBERS[i + 1]); }
      }
    }
  }

  /** For every source, the verifier's list is the members of its epoch, in order; there is none for an
      unknown epoch. */
  lemma VerifierExpectsExactly(sha: string, tree: string, members: seq<string>)
    ensures DeployMembersForSource(sha, tree) == Some(members) <==> IsExpected(members, sha, tree)
  {
    hide DEPLOY_MEMBERS, Precedes, Without;
    EpochsApart(sha, tree);
    MembersAreSorted();
    WithoutIsRising(DEPLOY_MEMBERS, {"analytics.js", "analytics.css"});
    WithoutIsRising(DEPLOY_MEMBERS, {"analytics.js", "analytics.css", "index.css"});
    WithoutLacks(DEPLOY_MEMBERS, {"analytics.js", "analytics.css"});
    WithoutLacks(DEPLOY_MEMBERS, {"analytics.js", "analytics.css", "index.css"});
    var list := DeployMembersForSource(sha, tree);
    if list.Some? {
      assert IsExpected(list.value, sha, tree);
      if IsExpected(members, sha, tree) { RisingIsUnique(list.value, members); }
    }
  }

  lemma EpochsApart(sha: string, tree: string)
    ensures !(IsPresent(sha, tree) && IsPrior(sha, tree)) && !(IsPresent(sha, tree) && IsOldest(sha, tree))
    ensures !(IsPrior(sha, tree) && IsOldest(sha, tree))
  {
    if IsPresent(sha, tree) { assert sha[0] == 'f'; }
    if IsPrior(sha, tree) { assert sha[0] == '6'; }
  }

  // What is accepted

  /** Input, evidence, attempt and evaluation are those of the artifact, and the evaluation passed. */
  ghost predicate IsBound(r: Retained, source: Input) {
    var t := r.artifact;
    && source == Input(t.inputDigest, t.sourceSha, t.sourceTree)
    && r.evidence == Evidence(r.evidence.isV1, if r.evidence.isV1 then 1 else 2,
                              if r.evidence.isV1 then "fixture_ready" else "normalized", t.inputDigest, t.profileDigest)
    && r.attempt == Attempt(t.inputDigest, t.specDigest, t.profileDigest, r.attempt.ordinal, t.sourceSha,
                            t.candidateSha, r.attempt.workspaceResultDigest, r.attempt.rendererDigest, t.attemptDigest)
    && r.evaluation == Evaluation(t.attemptDigest, t.candidateSha, "pass", [], [], t.evaluationDigest)
  }

  /** The names are made from the digest of the archive, and the members are counted. */
  ghost predicate IsNamed(r: Retained) {
    && r.zipName == "therealaidarkfactory.online-" + r.artifact.zipSha256 + ".zip" && '/' !in r.artifact.zipSha256
    && r.sidecarName == r.zipName + ".sha256" && r.artifact.memberCount == |r.memberNames|
  }

  /** The line a sidecar holds: the digest in capitals, two spaces, the archive's name, a line end. */
  ghost predicate Spells(b: Bytes, digest: string, zipName: string) {
    var n := |digest|;
    && |b| == n + |zipName| + 3 && b[n] == 32 == b[n + 1] && b[|b| - 1] == 10
    && (forall i :: 0 <= i < n ==>
          && (digest[i] as int) < 128
          && b[i] == if 'a' <= digest[i] <= 'z' then digest[i] as int - 32 else digest[i] as int)
    && (forall i :: 0 <= i < |zipName| ==> b[n + 2 + i] == zipName[i] as int < 128)
  }

  /** The directory holds the archive and the sidecar of the artifact, and the record its manifest. */
  ghost predicate IsStored(f: Formats, r: Retained, files: map<string, Bytes>) {
    var t := r.artifact;
    && r.zipName in files && |files[r.zipName]| == t.byteLength && f.sha256(files[r.zipName]) == t.zipSha256
    && 0 < t.byteLength <= 104_857_600
    && r.sidecarName in files && files[r.sidecarName] == r.sidecarBytes && |r.sidecarBytes| <= 1_024
    && Spells(r.sidecarBytes, t.zipSha256, r.zipName) && f.sha256(r.sidecarBytes) == t.sidecarSha256
    && 0 < |r.manifestBytes| <= 1_048_576 && f.sha256(r.manifestBytes) == t.manifestDigest
  }

  /** Manifest and archive are determined by the artifact, the member bodies and the object identifiers,
      which differ only for the two files a landing writes. */
  ghost predicate IsDescribed(f: Formats, r: Retained, m: Manifest, archive: Archive) {
    var t := r.artifact;
    && m == Manifest(1, "static-deploy-root", "github.com/Dimkox/adaptive-grok-build-pro",
                     "github.com/Dimkox/ai-dark-factory-landing", t.sourceSha, t.sourceTree, t.candidateSha,
                     t.candidateTree, ["content.css", "index.html"], t.attemptDigest, t.evaluationDigest,
                     ArchiveFacts("deflate-9", "2000-01-01T00:00:00Z", |r.memberNames|, "0644", true), m.members)
    && archive.comment == [] && |m.members| == |archive.entries| == |r.memberNames|
    && forall i :: 0 <= i < |r.memberNames| ==> IsMember(f, r.memberNames[i], m.members[i], archive.entries[i])
  }

  ghost predicate IsMember(f: Formats, name: string, item: MemberRecord, entry: Entry) {
    var landed := name == "index.html" || name == "content.css";
    && entry == Entry(name, entry.body, [2000, 1, 1, 0, 0, 0], 3, 33188, [], [], true)
    && item == MemberRecord("0644", item.candidateObjectId, name, if landed then "candidate" else "source",
                            f.sha256(entry.body), |entry.body|, item.sourceObjectId)
    && IsHex(item.sourceObjectId, 40) && IsHex(item.candidateObjectId, 40)
    && (!landed ==> item.sourceObjectId == item.candidateObjectId)
  }

  /** The manifest and the archive of a record, as they are read. */
  ghost predicate ReadsAs(f: Formats, r: Retained, files: map<string, Bytes>, m: Manifest, archive: Archive) {
    && r.zipName in files && f.parse(r.manifestBytes) == Some(m) && f.canonical(m) == r.manifestBytes
    && f.unzip(files[r.zipName]) == Some(archive)
  }

  lemma BoundExactlyWhen(r: Retained, source: Input)
    ensures BindingOk(r, source) <==> IsBound(r, source)
  {
  }

  lemma NamedExactlyWhen(r: Retained)
    ensures NamesOk(r) && r.artifact.memberCount == |r.memberNames| <==> IsNamed(r)
  {
    var zip := ExpectedZip(r.artifact);
    assert zip == "therealaidarkfactory.online-" + r.artifact.zipSha256 + ".zip";
    SlashIsInTheDigest(r.artifact.zipSha256);
    assert |zip| > 1 && |zip + ".sha256"| > 1;
  }

  lemma SlashIsInTheDigest(digest: string)
    ensures var zip := "therealaidarkfactory.online-" + digest + ".zip";
            ('/' in zip <==> '/' in digest) && ('/' in zip + ".sha256" <==> '/' in digest)
  {
    var zip := "therealaidarkfactory.online-" + digest + ".zip";
    assert zip + ".sha256" == "therealaidarkfactory.online-" + digest + ".zip.sha256";
  }

  lemma SpellsExactlyWhen(b: Bytes, t: SiteArtifact, zipName: string)
    ensures Encodes(b, ExpectedSidecarText(t, zipName)) <==> Spells(b, t.zipSha256, zipName)
  {
    var d := t.zipSha256;
    var n, text := |d|, ExpectedSidecarText(t, zipName);
    assert |InCapitals(d)| == n && |text| == n + |zipName| + 3;
    assert forall i :: 0 <= i < n ==> text[i] == InCapitals(d)[i];
    assert text[n] == ' ' == text[n + 1] && text[|text| - 1] == '\n';
    assert forall i :: 0 <= i < |zipName| ==> text[n + 2 + i] == zipName[i];
    if Spells(b, d, zipName) {
      forall i | 0 <= i < |b| ensures text[i] as int < 128 && b[i] == text[i] as int {
        if n + 2 <= i < |b| - 1 { assert b[n + 2 + (i - n - 2)] == zipName[i - n - 2] as int; }
      }
    }
    if Encodes(b, text) {
      forall i | 0 <= i < |zipName| ensures b[n + 2 + i] == zipName[i] as int < 128 {
        assert text[n + 2 + i] as int < 128;
      }
    }
  }

  lemma {:induction false} SameText(b: Bytes, c: Bytes, text: string)
    requires Encodes(b, text) && Encodes(c, text)
    ensures b == c
  {
  }

  lemma StoredExactlyWhen(f: Formats, r: Retained, files: map<string, Bytes>)
    ensures FilesOk(f, r, files) && |r.manifestBytes| <= MAX_MANIFEST_BYTES <==> IsStored(f, r, files)
  {
    hide Spells, Encodes, ExpectedSidecarText;
    SpellsExactlyWhen(r.sidecarBytes, r.artifact, r.zipName);
    if r.sidecarName in files {
      SpellsExactlyWhen(files[r.sidecarName], r.artifact, r.zipName);
      if FilesOk(f, r, files) {
        SameText(files[r.sidecarName], r.sidecarBytes, ExpectedSidecarText(r.artifact, r.zipName));
      }
    }
    if Spells(r.sidecarBytes, r.artifact.zipSha256, r.zipName) {
      SpelledIsLong(r.sidecarBytes, r.artifact.zipSha256, r.zipName);
    }
  }

  lemma SpelledIsLong(b: Bytes, digest: string, zipName: string)
    requires Spells(b, digest, zipName)
    ensures |b| > 0
  {
  }

  lemma DescribedExactlyWhen(f: Formats, r: Retained, m: Manifest, archive: Archive)
    ensures ManifestOk(m, r) && ArchiveOk(f, m, r, archive) <==> IsDescribed(f, r, m, archive)
  {
    hide IsHex;
    if ManifestOk(m, r) && ArchiveOk(f, m, r, archive) {
      forall i | 0 <= i < |r.memberNames| ensures IsMember(f, r.memberNames[i], m.members[i], archive.entries[i]) {
        assert EntryOk(f, m.members[i], archive.entries[i]);
      }
    }
    if IsDescribed(f, r, m, archive) {
      forall i | 0 <= i < |m.members|
        ensures m.members[i].path == r.memberNames[i] == archive.entries[i].name
        ensures EntryOk(f, m.members[i], archive.entries[i])
      {
        assert IsMember(f, r.memberNames[i], m.members[i], archive.entries[i]);
      }
    }
  }

  /** A record is accepted exactly when it is bound to its artifact, named after it, stored with it, and its
      manifest describes an archive of the members of the source's epoch, in order. */
  lemma AcceptedExactlyWhen(f: Formats, r: Retained, source: Input, files: map<string, Bytes>)
    ensures Validate(f, r, source, files) == None <==>
            && IsBound(r, source) && IsNamed(r) && IsStored(f, r, files)
            && IsExpected(r.memberNames, r.artifact.sourceSha, r.artifact.sourceTree)
            && exists m, archive :: ReadsAs(f, r, files, m, archive) && IsDescribed(f, r, m, archive)
  {
    hide BindingOk, IsBound, NamesOk, IsNamed, FilesOk, IsExpected, ManifestOk, ArchiveOk, IsDescribed,
      DeployMembersForSource;
    BoundExactlyWhen(r, source);
    NamedExactlyWhen(r);
    StoredExactlyWhen(f, r, files);
    VerifierExpectsExactly(r.artifact.sourceSha, r.artifact.sourceTree, r.memberNames);
    if r.zipName in files {
      var manifest, archive := f.parse(r.manifestBytes), f.unzip(files[r.zipName]);
      if manifest.Some? && archive.Some? {
        DescribedExactlyWhen(f, r, manifest.value, archive.value);
        assert ReadsAs(f, r, files, manifest.value, archive.value) <==> f.canonical(manifest.value) == r.manifestBytes;
      }
    }
  }
}
