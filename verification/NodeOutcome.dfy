/**
 The node outcome manifest: when one may be constructed, how it is written as
 JSON, and the strict decoder that reads it back.
 */
module NodeOutcome {
  import opened Wrappers
  import opened Values

  const NODE_OUTCOME_SCHEMA := Raw("node-outcome/v2")
  const MAX_ARTIFACT_BYTES := 0x7FFF_FFFF_FFFF_FFFF

  datatype Link = Link(digest: Text, sizeBytes: int, mediaType: Text, encoding: Option<Text>)

  datatype Check = Check(
    checkId: Text, commandDigest: Text, resultDigest: Text, passed: bool,
    command: Link, result: Link, stdout: Link, stderr: Link)

  datatype Outcome = Succeeded | Failed | Canceled

  datatype Manifest = Manifest(
    runId: Text, nodeId: Text, attempt: int, fencingToken: int, leaseDigest: Text, worktreeSpecDigest: Text,
    baseCommit: Text, headCommit: Option<Text>, repositoryWrite: bool, status: Outcome, failureCode: Option<Text>,
    context: Option<Link>, proposal: Option<Link>, provider: Option<Link>, effect: Option<Link>, checks: seq<Check>)

  datatype OutcomeError = InvalidOutcome | UnsupportedSchema

  // ---------------------------------------------------------------- what may be constructed

  /** Printable ASCII without spaces, at most `limit` characters. */
  predicate IsToken(t: Text, limit: nat) {
    t.Raw? && 1 <= |t.chars| <= limit && forall i :: 0 <= i < |t.chars| ==> '!' <= t.chars[i] <= '~'
  }

  predicate LinkValid(l: Link) {
    && IsDigest(l.digest) && 0 <= l.sizeBytes <= MAX_ARTIFACT_BYTES
    && IsToken(l.mediaType, 256) && (l.encoding.Some? ==> IsToken(l.encoding.value, 64))
  }

  predicate CheckValid(c: Check) {
    && IsIdentifier(c.checkId) && IsDigest(c.commandDigest) && IsDigest(c.resultDigest)
    && LinkValid(c.command) && LinkValid(c.result) && LinkValid(c.stdout) && LinkValid(c.stderr)
    && c.command.digest == c.commandDigest && c.result.digest == c.resultDigest
  }

  predicate OptionalLinkValid(l: Option<Link>) {
    l.Some? ==> LinkValid(l.value)
  }

  predicate ChecksValid(checks: seq<Check>) {
    && (forall i :: 0 <= i < |checks| ==> CheckValid(checks[i]))
    && (forall i, j :: 0 <= i < j < |checks| ==> checks[i].checkId != checks[j].checkId)
  }

  predicate FieldsValid(m: Manifest) {
    && IsIdentifier(m.runId) && IsIdentifier(m.nodeId) && m.attempt >= 1 && m.fencingToken >= 1
    && IsDigest(m.leaseDigest) && IsDigest(m.worktreeSpecDigest)
    && IsCommit(m.baseCommit) && (m.headCommit.Some? ==> IsCommit(m.headCommit.value))
    && (m.failureCode.Some? ==> IsIdentifier(m.failureCode.value))
    && OptionalLinkValid(m.context) && OptionalLinkValid(m.proposal)
    && OptionalLinkValid(m.provider) && OptionalLinkValid(m.effect)
    && ChecksValid(m.checks)
  }

  /** No stage's artifact without those of the stages before it. */
  predicate StagesChained(m: Manifest) {
    && (m.proposal.Some? ==> m.context.Some?)
    && (m.provider.Some? ==> m.context.Some? && m.proposal.Some?)
    && (m.effect.Some? ==> m.context.Some? && m.proposal.Some? && m.provider.Some?)
  }

  predicate AllStages(m: Manifest) {
    m.context.Some? && m.proposal.Some? && m.provider.Some? && m.effect.Some?
  }

  predicate NoStage(m: Manifest) {
    m.context.None? && m.proposal.None? && m.provider.None? && m.effect.None?
  }

  predicate AllPassed(checks: seq<Check>) {
    forall i :: 0 <= i < |checks| ==> checks[i].passed
  }

  predicate OutcomeConsistent(m: Manifest) {
    && (m.status == Succeeded ==>
          m.failureCode.None? && m.headCommit.Some? && m.checks != [] && AllPassed(m.checks)
          && m.repositoryWrite == AllStages(m))
    && (m.status == Failed ==> m.failureCode.Some?)
    && (m.status == Canceled ==> m.failureCode.None?)
    && (!m.repositoryWrite ==> NoStage(m))
  }

  /** `NodeOutcomeManifest.__post_init__` returns. */
  predicate ManifestValid(m: Manifest) {
    FieldsValid(m) && StagesChained(m) && OutcomeConsistent(m)
  }

  // ---------------------------------------------------------------- the encoder

  function OptionalText(t: Option<Text>): Json {
    match t case None => Null case Some(text) => Str(text)
  }

  function LinkPayload(l: Link): Json {
    Obj(map[DigestField := Str(l.digest), SizeBytes := Int(l.sizeBytes), MediaType := Str(l.mediaType),
            Encoding := OptionalText(l.encoding)])
  }

  function OptionalLinkPayload(l: Option<Link>): Json {
    match l case None => Null case Some(link) => LinkPayload(link)
  }

  function CheckPayload(c: Check): Json {
    Obj(map[CheckId := Str(c.checkId), CommandDigest := Str(c.commandDigest), ResultDigest := Str(c.resultDigest),
            Passed := Bool(c.passed), CommandArtifact := LinkPayload(c.command),
            ResultArtifact := LinkPayload(c.result),
            StdoutArtifact := LinkPayload(c.stdout), StderrArtifact := LinkPayload(c.stderr)])
  }

  /** A list comprehension over an encoder. */
  function WriteAll<T>(xs: seq<T>, write: T -> Json): seq<Json> {
    if xs == [] then [] else WriteAll(xs[..|xs| - 1], write) + [write(xs[|xs| - 1])]
  }

  function StatusText(o: Outcome): Text {
    match o case Succeeded => Raw("succeeded") case Failed => Raw("failed") case Canceled => Raw("canceled")
  }

  function ChecksPayload(checks: seq<Check>): Json {
    Arr(WriteAll(checks, CheckPayload))
  }

  function IdentityFields(m: Manifest): map<Field, Json> {
    map[SchemaVersion := Str(NODE_OUTCOME_SCHEMA), RunId := Str(m.runId), NodeId := Str(m.nodeId),
        Attempt := Int(m.attempt), FencingToken := Int(m.fencingToken), LeaseDigest := Str(m.leaseDigest)]
  }

  function ResultFields(m: Manifest): map<Field, Json> {
    map[WorktreeSpecDigest := Str(m.worktreeSpecDigest), BaseCommit := Str(m.baseCommit),
        HeadCommit := OptionalText(m.headCommit), RepositoryWrite := Bool(m.repositoryWrite),
        Status := Str(StatusText(m.status)), FailureCode := OptionalText(m.failureCode)]
  }

  function StageFields(m: Manifest, writeLink: Option<Link> -> Json, writeChecks: seq<Check> -> Json)
    : map<Field, Json> {
    map[ContextArtifact := writeLink(m.context), ProposalArtifact := writeLink(m.proposal),
        ProviderArtifact := writeLink(m.provider), EffectArtifact := writeLink(m.effect),
        Checks := writeChecks(m.checks)]
  }

  /** The fields of a manifest, given how its links and checks are written. */
  function Fields(m: Manifest, writeLink: Option<Link> -> Json, writeChecks: seq<Check> -> Json): map<Field, Json> {
    IdentityFields(m) + ResultFields(m) + StageFields(m, writeLink, writeChecks)
  }

  /** `node_outcome_payload` */
  function Encode(m: Manifest): Json {
    Obj(Fields(m, OptionalLinkPayload, ChecksPayload))
  }

  function Digest(m: Manifest): Text {
    Sha256(Encode(m))
  }

  // ---------------------------------------------------------------- the decoder

  const LINK_KEYS: set<Field> := {DigestField, SizeBytes, MediaType, Encoding}
  const CHECK_KEYS: set<Field> :=
    {CheckId, CommandDigest, ResultDigest, Passed, CommandArtifact, ResultArtifact, StdoutArtifact, StderrArtifact}
  const IDENTITY_KEYS: set<Field> := {SchemaVersion, RunId, NodeId, Attempt, FencingToken, LeaseDigest}
  const RESULT_KEYS: set<Field> := {WorktreeSpecDigest, BaseCommit, HeadCommit, RepositoryWrite, Status, FailureCode}
  const STAGE_KEYS: set<Field> := {ContextArtifact, ProposalArtifact, ProviderArtifact, EffectArtifact, Checks}
  const MANIFEST_KEYS: set<Field> := IDENTITY_KEYS + RESULT_KEYS + STAGE_KEYS

  /** A value that must be a string or null. */
  function ReadOptionalText(j: Json): Option<Option<Text>> {
    match j case Null => Some(None) case Str(t) => Some(Some(t)) case _ => None
  }

  /** `_link_from_mapping`, the link's constructor included, with `None` for its exception. */
  function ReadLink(j: Json): Option<Link> {
    if !j.Obj? || j.fields.Keys != LINK_KEYS then None
    else
      var digest, size, media, encoding :=
        j.fields[DigestField], j.fields[SizeBytes], j.fields[MediaType], j.fields[Encoding];
      if !digest.Str? || !size.Int? || !media.Str? || ReadOptionalText(encoding).None? then None
      else
        var link := Link(digest.t, size.i, media.t, ReadOptionalText(encoding).value);
        if LinkValid(link) then Some(link) else None
  }

  function ReadOptionalLink(j: Json): Option<Option<Link>> {
    if j.Null? then Some(None)
    else if ReadLink(j).None? then None
    else Some(ReadLink(j))
  }

  /** `_check_from_mapping`, the constructor included. */
  function ReadCheck(j: Json): Option<Check> {
    if !j.Obj? || j.fields.Keys != CHECK_KEYS then None
    else
      var f := j.fields;
      var command, result := ReadLink(f[CommandArtifact]), ReadLink(f[ResultArtifact]);
      var stdout, stderr := ReadLink(f[StdoutArtifact]), ReadLink(f[StderrArtifact]);
      if !f[CheckId].Str? || !f[CommandDigest].Str? || !f[ResultDigest].Str? || !f[Passed].Bool? then None
      else if command.None? || result.None? || stdout.None? || stderr.None? then None
      else
        var check := Check(f[CheckId].t, f[CommandDigest].t, f[ResultDigest].t, f[Passed].b,
                           command.value, result.value, stdout.value, stderr.value);
        if CheckValid(check) then Some(check) else None
  }

  /** A tuple built by a decoder that may raise. */
  function ReadAll<T>(items: seq<Json>, read: Json -> Option<T>): Option<seq<T>> {
    if items == [] then Some([])
    else
      var before, last := ReadAll(items[..|items| - 1], read), read(items[|items| - 1]);
      if before.None? || last.None? then None else Some(before.value + [last.value])
  }

  function ReadStatus(j: Json): Option<Outcome> {
    if j == Str(Raw("succeeded")) then Some(Succeeded)
    else if j == Str(Raw("failed")) then Some(Failed)
    else if j == Str(Raw("canceled")) then Some(Canceled)
    else None
  }

  function ReadChecks(j: Json): Option<seq<Check>> {
    if j.Arr? then ReadAll(j.items, ReadCheck) else None
  }

  /** The scalar fields have the types the decoder asks for. */
  predicate ScalarsTyped(f: map<Field, Json>)
    requires f.Keys == MANIFEST_KEYS
  {
    && f[RunId].Str? && f[NodeId].Str? && f[Attempt].Int? && f[FencingToken].Int?
    && f[LeaseDigest].Str? && f[WorktreeSpecDigest].Str? && f[BaseCommit].Str?
    && ReadOptionalText(f[HeadCommit]).Some? && f[RepositoryWrite].Bool?
    && ReadStatus(f[Status]).Some? && ReadOptionalText(f[FailureCode]).Some?
  }

  /** The manifest the fields spell, given how links and checks are read and which manifests are valid. */
  function FromFields(f: map<Field, Json>, readLink: Json -> Option<Option<Link>>,
                      readChecks: Json -> Option<seq<Check>>,
                      valid: Manifest -> bool): Result<Manifest, OutcomeError>
  {
    if f.Keys != MANIFEST_KEYS then Err(InvalidOutcome)
    else if f[SchemaVersion] != Str(NODE_OUTCOME_SCHEMA) then Err(UnsupportedSchema)
    else
      var checks := readChecks(f[Checks]);
      var context, proposal := readLink(f[ContextArtifact]), readLink(f[ProposalArtifact]);
      var provider, effect := readLink(f[ProviderArtifact]), readLink(f[EffectArtifact]);
      if checks.None? || !ScalarsTyped(f) || context.None? || proposal.None? || provider.None? || effect.None? then
        Err(InvalidOutcome)
      else
        var m := Manifest(
          f[RunId].t, f[NodeId].t, f[Attempt].i, f[FencingToken].i, f[LeaseDigest].t, f[WorktreeSpecDigest].t,
          f[BaseCommit].t, ReadOptionalText(f[HeadCommit]).value, f[RepositoryWrite].b, ReadStatus(f[Status]).value,
          ReadOptionalText(f[FailureCode]).value, context.value, proposal.value, provider.value, effect.value,
          checks.value);
        if valid(m) then Ok(m) else Err(InvalidOutcome)
  }

  /** `node_outcome_from_mapping` */
  function Decode(j: Json): Result<Manifest, OutcomeError> {
    if j.Obj? then FromFields(j.fields, ReadOptionalLink, ReadChecks, ManifestValid) else Err(InvalidOutcome)
  }

  // ---------------------------------------------------------------- round trips

  lemma LinkRoundTrip(l: Link)
    requires LinkValid(l)
    ensures ReadLink(LinkPayload(l)) == Some(l)
  {
  }

  lemma LinkStrict(j: Json)
    requires ReadLink(j).Some?
    ensures LinkPayload(ReadLink(j).value) == j && LinkValid(ReadLink(j).value)
  {
    assert LinkPayload(ReadLink(j).value).fields == j.fields;
  }

  lemma OptionalLinkRoundTrip(l: Option<Link>)
    requires OptionalLinkValid(l)
    ensures ReadOptionalLink(OptionalLinkPayload(l)) == Some(l)
  {
    if l.Some? {
      LinkRoundTrip(l.value);
    }
  }

  lemma OptionalLinkStrict(j: Json)
    requires ReadOptionalLink(j).Some?
    ensures OptionalLinkPayload(ReadOptionalLink(j).value) == j
  {
    if !j.Null? {
      LinkStrict(j);
    }
  }

  lemma CheckRoundTrip(c: Check)
    requires CheckValid(c)
    ensures ReadCheck(CheckPayload(c)) == Some(c)
  {
    LinkRoundTrip(c.command);
    LinkRoundTrip(c.result);
    LinkRoundTrip(c.stdout);
    LinkRoundTrip(c.stderr);
    CheckFields(c);
    SpelledCheckReads(CheckPayload(c).fields, c);
  }

  /** The fields of a check's payload, apart from its links. */
  ghost predicate SpellsScalars(f: map<Field, Json>, c: Check) {
    && f.Keys == CHECK_KEYS
    && f[CheckId] == Str(c.checkId) && f[CommandDigest] == Str(c.commandDigest)
    && f[ResultDigest] == Str(c.resultDigest) && f[Passed] == Bool(c.passed)
  }

  lemma CheckFields(c: Check)
    ensures var f := CheckPayload(c).fields;
            && SpellsScalars(f, c)
            && f[CommandArtifact] == LinkPayload(c.command) && f[ResultArtifact] == LinkPayload(c.result)
            && f[StdoutArtifact] == LinkPayload(c.stdout) && f[StderrArtifact] == LinkPayload(c.stderr)
  {
    assert CheckPayload(c).fields.Keys == CHECK_KEYS;
  }

  lemma SpelledCheckReads(f: map<Field, Json>, c: Check)
    requires SpellsScalars(f, c) && CheckValid(c)
    requires ReadLink(f[CommandArtifact]) == Some(c.command) && ReadLink(f[ResultArtifact]) == Some(c.result)
    requires ReadLink(f[StdoutArtifact]) == Some(c.stdout) && ReadLink(f[StderrArtifact]) == Some(c.stderr)
    ensures ReadCheck(Obj(f)) == Some(c)
  {
  }

  lemma CheckStrict(j: Json)
    requires ReadCheck(j).Some?
    ensures CheckPayload(ReadCheck(j).value) == j && CheckValid(ReadCheck(j).value)
    ensures ReadCheck(j).value.command.digest == ReadCheck(j).value.commandDigest
    ensures ReadCheck(j).value.result.digest == ReadCheck(j).value.resultDigest
  {
    LinkStrict(j.fields[CommandArtifact]);
    LinkStrict(j.fields[ResultArtifact]);
    LinkStrict(j.fields[StdoutArtifact]);
    LinkStrict(j.fields[StderrArtifact]);
    assert CheckPayload(ReadCheck(j).value).fields == j.fields;
  }

  lemma {:induction false} SeqRoundTrip<T>(xs: seq<T>, write: T -> Json, read: Json -> Option<T>)
    requires forall i :: 0 <= i < |xs| ==> read(write(xs[i])) == Some(xs[i])
    ensures ReadAll(WriteAll(xs, write), read) == Some(xs)
  {
    if xs != [] {
      var front, last := xs[..|xs| - 1], xs[|xs| - 1];
      SeqRoundTrip(front, write, read);
      var written := WriteAll(xs, write);
      assert written[..|written| - 1] == WriteAll(front, write) && written[|written| - 1] == write(last);
      assert xs == front + [last];
    }
  }

  lemma {:induction false} SeqStrict<T>(items: seq<Json>, write: T -> Json, read: Json -> Option<T>)
    requires forall i :: 0 <= i < |items| && read(items[i]).Some? ==> write(read(items[i]).value) == items[i]
    requires ReadAll(items, read).Some?
    ensures WriteAll(ReadAll(items, read).value, write) == items
  {
    if items != [] {
      SeqStrict(items[..|items| - 1], write, read);
      var xs := ReadAll(items, read).value;
      assert xs[..|xs| - 1] == ReadAll(items[..|items| - 1], read).value;
    }
  }

  lemma ChecksRoundTrip(checks: seq<Check>)
    requires ChecksValid(checks)
    ensures ReadChecks(ChecksPayload(checks)) == Some(checks)
  {
    forall i | 0 <= i < |checks| ensures ReadCheck(CheckPayload(checks[i])) == Some(checks[i]) {
      CheckRoundTrip(checks[i]);
    }
    SeqRoundTrip(checks, CheckPayload, ReadCheck);
  }

  lemma ChecksStrict(j: Json)
    requires ReadChecks(j).Some?
    ensures ChecksPayload(ReadChecks(j).value) == j
  {
    forall i | 0 <= i < |j.items| && ReadCheck(j.items[i]).Some?
      ensures CheckPayload(ReadCheck(j.items[i]).value) == j.items[i] {
      CheckStrict(j.items[i]);
    }
    SeqStrict(j.items, CheckPayload, ReadCheck);
  }

  ghost predicate SpellsIdentity(f: map<Field, Json>, m: Manifest)
    requires IDENTITY_KEYS <= f.Keys
  {
    && f[SchemaVersion] == Str(NODE_OUTCOME_SCHEMA)
    && f[RunId] == Str(m.runId) && f[NodeId] == Str(m.nodeId)
    && f[Attempt] == Int(m.attempt) && f[FencingToken] == Int(m.fencingToken)
    && f[LeaseDigest] == Str(m.leaseDigest)
  }

  ghost predicate SpellsResult(f: map<Field, Json>, m: Manifest)
    requires RESULT_KEYS <= f.Keys
  {
    && f[WorktreeSpecDigest] == Str(m.worktreeSpecDigest)
    && f[BaseCommit] == Str(m.baseCommit) && f[HeadCommit] == OptionalText(m.headCommit)
    && f[RepositoryWrite] == Bool(m.repositoryWrite) && f[Status] == Str(StatusText(m.status))
    && f[FailureCode] == OptionalText(m.failureCode)
  }

  ghost predicate SpellsStages(f: map<Field, Json>, m: Manifest, writeLink: Option<Link> -> Json,
                               writeChecks: seq<Check> -> Json)
    requires STAGE_KEYS <= f.Keys
  {
    && f[ContextArtifact] == writeLink(m.context) && f[ProposalArtifact] == writeLink(m.proposal)
    && f[ProviderArtifact] == writeLink(m.provider) && f[EffectArtifact] == writeLink(m.effect)
    && f[Checks] == writeChecks(m.checks)
  }

  /** `f` holds what `m` holds, under exactly the keys of a manifest. */
  ghost predicate Spells(f: map<Field, Json>, m: Manifest, writeLink: Option<Link> -> Json,
                         writeChecks: seq<Check> -> Json) {
    f.Keys == MANIFEST_KEYS && SpellsIdentity(f, m) && SpellsResult(f, m) && SpellsStages(f, m, writeLink, writeChecks)
  }

  lemma PartsSpell(m: Manifest, writeLink: Option<Link> -> Json, writeChecks: seq<Check> -> Json)
    ensures IdentityFields(m).Keys == IDENTITY_KEYS && SpellsIdentity(IdentityFields(m), m)
    ensures ResultFields(m).Keys == RESULT_KEYS && SpellsResult(ResultFields(m), m)
    ensures var stages := StageFields(m, writeLink, writeChecks);
            stages.Keys == STAGE_KEYS && SpellsStages(stages, m, writeLink, writeChecks)
  {
  }

  lemma MergeSpells(a: map<Field, Json>, b: map<Field, Json>, c: map<Field, Json>, m: Manifest,
                    writeLink: Option<Link> -> Json, writeChecks: seq<Check> -> Json)
    requires a.Keys == IDENTITY_KEYS && SpellsIdentity(a, m)
    requires b.Keys == RESULT_KEYS && SpellsResult(b, m)
    requires c.Keys == STAGE_KEYS && SpellsStages(c, m, writeLink, writeChecks)
    ensures Spells(a + b + c, m, writeLink, writeChecks)
  {
    var f := a + b + c;
    KeysDisjoint();
    assert f.Keys == MANIFEST_KEYS;
    assert forall k :: k in IDENTITY_KEYS ==> f[k] == a[k];
    assert forall k :: k in RESULT_KEYS ==> f[k] == b[k];
    assert forall k :: k in STAGE_KEYS ==> f[k] == c[k];
  }

  lemma KeysDisjoint()
    ensures IDENTITY_KEYS !! RESULT_KEYS && IDENTITY_KEYS !! STAGE_KEYS && RESULT_KEYS !! STAGE_KEYS
  {
  }

  lemma FieldsSpell(m: Manifest, writeLink: Option<Link> -> Json, writeChecks: seq<Check> -> Json)
    ensures Spells(Fields(m, writeLink, writeChecks), m, writeLink, writeChecks)
  {
    PartsSpell(m, writeLink, writeChecks);
    MergeSpells(IdentityFields(m), ResultFields(m), StageFields(m, writeLink, writeChecks), m, writeLink, writeChecks);
  }

  /** Two field maps that spell one manifest are equal. */
  lemma SpellingIsUnique(f: map<Field, Json>, g: map<Field, Json>, m: Manifest,
                         writeLink: Option<Link> -> Json, writeChecks: seq<Check> -> Json)
    requires Spells(f, m, writeLink, writeChecks) && Spells(g, m, writeLink, writeChecks)
    ensures f == g
  {
    SameIdentity(f, g, m);
    SameResult(f, g, m);
    SameStages(f, g, m, writeLink, writeChecks);
    forall k | k in f ensures f[k] == g[k] {
      assert k in IDENTITY_KEYS || k in RESULT_KEYS || k in STAGE_KEYS;
    }
  }

  ghost predicate SameOn(f: map<Field, Json>, g: map<Field, Json>, keys: set<Field>)
    requires keys <= f.Keys && keys <= g.Keys
  {
    forall k :: k in keys ==> f[k] == g[k]
  }

  lemma SameIdentity(f: map<Field, Json>, g: map<Field, Json>, m: Manifest)
    requires IDENTITY_KEYS <= f.Keys && IDENTITY_KEYS <= g.Keys && SpellsIdentity(f, m) && SpellsIdentity(g, m)
    ensures SameOn(f, g, IDENTITY_KEYS)
  {
  }

  lemma SameResult(f: map<Field, Json>, g: map<Field, Json>, m: Manifest)
    requires RESULT_KEYS <= f.Keys && RESULT_KEYS <= g.Keys && SpellsResult(f, m) && SpellsResult(g, m)
    ensures SameOn(f, g, RESULT_KEYS)
  {
  }

  lemma SameStages(f: map<Field, Json>, g: map<Field, Json>, m: Manifest, writeLink: Option<Link> -> Json,
                   writeChecks: seq<Check> -> Json)
    requires STAGE_KEYS <= f.Keys && STAGE_KEYS <= g.Keys
    requires SpellsStages(f, m, writeLink, writeChecks) && SpellsStages(g, m, writeLink, writeChecks)
    ensures SameOn(f, g, STAGE_KEYS)
  {
  }

  /** Every link of the manifest survives being written and read. */
  ghost predicate LinksRead(m: Manifest, writeLink: Option<Link> -> Json, readLink: Json -> Option<Option<Link>>) {
    && readLink(writeLink(m.context)) == Some(m.context) && readLink(writeLink(m.proposal)) == Some(m.proposal)
    && readLink(writeLink(m.provider)) == Some(m.provider) && readLink(writeLink(m.effect)) == Some(m.effect)
  }

  lemma FieldsRoundTrip(m: Manifest, writeLink: Option<Link> -> Json, writeChecks: seq<Check> -> Json,
                        readLink: Json -> Option<Option<Link>>, readChecks: Json -> Option<seq<Check>>,
                        valid: Manifest -> bool)
    requires LinksRead(m, writeLink, readLink)
    requires readChecks(writeChecks(m.checks)) == Some(m.checks) && valid(m)
    ensures FromFields(Fields(m, writeLink, writeChecks), readLink, readChecks, valid) == Ok(m)
  {
    FieldsSpell(m, writeLink, writeChecks);
    ReadSpelled(Fields(m, writeLink, writeChecks), m, writeLink, writeChecks, readLink, readChecks, valid);
  }

  lemma ReadSpelled(f: map<Field, Json>, m: Manifest, writeLink: Option<Link> -> Json, writeChecks: seq<Check> -> Json,
                    readLink: Json -> Option<Option<Link>>, readChecks: Json -> Option<seq<Check>>,
                    valid: Manifest -> bool)
    requires Spells(f, m, writeLink, writeChecks)
    requires LinksRead(m, writeLink, readLink)
    requires readChecks(writeChecks(m.checks)) == Some(m.checks) && valid(m)
    ensures FromFields(f, readLink, readChecks, valid) == Ok(m)
  {
    ScalarsRead(f, m, writeLink, writeChecks);
  }

  lemma ScalarsRead(f: map<Field, Json>, m: Manifest, writeLink: Option<Link> -> Json, writeChecks: seq<Check> -> Json)
    requires Spells(f, m, writeLink, writeChecks)
    ensures ScalarsTyped(f) && ReadOptionalText(f[HeadCommit]) == Some(m.headCommit)
    ensures ReadStatus(f[Status]) == Some(m.status) && ReadOptionalText(f[FailureCode]) == Some(m.failureCode)
  {
  }

  lemma FieldsStrict(f: map<Field, Json>, m: Manifest, writeLink: Option<Link> -> Json, writeChecks: seq<Check> -> Json,
                     readLink: Json -> Option<Option<Link>>, readChecks: Json -> Option<seq<Check>>,
                     valid: Manifest -> bool)
    requires forall j :: readLink(j).Some? ==> writeLink(readLink(j).value) == j
    requires forall j :: readChecks(j).Some? ==> writeChecks(readChecks(j).value) == j
    requires FromFields(f, readLink, readChecks, valid) == Ok(m)
    ensures valid(m) && Fields(m, writeLink, writeChecks) == f
  {
    SpelledByResult(f, m, writeLink, writeChecks, readLink, readChecks, valid);
    FieldsSpell(m, writeLink, writeChecks);
    SpellingIsUnique(Fields(m, writeLink, writeChecks), f, m, writeLink, writeChecks);
  }

  lemma SpelledByResult(f: map<Field, Json>, m: Manifest, writeLink: Option<Link> -> Json,
                        writeChecks: seq<Check> -> Json,
                        readLink: Json -> Option<Option<Link>>, readChecks: Json -> Option<seq<Check>>,
                        valid: Manifest -> bool)
    requires forall j :: readLink(j).Some? ==> writeLink(readLink(j).value) == j
    requires forall j :: readChecks(j).Some? ==> writeChecks(readChecks(j).value) == j
    requires FromFields(f, readLink, readChecks, valid) == Ok(m)
    ensures valid(m) && Spells(f, m, writeLink, writeChecks)
  {
  }

  /** Decoding the encoding of a manifest that may be constructed gives it back. */
  lemma OutcomeRoundTrip(m: Manifest)
    requires ManifestValid(m)
    ensures Decode(Encode(m)) == Ok(m)
  {
    OptionalLinkRoundTrip(m.context);
    OptionalLinkRoundTrip(m.proposal);
    OptionalLinkRoundTrip(m.provider);
    OptionalLinkRoundTrip(m.effect);
    ChecksRoundTrip(m.checks);
    FieldsRoundTrip(m, OptionalLinkPayload, ChecksPayload, ReadOptionalLink, ReadChecks, ManifestValid);
  }

  /** What the decoder accepts is the encoding of a valid manifest and nothing else. */
  lemma OutcomeDecodeStrict(j: Json, m: Manifest)
    requires Decode(j) == Ok(m)
    ensures ManifestValid(m) && Encode(m) == j
  {
    forall k | ReadOptionalLink(k).Some? ensures OptionalLinkPayload(ReadOptionalLink(k).value) == k {
      OptionalLinkStrict(k);
    }
    forall k | ReadChecks(k).Some? ensures ChecksPayload(ReadChecks(k).value) == k {
      ChecksStrict(k);
    }
    FieldsStrict(j.fields, m, OptionalLinkPayload, ChecksPayload, ReadOptionalLink, ReadChecks, ManifestValid);
  }

  /** An object with a manifest's keys and another schema version is unsupported; everything else refused is invalid. */
  lemma UnsupportedExactly(j: Json)
    ensures Decode(j) == Err(UnsupportedSchema)
            <==> j.Obj? && j.fields.Keys == MANIFEST_KEYS && j.fields[SchemaVersion] != Str(Raw("node-outcome/v2"))
  {
  }

  /** Two valid manifests with one digest are the same manifest. */
  lemma OutcomeDigestInjective(a: Manifest, b: Manifest)
    requires ManifestValid(a) && ManifestValid(b) && Digest(a) == Digest(b)
    ensures a == b
  {
    OutcomeRoundTrip(a);
    OutcomeRoundTrip(b);
  }

  // ---------------------------------------------------------------- what a manifest says

  /** The payload of one link. */
  predicate LinkSpelled(j: Json, l: Link) {
    && j.Obj? && j.fields.Keys == {DigestField, SizeBytes, MediaType, Encoding}
    && j.fields[DigestField] == Str(l.digest) && j.fields[SizeBytes] == Int(l.sizeBytes)
    && j.fields[MediaType] == Str(l.mediaType)
    && j.fields[Encoding] == (if l.encoding.Some? then Str(l.encoding.value) else Null)
  }

  predicate StageSpelled(j: Json, l: Option<Link>) {
    if l.Some? then LinkSpelled(j, l.value) else j == Null
  }

  predicate CheckSpelled(j: Json, c: Check) {
    && j.Obj?
    && j.fields.Keys == {CheckId, CommandDigest, ResultDigest, Passed, CommandArtifact, ResultArtifact,
                         StdoutArtifact, StderrArtifact}
    && j.fields[CheckId] == Str(c.checkId) && j.fields[CommandDigest] == Str(c.commandDigest)
    && j.fields[ResultDigest] == Str(c.resultDigest) && j.fields[Passed] == Bool(c.passed)
    && LinkSpelled(j.fields[CommandArtifact], c.command) && LinkSpelled(j.fields[ResultArtifact], c.result)
    && LinkSpelled(j.fields[StdoutArtifact], c.stdout) && LinkSpelled(j.fields[StderrArtifact], c.stderr)
  }

  predicate ChecksSpelled(j: Json, checks: seq<Check>) {
    j.Arr? && |j.items| == |checks| && forall i :: 0 <= i < |checks| ==> CheckSpelled(j.items[i], checks[i])
  }

  lemma CheckSpells(c: Check)
    ensures CheckSpelled(CheckPayload(c), c)
  {
    CheckFields(c);
  }

  lemma StageSpells(l: Option<Link>)
    ensures StageSpelled(OptionalLinkPayload(l), l)
  {
  }

  lemma {:induction false} WrittenAt<T>(xs: seq<T>, write: T -> Json)
    ensures |WriteAll(xs, write)| == |xs| && forall i :: 0 <= i < |xs| ==> WriteAll(xs, write)[i] == write(xs[i])
  {
    if xs != [] {
      WrittenAt(xs[..|xs| - 1], write);
    }
  }

  lemma ChecksSpell(checks: seq<Check>)
    ensures ChecksSpelled(ChecksPayload(checks), checks)
  {
    WrittenAt(checks, CheckPayload);
    forall i | 0 <= i < |checks| ensures CheckSpelled(ChecksPayload(checks).items[i], checks[i]) {
      CheckSpells(checks[i]);
    }
  }

  predicate ScalarsSpelled(f: map<Field, Json>, m: Manifest)
    requires f.Keys == MANIFEST_KEYS
  {
    && f[SchemaVersion] == Str(Raw("node-outcome/v2"))
    && f[RunId] == Str(m.runId) && f[NodeId] == Str(m.nodeId)
    && f[Attempt] == Int(m.attempt) && f[FencingToken] == Int(m.fencingToken)
    && f[LeaseDigest] == Str(m.leaseDigest) && f[WorktreeSpecDigest] == Str(m.worktreeSpecDigest)
    && f[BaseCommit] == Str(m.baseCommit)
    && f[HeadCommit] == (if m.headCommit.Some? then Str(m.headCommit.value) else Null)
    && f[RepositoryWrite] == Bool(m.repositoryWrite)
    && (m.status == Succeeded ==> f[Status] == Str(Raw("succeeded")))
    && (m.status == Failed ==> f[Status] == Str(Raw("failed")))
    && (m.status == Canceled ==> f[Status] == Str(Raw("canceled")))
    && f[FailureCode] == (if m.failureCode.Some? then Str(m.failureCode.value) else Null)
  }

  predicate StagesSpelled(f: map<Field, Json>, m: Manifest)
    requires f.Keys == MANIFEST_KEYS
  {
    && StageSpelled(f[ContextArtifact], m.context) && StageSpelled(f[ProposalArtifact], m.proposal)
    && StageSpelled(f[ProviderArtifact], m.provider) && StageSpelled(f[EffectArtifact], m.effect)
    && ChecksSpelled(f[Checks], m.checks)
  }

  lemma SpelledScalars(f: map<Field, Json>, m: Manifest, writeLink: Option<Link> -> Json,
                       writeChecks: seq<Check> -> Json)
    requires Spells(f, m, writeLink, writeChecks)
    ensures ScalarsSpelled(f, m)
  {
  }

  lemma SpelledStages(f: map<Field, Json>, m: Manifest, writeLink: Option<Link> -> Json,
                      writeChecks: seq<Check> -> Json)
    requires Spells(f, m, writeLink, writeChecks) && ChecksSpelled(writeChecks(m.checks), m.checks)
    requires forall l :: StageSpelled(writeLink(l), l)
    ensures StagesSpelled(f, m)
  {
  }

  /** How every field of a manifest is written. */
  lemma OutcomeSpelled(m: Manifest)
    ensures Encode(m).Obj? && Encode(m).fields.Keys == MANIFEST_KEYS
    ensures ScalarsSpelled(Encode(m).fields, m) && StagesSpelled(Encode(m).fields, m)
  {
    FieldsSpell(m, OptionalLinkPayload, ChecksPayload);
    SpelledScalars(Encode(m).fields, m, OptionalLinkPayload, ChecksPayload);
    ChecksSpell(m.checks);
    forall l ensures StageSpelled(OptionalLinkPayload(l), l) {
      StageSpells(l);
    }
    SpelledStages(Encode(m).fields, m, OptionalLinkPayload, ChecksPayload);
  }

  /** The artifacts of the stages, in the order the stages run. */
  function Stages(m: Manifest): seq<Option<Link>> {
    [m.context, m.proposal, m.provider, m.effect]
  }

  /** The first `k` stages left an artifact and no other did. */
  predicate Reached(m: Manifest, k: nat) {
    k <= 4 && forall i :: 0 <= i < 4 ==> (Stages(m)[i].Some? <==> i < k)
  }

  predicate TokenFits(t: Text, limit: nat) {
    t.Raw? && t.chars != "" && |t.chars| <= limit && forall c :: c in t.chars ==> 0x21 <= c as int <= 0x7E
  }

  predicate LinkFits(l: Link) {
    && IsDigest(l.digest) && 0 <= l.sizeBytes < 0x8000_0000_0000_0000 && TokenFits(l.mediaType, 256)
    && (l.encoding == None || TokenFits(l.encoding.value, 64))
  }

  /** A check's four artifacts are links, and those of its command and result carry the digests it names. */
  predicate CheckFits(c: Check) {
    && IsIdentifier(c.checkId) && IsDigest(c.commandDigest) && IsDigest(c.resultDigest)
    && LinkFits(c.stdout) && LinkFits(c.stderr)
    && LinkFits(c.command) && c.command.digest == c.commandDigest
    && LinkFits(c.result) && c.result.digest == c.resultDigest
  }

  lemma TokenExactly(t: Text, limit: nat)
    ensures TokenFits(t, limit) <==> IsToken(t, limit)
  {
    if t.Raw? {
      assert forall i :: 0 <= i < |t.chars| ==> t.chars[i] in t.chars;
    }
  }

  lemma LinkExactly(l: Link)
    ensures LinkFits(l) <==> LinkValid(l)
  {
    TokenExactly(l.mediaType, 256);
    if l.encoding.Some? {
      TokenExactly(l.encoding.value, 64);
    }
  }

  lemma CheckExactly(c: Check)
    ensures CheckFits(c) <==> CheckValid(c)
  {
    LinkExactly(c.command);
    LinkExactly(c.result);
    LinkExactly(c.stdout);
    LinkExactly(c.stderr);
  }

  /** What a manifest's fields must be, each by itself and the checks together. */
  lemma FieldsExactly(m: Manifest)
    ensures FieldsValid(m)
            <==> && IsIdentifier(m.runId) && IsIdentifier(m.nodeId) && 1 <= m.attempt && 1 <= m.fencingToken
                 && IsDigest(m.leaseDigest) && IsDigest(m.worktreeSpecDigest)
                 && IsCommit(m.baseCommit) && (m.headCommit == None || IsCommit(m.headCommit.value))
                 && (m.failureCode == None || IsIdentifier(m.failureCode.value))
                 && (forall l :: Some(l) in Stages(m) ==> LinkFits(l))
                 && (forall c :: c in m.checks ==> CheckFits(c))
                 && (forall i, j :: 0 <= i < j < |m.checks| ==> m.checks[i].checkId != m.checks[j].checkId)
  {
    var stages := Stages(m);
    assert m.context in stages && m.proposal in stages && m.provider in stages && m.effect in stages;
    forall l ensures LinkFits(l) <==> LinkValid(l) {
      LinkExactly(l);
    }
    forall c ensures CheckFits(c) <==> CheckValid(c) {
      CheckExactly(c);
    }
    assert forall i :: 0 <= i < |m.checks| ==> m.checks[i] in m.checks;
  }

  /**
   A manifest may be constructed exactly when its fields are valid, its artifacts are those of
   the stages up to some point, a code is given for a failure and for nothing else, nothing
   ran for a task that writes nothing, and a success has a head, checks that all passed, and
   every stage if it writes.
   */
  lemma ConstructibleExactly(m: Manifest)
    ensures ManifestValid(m)
            <==> && FieldsValid(m) && (m.failureCode.Some? <==> m.status == Failed)
                 && (exists k: nat :: Reached(m, k)
                      && (!m.repositoryWrite ==> k == 0)
                      && (m.status == Succeeded && m.repositoryWrite ==> k == 4))
                 && (m.status == Succeeded ==>
                       m.headCommit.Some? && m.checks != [] && forall c :: c in m.checks ==> c.passed)
  {
    var k := if m.context.None? then 0 else if m.proposal.None? then 1 else if m.provider.None? then 2
             else if m.effect.None? then 3 else 4;
    assert StagesChained(m) ==> Reached(m, k);
    forall n: nat | Reached(m, n) ensures StagesChained(m) && (AllStages(m) <==> n == 4) && (NoStage(m) <==> n == 0) {
      assert Stages(m)[0].Some? <==> 0 < n;
      assert Stages(m)[1].Some? <==> 1 < n;
      assert Stages(m)[2].Some? <==> 2 < n;
      assert Stages(m)[3].Some? <==> 3 < n;
    }
    assert AllPassed(m.checks) <==> forall c :: c in m.checks ==> c.passed;
  }
}
