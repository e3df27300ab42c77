/**
 The JSON data model and the texts the runtime derives from it.

 Digests and formatted names are a free algebra: `Sha256` and `Joined` are
 constructors, so two derived texts are equal exactly when their contents are.
 This is the usual idealisation of a collision-free digest and of an injective
 format string. Object keys are an enumeration, with `OtherField` for every key
 that no codec of this model names.
 */
module Values {
  import opened Wrappers

  datatype Field =
    | PrincipalId | RunId | ReviewIdField | Status | Disposition | FailureCode
    | LeaseDigest | PreviousLeaseDigest | LeaseField | SchemaVersion
    | Attempt | FencingToken | WorkerId | RunEventId | RunEventDigest
    | StateDigest | ArtifactEvidenceDigest | ExpiresAt
    | ProviderRequestId | AcceptanceDigest | ContextDigest | ContextArtifactDigest
    | ProposalArtifactDigest | ProviderResultArtifactDigest | AdmittedArtifactDigest
    | FindingCount | ResultArtifactDigest
    | NodeId | WorktreeSpecDigest | BaseCommit | HeadCommit | RepositoryWrite
    | ContextArtifact | ProposalArtifact | ProviderArtifact | EffectArtifact | Checks
    | CheckId | CommandDigest | ResultDigest | Passed
    | CommandArtifact | ResultArtifact | StdoutArtifact | StderrArtifact
    | DigestField | SizeBytes | MediaType | Encoding
    | OtherField(name: string)

  /** The format strings that build identifiers and idempotency keys. */
  datatype Format =
    | ReviewName | ProviderRequestName
    | ClaimKey | RenewKey | DispatchKey | SuccessKey | FailureKey
    | RequeueKey | ReconciliationKey

  /** A timezone-aware datetime: comparisons look at the instant, the text keeps the offset. */
  datatype Time = Time(instant: int, offset: int)

  datatype Text =
    | Raw(chars: string)
    | Sha256(content: Json)
    | Iso(at: Time, spelling: nat)  // spelling 0 is what `isoformat` writes
    | Joined(format: Format, parts: seq<Text>)

  datatype Json =
    | Null
    | Bool(b: bool)
    | Int(i: int)
    | Str(t: Text)
    | Arr(items: seq<Json>)
    | Obj(fields: map<Field, Json>)

  predicate IsAlphanumeric(c: char) {
    'a' <= c <= 'z' || 'A' <= c <= 'Z' || '0' <= c <= '9'
  }

  predicate IsLowerHex(c: char) {
    'a' <= c <= 'f' || '0' <= c <= '9'
  }

  predicate AllLowerHex(s: string) {
    forall i :: 0 <= i < |s| ==> IsLowerHex(s[i])
  }

  /** `[A-Za-z0-9][A-Za-z0-9._-]{0,127}` */
  predicate IsIdentifier(t: Text) {
    match t
    case Raw(s) =>
      && 1 <= |s| <= 128
      && IsAlphanumeric(s[0])
      && forall i :: 0 <= i < |s| ==> IsAlphanumeric(s[i]) || s[i] in "._-"
    case Joined(format, _) => format == ReviewName || format == ProviderRequestName
    case _ => false
  }

  /** `sha256:[0-9a-f]{64}` */
  predicate IsDigest(t: Text) {
    match t
    case Raw(s) => |s| == 71 && s[..7] == "sha256:" && AllLowerHex(s[7..])
    case Sha256(_) => true
    case _ => false
  }

  /** `[0-9a-f]{40}` */
  predicate IsCommit(t: Text) {
    t.Raw? && |t.chars| == 40 && AllLowerHex(t.chars)
  }

  /** `[a-z0-9][a-z0-9-]{0,127}` */
  predicate IsFailureCode(t: Text) {
    && t.Raw?
    && 1 <= |t.chars| <= 128
    && t.chars[0] != '-'
    && forall i :: 0 <= i < |t.chars| ==>
         'a' <= t.chars[i] <= 'z' || '0' <= t.chars[i] <= '9' || t.chars[i] == '-'
  }

  /** The text stored under `key`, when there is one and it is a string. */
  function TextAt(fields: map<Field, Json>, key: Field): Option<Text> {
    if key in fields && fields[key].Str? then Some(fields[key].t) else None
  }

  function IntAt(fields: map<Field, Json>, key: Field): Option<int> {
    if key in fields && fields[key].Int? then Some(fields[key].i) else None
  }
}
