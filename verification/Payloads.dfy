/** Replay candidates, and the staging payload made of one and its bytes. */
module Payloads {
  import opened Wrappers
  import opened RawStorage
  import opened Staging
  import opened Instants

  datatype Metadata = Metadata(
    discoveredAt: Option<string>, missionText: Option<string>, serverId: Option<int>, world: Option<string>)

  datatype Candidate = Candidate(
    filename: string,
    metadata: Option<Metadata>,
    externalId: Option<string>,
    page: Option<nat>,
    rawUrl: Option<string>,
    url: string)

  const DEFAULT_SOURCE_SYSTEM := "sg-zone"

  function FetchUrl(c: Candidate): string {
    if c.rawUrl.Some? then c.rawUrl.value else c.url
  }

  function ToSourceReplayId(c: Candidate, checksum: Digest): ReplayId {
    if c.externalId.Some? then External(c.externalId.value) else Derived(c.url, c.filename, checksum)
  }

  function DiscoveredAt(c: Candidate): Option<string> {
    if c.metadata.Some? then c.metadata.value.discoveredAt else None
  }

  // ----- The replay timestamp -----

  const TIMESTAMP_PREFIX := 22

  /** `YYYY_MM_DD__HH_MM_SS__` at the start of the name. */
  predicate HasTimestampPrefix(name: string) {
    && |name| >= TIMESTAMP_PREFIX
    && HasDigits(name, 0, 4) && name[4] == '_' && HasDigits(name, 5, 7) && name[7] == '_' && HasDigits(name, 8, 10)
    && name[10..12] == "__"
    && HasDigits(name, 12, 14) && name[14] == '_' && HasDigits(name, 15, 17) && name[17] == '_'
    && HasDigits(name, 18, 20)
    && name[20..22] == "__"
  }

  predicate HasDigits(s: string, start: nat, end: nat) {
    start <= end <= |s| && AllDigits(s[start..end])
  }

  function ReplayTimestampFromFilename(name: string): Option<string> {
    if !HasTimestampPrefix(name) then None
    else ComponentsToUtcIso(Components(
        Value(name[0..4]), Value(name[5..7]), Value(name[8..10]),
        Value(name[12..14]), Value(name[15..17]), Some(Value(name[18..20]) as int)))
  }

  function Or<T>(a: Option<T>, b: Option<T>): Option<T> {
    if a.Some? then a else b
  }

  function ReplayTimestamp(c: Candidate): Option<string> {
    var epoch := if c.externalId.None? then None else EpochToUtcIso(c.externalId.value);
    Or(epoch, Or(ReplayTimestampFromFilename(c.filename), DiscoveredAt(c)))
  }

  // ----- The payload -----

  function PayloadOf(c: Candidate, bytes: Bytes): Payload {
    Payload(DEFAULT_SOURCE_SYSTEM, ToSourceReplayId(c, Sha256(bytes)), KeyOf(bytes), Sha256(bytes), |bytes|,
            ReplayTimestamp(c))
  }

  /** White space and line terminators, which trim strips. */
  predicate IsBlankChar(c: char) {
    var n := c as int;
    || 9 <= n <= 13 || n == 32 || n == 0xA0 || n == 0x1680 || 0x2000 <= n <= 0x200A
    || n == 0x2028 || n == 0x2029 || n == 0x202F || n == 0x205F || n == 0x3000 || n == 0xFEFF
  }

  /** Non-empty after trim. */
  predicate IsTrustworthyId(id: Option<string>) {
    id.Some? && exists i | 0 <= i < |id.value| :: !IsBlankChar(id.value[i])
  }

  /** The identity check of both watch gates. */
  predicate AlreadyKnown(rows: Table, id: Option<string>) {
    IsTrustworthyId(id) && ExistsBySourceIdentity(rows, DEFAULT_SOURCE_SYSTEM, External(id.value))
  }

  /** What passes the check is staged under the very key that was found, so it can add no row. */
  lemma KnownReplayAddsNoRow(rows: Table, c: Candidate, bytes: Bytes, id: nat)
    requires AlreadyKnown(rows, c.externalId)
    ensures SourceTaken(rows, PayloadOf(c, bytes))
    ensures TableAfterInsert(rows, PayloadOf(c, bytes), id) == rows
  {
    var i :| 0 <= i < |rows| && rows[i].payload.sourceSystem == DEFAULT_SOURCE_SYSTEM
             && rows[i].payload.sourceReplayId == External(c.externalId.value);
    assert SameSource(rows[i].payload, PayloadOf(c, bytes));
    TakenIsFound(rows, PayloadOf(c, bytes));
  }
}
