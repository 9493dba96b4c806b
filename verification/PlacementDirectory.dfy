// One Directory: its lock-protected sections as functions on the protected fields,
// and the class whose methods are proved to perform exactly those sections.
// Times are integers; 0 is the zero time. Clock readings, cancellation and store
// faults are parameters.

module PlacementDirectory {
  import opened Common
  import opened PlacementEntries
  import Names

  // SHA-256 is collision free here: a digest is its preimage under a constructor.
  // Malformed stands for any text that is not 64 lower-case hex digits.
  datatype Digest = Empty | Sha256(raw: Bytes) | Malformed(text: string)

  datatype Key = Key(public: Bytes, notBefore: int, notAfter: int)

  datatype Snapshot = Snapshot(
    schemaVersion: int, directoryId: string, issuer: string, audience: string,
    environmentId: string, keyId: string, version: int,
    issuedAt: int, expiresAt: int, entries: seq<Entry>)

  datatype Checkpoint = Checkpoint(version: int, digest: Digest, entries: seq<Entry>)

  datatype Options = Options(
    directoryId: string, issuer: string, audience: string, environmentId: string,
    keys: map<string, Key>, regions: set<string>,
    maxBytes: nat, maxEntries: nat, maxLifetime: int)

  // What separates a placement signature from one made for another protocol: the bytes
  // of greeto-placement-snapshot/v1 and a zero.
  const DOMAIN: Bytes := [
    103, 114, 101, 101, 116, 111, 45, 112, 108, 97, 99, 101, 109, 101, 110, 116,
    45, 115, 110, 97, 112, 115, 104, 111, 116, 47, 118, 49, 0]

  // Ed25519 on key, message and signature, and the strict decoder.
  datatype Trust = Trust(
    signed: (Bytes, Bytes, Bytes) -> bool,
    decode: Bytes -> Option<Snapshot>)

  datatype Request = Request(keyId: string, payload: Bytes, signature: Bytes)

  // An authenticated, validated candidate waiting for its checkpoint.
  datatype Candidate = Candidate(key: Key, snapshot: Snapshot, raw: Bytes, entries: map<Identity, Entry>)

  datatype Active = Active(document: Snapshot, digest: Digest, entries: map<Identity, Entry>)

  datatype Binding = Binding(entry: Entry, version: int, digest: Digest, expiresAt: int)

  datatype Status = Status(ready: bool, reason: string, version: int, expiresAt: int)

  // The fields guarded by Directory.mu.
  datatype State = State(active: Option<Active>, revoked: set<string>, lastClock: int)

  const Fresh: State := State(None, {}, 0)

  function RulesOf(o: Options): EntryRules {
    EntryRules(o.environmentId, o.regions, o.maxEntries)
  }

  // clockLocked: a reading is refused when it is zero or goes back.
  function Clock(st: State, reading: int): (State, Option<int>) {
    if reading == 0 || (st.lastClock != 0 && reading < st.lastClock) then (st, None)
    else (st.(lastClock := reading), Some(reading))
  }

  predicate KeyLive(key: Key, now: int) {
    key.notBefore <= now < key.notAfter
  }

  function StatusAt(o: Options, st: State, reading: int): (State, Status) {
    var (st1, now) := Clock(st, reading);
    if now.None? then (st1, Status(false, "placement_clock_invalid", 0, 0))
    else if st1.active.None? then (st1, Status(false, "placement_not_loaded", 0, 0))
    else
      var s := st1.active.value.document;
      if s.keyId !in o.keys || s.keyId in st1.revoked || !KeyLive(o.keys[s.keyId], now.value) then
        (st1, Status(false, "placement_key_unavailable", s.version, s.expiresAt))
      else if now.value < s.issuedAt || now.value >= s.expiresAt then
        (st1, Status(false, "placement_expired", s.version, s.expiresAt))
      else (st1, Status(true, "verified_snapshot_only", s.version, s.expiresAt))
  }

  // The clock has moved to this reading.
  predicate Forward(last: int, reading: int) { reading != 0 && (last == 0 || last <= reading) }

  // Ready exactly on a reading that moves the clock forward to a time when the loaded
  // snapshot and its key are in force; the reason tells which of them is not.
  lemma StatusIsExact(o: Options, st: State, reading: int)
    ensures
      var (st1, status) := StatusAt(o, st, reading);
      && st1 == (if Forward(st.lastClock, reading) then st.(lastClock := reading) else st)
      && (status.reason == "placement_clock_invalid" <==> !Forward(st.lastClock, reading))
      && (status.reason == "placement_not_loaded" <==> Forward(st.lastClock, reading) && st.active.None?)
      && (Forward(st.lastClock, reading) && st.active.Some? ==>
          var doc := st.active.value.document;
          var live := doc.keyId in o.keys && doc.keyId !in st.revoked
            && o.keys[doc.keyId].notBefore <= reading < o.keys[doc.keyId].notAfter;
          && status.version == doc.version && status.expiresAt == doc.expiresAt
          && (status.reason == "placement_key_unavailable" <==> !live)
          && (status.reason == "placement_expired" <==> live && !(doc.issuedAt <= reading < doc.expiresAt))
          && (status.ready <==> live && doc.issuedAt <= reading < doc.expiresAt))
      && (!Forward(st.lastClock, reading) || st.active.None? ==> !status.ready)
  {
  }

  function ResolveAt(o: Options, st: State, reading: int, id: Identity): (State, Result<Binding>) {
    if !Names.Token(id.provider) || !Names.Token(id.appRef) || !Names.Token(id.assetId) then
      (st, Err("placement_unavailable"))
    else
      var (st1, status) := StatusAt(o, st, reading);
      if !status.ready then (st1, Err(status.reason))
      else
        var a := st1.active.value;
        if id !in a.entries || a.entries[id].state != "active" then (st1, Err("placement_unavailable"))
        else (st1, Ok(Binding(a.entries[id], a.document.version, a.digest, a.document.expiresAt)))
  }

  function Revoke(o: Options, st: State, keyId: string): (State, Result<()>) {
    if keyId !in o.keys then (st, Err("placement_key_unavailable"))
    else
      var active := if st.active.Some? && st.active.value.document.keyId == keyId then None else st.active;
      (st.(revoked := st.revoked + {keyId}, active := active), Ok(()))
  }

  // Install up to the store: bounds, one lock section for clock and key, then the
  // checks that need no state.
  predicate Bounded(o: Options, r: Request) {
    Names.Token(r.keyId) && 0 < |r.payload| <= o.maxBytes && |r.signature| == 64
  }

  predicate InScope(o: Options, keyId: string, s: Snapshot) {
    && s.schemaVersion == 1 && s.directoryId == o.directoryId && s.issuer == o.issuer
    && s.audience == o.audience && s.environmentId == o.environmentId && s.keyId == keyId
    && 1 <= s.version <= MAX_SAFE_INTEGER
  }

  predicate Valid(o: Options, key: Key, now: int, s: Snapshot) {
    && s.issuedAt != 0 && s.issuedAt <= now < s.expiresAt && s.issuedAt < s.expiresAt
    && s.expiresAt - s.issuedAt <= o.maxLifetime
    && key.notBefore <= s.issuedAt && s.expiresAt <= key.notAfter
  }

  ghost function Authenticate(o: Options, t: Trust, r: Request, key: Key, now: int): Result<Candidate> {
    if !t.signed(key.public, DOMAIN + r.payload, r.signature) then Err("placement_signature_rejected")
    else if t.decode(r.payload).None? then Err("placement_schema_invalid")
    else
      var s := t.decode(r.payload).value;
      if !InScope(o, r.keyId, s) then Err("placement_scope_invalid")
      else if !Valid(o, key, now, s) then Err("placement_validity_invalid")
      else
        var fault := EntriesFault(RulesOf(o), s.entries);
        if fault.Some? then Err(fault.value) else Ok(Candidate(key, s, r.payload, Index(s.entries)))
  }

  ghost function Begin(o: Options, t: Trust, st: State, r: Request, reading: int): (State, Result<Candidate>) {
    if !Bounded(o, r) then (st, Err("placement_bounds_invalid"))
    else
      var (st1, now) := Clock(st, reading);
      if now.None? then (st1, Err("placement_clock_invalid"))
      else if r.keyId !in o.keys || r.keyId in st1.revoked || !KeyLive(o.keys[r.keyId], now.value) then
        (st1, Err("placement_key_unavailable"))
      else (st1, Authenticate(o, t, r, o.keys[r.keyId], now.value))
  }

  // A signature under one of the directory's own keys, over these very bytes.
  ghost predicate SignedBy(o: Options, t: Trust, keyId: string, raw: Bytes) {
    keyId in o.keys && exists signature :: t.signed(o.keys[keyId].public, DOMAIN + raw, signature)
  }

  // What the configuration demands of a document and of the bytes it is decoded from.
  ghost predicate Genuine(o: Options, t: Trust, raw: Bytes, doc: Snapshot) {
    && t.decode(raw) == Some(doc) && SignedBy(o, t, doc.keyId, raw)
    && doc.schemaVersion == 1 && doc.directoryId == o.directoryId && doc.issuer == o.issuer
    && doc.audience == o.audience && doc.environmentId == o.environmentId
    && 1 <= doc.version <= MAX_SAFE_INTEGER
    && doc.issuedAt != 0 && doc.issuedAt < doc.expiresAt <= doc.issuedAt + o.maxLifetime
    && o.keys[doc.keyId].notBefore <= doc.issuedAt && doc.expiresAt <= o.keys[doc.keyId].notAfter
    && WellFormed(RulesOf(o), doc.entries)
  }

  // A request this directory takes at this moment.
  ghost predicate Offered(o: Options, t: Trust, st: State, r: Request, reading: int) {
    && Names.Token(r.keyId) && 0 < |r.payload| <= o.maxBytes && |r.signature| == 64
    && Forward(st.lastClock, reading)
    && r.keyId in o.keys && r.keyId !in st.revoked
    && o.keys[r.keyId].notBefore <= reading < o.keys[r.keyId].notAfter
    && t.signed(o.keys[r.keyId].public, DOMAIN + r.payload, r.signature)
    && t.decode(r.payload).Some?
    && var doc := t.decode(r.payload).value;
       doc.keyId == r.keyId && Genuine(o, t, r.payload, doc) && doc.issuedAt <= reading < doc.expiresAt
  }

  // A request passes to the store exactly when it is offered, as what its bytes decode to.
  lemma BeginMeans(o: Options, t: Trust, st: State, r: Request, reading: int)
    ensures
      var (st1, c) := Begin(o, t, st, r, reading);
      && (c.Ok? <==> Offered(o, t, st, r, reading))
      && (c.Ok? ==>
          && st1 == st.(lastClock := reading)
          && c.value.raw == r.payload && t.decode(r.payload) == Some(c.value.snapshot)
          && c.value.key == o.keys[r.keyId] && c.value.entries == Index(c.value.snapshot.entries))
  {
    if t.decode(r.payload).Some? { EntriesFaultMeans(RulesOf(o), t.decode(r.payload).value.entries); }
  }

  ghost predicate CheckpointValid(o: Options, c: Checkpoint) {
    || c == Checkpoint(0, Empty, [])
    || (1 <= c.version <= MAX_SAFE_INTEGER && c.digest.Sha256? && WellFormed(RulesOf(o), c.entries))
  }

  // The checks right after Load; a failing one may drop the cached snapshot.
  ghost function Vet(o: Options, st: State, c: Candidate, previous: Checkpoint): (State, Result<()>) {
    if !CheckpointValid(o, previous) then (st.(active := None), Err("placement_checkpoint_corrupt"))
    else if previous.version > c.snapshot.version
      || (previous.version == c.snapshot.version && previous.digest != Sha256(c.raw)) then
      (st, Err("placement_rollback_rejected"))
    else if Regressed(st, previous) then (st.(active := None), Err("placement_checkpoint_regressed"))
    else (st, Ok(()))
  }

  predicate Regressed(st: State, previous: Checkpoint) {
    st.active.Some?
    && var a := st.active.value;
       previous.version < a.document.version || (previous.version == a.document.version && previous.digest != a.digest)
  }

  // The entry comparison after it; Ok carries whether a write is needed.
  ghost function Compare(st: State, c: Candidate, previous: Checkpoint): (State, Result<bool>) {
    if previous.version == c.snapshot.version && Index(previous.entries) != c.entries then
      (st.(active := None), Err("placement_checkpoint_corrupt"))
    else
      var fault := EpochsFault(previous.entries, c.entries);
      (st, if fault.Some? then Err(fault.value) else Ok(previous.version != c.snapshot.version))
  }

  function NextCheckpoint(c: Candidate): Checkpoint {
    Checkpoint(c.snapshot.version, Sha256(c.raw), c.snapshot.entries)
  }

  // The second lock section, after the checkpoint is durable.
  function Activate(st: State, c: Candidate, reading: int, cancelled: bool): (State, Result<()>) {
    if c.snapshot.keyId in st.revoked then (st.(active := None), Err("placement_key_unavailable"))
    else
      var (st1, now) := Clock(st, reading);
      if now.None? then (st1.(active := None), Err("placement_clock_invalid"))
      else if cancelled then (st1.(active := None), Err("context"))
      else if now.value >= c.snapshot.expiresAt || now.value >= c.key.notAfter then
        (st1.(active := None), Err("placement_expired_during_install"))
      else (st1.(active := Some(Active(c.snapshot, Sha256(c.raw), c.entries))), Ok(()))
  }

  // Install from end to end with nothing interleaved: the fields, the checkpoint
  // history and the error it returns, if any.
  datatype Installed = Installed(st: State, history: seq<Checkpoint>, result: Result<()>)

  ghost function InstallAll(o: Options, t: Trust, st: State, history: seq<Checkpoint>, r: Request,
      first: int, loadFails: bool, fault: Fault, second: int, cancelled: bool): Installed
    requires history != []
  {
    var (st1, c) := Begin(o, t, st, r, first);
    if c.Err? then Installed(st1, history, Err(c.error))
    else if loadFails then Installed(st1, history, Err("placement_checkpoint_unavailable"))
    else InstallLoaded(o, st1, history, c.value, fault, second, cancelled)
  }

  ghost function InstallLoaded(o: Options, st: State, history: seq<Checkpoint>, c: Candidate,
      fault: Fault, second: int, cancelled: bool): Installed
    requires history != []
  {
    var (st1, vetted) := Vet(o, st, c, Last(history));
    if vetted.Err? then Installed(st1, history, vetted)
    else
      var (st2, write) := Compare(st1, c, Last(history));
      if write.Err? then Installed(st2, history, Err(write.error))
      else CommitAndActivate(st2, history, c, write.value, fault, second, cancelled)
  }

  function CommitAndActivate(st: State, history: seq<Checkpoint>, c: Candidate, write: bool, fault: Fault,
      second: int, cancelled: bool): Installed
  {
    var written := if write && fault != LostWrite then history + [NextCheckpoint(c)] else history;
    if write && fault != NoFault then
      Installed(st.(active := None), written, Err("placement_checkpoint_unconfirmed"))
    else
      var (st1, res) := Activate(st, c, second, cancelled);
      Installed(st1, written, res)
  }

  // Success means that these bytes are the newest durable checkpoint and the visible
  // snapshot; the store takes at most one write, which advances version and epochs; and
  // a write that was durable but not acknowledged is a failure with nothing cached.
  ghost predicate SoundInstall(t: Trust, st: State, history: seq<Checkpoint>, r: Request, fault: Fault, all: Installed)
    requires history != []
  {
    var s := t.decode(r.payload);
    && all.history != [] && all.st.revoked == st.revoked
    && (all.result.Ok? ==>
        && s.Some? && all.st.active == Some(Active(s.value, Sha256(r.payload), Index(s.value.entries)))
        && Last(all.history).version == s.value.version && Last(all.history).digest == Sha256(r.payload))
    && (all.history != history ==>
        && s.Some? && all.history == history + [Checkpoint(s.value.version, Sha256(r.payload), s.value.entries)]
        && Last(history).version < s.value.version && EpochsAdvance(Last(history).entries, Index(s.value.entries))
        && (fault != NoFault ==> !all.result.Ok? && all.st.active == None))
  }

  lemma InstallIsSound(o: Options, t: Trust, st: State, history: seq<Checkpoint>, r: Request,
      first: int, loadFails: bool, fault: Fault, second: int, cancelled: bool)
    requires history != []
    ensures SoundInstall(t, st, history, r, fault,
      InstallAll(o, t, st, history, r, first, loadFails, fault, second, cancelled))
  {
    var (st1, c) := Begin(o, t, st, r, first);
    if c.Ok? && !loadFails {
      BeginMeans(o, t, st, r, first);
      LoadedIsSound(o, t, st1, history, r, c.value, fault, second, cancelled);
    }
  }

  lemma LoadedIsSound(o: Options, t: Trust, st: State, history: seq<Checkpoint>, r: Request, c: Candidate,
      fault: Fault, second: int, cancelled: bool)
    requires history != [] && c.raw == r.payload && t.decode(c.raw) == Some(c.snapshot)
    requires c.entries == Index(c.snapshot.entries)
    ensures SoundInstall(t, st, history, r, fault, InstallLoaded(o, st, history, c, fault, second, cancelled))
  {
    var previous := Last(history);
    ChecksMean(o, st, c, previous);
    if Vet(o, st, c, previous).1.Ok? && Compare(st, c, previous).1.Ok? {
      CommitMeans(st, history, c, Compare(st, c, previous).1.value, fault, second, cancelled);
    }
  }

  // Nothing is written or made visible without a signature under the directory's own key
  // of that name, over these bytes and for this purpose.
  lemma OnlySignedIsInstalled(o: Options, t: Trust, st: State, history: seq<Checkpoint>, r: Request,
      first: int, loadFails: bool, fault: Fault, second: int, cancelled: bool)
    requires history != []
    ensures
      var all := InstallAll(o, t, st, history, r, first, loadFails, fault, second, cancelled);
      all.result.Ok? || all.history != history || (all.st.active.Some? && all.st.active != st.active) ==>
        && r.keyId in o.keys && t.signed(o.keys[r.keyId].public, DOMAIN + r.payload, r.signature)
        && t.decode(r.payload).Some? && Genuine(o, t, r.payload, t.decode(r.payload).value)
        && t.decode(r.payload).value.keyId == r.keyId
  {
    BeginMeans(o, t, st, r, first);
  }

  // A refusal names its cause: the request, the document, its list,
  ghost predicate OfferFault(o: Options, t: Trust, st: State, r: Request, first: int, code: string) {
    || (code == "placement_bounds_invalid"
        && (!Names.Token(r.keyId) || |r.payload| == 0 || |r.payload| > o.maxBytes || |r.signature| != 64))
    || (code == "placement_clock_invalid" && !Forward(st.lastClock, first))
    || (code == "placement_key_unavailable"
        && (r.keyId !in o.keys || r.keyId in st.revoked
            || first < o.keys[r.keyId].notBefore || first >= o.keys[r.keyId].notAfter))
    || (code == "placement_signature_rejected" && r.keyId in o.keys
        && !t.signed(o.keys[r.keyId].public, DOMAIN + r.payload, r.signature))
    || (code == "placement_schema_invalid" && t.decode(r.payload).None?)
    || (t.decode(r.payload).Some? && r.keyId in o.keys
        && DocumentFault(o, r.keyId, first, t.decode(r.payload).value, code))
  }

  ghost predicate DocumentFault(o: Options, keyId: string, first: int, doc: Snapshot, code: string)
    requires keyId in o.keys
  {
    || (code == "placement_scope_invalid"
        && (doc.schemaVersion != 1 || doc.directoryId != o.directoryId || doc.issuer != o.issuer
            || doc.audience != o.audience || doc.environmentId != o.environmentId || doc.keyId != keyId
            || doc.version < 1 || doc.version > MAX_SAFE_INTEGER))
    || (code == "placement_validity_invalid"
        && (doc.issuedAt == 0 || doc.issuedAt > first || doc.expiresAt <= first
            || doc.expiresAt - doc.issuedAt > o.maxLifetime
            || doc.issuedAt < o.keys[keyId].notBefore || doc.expiresAt > o.keys[keyId].notAfter))
    || Some(code) == EntriesFault(RulesOf(o), doc.entries)
  }

  // or what the store holds and how the write and the second reading went.
  ghost predicate StoreFault(o: Options, st: State, c: Candidate, previous: Checkpoint, fault: Fault, second: int,
      cancelled: bool, code: string)
  {
    || (code == "placement_checkpoint_corrupt"
        && (!CheckpointValid(o, previous)
            || (previous.version == c.snapshot.version && Index(previous.entries) != c.entries)))
    || (code == "placement_rollback_rejected"
        && (previous.version > c.snapshot.version
            || (previous.version == c.snapshot.version && previous.digest != Sha256(c.raw))))
    || (code == "placement_checkpoint_regressed" && Regressed(st, previous))
    || Some(code) == EpochsFault(previous.entries, c.entries)
    || (code == "placement_checkpoint_unconfirmed" && fault != NoFault)
    || (code == "placement_clock_invalid" && !Forward(st.lastClock, second))
    || (code == "context" && cancelled)
    || (code == "placement_expired_during_install" && (second >= c.snapshot.expiresAt || second >= c.key.notAfter))
  }

  lemma RefusalNamesItsCause(o: Options, t: Trust, st: State, history: seq<Checkpoint>, r: Request,
      first: int, loadFails: bool, fault: Fault, second: int, cancelled: bool)
    requires history != []
    ensures
      var (st1, c) := Begin(o, t, st, r, first);
      var res := InstallAll(o, t, st, history, r, first, loadFails, fault, second, cancelled).result;
      && (c.Err? ==> res.Err? && OfferFault(o, t, st, r, first, res.error))
      && (c.Ok? && loadFails ==> res == Err("placement_checkpoint_unavailable"))
      && (c.Ok? && !loadFails && res.Err? ==>
        StoreFault(o, st1, c.value, Last(history), fault, second, cancelled, res.error))
  {
    var (st1, c) := Begin(o, t, st, r, first);
    BeginMeans(o, t, st, r, first);
    if c.Ok? { LoadedNamesItsCause(o, st1, history, c.value, fault, second, cancelled); }
  }

  lemma LoadedNamesItsCause(o: Options, st: State, history: seq<Checkpoint>, c: Candidate,
      fault: Fault, second: int, cancelled: bool)
    requires history != [] && c.snapshot.keyId !in st.revoked
    ensures
      var res := InstallLoaded(o, st, history, c, fault, second, cancelled).result;
      res.Err? ==> StoreFault(o, st, c, Last(history), fault, second, cancelled, res.error)
  {
    var previous := Last(history);
    ChecksMean(o, st, c, previous);
    if Vet(o, st, c, previous).1.Ok? && Compare(st, c, previous).1.Ok? {
      CommitNamesItsCause(o, st, history, c, Compare(st, c, previous).1.value, fault, second, cancelled);
    }
  }

  lemma CommitNamesItsCause(o: Options, st: State, history: seq<Checkpoint>, c: Candidate, write: bool, fault: Fault,
      second: int, cancelled: bool)
    requires history != [] && c.snapshot.keyId !in st.revoked
    ensures
      var res := CommitAndActivate(st, history, c, write, fault, second, cancelled).result;
      res.Err? ==> StoreFault(o, st, c, Last(history), fault, second, cancelled, res.error)
  {
  }

  // What an accepted document finds in the store: a sound record that it does not fall
  // behind, and a live snapshot that the record does not fall behind.
  ghost predicate Fits(o: Options, st: State, raw: Bytes, doc: Snapshot, previous: Checkpoint) {
    && (previous == Checkpoint(0, Empty, [])
        || (1 <= previous.version <= MAX_SAFE_INTEGER && previous.digest.Sha256?
            && WellFormed(RulesOf(o), previous.entries)))
    && previous.version <= doc.version && EpochsAdvance(previous.entries, Index(doc.entries))
    && (previous.version == doc.version ==>
        previous.digest == Sha256(raw) && Index(previous.entries) == Index(doc.entries))
    && (st.active.Some? ==>
        var live := st.active.value;
        live.document.version < previous.version
        || (live.document.version == previous.version && live.digest == previous.digest))
  }

  // Exactly when an install succeeds: the request is offered, its document fits what the
  // store holds, the write it needs is acknowledged, and the document is still in force
  // at the second reading.
  lemma InstallSucceedsIff(o: Options, t: Trust, st: State, history: seq<Checkpoint>, r: Request,
      first: int, loadFails: bool, fault: Fault, second: int, cancelled: bool)
    requires history != []
    ensures InstallAll(o, t, st, history, r, first, loadFails, fault, second, cancelled).result.Ok? <==>
      && Offered(o, t, st, r, first) && !loadFails
      && var doc := t.decode(r.payload).value;
         && Fits(o, st, r.payload, doc, Last(history))
         && (Last(history).version == doc.version || fault == NoFault)
         && second != 0 && first <= second < doc.expiresAt && !cancelled
  {
    var (st1, c) := Begin(o, t, st, r, first);
    BeginMeans(o, t, st, r, first);
    if c.Ok? && !loadFails { LoadedSucceedsIff(o, t, st1, history, c.value, fault, second, cancelled); }
  }

  lemma LoadedSucceedsIff(o: Options, t: Trust, st: State, history: seq<Checkpoint>, c: Candidate,
      fault: Fault, second: int, cancelled: bool)
    requires history != [] && st.lastClock != 0 && c.snapshot.keyId !in st.revoked
    requires c.entries == Index(c.snapshot.entries) && c.snapshot.expiresAt <= c.key.notAfter
    ensures InstallLoaded(o, st, history, c, fault, second, cancelled).result.Ok? <==>
      && Fits(o, st, c.raw, c.snapshot, Last(history))
      && (Last(history).version == c.snapshot.version || fault == NoFault)
      && second != 0 && st.lastClock <= second < c.snapshot.expiresAt && !cancelled
  {
    EpochsFaultMeans(Last(history).entries, c.entries);
  }

  // The checks between Load and the write: each changes at most the cached snapshot, and
  // passing both orders the candidate behind the checkpoint.
  lemma ChecksMean(o: Options, st: State, c: Candidate, previous: Checkpoint)
    ensures Vet(o, st, c, previous).0 in {st, st.(active := None)}
    ensures Compare(st, c, previous).0 in {st, st.(active := None)}
    ensures Vet(o, st, c, previous).1.Ok? ==>
      && Vet(o, st, c, previous).0 == st && previous.version <= c.snapshot.version
      && (previous.version == c.snapshot.version ==> previous.digest == Sha256(c.raw))
    ensures Compare(st, c, previous).1.Ok? ==>
      && Compare(st, c, previous) == (st, Ok(previous.version != c.snapshot.version))
      && EpochsAdvance(previous.entries, c.entries)
  {
    EpochsFaultMeans(previous.entries, c.entries);
  }

  lemma CommitMeans(st: State, history: seq<Checkpoint>, c: Candidate, write: bool, fault: Fault, second: int,
      cancelled: bool)
    ensures
      var all := CommitAndActivate(st, history, c, write, fault, second, cancelled);
      && all.st.revoked == st.revoked
      && all.history == (if write && fault != LostWrite then history + [NextCheckpoint(c)] else history)
      && (all.result.Ok? ==>
          && all.st.active == Some(Active(c.snapshot, Sha256(c.raw), c.entries)) && (write ==> fault == NoFault))
      && (all.result.Err? ==> all.st.active == None)
  {
  }

  // The candidate itself is turned away: by its own checks, an unavailable store, the
  // version rule or the epoch rule, over a checkpoint that is sound.
  ghost predicate TurnedAway(o: Options, st: State, c: Result<Candidate>, loadFails: bool, previous: Checkpoint) {
    || c.Err? || loadFails
    || (CheckpointValid(o, previous)
        && var s := c.value;
           || previous.version > s.snapshot.version
           || (previous.version == s.snapshot.version && previous.digest != Sha256(s.raw))
           || (!Regressed(st, previous)
             && (previous.version == s.snapshot.version ==> Index(previous.entries) == s.entries)
               && !EpochsAdvance(previous.entries, s.entries)))
  }

  // A failed install leaves a live snapshot alone exactly when the candidate was turned
  // away; any doubt about the checkpoint or the activation drops it.
  lemma FailedInstallKeepsOrDrops(o: Options, t: Trust, st: State, history: seq<Checkpoint>, r: Request,
      first: int, loadFails: bool, fault: Fault, second: int, cancelled: bool)
    requires history != []
    ensures
      var (st1, c) := Begin(o, t, st, r, first);
      var all := InstallAll(o, t, st, history, r, first, loadFails, fault, second, cancelled);
      var away := TurnedAway(o, st1, c, loadFails, Last(history));
      && (away ==> !all.result.Ok? && all.history == history && all.st.active == st.active)
      && (!away && !all.result.Ok? ==> all.st.active == None)
  {
    var (st1, c) := Begin(o, t, st, r, first);
    if c.Ok? && !loadFails { LoadedKeepsOrDrops(o, st1, history, c.value, fault, second, cancelled); }
  }

  lemma LoadedKeepsOrDrops(o: Options, st: State, history: seq<Checkpoint>, c: Candidate,
      fault: Fault, second: int, cancelled: bool)
    requires history != []
    ensures
      var all := InstallLoaded(o, st, history, c, fault, second, cancelled);
      var away := TurnedAway(o, st, Ok(c), false, Last(history));
      && (away ==> all.result.Err? && all.history == history && all.st.active == st.active)
      && (!away && all.result.Err? ==> all.st.active == None)
  {
    var previous := Last(history);
    EpochsFaultMeans(previous.entries, c.entries);
    if Vet(o, st, c, previous).1.Ok? && Compare(st, c, previous).1.Ok? {
      CommitMeans(st, history, c, Compare(st, c, previous).1.value, fault, second, cancelled);
    }
  }

  // The checkpoint port: compare-and-swap on (version, digest), and a history that
  // only grows.
  class Checkpoints {
    var history: seq<Checkpoint>

    ghost predicate Valid() reads this { history != [] }

    constructor (provisioned: Checkpoint)
      ensures history == [provisioned]
    {
      history := [provisioned];
    }

    method Load(fails: bool) returns (r: Result<Checkpoint>)
      requires Valid()
      ensures r == if fails then Err("unavailable") else Ok(Last(history))
    {
      r := if fails then Err("unavailable") else Ok(Last(history));
    }

    method CompareAndSwap(version: int, digest: Digest, next: Checkpoint, fault: Fault) returns (r: Result<bool>)
      requires Valid()
      modifies this
      ensures Valid()
      ensures var matches := Last(old(history)).version == version && Last(old(history)).digest == digest;
        && history == (if matches && fault != LostWrite then old(history) + [next] else old(history))
        && r == if fault != NoFault then Err("uncertain") else Ok(matches)
    {
      var matches := Last(history).version == version && Last(history).digest == digest;
      if matches && fault != LostWrite { history := history + [next]; }
      r := if fault != NoFault then Err("uncertain") else Ok(matches);
    }
  }

  class Directory {
    const options: Options
    const trust: Trust
    var active: Option<Active>
    var revoked: set<string>
    var lastClock: int

    ghost function Fields(): State reads this { State(active, revoked, lastClock) }

    constructor (options: Options, trust: Trust)
      ensures this.options == options && this.trust == trust && Fields() == Fresh
    {
      this.options, this.trust := options, trust;
      active, revoked, lastClock := None, {}, 0;
    }

    method ClockLocked(reading: int) returns (now: Option<int>)
      modifies `lastClock
      ensures (Fields(), now) == Clock(old(Fields()), reading)
    {
      if reading == 0 || (lastClock != 0 && reading < lastClock) {
        return None;
      }
      lastClock := reading;
      return Some(reading);
    }

    method StatusLocked(reading: int) returns (status: Status)
      modifies `lastClock
      ensures (Fields(), status) == StatusAt(options, old(Fields()), reading)
    {
      var now := ClockLocked(reading);
      if now.None? {
        return Status(false, "placement_clock_invalid", 0, 0);
      }
      if active.None? {
        return Status(false, "placement_not_loaded", 0, 0);
      }
      var s := active.value.document;
      status := Status(true, "verified_snapshot_only", s.version, s.expiresAt);
      if s.keyId !in options.keys || s.keyId in revoked || !KeyLive(options.keys[s.keyId], now.value) {
        status := status.(ready := false, reason := "placement_key_unavailable");
      } else if now.value < s.issuedAt || now.value >= s.expiresAt {
        status := status.(ready := false, reason := "placement_expired");
      }
    }

    method Resolve(reading: int, id: Identity) returns (r: Result<Binding>)
      modifies `lastClock
      ensures (Fields(), r) == ResolveAt(options, old(Fields()), reading, id)
    {
      if !Names.Token(id.provider) || !Names.Token(id.appRef) || !Names.Token(id.assetId) {
        return Err("placement_unavailable");
      }
      var status := StatusLocked(reading);
      if !status.ready {
        return Err(status.reason);
      }
      var a := active.value;
      if id !in a.entries || a.entries[id].state != "active" {
        return Err("placement_unavailable");
      }
      return Ok(Binding(a.entries[id], a.document.version, a.digest, a.document.expiresAt));
    }

    method RevokeKey(keyId: string) returns (r: Result<()>)
      modifies `active, `revoked
      ensures (Fields(), r) == Revoke(options, old(Fields()), keyId)
    {
      if keyId !in options.keys {
        return Err("placement_key_unavailable");
      }
      revoked := revoked + {keyId};
      if active.Some? && active.value.document.keyId == keyId {
        active := None;
      }
      return Ok(());
    }

    // The part of Install before the store is read.
    method InstallBegin(r: Request, reading: int) returns (res: Result<Candidate>)
      modifies `lastClock
      ensures (Fields(), res) == Begin(options, trust, old(Fields()), r, reading)
    {
      if !Bounded(options, r) {
        return Err("placement_bounds_invalid");
      }
      var now := ClockLocked(reading);
      if now.None? {
        return Err("placement_clock_invalid");
      }
      if r.keyId !in options.keys || r.keyId in revoked || !KeyLive(options.keys[r.keyId], now.value) {
        return Err("placement_key_unavailable");
      }
      var key := options.keys[r.keyId];
      if !trust.signed(key.public, DOMAIN + r.payload, r.signature) {
        return Err("placement_signature_rejected");
      }
      var decoded := trust.decode(r.payload);
      if decoded.None? {
        return Err("placement_schema_invalid");
      }
      var s := decoded.value;
      if !InScope(options, r.keyId, s) {
        return Err("placement_scope_invalid");
      }
      if !Valid(options, key, now.value, s) {
        return Err("placement_validity_invalid");
      }
      var entries := ValidateEntries(RulesOf(options), s.entries);
      if entries.Err? {
        return Err(entries.error);
      }
      return Ok(Candidate(key, s, r.payload, entries.value));
    }

    method ValidateCheckpoint(c: Checkpoint) returns (ok: bool)
      ensures ok <==> CheckpointValid(options, c)
    {
      if c.version == 0 && c.digest == Empty && |c.entries| == 0 {
        return true;
      }
      if c.version < 1 || c.version > MAX_SAFE_INTEGER || !c.digest.Sha256? {
        return false;
      }
      var entries := ValidateEntries(RulesOf(options), c.entries);
      return entries.Ok?;
    }

    method InstallVet(c: Candidate, previous: Checkpoint) returns (r: Result<()>)
      modifies `active
      ensures (Fields(), r) == Vet(options, old(Fields()), c, previous)
    {
      var ok := ValidateCheckpoint(previous);
      if !ok {
        active := None;
        return Err("placement_checkpoint_corrupt");
      }
      if previous.version > c.snapshot.version
        || (previous.version == c.snapshot.version && previous.digest != Sha256(c.raw))
      {
        return Err("placement_rollback_rejected");
      }
      if active.Some? && (previous.version < active.value.document.version ||
          (previous.version == active.value.document.version && previous.digest != active.value.digest)) {
        active := None;
        return Err("placement_checkpoint_regressed");
      }
      return Ok(());
    }

    // previous has passed ValidateCheckpoint, so it lists no asset twice.
    method InstallCompare(c: Candidate, previous: Checkpoint) returns (r: Result<bool>)
      requires Distinct(previous.entries)
      modifies `active
      ensures (Fields(), r) == Compare(old(Fields()), c, previous)
    {
      if previous.version == c.snapshot.version {
        var same := SameEntries(previous.entries, c.entries);
        if !same {
          active := None;
          return Err("placement_checkpoint_corrupt");
        }
      }
      var fault := ValidateEpochs(previous.entries, c.entries);
      if fault.Some? {
        return Err(fault.value);
      }
      return Ok(previous.version != c.snapshot.version);
    }

    method InstallActivate(c: Candidate, reading: int, cancelled: bool) returns (r: Result<()>)
      modifies `active, `lastClock
      ensures (Fields(), r) == Activate(old(Fields()), c, reading, cancelled)
    {
      if c.snapshot.keyId in revoked {
        active := None;
        return Err("placement_key_unavailable");
      }
      var now := ClockLocked(reading);
      if now.None? {
        active := None;
        return Err("placement_clock_invalid");
      }
      if cancelled {
        active := None;
        return Err("context");
      }
      if now.value >= c.snapshot.expiresAt || now.value >= c.key.notAfter {
        active := None;
        return Err("placement_expired_during_install");
      }
      active := Some(Active(c.snapshot, Sha256(c.raw), c.entries));
      return Ok(());
    }

    method Install(store: Checkpoints, r: Request, first: int, loadFails: bool, fault: Fault, second: int,
        cancelled: bool)
      returns (res: Result<()>)
      requires store.Valid()
      modifies this, store
      ensures store.Valid()
      ensures Installed(Fields(), store.history, res) ==
        InstallAll(options, trust, old(Fields()), old(store.history), r, first, loadFails, fault, second, cancelled)
    {
      var c := InstallBegin(r, first);
      if c.Err? {
        return Err(c.error);
      }
      var previous := store.Load(loadFails);
      if previous.Err? {
        return Err("placement_checkpoint_unavailable");
      }
      var vetted := InstallVet(c.value, previous.value);
      if vetted.Err? {
        return vetted;
      }
      var write := InstallCompare(c.value, previous.value);
      if write.Err? {
        return Err(write.error);
      }
      if write.value {
        var committed := store.CompareAndSwap(previous.value.version, previous.value.digest,
          NextCheckpoint(c.value), fault);
        if committed.Err? || !committed.value {
          active := None;
          return Err("placement_checkpoint_unconfirmed");
        }
      }
      res := InstallActivate(c.value, second, cancelled);
    }
  }

  // After a write that was durable but reported as uncertain, the same bytes pass
  // every checkpoint check and ask for no second write.
  lemma ReinstallAfterUncertainWrite(o: Options, t: Trust, st: State, r: Request, reading: int)
    requires Begin(o, t, st, r, reading).1.Ok?
    ensures
      var (st1, res) := Begin(o, t, st, r, reading);
      var c := res.value;
      var durable := NextCheckpoint(c);
      var cleared := st1.(active := None);
      && Vet(o, cleared, c, durable) == (cleared, Ok(()))
      && Compare(cleared, c, durable) == (cleared, Ok(false))
  {
    var c := Begin(o, t, st, r, reading).1.value;
    BeginMeans(o, t, st, r, reading);
    EpochsAdvanceReflexive(c.snapshot.entries);
    EpochsFaultMeans(c.snapshot.entries, c.entries);
  }
}
