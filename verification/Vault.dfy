/** The password vault as a state machine: a store of secrets and, while unlocked, the content key in
    memory. Each operation is one step, since the vault serializes them under a single lock. */
module Vault {
  import opened Wrappers
  import opened Bytes
  import opened Utf8
  import opened DidDocument
  import opened VaultJwe
  import Base64Url

  const CEK_ENTRY: string := "agent:vault:cekJwe"
  const DID_ENTRY: string := "agent:vault:didJwe"
  const STATUS_ENTRY: string := "agent:vault:status"

  datatype VaultError =
    | Uninitialized | AlreadyInitialized | Locked | InvalidPassword | BlankPassword | InvalidBackup
    | CorruptEntry | PhraseMismatch | InvalidPhrase | InvalidKeyMaterial | InvalidDid | CodecFailed | HostFailed

  /** What the vault takes from a recovery phrase; the DID provider gets the rest. */
  datatype AgentKeys = AgentKeys(contentKey: bytes, salt: bytes)

  datatype World = World(crypto: Crypto, deriveKeys: string -> Option<AgentKeys>, workFactor: u32)

  type Store = map<string, bytes>

  datatype SecretWrite = Put(key: string, value: bytes) | Delete(key: string)

  datatype State = State(store: Store, cek: Option<Key>)

  /** Everything one call receives from outside: which store reads and background tasks work, how the
      commit ends, the random draws, the clock, a generated phrase and the DID provider's answer. */
  datatype Outside = Outside(
    statusRead: bool, cekRead: bool, didRead: bool,
    unwrapTask: bool, wrapTask: bool, sealing: bool, commit: Commit,
    contentKey: Key, keyIv: Iv, didIv: Iv,
    now: string, freshPhrase: string, did: Option<PortableDid>)

  datatype Outcome<+T> = Outcome(state: State, result: Result<T, VaultError>)

  // ------------------------------------------------------------------ store

  function ApplyOne(store: Store, write: SecretWrite): Store {
    match write
    case Put(key, value) => store[key := value]
    case Delete(key) => store - {key}
  }

  function ApplyAll(store: Store, writes: seq<SecretWrite>): Store
    decreases |writes|
  {
    if writes == [] then store else ApplyAll(ApplyOne(store, writes[0]), writes[1..])
  }

  /** A batch is seen whole or not at all, whatever the call reports. */
  function CommitTo(store: Store, writes: seq<SecretWrite>, commit: Commit): Store {
    if commit.Refused? then store else ApplyAll(store, writes)
  }

  function Entry(store: Store, key: string): Option<bytes> {
    if key in store then Some(store[key]) else None
  }

  function ReadStatus(w: World, store: Store, o: Outside): Result<VaultStatus, VaultError> {
    if !o.statusRead then Err(HostFailed)
    else
      match ParseStatus(w.crypto, Entry(store, STATUS_ENTRY))
      case None => Err(CorruptEntry)
      case Some(status) => Ok(status)
  }

  function ReadText(store: Store, key: string, works: bool): Result<string, VaultError> {
    if !works then Err(HostFailed)
    else if key !in store then Err(CorruptEntry)
    else
      match FromUtf8(store[key])
      case None => Err(CorruptEntry)
      case Some(text) => Ok(text)
  }

  // ------------------------------------------------------------------ passwords and keys

  predicate IsSpace(c: char) {
    var n := c as int;
    || 9 <= n <= 13 || n == 0x20 || n == 0x85 || n == 0xA0 || n == 0x1680 || 0x2000 <= n <= 0x200A
    || n == 0x2028 || n == 0x2029 || n == 0x202F || n == 0x205F || n == 0x3000
  }

  predicate IsBlank(password: string) {
    forall c <- password :: IsSpace(c)
  }

  function WrapKey(w: World, password: string, cek: Key, salt: bytes, p2c: u32, o: Outside): Result<bytes, VaultError> {
    if !o.wrapTask then Err(HostFailed)
    else
      match WrapCek(w.crypto, ToUtf8(password), cek, salt, p2c, o.contentKey, o.keyIv)
      case None => Err(CodecFailed)
      case Some(jwe) => Ok(ToUtf8(jwe))
  }

  function OpenKey(w: World, jwe: string, password: string, malformed: VaultError,
                   o: Outside): Result<OpenedCek, VaultError> {
    if !o.unwrapTask then Err(HostFailed)
    else
      match UnwrapCek(w.crypto, jwe, ToUtf8(password))
      case Err(Authentication) => Err(InvalidPassword)
      case Err(Corrupt) => Err(malformed)
      case Ok(found) => Ok(found)
  }

  function SealDid(w: World, did: PortableDid, cek: Key, o: Outside): Result<bytes, VaultError> {
    if !o.sealing then Err(HostFailed)
    else
      match EncryptDid(w.crypto, DidBytes(w.crypto, did), cek, o.didIv)
      case None => Err(CodecFailed)
      case Some(jwe) => Ok(ToUtf8(jwe))
  }

  function PhraseKeys(w: World, phrase: string): Result<(Key, bytes), VaultError> {
    match w.deriveKeys(phrase)
    case None => Err(InvalidPhrase)
    case Some(keys) => if |keys.contentKey| != 32 then Err(InvalidKeyMaterial) else Ok((keys.contentKey, keys.salt))
  }

  // ------------------------------------------------------------------ operations

  datatype Identity = Identity(phrase: string, did: PortableDid, cek: Key, cekEntry: bytes, didEntry: bytes)

  /** Derive the keys, ask the provider for the DID and encrypt both entries. */
  function NewIdentity(w: World, password: string, phrase: Option<string>, o: Outside): Result<Identity, VaultError> {
    var words := phrase.GetOr(o.freshPhrase);
    var keys :- PhraseKeys(w, words);
    if o.did.None? then Err(HostFailed)
    else if !w.crypto.usable(o.did.value) then Err(InvalidDid)
    else
      var cekEntry :- WrapKey(w, password, keys.0, keys.1, w.workFactor, o);
      var didEntry :- SealDid(w, o.did.value, keys.0, o);
      Ok(Identity(words, o.did.value, keys.0, cekEntry, didEntry))
  }

  function AllEntries(cekEntry: bytes, didEntry: bytes, statusEntry: bytes): seq<SecretWrite> {
    [Put(CEK_ENTRY, cekEntry), Put(DID_ENTRY, didEntry), Put(STATUS_ENTRY, statusEntry)]
  }

  /** Commit a batch; the key is kept in memory only when the commit is reported to succeed. */
  function Finish<T>(s: State, writes: seq<SecretWrite>, cek: Option<Key>, value: T, o: Outside): Outcome<T> {
    var store := CommitTo(s.store, writes, o.commit);
    if o.commit.Applied? then Outcome(State(store, cek), Ok(value)) else Outcome(State(store, s.cek), Err(HostFailed))
  }

  function InitializeStep(w: World, s: State, password: string, phrase: Option<string>, o: Outside): Outcome<Identity> {
    match ReadStatus(w, s.store, o)
    case Err(e) => Outcome(s.(cek := None), Err(e))
    case Ok(status) =>
      if status.initialized then Outcome(s, Err(AlreadyInitialized))
      else if IsBlank(password) then Outcome(s, Err(BlankPassword))
      else
        match NewIdentity(w, password, phrase, o)
        case Err(e) => Outcome(s, Err(e))
        case Ok(id) =>
          Finish(s, AllEntries(id.cekEntry, id.didEntry, EncodeStatus(w.crypto, VaultStatus(true, None, None))),
                 Some(id.cek), id, o)
  }

  /** The stored key opened with a password. */
  function OpenStored(w: World, store: Store, password: string, o: Outside): Result<OpenedCek, VaultError> {
    var jwe :- ReadText(store, CEK_ENTRY, o.cekRead);
    OpenKey(w, jwe, password, CorruptEntry, o)
  }

  function UnlockStep(w: World, s: State, password: string, o: Outside): Outcome<()> {
    match ReadStatus(w, s.store, o)
    case Err(e) => Outcome(s.(cek := None), Err(e))
    case Ok(status) =>
      if !status.initialized then Outcome(s, Err(Uninitialized))
      else
        match OpenStored(w, s.store, password, o)
        case Err(e) => Outcome(s.(cek := None), Err(e))
        case Ok(found) => Outcome(s.(cek := Some(found.cek)), Ok(()))
  }

  function LockStep(w: World, s: State, o: Outside): Outcome<()> {
    match ReadStatus(w, s.store, o)
    case Err(e) => Outcome(s.(cek := None), Err(e))
    case Ok(status) =>
      if !status.initialized then Outcome(s, Err(Uninitialized)) else Outcome(s.(cek := None), Ok(()))
  }

  function Rewrapped(w: World, store: Store, old_: string, new_: string, o: Outside): Result<(Key, bytes), VaultError> {
    var found :- OpenStored(w, store, old_, o);
    var entry :- WrapKey(w, new_, found.cek, found.header.p2s, found.header.p2c, o);
    Ok((found.cek, entry))
  }

  function ChangePasswordStep(w: World, s: State, old_: string, new_: string, o: Outside): Outcome<()> {
    match ReadStatus(w, s.store, o)
    case Err(e) => Outcome(s.(cek := None), Err(e))
    case Ok(status) =>
      if !status.initialized then Outcome(s, Err(Uninitialized))
      else if IsBlank(new_) then Outcome(s, Err(BlankPassword))
      else
        var locked := s.(cek := None);
        match Rewrapped(w, s.store, old_, new_, o)
        case Err(e) => Outcome(locked, Err(e))
        case Ok(key) => Finish(locked, [Put(CEK_ENTRY, key.1)], Some(key.0), (), o)
  }

  /** The URI of the stored DID, if this key decrypts it. */
  function StoredUri(w: World, store: Store, cek: Key): Option<string> {
    if DID_ENTRY !in store then None
    else
      var jwe :- FromUtf8(store[DID_ENTRY]);
      var did :- DecryptDid(w.crypto, jwe, cek);
      var portable :- ReadDid(w.crypto, did);
      Some(portable.uri)
  }

  /** A key from the phrase, re-wrapped if it decrypts the stored DID and the provider agrees on its URI. */
  function Recovered(w: World, store: Store, phrase: string, password: string,
                     o: Outside): Result<(Key, bytes), VaultError> {
    var keys :- PhraseKeys(w, phrase);
    if !o.didRead then Err(HostFailed)
    else
      match StoredUri(w, store, keys.0)
      case None => Err(PhraseMismatch)
      case Some(uri) =>
        if o.did.None? || o.did.value.uri != uri then Err(PhraseMismatch)
        else
          var entry :- WrapKey(w, password, keys.0, keys.1, w.workFactor, o);
          Ok((keys.0, entry))
  }

  function ResetStep(w: World, s: State, phrase: string, password: string, o: Outside): Outcome<()> {
    match ReadStatus(w, s.store, o)
    case Err(e) => Outcome(s.(cek := None), Err(e))
    case Ok(status) =>
      var locked := s.(cek := None);
      if !status.initialized then Outcome(s, Err(Uninitialized))
      else if IsBlank(password) then Outcome(locked, Err(BlankPassword))
      else
        match Recovered(w, s.store, phrase, password, o)
        case Err(e) => Outcome(locked, Err(e))
        case Ok(key) => Finish(locked, [Put(CEK_ENTRY, key.1)], Some(key.0), (), o)
  }

  // ------------------------------------------------------------------ backup blobs

  datatype BackupBlob = BackupBlob(dateCreated: string, size: int, data: string)

  function BackupJson(b: BackupBlob): Json {
    JObject(map["dateCreated" := JString(b.dateCreated), "size" := JNumber(b.size), "data" := JString(b.data)])
  }

  function ParseBackup(c: Crypto, json: bytes): Option<BackupBlob> {
    var j :- c.parseJson(json);
    var dateCreated :- StringMember(j, "dateCreated");
    var size :- Member(j, "size");
    var data :- StringMember(j, "data");
    if size.JNumber? then Some(BackupBlob(dateCreated, size.n, data)) else None
  }

  function TrimPadding(s: string): string {
    if s != "" && s[|s| - 1] == '=' then TrimPadding(s[..|s| - 1]) else s
  }

  function DecodeLenient(s: string): Option<bytes> {
    var strict := Base64Url.Decode(s);
    if strict.Some? then strict else Base64Url.Decode(TrimPadding(s))
  }

  /** What a restore takes from a backup. */
  datatype Payload = Payload(did: string, cek: string, lastBackup: Option<string>)

  function PayloadJson(did: string, cek: string, status: Json): Json {
    JObject(map["did" := JString(did), "contentEncryptionKey" := JString(cek), "status" := status])
  }

  function ParsePayload(c: Crypto, json: bytes): Option<Payload> {
    var blob :- ParseBackup(c, json);
    var raw :- DecodeLenient(blob.data);
    var value :- c.parseJson(raw);
    var did :- StringMember(value, "did");
    var cek :- StringMember(value, "contentEncryptionKey");
    var status :- Member(value, "status");
    if !status.JObject? || Member(status, "initialized") != Some(JBool(true)) then None
    else Some(Payload(did, cek, StringMember(status, "lastBackup")))
  }

  /** The exported text: the two tokens and the status as stored before this backup is recorded. */
  function ExportData(w: World, store: Store, o: Outside): Result<string, VaultError> {
    var did :- ReadText(store, DID_ENTRY, o.didRead);
    var cek :- ReadText(store, CEK_ENTRY, o.cekRead);
    match Entry(store, STATUS_ENTRY)
    case None => Err(CorruptEntry)
    case Some(entry) =>
      match w.crypto.parseJson(entry)
      case None => Err(CorruptEntry)
      case Some(status) => Ok(Base64Url.Encode(w.crypto.writeJson(PayloadJson(did, cek, status))))
  }

  function BackupStep(w: World, s: State, o: Outside): Outcome<BackupBlob> {
    match ReadStatus(w, s.store, o)
    case Err(e) => Outcome(s.(cek := None), Err(e))
    case Ok(status) =>
      if !status.initialized then Outcome(s, Err(Uninitialized))
      else if s.cek.None? then Outcome(s, Err(Locked))
      else
        match ExportData(w, s.store, o)
        case Err(e) => Outcome(s, Err(e))
        case Ok(data) =>
          Finish(s, [Put(STATUS_ENTRY, EncodeStatus(w.crypto, VaultStatus(true, Some(o.now), status.lastRestore)))],
                 s.cek,
                 BackupBlob(o.now, |data|, data), o)
  }

  /** The key of a backup, if the password opens it and it decrypts the backup's DID. */
  function BackupKey(w: World, p: Payload, password: string, o: Outside): Result<Key, VaultError> {
    var found :- OpenKey(w, p.cek, password, InvalidBackup, o);
    if DecryptDid(w.crypto, p.did, found.cek).None? then Err(InvalidBackup) else Ok(found.cek)
  }

  function RestoreStep(w: World, s: State, json: bytes, password: string, o: Outside): Outcome<()> {
    var locked := s.(cek := None);
    match ParsePayload(w.crypto, json)
    case None => Outcome(locked, Err(InvalidBackup))
    case Some(p) =>
      match ReadStatus(w, s.store, o)
      case Err(e) => Outcome(locked, Err(e))
      case Ok(current) =>
        match BackupKey(w, p, password, o)
        case Err(e) => Outcome(locked, Err(e))
        case Ok(cek) =>
          var lastBackup := if p.lastBackup.Some? then p.lastBackup else current.lastBackup;
          var status := EncodeStatus(w.crypto, VaultStatus(true, lastBackup, Some(o.now)));
          Finish(locked, AllEntries(ToUtf8(p.cek), ToUtf8(p.did), status), Some(cek), (), o)
  }

  // ------------------------------------------------------------------ reads

  function GetDid(w: World, s: State, o: Outside): Result<PortableDid, VaultError> {
    if s.cek.None? then Err(Locked)
    else
      var jwe :- ReadText(s.store, DID_ENTRY, o.didRead);
      match DecryptDid(w.crypto, jwe, s.cek.value)
      case None => Err(CorruptEntry)
      case Some(bytes) =>
        match ReadDid(w.crypto, bytes)
        case None => Err(CorruptEntry)
        case Some(did) => Ok(did)
  }

  function EncryptData(w: World, s: State, plaintext: bytes, o: Outside): Result<string, VaultError> {
    if s.cek.None? then Err(Locked)
    else if !o.sealing then Err(HostFailed)
    else
      match EncryptDirect(w.crypto, plaintext, s.cek.value, None, o.didIv)
      case None => Err(CodecFailed)
      case Some(jwe) => Ok(jwe)
  }

  function DecryptData(w: World, s: State, jwe: string): Result<bytes, VaultError> {
    if s.cek.None? then Err(Locked)
    else
      match DecryptDirect(w.crypto, jwe, s.cek.value)
      case None => Err(CodecFailed)
      case Some(plaintext) => Ok(plaintext)
  }

  // ------------------------------------------------------------------ runs

  datatype Op =
    | Initialize(password: string, phrase: Option<string>)
    | Unlock(password: string)
    | Lock
    | ChangePassword(old_: string, new_: string)
    | ResetPassword(words: string, password: string)
    | Backup
    | Restore(json: bytes, password: string)

  /** A call, or a new vault opened over the same store. A kill in the middle of a call is that call
      with a commit that is refused or unreported, followed by reopening. */
  datatype Event = Call(op: Op, outside: Outside) | Reopen

  function Forget<T>(r: Outcome<T>): Outcome<()> {
    Outcome(r.state, if r.result.Ok? then Ok(()) else Err(r.result.error))
  }

  function Step(w: World, s: State, op: Op, o: Outside): Outcome<()> {
    match op
    case Initialize(password, phrase) => Forget(InitializeStep(w, s, password, phrase, o))
    case Unlock(password) => UnlockStep(w, s, password, o)
    case Lock => LockStep(w, s, o)
    case ChangePassword(old_, new_) => ChangePasswordStep(w, s, old_, new_, o)
    case ResetPassword(words, password) => ResetStep(w, s, words, password, o)
    case Backup => Forget(BackupStep(w, s, o))
    case Restore(json, password) => RestoreStep(w, s, json, password, o)
  }

  function Next(w: World, s: State, e: Event): State {
    match e
    case Call(op, o) => Step(w, s, op, o).state
    case Reopen => s.(cek := None)
  }

  function Run(w: World, s: State, events: seq<Event>): State
    decreases |events|
  {
    if events == [] then s else Run(w, Next(w, s, events[0]), events[1..])
  }
}
