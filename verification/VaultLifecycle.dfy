/** Operation by operation: when each call succeeds, which error it gives, and whether a key is left in memory. */
module VaultLifecycle {
  import opened Wrappers
  import opened Bytes
  import opened Utf8
  import opened DidDocument
  import opened VaultJwe
  import opened Vault
  import opened VaultRuns
  import opened VaultTheorems
  import opened VaultBackup
  import Base64Url

  // ------------------------------------------------------------------ lock

  /** Locking drops the key and touches nothing else. It succeeds, where the status can be read, exactly when the
      store holds a key. */
  lemma LockDropsKey(w: World, s: State, o: Outside)
    requires Ideal(w) && Reachable(w, s)
    ensures var r := Step(w, s, Lock, o);
            && r.state == State(s.store, None)
            && (o.statusRead ==> (r.result.Ok? <==> exists key: Key :: Holds(w.crypto, s.store, key)))
            && (o.statusRead ==> (r.result == Err(Uninitialized) <==> NoEntries(s.store)))
            && (!o.statusRead ==> r.result == Err(HostFailed))
  {
    hide Sound, Committing, KeyEntry, DidEntry, Run, Reachable;
    var stored := ReachableAgrees(w, s);
    NoStatus(w.crypto);
    if stored.Some? {
      assert Holds(w.crypto, s.store, stored.value);
    }
  }

  /** A call that can put a key into memory, and succeeds. */
  predicate Unlocks(w: World, s: State, e: Event) {
    e.Call? && !e.op.Lock? && !e.op.Backup? && Step(w, s, e.op, e.outside).result.Ok?
  }

  predicate NeverUnlocks(w: World, s: State, events: seq<Event>)
    decreases |events|
  {
    events == [] || (!Unlocks(w, s, events[0]) && NeverUnlocks(w, Next(w, s, events[0]), events[1..]))
  }

  lemma LockedStep(w: World, s: State, e: Event)
    requires s.cek.None? && !Unlocks(w, s, e)
    ensures Next(w, s, e).cek.None?
  {
    hide ParsePayload, ApplyAll, ReadStatus, NewIdentity, OpenStored, Rewrapped, Recovered, ExportData, BackupKey,
      EncodeStatus, IsBlank;
  }

  lemma {:induction false} LockedRun(w: World, s: State, events: seq<Event>)
    requires s.cek.None? && NeverUnlocks(w, s, events)
    ensures Run(w, s, events).cek.None?
    decreases |events|
  {
    hide Next, Unlocks;
    if events != [] {
      LockedStep(w, s, events[0]);
      LockedRun(w, Next(w, s, events[0]), events[1..]);
    }
  }

  /** After a lock, and until some call unlocks the vault again, nothing that needs the key works. */
  lemma LockedUntilUnlocked(w: World, s: State, o: Outside, events: seq<Event>, o2: Outside, plaintext: bytes,
                            jwe: string)
    requires Ideal(w) && Reachable(w, s) && NeverUnlocks(w, Step(w, s, Lock, o).state, events)
    ensures var later := Run(w, Step(w, s, Lock, o).state, events);
            && later.cek == None
            && GetDid(w, later, o2) == Err(Locked)
            && EncryptData(w, later, plaintext, o2) == Err(Locked)
            && DecryptData(w, later, jwe) == Err(Locked)
            && BackupStep(w, later, o2).result.Err?
  {
    hide Run, Reachable, NeverUnlocks, Ideal, ReadStatus, Step;
    LockDropsKey(w, s, o);
    LockedRun(w, Step(w, s, Lock, o).state, events);
  }

  // ------------------------------------------------------------------ the key in memory

  /** An unreadable status fails every call and drops the key. */
  lemma UnreadableStatusLocks(w: World, s: State, op: Op, o: Outside)
    requires !o.statusRead
    ensures Step(w, s, op, o).result.Err? && Step(w, s, op, o).state == State(s.store, None)
  {
    hide ParsePayload;
  }

  /** Which key a call leaves in memory. Success leaves none after a lock, the same after a backup, and otherwise
      the key that the store then holds. A failed initialize or backup leaves what there was, unless the status
      could not be read; a failed password change does so when the new password was blank or the vault empty. */
  lemma KeyInMemory(w: World, s: State, op: Op, o: Outside)
    requires Ideal(w) && Reachable(w, s)
    ensures var r := Step(w, s, op, o);
            && (r.result.Ok? && op.Lock? ==> r.state.cek == None)
            && (r.result.Ok? && op.Backup? ==> r.state.cek == s.cek && s.cek.Some?)
            && (r.result.Ok? && !op.Lock? ==> r.state.cek.Some? && Holds(w.crypto, r.state.store, r.state.cek.value))
            && (r.result.Err? && o.statusRead && (op.Initialize? || op.Backup?) ==> r.state.cek == s.cek)
            && (r.result.Err? && !(op.Initialize? || op.Backup?) && !(op.ChangePassword? && IsBlank(op.new_)) ==>
                  r.state.cek == None)
  {
    hide Sound, Committing, KeyEntry, DidEntry, ApplyAll, IsBlank, Run, Reachable, ParsePayload, NewIdentity,
      OpenStored, Rewrapped, Recovered, ExportData, BackupKey, EncodeStatus, ParseStatus;
    var stored := ReachableAgrees(w, s);
    var after := NextKeeps(w, s, stored, Call(op, o));
    NoStatus(w.crypto);
  }

  // ------------------------------------------------------------------ initialize

  /** A password is blank when it has nothing but white space. */
  lemma BlankIff(password: string)
    ensures IsBlank(password)
            <==> forall i :: 0 <= i < |password| ==>
                   password[i] as int in {0x9, 0xA, 0xB, 0xC, 0xD, 0x20, 0x85, 0xA0, 0x1680, 0x2000, 0x2001, 0x2002,
                                          0x2003, 0x2004, 0x2005, 0x2006, 0x2007, 0x2008, 0x2009, 0x200A, 0x2028,
                                          0x2029, 0x202F, 0x205F, 0x3000}
  {
    forall i | 0 <= i < |password|
      ensures IsBlank(password) ==> IsSpace(password[i])
    {
      assert password[i] in password;
    }
  }

  /** The three entries of a fresh vault: the key under the password with the phrase's salt and the work factor,
      the DID under the key, and a status without times. */
  predicate FreshEntries(c: Crypto, store: Store, password: string, cek: Key, salt: bytes, workFactor: u32,
                         did: PortableDid) {
    && "agent:vault:cekJwe" in store && FromUtf8(store["agent:vault:cekJwe"]).Some?
    && UnwrapCek(c, FromUtf8(store["agent:vault:cekJwe"]).value, ToUtf8(password))
       == Ok(OpenedCek(cek, CekHeader(workFactor, salt, Some("text/plain"))))
    && "agent:vault:didJwe" in store && DidReads(c, Some(store["agent:vault:didJwe"]), cek, did)
    && "agent:vault:status" in store
    && ParseStatus(c, Some(store["agent:vault:status"])) == Some(VaultStatus(true, None, None))
  }

  /** Where nothing outside fails, a vault is initialized exactly when its store is empty, the password is not
      blank, the phrase gives 32 key bytes, the provider gives a usable DID and the work factor is positive. */
  lemma InitializeIff(w: World, s: State, password: string, phrase: Option<string>, o: Outside)
    requires Ideal(w) && Reachable(w, s) && o.statusRead && o.wrapTask && o.sealing && o.commit.Applied?
    ensures var words := if phrase.Some? then phrase.value else o.freshPhrase;
            var keys, r := w.deriveKeys(words), InitializeStep(w, s, password, phrase, o);
            if !NoEntries(s.store) then r.result == Err(AlreadyInitialized)
            else if IsBlank(password) then r.result == Err(BlankPassword)
            else if keys.None? then r.result == Err(InvalidPhrase)
            else if |keys.value.contentKey| != 32 then r.result == Err(InvalidKeyMaterial)
            else if o.did.None? then r.result == Err(HostFailed)
            else if !w.crypto.usable(o.did.value) then r.result == Err(InvalidDid)
            else if w.workFactor < 1 then r.result == Err(CodecFailed)
            else
              && r.result.Ok? && r.result.value.phrase == words && r.result.value.did == o.did.value
              && r.result.value.cek == keys.value.contentKey && r.state.cek == Some(keys.value.contentKey)
              && FreshEntries(w.crypto, r.state.store, password, keys.value.contentKey, keys.value.salt, w.workFactor,
                              o.did.value)
  {
    hide Sound, Committing, KeyEntry, DidEntry, ParseStatus, EncodeStatus, ApplyAll, IsBlank, UnwrapCek, ToUtf8,
      FromUtf8, WrapTyped, EncryptDid, DecryptDid, Run, Reachable;
    var stored := ReachableAgrees(w, s);
    NoStatus(w.crypto);
    var words := if phrase.Some? then phrase.value else o.freshPhrase;
    var keys := w.deriveKeys(words);
    if NoEntries(s.store) && keys.Some? && |keys.value.contentKey| == 32 && o.did.Some? && w.workFactor >= 1 {
      FreshTokens(w, s, password, keys.value.contentKey, keys.value.salt, o);
    }
  }

  lemma FreshTokens(w: World, s: State, password: string, cek: Key, salt: bytes, o: Outside)
    requires Ideal(w) && w.workFactor >= 1 && o.did.Some? && o.wrapTask && o.sealing
    ensures WrapKey(w, password, cek, salt, w.workFactor, o).Ok? && SealDid(w, o.did.value, cek, o).Ok?
    ensures w.crypto.usable(o.did.value) ==>
              var a := WrapKey(w, password, cek, salt, w.workFactor, o).value;
              var b := SealDid(w, o.did.value, cek, o).value;
              var d := EncodeStatus(w.crypto, VaultStatus(true, None, None));
              FreshEntries(w.crypto, ApplyAll(s.store, AllEntries(a, b, d)), password, cek, salt, w.workFactor,
                           o.did.value)
  {
    hide Committing, ParseStatus, EncodeStatus, ApplyAll, UnwrapCek, ToUtf8, FromUtf8, WrapTyped, EncryptDid,
      DecryptDid;
    CekRoundTrip(w.crypto, ToUtf8(password), cek, salt, w.workFactor, o.contentKey, o.keyIv);
    DidRoundTrip(w.crypto, o.did.value, cek, o.didIv);
    WrappedHeader(w, password, cek, salt, w.workFactor, o);
    FromUtf8OfToUtf8(EncryptDid(w.crypto, DidBytes(w.crypto, o.did.value), cek, o.didIv).value);
    StatusRoundTrip(w.crypto, VaultStatus(true, None, None));
    ThreeWrites(s.store, WrapKey(w, password, cek, salt, w.workFactor, o).value,
                SealDid(w, o.did.value, cek, o).value, EncodeStatus(w.crypto, VaultStatus(true, None, None)));
  }

  // ------------------------------------------------------------------ change and reset

  /** Where nothing outside fails, the password changes exactly when the old one opens the stored key and the new
      one is not blank. */
  lemma ChangePasswordIff(w: World, s: State, old_: string, new_: string, o: Outside)
    requires Ideal(w) && Reachable(w, s)
    requires o.statusRead && o.cekRead && o.unwrapTask && o.wrapTask && o.commit.Applied?
    ensures var r := ChangePasswordStep(w, s, old_, new_, o);
            && (r.result.Ok? <==> PasswordOpens(w.crypto, s.store, old_) && !IsBlank(new_))
            && (r.result == Err(Uninitialized) <==> NoEntries(s.store))
            && (r.result == Err(BlankPassword) <==> !NoEntries(s.store) && IsBlank(new_))
            && (r.result == Err(InvalidPassword) <==> WrongPassword(w.crypto, s.store, old_) && !IsBlank(new_))
  {
    hide Sound, Committing, DidEntry, UnwrapCek, ToUtf8, FromUtf8, ParseStatus, WrapTyped, IsBlank, ApplyAll, Run,
      Reachable;
    var stored := ReachableAgrees(w, s);
    NoStatus(w.crypto);
    if PasswordOpens(w.crypto, s.store, old_) {
      var jwe := FromUtf8(s.store[CEK_ENTRY]).value;
      var found := UnwrapCek(w.crypto, jwe, ToUtf8(old_)).value;
      UnwrappedHeader(w.crypto, jwe, ToUtf8(old_));
      CekRoundTrip(w.crypto, ToUtf8(new_), found.cek, found.header.p2s, found.header.p2c, o.contentKey, o.keyIv);
    }
  }

  /** The DID in the store has this URI. */
  ghost predicate StoresUri(c: Crypto, store: Store, key: Key, uri: string) {
    exists did: PortableDid :: DidReads(c, Entry(store, DID_ENTRY), key, did) && did.uri == uri
  }

  lemma StoredUriIff(w: World, store: Store, key: Key, uri: string)
    ensures StoredUri(w, store, key) == Some(uri) <==> StoresUri(w.crypto, store, key, uri)
  {
    hide FromUtf8, DecryptDid, ReadDid;
    if StoredUri(w, store, key) == Some(uri) {
      var did := ReadDid(w.crypto, DecryptDid(w.crypto, FromUtf8(store[DID_ENTRY]).value, key).value).value;
      assert DidReads(w.crypto, Entry(store, DID_ENTRY), key, did);
    }
  }

  /** Where nothing outside fails, a phrase resets the password exactly when it derives the key the store holds, the
      provider rebuilds the URI of the stored DID, the new password is not blank and the work factor is positive.
      The new password then opens the same key, with the phrase's salt and the work factor. */
  lemma ResetIff(w: World, s: State, phrase: string, password: string, o: Outside)
    requires Ideal(w) && Reachable(w, s) && o.statusRead && o.didRead && o.wrapTask && o.commit.Applied?
    ensures var keys, r := w.deriveKeys(phrase), ResetStep(w, s, phrase, password, o);
            && (r.result.Ok?
                <==> (&& !IsBlank(password) && w.workFactor >= 1 && keys.Some? && |keys.value.contentKey| == 32
                      && Holds(w.crypto, s.store, keys.value.contentKey)
                      && o.did.Some? && StoresUri(w.crypto, s.store, keys.value.contentKey, o.did.value.uri)))
            && (r.result.Ok? ==>
                  && r.state.cek == Some(keys.value.contentKey) && CEK_ENTRY in r.state.store
                  && FromUtf8(r.state.store[CEK_ENTRY]).Some?
                  && UnwrapCek(w.crypto, FromUtf8(r.state.store[CEK_ENTRY]).value, ToUtf8(password))
                     == Ok(OpenedCek(keys.value.contentKey,
                                     CekHeader(w.workFactor, keys.value.salt, Some("text/plain")))))
  {
    hide Sound, Committing, KeyEntry, DecryptDid, UnwrapCek, ToUtf8, FromUtf8, ParseStatus, WrapTyped, IsBlank,
      ApplyAll, Run, Reachable, StoredUri, StoresUri, ReadDid;
    var stored := ReachableAgrees(w, s);
    NoStatus(w.crypto);
    var keys := w.deriveKeys(phrase);
    if keys.Some? && |keys.value.contentKey| == 32 {
      var key: Key := keys.value.contentKey;
      if o.did.Some? {
        StoredUriIff(w, s.store, key, o.did.value.uri);
      }
      if stored.Some? && StoredUri(w, s.store, key).Some? {
        UriNeedsKey(w, s.store, stored.value, key);
      }
      ResetWraps(w, password, key, keys.value.salt, o);
      if WrapKey(w, password, key, keys.value.salt, w.workFactor, o).Ok? {
        OneWrite(s.store, CEK_ENTRY, WrapKey(w, password, key, keys.value.salt, w.workFactor, o).value);
      }
    }
  }

  lemma ResetWraps(w: World, password: string, key: Key, salt: bytes, o: Outside)
    requires Sound(w.crypto) && o.wrapTask
    ensures var entry := WrapKey(w, password, key, salt, w.workFactor, o);
            && (entry.Ok? <==> w.workFactor >= 1)
            && (entry.Ok? ==>
                  FromUtf8(entry.value).Some? && UnwrapCek(w.crypto, FromUtf8(entry.value).value, ToUtf8(password))
                    == Ok(OpenedCek(key, CekHeader(w.workFactor, salt, Some("text/plain")))))
  {
    hide UnwrapCek, ToUtf8, FromUtf8, WrapTyped;
    if w.workFactor >= 1 {
      CekRoundTrip(w.crypto, ToUtf8(password), key, salt, w.workFactor, o.contentKey, o.keyIv);
      WrappedHeader(w, password, key, salt, w.workFactor, o);
    }
  }

  lemma UriNeedsKey(w: World, store: Store, stored: Key, key: Key)
    requires Ideal(w) && Holds(w.crypto, store, stored) && StoredUri(w, store, key).Some?
    ensures key == stored
  {
    hide DecryptDid, FromUtf8, ReadDid, ParseStatus, UnwrapCek;
    assert OneSeal(w.crypto, FromUtf8(store[DID_ENTRY]).value, key, stored);
  }

  // ------------------------------------------------------------------ backup and restore

  predicate Padding(s: string) {
    forall i :: 0 <= i < |s| ==> s[i] == '='
  }

  /** Base64url text with any number of padding characters after it. */
  ghost predicate Padded(text: string, raw: bytes) {
    exists padding: string :: Padding(padding) && text == Base64Url.Encode(raw) + padding
  }

  lemma {:induction false} TrimLeaves(s: string)
    ensures TrimPadding(s) <= s && Padding(s[|TrimPadding(s)|..])
  {
    if s != "" && s[|s| - 1] == '=' {
      TrimLeaves(s[..|s| - 1]);
      var n := |TrimPadding(s)|;
      assert forall i :: n <= i < |s| - 1 ==> s[i] == s[..|s| - 1][n..][i - n];
    }
  }

  lemma PaddedIff(text: string, raw: bytes)
    ensures DecodeLenient(text) == Some(raw) <==> Padded(text, raw)
  {
    hide Base64Url.Encode, Base64Url.Decode, TrimPadding;
    if DecodeLenient(text) == Some(raw) {
      if Base64Url.Decode(text).Some? {
        Base64Url.EncodeDecode(text);
        assert Padding("") && text == Base64Url.Encode(raw) + "";
      } else {
        var front := TrimPadding(text);
        TrimLeaves(text);
        Base64Url.EncodeDecode(front);
        assert text == front + text[|front|..];
      }
    }
    if padding: string :| Padding(padding) && text == Base64Url.Encode(raw) + padding {
      LenientDecode(raw, padding);
    }
  }

  /** What a restore reads: a blob with a date, a size and padded base64url data, which holds both tokens and an
      object that says it is initialized. */
  ghost predicate BackupSays(c: Crypto, json: bytes, p: Payload, raw: bytes) {
    && c.parseJson(json).Some? && c.parseJson(raw).Some?
    && var blob, value := c.parseJson(json).value, c.parseJson(raw).value;
    && Member(blob, "dateCreated").Some? && Member(blob, "dateCreated").value.JString?
    && Member(blob, "size").Some? && Member(blob, "size").value.JNumber?
    && Member(blob, "data").Some? && Member(blob, "data").value.JString? && Padded(Member(blob, "data").value.s, raw)
    && Member(value, "did") == Some(JString(p.did))
    && Member(value, "contentEncryptionKey") == Some(JString(p.cek))
    && Member(value, "status").Some? && Member(Member(value, "status").value, "initialized") == Some(JBool(true))
    && p.lastBackup == StringMember(Member(value, "status").value, "lastBackup")
  }

  lemma PayloadIff(c: Crypto, json: bytes, p: Payload)
    ensures ParsePayload(c, json) == Some(p) <==> exists raw: bytes :: BackupSays(c, json, p, raw)
  {
    hide DecodeLenient, Padded;
    if ParsePayload(c, json) == Some(p) {
      var data := ParseBackup(c, json).value.data;
      var raw := DecodeLenient(data).value;
      PaddedIff(data, raw);
      assert BackupSays(c, json, p, raw);
    }
    if raw: bytes :| BackupSays(c, json, p, raw) {
      PaddedIff(Member(c.parseJson(json).value, "data").value.s, raw);
    }
  }

  /** The password opens the backup's key, and that key decrypts the backup's DID. */
  predicate BackupOpens(c: Crypto, p: Payload, password: string, key: Key) {
    && UnwrapCek(c, p.cek, ToUtf8(password)).Ok? && UnwrapCek(c, p.cek, ToUtf8(password)).value.cek == key
    && DecryptDid(c, p.did, key).Some?
  }

  /** Where nothing outside fails, a restore succeeds exactly when the blob says what it must and the password opens
      it. It then puts both tokens into the store as they are, and ends unlocked under the backup's key. */
  lemma RestoreIff(w: World, s: State, json: bytes, password: string, o: Outside)
    requires Ideal(w) && Reachable(w, s) && o.statusRead && o.unwrapTask && o.commit.Applied?
    ensures var r := RestoreStep(w, s, json, password, o);
            && (r.result.Ok?
                <==> exists p: Payload, raw: bytes, key: Key ::
                       BackupSays(w.crypto, json, p, raw) && BackupOpens(w.crypto, p, password, key))
            && forall p: Payload, raw: bytes, key: Key ::
                 BackupSays(w.crypto, json, p, raw) && BackupOpens(w.crypto, p, password, key) ==>
                   var lastBackup := if p.lastBackup.Some? then p.lastBackup else Status(w, s).lastBackup;
                   var status := EncodeStatus(w.crypto, VaultStatus(true, lastBackup, Some(o.now)));
                   r.state == State(s.store[CEK_ENTRY := ToUtf8(p.cek)][DID_ENTRY := ToUtf8(p.did)]
                                      [STATUS_ENTRY := status], Some(key))
  {
    hide Sound, Committing, UnwrapCek, DecryptDid, ToUtf8, ApplyAll, EncodeStatus, ParsePayload, BackupSays, Run,
      Reachable;
    var stored := ReachableAgrees(w, s);
    StatusReads(w, s, stored, o);
    hide ReadStatus, Status;
    var r := RestoreStep(w, s, json, password, o);
    if r.result.Ok? {
      var p := ParsePayload(w.crypto, json).value;
      PayloadIff(w.crypto, json, p);
      var raw: bytes :| BackupSays(w.crypto, json, p, raw);
      assert BackupOpens(w.crypto, p, password, BackupKey(w, p, password, o).value);
    }
    forall p: Payload, raw: bytes, key: Key
      | BackupSays(w.crypto, json, p, raw) && BackupOpens(w.crypto, p, password, key)
      ensures r.result.Ok?
      ensures var lastBackup := if p.lastBackup.Some? then p.lastBackup else Status(w, s).lastBackup;
              var status := EncodeStatus(w.crypto, VaultStatus(true, lastBackup, Some(o.now)));
              r.state == State(s.store[CEK_ENTRY := ToUtf8(p.cek)][DID_ENTRY := ToUtf8(p.did)][STATUS_ENTRY := status],
                               Some(key))
    {
      PayloadIff(w.crypto, json, p);
      var lastBackup := if p.lastBackup.Some? then p.lastBackup else Status(w, s).lastBackup;
      ThreeWrites(s.store, ToUtf8(p.cek), ToUtf8(p.did),
                  EncodeStatus(w.crypto, VaultStatus(true, lastBackup, Some(o.now))));
    }
  }

  /** The blob of a successful backup: the time, the size, and base64url data of both tokens and the status as they
      were stored. */
  lemma BackupFormat(w: World, s: State, o: Outside) returns (raw: bytes, did: string, cek: string, status: Json)
    requires Ideal(w) && Reachable(w, s) && BackupStep(w, s, o).result.Ok?
    ensures var blob := BackupStep(w, s, o).result.value;
            && blob.data == Base64Url.Encode(raw)
            && w.crypto.parseJson(w.crypto.writeJson(BackupJson(blob)))
               == Some(JObject(map["dateCreated" := JString(o.now), "size" := JNumber(|blob.data|),
                                   "data" := JString(blob.data)]))
    ensures w.crypto.parseJson(raw)
            == Some(JObject(map["did" := JString(did), "contentEncryptionKey" := JString(cek), "status" := status]))
    ensures CEK_ENTRY in s.store && FromUtf8(s.store[CEK_ENTRY]) == Some(cek)
    ensures DID_ENTRY in s.store && FromUtf8(s.store[DID_ENTRY]) == Some(did)
    ensures STATUS_ENTRY in s.store && w.crypto.parseJson(s.store[STATUS_ENTRY]) == Some(status)
  {
    hide Committing, FromUtf8, Base64Url.Encode, ApplyAll, Run, Reachable, ParseStatus, EncodeStatus;
    did := FromUtf8(s.store[DID_ENTRY]).value;
    cek := FromUtf8(s.store[CEK_ENTRY]).value;
    status := w.crypto.parseJson(s.store[STATUS_ENTRY]).value;
    raw := w.crypto.writeJson(PayloadJson(did, cek, status));
    assert JsonKept(w.crypto, PayloadJson(did, cek, status));
    assert JsonKept(w.crypto, BackupJson(BackupStep(w, s, o).result.value));
  }
}
