/** What every run of the vault keeps. */
module VaultRuns {
  import opened Wrappers
  import opened Bytes
  import opened Utf8
  import opened VaultJwe
  import opened Vault

  // ------------------------------------------------------------------ hypotheses

  /** No wrapped key opens to two different keys. */
  predicate OneKey(c: Crypto, jwe: string, password: bytes, other: bytes) {
    UnwrapCek(c, jwe, password).Ok? && UnwrapCek(c, jwe, other).Ok?
    ==> UnwrapCek(c, jwe, password).value.cek == UnwrapCek(c, jwe, other).value.cek
  }

  /** No DID token decrypts under two different keys. */
  predicate OneSeal(c: Crypto, jwe: string, key: Key, other: Key) {
    DecryptDid(c, jwe, key).Some? && DecryptDid(c, jwe, other).Some? ==> key == other
  }

  ghost predicate Committing(c: Crypto) {
    && (forall jwe: string, p: bytes, q: bytes :: OneKey(c, jwe, p, q))
    && (forall jwe: string, k: Key, l: Key :: OneSeal(c, jwe, k, l))
  }

  ghost predicate Ideal(w: World) {
    Sound(w.crypto) && Committing(w.crypto)
  }

  // ------------------------------------------------------------------ the invariant

  predicate OpensTo(c: Crypto, entry: bytes, password: bytes, key: Key) {
    && FromUtf8(entry).Some?
    && UnwrapCek(c, FromUtf8(entry).value, password).Ok?
    && UnwrapCek(c, FromUtf8(entry).value, password).value.cek == key
  }

  ghost predicate KeyEntry(c: Crypto, entry: bytes, key: Key) {
    exists password: bytes :: OpensTo(c, entry, password, key)
  }

  predicate DidEntry(c: Crypto, entry: bytes, key: Key) {
    FromUtf8(entry).Some? && DecryptDid(c, FromUtf8(entry).value, key).Some?
  }

  predicate StatusEntry(c: Crypto, entry: bytes) {
    ParseStatus(c, Some(entry)).Some? && ParseStatus(c, Some(entry)).value.initialized
  }

  predicate NoEntries(store: Store) {
    CEK_ENTRY !in store && DID_ENTRY !in store && STATUS_ENTRY !in store
  }

  /** All three entries are there and fit together around `key`. */
  ghost predicate Holds(c: Crypto, store: Store, key: Key) {
    && CEK_ENTRY in store && KeyEntry(c, store[CEK_ENTRY], key)
    && DID_ENTRY in store && DidEntry(c, store[DID_ENTRY], key)
    && STATUS_ENTRY in store && StatusEntry(c, store[STATUS_ENTRY])
  }

  /** The store holds nothing, or everything around one key, and a key in memory is that key. */
  ghost predicate Agrees(c: Crypto, s: State, stored: Option<Key>) {
    if stored.None? then NoEntries(s.store) && s.cek.None?
    else Holds(c, s.store, stored.value) && (s.cek.None? || s.cek == stored)
  }

  // ------------------------------------------------------------------ facts about the pieces

  lemma ThreeWrites(store: Store, a: bytes, b: bytes, d: bytes)
    ensures ApplyAll(store, AllEntries(a, b, d)) == store[CEK_ENTRY := a][DID_ENTRY := b][STATUS_ENTRY := d]
  {
    var writes := AllEntries(a, b, d);
    var rest := [Put(DID_ENTRY, b), Put(STATUS_ENTRY, d)];
    assert writes[1..] == rest && rest[1..] == [Put(STATUS_ENTRY, d)];
    OneWrite(store[CEK_ENTRY := a][DID_ENTRY := b], STATUS_ENTRY, d);
  }

  lemma OneWrite(store: Store, key: string, value: bytes)
    ensures ApplyAll(store, [Put(key, value)]) == store[key := value]
  {
  }

  lemma WrappedOpens(w: World, password: string, cek: Key, salt: bytes, p2c: u32, o: Outside)
    requires Sound(w.crypto) && WrapKey(w, password, cek, salt, p2c, o).Ok?
    ensures OpensTo(w.crypto, WrapKey(w, password, cek, salt, p2c, o).value, ToUtf8(password), cek)
    ensures KeyEntry(w.crypto, WrapKey(w, password, cek, salt, p2c, o).value, cek)
  {
    hide WrapTyped, UnwrapCek, ToUtf8, FromUtf8;
    var jwe := WrapCek(w.crypto, ToUtf8(password), cek, salt, p2c, o.contentKey, o.keyIv).value;
    FromUtf8OfToUtf8(jwe);
    CekRoundTrip(w.crypto, ToUtf8(password), cek, salt, p2c, o.contentKey, o.keyIv);
    assert OpensTo(w.crypto, ToUtf8(jwe), ToUtf8(password), cek);
  }

  lemma SealedDecrypts(w: World, did: PortableDid, cek: Key, o: Outside)
    requires Sound(w.crypto) && w.crypto.usable(did) && SealDid(w, did, cek, o).Ok?
    ensures DidEntry(w.crypto, SealDid(w, did, cek, o).value, cek)
  {
    hide EncryptDid, DecryptDid, ToUtf8, FromUtf8;
    var jwe := EncryptDid(w.crypto, DidBytes(w.crypto, did), cek, o.didIv).value;
    FromUtf8OfToUtf8(jwe);
    DidRoundTrip(w.crypto, did, cek, o.didIv);
  }

  /** Whatever opens the stored key gives the key the store holds. */
  lemma StoredKey(w: World, store: Store, key: Key, password: string, o: Outside)
    requires Ideal(w) && Holds(w.crypto, store, key) && OpenStored(w, store, password, o).Ok?
    ensures OpenStored(w, store, password, o).value.cek == key
  {
    hide UnwrapCek, DecryptDid, ParseStatus, ToUtf8, FromUtf8;
    var entry := store[CEK_ENTRY];
    var other: bytes :| OpensTo(w.crypto, entry, other, key);
    assert OneKey(w.crypto, FromUtf8(entry).value, ToUtf8(password), other);
  }

  lemma StatusHolds(w: World, store: Store, key: Key, status: VaultStatus)
    requires Sound(w.crypto) && Holds(w.crypto, store, key) && status.initialized
    ensures Holds(w.crypto, store[STATUS_ENTRY := EncodeStatus(w.crypto, status)], key)
  {
    hide UnwrapCek, DecryptDid, ParseStatus, FromUtf8, EncodeStatus;
    StatusRoundTrip(w.crypto, status);
  }

  lemma CekHolds(w: World, store: Store, key: Key, entry: bytes)
    requires Holds(w.crypto, store, key) && KeyEntry(w.crypto, entry, key)
    ensures Holds(w.crypto, store[CEK_ENTRY := entry], key)
  {
    hide KeyEntry, DidEntry, StatusEntry;
  }

  lemma AllHold(w: World, store: Store, key: Key, cekEntry: bytes, didEntry: bytes, status: VaultStatus)
    requires Sound(w.crypto) && KeyEntry(w.crypto, cekEntry, key) && DidEntry(w.crypto, didEntry, key)
             && status.initialized
    ensures Holds(w.crypto, ApplyAll(store, AllEntries(cekEntry, didEntry, EncodeStatus(w.crypto, status))), key)
  {
    hide KeyEntry, DidEntry, ParseStatus, EncodeStatus, ApplyAll;
    ThreeWrites(store, cekEntry, didEntry, EncodeStatus(w.crypto, status));
    StatusRoundTrip(w.crypto, status);
  }

  // ------------------------------------------------------------------ one step

  lemma InitializeKeeps(w: World, s: State, stored: Option<Key>, password: string, phrase: Option<string>,
                        o: Outside) returns (after: Option<Key>)
    requires Ideal(w) && Agrees(w.crypto, s, stored)
    ensures Agrees(w.crypto, InitializeStep(w, s, password, phrase, o).state, after)
    ensures stored.Some? ==> after == stored
  {
    hide Sound, Committing, ParseStatus, EncodeStatus, OpensTo, KeyEntry, DidEntry, WrapKey, SealDid, PhraseKeys,
      ApplyAll, IsBlank;
    after := stored;
    if stored.None? && NewIdentity(w, password, phrase, o).Ok? {
      var id := NewIdentity(w, password, phrase, o).value;
      var keys := PhraseKeys(w, id.phrase).value;
      WrappedOpens(w, password, keys.0, keys.1, w.workFactor, o);
      SealedDecrypts(w, id.did, id.cek, o);
      AllHold(w, s.store, id.cek, id.cekEntry, id.didEntry, VaultStatus(true, None, None));
      if InitializeStep(w, s, password, phrase, o).state.store != s.store {
        after := Some(id.cek);
      }
    }
  }

  lemma UnlockKeeps(w: World, s: State, stored: Option<Key>, password: string, o: Outside)
    requires Ideal(w) && Agrees(w.crypto, s, stored)
    ensures Agrees(w.crypto, UnlockStep(w, s, password, o).state, stored)
  {
    hide Sound, Committing, KeyEntry, DidEntry, OpenStored;
    if stored.Some? && OpenStored(w, s.store, password, o).Ok? {
      StoredKey(w, s.store, stored.value, password, o);
    }
  }

  lemma ChangePasswordKeeps(w: World, s: State, stored: Option<Key>, old_: string, new_: string, o: Outside)
    requires Ideal(w) && Agrees(w.crypto, s, stored)
    ensures Agrees(w.crypto, ChangePasswordStep(w, s, old_, new_, o).state, stored)
  {
    hide Sound, Committing, OpensTo, KeyEntry, DidEntry, OpenStored, WrapKey, ApplyAll, IsBlank;
    if stored.Some? && Rewrapped(w, s.store, old_, new_, o).Ok? {
      var found := OpenStored(w, s.store, old_, o).value;
      var entry := Rewrapped(w, s.store, old_, new_, o).value.1;
      StoredKey(w, s.store, stored.value, old_, o);
      WrappedOpens(w, new_, found.cek, found.header.p2s, found.header.p2c, o);
      OneWrite(s.store, CEK_ENTRY, entry);
      CekHolds(w, s.store, stored.value, entry);
    }
  }

  lemma RecoveredKey(w: World, store: Store, key: Key, phrase: string, password: string, o: Outside)
    requires Ideal(w) && Holds(w.crypto, store, key) && Recovered(w, store, phrase, password, o).Ok?
    ensures Recovered(w, store, phrase, password, o).value.0 == key
    ensures KeyEntry(w.crypto, Recovered(w, store, phrase, password, o).value.1, key)
  {
    hide KeyEntry, WrapKey, DecryptDid, FromUtf8, ReadDid, ParseStatus;
    var keys := PhraseKeys(w, phrase).value;
    assert OneSeal(w.crypto, FromUtf8(store[DID_ENTRY]).value, keys.0, key);
    WrappedOpens(w, password, keys.0, keys.1, w.workFactor, o);
  }

  lemma ResetKeeps(w: World, s: State, stored: Option<Key>, phrase: string, password: string, o: Outside)
    requires Ideal(w) && Agrees(w.crypto, s, stored)
    ensures Agrees(w.crypto, ResetStep(w, s, phrase, password, o).state, stored)
  {
    hide Sound, Committing, KeyEntry, DidEntry, Recovered, ApplyAll, IsBlank;
    if stored.Some? && Recovered(w, s.store, phrase, password, o).Ok? {
      var entry := Recovered(w, s.store, phrase, password, o).value.1;
      RecoveredKey(w, s.store, stored.value, phrase, password, o);
      OneWrite(s.store, CEK_ENTRY, entry);
      CekHolds(w, s.store, stored.value, entry);
    }
  }

  lemma BackupKeeps(w: World, s: State, stored: Option<Key>, o: Outside)
    requires Ideal(w) && Agrees(w.crypto, s, stored)
    ensures Agrees(w.crypto, BackupStep(w, s, o).state, stored)
  {
    hide Sound, Committing, KeyEntry, DidEntry, ExportData, ApplyAll, EncodeStatus;
    if stored.Some? && ReadStatus(w, s.store, o).Ok? {
      var status := VaultStatus(true, Some(o.now), ReadStatus(w, s.store, o).value.lastRestore);
      StatusHolds(w, s.store, stored.value, status);
      OneWrite(s.store, STATUS_ENTRY, EncodeStatus(w.crypto, status));
    }
  }

  lemma BackupEntries(w: World, p: Payload, password: string, o: Outside)
    requires BackupKey(w, p, password, o).Ok?
    ensures KeyEntry(w.crypto, ToUtf8(p.cek), BackupKey(w, p, password, o).value)
    ensures DidEntry(w.crypto, ToUtf8(p.did), BackupKey(w, p, password, o).value)
  {
    hide UnwrapCek, DecryptDid, ToUtf8, FromUtf8;
    FromUtf8OfToUtf8(p.cek);
    FromUtf8OfToUtf8(p.did);
    assert OpensTo(w.crypto, ToUtf8(p.cek), ToUtf8(password), BackupKey(w, p, password, o).value);
  }

  lemma RestoreKeeps(w: World, s: State, stored: Option<Key>, json: bytes, password: string,
                     o: Outside) returns (after: Option<Key>)
    requires Ideal(w) && Agrees(w.crypto, s, stored)
    ensures Agrees(w.crypto, RestoreStep(w, s, json, password, o).state, after)
  {
    hide Sound, Committing, KeyEntry, DidEntry, ParsePayload, BackupKey, ApplyAll, EncodeStatus, ToUtf8, ParseStatus,
      ReadStatus;
    after := stored;
    if ParsePayload(w.crypto, json).Some? && ReadStatus(w, s.store, o).Ok? {
      var p := ParsePayload(w.crypto, json).value;
      if BackupKey(w, p, password, o).Ok? {
        var key := BackupKey(w, p, password, o).value;
        var current := ReadStatus(w, s.store, o).value;
        BackupEntries(w, p, password, o);
        AllHold(w, s.store, key, ToUtf8(p.cek), ToUtf8(p.did),
                VaultStatus(true, if p.lastBackup.Some? then p.lastBackup else current.lastBackup, Some(o.now)));
        if !o.commit.Refused? {
          after := Some(key);
        }
      }
    }
  }

  /** Every event keeps the invariant, and nothing but a restore changes the stored key. */
  lemma NextKeeps(w: World, s: State, stored: Option<Key>, e: Event) returns (after: Option<Key>)
    requires Ideal(w) && Agrees(w.crypto, s, stored)
    ensures Agrees(w.crypto, Next(w, s, e), after)
    ensures stored.Some? && !(e.Call? && e.op.Restore?) ==> after == stored
  {
    hide Sound, Committing, InitializeStep, UnlockStep, ChangePasswordStep, ResetStep, BackupStep, RestoreStep,
      KeyEntry, DidEntry, StatusEntry;
    after := stored;
    if e.Call? {
      match e.op
      case Initialize(password, phrase) => after := InitializeKeeps(w, s, stored, password, phrase, e.outside);
      case Unlock(password) => UnlockKeeps(w, s, stored, password, e.outside);
      case Lock =>
      case ChangePassword(old_, new_) => ChangePasswordKeeps(w, s, stored, old_, new_, e.outside);
      case ResetPassword(words, password) => ResetKeeps(w, s, stored, words, password, e.outside);
      case Backup => BackupKeeps(w, s, stored, e.outside);
      case Restore(json, password) => after := RestoreKeeps(w, s, stored, json, password, e.outside);
    }
  }

  predicate NoRestore(events: seq<Event>) {
    forall e <- events :: !(e.Call? && e.op.Restore?)
  }

  lemma {:induction false} RunKeeps(w: World, s: State, stored: Option<Key>,
                                    events: seq<Event>) returns (after: Option<Key>)
    requires Ideal(w) && Agrees(w.crypto, s, stored)
    ensures Agrees(w.crypto, Run(w, s, events), after)
    ensures stored.Some? && NoRestore(events) ==> after == stored
    decreases |events|
  {
    hide Agrees, Next;
    if events == [] {
      after := stored;
    } else {
      var next := NextKeeps(w, s, stored, events[0]);
      after := RunKeeps(w, Next(w, s, events[0]), next, events[1..]);
    }
  }
}
