/** Main results about the vault: every one is about all runs from a store without vault entries. */
module VaultTheorems {
  import opened Wrappers
  import opened Bytes
  import opened Utf8
  import opened VaultJwe
  import opened Vault
  import opened VaultRuns

  function RunFrom(w: World, store: Store, events: seq<Event>): State {
    Run(w, State(store, None), events)
  }

  ghost predicate Reachable(w: World, s: State) {
    exists store: Store, events: seq<Event> :: NoEntries(store) && s == RunFrom(w, store, events)
  }

  lemma {:induction false} RunAppend(w: World, s: State, a: seq<Event>, b: seq<Event>)
    ensures Run(w, s, a + b) == Run(w, Run(w, s, a), b)
    decreases |a|
  {
    hide Next;
    if a == [] {
      assert a + b == b;
    } else {
      assert (a + b)[0] == a[0] && (a + b)[1..] == a[1..] + b;
      RunAppend(w, Next(w, s, a[0]), a[1..], b);
    }
  }

  lemma ReachableRun(w: World, s: State, events: seq<Event>)
    requires Reachable(w, s)
    ensures Reachable(w, Run(w, s, events))
  {
    hide Run;
    var store, before :| NoEntries(store) && s == RunFrom(w, store, before);
    RunAppend(w, State(store, None), before, events);
    assert Run(w, s, events) == RunFrom(w, store, before + events);
  }

  lemma ReachableNext(w: World, s: State, e: Event)
    requires Reachable(w, s)
    ensures Reachable(w, Next(w, s, e))
  {
    hide Next, Reachable;
    ReachableRun(w, s, [e]);
    assert [e][1..] == [] && Run(w, Next(w, s, e), []) == Next(w, s, e);
  }

  // ------------------------------------------------------------------ consistency

  lemma ReachableAgrees(w: World, s: State) returns (stored: Option<Key>)
    requires Ideal(w) && Reachable(w, s)
    ensures Agrees(w.crypto, s, stored)
  {
    hide Sound, Committing, Holds, Run;
    var store, events :| NoEntries(store) && s == RunFrom(w, store, events);
    stored := RunKeeps(w, State(store, None), None, events);
  }

  /** In every reachable state the store has none or all of the entries; when all, they fit together
      around one key, and a key in memory is that key. */
  lemma EveryRunConsistent(w: World, store: Store, events: seq<Event>)
    requires Ideal(w) && NoEntries(store)
    ensures var s := RunFrom(w, store, events);
            && (NoEntries(s.store) || exists key: Key :: Holds(w.crypto, s.store, key))
            && (s.cek.Some? ==> Holds(w.crypto, s.store, s.cek.value))
  {
    hide Sound, Committing, Run, Holds;
    var stored := RunKeeps(w, State(store, None), None, events);
    if stored.Some? {
      assert Holds(w.crypto, RunFrom(w, store, events).store, stored.value);
    }
  }

  /** The stored key is one key. */
  lemma StoredKeyUnique(w: World, store: Store, key: Key, other: Key)
    requires Ideal(w) && Holds(w.crypto, store, key) && Holds(w.crypto, store, other)
    ensures key == other
  {
    hide UnwrapCek, DecryptDid, ParseStatus, FromUtf8;
    assert OneSeal(w.crypto, FromUtf8(store[DID_ENTRY]).value, key, other);
  }

  // ------------------------------------------------------------------ the key never changes

  /** After the vault holds a key, no run without a restore changes it, and any later session uses it. */
  lemma KeyNeverChanges(w: World, s: State, events: seq<Event>, key: Key)
    requires Ideal(w) && Reachable(w, s) && Holds(w.crypto, s.store, key) && NoRestore(events)
    ensures var later := Run(w, s, events);
            Holds(w.crypto, later.store, key) && (later.cek.None? || later.cek == Some(key))
  {
    hide Sound, Committing, Run, Holds, NoRestore;
    var stored := ReachableAgrees(w, s);
    HeldEntries(w, s.store, key);
    StoredKeyUnique(w, s.store, key, stored.value);
    var after := RunKeeps(w, s, stored, events);
  }

  lemma HeldEntries(w: World, store: Store, key: Key)
    requires Holds(w.crypto, store, key)
    ensures CEK_ENTRY in store && DID_ENTRY in store && STATUS_ENTRY in store
  {
  }

  /** Data encrypted in any unlocked session decrypts in every later unlocked one. */
  lemma DataSurvives(w: World, s: State, plaintext: bytes, o: Outside, events: seq<Event>)
    requires Ideal(w) && Reachable(w, s) && EncryptData(w, s, plaintext, o).Ok? && NoRestore(events)
    ensures var later := Run(w, s, events);
            later.cek.Some? ==> DecryptData(w, later, EncryptData(w, s, plaintext, o).value) == Ok(plaintext)
  {
    hide Committing, Run, Holds, NoRestore, EncryptDirect, DecryptDirect, UnwrapCek;
    var key := s.cek.value;
    var stored := ReachableAgrees(w, s);
    KeyNeverChanges(w, s, events, key);
    DirectRoundTrip(w.crypto, plaintext, key, None, o.didIv, []);
  }

  // ------------------------------------------------------------------ failures

  /** A failed unlock, reset or restore ends locked; so does a failed password change, unless the new
      password was blank, when nothing changes. The same calls end unlocked when they succeed. */
  lemma FailuresLock(w: World, s: State, op: Op, o: Outside)
    requires Ideal(w) && Reachable(w, s)
    ensures var r := Step(w, s, op, o);
            && (r.result.Err? && (op.Unlock? || op.ResetPassword? || op.Restore?) ==> r.state.cek.None?)
            && (r.result.Err? && op.ChangePassword? ==> r.state.cek.None? || (IsBlank(op.new_) && r.state == s))
            && (r.result.Ok? && !op.Lock? ==> r.state.cek.Some?)
  {
    hide Sound, Committing, ParsePayload, ApplyAll, NewIdentity, OpenStored, Rewrapped, Recovered, ExportData,
      BackupKey, KeyEntry, DidEntry, EncodeStatus, IsBlank, Run, Reachable;
    var stored := ReachableAgrees(w, s);
  }

  /** Unlock and lock never write; a call that fails writes nothing unless its commit went through
      unreported. */
  lemma FailuresWriteNothing(w: World, s: State, op: Op, o: Outside)
    ensures op.Unlock? || op.Lock? ==> Step(w, s, op, o).state.store == s.store
    ensures Step(w, s, op, o).result.Err? && !o.commit.Unreported? ==> Step(w, s, op, o).state.store == s.store
  {
    hide ParsePayload, ApplyAll, ReadStatus, NewIdentity, OpenStored, Rewrapped, Recovered, ExportData, BackupKey,
      EncodeStatus, IsBlank;
  }

  /** A blank new password is refused everywhere, and writes nothing. */
  lemma BlankPasswordsRefused(w: World, s: State, op: Op, o: Outside)
    requires || (op.Initialize? && IsBlank(op.password))
             || (op.ResetPassword? && IsBlank(op.password))
             || (op.ChangePassword? && IsBlank(op.new_))
    ensures Step(w, s, op, o).result.Err? && Step(w, s, op, o).state.store == s.store
  {
    hide ReadStatus, NewIdentity, Rewrapped, Recovered, IsBlank;
  }

  /** An initialized vault is never initialized again, and trying does not touch its entries. */
  lemma NeverInitializedTwice(w: World, s: State, key: Key, password: string, phrase: Option<string>, o: Outside)
    requires Holds(w.crypto, s.store, key)
    ensures var r := InitializeStep(w, s, password, phrase, o);
            r.result.Err? && r.state.store == s.store
              && (o.statusRead ==> r.result == Err(AlreadyInitialized) && r.state == s)
  {
    hide KeyEntry, DidEntry, NewIdentity, IsBlank;
  }

  /** No call touches anything in the store but the three entries. */
  lemma OtherSecretsUntouched(w: World, s: State, op: Op, o: Outside, key: string)
    requires key != CEK_ENTRY && key != DID_ENTRY && key != STATUS_ENTRY
    ensures Entry(Step(w, s, op, o).state.store, key) == Entry(s.store, key)
  {
    hide ParsePayload, ApplyAll, ReadStatus, NewIdentity, OpenStored, Rewrapped, Recovered, ExportData, BackupKey,
      EncodeStatus, IsBlank;
    forall a: bytes, b: bytes, d: bytes ensures Entry(ApplyAll(s.store, AllEntries(a, b, d)), key)
      == Entry(s.store, key) {
      ThreeWrites(s.store, a, b, d);
    }
    forall name: string, a: bytes ensures ApplyAll(s.store, [Put(name, a)]) == s.store[name := a] {
      OneWrite(s.store, name, a);
    }
  }

  // ------------------------------------------------------------------ passwords

  predicate PasswordOpens(c: Crypto, store: Store, password: string) {
    && CEK_ENTRY in store
    && FromUtf8(store[CEK_ENTRY]).Some?
    && UnwrapCek(c, FromUtf8(store[CEK_ENTRY]).value, ToUtf8(password)).Ok?
  }

  /** The stored key is well formed but does not authenticate under this password. */
  predicate WrongPassword(c: Crypto, store: Store, password: string) {
    && CEK_ENTRY in store
    && FromUtf8(store[CEK_ENTRY]).Some?
    && UnwrapCek(c, FromUtf8(store[CEK_ENTRY]).value, ToUtf8(password)) == Err(Authentication)
  }

  /** Where nothing outside fails, unlocking works with exactly the passwords that open the stored key,
      and gives the stored key. */
  lemma UnlockIff(w: World, s: State, password: string, o: Outside)
    requires Ideal(w) && Reachable(w, s) && o.statusRead && o.cekRead && o.unwrapTask
    ensures var r := UnlockStep(w, s, password, o);
            && (r.result.Ok? <==> PasswordOpens(w.crypto, s.store, password))
            && (r.result.Ok? ==> r.state.cek.Some? && Holds(w.crypto, s.store, r.state.cek.value))
            && (r.result == Err(InvalidPassword) <==> WrongPassword(w.crypto, s.store, password))
            && (r.result == Err(Uninitialized) <==> NoEntries(s.store))
  {
    hide Sound, Committing, DidEntry, UnwrapCek, ToUtf8, FromUtf8, ParseStatus, Run, Reachable;
    var stored := ReachableAgrees(w, s);
    UnlockKeeps(w, s, stored, password, o);
    NoStatus(w.crypto);
  }

  lemma NoStatus(c: Crypto)
    ensures ParseStatus(c, None) == Some(UNINITIALIZED)
  {
  }

  lemma WrappedHeader(w: World, password: string, cek: Key, salt: bytes, p2c: u32, o: Outside)
    requires Sound(w.crypto) && WrapKey(w, password, cek, salt, p2c, o).Ok?
    ensures var entry := WrapKey(w, password, cek, salt, p2c, o).value;
            FromUtf8(entry).Some? && UnwrapCek(w.crypto, FromUtf8(entry).value, ToUtf8(password))
              == Ok(OpenedCek(cek, CekHeader(p2c, salt, Some(TEXT_PLAIN))))
  {
    hide WrapTyped, UnwrapCek, ToUtf8, FromUtf8;
    FromUtf8OfToUtf8(WrapCek(w.crypto, ToUtf8(password), cek, salt, p2c, o.contentKey, o.keyIv).value);
    CekRoundTrip(w.crypto, ToUtf8(password), cek, salt, p2c, o.contentKey, o.keyIv);
  }

  /** After a password change the new password opens the stored key, with the key, the salt and the work
      factor it had under the old one; the other two entries are as before. */
  lemma NewPasswordOpens(w: World, s: State, old_: string, new_: string, o: Outside)
    requires Ideal(w) && ChangePasswordStep(w, s, old_, new_, o).result.Ok?
    ensures var later := ChangePasswordStep(w, s, old_, new_, o).state;
            && PasswordOpens(w.crypto, s.store, old_) && PasswordOpens(w.crypto, later.store, new_)
            && var before := UnwrapCek(w.crypto, FromUtf8(s.store[CEK_ENTRY]).value, ToUtf8(old_)).value;
            var after := UnwrapCek(w.crypto, FromUtf8(later.store[CEK_ENTRY]).value, ToUtf8(new_)).value;
            && before.cek == after.cek && before.header.p2s == after.header.p2s && before.header.p2c == after.header.p2c
            && later.store == s.store[CEK_ENTRY := later.store[CEK_ENTRY]]
            && later.cek == Some(before.cek)
  {
    hide Committing, UnwrapCek, ToUtf8, FromUtf8, ParseStatus, WrapKey, ApplyAll, IsBlank;
    var found := OpenStored(w, s.store, old_, o).value;
    WrappedHeader(w, new_, found.cek, found.header.p2s, found.header.p2c, o);
    OneWrite(s.store, CEK_ENTRY, Rewrapped(w, s.store, old_, new_, o).value.1);
  }

  // ------------------------------------------------------------------ the recovery phrase

  /** Nothing but a restore changes the DID entry of an initialized vault. */
  lemma DidKeptByNext(w: World, s: State, stored: Option<Key>, e: Event)
    requires Ideal(w) && Agrees(w.crypto, s, stored) && stored.Some? && !(e.Call? && e.op.Restore?)
    ensures Entry(Next(w, s, e).store, DID_ENTRY) == Entry(s.store, DID_ENTRY)
  {
    hide Sound, Committing, KeyEntry, DidEntry, ApplyAll, NewIdentity, OpenStored, Rewrapped, Recovered, ExportData,
      EncodeStatus, IsBlank, RestoreStep;
    forall name: string, a: bytes ensures ApplyAll(s.store, [Put(name, a)]) == s.store[name := a] {
      OneWrite(s.store, name, a);
    }
  }

  lemma {:induction false} DidKeptByRun(w: World, s: State, stored: Option<Key>, events: seq<Event>)
    requires Ideal(w) && Agrees(w.crypto, s, stored) && stored.Some? && NoRestore(events)
    ensures Entry(Run(w, s, events).store, DID_ENTRY) == Entry(s.store, DID_ENTRY)
    decreases |events|
  {
    hide Agrees, Next, Sound, Committing;
    if events != [] {
      DidKeptByNext(w, s, stored, events[0]);
      var next := NextKeeps(w, s, stored, events[0]);
      DidKeptByRun(w, Next(w, s, events[0]), next, events[1..]);
    }
  }

  /** A fresh identity: its DID entry reads back as the DID the provider gave, under its key. */
  lemma FreshIdentity(w: World, s: State, password: string, phrase: Option<string>, o: Outside)
    requires Ideal(w) && Reachable(w, s) && InitializeStep(w, s, password, phrase, o).result.Ok?
    ensures var r := InitializeStep(w, s, password, phrase, o);
            && Holds(w.crypto, r.state.store, r.result.value.cek)
            && r.state.cek == Some(r.result.value.cek)
            && DidReads(w.crypto, Entry(r.state.store, DID_ENTRY), r.result.value.cek, r.result.value.did)
            && PhraseKeys(w, r.result.value.phrase).Ok?
               && PhraseKeys(w, r.result.value.phrase).value.0 == r.result.value.cek
            && w.workFactor >= 1
            && Entry(r.state.store, STATUS_ENTRY) == Some(EncodeStatus(w.crypto, VaultStatus(true, None, None)))
  {
    hide Sound, Committing, KeyEntry, DidEntry, ParseStatus, EncodeStatus, ApplyAll, IsBlank, EncryptDid, DecryptDid,
      EncryptDirect, ToUtf8, FromUtf8, UnwrapCek, WrapTyped, Run, Reachable;
    var r := InitializeStep(w, s, password, phrase, o);
    var stored := ReachableAgrees(w, s);
    var after := InitializeKeeps(w, s, stored, password, phrase, o);
    var id := NewIdentity(w, password, phrase, o).value;
    ThreeWrites(s.store, id.cekEntry, id.didEntry, EncodeStatus(w.crypto, VaultStatus(true, None, None)));
    DidRoundTrip(w.crypto, id.did, id.cek, o.didIv);
    FromUtf8OfToUtf8(EncryptDid(w.crypto, DidBytes(w.crypto, id.did), id.cek, o.didIv).value);
  }

  /** The password given to initialize opens the stored key. */
  lemma InitialPasswordOpens(w: World, s: State, password: string, phrase: Option<string>, o: Outside)
    requires Ideal(w) && InitializeStep(w, s, password, phrase, o).result.Ok?
    ensures var r := InitializeStep(w, s, password, phrase, o);
            PasswordOpens(w.crypto, r.state.store, password) && r.state.cek == Some(r.result.value.cek)
  {
    hide Sound, Committing, ParseStatus, EncodeStatus, ApplyAll, IsBlank, SealDid, WrapKey, UnwrapCek, ToUtf8, FromUtf8;
    var id := NewIdentity(w, password, phrase, o).value;
    var keys := PhraseKeys(w, id.phrase).value;
    WrappedOpens(w, password, keys.0, keys.1, w.workFactor, o);
    ThreeWrites(s.store, id.cekEntry, id.didEntry, EncodeStatus(w.crypto, VaultStatus(true, None, None)));
  }

  predicate DidReads(c: Crypto, entry: Option<bytes>, key: Key, did: PortableDid) {
    && entry.Some? && FromUtf8(entry.value).Some?
    && DecryptDid(c, FromUtf8(entry.value).value, key).Some?
    && ReadDid(c, DecryptDid(c, FromUtf8(entry.value).value, key).value) == Some(did)
  }

  /** The identity is kept: after a successful initialize and any run without a restore, an unlocked
      vault returns the very DID that initialize returned. */
  lemma IdentityKept(w: World, s: State, password: string, phrase: Option<string>, o: Outside, events: seq<Event>,
                     o2: Outside)
    requires Ideal(w) && Reachable(w, s) && InitializeStep(w, s, password, phrase, o).result.Ok? && NoRestore(events)
    ensures var r := InitializeStep(w, s, password, phrase, o);
            var later := Run(w, r.state, events);
            && (later.cek.Some? && o2.didRead ==> GetDid(w, later, o2) == Ok(r.result.value.did))
            && DidReads(w.crypto, Entry(later.store, DID_ENTRY), r.result.value.cek, r.result.value.did)
            && Holds(w.crypto, later.store, r.result.value.cek)
  {
    hide Sound, Committing, Holds, InitializeStep, Run, NoRestore, DecryptDid, FromUtf8, ReadDid, Reachable;
    var r := InitializeStep(w, s, password, phrase, o);
    FreshIdentity(w, s, password, phrase, o);
    var key := r.result.value.cek;
    DidKeptByRun(w, r.state, Some(key), events);
    var after := RunKeeps(w, r.state, Some(key), events);
  }

  /** The phrase always recovers the vault: after any run without a restore, whatever happened to the
      password, a reset with the phrase that initialize returned succeeds, and the new password unlocks
      the original key. */
  lemma PhraseRecovers(w: World, s: State, password: string, phrase: Option<string>, o: Outside,
                       events: seq<Event>, newPassword: string, o2: Outside, o3: Outside)
    requires Ideal(w) && Reachable(w, s) && InitializeStep(w, s, password, phrase, o).result.Ok? && NoRestore(events)
    requires !IsBlank(newPassword) && o2.statusRead && o2.didRead && o2.wrapTask && o2.commit.Applied?
    requires o2.did.Some? && o2.did.value.uri == InitializeStep(w, s, password, phrase, o).result.value.did.uri
    requires o3.statusRead && o3.cekRead && o3.unwrapTask
    ensures var id := InitializeStep(w, s, password, phrase, o);
            var reset := ResetStep(w, Run(w, id.state, events), id.result.value.phrase, newPassword, o2);
            var unlock := UnlockStep(w, reset.state, newPassword, o3);
            && reset.result.Ok? && reset.state.cek == Some(id.result.value.cek)
            && unlock.result.Ok? && unlock.state.cek == Some(id.result.value.cek)
  {
    hide Committing, Run, InitializeStep, NoRestore, KeyEntry, DecryptDid, FromUtf8, ReadDid, ParseStatus, WrapTyped,
      UnwrapCek, ToUtf8, ApplyAll, IsBlank, Reachable;
    var id := InitializeStep(w, s, password, phrase, o);
    FreshIdentity(w, s, password, phrase, o);
    IdentityKept(w, s, password, phrase, o, events, o2);
    var later := Run(w, id.state, events);
    var keys := PhraseKeys(w, id.result.value.phrase).value;
    CekRoundTrip(w.crypto, ToUtf8(newPassword), keys.0, keys.1, w.workFactor, o2.contentKey, o2.keyIv);
    WrappedHeader(w, newPassword, keys.0, keys.1, w.workFactor, o2);
    OneWrite(later.store, CEK_ENTRY, WrapKey(w, newPassword, keys.0, keys.1, w.workFactor, o2).value);
  }

  /** A reset succeeds only with a phrase that derives the stored key and a provider that rebuilds the
      stored DID's URI; the DID and the status are untouched. */
  lemma ResetNeedsPhrase(w: World, s: State, phrase: string, password: string, o: Outside)
    requires Ideal(w) && Reachable(w, s) && ResetStep(w, s, phrase, password, o).result.Ok?
    ensures var later := ResetStep(w, s, phrase, password, o).state;
            && PhraseKeys(w, phrase).Ok? && Holds(w.crypto, s.store, PhraseKeys(w, phrase).value.0)
            && o.did.Some? && StoredUri(w, s.store, PhraseKeys(w, phrase).value.0) == Some(o.did.value.uri)
            && CEK_ENTRY in later.store && later.store == s.store[CEK_ENTRY := later.store[CEK_ENTRY]]
            && PasswordOpens(w.crypto, later.store, password)
  {
    hide Sound, Committing, Run, Reachable, KeyEntry, DidEntry, WrapKey, ApplyAll, IsBlank, StoredUri, UnwrapCek,
      ToUtf8, FromUtf8;
    var stored := ReachableAgrees(w, s);
    RecoveredKey(w, s.store, stored.value, phrase, password, o);
    var keys := PhraseKeys(w, phrase).value;
    WrappedHeader(w, password, keys.0, keys.1, w.workFactor, o);
    OneWrite(s.store, CEK_ENTRY, Recovered(w, s.store, phrase, password, o).value.1);
  }
}
