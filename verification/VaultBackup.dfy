/** A backup puts the vault back: what `backup` exports, `restore` returns to the store. */
module VaultBackup {
  import opened Wrappers
  import opened Bytes
  import opened Utf8
  import opened VaultJwe
  import opened Vault
  import opened VaultRuns
  import opened VaultTheorems
  import Base64Url

  lemma BlobRoundTrip(c: Crypto, b: BackupBlob)
    requires Sound(c)
    ensures ParseBackup(c, c.writeJson(BackupJson(b))) == Some(b)
  {
    assert JsonKept(c, BackupJson(b));
  }

  /** Padding at the end of the data is tolerated: any number of `=` after the exported text. */
  lemma LenientDecode(raw: bytes, padding: string)
    requires forall i :: 0 <= i < |padding| ==> padding[i] == '='
    ensures DecodeLenient(Base64Url.Encode(raw) + padding) == Some(raw)
  {
    hide Base64Url.Encode, Base64Url.Decode;
    Base64Url.DecodeEncode(raw);
    Base64Url.EncodeDelimiterFree(raw);
    TrimPadded(Base64Url.Encode(raw), padding);
    var text := Base64Url.Encode(raw) + padding;
    if padding == "" {
      assert text == Base64Url.Encode(raw);
    } else {
      assert text[|text| - 1] == padding[|padding| - 1];
      if Base64Url.Decode(text).Some? {
        Base64Url.EncodeDecode(text);
        Base64Url.EncodeDelimiterFree(Base64Url.Decode(text).value);
        assert false;
      }
    }
  }

  lemma {:induction false} TrimPadded(s: string, padding: string)
    requires '=' !in s && forall i :: 0 <= i < |padding| ==> padding[i] == '='
    ensures TrimPadding(s + padding) == s
    decreases |padding|
  {
    if padding == "" {
      assert s + padding == s;
    } else {
      assert (s + padding)[|s + padding| - 1] == padding[|padding| - 1];
      assert (s + padding)[..|s + padding| - 1] == s + padding[..|padding| - 1];
      TrimPadded(s, padding[..|padding| - 1]);
    }
  }

  /** What a restore reads from an export: the two tokens, and the last backup the status named. */
  lemma ExportReadBack(w: World, store: Store, o: Outside, date: string, size: int)
    requires Sound(w.crypto) && ExportData(w, store, o).Ok? && ReadStatus(w, store, o).Ok?
             && ReadStatus(w, store, o).value.initialized
    ensures CEK_ENTRY in store && DID_ENTRY in store && FromUtf8(store[CEK_ENTRY]).Some?
            && FromUtf8(store[DID_ENTRY]).Some?
    ensures var blob := BackupBlob(date, size, ExportData(w, store, o).value);
            ParsePayload(w.crypto, w.crypto.writeJson(BackupJson(blob)))
            == Some(Payload(FromUtf8(store[DID_ENTRY]).value, FromUtf8(store[CEK_ENTRY]).value,
                            ReadStatus(w, store, o).value.lastBackup))
  {
    hide FromUtf8, Base64Url.Encode, DecodeLenient, ParseBackup, BackupJson;
    var c := w.crypto;
    var status := c.parseJson(store[STATUS_ENTRY]).value;
    var payload := PayloadJson(FromUtf8(store[DID_ENTRY]).value, FromUtf8(store[CEK_ENTRY]).value, status);
    var data := Base64Url.Encode(c.writeJson(payload));
    BlobRoundTrip(c, BackupBlob(date, size, data));
    assert data + "" == data;
    LenientDecode(c.writeJson(payload), "");
    assert JsonKept(c, payload);
  }

  function Status(w: World, s: State): VaultStatus {
    ParseStatus(w.crypto, Entry(s.store, STATUS_ENTRY)).GetOr(UNINITIALIZED)
  }

  /** What a restore at `later` of a backup taken at `s` leaves: the key and DID entries and the key of `s`,
      and the last-backup time from before the backup, or else the one at `later`. */
  function Restored(w: World, s: State, later: State, now: string): State
    requires CEK_ENTRY in s.store && DID_ENTRY in s.store
  {
    var lastBackup := if Status(w, s).lastBackup.Some? then Status(w, s).lastBackup else Status(w, later).lastBackup;
    State(later.store[CEK_ENTRY := s.store[CEK_ENTRY]][DID_ENTRY := s.store[DID_ENTRY]]
            [STATUS_ENTRY := EncodeStatus(w.crypto, VaultStatus(true, lastBackup, Some(now)))],
          s.cek)
  }

  /** A backup taken at any reachable state can be restored at any reachable state, over the same store or
      another, with a password that opened the key at backup time: it puts the same key and DID entries in
      place and ends unlocked under the original key. */
  lemma RestoreAnywhere(w: World, s: State, o: Outside, later: State, password: string, o2: Outside)
    requires Ideal(w) && Reachable(w, s) && BackupStep(w, s, o).result.Ok? && Reachable(w, later)
    requires PasswordOpens(w.crypto, s.store, password)
    requires o2.statusRead && o2.unwrapTask && o2.commit.Applied?
    ensures CEK_ENTRY in s.store && DID_ENTRY in s.store
    ensures RestoreStep(w, later, w.crypto.writeJson(BackupJson(BackupStep(w, s, o).result.value)), password, o2)
            == Outcome(Restored(w, s, later, o2.now), Ok(()))
  {
    hide Sound, Committing, ExportData, ParsePayload, UnwrapCek, DecryptDid, FromUtf8, ToUtf8, ApplyAll, EncodeStatus,
      BackupJson, Run, Reachable;
    var stored := ReachableAgrees(w, s);
    var key := stored.value;
    var blob := BackupStep(w, s, o).result.value;
    ExportReadBack(w, s.store, o, o.now, |ExportData(w, s.store, o).value|);
    var p := ParsePayload(w.crypto, w.crypto.writeJson(BackupJson(blob))).value;
    var after := ReachableAgrees(w, later);
    StatusReads(w, later, after, o2);
    OriginalKey(w, s.store, key, password, o2);
    var current := Status(w, later);
    var lastBackup := if p.lastBackup.Some? then p.lastBackup else current.lastBackup;
    ThreeWrites(later.store, ToUtf8(p.cek), ToUtf8(p.did),
                EncodeStatus(w.crypto, VaultStatus(true, lastBackup, Some(o2.now))));
  }

  /** In particular after any later run of the same vault. */
  lemma BackupThenRestore(w: World, s: State, o: Outside, events: seq<Event>, password: string, o2: Outside)
    requires Ideal(w) && Reachable(w, s) && BackupStep(w, s, o).result.Ok?
    requires PasswordOpens(w.crypto, s.store, password)
    requires o2.statusRead && o2.unwrapTask && o2.commit.Applied?
    ensures CEK_ENTRY in s.store && DID_ENTRY in s.store
    ensures var later := Run(w, BackupStep(w, s, o).state, events);
            RestoreStep(w, later, w.crypto.writeJson(BackupJson(BackupStep(w, s, o).result.value)), password, o2)
            == Outcome(Restored(w, s, later, o2.now), Ok(()))
  {
    hide Ideal, Reachable, Run, RestoreStep, BackupStep, Restored, PasswordOpens;
    ReachableNext(w, s, Call(Backup, o));
    ReachableRun(w, BackupStep(w, s, o).state, events);
    RestoreAnywhere(w, s, o, Run(w, BackupStep(w, s, o).state, events), password, o2);
  }

  lemma StatusReads(w: World, s: State, stored: Option<Key>, o: Outside)
    requires Agrees(w.crypto, s, stored) && o.statusRead
    ensures ReadStatus(w, s.store, o) == Ok(Status(w, s))
  {
  }

  lemma OriginalKey(w: World, store: Store, key: Key, password: string, o: Outside)
    requires Ideal(w) && Holds(w.crypto, store, key) && PasswordOpens(w.crypto, store, password) && o.unwrapTask
    ensures var did, cek := FromUtf8(store[DID_ENTRY]).value, FromUtf8(store[CEK_ENTRY]).value;
            forall lastBackup :: BackupKey(w, Payload(did, cek, lastBackup), password, o) == Ok(key)
  {
    hide Sound, UnwrapCek, DecryptDid, FromUtf8, ToUtf8, ParseStatus;
    var other: bytes :| OpensTo(w.crypto, store[CEK_ENTRY], other, key);
    assert OneKey(w.crypto, FromUtf8(store[CEK_ENTRY]).value, ToUtf8(password), other);
  }

  /** Where nothing outside fails, a backup works exactly when the vault is unlocked. */
  lemma BackupIff(w: World, s: State, o: Outside)
    requires Ideal(w) && Reachable(w, s) && o.statusRead && o.didRead && o.cekRead && o.commit.Applied?
    ensures BackupStep(w, s, o).result.Ok? <==> s.cek.Some?
  {
    hide Sound, Committing, UnwrapCek, DecryptDid, FromUtf8, ApplyAll, EncodeStatus, Base64Url.Encode, Run, Reachable;
    var stored := ReachableAgrees(w, s);
  }

  /** A backup records its own time and nothing else: the status keeps its last restore, and the key and
      the DID are untouched. */
  lemma BackupRecordsItself(w: World, s: State, o: Outside)
    requires Ideal(w) && Reachable(w, s) && BackupStep(w, s, o).result.Ok?
    ensures var r := BackupStep(w, s, o);
            && Status(w, r.state) == VaultStatus(true, Some(o.now), Status(w, s).lastRestore)
            && STATUS_ENTRY in r.state.store && r.state.store == s.store[STATUS_ENTRY := r.state.store[STATUS_ENTRY]]
            && r.state.cek == s.cek
            && r.result.value.dateCreated == o.now && r.result.value.size == |r.result.value.data|
  {
    hide Committing, UnwrapCek, DecryptDid, FromUtf8, ApplyAll, EncodeStatus, ParseStatus, ExportData, Run, Reachable;
    var status := VaultStatus(true, Some(o.now), ReadStatus(w, s.store, o).value.lastRestore);
    OneWrite(s.store, STATUS_ENTRY, EncodeStatus(w.crypto, status));
    StatusRoundTrip(w.crypto, status);
  }

  /** The time of a backup is not in the backup: where nothing outside fails, an unlocked vault that makes two
      backups and restores the second one says afterwards that the first was the last. */
  lemma BackupTimeGoesBack(w: World, s: State, password: string, o1: Outside, o2: Outside, o3: Outside)
    requires Ideal(w) && Reachable(w, s) && s.cek.Some? && PasswordOpens(w.crypto, s.store, password)
    requires forall o <- [o1, o2] :: o.statusRead && o.didRead && o.cekRead && o.commit.Applied?
    requires o3.statusRead && o3.unwrapTask && o3.commit.Applied?
    ensures var first := BackupStep(w, s, o1);
            var second := BackupStep(w, first.state, o2);
            && first.result.Ok? && second.result.Ok? && Status(w, second.state).lastBackup == Some(o2.now)
            && var blob := w.crypto.writeJson(BackupJson(second.result.value));
            var restored := RestoreStep(w, second.state, blob, password, o3);
            restored.result.Ok? && Status(w, restored.state).lastBackup == Some(o1.now)
  {
    hide Sound, Committing, Reachable, Run, RestoreStep, BackupStep, UnwrapCek, FromUtf8, ToUtf8, EncodeStatus,
      ParseStatus, BackupJson;
    assert o1 in [o1, o2] && o2 in [o1, o2];
    var first := BackupStep(w, s, o1);
    BackupIff(w, s, o1);
    BackupRecordsItself(w, s, o1);
    ReachableNext(w, s, Call(Backup, o1));
    var second := BackupStep(w, first.state, o2);
    BackupIff(w, first.state, o2);
    BackupRecordsItself(w, first.state, o2);
    ReachableNext(w, first.state, Call(Backup, o2));
    RestoreAnywhere(w, first.state, o2, second.state, password, o3);
    StatusRoundTrip(w.crypto, VaultStatus(true, Some(o1.now), Some(o3.now)));
  }
}
