/** The vault and its store as objects updated in place; each method does one step of the state machine. */
module VaultService {
  import opened Wrappers
  import opened Bytes
  import opened Utf8
  import opened VaultJwe
  import opened Vault
  import Base64Url

  class SecretStore {
    var values: Store

    constructor ()
      ensures values == map[]
    {
      values := map[];
    }

    method Get(key: string, works: bool) returns (r: Result<Option<bytes>, VaultError>)
      ensures r == if works then Ok(Entry(values, key)) else Err(HostFailed)
    {
      if !works {
        return Err(HostFailed);
      }
      return Ok(if key in values then Some(values[key]) else None);
    }

    method Apply(writes: seq<SecretWrite>, commit: Commit) returns (ok: bool)
      modifies this
      ensures values == CommitTo(old(values), writes, commit)
      ensures ok == commit.Applied?
    {
      if commit.Refused? {
        return false;
      }
      var i := 0;
      while i < |writes|
        invariant 0 <= i <= |writes|
        invariant ApplyAll(values, writes[i..]) == ApplyAll(old(values), writes)
      {
        match writes[i] {
          case Put(key, value) => values := values[key := value];
          case Delete(key) => values := values - {key};
        }
        assert writes[i..][1..] == writes[i + 1..];
        i := i + 1;
      }
      assert writes[i..] == [];
      return commit.Applied?;
    }
  }

  class IdentityVault {
    const world: World
    const store: SecretStore
    var cek: Option<Key>

    constructor (w: World, s: SecretStore)
      ensures world == w && store == s && Now() == State(s.values, None)
    {
      world := w;
      store := s;
      cek := None;
    }

    function Now(): State
      reads this, store
    {
      State(store.values, cek)
    }

    method ReadStatusLockingOnError(o: Outside) returns (r: Result<VaultStatus, VaultError>)
      modifies this
      ensures r == ReadStatus(world, store.values, o)
      ensures cek == if r.Ok? then old(cek) else None
    {
      var read := store.Get(STATUS_ENTRY, o.statusRead);
      if read.Err? {
        cek := None;
        return Err(read.error);
      }
      var status := ParseStatus(world.crypto, read.value);
      if status.None? {
        cek := None;
        return Err(CorruptEntry);
      }
      return Ok(status.value);
    }

    method ReadSecretString(key: string, works: bool) returns (r: Result<string, VaultError>)
      ensures r == ReadText(store.values, key, works)
    {
      var read := store.Get(key, works);
      if read.Err? {
        return Err(read.error);
      }
      if read.value.None? {
        return Err(CorruptEntry);
      }
      var text := FromUtf8(read.value.value);
      return if text.Some? then Ok(text.value) else Err(CorruptEntry);
    }

    method Initialize(password: string, phrase: Option<string>, o: Outside) returns (r: Result<Identity, VaultError>)
      modifies this, store
      ensures Outcome(Now(), r) == InitializeStep(world, old(Now()), password, phrase, o)
    {
      hide ParseStatus, WrapCek, EncryptDid, EncodeStatus, ApplyAll, IsBlank;
      var status := ReadStatusLockingOnError(o);
      if status.Err? {
        return Err(status.error);
      }
      if status.value.initialized {
        return Err(AlreadyInitialized);
      }
      if IsBlank(password) {
        return Err(BlankPassword);
      }
      var words := if phrase.Some? then phrase.value else o.freshPhrase;
      var keys := PhraseKeys(world, words);
      if keys.Err? {
        return Err(keys.error);
      }
      var (key, salt) := keys.value;
      if o.did.None? {
        return Err(HostFailed);
      }
      if !world.crypto.usable(o.did.value) {
        return Err(InvalidDid);
      }
      var cekEntry := WrapKey(world, password, key, salt, world.workFactor, o);
      if cekEntry.Err? {
        return Err(cekEntry.error);
      }
      var didEntry := SealDid(world, o.did.value, key, o);
      if didEntry.Err? {
        return Err(didEntry.error);
      }
      var written := store.Apply(
        [Put(CEK_ENTRY, cekEntry.value), Put(DID_ENTRY, didEntry.value),
         Put(STATUS_ENTRY, EncodeStatus(world.crypto, VaultStatus(true, None, None)))],
        o.commit);
      if !written {
        return Err(HostFailed);
      }
      cek := Some(key);
      return Ok(Identity(words, o.did.value, key, cekEntry.value, didEntry.value));
    }

    method Unlock(password: string, o: Outside) returns (r: Result<(), VaultError>)
      modifies this
      ensures Outcome(Now(), r) == UnlockStep(world, old(Now()), password, o)
    {
      hide ParseStatus, UnwrapCek, ToUtf8, FromUtf8;
      var status := ReadStatusLockingOnError(o);
      if status.Err? {
        return Err(status.error);
      }
      if !status.value.initialized {
        return Err(Uninitialized);
      }
      cek := None;
      var entry := ReadSecretString(CEK_ENTRY, o.cekRead);
      if entry.Err? {
        return Err(entry.error);
      }
      var found := OpenKey(world, entry.value, password, CorruptEntry, o);
      if found.Err? {
        return Err(found.error);
      }
      cek := Some(found.value.cek);
      return Ok(());
    }

    method Lock(o: Outside) returns (r: Result<(), VaultError>)
      modifies this
      ensures Outcome(Now(), r) == LockStep(world, old(Now()), o)
    {
      var status := ReadStatusLockingOnError(o);
      if status.Err? {
        return Err(status.error);
      }
      if !status.value.initialized {
        return Err(Uninitialized);
      }
      cek := None;
      return Ok(());
    }

    method ChangePassword(old_: string, new_: string, o: Outside) returns (r: Result<(), VaultError>)
      modifies this, store
      ensures Outcome(Now(), r) == ChangePasswordStep(world, old(Now()), old_, new_, o)
    {
      hide ParseStatus, UnwrapCek, WrapCek, ToUtf8, FromUtf8, ApplyAll, IsBlank;
      var status := ReadStatusLockingOnError(o);
      if status.Err? {
        return Err(status.error);
      }
      if !status.value.initialized {
        return Err(Uninitialized);
      }
      if IsBlank(new_) {
        return Err(BlankPassword);
      }
      cek := None;
      var entry := ReadSecretString(CEK_ENTRY, o.cekRead);
      if entry.Err? {
        return Err(entry.error);
      }
      var found := OpenKey(world, entry.value, old_, CorruptEntry, o);
      if found.Err? {
        return Err(found.error);
      }
      var rewrapped := WrapKey(world, new_, found.value.cek, found.value.header.p2s, found.value.header.p2c, o);
      if rewrapped.Err? {
        return Err(rewrapped.error);
      }
      var written := store.Apply([Put(CEK_ENTRY, rewrapped.value)], o.commit);
      if !written {
        return Err(HostFailed);
      }
      cek := Some(found.value.cek);
      return Ok(());
    }

    method ResetPasswordWithRecoveryPhrase(phrase: string, password: string,
                                           o: Outside) returns (r: Result<(), VaultError>)
      modifies this, store
      ensures Outcome(Now(), r) == ResetStep(world, old(Now()), phrase, password, o)
    {
      hide ParseStatus, DecryptDid, ReadDid, WrapCek, ToUtf8, FromUtf8, ApplyAll, IsBlank;
      var status := ReadStatusLockingOnError(o);
      if status.Err? {
        return Err(status.error);
      }
      if !status.value.initialized {
        return Err(Uninitialized);
      }
      cek := None;
      if IsBlank(password) {
        return Err(BlankPassword);
      }
      var keys := PhraseKeys(world, phrase);
      if keys.Err? {
        return Err(keys.error);
      }
      var (key, salt) := keys.value;
      var entry := store.Get(DID_ENTRY, o.didRead);
      if entry.Err? {
        return Err(entry.error);
      }
      if entry.value.None? {
        return Err(PhraseMismatch);
      }
      var jwe := FromUtf8(entry.value.value);
      if jwe.None? {
        return Err(PhraseMismatch);
      }
      var did := DecryptDid(world.crypto, jwe.value, key);
      if did.None? {
        return Err(PhraseMismatch);
      }
      var storedDid := ReadDid(world.crypto, did.value);
      if storedDid.None? || o.did.None? || storedDid.value.uri != o.did.value.uri {
        return Err(PhraseMismatch);
      }
      var wrapped := WrapKey(world, password, key, salt, world.workFactor, o);
      if wrapped.Err? {
        return Err(wrapped.error);
      }
      var written := store.Apply([Put(CEK_ENTRY, wrapped.value)], o.commit);
      if !written {
        return Err(HostFailed);
      }
      cek := Some(key);
      return Ok(());
    }

    method Backup(o: Outside) returns (r: Result<BackupBlob, VaultError>)
      modifies this, store
      ensures Outcome(Now(), r) == BackupStep(world, old(Now()), o)
    {
      hide FromUtf8, ApplyAll, EncodeStatus, Base64Url.Encode;
      var status := ReadStatusLockingOnError(o);
      if status.Err? {
        return Err(status.error);
      }
      if !status.value.initialized {
        return Err(Uninitialized);
      }
      if cek.None? {
        return Err(Locked);
      }
      var did := ReadSecretString(DID_ENTRY, o.didRead);
      if did.Err? {
        return Err(did.error);
      }
      var key := ReadSecretString(CEK_ENTRY, o.cekRead);
      if key.Err? {
        return Err(key.error);
      }
      var statusValue := world.crypto.parseJson(store.values[STATUS_ENTRY]).value;
      var data := Base64Url.Encode(world.crypto.writeJson(PayloadJson(did.value, key.value, statusValue)));
      var written := store.Apply(
        [Put(STATUS_ENTRY, EncodeStatus(world.crypto, VaultStatus(true, Some(o.now), status.value.lastRestore)))],
        o.commit);
      if !written {
        return Err(HostFailed);
      }
      return Ok(BackupBlob(o.now, |data|, data));
    }

    method RestoreJson(json: bytes, password: string, o: Outside) returns (r: Result<(), VaultError>)
      modifies this, store
      ensures Outcome(Now(), r) == RestoreStep(world, old(Now()), json, password, o)
    {
      hide ParsePayload, ParseStatus, UnwrapCek, DecryptDid, ToUtf8, ApplyAll, EncodeStatus;
      cek := None;
      var payload := ParsePayload(world.crypto, json);
      if payload.None? {
        return Err(InvalidBackup);
      }
      var p := payload.value;
      var current := ReadStatusLockingOnError(o);
      if current.Err? {
        return Err(current.error);
      }
      var found := OpenKey(world, p.cek, password, InvalidBackup, o);
      if found.Err? {
        return Err(found.error);
      }
      var key := found.value.cek;
      if DecryptDid(world.crypto, p.did, key).None? {
        return Err(InvalidBackup);
      }
      var lastBackup := if p.lastBackup.Some? then p.lastBackup else current.value.lastBackup;
      var written := store.Apply(
        [Put(CEK_ENTRY, ToUtf8(p.cek)), Put(DID_ENTRY, ToUtf8(p.did)),
         Put(STATUS_ENTRY, EncodeStatus(world.crypto, VaultStatus(true, lastBackup, Some(o.now))))],
        o.commit);
      if !written {
        return Err(HostFailed);
      }
      cek := Some(key);
      return Ok(());
    }
  }
}
