/** The engine, operation by operation as it runs: every method is proved against the function
    of the same name in `Protocol`, and Push also against other clients' interference. */
module Helper {
  import opened Wrappers
  import opened Documents
  import opened Protocol
  import opened Interleaving
  import opened Linearizability
  import opened Packs
  import LocalState

  /** The store as its clients call it.  `alone` says that nobody else is using it; `log` is the
      history of committed manifests, and `own` how many of them were committed through this object. */
  class Server {
    var manifest: Option<Cipher>
    var mver: nat
    var roster: Option<Cipher>
    var rver: nat
    var keyfile: Option<Keyfile>
    var blobs: map<Digest, Cipher>
    ghost var log: seq<Commit>
    ghost var own: nat
    ghost const alone: bool

    function Value(): Store
      reads this
    {
      Store(manifest, mver, roster, rver, keyfile, blobs)
    }

    /** The manifest pointer is the end of a legal history. */
    ghost predicate Honest()
      reads this
    {
      && LogOk(log) && mver == |log|
      && (if log == [] then manifest.None? else manifest.Some? && manifest.value.text == log[|log| - 1].text)
    }

    /** Other clients run for a while: they extend the history legally and do anything to the
        rest of the store.  With nobody else around nothing happens. */
    method Others()
      requires Honest()
      modifies this
      ensures Honest() && old(log) <= log && own == old(own)
      ensures alone ==> Value() == old(Value()) && log == old(log)
    {
    }

    method GetManifest() returns (blob: Option<Cipher>, version: nat)
      ensures version == mver && blob == (if mver == 0 then None else manifest)
    {
      if mver == 0 {
        return None, 0;
      }
      return manifest, mver;
    }

    method CASManifest(expected: nat, blob: Cipher, version: nat, ghost k: Commit) returns (r: Outcome<Error>)
      modifies this`manifest, this`mver, this`log, this`own
      ensures match CasManifest(old(Value()), expected, blob, version)
        case Ok(s) => r == Pass && Value() == s && log == old(log) + [k] && own == old(own) + 1
        case Err(e) => r == Fail(e) && Value() == old(Value()) && log == old(log) && own == old(own)
    {
      if mver != expected {
        return Fail(VersionConflict);
      }
      manifest, mver := Some(blob), version;
      log, own := log + [k], own + 1;
      return Pass;
    }

    method CASRoster(expected: nat, blob: Cipher, version: nat) returns (r: Outcome<Error>)
      modifies this`roster, this`rver
      ensures match CasRoster(old(Value()), expected, blob, version)
        case Ok(s) => r == Pass && Value() == s
        case Err(e) => r == Fail(e) && Value() == old(Value())
    {
      var current := if roster.Some? then rver else 0;
      if current != expected {
        return Fail(VersionConflict);
      }
      roster, rver := Some(blob), version;
      return Pass;
    }

    method Put(c: Cipher)
      modifies this`blobs
      ensures blobs == PutBlob(old(blobs), c)
    {
      if ShaBlob(c) !in blobs {
        blobs := blobs[ShaBlob(c) := c];
      }
    }

    method Delete(id: Digest)
      modifies this`blobs
      ensures blobs == old(blobs) - {id}
    {
      blobs := blobs - {id};
    }
  }

  /** What an undisturbed attempt leaves. */
  lemma RebaseWins(
      o: Opened, st: State, imported: seq<Digest>, git: Git, s: Store, cur: Current, wants: map<string, Object>,
      objects: set<Object>, draw: nat)
    requires s.mver == cur.Version()
    ensures var more := NewPack(o.ses, objects, draw);
      var text := PushText(o, cur, wants, more);
      var s1 := if more == [] then s else s.(blobs := PutBlob(s.blobs, o.ses.Seal(PackText(objects), draw)));
      Protocol.PushRebased(o, st, imported, git, s, cur, wants, Some(objects), draw)
      == Pushed(s1.(manifest := Some(o.ses.Seal(text, draw + 1)), mver := cur.Version() + 1),
                st.(imported := if more == [] then imported else Insert(imported, more[0]),
                    version := cur.Version() + 1, hash := Sha(text)),
                git, Pass)
  {
  }

  lemma RebaseStops(
      o: Opened, st: State, imported: seq<Digest>, git: Git, s: Store, cur: Current, wants: map<string, Object>,
      draw: nat)
    ensures Protocol.PushRebased(o, st, imported, git, s, cur, wants, None, draw) == Pushed(s, st, git, Fail(GitFailed))
  {
  }

  lemma {:induction false} UpdateRefsThen(git: Git, refs: map<string, Object>, order: seq<string>, n: string)
    requires (forall x | x in order :: x in refs) && n in refs
    requires Protocol.UpdateRefs(git, refs, order).1.Pass?
    ensures Protocol.UpdateRefs(git, refs, order + [n]) ==
      var g := Protocol.UpdateRefs(git, refs, order).0;
      if refs[n] in g.objects then (g.(refs := g.refs[n := refs[n]]), Pass) else (g, Fail(ObjectMissing))
    decreases |order|
  {
    if order != [] {
      assert (order + [n])[1..] == order[1..] + [n];
      UpdateRefsThen(git.(refs := git.refs[order[0] := refs[order[0]]]), refs, order[1..], n);
    }
  }

  /** The local git directory. */
  class GitDir {
    var objects: set<Object>
    var refs: map<string, Object>

    function Value(): Git
      reads this
    {
      Git(objects, refs)
    }

    method IndexPack(text: Text) returns (ok: bool)
      modifies this`objects
      ensures ok <==> text.PackText?
      ensures objects == old(objects) + if ok then text.objects else {}
    {
      if text.PackText? {
        objects := objects + text.objects;
        return true;
      }
      return false;
    }

    method UpdateRef(name: string, o: Object) returns (ok: bool)
      modifies this`refs
      ensures ok <==> o in objects
      ensures refs == if ok then old(refs)[name := o] else old(refs)
    {
      if o in objects {
        refs := refs[name := o];
        return true;
      }
      return false;
    }

    /** Callers may rely on the contract of git only. */
    method GeneratePack(want: set<Object>, have: set<Object>) returns (packed: Option<set<Object>>)
      ensures packed.Some? ==> PackContract(want, have, packed.value) && packed.value <= objects
    {
      var needed := ReachSet(want) - ReachSet(have);
      return if needed <= objects then Some(needed) else None;
    }
  }

  /** Random draws, numbered so that no two are the same. */
  class Entropy {
    var next: nat

    method Draw() returns (n: nat)
      modifies this
      ensures n == old(next) && next == n + 1
    {
      n := next;
      next := next + 1;
    }
  }

  /** The keys for packs and manifests derived from a repository key. */
  datatype PackKeys = PackKeys(key: Key, repo: RepoId) {
    predicate Opens(c: Cipher) {
      c.key == key && c.repo == repo
    }
  }

  class Engine {
    const id: Identity
    const repo: RepoId
    const store: Server
    const file: LocalState.File
    const git: GitDir
    const random: Entropy
    var repoKey: Key
    var kfGeneration: nat
    var pack: PackKeys
    var knownKeys: seq<Key>
    var packCache: map<Key, PackKeys>

    constructor (id: Identity, repo: RepoId, store: Server, file: LocalState.File, git: GitDir, random: Entropy)
      ensures this.id == id && this.repo == repo && this.store == store && this.file == file
      ensures this.git == git && this.random == random && Valid()
    {
      this.id, this.repo, this.store, this.file, this.git, this.random := id, repo, store, file, git, random;
      repoKey, kfGeneration, pack, knownKeys, packCache := 0, 0, PackKeys(0, repo), [], map[];
    }

    /** The cached keys are the derived ones. */
    predicate Valid()
      reads this
    {
      pack == PackKeys(repoKey, repo) && forall k | k in packCache :: packCache[k] == PackKeys(k, repo)
    }

    function Ses(): Session
      reads this
    {
      Session(id, repo, repoKey, kfGeneration, knownKeys)
    }

    method RefreshPackKeys() returns (r: Outcome<Error>)
      requires Valid()
      modifies this, file
      ensures Valid()
      ensures match Refresh(id, repo, old(file.saved), store.keyfile)
        case Err(e) => r == Fail(e) && file.saved == old(file.saved)
        case Ok((ses, st)) => r == Pass && Ses() == ses && file.saved == st
    {
      if store.keyfile.None? {
        return Fail(NoKeyfile);
      }
      var k := store.keyfile.value;
      if id.x !in k.recipients {
        return Fail(NotRecipient);
      }
      repoKey, kfGeneration, pack := k.key, k.gen, PackKeys(k.key, repo);
      var st := file.Load();
      var held := st.HasKey(repoKey);
      if !held {
        st.AddKey(repoKey);
        file.Save(st);
      }
      knownKeys := st.keys;
      packCache := map[repoKey := pack];
      return Pass;
    }

    method PackKeysFor(k: Key) returns (pk: PackKeys)
      requires Valid()
      modifies this`packCache
      ensures Valid() && pk == PackKeys(k, repo)
    {
      if k in packCache {
        return packCache[k];
      }
      pk := PackKeys(k, repo);
      packCache := packCache[k := pk];
    }

    /** The current key first, then every key held earlier. */
    method DecryptPack(c: Cipher) returns (r: Option<Text>)
      requires Valid()
      modifies this`packCache
      ensures Valid()
      ensures r == if Ses().OpensAny(c) then Some(c.text) else None
    {
      if pack.Opens(c) {
        return Some(c.text);
      }
      for i := 0 to |knownKeys|
        invariant Valid()
        invariant c.repo == repo ==> c.key !in knownKeys[..i]
      {
        var pk := PackKeysFor(knownKeys[i]);
        if pk.Opens(c) {
          return Some(c.text);
        }
      }
      return None;
    }

    method CheckKeyfileGeneration(trusted: Roster) returns (r: Outcome<Error>)
      ensures r == if GenerationMatches(Ses(), trusted) then Pass else Fail(BadGeneration)
    {
      if trusted.body.gen == 0 || kfGeneration == 0 {
        return Fail(BadGeneration);
      }
      if kfGeneration != trusted.body.gen {
        return Fail(BadGeneration);
      }
      return Pass;
    }

    method LoadTrustedRoster() returns (r: Result<(Roster, Digest), Error>)
      requires Valid()
      modifies this`packCache, file
      ensures Valid()
      ensures match LoadTrusted(Ses(), old(file.saved), store.roster)
        case Err(e) => r == Err(e) && file.saved == old(file.saved)
        case Ok(t) => r == Ok((t.roster, t.hash)) && file.saved == t.st
    {
      if store.roster.None? {
        return Err(NoRoster);
      }
      var plain := DecryptPack(store.roster.value);
      if plain.None? {
        return Err(RosterUndecryptable);
      }
      var text := plain.value;
      if !text.RosterText? {
        return Err(RosterUnparsable);
      }
      var ro, hash := text.roster, Sha(text);
      var st := file.Load();
      if !st.rosterPinned {
        if ro.body.Has(ro.body.author) && !ro.Verify(ro.body.author.ed) {
          return Err(RosterBadSignature);
        }
        st.Pin(ro.body.version, text);
        file.Save(st);
        return Ok((ro, hash));
      }
      if !st.trusted.RosterText? {
        return Err(RosterUnparsable);
      }
      var trusted := st.trusted.roster;
      if ro.body.version == st.rosterVersion {
        if hash != st.rosterHash {
          return Err(RosterEquivocation);
        }
        return Ok((trusted, st.rosterHash));
      }
      if ro.body.version < st.rosterVersion {
        return Err(RosterRollback);
      }
      if ro.body.prev != Some(st.rosterHash) {
        return Err(RosterChainBreak);
      }
      if !trusted.body.Has(ro.body.author) {
        return Err(AuthorNotMember);
      }
      if !ro.Verify(ro.body.author.ed) {
        return Err(RosterBadSignature);
      }
      st.Pin(ro.body.version, text);
      file.Save(st);
      return Ok((ro, hash));
    }

    /** The preamble every operation starts with. */
    method Open() returns (r: Result<(Roster, Digest), Error>)
      requires Valid()
      modifies this, file
      ensures Valid()
      ensures var (st, e) := Enter(id, repo, old(file.saved), store.Value());
        && file.saved == st
        && match e
           case Err(x) => r == Err(x)
           case Ok(o) => r == Ok((o.trusted, o.hash)) && Ses() == o.ses
    {
      var refreshed := RefreshPackKeys();
      if refreshed.Fail? {
        return Err(refreshed.error);
      }
      r := LoadTrustedRoster();
      if r.Err? {
        return;
      }
      var ok := CheckKeyfileGeneration(r.value.0);
      if ok.Fail? {
        return Err(ok.error);
      }
    }

    method VerifyManifestWithRoster(m: Manifest, trusted: Roster) returns (r: Outcome<Error>)
      ensures r == VerifyManifest(m, trusted)
    {
      if m.body.rosterHash != ShaRosterBody(trusted.body) {
        return Fail(RosterHashMismatch);
      }
      if !trusted.body.Has(m.body.pusher) {
        return Fail(SignerNotMember);
      }
      return if m.Verify(m.body.pusher.ed) then Pass else Fail(ManifestBadSignature);
    }

    /** Decrypt with the current key, parse, verify. */
    method ReadManifest(trusted: Roster, blob: Option<Cipher>) returns (r: Result<Manifest, Error>)
      requires Valid()
      ensures r == OpenManifest(Ses(), trusted, blob)
    {
      if blob.None? || !pack.Opens(blob.value) {
        return Err(ManifestUndecryptable);
      }
      if !blob.value.text.ManifestText? {
        return Err(ManifestUnparsable);
      }
      var m := blob.value.text.manifest;
      var ok := VerifyManifestWithRoster(m, trusted);
      return if ok.Fail? then Err(ok.error) else Ok(m);
    }

    method LoadCurrent(trusted: Roster) returns (r: Result<Current, Error>)
      requires Valid()
      ensures r == Protocol.LoadCurrent(Ses(), trusted, store.Value()) && r != Err(Error.GaveUp)
    {
      var blob, version := store.GetManifest();
      if version == 0 {
        return Ok(NoManifest);
      }
      var m := ReadManifest(trusted, blob);
      if m.Err? {
        return Err(m.error);
      }
      return Ok(Current(m.value, version, Sha(blob.value.text)));
    }

    method ImportPack(id: Digest) returns (r: Outcome<Error>)
      requires Valid()
      modifies this`packCache, git`objects
      ensures Valid()
      ensures match Protocol.ImportPack(Ses(), old(git.Value()), id, Lookup(store.blobs, id))
        case Err(e) => r == Fail(e) && git.Value() == old(git.Value())
        case Ok(g) => r == Pass && git.Value() == g
    {
      if id !in store.blobs {
        return Fail(BlobMissing);
      }
      var blob := store.blobs[id];
      if ShaBlob(blob) != id {
        return Fail(BlobMismatch);
      }
      var raw := DecryptPack(blob);
      if raw.None? {
        return Fail(PackUndecryptable);
      }
      var ok := git.IndexPack(raw.value);
      return if ok then Pass else Fail(PackCorrupt);
    }

    /** Imports the missing packs while others may be at work on the store. */
    method EnsureLocalObjects(packs: seq<Digest>, st: LocalState.Record) returns (r: Outcome<Error>)
      requires Valid() && store.Honest()
      modifies this`packCache, store, git`objects, st`imported
      ensures Valid() && store.Honest() && old(store.log) <= store.log && r != Fail(Error.GaveUp)
      ensures store.own == old(store.own)
      ensures store.alone ==>
        && store.Value() == old(store.Value()) && store.log == old(store.log)
        && Imported(git.Value(), st.imported, r)
          == ImportPacks(Ses(), old(git.Value()), old(st.imported), packs, store.blobs)
    {
      for i := 0 to |packs|
        invariant Valid() && store.Honest() && old(store.log) <= store.log && store.own == old(store.own)
        invariant Ses() == old(Ses()) && git.refs == old(git.refs)
        invariant store.alone ==>
          && store.Value() == old(store.Value()) && store.log == old(store.log)
          && ImportPacks(Ses(), git.Value(), st.imported, packs[i..], store.blobs)
             == ImportPacks(Ses(), old(git.Value()), old(st.imported), packs, old(store.blobs))
      {
        assert packs[i..][1..] == packs[i + 1..];
        var have := st.HasPack(packs[i]);
        if !have {
          store.Others();
          r := ImportPack(packs[i]);
          if r.Fail? {
            return;
          }
          st.AddPack(packs[i]);
        }
      }
      return Pass;
    }
    /** The new objects of a push, if any, as a pack: put, recorded as imported, and its id. */
    method SendPack(objects: set<Object>, nonce: nat, st: LocalState.Record) returns (more: seq<Digest>)
      requires Valid() && store.Honest()
      modifies store, st`imported
      ensures store.Honest() && old(store.log) <= store.log && store.own == old(store.own)
      ensures more == NewPack(Ses(), objects, nonce) && |more| <= 1 && Covered(more) == objects
      ensures st.imported == if more == [] then old(st.imported) else Insert(old(st.imported), more[0])
      ensures store.alone ==>
        && store.log == old(store.log)
        && store.Value() == (
             if more == [] then old(store.Value())
             else old(store.Value()).(blobs := PutBlob(old(store.blobs), Ses().Seal(PackText(objects), nonce))))
    {
      if objects == {} {
        return [];
      }
      var blob := Cipher(pack.key, pack.repo, nonce, PackText(objects));
      store.Others();
      store.Put(blob);
      st.AddPack(ShaBlob(blob));
      CoveredOne(ShaBlob(blob));
      return [ShaBlob(blob)];
    }

    /** Signs, seals and tries to commit the new manifest over the version that was read. */
    method CommitPush(
        trusted: Roster, ghost hash: Digest, cur: Current, wants: map<string, Object>, more: seq<Digest>, nonce: nat,
        st: LocalState.Record, ghost before: seq<Commit>)
      returns (r: Outcome<Error>)
      requires Valid() && store.Honest() && before <= store.log
      requires LogOk(before) && Snapshot(before, cur) && cur.Version() == |before|
      requires |more| <= 1 && PackContract(wants.Values, cur.Refs().Values, Covered(more))
      modifies store, st`version, st`hash
      ensures store.Honest() && before <= store.log && old(store.log) <= store.log
      ensures store.own == old(store.own) + if r.Pass? then 1 else 0
      ensures r.Pass? ==>
        && |store.log| == |before| + 1 && store.log[|before|].kind == PushKind(wants)
        && st.version == |store.log| && st.hash == Sha(store.log[|before|].text)
      ensures r.Fail? ==> r.error == VersionConflict && |store.log| > |before| && st.Value() == old(st.Value())
      ensures store.alone && |before| == |old(store.log)| ==>
        var text := PushText(Opened(Ses(), trusted, hash), cur, wants, more);
        && r.Pass?
        && st.hash == Sha(text) && st.version == cur.Version() + 1
        && store.Value() == old(store.Value()).(manifest := Some(Ses().Seal(text, nonce)), mver := cur.Version() + 1)
    {
      var body := ManifestBody(
        repo, cur.Version() + 1, cur.Prev(), cur.Refs() + wants, cur.Packs() + more, id, ShaRosterBody(trusted.body));
      var text := ManifestText(SignManifest(body, id), 0);
      store.Others();
      ghost var k := Commit(0, PushKind(wants), text);
      ghost var log := store.log;
      r := store.CASManifest(cur.Version(), Cipher(pack.key, pack.repo, nonce, text), cur.Version() + 1, k);
      if r.Pass? {
        assert log == before;
        PushCommitOk(before, Ses(), trusted, cur, wants, more, k);
        st.version, st.hash := body.version, Sha(text);
      }
    }

    /** Puts the new pack, commits the manifest and saves the state. */
    method Publish(
        trusted: Roster, ghost hash: Digest, cur: Current, wants: map<string, Object>, objects: set<Object>,
        st: LocalState.Record, ghost before: seq<Commit>)
      returns (r: Outcome<Error>)
      requires Valid() && store.Honest() && before <= store.log
      requires LogOk(before) && Snapshot(before, cur) && cur.Version() == |before|
      requires PackContract(wants.Values, cur.Refs().Values, objects)
      modifies file, store, random, st
      ensures store.Honest() && before <= store.log && old(store.log) <= store.log && file.saved == st.Value()
      ensures store.own == old(store.own) + if r.Pass? then 1 else 0
      ensures r.Fail? ==> r.error == VersionConflict && |store.log| > |before|
      ensures r.Pass? ==>
        && |store.log| == |before| + 1 && store.log[|before|].kind == PushKind(wants)
        && st.version == |store.log| && st.hash == Sha(store.log[|before|].text)
      ensures store.alone && |before| == |old(store.log)| ==>
        var draw := old(random.next);
        var more := NewPack(Ses(), objects, draw);
        var text := PushText(Opened(Ses(), trusted, hash), cur, wants, more);
        && r.Pass?
        && st.imported == (if more == [] then old(st.imported) else Insert(old(st.imported), more[0]))
        && st.Value() == old(st.Value()).(imported := st.imported, version := cur.Version() + 1, hash := Sha(text))
        && var s1 := if more == [] then old(store.Value())
             else old(store.Value()).(blobs := PutBlob(old(store.blobs), Ses().Seal(PackText(objects), draw)));
           store.Value() == s1.(manifest := Some(Ses().Seal(text, draw + 1)), mver := cur.Version() + 1)
    {
      var n := random.Draw();
      var more := SendPack(objects, n, st);
      n := random.Draw();
      r := CommitPush(trusted, hash, cur, wants, more, n, st, before);
      file.Save(st);
    }

    /** The rest of a round once the live packs are imported. */
    method PushRebased(
        trusted: Roster, ghost hash: Digest, cur: Current, wants: map<string, Object>, st: LocalState.Record,
        ghost before: seq<Commit>)
      returns (r: Outcome<Error>, retry: bool, ghost packed: Option<set<Object>>)
      requires Valid() && store.Honest() && before <= store.log && st.Value() == file.saved.(imported := st.imported)
      requires LogOk(before) && Snapshot(before, cur) && cur.Version() == |before|
      modifies file, store, random, st
      ensures store.Honest() && before <= store.log && old(store.log) <= store.log
      ensures store.own == old(store.own) + if r.Pass? then 1 else 0
      ensures retry ==> r.Fail? && file.saved == st.Value() && |store.log| > |before|
      ensures r.Pass? ==>
        && !retry && file.saved.version == |store.log| == |before| + 1
        && store.log[|before|].kind == PushKind(wants) && file.saved.hash == Sha(store.log[|before|].text)
      ensures r != Fail(Error.GaveUp)
      ensures store.alone && |before| == |old(store.log)| ==>
        && !retry
        && Pushed(store.Value(), file.saved, git.Value(), r)
           == Protocol.PushRebased(Opened(Ses(), trusted, hash), old(file.saved), old(st.imported), git.Value(),
                                   old(store.Value()), cur, wants, packed, old(random.next))
    {
      hide Protocol.PushRebased, NewPack, PushText, LogOk, PackContract, Snapshot;
      packed, retry := None, false;
      var objects := git.GeneratePack(wants.Values, cur.Refs().Values);
      packed := objects;
      if objects.None? {
        RebaseStops(Opened(Ses(), trusted, hash), file.saved, st.imported, git.Value(), store.Value(), cur, wants,
                    random.next);
        r := Fail(GitFailed);
        return;
      }
      if store.alone && |before| == |store.log| {
        RebaseWins(Opened(Ses(), trusted, hash), file.saved, st.imported, git.Value(), store.Value(), cur, wants,
                   objects.value, random.next);
      }
      r := Publish(trusted, hash, cur, wants, objects.value, st, before);
      retry := r.Fail?;
    }

    /** One round of the retry loop once it has read what it pushes over. */
    method PushOver(
        trusted: Roster, ghost hash: Digest, cur: Current, wants: map<string, Object>, st: LocalState.Record,
        ghost before: seq<Commit>)
      returns (r: Outcome<Error>, retry: bool, ghost packed: Option<set<Object>>)
      requires Valid() && store.Honest() && before <= store.log && file.saved == st.Value()
      requires LogOk(before) && Snapshot(before, cur) && cur.Version() == |before|
      modifies this`packCache, file, store, git`objects, random, st
      ensures Valid() && store.Honest() && before <= store.log && old(store.log) <= store.log
      ensures store.own == old(store.own) + if r.Pass? then 1 else 0
      ensures retry ==> r.Fail? && file.saved == st.Value() && |store.log| > |before|
      ensures r.Pass? ==>
        && !retry && file.saved.version == |store.log| == |before| + 1
        && store.log[|before|].kind == PushKind(wants) && file.saved.hash == Sha(store.log[|before|].text)
      ensures r != Fail(Error.GaveUp)
      ensures store.alone && |before| == |old(store.log)| ==>
        && !retry
        && Pushed(store.Value(), file.saved, git.Value(), r)
           == Protocol.PushOver(Opened(Ses(), trusted, hash), old(file.saved), old(git.Value()), old(store.Value()),
             cur, wants, packed, old(random.next))
    {
      hide ImportPacks, Protocol.PushRebased, LogOk, Snapshot;
      packed, retry := None, false;
      r := EnsureLocalObjects(cur.Packs(), st);
      if r.Fail? {
        return;
      }
      r, retry, packed := PushRebased(trusted, hash, cur, wants, st, before);
    }

    /** One round of the retry loop.  It asks to be retried only when somebody else committed. */
    method Attempt(trusted: Roster, ghost hash: Digest, wants: map<string, Object>, st: LocalState.Record)
      returns (r: Outcome<Error>, retry: bool, ghost packed: Option<set<Object>>)
      requires Valid() && store.Honest() && file.saved == st.Value()
      modifies this`packCache, file, store, git`objects, random, st
      ensures Valid() && store.Honest() && old(store.log) <= store.log
      ensures store.own == old(store.own) + if r.Pass? then 1 else 0
      ensures retry ==> r.Fail? && file.saved == st.Value() && !store.alone && |store.log| > |old(store.log)|
      ensures r.Pass? ==>
        && !retry && |old(store.log)| < file.saved.version <= |store.log|
        && store.log[file.saved.version - 1].kind == PushKind(wants)
        && file.saved.hash == Sha(store.log[file.saved.version - 1].text)
      ensures r != Fail(Error.GaveUp)
      ensures store.alone ==>
        Pushed(store.Value(), file.saved, git.Value(), r)
        == PushAttempt(Opened(Ses(), trusted, hash), old(file.saved), old(git.Value()), old(store.Value()), wants,
          packed, old(random.next))
    {
      hide Protocol.PushOver, LogOk;
      packed, retry := None, false;
      store.Others();
      var read := LoadCurrent(trusted);
      if read.Err? {
        r := Fail(read.error);
        return;
      }
      r, retry, packed := PushOver(trusted, hash, read.value, wants, st, store.log);
    }

    /** The retry loop. */
    method Retry(trusted: Roster, ghost hash: Digest, wants: map<string, Object>)
      returns (r: Outcome<Error>, ghost packed: Option<set<Object>>)
      requires Valid() && store.Honest()
      modifies this`packCache, file, store, git`objects, random
      ensures Valid() && store.Honest() && old(store.log) <= store.log
      ensures store.own == old(store.own) + if r.Pass? then 1 else 0
      ensures r.Pass? ==>
        && |old(store.log)| < file.saved.version <= |store.log|
        && store.log[file.saved.version - 1].kind == PushKind(wants)
        && file.saved.hash == Sha(store.log[file.saved.version - 1].text)
      ensures r == Fail(Error.GaveUp) ==> |store.log| >= |old(store.log)| + 16
      ensures store.alone ==>
        Pushed(store.Value(), file.saved, git.Value(), r)
        == PushAttempt(Opened(Ses(), trusted, hash), old(file.saved), old(git.Value()), old(store.Value()), wants,
          packed, old(random.next))
    {
      packed := None;
      var st := file.Load();
      var retry;
      for attempt := 0 to MAX_ATTEMPTS
        invariant Valid() && store.Honest() && old(store.log) <= store.log && file.saved == st.Value()
        invariant store.own == old(store.own)
        invariant |store.log| >= |old(store.log)| + attempt
        invariant store.alone ==>
          && attempt == 0 && store.Value() == old(store.Value()) && store.log == old(store.log)
          && file.saved == old(file.saved) && git.Value() == old(git.Value()) && random.next == old(random.next)
      {
        r, retry, packed := Attempt(trusted, hash, wants, st);
        if !retry {
          return;
        }
      }
      return Fail(Error.GaveUp), packed;
    }

    /** Reads, rebases and retries until the commit wins, at most 16 times.  When it passes, one
        commit of the history is this push; when it gives up, at least 16 commits were made meanwhile and
        none of them by this client. */
    method Push(wants: map<string, Object>) returns (r: Outcome<Error>, ghost packed: Option<set<Object>>)
      requires Valid() && store.Honest()
      modifies this, file, store, git`objects, random
      ensures Valid() && store.Honest() && old(store.log) <= store.log
      ensures store.own == old(store.own) + if r.Pass? then 1 else 0
      ensures r.Pass? ==>
        && |old(store.log)| < file.saved.version <= |store.log|
        && store.log[file.saved.version - 1].kind == PushKind(wants)
        && file.saved.hash == Sha(store.log[file.saved.version - 1].text)
      ensures r == Fail(Error.GaveUp) ==> |store.log| >= |old(store.log)| + 16
      ensures store.alone ==>
        Pushed(store.Value(), file.saved, git.Value(), r)
        == Protocol.Push(id, repo, old(file.saved), old(git.Value()), old(store.Value()), wants, packed,
          old(random.next))
    {
      packed := None;
      store.Others();
      var entered := Open();
      if entered.Err? {
        r := Fail(entered.error);
        return;
      }
      var trusted := entered.value.0;
      if !trusted.body.Has(id) {
        r := Fail(NotMember);
        return;
      }
      if wants == map[] {
        r := Fail(NothingToPush);
        return;
      }
      r, packed := Retry(trusted, entered.value.1, wants);
    }
    /** The acceptance rule: rollback, equivocation and chain checks against the pin. */
    method Judge(m: Manifest, hash: Digest, st: LocalState.Record) returns (r: Result<Verdict, Error>)
      ensures r ==
        if st.version == 0 then Ok(Advance(m, hash))
        else if m.body.version == st.version then (if hash == st.hash then Ok(UpToDate) else Err(Equivocation))
        else if m.body.version < st.version then Err(Rollback)
        else if m.body.prev != Some(st.hash) then Err(ChainBreak)
        else Ok(Advance(m, hash))
    {
      if st.version != 0 {
        if m.body.version < st.version {
          return Err(Rollback);
        } else if m.body.version == st.version {
          return if hash != st.hash then Err(Equivocation) else Ok(UpToDate);
        } else if m.body.prev.None? || m.body.prev.value != st.hash {
          return Err(ChainBreak);
        }
      }
      return Ok(Advance(m, hash));
    }

    method ImportMissing(packs: seq<Digest>, st: LocalState.Record) returns (r: Outcome<Error>)
      requires Valid()
      modifies this`packCache, git`objects, st`imported
      ensures Valid()
      ensures Imported(git.Value(), st.imported, r)
        == ImportPacks(Ses(), old(git.Value()), old(st.imported), packs, store.blobs)
    {
      for i := 0 to |packs|
        invariant Valid()
        invariant ImportPacks(Ses(), git.Value(), st.imported, packs[i..], store.blobs)
          == ImportPacks(Ses(), old(git.Value()), old(st.imported), packs, store.blobs)
      {
        assert packs[i..][1..] == packs[i + 1..];
        var have := st.HasPack(packs[i]);
        if !have {
          r := ImportPack(packs[i]);
          if r.Fail? {
            return;
          }
          st.AddPack(packs[i]);
        }
      }
      return Pass;
    }

    /** Visits the refs in some order, up to the first failure. */
    method UpdateRefs(refs: map<string, Object>) returns (r: Outcome<Error>, ghost order: seq<string>)
      modifies git`refs
      ensures forall n | n in order :: n in refs
      ensures (git.Value(), r) == Protocol.UpdateRefs(old(git.Value()), refs, order)
      ensures r.Pass? ==> Enumerates(order, refs)
    {
      var todo := refs.Keys;
      order := [];
      while todo != {}
        invariant todo <= refs.Keys
        invariant forall n :: n in order <==> n in refs && n !in todo
        invariant forall i, j :: 0 <= i < j < |order| ==> order[i] != order[j]
        invariant (git.Value(), Outcome<Error>.Pass) == Protocol.UpdateRefs(old(git.Value()), refs, order)
        decreases todo
      {
        var n :| n in todo;
        UpdateRefsThen(old(git.Value()), refs, order, n);
        order := order + [n];
        var ok := git.UpdateRef(n, refs[n]);
        if !ok {
          r := Fail(ObjectMissing);
          return;
        }
        todo := todo - {n};
      }
      return Pass, order;
    }

    /** Accepts the served manifest or reports why not; imports, updates refs, then pins. */
    method Fetch() returns (r: Result<Verdict, Error>, ghost order: seq<string>)
      requires Valid()
      modifies this, file, git
      ensures Valid()
      ensures Fetched(file.saved, git.Value(), r)
        == Protocol.Fetch(id, repo, old(file.saved), old(git.Value()), store.Value(), order)
      ensures r.Ok? && r.value.Advance? ==> Enumerates(order, r.value.manifest.body.refs)
    {
      order := [];
      var entered := Open();
      if entered.Err? {
        r := Err(entered.error);
        return;
      }
      var trusted := entered.value.0;
      var blob, version := store.GetManifest();
      if version == 0 {
        r := Ok(Nothing);
        return;
      }
      var read := ReadManifest(trusted, blob);
      if read.Err? {
        r := Err(read.error);
        return;
      }
      var m, hash := read.value, Sha(blob.value.text);
      var st := file.Load();
      r := Judge(m, hash, st);
      assert r == Protocol.Judge(Opened(Ses(), trusted, entered.value.1), st.Value(), store.Value());
      if r.Ok? && r.value.Advance? {
        r, order := Accept(trusted, entered.value.1, m, hash, st);
      }
    }

    method Accept(trusted: Roster, ghost roster: Digest, m: Manifest, hash: Digest, st: LocalState.Record)
      returns (r: Result<Verdict, Error>, ghost order: seq<string>)
      requires Valid() && file.saved == st.Value()
      modifies this`packCache, file, git, st
      ensures Valid()
      ensures forall n | n in order :: n in m.body.refs
      ensures Fetched(file.saved, git.Value(), r)
        == Apply(Opened(Ses(), trusted, roster), old(file.saved), old(git.Value()), store.Value(), m, hash, order)
      ensures r.Ok? ==> r.value == Advance(m, hash) && Enumerates(order, m.body.refs)
    {
      order := [];
      var done := ImportMissing(m.body.packs, st);
      if done.Fail? {
        r := Err(done.error);
        return;
      }
      done, order := UpdateRefs(m.body.refs);
      if done.Fail? {
        r := Err(done.error);
        return;
      }
      st.version, st.hash := m.body.version, hash;
      file.Save(st);
      r := Ok(Advance(m, hash));
    }
    /** Re-issues the live manifest under the new roster and key; `st` gets the new pin. */
    method RepublishManifest(
        before: Roster, ghost hash: Digest, roster: RosterBody, key: Key, nonce: nat, st: LocalState.Record)
      returns (r: Outcome<Error>)
      requires Valid()
      modifies store, st`version, st`hash
      ensures Changed(store.Value(), st.Value(), r)
        == Republish(Opened(Ses(), before, hash), roster, key, nonce, old(store.Value()), old(st.Value()))
    {
      var read := LoadCurrent(before);
      if read.Err? {
        return Fail(read.error);
      }
      var cur := read.value;
      if cur.NoManifest? {
        return Pass;
      }
      var m := SignManifest(
        ManifestBody(repo, cur.seen + 1, Some(cur.hash), cur.manifest.body.refs, cur.manifest.body.packs, id,
          ShaRosterBody(roster)),
        id);
      var text := ManifestText(m, 0);
      r := store.CASManifest(cur.seen, Cipher(key, repo, nonce, text), cur.seen + 1, Commit(0, ReissueKind, text));
      if r.Pass? {
        st.version, st.hash := m.body.version, Sha(text);
      }
    }

    /** Roster, then keyfile, then manifest, then the pin. */
    method PublishChange(trusted: Roster, hash: Digest, members: set<Member>, gen: nat, key: Key)
      returns (r: Outcome<Error>)
      requires Valid()
      modifies store, file, random
      ensures Changed(store.Value(), file.saved, r)
        == Protocol.PublishChange(Opened(Ses(), trusted, hash), members, gen, key, old(random.next), old(store.Value()),
                                  old(file.saved))
    {
      var body := RosterBody(repo, trusted.body.version + 1, Some(hash), members, id, gen);
      var text := RosterText(SignRoster(body, id), 0);
      var n := random.Draw();
      r := store.CASRoster(trusted.body.version, Cipher(key, repo, n, text), body.version);
      if r.Fail? {
        return;
      }
      var recipients := Recipients(members);
      if recipients == {} {
        return Fail(NoRecipients);
      }
      store.keyfile := Some(Keyfile(gen, key, recipients));
      var st := file.Load();
      n := random.Draw();
      r := RepublishManifest(trusted, hash, body, key, n, st);
      if r.Fail? {
        return;
      }
      st.AddKey(key);
      st.Pin(body.version, text);
      file.Save(st);
    }

    method AddMember(member: Member, fingerprint: Option<Identity>) returns (r: Outcome<Error>)
      requires Valid()
      modifies this, store, file, random
      ensures Valid()
      ensures Changed(store.Value(), file.saved, r)
        == Protocol.AddMember(id, repo, old(file.saved), old(store.Value()), member, fingerprint, old(random.next))
    {
      var entered := Open();
      if entered.Err? {
        return Fail(entered.error);
      }
      var trusted, hash := entered.value.0, entered.value.1;
      if !trusted.body.Has(id) {
        return Fail(NotMember);
      }
      var fp := member.Fingerprint();
      if fingerprint.None? {
        return Fail(FingerprintRequired);
      }
      if fingerprint.value != fp {
        return Fail(FingerprintMismatch);
      }
      if trusted.body.Has(fp) {
        return Fail(AlreadyMember);
      }
      r := PublishChange(trusted, hash, trusted.body.members + {member}, trusted.body.gen, repoKey);
    }

    /** Rotates the key as well. */
    method RemoveMember(target: Identity) returns (r: Outcome<Error>)
      requires Valid()
      modifies this, store, file, random
      ensures Valid()
      ensures Changed(store.Value(), file.saved, r)
        == Protocol.RemoveMember(id, repo, old(file.saved), old(store.Value()), target, old(random.next))
      ensures r.Pass? ==> repoKey == old(random.next)
    {
      var entered := Open();
      if entered.Err? {
        return Fail(entered.error);
      }
      var trusted, hash := entered.value.0, entered.value.1;
      if !trusted.body.Has(id) {
        return Fail(NotMember);
      }
      if target == id {
        return Fail(RemoveSelf);
      }
      if !trusted.body.Has(target) {
        return Fail(TargetNotMember);
      }
      var remaining := MembersExcept(trusted.body.members, target);
      if remaining == {} {
        return Fail(LastMember);
      }
      var key := random.Draw();
      r := PublishChange(trusted, hash, remaining, trusted.body.gen + 1, key);
      if r.Pass? {
        repoKey, pack := key, PackKeys(key, repo);
      }
    }

    /** Re-encrypts the packs in order, putting each result in the store. */
    method ResealPacks(packs: seq<Digest>, key: Key) returns (ids: seq<Digest>, r: Outcome<Error>)
      requires Valid()
      modifies this`packCache, store`blobs, random
      ensures Valid()
      ensures Resealed(store.blobs, ids, r) == ResealAll(Ses(), packs, old(store.blobs), key, old(random.next), [])
      ensures r.Pass? ==> random.next == old(random.next) + |packs|
    {
      ids := [];
      for i := 0 to |packs|
        invariant Valid() && random.next == old(random.next) + i
        invariant ResealAll(Ses(), packs[i..], store.blobs, key, random.next, ids)
          == ResealAll(Ses(), packs, old(store.blobs), key, old(random.next), [])
      {
        assert packs[i..][1..] == packs[i + 1..];
        if packs[i] !in store.blobs {
          return ids, Fail(BlobMissing);
        }
        var blob := store.blobs[packs[i]];
        if ShaBlob(blob) != packs[i] {
          return ids, Fail(BlobMismatch);
        }
        var raw := DecryptPack(blob);
        if raw.None? {
          return ids, Fail(PackUndecryptable);
        }
        var n := random.Draw();
        var sealed := Cipher(key, repo, n, raw.value);
        store.Put(sealed);
        ids := ids + [ShaBlob(sealed)];
      }
      return ids, Pass;
    }

    /** Keyfile, roster, deletion of the old blobs, and only then the saved state. */
    method FinishRekey(trusted: Roster, hash: Digest, key: Key, stale: seq<Digest>, st: LocalState.Record)
      returns (r: Outcome<Error>)
      requires Valid()
      modifies store, file, random, st
      ensures Changed(store.Value(), file.saved, r)
        == Protocol.FinishRekey(Opened(Ses(), trusted, hash), key, old(random.next), stale, old(store.Value()),
                                old(file.saved), old(st.Value()))
    {
      var members, gen := trusted.body.members, trusted.body.gen + 1;
      var recipients := Recipients(members);
      if recipients == {} {
        return Fail(NoRecipients);
      }
      store.keyfile := Some(Keyfile(gen, key, recipients));
      var body := RosterBody(repo, trusted.body.version + 1, Some(hash), members, id, gen);
      var text := RosterText(SignRoster(body, id), 0);
      var n := random.Draw();
      r := store.CASRoster(trusted.body.version, Cipher(key, repo, n, text), body.version);
      if r.Fail? {
        return;
      }
      DeleteBlobs(stale);
      st.AddKey(key);
      st.Pin(body.version, text);
      file.Save(st);
    }

    method DeleteBlobs(ids: seq<Digest>)
      modifies store`blobs
      ensures store.blobs == DeleteAll(old(store.blobs), ids)
    {
      for i := 0 to |ids|
        invariant DeleteAll(store.blobs, ids[i..]) == DeleteAll(old(store.blobs), ids)
      {
        assert ids[i..][1..] == ids[i + 1..];
        store.Delete(ids[i]);
      }
    }

    /** The rekey of a repository that has a manifest. */
    method RekeyLive(trusted: Roster, hash: Digest, cur: Current, key: Key) returns (r: Outcome<Error>)
      requires Valid() && cur.Current? && random.next == key + 1
      modifies this`packCache, store, file, random
      ensures Valid()
      ensures Changed(store.Value(), file.saved, r)
        == RekeyManifest(Opened(Ses(), trusted, hash), cur, old(store.Value()), old(file.saved), key)
    {
      hide ResealAll, InsertAll, Protocol.FinishRekey;
      var st := file.Load();
      var ids;
      ids, r := ResealPacks(cur.Packs(), key);
      if r.Fail? {
        return;
      }
      AddPacks(ids, st);
      var roster := RosterBody(repo, trusted.body.version + 1, Some(hash), trusted.body.members, id,
        trusted.body.gen + 1);
      var text := ManifestText(SignManifest(
        ManifestBody(repo, cur.seen + 1, Some(cur.hash), cur.manifest.body.refs, ids, id, ShaRosterBody(roster)), id),
          0);
      var n := random.Draw();
      r := store.CASManifest(cur.seen, Cipher(key, repo, n, text), cur.seen + 1, Commit(0, RekeyKind, text));
      if r.Fail? {
        return;
      }
      st.version, st.hash := cur.seen + 1, Sha(text);
      r := FinishRekey(trusted, hash, key, cur.Packs(), st);
    }

    method AddPacks(ids: seq<Digest>, st: LocalState.Record)
      modifies st`imported
      ensures st.imported == InsertAll(old(st.imported), ids)
    {
      for i := 0 to |ids|
        invariant InsertAll(st.imported, ids[i..]) == InsertAll(old(st.imported), ids)
      {
        assert ids[i..][1..] == ids[i + 1..];
        st.AddPack(ids[i]);
      }
    }

    method FullRekey() returns (r: Outcome<Error>)
      requires Valid()
      modifies this, store, file, random
      ensures Valid()
      ensures Changed(store.Value(), file.saved, r)
        == Protocol.FullRekey(id, repo, old(file.saved), old(store.Value()), old(random.next))
      ensures r.Pass? ==> repoKey == old(random.next)
    {
      var entered := Open();
      if entered.Err? {
        return Fail(entered.error);
      }
      var trusted, hash := entered.value.0, entered.value.1;
      if !trusted.body.Has(id) {
        return Fail(NotMember);
      }
      r := RekeyOpened(trusted, hash);
    }

    method RekeyOpened(trusted: Roster, hash: Digest) returns (r: Outcome<Error>)
      requires Valid()
      modifies this, store, file, random
      ensures Valid()
      ensures Changed(store.Value(), file.saved, r)
        == Protocol.RekeyOpened(Opened(old(Ses()), trusted, hash), old(store.Value()), old(file.saved),
          old(random.next))
      ensures r.Pass? ==> repoKey == old(random.next)
    {
      var read := LoadCurrent(trusted);
      if read.Err? {
        return Fail(read.error);
      }
      var key := random.Draw();
      if read.value.NoManifest? {
        var st := file.Load();
        r := FinishRekey(trusted, hash, key, [], st);
      } else {
        r := RekeyLive(trusted, hash, read.value, key);
      }
      if r.Pass? {
        repoKey, pack := key, PackKeys(key, repo);
      }
    }
  }

  /** Creates the genesis in a store: a keyfile for the founder and roster version 0. */
  method Init(store: Server, founder: Identity, name: string, repo: RepoId, random: Entropy) returns (r: Outcome<Error>)
    modifies store, random
    ensures Changed(store.Value(), EMPTY_STATE, r)
      == Protocol.Init(old(store.Value()), founder, name, repo, old(random.next), old(random.next) + 1)
  {
    var key := random.Draw();
    store.keyfile := Some(Keyfile(1, key, {founder.x}));
    var body := RosterBody(repo, 0, None, {Member(name, founder.x, founder.ed)}, founder, 1);
    var n := random.Draw();
    r := store.CASRoster(0, Cipher(key, repo, n, RosterText(SignRoster(body, founder), 0)), 0);
  }
}
