/** Every check of the client said in the fields it reads, on any store: what passes, and which error
    names what is wrong. */
module Verdicts {
  import opened Wrappers
  import opened Documents
  import opened Protocol

  /** Encrypted for this repository under the current key or one the client holds. */
  predicate Readable(ses: Session, blob: Option<Cipher>) {
    blob.Some? && blob.value.repo == ses.repo && (blob.value.key == ses.key || blob.value.key in ses.known)
  }

  predicate Lists(members: set<Member>, id: Identity) {
    exists m :: m in members && m.x == id.x && m.ed == id.ed
  }

  predicate SignedRosterBy(r: Roster, id: Identity) {
    r.sig == Signature(id.ed, SignedRoster(r.body))
  }

  // ---- the roster ----

  /** The first roster a client sees is trusted exactly if it can be read and, where it lists its
      author, carries the author's signature. */
  lemma FirstRosterExactly(ses: Session, st: State, blob: Option<Cipher>)
    requires !st.rosterPinned
    ensures var t := LoadTrusted(ses, st, blob);
      && (t.Ok? <==>
            && Readable(ses, blob) && blob.value.text.RosterText?
            && var r := blob.value.text.roster;
            Lists(r.body.members, r.body.author) ==> SignedRosterBy(r, r.body.author))
      && (t.Ok? ==>
            && t.value.roster == blob.value.text.roster && t.value.hash == Sha(blob.value.text)
            && t.value.st == st.(rosterPinned := true, rosterVersion := blob.value.text.roster.body.version,
                                 rosterHash := Sha(blob.value.text), trusted := blob.value.text))
  {
    if blob.Some? && blob.value.text.RosterText? {
      ListsExactly(blob.value.text.roster.body, blob.value.text.roster.body.author);
    }
  }

  lemma ListsExactly(b: RosterBody, id: Identity)
    ensures b.Has(id) <==> Lists(b.members, id)
  {
    if b.Has(id) {
      var m :| m in b.members && m.Fingerprint() == id;
      assert m.x == id.x && m.ed == id.ed;
    }
    if Lists(b.members, id) {
      var m :| m in b.members && m.x == id.x && m.ed == id.ed;
      assert m.Fingerprint() == id;
    }
  }

  /** With a pin each answer has its own condition: the pinned roster itself, or a later one that
      follows it and is signed by a member of it. */
  lemma PinnedRosterExactly(ses: Session, st: State, blob: Option<Cipher>)
    requires st.rosterPinned && st.trusted.RosterText? && Readable(ses, blob) && blob.value.text.RosterText?
    ensures var t, r, before := LoadTrusted(ses, st, blob), blob.value.text.roster, st.trusted.roster;
      && (r.body.version == st.rosterVersion ==>
            t == if Sha(blob.value.text) == st.rosterHash then Ok(Trusted(before, st.rosterHash, st))
                 else Err(RosterEquivocation))
      && (t == Err(RosterRollback) <==> r.body.version < st.rosterVersion)
      && (t == Err(RosterChainBreak) <==> r.body.version > st.rosterVersion && r.body.prev != Some(st.rosterHash))
      && (r.body.version > st.rosterVersion && r.body.prev == Some(st.rosterHash) ==>
            && (t == Err(AuthorNotMember) <==> !Lists(before.body.members, r.body.author))
            && (t == Err(RosterBadSignature) <==>
                  Lists(before.body.members, r.body.author) && !SignedRosterBy(r, r.body.author))
            && (t.Ok? <==> Lists(before.body.members, r.body.author) && SignedRosterBy(r, r.body.author))
            && (t.Ok? ==> t.value.roster == r && t.value.st.trusted == blob.value.text
                          && t.value.st.rosterHash == Sha(blob.value.text)
                          && t.value.st.rosterVersion == r.body.version))
  {
    ListsExactly(st.trusted.roster.body, blob.value.text.roster.body.author);
  }

  /** The preamble passes exactly for who can open the keyfile, trusts the roster, and finds one and
      the same generation in both, which is not 0. */
  lemma EntersExactly(id: Identity, repo: RepoId, st: State, s: Store)
    ensures var (st', r) := Enter(id, repo, st, s);
      && (r == Err(NoKeyfile) <==> s.keyfile.None?)
      && (r == Err(NotRecipient) <==> s.keyfile.Some? && id.x !in s.keyfile.value.recipients)
      && (r.Err? && (r.error.NoKeyfile? || r.error.NotRecipient?) ==> st' == st)
      && (s.keyfile.Some? && id.x in s.keyfile.value.recipients ==>
            var k := s.keyfile.value;
            var st1 := st.(keys := if k.key in st.keys then st.keys else st.keys + [k.key]);
            var t := LoadTrusted(Session(id, repo, k.key, k.gen, st1.keys), st1, s.roster);
            && (t.Err? ==> r == Err(t.error) && st' == st1)
            && (t.Ok? ==>
                  && st' == t.value.st
                  && (r.Ok? <==> k.gen == t.value.roster.body.gen && k.gen != 0)
                  && (r.Err? ==> r == Err(BadGeneration))
                  && (r.Ok? ==> r.value.trusted == t.value.roster && r.value.hash == t.value.hash
                                && r.value.ses == Session(id, repo, k.key, k.gen, st1.keys))))
  {
  }

  // ---- the manifest ----

  /** A manifest is accepted under a trusted roster exactly if it names that roster and is signed by a
      member of it; otherwise the error names the first of the three that fails. */
  lemma VerifiesExactly(m: Manifest, trusted: Roster)
    ensures var v := VerifyManifest(m, trusted);
      && (v == Fail(RosterHashMismatch) <==> m.body.rosterHash != ShaRosterBody(trusted.body))
      && (v == Fail(SignerNotMember) <==>
            m.body.rosterHash == ShaRosterBody(trusted.body) && !Lists(trusted.body.members, m.body.pusher))
      && (v == Fail(ManifestBadSignature) <==>
            && m.body.rosterHash == ShaRosterBody(trusted.body) && Lists(trusted.body.members, m.body.pusher)
            && m.sig != Signature(m.body.pusher.ed, SignedManifest(m.body)))
      && (v.Pass? <==>
            && m.body.rosterHash == ShaRosterBody(trusted.body) && Lists(trusted.body.members, m.body.pusher)
            && m.sig == Signature(m.body.pusher.ed, SignedManifest(m.body)))
  {
    ListsExactly(trusted.body, m.body.pusher);
  }

  /** Only the current key opens a manifest. */
  lemma OpensExactly(ses: Session, trusted: Roster, blob: Option<Cipher>)
    ensures var r := OpenManifest(ses, trusted, blob);
      && (r == Err(ManifestUndecryptable) <==> blob.None? || blob.value.repo != ses.repo || blob.value.key != ses.key)
      && (r.Ok? ==> blob.Some? && blob.value.text.ManifestText? && r.value == blob.value.text.manifest)
      && (r.Ok? <==>
            && blob.Some? && blob.value.repo == ses.repo && blob.value.key == ses.key && blob.value.text.ManifestText?
            && VerifyManifest(blob.value.text.manifest, trusted).Pass?)
  {
  }

  /** At version 0 there is no manifest, whatever else is served; otherwise what is read is the opened
      manifest, under the version the store says it has. */
  lemma LoadsExactly(ses: Session, trusted: Roster, s: Store)
    ensures var r := LoadCurrent(ses, trusted, s);
      && (s.mver == 0 ==> r == Ok(NoManifest))
      && (s.mver != 0 ==>
            && (r.Ok? <==> OpenManifest(ses, trusted, s.manifest).Ok?)
            && (r.Ok? ==> s.manifest.Some?
                          && r.value == Current(OpenManifest(ses, trusted, s.manifest).value, s.mver,
                                                Sha(s.manifest.value.text)))
            && (r.Err? ==> r.error == OpenManifest(ses, trusted, s.manifest).error))
  {
  }

  /** What a fetch decides about a verified manifest: each of its answers has its own condition. */
  lemma JudgesExactly(o: Opened, st: State, s: Store)
    requires s.mver != 0 && OpenManifest(o.ses, o.trusted, s.manifest).Ok?
    ensures s.manifest.Some?
    ensures var j, m, hash := Judge(o, st, s), s.manifest.value.text.manifest, Sha(s.manifest.value.text);
      && (j == Err(Equivocation) <==> st.version != 0 && m.body.version == st.version && hash != st.hash)
      && (j == Err(Rollback) <==> st.version != 0 && m.body.version < st.version)
      && (j == Err(ChainBreak) <==> st.version != 0 && m.body.version > st.version && m.body.prev != Some(st.hash))
      && (j == Ok(UpToDate) <==> st.version != 0 && m.body.version == st.version && hash == st.hash)
      && (j == Ok(Advance(m, hash)) <==>
            st.version == 0 || (m.body.version > st.version && m.body.prev == Some(st.hash)))
  {
  }

  /** Either pointer is swapped exactly from the expected version, an absent roster counting as version
      0, and then it is the given blob at the given version and nothing else has changed. */
  lemma SwapsExactly(s: Store, expected: nat, blob: Cipher, version: nat)
    ensures var r := CasManifest(s, expected, blob, version);
      && (r.Ok? <==> s.mver == expected)
      && (r.Ok? ==> r.value == Store(Some(blob), version, s.roster, s.rver, s.keyfile, s.blobs))
      && (r.Err? ==> r == Err(VersionConflict))
    ensures var r := CasRoster(s, expected, blob, version);
      && (r.Ok? <==> if s.roster.None? then expected == 0 else s.rver == expected)
      && (r.Ok? ==> r.value == Store(s.manifest, s.mver, Some(blob), version, s.keyfile, s.blobs))
      && (r.Err? ==> r == Err(VersionConflict))
  {
  }

  // ---- membership ----

  /** For who has entered, each refusal of an addition has its own condition, checked in this order. */
  lemma AddRefusals(
      id: Identity, repo: RepoId, st: State, s: Store, member: Member, fingerprint: Option<Identity>, draw: nat)
    requires Enter(id, repo, st, s).1.Ok?
    ensures var r := AddMember(id, repo, st, s, member, fingerprint, draw).outcome;
      var members := Enter(id, repo, st, s).1.value.trusted.body.members;
      && (!Lists(members, id) ==> r == Fail(NotMember))
      && (Lists(members, id) && fingerprint == None ==> r == Fail(FingerprintRequired))
      && (Lists(members, id) && fingerprint.Some? && fingerprint.value != Identity(member.x, member.ed) ==>
            r == Fail(FingerprintMismatch))
      && (Lists(members, id) && fingerprint == Some(Identity(member.x, member.ed)) ==>
            Lists(members, Identity(member.x, member.ed)) ==> r == Fail(AlreadyMember))
      && (r.Fail? && (r.error.NotMember? || r.error.FingerprintRequired? || r.error.FingerprintMismatch?
                      || r.error.AlreadyMember?) ==>
            AddMember(id, repo, st, s, member, fingerprint, draw).s == s)
  {
    hide Enter;
    var o := Enter(id, repo, st, s).1.value;
    ListsExactly(o.trusted.body, id);
    ListsExactly(o.trusted.body, member.Fingerprint());
  }

  /** ... and each refusal of a removal. */
  lemma RemoveRefusals(id: Identity, repo: RepoId, st: State, s: Store, target: Identity, draw: nat)
    requires Enter(id, repo, st, s).1.Ok?
    ensures var r := RemoveMember(id, repo, st, s, target, draw).outcome;
      var members := Enter(id, repo, st, s).1.value.trusted.body.members;
      && (!Lists(members, id) ==> r == Fail(NotMember))
      && (Lists(members, id) && target == id ==> r == Fail(RemoveSelf))
      && (Lists(members, id) && target != id && !Lists(members, target) ==> r == Fail(TargetNotMember))
      && (r.Fail? && (r.error.NotMember? || r.error.RemoveSelf? || r.error.TargetNotMember?) ==>
            RemoveMember(id, repo, st, s, target, draw).s == s)
  {
    hide Enter;
    var o := Enter(id, repo, st, s).1.value;
    ListsExactly(o.trusted.body, id);
    ListsExactly(o.trusted.body, target);
  }

  // ---- packs ----

  /** A pack is taken from a store that answers anything exactly if the answer hashes to the id that was
      asked for, a held key opens it, and it is a pack; the error names the first that fails. */
  lemma ImportsExactly(ses: Session, git: Git, id: Digest, answer: Option<Cipher>)
    ensures var r := ImportPack(ses, git, id, answer);
      && (r == Err(BlobMissing) <==> answer.None?)
      && (r == Err(BlobMismatch) <==> answer.Some? && ShaBlob(answer.value) != id)
      && (r == Err(PackUndecryptable) <==> answer.Some? && ShaBlob(answer.value) == id && !Readable(ses, answer))
      && (r == Err(PackCorrupt) <==>
            Readable(ses, answer) && ShaBlob(answer.value) == id && !answer.value.text.PackText?)
      && (r.Ok? <==> Readable(ses, answer) && ShaBlob(answer.value) == id && answer.value.text.PackText?)
      && (r.Ok? ==> r.value == Git(git.objects + PackObjects(id), git.refs))
  {
  }

  /** Re-encryption from a store that answers anything succeeds exactly if every answer hashes to the
      id that was asked for and a held key opens it; the new nonces have not been used before. */
  lemma {:induction false} ResealsExactly(
      ses: Session, packs: seq<Digest>, blobs: map<Digest, Cipher>, key: Key, nonce: nat, done: seq<Digest>)
    requires forall id | id in packs && id.ShaBlob? :: id.blob.nonce < nonce
    ensures ResealAll(ses, packs, blobs, key, nonce, done).outcome.Pass?
      <==> forall id | id in packs :: id in blobs && ShaBlob(blobs[id]) == id && Readable(ses, Some(blobs[id]))
    decreases |packs|
  {
    if packs != [] {
      assert packs == [packs[0]] + packs[1..];
      var one := Reseal(ses, packs[0], Lookup(blobs, packs[0]), key, nonce);
      if one.Ok? {
        var more := PutBlob(blobs, one.value);
        ResealsExactly(ses, packs[1..], more, key, nonce + 1, done + [ShaBlob(one.value)]);
        forall id | id in packs[1..]
          ensures (id in more <==> id in blobs) && (id in more ==> more[id] == blobs[id])
        {
          assert id in packs;
        }
      } else {
        assert packs[0] in packs;
      }
    }
  }
}
