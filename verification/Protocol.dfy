/** The client operations as functions of what they read: the local state, the local git
    repository and the answers of the store.  A store that answers anything is a `Store` with
    arbitrary contents; an honest one is a `Store` that only these operations have changed.
    Random draws (repository keys, encryption nonces) are numbered from `draw` upwards. */
module Protocol {
  import opened Wrappers
  import opened Documents

  datatype Error =
    | NoKeyfile | NotRecipient | BadGeneration
    | NoRoster | RosterUndecryptable | RosterUnparsable | RosterBadSignature
    | RosterEquivocation | RosterRollback | RosterChainBreak | AuthorNotMember
    | ManifestUndecryptable | ManifestUnparsable | RosterHashMismatch | SignerNotMember | ManifestBadSignature
    | Rollback | Equivocation | ChainBreak
    | BlobMissing | BlobMismatch | PackUndecryptable | PackCorrupt | ObjectMissing
    | NotMember | NothingToPush | GitFailed | FingerprintRequired | FingerprintMismatch | AlreadyMember
    | RemoveSelf | TargetNotMember | LastMember | NoRecipients | VersionConflict | GaveUp

  /** The persisted per-remote client state. */
  datatype State = State(
    version: nat, hash: Digest, imported: seq<Digest>,
    rosterPinned: bool, rosterVersion: nat, rosterHash: Digest, trusted: Text, keys: seq<Key>)

  const EMPTY_STATE := State(0, NoHash(0), [], false, 0, NoHash(0), OtherText(0), [])

  function Insert<T(==,!new)>(s: seq<T>, x: T): (r: seq<T>)
    ensures x in r && s <= r
    ensures forall y :: y in r <==> y == x || y in s
  {
    if x in s then s else s + [x]
  }

  /** The local git repository. */
  datatype Git = Git(objects: set<Object>, refs: map<string, Object>)

  datatype Store = Store(
    manifest: Option<Cipher>, mver: nat, roster: Option<Cipher>, rver: nat,
    keyfile: Option<Keyfile>, blobs: map<Digest, Cipher>)

  const EMPTY_STORE := Store(None, 0, None, 0, None, map[])

  // ---- store calls that change the store ----

  function CasManifest(s: Store, expected: nat, blob: Cipher, version: nat): Result<Store, Error> {
    if s.mver == expected then Ok(s.(manifest := Some(blob), mver := version)) else Err(VersionConflict)
  }

  function CasRoster(s: Store, expected: nat, blob: Cipher, version: nat): Result<Store, Error> {
    var current := if s.roster.Some? then s.rver else 0;
    if current == expected then Ok(s.(roster := Some(blob), rver := version)) else Err(VersionConflict)
  }

  /** Stores a blob under its content address; a blob already present stays as it is. */
  function PutBlob(blobs: map<Digest, Cipher>, c: Cipher): map<Digest, Cipher> {
    if ShaBlob(c) in blobs then blobs else blobs[ShaBlob(c) := c]
  }

  function Lookup(blobs: map<Digest, Cipher>, id: Digest): Option<Cipher> {
    if id in blobs then Some(blobs[id]) else None
  }

  // ---- the preamble of every operation ----

  /** Who runs the operation and which keys they hold. */
  datatype Session = Session(id: Identity, repo: RepoId, key: Key, gen: nat, known: seq<Key>) {
    function Seal(text: Text, nonce: nat): Cipher {
      Cipher(key, repo, nonce, text)
    }

    /** The current key opens it. */
    predicate Opens(c: Cipher) {
      c.repo == repo && c.key == key
    }

    /** The current key or one held earlier opens it. */
    predicate OpensAny(c: Cipher) {
      c.repo == repo && (c.key == key || c.key in known)
    }
  }

  function Refresh(id: Identity, repo: RepoId, st: State, keyfile: Option<Keyfile>): Result<(Session, State), Error> {
    if keyfile.None? then Err(NoKeyfile)
    else
      var k := keyfile.value;
      :- Need(id.x in k.recipients, NotRecipient);
      var st' := st.(keys := Insert(st.keys, k.key));
      Ok((Session(id, repo, k.key, k.gen, st'.keys), st'))
  }

  datatype Trusted = Trusted(roster: Roster, hash: Digest, st: State)

  function PinRoster(st: State, version: nat, text: Text): State {
    st.(rosterPinned := true, rosterVersion := version, rosterHash := Sha(text), trusted := text)
  }

  function LoadTrusted(ses: Session, st: State, blob: Option<Cipher>): Result<Trusted, Error> {
    if blob.None? then Err(NoRoster)
    else
      :- Need(ses.OpensAny(blob.value), RosterUndecryptable);
      var text := blob.value.text;
      :- Need(text.RosterText?, RosterUnparsable);
      var r, hash := text.roster, Sha(text);
      var accepted := Trusted(r, hash, PinRoster(st, r.body.version, text));
      if !st.rosterPinned then
        :- Need(r.body.Has(r.body.author) ==> r.Verify(r.body.author.ed), RosterBadSignature);
        Ok(accepted)
      else
        :- Need(st.trusted.RosterText?, RosterUnparsable);
        var trusted := st.trusted.roster;
        if r.body.version == st.rosterVersion then
          :- Need(hash == st.rosterHash, RosterEquivocation);
          Ok(Trusted(trusted, st.rosterHash, st))
        else
          :- Need(r.body.version > st.rosterVersion, RosterRollback);
          :- Need(r.body.prev == Some(st.rosterHash), RosterChainBreak);
          :- Need(trusted.body.Has(r.body.author), AuthorNotMember);
          :- Need(r.Verify(r.body.author.ed), RosterBadSignature);
          Ok(accepted)
  }

  predicate GenerationMatches(ses: Session, trusted: Roster) {
    trusted.body.gen != 0 && ses.gen != 0 && ses.gen == trusted.body.gen
  }

  datatype Opened = Opened(ses: Session, trusted: Roster, hash: Digest)

  /** Refresh keys, advance the trusted roster, match the generations.  The state is saved on
      the way, so it can change even when a later check fails. */
  function Enter(id: Identity, repo: RepoId, st: State, s: Store): (State, Result<Opened, Error>) {
    match Refresh(id, repo, st, s.keyfile)
    case Err(e) => (st, Err(e))
    case Ok((ses, st1)) =>
      match LoadTrusted(ses, st1, s.roster)
      case Err(e) => (st1, Err(e))
      case Ok(t) =>
        (t.st, if GenerationMatches(ses, t.roster) then Ok(Opened(ses, t.roster, t.hash)) else Err(BadGeneration))
  }

  function VerifyManifest(m: Manifest, trusted: Roster): Outcome<Error> {
    if m.body.rosterHash != ShaRosterBody(trusted.body) then Fail(RosterHashMismatch)
    else if !trusted.body.Has(m.body.pusher) then Fail(SignerNotMember)
    else if !m.Verify(m.body.pusher.ed) then Fail(ManifestBadSignature)
    else Pass
  }

  function OpenManifest(ses: Session, trusted: Roster, blob: Option<Cipher>): Result<Manifest, Error> {
    if blob.None? || !ses.Opens(blob.value) then Err(ManifestUndecryptable)
    else
      :- Need(blob.value.text.ManifestText?, ManifestUnparsable);
      var m := blob.value.text.manifest;
      :- VerifyManifest(m, trusted);
      Ok(m)
  }

  /** The live manifest as a client sees it, or an empty one at version 0. */
  datatype Current = NoManifest | Current(manifest: Manifest, seen: nat, hash: Digest) {
    function Version(): nat {
      if NoManifest? then 0 else seen
    }

    function Prev(): Option<Digest> {
      if NoManifest? then None else Some(hash)
    }

    function Refs(): map<string, Object> {
      if NoManifest? then map[] else manifest.body.refs
    }

    function Packs(): seq<Digest> {
      if NoManifest? then [] else manifest.body.packs
    }
  }

  function LoadCurrent(ses: Session, trusted: Roster, s: Store): Result<Current, Error> {
    if s.mver == 0 then Ok(NoManifest)
    else
      var m :- OpenManifest(ses, trusted, s.manifest);
      Ok(Current(m, s.mver, Sha(s.manifest.value.text)))
  }

  // ---- packs ----

  function ImportPack(ses: Session, git: Git, id: Digest, answer: Option<Cipher>): Result<Git, Error> {
    if answer.None? then Err(BlobMissing)
    else
      :- Need(ShaBlob(answer.value) == id, BlobMismatch);
      :- Need(ses.OpensAny(answer.value), PackUndecryptable);
      :- Need(answer.value.text.PackText?, PackCorrupt);
      Ok(git.(objects := git.objects + answer.value.text.objects))
  }

  datatype Imported = Imported(git: Git, imported: seq<Digest>, outcome: Outcome<Error>)

  /** Imports the packs that are not recorded yet, in order, up to the first failure. */
  function ImportPacks(
      ses: Session, git: Git, imported: seq<Digest>, packs: seq<Digest>, blobs: map<Digest, Cipher>): Imported
    decreases |packs|
  {
    if packs == [] then Imported(git, imported, Pass)
    else if packs[0] in imported then ImportPacks(ses, git, imported, packs[1..], blobs)
    else
      match ImportPack(ses, git, packs[0], Lookup(blobs, packs[0]))
      case Err(e) => Imported(git, imported, Fail(e))
      case Ok(git') => ImportPacks(ses, git', Insert(imported, packs[0]), packs[1..], blobs)
  }

  /** The contract taken for `git rev-list | pack-objects`: the objects sent include what
      `want` reaches and `have` does not, and lie within what `want` reaches. */
  ghost predicate PackContract(want: set<Object>, have: set<Object>, objects: set<Object>) {
    ReachSet(want) - ReachSet(have) <= objects <= ReachSet(want)
  }

  // ---- push ----

  /** The manifest a push writes over what it read. */
  function PushBody(
      ses: Session, trusted: Roster, cur: Current, wants: map<string, Object>, packs: seq<Digest>): ManifestBody
  {
    ManifestBody(ses.repo, cur.Version() + 1, cur.Prev(), cur.Refs() + wants, packs, ses.id,
      ShaRosterBody(trusted.body))
  }

  /** ... and its signed text, listing the packs that were read and then the new one. */
  function PushText(o: Opened, cur: Current, wants: map<string, Object>, more: seq<Digest>): Text {
    ManifestText(SignManifest(PushBody(o.ses, o.trusted, cur, wants, cur.Packs() + more), o.ses.id), 0)
  }

  /** The id of the new pack, if it has any objects. */
  function NewPack(ses: Session, objects: set<Object>, nonce: nat): seq<Digest> {
    if objects == {} then [] else [ShaBlob(ses.Seal(PackText(objects), nonce))]
  }

  datatype Pushed = Pushed(s: Store, st: State, git: Git, outcome: Outcome<Error>)

  /** The rest of an attempt once the live packs are imported: pack, put, commit. */
  function PushRebased(
      o: Opened, st: State, imported: seq<Digest>, git: Git, s: Store, cur: Current, wants: map<string, Object>,
      objects: Option<set<Object>>, draw: nat): Pushed
  {
    if objects.None? then Pushed(s, st, git, Fail(GitFailed))
    else
      var more := NewPack(o.ses, objects.value, draw);
      var s1 := if more == [] then s else s.(blobs := PutBlob(s.blobs, o.ses.Seal(PackText(objects.value), draw)));
      var imported1 := if more == [] then imported else Insert(imported, more[0]);
      var text := PushText(o, cur, wants, more);
      match CasManifest(s1, cur.Version(), o.ses.Seal(text, draw + 1), cur.Version() + 1)
      case Err(e) => Pushed(s1, st.(imported := imported1), git, Fail(e))
      case Ok(s2) =>
        Pushed(s2, st.(imported := imported1, version := cur.Version() + 1, hash := Sha(text)), git, Pass)
  }

  /** One attempt of the retry loop, run without interference.  `objects` is what git packed,
      or None when git failed. */
  function PushAttempt(
      o: Opened, st: State, git: Git, s: Store, wants: map<string, Object>,
      objects: Option<set<Object>>, draw: nat): Pushed
  {
    match LoadCurrent(o.ses, o.trusted, s)
    case Err(e) => Pushed(s, st, git, Fail(e))
    case Ok(cur) => PushOver(o, st, git, s, cur, wants, objects, draw)
  }

  /** ... once it has read what it pushes over. */
  function PushOver(
      o: Opened, st: State, git: Git, s: Store, cur: Current, wants: map<string, Object>,
      objects: Option<set<Object>>, draw: nat): Pushed
  {
    var imp := ImportPacks(o.ses, git, st.imported, cur.Packs(), s.blobs);
    if imp.outcome.Fail? then Pushed(s, st, imp.git, imp.outcome)
    else PushRebased(o, st, imp.imported, imp.git, s, cur, wants, objects, draw)
  }

  function Push(
      id: Identity, repo: RepoId, st: State, git: Git, s: Store, wants: map<string, Object>,
      objects: Option<set<Object>>, draw: nat): Pushed
  {
    match Enter(id, repo, st, s)
    case (st1, Err(e)) => Pushed(s, st1, git, Fail(e))
    case (st1, Ok(o)) =>
      if !o.trusted.body.Has(id) then Pushed(s, st1, git, Fail(NotMember))
      else if wants == map[] then Pushed(s, st1, git, Fail(NothingToPush))
      else PushAttempt(o, st1, git, s, wants, objects, draw)
  }

  // ---- fetch ----

  datatype Verdict = Nothing | UpToDate | Advance(manifest: Manifest, hash: Digest)

  /** The acceptance rule of a fetch: what it decides from the pin and the served manifest. */
  function Judge(o: Opened, st: State, s: Store): Result<Verdict, Error> {
    if s.mver == 0 then Ok(Nothing)
    else
      var m :- OpenManifest(o.ses, o.trusted, s.manifest);
      var hash := Sha(s.manifest.value.text);
      if st.version == 0 then Ok(Advance(m, hash))
      else if m.body.version == st.version then
        :- Need(hash == st.hash, Equivocation);
        Ok(UpToDate)
      else
        :- Need(m.body.version > st.version, Rollback);
        :- Need(m.body.prev == Some(st.hash), ChainBreak);
        Ok(Advance(m, hash))
  }

  /** Updates refs in the given order, up to the first whose object is missing. */
  function UpdateRefs(git: Git, refs: map<string, Object>, order: seq<string>): (Git, Outcome<Error>)
    requires forall r | r in order :: r in refs
    decreases |order|
  {
    if order == [] then (git, Pass)
    else if refs[order[0]] !in git.objects then (git, Fail(ObjectMissing))
    else UpdateRefs(git.(refs := git.refs[order[0] := refs[order[0]]]), refs, order[1..])
  }

  /** An order in which a map's keys may be visited. */
  ghost predicate Enumerates<V>(order: seq<string>, m: map<string, V>) {
    && (forall r :: r in order <==> r in m)
    && (forall i, j :: 0 <= i < j < |order| ==> order[i] != order[j])
  }

  datatype Fetched = Fetched(st: State, git: Git, result: Result<Verdict, Error>)

  /** Imports the packs, updates the refs, and only then saves the new pin. */
  function Apply(
      o: Opened, st: State, git: Git, s: Store, m: Manifest, hash: Digest, order: seq<string>): Fetched
    requires forall r | r in order :: r in m.body.refs
  {
    var imp := ImportPacks(o.ses, git, st.imported, m.body.packs, s.blobs);
    if imp.outcome.Fail? then Fetched(st, imp.git, Err(imp.outcome.error))
    else
      var (git', done) := UpdateRefs(imp.git, m.body.refs, order);
      if done.Fail? then Fetched(st, git', Err(done.error))
      else Fetched(st.(imported := imp.imported, version := m.body.version, hash := hash), git', Ok(Advance(m, hash)))
  }

  /** `order` is the order in which the refs are visited if the fetch gets that far; an order
      that does not name refs of the served manifest is cut to nothing. */
  function Fetch(id: Identity, repo: RepoId, st: State, git: Git, s: Store, order: seq<string>): Fetched {
    match Enter(id, repo, st, s)
    case (st1, Err(e)) => Fetched(st1, git, Err(e))
    case (st1, Ok(o)) =>
      match Judge(o, st1, s)
      case Err(e) => Fetched(st1, git, Err(e))
      case Ok(Nothing) => Fetched(st1, git, Ok(Nothing))
      case Ok(UpToDate) => Fetched(st1, git, Ok(UpToDate))
      case Ok(Advance(m, hash)) =>
        Apply(o, st1, git, s, m, hash, if forall r | r in order :: r in m.body.refs then order else [])
  }

  // ---- membership ----

  datatype Changed = Changed(s: Store, st: State, outcome: Outcome<Error>)

  function RosterSuccessor(o: Opened, members: set<Member>, gen: nat): RosterBody {
    RosterBody(o.ses.repo, o.trusted.body.version + 1, Some(o.hash), members, o.ses.id, gen)
  }

  function RosterDocument(o: Opened, members: set<Member>, gen: nat): Text {
    RosterText(SignRoster(RosterSuccessor(o, members, gen), o.ses.id), 0)
  }

  /** Re-issues the live manifest with the given packs under a new roster and key. */
  function Reissued(o: Opened, cur: Current, packs: seq<Digest>, roster: RosterBody): Text
    requires cur.Current?
  {
    ManifestText(SignManifest(
      ManifestBody(o.ses.repo, cur.seen + 1, Some(cur.hash), cur.manifest.body.refs, packs, o.ses.id,
        ShaRosterBody(roster)),
      o.ses.id), 0)
  }

  function Republish(o: Opened, roster: RosterBody, key: Key, nonce: nat, s: Store, st: State): Changed {
    match LoadCurrent(o.ses, o.trusted, s)
    case Err(e) => Changed(s, st, Fail(e))
    case Ok(NoManifest) => Changed(s, st, Pass)
    case Ok(cur) =>
      var text := Reissued(o, cur, cur.Packs(), roster);
      match CasManifest(s, cur.seen, Cipher(key, o.ses.repo, nonce, text), cur.seen + 1)
      case Err(e) => Changed(s, st, Fail(e))
      case Ok(s') => Changed(s', st.(version := cur.seen + 1, hash := Sha(text)), Pass)
  }

  /** The steps AddMember and RemoveMember share: publish the roster, then the keyfile, then
      the manifest, then pin.  A failure leaves what was already written. */
  function PublishChange(
      o: Opened, members: set<Member>, gen: nat, key: Key, nonce: nat, s: Store, st: State): Changed
  {
    var text := RosterDocument(o, members, gen);
    var body := text.roster.body;
    match CasRoster(s, o.trusted.body.version, Cipher(key, o.ses.repo, nonce, text), body.version)
    case Err(e) => Changed(s, st, Fail(e))
    case Ok(s1) =>
      if Recipients(members) == {} then Changed(s1, st, Fail(NoRecipients))
      else
        var s2 := s1.(keyfile := Some(Keyfile(gen, key, Recipients(members))));
        var re := Republish(o, body, key, nonce + 1, s2, st);
        if re.outcome.Fail? then Changed(re.s, st, re.outcome)
        else Changed(re.s, PinRoster(re.st.(keys := Insert(re.st.keys, key)), body.version, text), Pass)
  }

  /** `fingerprint` is the one verified out of band, None when none was given. */
  function AddMember(
      id: Identity, repo: RepoId, st: State, s: Store, member: Member, fingerprint: Option<Identity>,
      draw: nat): Changed
  {
    match Enter(id, repo, st, s)
    case (st1, Err(e)) => Changed(s, st1, Fail(e))
    case (st1, Ok(o)) =>
      if !o.trusted.body.Has(id) then Changed(s, st1, Fail(NotMember))
      else if fingerprint.None? then Changed(s, st1, Fail(FingerprintRequired))
      else if fingerprint.value != member.Fingerprint() then Changed(s, st1, Fail(FingerprintMismatch))
      else if o.trusted.body.Has(member.Fingerprint()) then Changed(s, st1, Fail(AlreadyMember))
      else PublishChange(o, o.trusted.body.members + {member}, o.trusted.body.gen, o.ses.key, draw, s, st1)
  }

  function MembersExcept(members: set<Member>, target: Identity): set<Member> {
    set m | m in members && m.Fingerprint() != target
  }

  function RemoveMember(id: Identity, repo: RepoId, st: State, s: Store, target: Identity, draw: nat): Changed {
    match Enter(id, repo, st, s)
    case (st1, Err(e)) => Changed(s, st1, Fail(e))
    case (st1, Ok(o)) =>
      if !o.trusted.body.Has(id) then Changed(s, st1, Fail(NotMember))
      else if target == id then Changed(s, st1, Fail(RemoveSelf))
      else if !o.trusted.body.Has(target) then Changed(s, st1, Fail(TargetNotMember))
      else if MembersExcept(o.trusted.body.members, target) == {} then Changed(s, st1, Fail(LastMember))
      else PublishChange(
        o, MembersExcept(o.trusted.body.members, target), o.trusted.body.gen + 1, draw, draw + 1, s, st1)
  }

  // ---- full rekey ----

  /** One pack, checked, opened with any held key and sealed again under the new key. */
  function Reseal(ses: Session, id: Digest, answer: Option<Cipher>, key: Key, nonce: nat): Result<Cipher, Error> {
    if answer.None? then Err(BlobMissing)
    else
      :- Need(ShaBlob(answer.value) == id, BlobMismatch);
      :- Need(ses.OpensAny(answer.value), PackUndecryptable);
      Ok(Cipher(key, ses.repo, nonce, answer.value.text))
  }

  datatype Resealed = Resealed(blobs: map<Digest, Cipher>, packs: seq<Digest>, outcome: Outcome<Error>)

  /** Re-encrypts `packs` in order after `done`, putting each new blob, up to the first failure. */
  function ResealAll(
      ses: Session, packs: seq<Digest>, blobs: map<Digest, Cipher>, key: Key, nonce: nat, done: seq<Digest>): Resealed
    decreases |packs|
  {
    if packs == [] then Resealed(blobs, done, Pass)
    else
      match Reseal(ses, packs[0], Lookup(blobs, packs[0]), key, nonce)
      case Err(e) => Resealed(blobs, done, Fail(e))
      case Ok(c) => ResealAll(ses, packs[1..], PutBlob(blobs, c), key, nonce + 1, done + [ShaBlob(c)])
  }

  function InsertAll<T(==,!new)>(s: seq<T>, xs: seq<T>): (r: seq<T>)
    ensures forall y :: y in r <==> y in s || y in xs
    decreases |xs|
  {
    if xs == [] then s else InsertAll(Insert(s, xs[0]), xs[1..])
  }

  function DeleteAll(blobs: map<Digest, Cipher>, ids: seq<Digest>): map<Digest, Cipher>
    decreases |ids|
  {
    if ids == [] then blobs else DeleteAll(blobs - {ids[0]}, ids[1..])
  }

  /** The part of a rekey after the manifest: keyfile, roster, deletion of the old blobs. */
  function FinishRekey(
      o: Opened, key: Key, nonce: nat, stale: seq<Digest>, s: Store, before: State, st: State): Changed
  {
    var members, gen := o.trusted.body.members, o.trusted.body.gen + 1;
    if Recipients(members) == {} then Changed(s, before, Fail(NoRecipients))
    else
      var s1 := s.(keyfile := Some(Keyfile(gen, key, Recipients(members))));
      var text := RosterDocument(o, members, gen);
      match CasRoster(s1, o.trusted.body.version, Cipher(key, o.ses.repo, nonce, text), text.roster.body.version)
      case Err(e) => Changed(s1, before, Fail(e))
      case Ok(s2) =>
        Changed(s2.(blobs := DeleteAll(s2.blobs, stale)),
          PinRoster(st.(keys := Insert(st.keys, key)), text.roster.body.version, text), Pass)
  }

  function FullRekey(id: Identity, repo: RepoId, st: State, s: Store, draw: nat): Changed {
    match Enter(id, repo, st, s)
    case (st1, Err(e)) => Changed(s, st1, Fail(e))
    case (st1, Ok(o)) =>
      if !o.trusted.body.Has(id) then Changed(s, st1, Fail(NotMember))
      else RekeyOpened(o, s, st1, draw)
  }

  function RekeyOpened(o: Opened, s: Store, st: State, draw: nat): Changed {
    match LoadCurrent(o.ses, o.trusted, s)
    case Err(e) => Changed(s, st, Fail(e))
    case Ok(NoManifest) => FinishRekey(o, draw, draw + 1, [], s, st, st)
    case Ok(cur) => RekeyManifest(o, cur, s, st, draw)
  }

  /** A rekey when a manifest is live: packs first, then the manifest, then the rest. */
  function RekeyManifest(o: Opened, cur: Current, s: Store, st: State, draw: nat): Changed
    requires cur.Current?
  {
    var re := ResealAll(o.ses, cur.Packs(), s.blobs, draw, draw + 1, []);
    var s1 := s.(blobs := re.blobs);
    if re.outcome.Fail? then Changed(s1, st, re.outcome)
    else
      var roster := RosterSuccessor(o, o.trusted.body.members, o.trusted.body.gen + 1);
      var text := Reissued(o, cur, re.packs, roster);
      var nonce := draw + 1 + |cur.Packs()|;
      match CasManifest(s1, cur.seen, Cipher(draw, o.ses.repo, nonce, text), cur.seen + 1)
      case Err(e) => Changed(s1, st, Fail(e))
      case Ok(s2) =>
        var st2 := st.(imported := InsertAll(st.imported, re.packs), version := cur.seen + 1, hash := Sha(text));
        FinishRekey(o, draw, nonce + 1, cur.Packs(), s2, st, st2)
  }

  // ---- init ----

  /** The genesis: generation 1, roster version 0 with the founder alone. */
  function Init(s: Store, founder: Identity, name: string, repo: RepoId, key: Key, nonce: nat): Changed {
    var body := RosterBody(repo, 0, None, {Member(name, founder.x, founder.ed)}, founder, 1);
    var s1 := s.(keyfile := Some(Keyfile(1, key, {founder.x})));
    match CasRoster(s1, 0, Cipher(key, repo, nonce, RosterText(SignRoster(body, founder), 0)), 0)
    case Err(e) => Changed(s1, EMPTY_STATE, Fail(e))
    case Ok(s2) => Changed(s2, EMPTY_STATE, Pass)
  }
}
