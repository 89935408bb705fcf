/** The documents the protocol exchanges, with cryptography taken symbolically.

    A digest is the term that was hashed, so hashing is injective.  A signature is the pair
    of signing key and signed body, so it verifies exactly when that key signed that body.
    A ciphertext names its key, repository and nonce, so two encryptions of one plaintext
    are different blobs.  The plaintext of a roster or a manifest carries the parsed document
    and the `form` it was written in: form 0 is the canonical encoding that honest writers
    produce, other forms are other texts that parse to the same document. */
module Documents {
  import opened Wrappers

  type Key = nat
  type RepoId = nat

  /** A member's key pairs; also their fingerprint, which is a hash of the two public keys. */
  datatype Identity = Identity(x: nat, ed: nat)

  datatype Member = Member(name: string, x: nat, ed: nat) {
    function Fingerprint(): Identity {
      Identity(x, ed)
    }
  }

  /** A git object; its id is the hash of its content and its links, so the id is the object. */
  datatype Object = Object(content: nat, links: seq<Object>)

  datatype RosterBody = RosterBody(
    repo: RepoId, version: nat, prev: Option<Digest>, members: set<Member>, author: Identity, gen: nat)
  {
    /** FindByFingerprint succeeds; the key found is the one the fingerprint was computed from. */
    predicate Has(fp: Identity) {
      exists m | m in members :: m.Fingerprint() == fp
    }
  }

  datatype Roster = Roster(body: RosterBody, sig: Signature) {
    predicate Verify(ed: nat) {
      sig == Signature(ed, SignedRoster(body))
    }
  }

  datatype ManifestBody = ManifestBody(
    repo: RepoId, version: nat, prev: Option<Digest>, refs: map<string, Object>, packs: seq<Digest>,
    pusher: Identity, rosterHash: Digest)

  datatype Manifest = Manifest(body: ManifestBody, sig: Signature) {
    predicate Verify(ed: nat) {
      sig == Signature(ed, SignedManifest(body))
    }
  }

  datatype Signed = SignedRoster(roster: RosterBody) | SignedManifest(manifest: ManifestBody)

  datatype Signature = Signature(ed: nat, signed: Signed) | BadSignature(raw: nat)

  datatype Text =
    | RosterText(roster: Roster, form: nat)
    | ManifestText(manifest: Manifest, form: nat)
    | PackText(objects: set<Object>)
    | OtherText(raw: nat)

  datatype Cipher = Cipher(key: Key, repo: RepoId, nonce: nat, text: Text)

  /** SHA-256 of a plaintext, of a roster's signed bytes (its binding hash), of a ciphertext
      (a pack id), or a string that is no such hash. */
  datatype Digest = Sha(text: Text) | ShaRosterBody(body: RosterBody) | ShaBlob(blob: Cipher) | NoHash(raw: nat)

  /** The wrapped repository key: its payload and the X25519 keys that can open it. */
  datatype Keyfile = Keyfile(gen: nat, key: Key, recipients: set<nat>)

  function SignRoster(body: RosterBody, id: Identity): Roster {
    Roster(body, Signature(id.ed, SignedRoster(body)))
  }

  function SignManifest(body: ManifestBody, id: Identity): Manifest {
    Manifest(body, Signature(id.ed, SignedManifest(body)))
  }

  function Recipients(members: set<Member>): set<nat> {
    set m | m in members :: m.x
  }

  predicate DistinctFingerprints(members: set<Member>) {
    forall m, n | m in members && n in members :: m.Fingerprint() == n.Fingerprint() ==> m == n
  }

  // ---- objects ----

  function Reach(o: Object): set<Object>
    decreases o, 1
  {
    {o} + ReachAll(o.links)
  }

  function ReachAll(os: seq<Object>): set<Object>
    decreases os, 0
  {
    if os == [] then {} else Reach(os[0]) + ReachAll(os[1..])
  }

  function ReachSet(os: set<Object>): set<Object> {
    set o, p | o in os && p in Reach(o) :: p
  }

  function PackObjects(id: Digest): set<Object> {
    if id.ShaBlob? && id.blob.text.PackText? then id.blob.text.objects else {}
  }

  /** Every object held by one of the packs. */
  function Covered(packs: seq<Digest>): set<Object> {
    set id, o | id in packs && o in PackObjects(id) :: o
  }

  /** Everything a ref of the manifest reaches is in one of its packs. */
  predicate Closed(m: ManifestBody) {
    ReachSet(m.refs.Values) <= Covered(m.packs)
  }
}
