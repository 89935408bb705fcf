/** Fetching from a store that may answer anything: what two clients accept can fork, but a fork
    can never be joined again. */
module ForkConsistency {
  import opened Wrappers
  import opened Documents
  import opened Protocol

  datatype Client = Client(id: Identity, st: State, git: Git)

  /** What the store answers during one fetch, and the order the refs are visited in. */
  datatype Serving = Serving(s: Store, order: seq<string>)

  function FetchOnce(repo: RepoId, c: Client, v: Serving): Client {
    var f := Fetch(c.id, repo, c.st, c.git, v.s, v.order);
    c.(st := f.st, git := f.git)
  }

  function FetchAll(repo: RepoId, c: Client, vs: seq<Serving>): Client
    decreases |vs|
  {
    if vs == [] then c else FetchAll(repo, FetchOnce(repo, c, vs[0]), vs[1..])
  }

  /** The manifest pin, if there is one. */
  function Pin(st: State): seq<Digest> {
    if st.version == 0 then [] else [st.hash]
  }

  /** The hashes newly pinned by one fetch. */
  function Accepted(repo: RepoId, c: Client, v: Serving): seq<Digest> {
    var r := Fetch(c.id, repo, c.st, c.git, v.s, v.order).result;
    if r.Ok? && r.value.Advance? then [r.value.hash] else []
  }

  /** Every manifest hash the client pins, from its first pin on. */
  function Pinned(repo: RepoId, c: Client, vs: seq<Serving>): seq<Digest> {
    Pin(c.st) + NewlyPinned(repo, c, vs)
  }

  /** ... after the one it starts with. */
  function NewlyPinned(repo: RepoId, c: Client, vs: seq<Serving>): seq<Digest>
    decreases |vs|
  {
    if vs == [] then [] else Accepted(repo, c, vs[0]) + NewlyPinned(repo, FetchOnce(repo, c, vs[0]), vs[1..])
  }

  /** A pinned version belongs to the pinned hash. */
  predicate PinnedWell(st: State) {
    st.version != 0 ==> IsManifestHash(st.hash) && BodyOf(st.hash).version == st.version
  }

  predicate IsManifestHash(h: Digest) {
    h.Sha? && h.text.ManifestText?
  }

  function BodyOf(h: Digest): ManifestBody
    requires IsManifestHash(h)
  {
    h.text.manifest.body
  }

  /** Signed manifests have version 1 or more, as every signer makes them. */
  predicate VersionsPositive(vs: seq<Serving>) {
    forall v | v in vs :: SignedPositive(v.s)
  }

  predicate SignedPositive(s: Store) {
    s.manifest.Some? && s.manifest.value.text.ManifestText? ==>
      var m := s.manifest.value.text.manifest;
      m.sig.Signature? && m.Verify(m.sig.ed) ==> m.body.version >= 1
  }

  /** The second hash is the one of a direct, higher successor of the first. */
  predicate Follows(g: Digest, h: Digest) {
    && IsManifestHash(g) && IsManifestHash(h)
    && BodyOf(h).prev == Some(g) && BodyOf(h).version > BodyOf(g).version
  }

  predicate Chained(hs: seq<Digest>) {
    && (forall h | h in hs :: IsManifestHash(h))
    && (forall i | 0 < i < |hs| :: Follows(hs[i - 1], hs[i]))
  }

  /** Where two chains meet, they agree at every equal distance before. */
  ghost predicate AgreeBefore(gs: seq<Digest>, hs: seq<Digest>) {
    forall i, j, a, b :: 0 <= a <= i < |gs| && 0 <= b <= j < |hs| && i - a == j - b && gs[i] == hs[j] ==> gs[a] == hs[b]
  }

  /** Where two chains leave a common point differently, they are apart ever after. */
  ghost predicate NeverRejoin(gs: seq<Digest>, hs: seq<Digest>) {
    forall i, j, i', j' :: 0 <= i < i' < |gs| && 0 <= j < j' < |hs| && gs[i] == hs[j] && gs[i + 1] != hs[j + 1] ==>
      gs[i'] != hs[j']
  }

  /** One fetch pins nothing, or a manifest that follows the pin. */
  lemma FetchFollows(repo: RepoId, c: Client, v: Serving)
    requires PinnedWell(c.st) && (c.st.version != 0 || SignedPositive(v.s))
    ensures var c' := FetchOnce(repo, c, v);
      && PinnedWell(c'.st)
      && (c.st.version != 0 ==> c'.st.version != 0)
      && (Accepted(repo, c, v) == [] ==> Pin(c'.st) == Pin(c.st))
      && (Accepted(repo, c, v) != [] ==>
            && Accepted(repo, c, v) == Pin(c'.st)
            && (c.st.version != 0 ==> Follows(c.st.hash, c'.st.hash)))
  {
    hide Enter, ImportPacks, UpdateRefs;
    EnterKeepsManifestPin(c.id, repo, c.st, v.s);
  }

  lemma EnterKeepsManifestPin(id: Identity, repo: RepoId, st: State, s: Store)
    ensures var st' := Enter(id, repo, st, s).0;
      st'.version == st.version && st'.hash == st.hash && st'.imported == st.imported
  {
  }

  /** What a client pins is a chain, whatever the store answers: it is enough that the client
      already has a pin, or that no signer issues a version 0. */
  lemma {:induction false} FetchesChain(repo: RepoId, c: Client, vs: seq<Serving>)
    requires PinnedWell(c.st) && (c.st.version != 0 || VersionsPositive(vs))
    ensures Chained(Pinned(repo, c, vs))
    decreases |vs|
  {
    if vs != [] {
      var c' := FetchOnce(repo, c, vs[0]);
      assert vs[0] in vs;
      FetchFollows(repo, c, vs[0]);
      FetchesChain(repo, c', vs[1..]);
      var rest := Pinned(repo, c', vs[1..]);
      if Accepted(repo, c, vs[0]) == [] {
        assert Accepted(repo, c, vs[0]) + NewlyPinned(repo, c', vs[1..]) == NewlyPinned(repo, c', vs[1..]);
        assert Pinned(repo, c, vs) == rest;
      } else {
        assert Pin(c.st) + (Pin(c'.st) + NewlyPinned(repo, c', vs[1..])) == Pin(c.st) + rest;
        assert Pinned(repo, c, vs) == Pin(c.st) + rest;
        assert rest[0] == c'.st.hash;
        forall i | 0 < i < |Pin(c.st) + rest|
          ensures Follows((Pin(c.st) + rest)[i - 1], (Pin(c.st) + rest)[i])
        {
          if |Pin(c.st)| == 1 && i > 1 {
            assert Follows(rest[i - 2], rest[i - 1]);
          }
        }
      }
    }
  }

  lemma {:induction false} ChainVersionsRise(hs: seq<Digest>, i: nat, j: nat)
    requires Chained(hs) && i < j < |hs|
    ensures BodyOf(hs[i]).version < BodyOf(hs[j]).version
    decreases j
  {
    assert Follows(hs[j - 1], hs[j]);
    if i < j - 1 {
      ChainVersionsRise(hs, i, j - 1);
    }
  }

  /** Two chains that meet agree on everything before the meeting point, as far as both go. */
  lemma {:induction false} ChainsAgree(gs: seq<Digest>, hs: seq<Digest>, i: nat, j: nat, k: nat)
    requires Chained(gs) && Chained(hs)
    requires i < |gs| && j < |hs| && gs[i] == hs[j] && k <= i && k <= j
    ensures gs[i - k] == hs[j - k]
    decreases k
  {
    if k > 0 {
      assert Follows(gs[i - 1], gs[i]) && Follows(hs[j - 1], hs[j]);
      ChainsAgree(gs, hs, i - 1, j - 1, k - 1);
    }
  }

  /** Two chains that leave a common point by different successors never meet again. */
  lemma ChainsNeverRejoin(gs: seq<Digest>, hs: seq<Digest>, i: nat, j: nat, i': nat, j': nat)
    requires Chained(gs) && Chained(hs)
    requires i < i' < |gs| && j < j' < |hs| && gs[i] == hs[j] && gs[i + 1] != hs[j + 1]
    ensures gs[i'] != hs[j']
  {
    if gs[i'] == hs[j'] {
      if i' - i == j' - j {
        ChainsAgree(gs, hs, i', j', i' - i - 1);
      } else if i' - i < j' - j {
        ChainsAgree(gs, hs, i', j', i' - i);
        ChainVersionsRise(hs, j, j' - (i' - i));
      } else {
        ChainsAgree(gs, hs, i', j', j' - j);
        ChainVersionsRise(gs, i, i' - (j' - j));
      }
    }
  }

  lemma ChainsFork(gs: seq<Digest>, hs: seq<Digest>)
    requires Chained(gs) && Chained(hs)
    ensures AgreeBefore(gs, hs) && NeverRejoin(gs, hs)
  {
    forall i, j, a, b | 0 <= a <= i < |gs| && 0 <= b <= j < |hs| && i - a == j - b && gs[i] == hs[j]
      ensures gs[a] == hs[b]
    {
      ChainsAgree(gs, hs, i, j, i - a);
    }
    forall i, j, i', j' | 0 <= i < i' < |gs| && 0 <= j < j' < |hs| && gs[i] == hs[j] && gs[i + 1] != hs[j + 1]
      ensures gs[i'] != hs[j']
    {
      ChainsNeverRejoin(gs, hs, i, j, i', j');
    }
  }

  /** Fork consistency: two clients that ever pin the same manifest agree on everything they
      pinned before it, as far back as both go; once they pin different successors of one
      manifest they never pin the same manifest again. */
  lemma ForkConsistent(repo: RepoId, c: Client, d: Client, vs: seq<Serving>, ws: seq<Serving>)
    requires PinnedWell(c.st) && (c.st.version != 0 || VersionsPositive(vs))
    requires PinnedWell(d.st) && (d.st.version != 0 || VersionsPositive(ws))
    ensures AgreeBefore(Pinned(repo, c, vs), Pinned(repo, d, ws))
    ensures NeverRejoin(Pinned(repo, c, vs), Pinned(repo, d, ws))
  {
    FetchesChain(repo, c, vs);
    FetchesChain(repo, d, ws);
    ChainsFork(Pinned(repo, c, vs), Pinned(repo, d, ws));
  }

  /** The acceptance rule, exactly.  At version 0 a client counts as unpinned. */
  lemma JudgeExactly(o: Opened, st: State, s: Store)
    requires s.mver != 0
    ensures var m := OpenManifest(o.ses, o.trusted, s.manifest);
      Judge(o, st, s).Ok? && Judge(o, st, s).value.Advance?
      <==> m.Ok? && (st.version == 0 || (m.value.body.version > st.version && m.value.body.prev == Some(st.hash)))
  {
  }

  // ---- without a pin a signed version 0 breaks the chain ----

  /** The roster such a store serves: the one the client trusts, or one of the client alone. */
  function ServedRoster(id: Identity, repo: RepoId, st: State): Roster {
    if st.rosterPinned && st.trusted.RosterText? then st.trusted.roster
    else SignRoster(RosterBody(repo, 0, None, {Member("", id.x, id.ed)}, id, 1), id)
  }

  function ServedText(id: Identity, repo: RepoId, st: State): Text {
    if st.rosterPinned && st.trusted.RosterText? then st.trusted
    else RosterText(ServedRoster(id, repo, st), 0)
  }

  /** A manifest without predecessor, at any version, signed by a member. */
  function Unchained(signer: Identity, repo: RepoId, roster: Roster, version: nat): Manifest {
    SignManifest(ManifestBody(repo, version, None, map[], [], signer, ShaRosterBody(roster.body)), signer)
  }

  function Served(id: Identity, repo: RepoId, st: State, signer: Identity, version: nat): Serving {
    var roster := ServedRoster(id, repo, st);
    Serving(
      Store(Some(Cipher(0, repo, 0, ManifestText(Unchained(signer, repo, roster, version), 0))), 1,
            Some(Cipher(0, repo, 0, ServedText(id, repo, st))), roster.body.version,
            Some(Keyfile(roster.body.gen, 0, {id.x})), map[]),
      [])
  }

  /** A roster pin is one that an honest client holds: its own hash, a generation, a member. */
  predicate PinnedRosterWell(st: State) {
    st.rosterPinned ==>
      && st.trusted.RosterText? && st.rosterHash == Sha(st.trusted)
      && st.rosterVersion == st.trusted.roster.body.version
      && st.trusted.roster.body.gen >= 1 && st.trusted.roster.body.members != {}
  }

  /** Served a manifest without predecessor, a client without a pin accepts it at any version. */
  lemma AcceptsUnchained(id: Identity, repo: RepoId, st: State, git: Git, signer: Identity, version: nat)
    requires st.version == 0 && PinnedRosterWell(st) && ServedRoster(id, repo, st).body.Has(signer)
    ensures var f := Fetch(id, repo, st, git, Served(id, repo, st, signer, version).s, []);
      var text := ManifestText(Unchained(signer, repo, ServedRoster(id, repo, st), version), 0);
      && f.result.Ok? && f.result.value.Advance? && f.result.value.hash == Sha(text)
      && f.st.version == version && f.st.hash == Sha(text)
      && PinnedRosterWell(f.st) && ServedRoster(id, repo, f.st) == ServedRoster(id, repo, st)
  {
    hide UpdateRefs, ImportPacks;
    EnterServed(id, repo, st, signer, version);
    NothingToApply(git, st.imported);
  }

  lemma NothingToApply(git: Git, imported: seq<Digest>)
    ensures forall ses, blobs :: ImportPacks(ses, git, imported, [], blobs) == Imported(git, imported, Pass)
    ensures UpdateRefs(git, map[], []) == (git, Pass)
  {
  }

  lemma EnterServed(id: Identity, repo: RepoId, st: State, signer: Identity, version: nat)
    requires PinnedRosterWell(st) && ServedRoster(id, repo, st).body.Has(signer)
    ensures var (st', r) := Enter(id, repo, st, Served(id, repo, st, signer, version).s);
      && r.Ok? && r.value.trusted == ServedRoster(id, repo, st) && r.value.ses.repo == repo && r.value.ses.key == 0
      && r.value.ses.id == id && st'.version == st.version && st'.imported == st.imported && PinnedRosterWell(st')
      && st'.rosterPinned && st'.trusted == ServedText(id, repo, st)
  {
    var own := Member("", id.x, id.ed);
    assert !(st.rosterPinned && st.trusted.RosterText?) ==> own in ServedRoster(id, repo, st).body.members;
  }

  /** For every client: all it can ever pin is a chain exactly if it has a pin already. */
  lemma ChainsExactly(repo: RepoId, c: Client)
    requires PinnedWell(c.st) && PinnedRosterWell(c.st)
    ensures c.st.version != 0 <==> forall vs :: Chained(Pinned(repo, c, vs))
  {
    if c.st.version != 0 {
      forall vs
        ensures Chained(Pinned(repo, c, vs))
      {
        FetchesChain(repo, c, vs);
      }
    } else {
      VersionZeroUnchains(repo, c);
    }
  }

  /** The input that shows it: a signed version 0 leaves the client without a pin, and then it
      accepts a manifest that does not follow. */
  lemma VersionZeroUnchains(repo: RepoId, c: Client)
    requires c.st.version == 0 && PinnedRosterWell(c.st)
    ensures exists vs :: !Chained(Pinned(repo, c, vs))
  {
    hide Fetch, ServedRoster;
    var signer := SomeSigner(c.id, repo, c.st);
    var v := Served(c.id, repo, c.st, signer, 0);
    AcceptsUnchained(c.id, repo, c.st, c.git, signer, 0);
    var d := FetchOnce(repo, c, v);
    var w := Served(c.id, repo, d.st, signer, 5);
    AcceptsUnchained(c.id, repo, d.st, d.git, signer, 5);
    var g, h := Accepted(repo, c, v)[0], Accepted(repo, d, w)[0];
    assert [v, w][1..] == [w] && [w][1..] == [];
    assert NewlyPinned(repo, d, [w]) == [h] + NewlyPinned(repo, FetchOnce(repo, d, w), []) == [h];
    assert Pinned(repo, c, [v, w]) == [g, h];
    assert !Follows([g, h][0], [g, h][1]);
  }

  lemma SomeSigner(id: Identity, repo: RepoId, st: State) returns (signer: Identity)
    requires PinnedRosterWell(st)
    ensures ServedRoster(id, repo, st).body.Has(signer)
  {
    var members := ServedRoster(id, repo, st).body.members;
    if !(st.rosterPinned && st.trusted.RosterText?) {
      assert Member("", id.x, id.ed) in members;
    }
    var m :| m in members;
    signer := m.Fingerprint();
  }

  // ---- a push does not consult the pin ----

  /** A push that succeeds keeps the chain of a pinned client exactly if it was served the pinned
      manifest, at its version or a later one. */
  lemma PushFollowsExactly(
      repo: RepoId, c: Client, s: Store, wants: map<string, Object>, objects: Option<set<Object>>, draw: nat)
    requires PinnedWell(c.st) && c.st.version != 0
    requires Push(c.id, repo, c.st, c.git, s, wants, objects, draw).outcome.Pass?
    ensures var st := Push(c.id, repo, c.st, c.git, s, wants, objects, draw).st;
      && PinnedWell(st) && st.version == s.mver + 1
      && (Follows(c.st.hash, st.hash)
          <==> s.mver >= c.st.version && s.manifest.Some? && Sha(s.manifest.value.text) == c.st.hash)
  {
    hide Enter, ImportPacks;
  }

  /** The input that shows it: any pinned member who is served a manifest of version 1 pushes over
      that, and its pin goes back to version 2. */
  lemma PushMovesPinBack(repo: RepoId, c: Client, wants: map<string, Object>)
    requires c.st.version > 2 && PinnedRosterWell(c.st) && wants != map[]
    requires ServedRoster(c.id, repo, c.st).body.Has(c.id)
    ensures var p := Push(c.id, repo, c.st, c.git, Served(c.id, repo, c.st, c.id, 1).s, wants, Some({}), 0);
      p.outcome.Pass? && p.st.version == 2 < c.st.version
  {
    hide ServedRoster, ImportPacks;
    EnterServed(c.id, repo, c.st, c.id, 1);
    NothingToApply(c.git, c.st.imported);
  }
}
