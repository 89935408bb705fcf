/** What importing, re-encrypting and deleting packs does to objects and blobs. */
module Packs {
  import opened Documents
  import opened Protocol

  /** Every pack recorded as imported is in the local repository. */
  ghost predicate ImportedLocal(imported: seq<Digest>, git: Git) {
    forall id :: id in imported ==> PackObjects(id) <= git.objects
  }

  /** The store is content-addressed. */
  predicate Addressed(blobs: map<Digest, Cipher>) {
    forall id | id in blobs :: ShaBlob(blobs[id]) == id
  }

  /** The answer to a request for this pack passes every check of an import. */
  predicate Importable(ses: Session, blobs: map<Digest, Cipher>, id: Digest) {
    id in blobs && ShaBlob(blobs[id]) == id && ses.OpensAny(blobs[id]) && blobs[id].text.PackText?
  }

  /** Imports succeed exactly when every missing pack is importable; then everything the packs
      hold is local and recorded.  Success or failure, what is recorded stays local. */
  lemma {:induction false} ImportPacksExactly(
      ses: Session, git: Git, imported: seq<Digest>, packs: seq<Digest>, blobs: map<Digest, Cipher>)
    requires ImportedLocal(imported, git)
    ensures var r := ImportPacks(ses, git, imported, packs, blobs);
      && (r.outcome.Pass? <==> forall id :: id in packs && id !in imported ==> Importable(ses, blobs, id))
      && ImportedLocal(r.imported, r.git)
      && git.objects <= r.git.objects <= git.objects + Covered(packs)
      && r.git.refs == git.refs
      && imported <= r.imported
      && (r.outcome.Pass? ==>
            && Covered(packs) <= r.git.objects
            && forall id :: id in r.imported <==> id in imported || id in packs)
    decreases |packs|
  {
    if packs == [] {
    } else {
      assert packs == [packs[0]] + packs[1..];
      CoveredSplit(packs[0], packs[1..]);
      if packs[0] in imported {
        ImportPacksExactly(ses, git, imported, packs[1..], blobs);
      } else {
        var one := ImportPack(ses, git, packs[0], Lookup(blobs, packs[0]));
        if one.Ok? {
          assert PackObjects(packs[0]) <= one.value.objects;
          ImportPacksExactly(ses, one.value, Insert(imported, packs[0]), packs[1..], blobs);
        } else {
          assert packs[0] in packs;
        }
      }
    }
  }

  lemma CoveredSplit(id: Digest, packs: seq<Digest>)
    ensures Covered([id] + packs) == PackObjects(id) + Covered(packs)
  {
    forall o | o in PackObjects(id) + Covered(packs)
      ensures o in Covered([id] + packs)
    {
      if o in PackObjects(id) {
        assert ([id] + packs)[0] == id;
      } else {
        var p :| p in packs && o in PackObjects(p);
        assert p in [id] + packs;
      }
    }
  }

  lemma CoveredConcat(packs: seq<Digest>, more: seq<Digest>)
    ensures Covered(packs + more) == Covered(packs) + Covered(more)
  {
    forall o | o in Covered(packs) + Covered(more)
      ensures o in Covered(packs + more)
    {
      var id :| (id in packs || id in more) && o in PackObjects(id);
      assert id in packs + more;
    }
  }

  /** Re-encryption that succeeds keeps the plaintexts position by position, puts every result
      in the store under the new key with the next nonces, and removes nothing. */
  lemma {:induction false} ResealAllMeaning(
      ses: Session, packs: seq<Digest>, blobs: map<Digest, Cipher>, key: Key, nonce: nat, done: seq<Digest>)
    requires Addressed(blobs)
    ensures var r := ResealAll(ses, packs, blobs, key, nonce, done);
      && Addressed(r.blobs)
      && (forall id :: id in blobs ==> id in r.blobs && r.blobs[id] == blobs[id])
      && (r.outcome.Pass? ==>
            && |r.packs| == |done| + |packs| && done <= r.packs
            && forall i :: 0 <= i < |packs| ==>
                 && packs[i].ShaBlob?
                 && r.packs[|done| + i] == ShaBlob(Cipher(key, ses.repo, nonce + i, packs[i].blob.text))
                 && r.packs[|done| + i] in r.blobs)
    decreases |packs|
  {
    if packs != [] {
      var one := Reseal(ses, packs[0], Lookup(blobs, packs[0]), key, nonce);
      if one.Ok? {
        var c := one.value;
        ResealAllMeaning(ses, packs[1..], PutBlob(blobs, c), key, nonce + 1, done + [ShaBlob(c)]);
        var r := ResealAll(ses, packs, blobs, key, nonce, done);
        if r.outcome.Pass? {
          forall i | 0 <= i < |packs|
            ensures packs[i].ShaBlob?
            ensures r.packs[|done| + i] == ShaBlob(Cipher(key, ses.repo, nonce + i, packs[i].blob.text))
            ensures r.packs[|done| + i] in r.blobs
          {
            if i > 0 {
              assert packs[1..][i - 1] == packs[i];
            } else {
              assert r.packs[|done|] == (done + [ShaBlob(c)])[|done|];
              assert ShaBlob(c) in PutBlob(blobs, c);
            }
          }
        }
      }
    }
  }

  /** It succeeds exactly when the caller holds a key for every pack and every pack is stored. */
  lemma {:induction false} ResealAllExactly(
      ses: Session, packs: seq<Digest>, blobs: map<Digest, Cipher>, key: Key, nonce: nat, done: seq<Digest>)
    requires Addressed(blobs)
    requires forall id :: id in packs ==> id in blobs
    ensures ResealAll(ses, packs, blobs, key, nonce, done).outcome.Pass?
      <==> forall id :: id in packs ==> ses.OpensAny(blobs[id])
    decreases |packs|
  {
    if packs != [] {
      assert packs == [packs[0]] + packs[1..];
      var one := Reseal(ses, packs[0], Lookup(blobs, packs[0]), key, nonce);
      if one.Ok? {
        var blobs' := PutBlob(blobs, one.value);
        ResealAllExactly(ses, packs[1..], blobs', key, nonce + 1, done + [ShaBlob(one.value)]);
        assert forall id :: id in packs[1..] ==> blobs'[id] == blobs[id];
      } else {
        assert packs[0] in packs;
      }
    }
  }

  lemma {:induction false} DeleteAllExactly(blobs: map<Digest, Cipher>, ids: seq<Digest>)
    ensures forall id :: id in DeleteAll(blobs, ids) <==> id in blobs && id !in ids
    ensures forall id :: id in DeleteAll(blobs, ids) ==> DeleteAll(blobs, ids)[id] == blobs[id]
    decreases |ids|
  {
    if ids != [] {
      DeleteAllExactly(blobs - {ids[0]}, ids[1..]);
      assert ids == [ids[0]] + ids[1..];
    }
  }

  /** Updating refs succeeds exactly when every object is local, and then sets exactly them. */
  lemma {:induction false} UpdateRefsExactly(git: Git, refs: map<string, Object>, order: seq<string>)
    requires forall r | r in order :: r in refs
    ensures var (git', done) := UpdateRefs(git, refs, order);
      && git'.objects == git.objects
      && (done.Pass? <==> forall r :: r in order ==> refs[r] in git.objects)
      && (done.Pass? ==> git'.refs == git.refs + (map r | r in order :: refs[r]))
    decreases |order|
  {
    if order != [] {
      assert order == [order[0]] + order[1..];
      if refs[order[0]] in git.objects {
        UpdateRefsExactly(git.(refs := git.refs[order[0] := refs[order[0]]]), refs, order[1..]);
      }
    }
  }

  lemma ReachReflexive(o: Object)
    ensures o in Reach(o)
  {
  }

  /** A walk along links. */
  predicate Walk(walk: seq<Object>, from: Object, to: Object) {
    && walk != [] && walk[0] == from && walk[|walk| - 1] == to
    && forall i | 0 < i < |walk| :: walk[i] in walk[i - 1].links
  }

  lemma {:induction false} ReachAllExactly(os: seq<Object>, p: Object)
    ensures p in ReachAll(os) <==> exists i :: 0 <= i < |os| && p in Reach(os[i])
  {
    if os != [] {
      ReachAllExactly(os[1..], p);
      if p in ReachAll(os[1..]) {
        var i :| 0 <= i < |os[1..]| && p in Reach(os[1..][i]);
        assert p in Reach(os[i + 1]);
      }
      if i :| 0 <= i < |os| && p in Reach(os[i]) {
        assert i > 0 ==> p in Reach(os[1..][i - 1]);
      }
    }
  }

  lemma {:induction false} ReachHasWalk(o: Object, p: Object)
    requires p in Reach(o)
    ensures exists walk :: Walk(walk, o, p)
    decreases o
  {
    if p == o {
      assert Walk([o], o, p);
    } else {
      ReachAllExactly(o.links, p);
      var i :| 0 <= i < |o.links| && p in Reach(o.links[i]);
      ReachHasWalk(o.links[i], p);
      var walk :| Walk(walk, o.links[i], p);
      assert Walk([o] + walk, o, p);
    }
  }

  lemma {:induction false} WalkReaches(walk: seq<Object>, o: Object, p: Object)
    requires Walk(walk, o, p)
    ensures p in Reach(o)
    decreases |walk|
  {
    if |walk| > 1 {
      assert walk[1] in o.links;
      var i :| 0 <= i < |o.links| && o.links[i] == walk[1];
      WalkReaches(walk[1..], walk[1], p);
      ReachAllExactly(o.links, p);
    }
  }

  /** What an object reaches is what walks along links lead to. */
  lemma ReachExactly(o: Object, p: Object)
    ensures p in Reach(o) <==> exists walk :: Walk(walk, o, p)
  {
    if p in Reach(o) {
      ReachHasWalk(o, p);
    }
    if walk :| Walk(walk, o, p) {
      WalkReaches(walk, o, p);
    }
  }

  lemma RefsReached(refs: map<string, Object>, r: string)
    requires r in refs
    ensures refs[r] in ReachSet(refs.Values) && Reach(refs[r]) <= ReachSet(refs.Values)
  {
    ReachReflexive(refs[r]);
    assert refs[r] in refs.Values;
  }

  /** A push's new pack closes what it adds: everything the merged refs reach is covered. */
  lemma PushStaysClosed(
      refs: map<string, Object>, wants: map<string, Object>, packs: seq<Digest>, more: seq<Digest>)
    requires ReachSet(refs.Values) <= Covered(packs)
    requires PackContract(wants.Values, refs.Values, Covered(more))
    ensures ReachSet((refs + wants).Values) <= Covered(packs + more)
  {
    CoveredConcat(packs, more);
    forall o | o in ReachSet((refs + wants).Values)
      ensures o in Covered(packs) + Covered(more)
    {
      var v :| v in (refs + wants).Values && o in Reach(v);
      if v in refs.Values {
        assert o in ReachSet(refs.Values);
      } else {
        assert v in wants.Values;
        assert o in ReachSet(wants.Values);
      }
    }
  }

  lemma CoveredOne(id: Digest)
    ensures Covered([id]) == PackObjects(id)
  {
    assert Covered([id]) == Covered([id] + []);
    CoveredSplit(id, []);
  }

  /** Position by position the same plaintexts cover the same objects. */
  lemma SamePlaintextsCover(packs: seq<Digest>, packs': seq<Digest>)
    requires |packs| == |packs'|
    requires forall i :: 0 <= i < |packs| ==> PackObjects(packs'[i]) == PackObjects(packs[i])
    ensures Covered(packs') == Covered(packs)
  {
  }
}
