/** The fields of a manifest and the bytes that are signed, encrypted and hashed. */
module ManifestWire {
  import opened Wrappers
  import opened Utf
  import opened Jcs
  import Encoder = JcsEncoder
  import Decoder = JcsDecoder

  /** As held in memory; `refs` and `packs` may be nil. */
  datatype Manifest = Manifest(
    repoId: string, version: U64, prev: Option<string>, refs: Option<map<string, string>>,
    packs: Option<seq<string>>, pusher: string, rosterHash: string, sig: string)
  {
    /** The same manifest with empty in place of nil. */
    function Normal(): Manifest {
      this.(refs := Some(if refs.Some? then refs.value else map[]),
            packs := Some(if packs.Some? then packs.value else []))
    }
  }

  function Strings(m: map<string, string>): Value {
    Obj(map k | k in m :: Str(m[k]))
  }

  function StringList(s: seq<string>): Value {
    Arr(seq(|s|, i requires 0 <= i < |s| => Str(s[i])))
  }

  function OrNull(s: Option<string>): Value {
    if s.None? then Null else Str(s.value)
  }

  function Fields(m: Manifest, includeSig: bool): Value {
    var refs := if m.refs.None? then map[] else m.refs.value;
    var packs := if m.packs.None? then [] else m.packs.value;
    var obj := map[
      "repo_id" := Str(m.repoId), "version" := Num(m.version), "refs" := Strings(refs),
      "packs" := StringList(packs), "pusher_key_id" := Str(m.pusher), "roster_hash" := Str(m.rosterHash),
      "prev_manifest_hash" := OrNull(m.prev)];
    Obj(if includeSig then obj["sig" := Str(m.sig)] else obj)
  }

  ghost function Signed(m: Manifest): seq<Byte> {
    Bytes(Fields(m, false))
  }

  ghost function Canonical(m: Manifest): seq<Byte> {
    Bytes(Fields(m, true))
  }

  method SigningBytes(m: Manifest) returns (r: Option<seq<Byte>>)
    ensures r == Some(Signed(m))
  {
    FieldsSupported(m, false);
    r := Encoder.CanonicalJson(Fields(m, false));
  }

  method CanonicalBytes(m: Manifest) returns (r: Option<seq<Byte>>)
    ensures r == Some(Canonical(m))
  {
    FieldsSupported(m, true);
    r := Encoder.CanonicalJson(Fields(m, true));
  }

  lemma FieldsSupported(m: Manifest, includeSig: bool)
    ensures Supported(Fields(m, includeSig))
  {
    hide Strings, StringList, OrNull;
    var refs := if m.refs.None? then map[] else m.refs.value;
    var packs := if m.packs.None? then [] else m.packs.value;
    PartsSupported(refs, packs, m.prev);
    var obj := Fields(m, includeSig).fields;
    assert forall k | k in obj :: Supported(obj[k]);
  }

  lemma PartsSupported(refs: map<string, string>, packs: seq<string>, prev: Option<string>)
    ensures Supported(Strings(refs)) && Supported(StringList(packs)) && Supported(OrNull(prev))
  {
    assert forall x | x in StringList(packs).items :: x.Str?;
  }

  lemma StringsInjective(a: map<string, string>, b: map<string, string>)
    requires Strings(a) == Strings(b)
    ensures a == b
  {
    var u, w := Strings(a).fields, Strings(b).fields;
    forall k | k in u
      ensures k in a && k in b && a[k] == b[k]
    {
      assert u[k] == w[k];
    }
    assert a.Keys == u.Keys && b.Keys == w.Keys;
  }

  lemma StringListInjective(a: seq<string>, b: seq<string>)
    requires StringList(a) == StringList(b)
    ensures a == b
  {
    var u, w := StringList(a).items, StringList(b).items;
    assert |a| == |u| == |b|;
    forall i | 0 <= i < |a|
      ensures a[i] == b[i]
    {
      assert u[i] == w[i];
    }
  }

  lemma FieldsTell(m: Manifest, n: Manifest, includeSig: bool)
    requires Fields(m, includeSig) == Fields(n, includeSig)
    ensures m.Normal().(sig := "") == n.Normal().(sig := "")
    ensures includeSig ==> m.sig == n.sig
  {
    hide Strings, StringList;
    var a, b := Fields(m, includeSig).fields, Fields(n, includeSig).fields;
    assert a["repo_id"] == b["repo_id"] && a["version"] == b["version"];
    assert a["pusher_key_id"] == b["pusher_key_id"] && a["roster_hash"] == b["roster_hash"];
    assert a["prev_manifest_hash"] == b["prev_manifest_hash"];
    assert a["refs"] == b["refs"] && a["packs"] == b["packs"];
    assert includeSig ==> a["sig"] == b["sig"];
    StringsInjective(m.Normal().refs.value, n.Normal().refs.value);
    StringListInjective(m.Normal().packs.value, n.Normal().packs.value);
  }

  /** Two manifests have the same signed bytes exactly when every field but sig agrees, nil and
      empty refs or packs being the same. */
  lemma SignedExactly(m: Manifest, n: Manifest)
    ensures Signed(m) == Signed(n) <==> m.Normal().(sig := "") == n.Normal().(sig := "")
  {
    hide Bytes, Supported, Strings, StringList;
    if Signed(m) == Signed(n) {
      FieldsSupported(m, false);
      FieldsSupported(n, false);
      Decoder.BytesInjective(Fields(m, false), Fields(n, false));
      FieldsTell(m, n, false);
    }
    if m.Normal().(sig := "") == n.Normal().(sig := "") {
      assert Fields(m, false) == Fields(n, false);
    }
  }

  lemma CanonicalExactly(m: Manifest, n: Manifest)
    ensures Canonical(m) == Canonical(n) <==> m.Normal() == n.Normal()
  {
    hide Bytes, Supported, Strings, StringList;
    if Canonical(m) == Canonical(n) {
      FieldsSupported(m, true);
      FieldsSupported(n, true);
      Decoder.BytesInjective(Fields(m, true), Fields(n, true));
      FieldsTell(m, n, true);
    }
    if m.Normal() == n.Normal() {
      assert Fields(m, true) == Fields(n, true);
    }
  }

  /** Signed bytes are never canonical bytes, so a binding hash is never a document hash. */
  lemma SignedIsNotCanonical(m: Manifest, n: Manifest)
    ensures Signed(m) != Canonical(n)
  {
    hide Bytes, Supported, Strings, StringList;
    assert "sig" in Fields(n, true).fields && "sig" !in Fields(m, false).fields;
    FieldsSupported(m, false);
    FieldsSupported(n, true);
    if Signed(m) == Canonical(n) {
      Decoder.BytesInjective(Fields(m, false), Fields(n, true));
    }
  }
}
