/** Parsing the wire forms of manifests and rosters: each field is looked up by its own name. */
module WireReader {
  import opened Wrappers
  import opened Utf
  import opened Jcs
  import opened JcsDecoder
  import M = ManifestWire
  import R = RosterWire

  /** An absent member reads as null. */
  function Get(fields: map<string, Value>, name: string): Value {
    if name in fields then fields[name] else Null
  }

  function AsText(v: Value): Option<string> {
    match v
    case Str(s) => Some(s)
    case Null => Some("")
    case _ => None
  }

  function AsPointer(v: Value): Option<Option<string>> {
    match v
    case Str(s) => Some(Some(s))
    case Null => Some(None)
    case _ => None
  }

  function AsNumber(v: Value): Option<U64> {
    match v
    case Num(n) => Some(n)
    case Null => Some(0)
    case _ => None
  }

  function AsTexts(v: Value): Option<Option<seq<string>>> {
    match v
    case Null => Some(None)
    case Arr(items) =>
      if forall x | x in items :: x.Str? then
        Some(Some(seq(|items|, i requires 0 <= i < |items| => ItemText(items, i))))
      else None
    case _ => None
  }

  function ItemText(items: seq<Value>, i: nat): string
    requires i < |items| && forall x | x in items :: x.Str?
  {
    assert items[i] in items;
    items[i].s
  }

  function AsTextMap(v: Value): Option<Option<map<string, string>>> {
    match v
    case Null => Some(None)
    case Obj(fields) =>
      if forall k | k in fields :: fields[k].Str? then Some(Some(map k | k in fields :: fields[k].s)) else None
    case _ => None
  }

  // ---- manifests ----

  /** The manifest that the bytes state. */
  function ParsedManifest(b: seq<Byte>): Option<M.Manifest> {
    match Decode(b)
    case Some(Obj(f)) =>
      (match (AsText(Get(f, "repo_id")), AsNumber(Get(f, "version")), AsPointer(Get(f, "prev_manifest_hash")),
              AsTextMap(Get(f, "refs")), AsTexts(Get(f, "packs")))
       case (Some(repoId), Some(version), Some(prev), Some(refs), Some(packs)) =>
         (match (AsText(Get(f, "pusher_key_id")), AsText(Get(f, "roster_hash")), AsText(Get(f, "sig")))
          case (Some(pusher), Some(rosterHash), Some(sig)) =>
            Some(M.Manifest(repoId, version, prev, refs, packs, pusher, rosterHash, sig))
          case _ => None)
       case _ => None)
    case _ => None
  }

  lemma ReadsStrings(refs: map<string, string>)
    ensures AsTextMap(M.Strings(refs)) == Some(Some(refs))
  {
    var f := M.Strings(refs).fields;
    assert forall k | k in f :: f[k].Str?;
    assert (map k | k in f :: f[k].s) == refs;
  }

  lemma ReadsStringList(packs: seq<string>)
    ensures AsTexts(M.StringList(packs)) == Some(Some(packs))
  {
    var items := M.StringList(packs).items;
    assert |items| == |packs|;
    assert forall x | x in items :: x.Str?;
    assert seq(|items|, i requires 0 <= i < |items| => ItemText(items, i)) == packs;
  }

  lemma ParsedFields(m: M.Manifest, includeSig: bool)
    requires Decode(Bytes(M.Fields(m, includeSig))) == Some(M.Fields(m, includeSig))
    ensures ParsedManifest(Bytes(M.Fields(m, includeSig)))
         == Some(if includeSig then m.Normal() else m.Normal().(sig := ""))
  {
    hide Decode, Bytes, AsTextMap, AsTexts, M.Strings, M.StringList;
    ReadsStrings(m.Normal().refs.value);
    ReadsStringList(m.Normal().packs.value);
  }

  /** The canonical bytes state exactly the manifest, with empty in place of nil refs and packs, and the
      signed bytes exactly the manifest without its signature. */
  lemma ParsesManifest(m: M.Manifest)
    ensures ParsedManifest(M.Canonical(m)) == Some(m.Normal())
    ensures ParsedManifest(M.Signed(m)) == Some(m.Normal().(sig := ""))
  {
    hide Decode, Bytes, ParsedManifest, M.Fields;
    M.FieldsSupported(m, true);
    M.FieldsSupported(m, false);
    DecodeBytes(M.Fields(m, true));
    DecodeBytes(M.Fields(m, false));
    ParsedFields(m, true);
    ParsedFields(m, false);
  }

  // ---- rosters ----

  function AsMember(v: Value): Option<R.Member> {
    match v
    case Obj(f) =>
      (match (AsText(Get(f, "name")), AsText(Get(f, "x25519_pub")), AsText(Get(f, "ed25519_pub")))
       case (Some(name), Some(x), Some(ed)) => Some(R.Member(name, x, ed))
       case _ => None)
    case _ => None
  }

  function AsMembers(items: seq<Value>): Option<seq<R.Member>> {
    if items == [] then Some([])
    else match (AsMember(items[0]), AsMembers(items[1..]))
      case (Some(m), Some(rest)) => Some([m] + rest)
      case _ => None
  }

  function AsMemberList(v: Value): Option<seq<R.Member>> {
    match v
    case Null => Some([])
    case Arr(items) => AsMembers(items)
    case _ => None
  }

  function ParsedRoster(b: seq<Byte>): Option<R.Roster> {
    match Decode(b)
    case Some(Obj(f)) =>
      (match (AsText(Get(f, "repo_id")), AsNumber(Get(f, "version")), AsPointer(Get(f, "prev_roster_hash")),
              AsMemberList(Get(f, "members")))
       case (Some(repoId), Some(version), Some(prev), Some(members)) =>
         (match (AsText(Get(f, "author_key_id")), AsNumber(Get(f, "repo_key_generation")), AsText(Get(f, "sig")))
          case (Some(author), Some(gen), Some(sig)) => Some(R.Roster(repoId, version, prev, members, author, gen, sig))
          case _ => None)
       case _ => None)
    case _ => None
  }

  lemma ReadsMember(m: R.Member)
    ensures AsMember(R.MemberValue(m)) == Some(m)
  {
  }

  lemma {:induction false} ReadsMembers(s: seq<R.Member>)
    ensures AsMemberList(R.MemberList(s)) == Some(s)
  {
    hide R.MemberValue, AsMember;
    var items := R.MemberList(s).items;
    if s == [] {
      assert items == [];
    } else {
      ReadsMember(s[0]);
      ReadsMembers(s[1..]);
      assert items[0] == R.MemberValue(s[0]);
      assert items[1..] == R.MemberList(s[1..]).items;
      assert s == [s[0]] + s[1..];
    }
  }

  lemma ParsedRosterFields(r: R.Roster, sorted: seq<R.Member>, includeSig: bool)
    requires Decode(Bytes(R.Fields(r, sorted, includeSig))) == Some(R.Fields(r, sorted, includeSig))
    ensures ParsedRoster(Bytes(R.Fields(r, sorted, includeSig)))
         == Some(r.(members := sorted, sig := if includeSig then r.sig else ""))
  {
    hide Decode, Bytes, AsMemberList, R.MemberList;
    ReadsMembers(sorted);
  }

  /** The bytes of a roster state exactly the roster with its members in the sorted order, without
      includeSig but for its signature. */
  lemma ParsesRoster(r: R.Roster, includeSig: bool, sha: R.Sha)
    requires R.WellKeyed(r.members, sha)
    ensures ParsedRoster(R.Canonical(r, includeSig, sha))
         == Some(r.(members := R.Sorted(r.members, sha), sig := if includeSig then r.sig else ""))
  {
    hide Decode, Bytes, ParsedRoster, R.Fields, R.WellKeyed;
    var sorted := R.Sorted(r.members, sha);
    R.FieldsSupported(r, sorted, includeSig);
    DecodeBytes(R.Fields(r, sorted, includeSig));
    ParsedRosterFields(r, sorted, includeSig);
  }
}
