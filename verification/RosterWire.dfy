/** The fields of a roster: members in fingerprint order, and the bytes that are signed, encrypted
    and hashed.  SHA-256 is a parameter. */
module RosterWire {
  import opened Wrappers
  import opened Utf
  import opened Jcs
  import Encoder = JcsEncoder
  import Decoder = JcsDecoder
  import ManifestWire

  type Sha = seq<Byte> -> string

  datatype Member = Member(name: string, x25519: string, ed25519: string)

  datatype Roster = Roster(
    repoId: string, version: U64, prev: Option<string>, members: seq<Member>, author: string, gen: U64,
    sig: string)

  // ---- fingerprints ----

  function Nibble(c: char): Option<nat> {
    if '0' <= c <= '9' then Some(c as int - '0' as int)
    else if 'a' <= c <= 'f' then Some(c as int - 'a' as int + 10)
    else if 'A' <= c <= 'F' then Some(c as int - 'A' as int + 10)
    else None
  }

  function FromHex(s: string): Option<seq<Byte>> {
    if s == "" then Some([])
    else if |s| == 1 then None
    else match (Nibble(s[0]), Nibble(s[1]), FromHex(s[2..]))
      case (Some(h), Some(l), Some(rest)) => Some([16 * h + l] + rest)
      case _ => None
  }

  function Raw32(s: string): Option<seq<Byte>> {
    match FromHex(s)
    case Some(b) => if |b| == 32 then Some(b) else None
    case None => None
  }

  function Fingerprint(m: Member, sha: Sha): Option<string> {
    match (Raw32(m.x25519), Raw32(m.ed25519))
    case (Some(x), Some(e)) => Some(sha(x + e))
    case _ => None
  }

  predicate WellKeyed(members: seq<Member>, sha: Sha) {
    forall m | m in members :: Fingerprint(m, sha).Some?
  }

  method FindByFingerprint(members: seq<Member>, sha: Sha, fp: string) returns (r: Option<Member>)
    ensures r.Some? ==> exists i ::
              0 <= i < |members| && members[i] == r.value && Fingerprint(members[i], sha) == Some(fp)
                                    && forall j | 0 <= j < i :: Fingerprint(members[j], sha) != Some(fp)
    ensures r.None? ==> forall m | m in members :: Fingerprint(m, sha) != Some(fp)
  {
    for i := 0 to |members|
      invariant forall j | 0 <= j < i :: Fingerprint(members[j], sha) != Some(fp)
    {
      if Fingerprint(members[i], sha) == Some(fp) {
        return Some(members[i]);
      }
    }
    return None;
  }

  // ---- the order of members ----

  predicate TextLess(a: string, b: string) {
    if b == "" then false
    else if a == "" then true
    else if a[0] != b[0] then a[0] < b[0]
    else TextLess(a[1..], b[1..])
  }

  lemma {:induction false} TextOrder(a: string, b: string, c: string)
    ensures !TextLess(a, a)
    ensures a != b ==> TextLess(a, b) || TextLess(b, a)
    ensures TextLess(a, b) && TextLess(b, c) ==> TextLess(a, c)
  {
    if a != "" {
      TextOrder(a[1..], if b == "" then "" else b[1..], if c == "" then "" else c[1..]);
      if b != "" && a[0] == b[0] {
        assert a == [a[0]] + a[1..] && b == [b[0]] + b[1..];
      }
    }
  }

  /** Not after: a does not have to come behind b. */
  predicate NotAfter(a: Member, b: Member, sha: Sha)
    requires Fingerprint(a, sha).Some? && Fingerprint(b, sha).Some?
  {
    !TextLess(Fingerprint(b, sha).value, Fingerprint(a, sha).value)
  }

  predicate Ordered(s: seq<Member>, sha: Sha) {
    WellKeyed(s, sha) && forall i, j | 0 <= i < j < |s| :: NotAfter(s[i], s[j], sha)
  }

  /** What sorting promises: the same members, in fingerprint order. */
  predicate SortOf(s: seq<Member>, members: seq<Member>, sha: Sha) {
    multiset(s) == multiset(members) && Ordered(s, sha)
  }

  method SortedMembers(members: seq<Member>, sha: Sha) returns (r: Option<seq<Member>>)
    ensures r.Some? <==> WellKeyed(members, sha)
    ensures r.Some? ==> SortOf(r.value, members, sha)
  {
    hide Fingerprint, NotAfter;
    var out: seq<Member> := [];
    for i := 0 to |members|
      invariant WellKeyed(members[..i], sha)
      invariant SortOf(out, members[..i], sha)
    {
      if Fingerprint(members[i], sha).None? {
        assert members[i] in members;
        return None;
      }
      assert members[..i + 1] == members[..i] + [members[i]];
      out := InsertMember(out, members[i], sha);
    }
    assert members[..|members|] == members;
    return Some(out);
  }

  method InsertMember(sorted: seq<Member>, m: Member, sha: Sha) returns (r: seq<Member>)
    requires Ordered(sorted, sha) && Fingerprint(m, sha).Some?
    ensures SortOf(r, sorted + [m], sha)
  {
    hide Fingerprint, NotAfter;
    var i := 0;
    while i < |sorted| && NotAfter(sorted[i], m, sha)
      invariant i <= |sorted|
      invariant forall j | 0 <= j < i :: NotAfter(sorted[j], m, sha)
    {
      i := i + 1;
    }
    r := sorted[..i] + [m] + sorted[i..];
    InsertedMember(sorted, i, m, sha);
  }

  lemma InsertedMember(sorted: seq<Member>, i: nat, m: Member, sha: Sha)
    requires Ordered(sorted, sha) && Fingerprint(m, sha).Some? && i <= |sorted|
    requires forall j | 0 <= j < i :: NotAfter(sorted[j], m, sha)
    requires i < |sorted| ==> !NotAfter(sorted[i], m, sha)
    ensures SortOf(sorted[..i] + [m] + sorted[i..], sorted + [m], sha)
  {
    hide Fingerprint, NotAfter;
    assert sorted == sorted[..i] + sorted[i..];
    var r := sorted[..i] + [m] + sorted[i..];
    forall j | i <= j < |sorted|
      ensures NotAfter(m, sorted[j], sha)
    {
      NotAfterLaws(m, sorted[i], sorted[j], sha);
    }
    forall k | k in r
      ensures Fingerprint(k, sha).Some?
    {
      assert k in sorted || k == m;
    }
  }

  lemma NotAfterLaws(a: Member, b: Member, c: Member, sha: Sha)
    requires Fingerprint(a, sha).Some? && Fingerprint(b, sha).Some? && Fingerprint(c, sha).Some?
    ensures NotAfter(a, a, sha)
    ensures NotAfter(a, b, sha) || NotAfter(b, a, sha)
    ensures NotAfter(a, b, sha) && NotAfter(b, c, sha) ==> NotAfter(a, c, sha)
    ensures NotAfter(a, b, sha) && NotAfter(b, a, sha) ==> Fingerprint(a, sha) == Fingerprint(b, sha)
  {
    var x, y, z := Fingerprint(a, sha).value, Fingerprint(b, sha).value, Fingerprint(c, sha).value;
    TextOrder(x, y, x);
    TextOrder(y, x, z);
    TextOrder(z, y, x);
    TextOrder(z, x, y);
    TextOrder(y, z, x);
  }

  // ---- when the order is determined ----

  /** Different members have different fingerprints. */
  predicate Distinct(members: seq<Member>, sha: Sha) {
    forall a, b | a in members && b in members :: Fingerprint(a, sha) == Fingerprint(b, sha) ==> a == b
  }

  lemma SameElements(s: seq<Member>, t: seq<Member>)
    requires multiset(s) == multiset(t)
    ensures |s| == |t| && forall m :: m in s <==> m in t
  {
    forall m: Member
      ensures m in s <==> m in t
    {
      assert m in s <==> m in multiset(s);
      assert m in t <==> m in multiset(t);
    }
    assert |multiset(s)| == |multiset(t)|;
  }

  lemma {:induction false} SortUnique(s: seq<Member>, t: seq<Member>, sha: Sha)
    requires Ordered(s, sha) && Ordered(t, sha) && multiset(s) == multiset(t) && Distinct(s, sha)
    ensures s == t
  {
    hide Ordered, Fingerprint;
    SameElements(s, t);
    if s != [] {
      SameFirst(s, t, sha);
      SameTails(s, t);
      TailOrdered(s, sha);
      TailOrdered(t, sha);
      SortUnique(s[1..], t[1..], sha);
      assert s == [s[0]] + s[1..] && t == [t[0]] + t[1..];
    }
  }

  lemma TailOrdered(s: seq<Member>, sha: Sha)
    requires s != [] && Ordered(s, sha)
    ensures Ordered(s[1..], sha) && forall m | m in s[1..] :: m in s
  {
    hide Fingerprint, NotAfter;
  }

  lemma SameFirst(s: seq<Member>, t: seq<Member>, sha: Sha)
    requires Ordered(s, sha) && Ordered(t, sha) && Distinct(s, sha)
    requires s != [] && t != [] && forall m :: m in s <==> m in t
    ensures s[0] == t[0]
  {
    hide Fingerprint, NotAfter;
    assert s[0] in t && t[0] in s;
    var i :| 0 <= i < |t| && t[i] == s[0];
    var j :| 0 <= j < |s| && s[j] == t[0];
    NotAfterLaws(s[0], t[0], s[0], sha);
  }

  lemma SameTails(s: seq<Member>, t: seq<Member>)
    requires s != [] && t != [] && s[0] == t[0] && multiset(s) == multiset(t)
    ensures multiset(s[1..]) == multiset(t[1..])
  {
    assert s == [s[0]] + s[1..] && t == [t[0]] + t[1..];
    assert multiset(s[1..]) == multiset(s) - multiset{s[0]};
    assert multiset(t[1..]) == multiset(t) - multiset{t[0]};
  }

  lemma {:induction false} SortExists(members: seq<Member>, sha: Sha)
    requires WellKeyed(members, sha)
    ensures exists s: seq<Member> :: SortOf(s, members, sha)
  {
    hide Fingerprint, NotAfter;
    if members == [] {
      assert SortOf([], members, sha);
    } else {
      var most, m := members[..|members| - 1], members[|members| - 1];
      SortExists(most, sha);
      var s: seq<Member> :| SortOf(s, most, sha);
      var i := 0;
      while i < |s| && NotAfter(s[i], m, sha)
        invariant i <= |s|
        invariant forall j | 0 <= j < i :: NotAfter(s[j], m, sha)
      {
        i := i + 1;
      }
      InsertedMember(s, i, m, sha);
      assert members == most + [m];
      assert SortOf(s[..i] + [m] + s[i..], members, sha);
    }
  }

  /** Sorting by fingerprint has one possible outcome exactly when the fingerprints are distinct. */
  lemma SortDetermined(members: seq<Member>, sha: Sha)
    requires WellKeyed(members, sha)
    ensures Distinct(members, sha)
       <==> forall s, t: seq<Member> | SortOf(s, members, sha) && SortOf(t, members, sha) :: s == t
  {
    hide Fingerprint, NotAfter;
    if Distinct(members, sha) {
      forall s, t: seq<Member> | SortOf(s, members, sha) && SortOf(t, members, sha)
        ensures s == t
      {
        SameElements(s, members);
        SortUnique(s, t, sha);
      }
    } else {
      var a, b :| a in members && b in members && Fingerprint(a, sha) == Fingerprint(b, sha) && a != b;
      SortExists(members, sha);
      var s: seq<Member> :| SortOf(s, members, sha);
      SameElements(s, members);
      var i :| 0 <= i < |s| && s[i] == a;
      var j :| 0 <= j < |s| && s[j] == b;
      SwapKeepsSort(s, members, i, j, sha);
      assert s[i := b][j := a][i] != s[i];
    }
  }

  lemma SwapKeepsSort(s: seq<Member>, members: seq<Member>, i: nat, j: nat, sha: Sha)
    requires SortOf(s, members, sha) && i < |s| && j < |s| && Fingerprint(s[i], sha) == Fingerprint(s[j], sha)
    ensures SortOf(s[i := s[j]][j := s[i]], members, sha)
  {
    hide Fingerprint;
    var t := s[i := s[j]][j := s[i]];
    assert forall k | 0 <= k < |s| :: Fingerprint(t[k], sha) == Fingerprint(s[k], sha);
    assert multiset(t) == multiset(s);
  }

  // ---- fields and bytes ----

  function MemberValue(m: Member): Value {
    Obj(map["name" := Str(m.name), "x25519_pub" := Str(m.x25519), "ed25519_pub" := Str(m.ed25519)])
  }

  function MemberList(s: seq<Member>): Value {
    Arr(seq(|s|, i requires 0 <= i < |s| => MemberValue(s[i])))
  }

  function Fields(r: Roster, sorted: seq<Member>, includeSig: bool): Value {
    var obj := map[
      "repo_id" := Str(r.repoId), "version" := Num(r.version), "members" := MemberList(sorted),
      "author_key_id" := Str(r.author), "repo_key_generation" := Num(r.gen),
      "prev_roster_hash" := ManifestWire.OrNull(r.prev)];
    Obj(if includeSig then obj["sig" := Str(r.sig)] else obj)
  }

  ghost function Sorted(members: seq<Member>, sha: Sha): (s: seq<Member>)
    requires WellKeyed(members, sha)
    ensures SortOf(s, members, sha)
  {
    SortExists(members, sha);
    var s: seq<Member> :| SortOf(s, members, sha);
    s
  }

  /** The signed bytes, or with sig the bytes that are encrypted and hashed. */
  ghost function Canonical(r: Roster, includeSig: bool, sha: Sha): seq<Byte>
    requires WellKeyed(r.members, sha)
  {
    Bytes(Fields(r, Sorted(r.members, sha), includeSig))
  }

  method CanonicalBytes(r: Roster, includeSig: bool, sha: Sha) returns (b: Option<seq<Byte>>)
    ensures b.Some? <==> WellKeyed(r.members, sha)
    ensures b.Some? && Distinct(r.members, sha) ==> b.value == Canonical(r, includeSig, sha)
  {
    hide Fingerprint, Bytes, Fields, SortOf;
    var sorted := SortedMembers(r.members, sha);
    if sorted.None? {
      return None;
    }
    FieldsSupported(r, sorted.value, includeSig);
    b := Encoder.CanonicalJson(Fields(r, sorted.value, includeSig));
    SortDetermined(r.members, sha);
  }

  /** The hash of the signed bytes: what a manifest names its roster by. */
  method BindingHash(r: Roster, sha: Sha) returns (h: Option<string>)
    ensures h.Some? <==> WellKeyed(r.members, sha)
    ensures h.Some? && Distinct(r.members, sha) ==> h.value == sha(Canonical(r, false, sha))
  {
    hide Fingerprint, Canonical;
    var b := CanonicalBytes(r, false, sha);
    return if b.None? then None else Some(sha(b.value));
  }

  method Hash(r: Roster, sha: Sha) returns (h: Option<string>)
    ensures h.Some? <==> WellKeyed(r.members, sha)
    ensures h.Some? && Distinct(r.members, sha) ==> h.value == sha(Canonical(r, true, sha))
  {
    hide Fingerprint, Canonical;
    var b := CanonicalBytes(r, true, sha);
    return if b.None? then None else Some(sha(b.value));
  }

  lemma FieldsSupported(r: Roster, sorted: seq<Member>, includeSig: bool)
    ensures Supported(Fields(r, sorted, includeSig))
  {
    hide MemberList;
    MembersSupported(sorted);
    var obj := Fields(r, sorted, includeSig).fields;
    assert forall k | k in obj :: Supported(obj[k]);
  }

  lemma MembersSupported(s: seq<Member>)
    ensures Supported(MemberList(s))
  {
    hide MemberValue;
    forall v | v in MemberList(s).items
      ensures Supported(v)
    {
      var i :| 0 <= i < |s| && v == MemberValue(s[i]);
      MemberSupported(s[i]);
    }
  }

  lemma MemberSupported(m: Member)
    ensures Supported(MemberValue(m))
  {
    var obj := MemberValue(m).fields;
    assert forall k | k in obj :: Supported(obj[k]);
  }

  lemma MemberListInjective(s: seq<Member>, t: seq<Member>)
    requires MemberList(s) == MemberList(t)
    ensures s == t
  {
    hide MemberValue;
    var u, w := MemberList(s).items, MemberList(t).items;
    assert |s| == |u| == |t|;
    forall i | 0 <= i < |s|
      ensures s[i] == t[i]
    {
      assert u[i] == w[i];
      MemberValueInjective(s[i], t[i]);
    }
  }

  lemma MemberValueInjective(m: Member, n: Member)
    requires MemberValue(m) == MemberValue(n)
    ensures m == n
  {
    var a, b := MemberValue(m).fields, MemberValue(n).fields;
    assert a["name"] == b["name"] && a["x25519_pub"] == b["x25519_pub"] && a["ed25519_pub"] == b["ed25519_pub"];
  }

  /** Everything but the members, and without includeSig but the signature. */
  function Rest(r: Roster, includeSig: bool): Roster {
    r.(members := [], sig := if includeSig then r.sig else "")
  }

  lemma FieldsTell(r: Roster, s: seq<Member>, q: Roster, t: seq<Member>, includeSig: bool)
    requires Fields(r, s, includeSig) == Fields(q, t, includeSig)
    ensures s == t && Rest(r, includeSig) == Rest(q, includeSig)
  {
    hide MemberList;
    var a, b := Fields(r, s, includeSig).fields, Fields(q, t, includeSig).fields;
    assert a["repo_id"] == b["repo_id"] && a["version"] == b["version"] && a["author_key_id"] == b["author_key_id"];
    assert a["repo_key_generation"] == b["repo_key_generation"] && a["prev_roster_hash"] == b["prev_roster_hash"];
    assert a["members"] == b["members"];
    assert includeSig ==> a["sig"] == b["sig"];
    MemberListInjective(s, t);
  }

  /** Two rosters with distinct fingerprints have the same bytes exactly when the members are the
      same up to order and every other covered field agrees. */
  lemma CanonicalExactly(r: Roster, q: Roster, includeSig: bool, sha: Sha)
    requires WellKeyed(r.members, sha) && WellKeyed(q.members, sha) && Distinct(r.members, sha)
    ensures Canonical(r, includeSig, sha) == Canonical(q, includeSig, sha)
       <==> multiset(r.members) == multiset(q.members) && Rest(r, includeSig) == Rest(q, includeSig)
  {
    hide Fingerprint, Bytes, Supported;
    var s, t := Sorted(r.members, sha), Sorted(q.members, sha);
    if Canonical(r, includeSig, sha) == Canonical(q, includeSig, sha) {
      FieldsSupported(r, s, includeSig);
      FieldsSupported(q, t, includeSig);
      Decoder.BytesInjective(Fields(r, s, includeSig), Fields(q, t, includeSig));
      FieldsTell(r, s, q, t, includeSig);
    }
    if multiset(r.members) == multiset(q.members) && Rest(r, includeSig) == Rest(q, includeSig) {
      SameElements(s, r.members);
      SortUnique(s, t, sha);
      assert Fields(r, s, includeSig) == Fields(q, t, includeSig);
    }
  }

  /** No roster bytes are manifest bytes, so no signature on one passes for the other. */
  lemma RosterIsNoManifest(r: Roster, m: ManifestWire.Manifest, s: bool, t: bool, sha: Sha)
    requires WellKeyed(r.members, sha)
    ensures Canonical(r, s, sha) != Bytes(ManifestWire.Fields(m, t))
  {
    hide Bytes, Supported, MemberList, ManifestWire.Strings, ManifestWire.StringList;
    var sorted := Sorted(r.members, sha);
    assert "members" in Fields(r, sorted, s).fields && "members" !in ManifestWire.Fields(m, t).fields;
    FieldsSupported(r, sorted, s);
    ManifestWire.FieldsSupported(m, t);
    if Canonical(r, s, sha) == Bytes(ManifestWire.Fields(m, t)) {
      Decoder.BytesInjective(Fields(r, sorted, s), ManifestWire.Fields(m, t));
    }
  }
}
