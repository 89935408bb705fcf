/** The canonical bytes of manifests and rosters in full: every member by its name, in order. */
module WireText {
  import opened Wrappers
  import opened Utf
  import opened Jcs
  import opened JcsForm
  import M = ManifestWire
  import R = RosterWire

  /** An object written out: its members in the given order, each with its text. */
  function Object(members: seq<(string, string)>): string {
    "{" + Members(members, 0) + "}"
  }

  function Members(members: seq<(string, string)>, i: nat): string
    requires i <= |members|
    decreases |members| - i
  {
    if i == |members| then ""
    else (if i > 0 then "," else "") + "\"" + members[i].0 + "\":" + members[i].1 + Members(members, i + 1)
  }

  // ---- order ----

  /** Two names that first differ at n, in characters up to U+FFFF. */
  lemma Differ(a: string, b: string, n: nat)
    requires n < |a| && n < |b| && a[..n] == b[..n] && a[n] < b[n] && b[n] as int < 0xD800
    ensures Less(a, b)
  {
    LessExactly(a, b);
    assert FirstDifference(a, b, n);
  }

  /** Neighbours in order are enough. */
  lemma {:induction false} Chain(keys: seq<string>)
    requires forall i | 0 < i < |keys| :: Less(keys[i - 1], keys[i])
    ensures Increasing(keys)
  {
    hide Less;
    forall i, j | 0 <= i < j < |keys|
      ensures Less(keys[i], keys[j])
    {
      ChainTo(keys, i, j);
    }
  }

  lemma {:induction false} ChainTo(keys: seq<string>, i: nat, j: nat)
    requires forall i | 0 < i < |keys| :: Less(keys[i - 1], keys[i])
    requires i < j < |keys|
    ensures Less(keys[i], keys[j])
    decreases j
  {
    hide Less;
    if i < j - 1 {
      ChainTo(keys, i, j - 1);
      LessIsStrictTotalOrder(keys[i], keys[j - 1], keys[j]);
    }
  }

  lemma Ordered(keys: seq<string>, all: set<string>)
    requires forall i | 0 < i < |keys| :: Less(keys[i - 1], keys[i])
    requires forall k :: k in keys <==> k in all
    ensures KeysOf(all) == keys
  {
    hide Less;
    Chain(keys);
    assert Elements(keys) == all;
    IncreasingUnique(keys, KeysOf(all));
  }

  // ---- an object by its members ----

  /** Names of letters, digits and underscores need no escapes. */
  lemma {:induction false} Plain(name: string)
    requires forall i | 0 <= i < |name| :: 0x20 <= name[i] as int && name[i] != '"' && name[i] != '\\'
    ensures Escaped(name) == name
  {
    if name != "" {
      Plain(name[1..]);
      assert name == [name[0]] + name[1..];
    } else {
      assert name == "";
    }
  }

  /** The members are those of v, in increasing order, each name plain and each text that of its value. */
  ghost predicate Lists(v: Value, members: seq<(string, string)>) {
    && v.Obj? && (forall k :: k in v.fields <==> exists i :: 0 <= i < |members| && members[i].0 == k)
    && (forall i | 0 < i < |members| :: Less(members[i - 1].0, members[i].0))
    && forall i | 0 <= i < |members| ::
         members[i].0 in v.fields && Escaped(members[i].0) == members[i].0
           && members[i].1 == Text(v.fields[members[i].0])
  }

  ghost function Names(members: seq<(string, string)>): (names: seq<string>)
    ensures |names| == |members| && forall i | 0 <= i < |members| :: names[i] == members[i].0
  {
    seq(|members|, i requires 0 <= i < |members| => members[i].0)
  }

  lemma ObjectText(v: Value, members: seq<(string, string)>)
    requires Lists(v, members)
    ensures Text(v) == Object(members)
  {
    hide Less, Escaped, Members;
    var names := Names(members);
    assert forall k :: k in names <==> k in v.fields.Keys;
    Ordered(names, v.fields.Keys);
    MembersText(v, names, members, 0);
  }

  lemma {:induction false} MembersText(v: Value, names: seq<string>, members: seq<(string, string)>, i: nat)
    requires Lists(v, members) && names == Names(members) && i <= |members|
    requires forall k | k in names :: k in v.fields
    ensures FieldsText(v, names, i) == Members(members, i)
    decreases |members| - i
  {
    hide Less, Escaped, Text;
    if i < |members| {
      MembersText(v, names, members, i + 1);
      assert Quoted(names[i]) == "\"" + members[i].0 + "\"";
      Regroup(Comma(i), members[i].0, members[i].1, Members(members, i + 1));
    }
  }

  lemma Regroup(comma: string, name: string, value: string, rest: string)
    ensures comma + ("\"" + name + "\"") + ":" + value + rest == comma + "\"" + name + "\":" + value + rest
  {
    assert comma + ("\"" + name + "\"") + ":" == comma + "\"" + name + "\":";
  }

  // ---- manifests ----

  function Pointer(p: Option<string>): string {
    if p.None? then "null" else Quoted(p.value)
  }

  /** What is signed. */
  ghost function SignedMembers(m: M.Manifest): seq<(string, string)> {
    var n := m.Normal();
    [("packs", Text(M.StringList(n.packs.value))),
     ("prev_manifest_hash", Pointer(m.prev)),
     ("pusher_key_id", Quoted(m.pusher)),
     ("refs", Text(M.Strings(n.refs.value))),
     ("repo_id", Quoted(m.repoId)),
     ("roster_hash", Quoted(m.rosterHash)),
     ("version", Decimal(m.version))]
  }

  /** What is encrypted and hashed: the signature comes before the version. */
  ghost function AllMembers(m: M.Manifest): seq<(string, string)> {
    var n := m.Normal();
    [("packs", Text(M.StringList(n.packs.value))),
     ("prev_manifest_hash", Pointer(m.prev)),
     ("pusher_key_id", Quoted(m.pusher)),
     ("refs", Text(M.Strings(n.refs.value))),
     ("repo_id", Quoted(m.repoId)),
     ("roster_hash", Quoted(m.rosterHash)),
     ("sig", Quoted(m.sig)),
     ("version", Decimal(m.version))]
  }

  lemma ManifestNames()
    ensures Less("packs", "prev_manifest_hash") && Less("prev_manifest_hash", "pusher_key_id")
    ensures Less("pusher_key_id", "refs") && Less("refs", "repo_id") && Less("repo_id", "roster_hash")
    ensures Less("roster_hash", "sig") && Less("sig", "version") && Less("roster_hash", "version")
  {
    hide Less;
    Differ("packs", "prev_manifest_hash", 1);
    Differ("prev_manifest_hash", "pusher_key_id", 1);
    Differ("pusher_key_id", "refs", 0);
    Differ("refs", "repo_id", 2);
    Differ("repo_id", "roster_hash", 1);
    Differ("roster_hash", "sig", 0);
    Differ("sig", "version", 0);
    Differ("roster_hash", "version", 0);
  }

  lemma ManifestNamesPlain()
    ensures Escaped("packs") == "packs" && Escaped("prev_manifest_hash") == "prev_manifest_hash"
    ensures Escaped("pusher_key_id") == "pusher_key_id" && Escaped("refs") == "refs"
    ensures Escaped("repo_id") == "repo_id" && Escaped("roster_hash") == "roster_hash"
    ensures Escaped("sig") == "sig" && Escaped("version") == "version"
  {
    hide Escaped;
    Plain("packs");
    Plain("prev_manifest_hash");
    Plain("pusher_key_id");
    Plain("refs");
    Plain("repo_id");
    Plain("roster_hash");
    Plain("sig");
    Plain("version");
  }

  lemma SignedLists(m: M.Manifest)
    ensures Lists(M.Fields(m, false), SignedMembers(m))
  {
    hide Less, Escaped, M.Strings, M.StringList, Quoted, Decimal;
    ManifestNames();
    ManifestNamesPlain();
    var f, ms := M.Fields(m, false).fields, SignedMembers(m);
    assert f.Keys == {"packs", "prev_manifest_hash", "pusher_key_id", "refs", "repo_id", "roster_hash", "version"};
    forall k | k in f
      ensures exists i :: 0 <= i < |ms| && ms[i].0 == k
    {
      assert ms[0].0 == k || ms[1].0 == k || ms[2].0 == k || ms[3].0 == k || ms[4].0 == k || ms[5].0 == k
        || ms[6].0 == k;
    }
  }

  lemma AllLists(m: M.Manifest)
    ensures Lists(M.Fields(m, true), AllMembers(m))
  {
    hide Less, Escaped, M.Strings, M.StringList, Quoted, Decimal;
    ManifestNames();
    ManifestNamesPlain();
    var f, ms := M.Fields(m, true).fields, AllMembers(m);
    assert f.Keys
      == {"packs", "prev_manifest_hash", "pusher_key_id", "refs", "repo_id", "roster_hash", "sig", "version"};
    forall k | k in f
      ensures exists i :: 0 <= i < |ms| && ms[i].0 == k
    {
      assert ms[0].0 == k || ms[1].0 == k || ms[2].0 == k || ms[3].0 == k || ms[4].0 == k || ms[5].0 == k
             || ms[6].0 == k || ms[7].0 == k;
    }
  }

  /** The bytes of a manifest, member by member. */
  lemma ManifestText(m: M.Manifest)
    ensures M.Signed(m) == Utf8(Object(SignedMembers(m)))
    ensures M.Canonical(m) == Utf8(Object(AllMembers(m)))
  {
    hide Lists, M.Fields, Object, SignedMembers, AllMembers;
    SignedLists(m);
    AllLists(m);
    ObjectText(M.Fields(m, false), SignedMembers(m));
    ObjectText(M.Fields(m, true), AllMembers(m));
  }

  // ---- rosters ----

  ghost function MemberText(m: R.Member): string {
    Object([("ed25519_pub", Quoted(m.ed25519)), ("name", Quoted(m.name)), ("x25519_pub", Quoted(m.x25519))])
  }

  ghost function RosterMembers(r: R.Roster, sorted: seq<R.Member>): seq<(string, string)> {
    [("author_key_id", Quoted(r.author)),
     ("members", Text(R.MemberList(sorted))),
     ("prev_roster_hash", Pointer(r.prev)),
     ("repo_id", Quoted(r.repoId)),
     ("repo_key_generation", Decimal(r.gen)),
     ("version", Decimal(r.version))]
  }

  ghost function AllRosterMembers(r: R.Roster, sorted: seq<R.Member>): seq<(string, string)> {
    [("author_key_id", Quoted(r.author)),
     ("members", Text(R.MemberList(sorted))),
     ("prev_roster_hash", Pointer(r.prev)),
     ("repo_id", Quoted(r.repoId)),
     ("repo_key_generation", Decimal(r.gen)),
     ("sig", Quoted(r.sig)),
     ("version", Decimal(r.version))]
  }

  lemma RosterNames()
    ensures Less("author_key_id", "members") && Less("members", "prev_roster_hash")
      && Less("prev_roster_hash", "repo_id")
    ensures Less("repo_id", "repo_key_generation") && Less("repo_key_generation", "version")
    ensures Less("repo_key_generation", "sig") && Less("sig", "version")
    ensures Less("ed25519_pub", "name") && Less("name", "x25519_pub")
  {
    hide Less;
    Differ("author_key_id", "members", 0);
    Differ("members", "prev_roster_hash", 0);
    Differ("prev_roster_hash", "repo_id", 0);
    Differ("repo_id", "repo_key_generation", 5);
    Differ("repo_key_generation", "version", 0);
    Differ("repo_key_generation", "sig", 0);
    Differ("sig", "version", 0);
    Differ("ed25519_pub", "name", 0);
    Differ("name", "x25519_pub", 0);
  }

  lemma RosterNamesPlain()
    ensures Escaped("author_key_id") == "author_key_id" && Escaped("members") == "members"
    ensures Escaped("prev_roster_hash") == "prev_roster_hash" && Escaped("repo_id") == "repo_id"
    ensures Escaped("repo_key_generation") == "repo_key_generation" && Escaped("version") == "version"
    ensures Escaped("sig") == "sig" && Escaped("name") == "name"
    ensures Escaped("ed25519_pub") == "ed25519_pub" && Escaped("x25519_pub") == "x25519_pub"
  {
    hide Escaped;
    Plain("author_key_id");
    Plain("members");
    Plain("prev_roster_hash");
    Plain("repo_id");
    Plain("repo_key_generation");
    Plain("version");
    Plain("sig");
    Plain("name");
    Plain("ed25519_pub");
    Plain("x25519_pub");
  }

  lemma MemberLists(m: R.Member)
    ensures Text(R.MemberValue(m)) == MemberText(m)
  {
    hide Less, Escaped, Quoted, Object;
    RosterNames();
    RosterNamesPlain();
    var ms := [("ed25519_pub", Quoted(m.ed25519)), ("name", Quoted(m.name)), ("x25519_pub", Quoted(m.x25519))];
    var f := R.MemberValue(m).fields;
    assert f.Keys == {"ed25519_pub", "name", "x25519_pub"};
    forall k | k in f
      ensures exists i :: 0 <= i < |ms| && ms[i].0 == k
    {
      assert ms[0].0 == k || ms[1].0 == k || ms[2].0 == k;
    }
    ObjectText(R.MemberValue(m), ms);
  }

  lemma RosterLists(r: R.Roster, sorted: seq<R.Member>)
    ensures Lists(R.Fields(r, sorted, false), RosterMembers(r, sorted))
  {
    hide Less, Escaped, R.MemberList, Quoted, Decimal;
    RosterNames();
    RosterNamesPlain();
    var f, ms := R.Fields(r, sorted, false).fields, RosterMembers(r, sorted);
    assert f.Keys == {"author_key_id", "members", "prev_roster_hash", "repo_id", "repo_key_generation", "version"};
    forall k | k in f
      ensures exists i :: 0 <= i < |ms| && ms[i].0 == k
    {
      assert ms[0].0 == k || ms[1].0 == k || ms[2].0 == k || ms[3].0 == k || ms[4].0 == k || ms[5].0 == k;
    }
  }

  lemma AllRosterLists(r: R.Roster, sorted: seq<R.Member>)
    ensures Lists(R.Fields(r, sorted, true), AllRosterMembers(r, sorted))
  {
    hide Less, Escaped, R.MemberList, Quoted, Decimal;
    RosterNames();
    RosterNamesPlain();
    var f, ms := R.Fields(r, sorted, true).fields, AllRosterMembers(r, sorted);
    assert f.Keys
      == {"author_key_id", "members", "prev_roster_hash", "repo_id", "repo_key_generation", "sig", "version"};
    forall k | k in f
      ensures exists i :: 0 <= i < |ms| && ms[i].0 == k
    {
      assert ms[0].0 == k || ms[1].0 == k || ms[2].0 == k || ms[3].0 == k || ms[4].0 == k || ms[5].0 == k
             || ms[6].0 == k;
    }
  }

  /** The bytes of a roster, member by member; a listed member is an object of three names. */
  lemma RosterText(r: R.Roster, sha: R.Sha)
    requires R.WellKeyed(r.members, sha)
    ensures R.Canonical(r, false, sha) == Utf8(Object(RosterMembers(r, R.Sorted(r.members, sha))))
    ensures R.Canonical(r, true, sha) == Utf8(Object(AllRosterMembers(r, R.Sorted(r.members, sha))))
    ensures forall m | m in r.members :: Text(R.MemberValue(m)) == MemberText(m)
  {
    hide Lists, R.Fields, Object, RosterMembers, AllRosterMembers, MemberText, R.WellKeyed, R.MemberValue;
    var sorted := R.Sorted(r.members, sha);
    RosterLists(r, sorted);
    AllRosterLists(r, sorted);
    ObjectText(R.Fields(r, sorted, false), RosterMembers(r, sorted));
    ObjectText(R.Fields(r, sorted, true), AllRosterMembers(r, sorted));
    forall m | m in r.members
      ensures Text(R.MemberValue(m)) == MemberText(m)
    {
      MemberLists(m);
    }
  }
}
