/** The client-side state and the file that keeps it. */
module LocalState {
  import opened Documents
  import opened Protocol

  /** A loaded copy of the state, changed in place until it is saved. */
  class Record {
    var version: nat
    var hash: Digest
    var imported: seq<Digest>
    var rosterPinned: bool
    var rosterVersion: nat
    var rosterHash: Digest
    var trusted: Text
    var keys: seq<Key>

    function Value(): State
      reads this
    {
      State(version, hash, imported, rosterPinned, rosterVersion, rosterHash, trusted, keys)
    }

    constructor (st: State)
      ensures Value() == st
    {
      version, hash, imported := st.version, st.hash, st.imported;
      rosterPinned, rosterVersion, rosterHash, trusted := st.rosterPinned, st.rosterVersion, st.rosterHash, st.trusted;
      keys := st.keys;
    }

    method HasKey(k: Key) returns (found: bool)
      ensures found <==> k in keys
    {
      for i := 0 to |keys|
        invariant k !in keys[..i]
      {
        if keys[i] == k {
          return true;
        }
      }
      return false;
    }

    method AddKey(k: Key)
      modifies this`keys
      ensures keys == Insert(old(keys), k)
    {
      var found := HasKey(k);
      if !found {
        keys := keys + [k];
      }
    }

    method HasPack(id: Digest) returns (found: bool)
      ensures found <==> id in imported
    {
      for i := 0 to |imported|
        invariant id !in imported[..i]
      {
        if imported[i] == id {
          return true;
        }
      }
      return false;
    }

    method AddPack(id: Digest)
      modifies this`imported
      ensures imported == Insert(old(imported), id)
    {
      var found := HasPack(id);
      if !found {
        imported := imported + [id];
      }
    }

    method Pin(v: nat, text: Text)
      modifies this
      ensures Value() == PinRoster(old(Value()), v, text)
    {
      rosterPinned, rosterVersion, rosterHash, trusted := true, v, Sha(text), text;
    }
  }

  /** The state file; a missing file reads as the empty state. */
  class File {
    var saved: State

    constructor ()
      ensures saved == EMPTY_STATE
    {
      saved := EMPTY_STATE;
    }

    method Load() returns (st: Record)
      ensures fresh(st) && st.Value() == saved
    {
      st := new Record(saved);
    }

    method Save(st: Record)
      modifies this
      ensures saved == st.Value()
    {
      saved := st.Value();
    }
  }
}
