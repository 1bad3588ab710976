// Sets of service names (internal/common/service_names.go).

module ServiceNames {
  datatype ServiceName = ServiceName(name: string, namespace: string)

  /** s lists the elements of names, each once, in some order. */
  ghost predicate ListsSet(s: seq<ServiceName>, names: set<ServiceName>) {
    && (forall i | 0 <= i < |s| :: s[i] in names)
    && (forall n | n in names :: n in s)
    && (forall i, j | 0 <= i < j < |s| :: s[i] != s[j])
  }

  class ServiceNameIndex {
    var idx: set<ServiceName>

    constructor ()
      ensures idx == {}
    {
      idx := {};
    }

    method Exists(name: ServiceName) returns (found: bool)
      ensures found <==> name in idx
    {
      found := name in idx;
    }

    method Add(names: seq<ServiceName>)
      modifies this
      ensures idx == old(idx) + (set n | n in names)
    {
      for i := 0 to |names|
        invariant idx == old(idx) + (set n | n in names[..i])
      {
        idx := idx + {names[i]};
      }
      assert names[..|names|] == names;
    }

    method Remove(names: seq<ServiceName>)
      modifies this
      ensures idx == old(idx) - (set n | n in names)
    {
      for i := 0 to |names|
        invariant idx == old(idx) - (set n | n in names[..i])
      {
        idx := idx - {names[i]};
      }
      assert names[..|names|] == names;
    }

    /** What other has and this has not, and the converse. */
    method Diff(other: ServiceNameIndex) returns (added: seq<ServiceName>, removed: seq<ServiceName>)
      ensures ListsSet(added, other.idx - idx) && ListsSet(removed, idx - other.idx)
    {
      added := ListMissing(other.idx, idx);
      removed := ListMissing(idx, other.idx);
    }

    method All() returns (result: seq<ServiceName>)
      ensures ListsSet(result, idx)
    {
      result := ListMissing(idx, {});
      assert idx - {} == idx;
    }
  }

  /** Visits names in an arbitrary order and lists those not in known. */
  method ListMissing(names: set<ServiceName>, known: set<ServiceName>) returns (result: seq<ServiceName>)
    ensures ListsSet(result, names - known)
  {
    result := [];
    var rest := names;
    while rest != {}
      invariant rest <= names
      invariant ListsSet(result, (names - rest) - known)
      decreases rest
    {
      var n :| n in rest;
      rest := rest - {n};
      if n !in known {
        assert n !in result;
        result := result + [n];
      }
    }
    assert names - {} == names;
  }
}
