// Config entries of all kinds, and the index of entries by name
// (internal/consul/config_entries.go).

module ConfigEntries {
  import opened ConsulEntries
  import opened Gateways

  datatype Kind = RouterKind | SplitterKind | DefaultsKind | IngressKind

  datatype ConfigEntry =
    | RouterEntry(router: ServiceRouter)
    | SplitterEntry(splitter: ServiceSplitter)
    | DefaultsEntry(defaults: ServiceDefaults)
    | IngressEntry(ingress: IngressGateway)
  {
    function Kind(): Kind {
      match this
      case RouterEntry(_) => RouterKind
      case SplitterEntry(_) => SplitterKind
      case DefaultsEntry(_) => DefaultsKind
      case IngressEntry(_) => IngressKind
    }
    function Name(): string {
      match this
      case RouterEntry(r) => r.name
      case SplitterEntry(s) => s.name
      case DefaultsEntry(d) => d.name
      case IngressEntry(i) => i.name
    }
  }

  type Index = map<string, ConfigEntry>

  /** Every entry is of the given kind and stands under its own name. */
  predicate Indexed(idx: Index, kind: Kind) {
    forall n | n in idx :: idx[n].Kind() == kind && idx[n].Name() == n
  }

  /** The entries of b that a does not name, and those it names. */
  function Missing(a: Index, b: Index): Index { map n | n in b && n !in a :: b[n] }
  function Common(a: Index, b: Index): Index { map n | n in b && n in a :: b[n] }

  class ConfigEntryIndex {
    const kind: Kind
    var idx: Index

    ghost predicate Valid()
      reads this
    {
      Indexed(idx, kind)
    }

    constructor (kind: Kind)
      ensures this.kind == kind && idx == map[] && Valid()
    {
      this.kind, idx := kind, map[];
    }

    /** Entries of another kind are ignored. */
    method Add(entry: ConfigEntry)
      requires Valid()
      modifies this
      ensures Valid()
      ensures idx == if entry.Kind() == kind then old(idx)[entry.Name() := entry] else old(idx)
    {
      if entry.Kind() != kind {
        return;
      }
      idx := idx[entry.Name() := entry];
    }

    method Merge(other: ConfigEntryIndex?)
      requires Valid() && (other != null ==> other.Valid())
      modifies this
      ensures Valid()
      ensures idx == if other != null && other.kind == kind then old(idx) + old(other.idx) else old(idx)
    {
      if other == null || kind != other.kind {
        return;
      }
      ghost var before := idx;
      var from := other.idx;
      var rest := from.Keys;
      while rest != {}
        invariant rest <= from.Keys
        invariant idx == before + (from - rest)
        decreases rest
      {
        var n :| n in rest;
        idx := idx[n := from[n]];
        rest := rest - {n};
      }
      assert from - {} == from;
    }

    method Filter(other: ConfigEntryIndex, keep: bool) returns (result: ConfigEntryIndex)
      requires other.Valid() && other.kind == kind
      ensures fresh(result) && result.kind == kind && result.Valid()
      ensures result.idx == if keep then Common(idx, other.idx) else Missing(idx, other.idx)
    {
      result := new ConfigEntryIndex(kind);
      var rest := other.idx.Keys;
      while rest != {}
        invariant fresh(result) && result.Valid() && result.kind == kind
        invariant rest <= other.idx.Keys
        invariant result.idx == (if keep then Common(idx, other.idx) else Missing(idx, other.idx)) - rest
        decreases rest
      {
        var n :| n in rest;
        rest := rest - {n};
        if (n in idx) == keep {
          result.Add(other.idx[n]);
        }
      }
    }

    /** The entries of other that are not found in this index. */
    method Difference(other: ConfigEntryIndex) returns (result: ConfigEntryIndex)
      requires other.Valid() && other.kind == kind
      ensures fresh(result) && result.kind == kind && result.Valid()
      ensures result.idx == Missing(idx, other.idx)
    {
      result := Filter(other, false);
    }

    method Intersection(other: ConfigEntryIndex) returns (result: ConfigEntryIndex)
      requires other.Valid() && other.kind == kind
      ensures fresh(result) && result.kind == kind && result.Valid()
      ensures result.idx == Common(idx, other.idx)
    {
      result := Filter(other, true);
    }

    method ToArray() returns (entries: seq<ConfigEntry>)
      ensures Enumerates(entries, idx)
    {
      entries := MapValues(idx);
    }
  }
}
