/** A java.util.Map object that the pagination code changes in place: its
    entries in iteration order, and whether it is a LinkedHashMap. */
module JavaMaps {
  import opened Values

  class MapObject {
    var linked: bool
    var entries: Entries

    /** new LinkedHashMap<>(m) / new HashMap<>(m): a fresh map with the
        entries of m (new entries are appended in either case). */
    constructor (linked: bool, entries: Entries)
      ensures this.linked == linked && this.entries == entries
    {
      this.linked := linked;
      this.entries := entries;
    }

    /** Map.get */
    function Get(k: string): Value
      reads this
    {
      Values.Get(entries, k)
    }

    /** Map.put */
    method Put(k: string, v: Value)
      modifies this
      ensures entries == Values.Put(old(entries), k, v) && linked == old(linked)
    {
      entries := Values.Put(entries, k, v);
    }

    /** Map.remove: the entry disappears and its value (or null) is returned. */
    method Remove(k: string) returns (previous: Value)
      modifies this
      ensures previous == Values.Get(old(entries), k)
      ensures entries == Values.Remove(old(entries), k) && linked == old(linked)
    {
      previous := Values.Get(entries, k);
      entries := Values.Remove(entries, k);
    }
  }
}
