/**
  One extent as the extent server stores it and as an extent client caches it.
 */
module Extents {
  import opened Option

  /** `file_inode`: contents and the size attribute kept beside them. */
  datatype Inode = Inode(buf: string, size: nat)

  /** `cached_extent_info`. */
  datatype Entry = Entry(buf: string, size: nat, dirty: bool)

  /** extent_server::put. */
  function Stored(buf: string): Inode {
    Inode(buf, |buf|)
  }

  /** What a miss brings into the cache; an absent extent reads as empty. */
  function Fetched(srv: Option<Inode>): Entry {
    match srv
    case Some(n) => Entry(n.buf, n.size, false)
    case None => Entry("", 0, false)
  }

  /** The entry that get, getattr and put find or make. */
  function Lookup(cached: Option<Entry>, srv: Option<Inode>): Entry {
    if cached.Some? then cached.value else Fetched(srv)
  }

  /** put marks the entry dirty and updates its size. */
  function Written(buf: string): Entry {
    Entry(buf, |buf|, true)
  }

  /** flush writes a dirty entry back; the entry is dropped either way. */
  function Flushed(cached: Option<Entry>, srv: Option<Inode>): Option<Inode> {
    if cached.Some? && cached.value.dirty then Some(Stored(cached.value.buf)) else srv
  }
}
