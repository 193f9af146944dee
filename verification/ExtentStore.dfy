/**
  The extent server's map and the write-back cache of one extent client, as objects.
 */
module ExtentStore {
  import opened Option
  import opened Extents

  type Id = nat

  datatype Status = OK | IOERR

  const ROOTDIR: Id := 1

  /** `extent_server`. */
  class ExtentServer {
    var extents: map<Id, Inode>

    /** The size attribute is the length of the contents. */
    ghost predicate Valid()
      reads this
    {
      forall id :: id in extents ==> extents[id].size == |extents[id].buf|
    }

    constructor ()
      ensures Valid() && extents == map[ROOTDIR := Stored("")]
    {
      extents := map[ROOTDIR := Inode("", 0)];
    }

    method Put(id: Id, buf: string)
      requires Valid()
      modifies this
      ensures Valid() && extents == old(extents)[id := Stored(buf)]
    {
      if id !in extents {
        var file := Inode(buf, |buf|);
        extents := extents[id := file];
      } else {
        extents := extents[id := extents[id].(buf := buf)];
        extents := extents[id := extents[id].(size := |buf|)];
      }
    }

    method Get(id: Id) returns (st: Status, buf: Option<string>)
      ensures st == OK <==> id in extents
      ensures buf == if id in extents then Some(extents[id].buf) else None
    {
      if id !in extents { return IOERR, None; }
      return OK, Some(extents[id].buf);
    }

    method GetAttr(id: Id) returns (st: Status, size: nat)
      requires Valid()
      ensures st == OK <==> id in extents
      ensures size == if id in extents then |extents[id].buf| else 0
    {
      if id !in extents { return IOERR, 0; }
      return OK, extents[id].size;
    }

    method Remove(id: Id) returns (st: Status)
      requires Valid()
      modifies this
      ensures Valid() && extents == old(extents) - {id} && (st == OK <==> id in old(extents))
    {
      if id !in extents { return IOERR; }
      extents := extents - {id};
      st := OK;
    }
  }

  /** What the server holds for an id. */
  function ServerCopy(m: map<Id, Inode>, id: Id): Option<Inode> {
    if id in m then Some(m[id]) else None
  }

  function CachedCopy(m: map<Id, Entry>, id: Id): Option<Entry> {
    if id in m then Some(m[id]) else None
  }

  /** What reads of this client see. */
  function Seen(cache: map<Id, Entry>, extents: map<Id, Inode>): map<Id, string> {
    map id | id in cache.Keys + extents.Keys :: Lookup(CachedCopy(cache, id), ServerCopy(extents, id)).buf
  }

  lemma SeenAt(cache: map<Id, Entry>, extents: map<Id, Inode>, id: Id)
    ensures id in Seen(cache, extents) <==> id in cache || id in extents
    ensures id in cache ==> Seen(cache, extents)[id] == cache[id].buf
    ensures id !in cache && id in extents ==> Seen(cache, extents)[id] == extents[id].buf
  {
  }

  /** Caching an entry shows its contents. */
  lemma SeenCached(cache: map<Id, Entry>, extents: map<Id, Inode>, id: Id, e: Entry)
    ensures Seen(cache[id := e], extents) == Seen(cache, extents)[id := e.buf]
  {
    hide Seen;
    forall k: Id
      ensures k in Seen(cache[id := e], extents) <==> k in Seen(cache, extents) || k == id
      ensures k in Seen(cache[id := e], extents) ==>
                Seen(cache[id := e], extents)[k] == if k == id then e.buf else Seen(cache, extents)[k]
    {
      SeenAt(cache, extents, k);
      SeenAt(cache[id := e], extents, k);
    }
  }

  /** Dropping an entry shows the server's copy. */
  lemma SeenDropped(cache: map<Id, Entry>, extents: map<Id, Inode>, extents': map<Id, Inode>, id: Id)
    requires forall k :: k != id ==> ServerCopy(extents, k) == ServerCopy(extents', k)
    ensures Seen(cache - {id}, extents') ==
              if id in extents' then Seen(cache, extents)[id := extents'[id].buf] else Seen(cache, extents) - {id}
  {
    hide Seen;
    var c := cache - {id};
    forall k: Id
      ensures k in Seen(c, extents') <==> if k == id then id in extents' else k in Seen(cache, extents)
      ensures k in Seen(c, extents') ==>
                Seen(c, extents')[k] == if k == id then extents'[id].buf else Seen(cache, extents)[k]
    {
      SeenAt(cache, extents, k);
      SeenAt(c, extents', k);
      assert k != id ==> ServerCopy(extents, k) == ServerCopy(extents', k);
    }
  }

  /** An entry has its own size; one that is clean is what the server has, or empty if it has none. */
  ghost predicate EntryOk(e: Entry, srv: Option<Inode>) {
    e.size == |e.buf| && (!e.dirty ==> e.buf == Fetched(srv).buf)
  }

  /** `extent_client`, used by a thread that holds the lock of the extent. */
  class ExtentClient {
    const server: ExtentServer
    var cache: map<Id, Entry>

    ghost predicate Valid()
      reads this, server
    {
      server.Valid() && forall id :: id in cache ==> EntryOk(cache[id], ServerCopy(server.extents, id))
    }

    ghost function View(): map<Id, string>
      reads this, server
    {
      Seen(cache, server.extents)
    }

    constructor (server: ExtentServer)
      requires server.Valid()
      ensures Valid() && this.server == server && cache == map[]
      ensures View().Keys == server.extents.Keys && forall id :: id in View() ==> View()[id] == server.extents[id].buf
    {
      this.server := server;
      cache := map[];
    }

    /** Brings a missing extent into the cache; an absent one is cached as empty. */
    method Load(id: Id) returns (st: Status)
      requires Valid()
      modifies this
      ensures Valid() && id in cache && (st == OK <==> id in old(View()))
      ensures cache == old(cache)[id := Lookup(CachedCopy(old(cache), id), ServerCopy(server.extents, id))]
      ensures View() == if st == OK then old(View()) else old(View())[id := ""]
    {
      hide Seen;
      st := OK;
      SeenAt(cache, server.extents, id);
      if id !in cache {
        var buf, size;
        st, buf := server.Get(id);
        st, size := server.GetAttr(id);
        var e := Entry(if buf.Some? then buf.value else "", size, false);
        SeenCached(cache, server.extents, id, e);
        cache := cache[id := e];
      }
    }

    method Get(id: Id) returns (st: Status, buf: string)
      requires Valid()
      modifies this
      ensures Valid() && (st == OK <==> id in old(View()))
      ensures View() == if st == OK then old(View()) else old(View())[id := ""]
      ensures buf == View()[id] && cache.Keys == old(cache.Keys) + {id}
    {
      hide Seen;
      st := Load(id);
      buf := cache[id].buf;
      SeenAt(cache, server.extents, id);
    }

    method GetAttr(id: Id) returns (st: Status, size: nat)
      requires Valid()
      modifies this
      ensures Valid() && (st == OK <==> id in old(View()))
      ensures View() == if st == OK then old(View()) else old(View())[id := ""]
      ensures size == |View()[id]| && cache.Keys == old(cache.Keys) + {id}
    {
      hide Seen;
      st := Load(id);
      size := cache[id].size;
      SeenAt(cache, server.extents, id);
    }

    method Put(id: Id, buf: string) returns (st: Status)
      requires Valid()
      modifies this
      ensures Valid() && View() == old(View())[id := buf] && (st == OK <==> id in old(View()))
      ensures id in cache && cache[id].dirty && cache.Keys == old(cache.Keys) + {id}
    {
      hide Seen;
      st := Load(id);
      var e := cache[id];
      e := e.(dirty := true);
      e := e.(buf := buf);
      e := e.(size := |buf|);
      SeenCached(cache, server.extents, id, e);
      cache := cache[id := e];
    }

    /** A cached extent goes; one that is not cached stays where it is. */
    method Remove(id: Id) returns (st: Status)
      requires Valid()
      modifies this, server
      ensures Valid() && cache == old(cache) - {id}
      ensures st == OK <==> id !in old(cache) || id in old(server.extents)
      ensures View() == if id in old(cache) then old(View()) - {id} else old(View())
    {
      hide Seen;
      st := OK;
      if id !in cache { return OK; }
      cache := cache - {id};
      st := server.Remove(id);
      SeenDropped(old(cache), old(server.extents), server.extents, id);
    }

    /** Nothing seen changes, save that an absent extent no longer reads as empty. */
    method Flush(id: Id)
      requires Valid()
      modifies this, server
      ensures Valid() && cache == old(cache) - {id}
      ensures ServerCopy(server.extents, id) == Flushed(CachedCopy(old(cache), id), ServerCopy(old(server.extents), id))
      ensures View() == if id in server.extents || id !in old(cache) then old(View()) else old(View()) - {id}
    {
      hide Seen;
      if id !in cache { return; }
      var e := cache[id];
      SeenAt(cache, server.extents, id);
      if e.dirty { server.Put(id, e.buf); }
      cache := cache - {id};
      SeenDropped(old(cache), old(server.extents), server.extents, id);
    }
  }
}
