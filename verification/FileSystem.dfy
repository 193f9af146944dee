/**
  The file system operations of `yfs_client`, on the extents its extent client sees.
 */
module FileSystem {
  import opened Directories
  import opened DirectoryMaps
  import F = FileContents
  import E = ExtentStore

  /** Entry k is the first file of that name. */
  ghost predicate FirstFile(l: seq<Dirent>, name: string, k: int) {
    && 0 <= k < |l| && l[k].name == name && IsFile(l[k].inum)
    && forall i :: 0 <= i < k ==> !(l[i].name == name && IsFile(l[i].inum))
  }

  /** `yfs_client`; each operation runs while the locks of the extents it touches are held. */
  class YfsClient {
    const ec: E.ExtentClient

    constructor (ec: E.ExtentClient)
      ensures this.ec == ec
    {
      this.ec := ec;
    }

    ghost predicate Valid()
      reads ec, ec.server
    {
      ec.Valid()
    }

    /** The contents of every extent. */
    ghost function View(): map<nat, string>
      reads ec, ec.server
    {
      ec.View()
    }

    /** createFile and createDirectory; a missing parent is left cached as empty. */
    method Create(parent: Inum, name: string, file: bool, rnd: nat) returns (st: Status, inum: Inum)
      requires Valid() && rnd < 0x8000_0000
      modifies ec
      ensures Valid()
      ensures parent !in old(View()) ==> st == NOENT && View() == old(View())[parent := ""]
      ensures parent in old(View()) && Parse(old(View())[parent]).None? ==> st == Undefined
      ensures st == OK ==> inum % 0x8000_0000 == rnd && inum / 0x8000_0000 == if file then 1 else 0
      ensures parent in old(View()) && Parse(old(View())[parent]).Some? ==>
                var was := old(View())[parent];
                var l := Parse(was).value;
                && (st == EEXIST <==> exists i :: 0 <= i < |l| && l[i].name == name && IsFile(l[i].inum) == file)
                && (st == OK <==> forall i :: 0 <= i < |l| ==> !(l[i].name == name && IsFile(l[i].inum) == file))
                && (st == OK ==> View() == old(View())[inum := ""][parent := was + (if l == [] then "" else "/") + Element(Dirent(name, inum))])
      ensures parent in old(View()) && Parse(old(View())[parent]).Some? ==>
                var (buf, s) := TextStep(old(View())[parent], Op.Create(name, file, rnd));
                && st == s
                && (st == OK ==> inum == NewInum(file, rnd) && View() == old(View())[inum := ""][parent := buf])
                && (st != OK ==> View() == old(View()))
    {
      hide Parse, Element, E.Seen;
      inum := 0;
      var got, parentBuf := ec.Get(parent);
      if got != E.OK { return NOENT, 0; }
      var contents := ParseBuf(parentBuf);
      if contents.None? { return Undefined, 0; }
      var l := contents.value;
      for i := 0 to |l|
        invariant forall j :: 0 <= j < i ==> !Is(l[j], name, file)
      {
        if l[i].name == name && IsFile(l[i].inum) == file { return EEXIST, 0; }
      }
      assert parentBuf + "" == parentBuf;
      if |l| != 0 { parentBuf := parentBuf + [ELEMENT_SEPARATOR]; }
      inum := NewInum(file, rnd);
      parentBuf := parentBuf + Element(Dirent(name, inum));
      var _ := ec.Put(inum, "");
      var _ := ec.Put(parent, parentBuf);
      st := OK;
    }

    /** The extent of the file goes too if this client has it cached. */
    method UnlinkFile(parent: Inum, name: string) returns (st: Status)
      requires Valid()
      modifies ec, ec.server
      ensures Valid()
      ensures parent !in old(View()) ==> st == NOENT && View() == old(View())[parent := ""]
      ensures parent in old(View()) && Parse(old(View())[parent]).None? ==> st == Undefined
      ensures parent in old(View()) && Parse(old(View())[parent]).Some? ==>
                var (buf, s) := TextStep(old(View())[parent], Unlink(name));
                var l := Parse(old(View())[parent]).value;
                && st == s
                && (st == NOENT <==> forall i :: 0 <= i < |l| ==> !(l[i].name == name && IsFile(l[i].inum)))
                && (st == OK ==> exists k :: FirstFile(l, name, k) && buf == Write(l[..k] + l[k + 1..]))
                && (st == OK <==> st != NOENT)
                && (st == OK ==>
                    var m, inum := old(View())[parent := buf], l[Find(l, name, true)].inum;
                    View() == if inum in old(ec.cache) || inum == parent then m - {inum} else m)
                && (st != OK ==> View() == old(View()))
    {
      hide Parse, Write, E.Seen;
      var got, parentBuf := ec.Get(parent);
      if got != E.OK { return NOENT; }
      var contents := ParseBuf(parentBuf);
      if contents.None? { return Undefined; }
      var l := contents.value;
      var it := 0;
      while it < |l| && !(l[it].name == name && IsFile(l[it].inum))
        invariant 0 <= it <= |l| && forall j :: 0 <= j < it ==> !Is(l[j], name, true)
      {
        it := it + 1;
      }
      if it == |l| { return NOENT; }
      FindIs(l, name, true, it);
      assert FirstFile(l, name, it);
      var fileInum := l[it].inum;
      var text := WriteDirent(Without(l, it));
      var _ := ec.Put(parent, text);
      var _ := ec.Remove(fileInum);
      st := OK;
    }

    method LookupResource(parent: Inum, name: string) returns (st: Status, inum: Inum)
      requires Valid()
      modifies ec
      ensures Valid()
      ensures parent !in old(View()) ==> st == IOERR && View() == old(View())[parent := ""]
      ensures parent in old(View()) && Parse(old(View())[parent]).None? ==> st == Undefined
      ensures parent in old(View()) && Parse(old(View())[parent]).Some? ==>
                st == OK && View() == old(View()) && inum == LookupIn(Parse(old(View())[parent]).value, name)
    {
      hide Parse, E.Seen;
      inum := 0;
      var got, parentBuf := ec.Get(parent);
      if got != E.OK { return IOERR, 0; }
      var contents := ParseBuf(parentBuf);
      if contents.None? { return Undefined, 0; }
      var l := contents.value;
      assert l[0..] == l;
      for i := 0 to |l|
        invariant inum == 0 && LookupIn(l, name) == LookupIn(l[i..], name)
      {
        if l[i].name == name { return OK, l[i].inum; }
        assert l[i..][1..] == l[i + 1..];
      }
      st := OK;
    }

    /** setAttr: the size is the only attribute that is set. */
    method SetSize(inum: Inum, size: nat) returns (st: Status)
      requires Valid()
      modifies ec
      ensures Valid()
      ensures inum !in old(View()) ==> st == IOERR && View() == old(View())[inum := ""]
      ensures inum in old(View()) ==>
                st == OK && View() == old(View())[inum := F.Resized(old(View())[inum], size)]
    {
      hide E.Seen;
      var got, attrSize := ec.GetAttr(inum);
      if got != E.OK { return IOERR; }
      st := OK;
      ghost var was := View()[inum];
      if attrSize > size {
        var _, buf := ec.Get(inum);
        var _ := ec.Put(inum, buf[..size]);
      } else if attrSize < size {
        var _, buf := ec.Get(inum);
        var _ := ec.Put(inum, buf + seq(size - |buf|, _ => F.ZERO));
      } else {
        assert F.Resized(was, size) == was;
        assert View() == View()[inum := was];
      }
    }

    method WriteFile(inum: Inum, data: string, off: nat) returns (st: Status)
      requires Valid()
      modifies ec
      ensures Valid()
      ensures inum !in old(View()) ==> st == IOERR && View() == old(View())[inum := ""]
      ensures inum in old(View()) ==>
                st == OK && View() == old(View())[inum := F.Written(old(View())[inum], off, data)]
    {
      hide E.Seen;
      var got, current := ec.Get(inum);
      if got != E.OK { return IOERR; }
      if off + |data| > |current| {
        current := current + seq(off + |data| - |current|, _ => F.ZERO);
      }
      current := current[..off] + data + current[off + |data|..];
      var _ := ec.Put(inum, current);
      st := OK;
    }

    method ReadFile(inum: Inum, size: nat, off: nat) returns (st: Status, buf: string)
      requires Valid()
      modifies ec
      ensures Valid()
      ensures inum !in old(View()) ==> st == IOERR && View() == old(View())[inum := ""]
      ensures inum in old(View()) ==>
                && View() == old(View())
                && match F.ReadAt(old(View())[inum], off, size)
                   case None => st == IOERR
                   case Some(s) => st == OK && buf == s
    {
      hide E.Seen;
      buf := "";
      var got, current := ec.Get(inum);
      if got != E.OK { return IOERR, ""; }
      if off > |current| { return IOERR, ""; }
      buf := if off + size <= |current| then current[off..off + size] else current[off..];
      st := OK;
    }
  }
}
