/** What every public operation means, by path, in terms of the items of the world alone. */
module Meanings {
  import opened Errors
  import opened Bytes
  import opened Layout
  import opened ListNodes
  import opened Mapping
  import opened FileOps
  import opened FileRuns
  import Namespace
  import opened Worlds
  import opened Paths
  import opened WorldSteps
  import opened Sessions

  // ---------------------------------------------------------------- paths

  /** The path ends with `name` in directory `p`; every directory on the way, and `p`, grants search. */
  ghost predicate EndsIn(w: World, u: User, path: Block, trail: seq<nat>, p: nat, name: Block) {
    && path != [] && path[0] == 47 && |trail| == |Components(path)|
    && Trail(w, u.search, 2, Components(path), trail) && p == trail[|trail| - 1] && Open(w, u.search, p)
    && name == Components(path)[|trail| - 1] && |name| < 28 && IsFolder(w, p)
  }

  lemma EndsResolved(w: World, u: User, flags: Flags, path: Block, trail: seq<nat>, p: nat, name: Block)
    requires EndsIn(w, u, path, trail, p, name) && flags.leaf
    ensures var r, parent: int := Resolved(w, u.search, flags, path), if flags.parent then p as int else -1;
            && (name in w.items[p].names ==> r == Done(Info(parent, w.items[p].names[name], true, name)))
            && (name !in w.items[p].names && flags.missing ==> r == Done(Info(parent, -1, false, name)))
            && (name !in w.items[p].names && !flags.missing ==> r == Fail(ENOENT))
  {
    hide Walk, Components;
    RootAlone();
    TrailEnds(w, u.search, flags, 2, Components(path), trail);
    if name in w.items[p].names {
      assert Leads(w, p, name, w.items[p].names[name]);
    }
  }

  /** The path is stopped: by a directory that does not grant search, or by a component that is missing on the way. */
  ghost predicate StopsAt(w: World, u: User, path: Block, trail: seq<nat>, err: Errno) {
    && path != [] && path[0] == 47 && Trail(w, u.search, 2, Components(path), trail)
    && var last, at := |trail| == |Components(path)|, trail[|trail| - 1];
    var name := Components(path)[|trail| - 1];
    if last && |name| >= 28 then err == ENAMETOOLONG
    else if at != 2 && at >= |w.items| then err == EINVAL
    else if at != 2 && !w.items[at].Folder? then err == ENOTDIR
    else if at != 2 && u.search(w.items[at].attr) != Ok then err == u.search(w.items[at].attr)
    else !last && Missing(w, at, name) && err == ENOENT
  }

  /** Then every operation on it answers that error and changes nothing. */
  lemma Stopped(g: Geometry, w: World, u: User, path: Block, trail: seq<nat>, err: Errno)
    requires Usable(g) && StopsAt(w, u, path, trail, err)
    ensures forall cmd :: TurnFor(g, w, u, DoFile(path, cmd)) == Turn(w, Reply(err, [], 0), false)
    ensures forall perm :: TurnFor(g, w, u, DoCreate(path, perm)) == Turn(w, Reply(err, [], 0), false)
    ensures forall perm :: TurnFor(g, w, u, DoMkdir(path, perm)) == Turn(w, Reply(err, [], 0), false)
    ensures TurnFor(g, w, u, DoUnlink(path)) == TurnFor(g, w, u, DoRmdir(path)) == Turn(w, Reply(err, [], 0), false)
    ensures forall to :: TurnFor(g, w, u, DoRename(path, to)) == Turn(w, Reply(err, [], 0), false)
  {
    hide Walk, Components;
    StoppedResolved(w, u, OPEN, path, trail, err);
    StoppedResolved(w, u, MAKE, path, trail, err);
    StoppedResolved(w, u, TAKE, path, trail, err);
  }

  lemma StoppedResolved(w: World, u: User, flags: Flags, path: Block, trail: seq<nat>, err: Errno)
    requires StopsAt(w, u, path, trail, err) && flags.leaf
    ensures Resolved(w, u.search, flags, path) == Fail(err)
  {
    hide Walk, Components;
    RootAlone();
    var comps, at := Components(path), trail[|trail| - 1];
    if |trail| == |comps| && |comps[|trail| - 1]| >= 28 {
      TrailEnds(w, u.search, flags, 2, comps, trail);
    } else if !Open(w, u.search, at) {
      TrailBarred(w, u.search, flags, 2, comps, trail);
    } else {
      TrailMissing(w, u.search, flags, 2, comps, trail);
    }
  }

  /** A path that does not begin with a slash, or of two slashes or more and no name, leads nowhere; the root can be
      opened and is nobody's child. */
  lemma NoName(g: Geometry, w: World, u: User, path: Block)
    requires Usable(g) && (path == [] || path[0] != 47 || Components(path) == [])
    ensures forall cmd :: path != [47] ==> TurnFor(g, w, u, DoFile(path, cmd)) == Turn(w, Reply(EINVAL, [], 0), false)
    ensures forall perm :: TurnFor(g, w, u, DoCreate(path, perm)) == Turn(w, Reply(EINVAL, [], 0), false)
    ensures forall perm :: TurnFor(g, w, u, DoMkdir(path, perm)) == Turn(w, Reply(EINVAL, [], 0), false)
    ensures TurnFor(g, w, u, DoUnlink(path)) == TurnFor(g, w, u, DoRmdir(path)) == Turn(w, Reply(EINVAL, [], 0), false)
    ensures forall to :: TurnFor(g, w, u, DoRename(path, to)) == Turn(w, Reply(EINVAL, [], 0), false)
    ensures forall cmd :: !TooFar(cmd) && 2 < |w.items| ==>
              TurnFor(g, w, u, DoFile([47], cmd)) == ContentTurn(g, w, 2, cmd)
  {
    hide Walk, ContentTurn, Components;
  }

  /** The path of these names. */
  function Joined(names: seq<Block>): Block {
    if names == [] then [] else [47] + names[0] + Joined(names[1..])
  }

  /** A path is taken apart into the names it was put together from. */
  lemma {:induction false} JoinedApart(names: seq<Block>)
    requires forall i :: 0 <= i < |names| ==> names[i] != [] && 47 !in names[i]
    ensures Components(Joined(names)) == names
  {
    if names != [] {
      JoinedApart(names[1..]);
      var a, b := [47] + names[0], Joined(names[1..]);
      ComponentsAppend(a, b);
      OneName(names[0]);
      assert a[1..] == names[0] && names == [names[0]] + names[1..];
    }
  }

  lemma OneName(name: Block)
    requires name != [] && forall i :: 0 <= i < |name| ==> name[i] != 47
    ensures Components(name) == [name]
  {
    AllHead(name);
    assert name[..|name|] == name && name[|name|..] == [];
  }

  lemma {:induction false} AllHead(name: Block)
    requires forall i :: 0 <= i < |name| ==> name[i] != 47
    ensures Head(name) == |name|
  {
    if name != [] {
      AllHead(name[1..]);
    }
  }

  // ---------------------------------------------------------------- contents

  /** Nothing but item `n` and the free count differs. */
  ghost predicate OnlyItem(w: World, w': World, n: nat) {
    |w'.items| == |w.items| && forall k :: 0 <= k < |w.items| && k != n ==> w'.items[k] == w.items[k]
  }

  /** Nothing but the items `m`, `p` and `q` and the free count differs. */
  ghost predicate OnlyItems(w: World, w': World, m: nat, p: nat, q: nat) {
    |w'.items| == |w.items|
    && forall k :: 0 <= k < |w.items| && k != m && k != p && k != q ==> w'.items[k] == w.items[k]
  }

  /** Blocks a file of `len` bytes takes, list nodes included: a node has room for (bs - 8) / 4 pointers. */
  ghost function Takes(bs: nat, len: nat): nat
    requires bs >= 12
  {
    CeilDiv(len, bs) + CeilDiv(CeilDiv(len, bs), (bs - 8) / 4)
  }

  /** Making a file of `len` bytes `size` bytes long lacks room: the new blocks and all new list nodes have to be
      free. */
  ghost predicate NoRoom(bs: nat, free: int, len: nat, size: nat)
    requires bs >= 12
  {
    var k, need := CeilDiv(len, bs), CeilDiv(size, bs);
    need > k && need - k + CeilDiv(need, (bs - 8) / 4) > free
  }

  lemma WithinMax(bs: nat, size: nat)
    requires bs > 0 && size <= 1024 * bs
    ensures CeilDiv(size, bs) <= 1024
  {
    hide CeilDiv;
    CeilDivBounds(size, bs);
  }

  lemma PathToFile(g: Geometry, w: World, u: User, path: Block, trail: seq<nat>, p: nat, name: Block, n: nat,
                   cmd: FileCmd)
    requires Usable(g) && EndsIn(w, u, path, trail, p, name) && Leads(w, p, name, n) && n < |w.items|
    ensures TurnFor(g, w, u, DoFile(path, cmd))
            == if !cmd.SetSize? && cmd.off >= 0x1_0000_0000 then Turn(w, Reply(EINVAL, [], 0), false)
               else ContentTurn(g, w, n, cmd)
  {
    hide Resolved, ContentTurn, Components;
    EndsResolved(w, u, OPEN, path, trail, p, name);
  }

  /** pread. */
  lemma ReadMeans(g: Geometry, w: World, u: User, path: Block, trail: seq<nat>, p: nat, name: Block, n: nat, off: int,
                  len: nat)
    requires Usable(g) && EndsIn(w, u, path, trail, p, name) && Leads(w, p, name, n) && n < |w.items|
      && !w.items[n].Gone?
    ensures var turn := TurnFor(g, w, u, DoFile(path, GetBytes(off, len)));
            && turn.world == w && !turn.lost
            && turn.reply == if off < 0 || off >= 0x1_0000_0000 || len == 0 then Reply(EINVAL, [], 0)
                             else if w.items[n].Folder? then Reply(EISDIR, [], 0)
                             else if off >= |w.items[n].bytes| then Reply(Ok, [], 0)
                             else if off + len > |w.items[n].bytes| then Reply(Ok, w.items[n].bytes[off..], 0)
                             else Reply(Ok, w.items[n].bytes[off..off + len], 0)
  {
    hide Resolved, Components, TurnFor, EndsIn, Quot, Rem;
    PathToFile(g, w, u, path, trail, p, name, n, GetBytes(off, len));
    if 0 <= off < 0x1_0000_0000 {
      WrapExact(off, g.blkSize);
    }
    if w.items[n].Regular? {
      assert w.items[n := w.items[n].(bytes := w.items[n].bytes)] == w.items;
    }
  }

  /** pwrite: at most 1024 blocks, the rest of the request is not written. */
  lemma WriteMeans(g: Geometry, w: World, u: User, path: Block, trail: seq<nat>, p: nat, name: Block, n: nat, off: int,
                   data: Block)
    requires Usable(g) && EndsIn(w, u, path, trail, p, name) && Leads(w, p, name, n) && n < |w.items|
      && !w.items[n].Gone?
    ensures var turn := TurnFor(g, w, u, DoFile(path, PutBytes(off, data)));
            var max := 1024 * g.blkSize;
            var c: int := if |data| <= max - off then |data| else max - off;
            && !turn.lost && turn.reply.data == []
            && turn.reply.err == (if off < 0 || off >= 0x1_0000_0000 || data == [] then EINVAL
                                  else if w.items[n].Folder? then EISDIR
                                  else if off >= max then EFBIG
                                  else if NoRoom(g.blkSize, w.free, |w.items[n].bytes|, off + c) then ENOSPC
                                  else Ok)
            && (turn.reply.err != Ok ==> turn.world == w && turn.reply.count == 0)
            && (turn.reply.err == Ok ==> turn.reply.count == c && 0 < c && Rewrote(g, w, turn.world, n, off, data[..c]))
  {
    hide Resolved, Components, TurnFor, EndsIn, Quot, Rem, CeilDiv;
    PathToFile(g, w, u, path, trail, p, name, n, PutBytes(off, data));
    var turn := TurnFor(g, w, u, DoFile(path, PutBytes(off, data)));
    if w.items[n].Regular? && 0 <= off < 1024 * g.blkSize {
      WithinMax(g.blkSize, off + if |data| <= 1024 * g.blkSize - off then |data| else 1024 * g.blkSize - off);
      if turn.reply.err == Ok {
        WroteAll(g, w, n, off, data);
      }
    }
    if w.items[n].Regular? {
      assert w.items[n := w.items[n].(bytes := w.items[n].bytes)] == w.items;
    }
  }

  /** Byte by byte: what was written, else what was there, else zero; the blocks this takes are charged. */
  ghost predicate Rewrote(g: Geometry, w: World, w': World, n: nat, off: int, data: Block)
    requires Usable(g)
  {
    && OnlyItem(w, w', n) && n < |w.items| && w.items[n].Regular? && w'.items[n].Regular? && 0 <= off
    && w'.items[n].attr == w.items[n].attr && w'.items[n].links == w.items[n].links
    && |w'.items[n].bytes| == (if off + |data| > |w.items[n].bytes| then off + |data| else |w.items[n].bytes|)
    && (forall i :: 0 <= i < |w'.items[n].bytes| ==>
          w'.items[n].bytes[i] == if off <= i < off + |data| then data[i - off]
                                  else if i < |w.items[n].bytes| then w.items[n].bytes[i] else 0)
    && w'.free + Takes(g.blkSize, |w'.items[n].bytes|) == w.free + Takes(g.blkSize, |w.items[n].bytes|)
  }

  lemma WroteAll(g: Geometry, w: World, n: nat, off: nat, data: Block)
    requires Usable(g) && n < |w.items| && w.items[n].Regular? && off < 1024 * g.blkSize && data != []
    requires ContentTurn(g, w, n, PutBytes(off, data)).reply.err == Ok
    ensures var c := if |data| <= 1024 * g.blkSize - off then |data| else 1024 * g.blkSize - off;
            Rewrote(g, w, ContentTurn(g, w, n, PutBytes(off, data)).world, n, off, data[..c])
  {
    hide CeilDiv;
  }

  /** truncate. */
  lemma ResizeMeans(g: Geometry, w: World, u: User, path: Block, trail: seq<nat>, p: nat, name: Block, n: nat,
                    size: int)
    requires Usable(g) && EndsIn(w, u, path, trail, p, name) && Leads(w, p, name, n) && n < |w.items|
      && !w.items[n].Gone?
    ensures var turn := TurnFor(g, w, u, DoFile(path, SetSize(size)));
            && !turn.lost && turn.reply.data == [] && turn.reply.count == 0
            && turn.reply.err == (if size < 0 then EINVAL
                                  else if size > 1024 * g.blkSize then EFBIG
                                  else if w.items[n].Folder? then EISDIR
                                  else if Cramped(g.blkSize, w.free, |w.items[n].bytes|, size) then ENOSPC
                                  else Ok)
            && (turn.reply.err != Ok ==> turn.world == w)
            && (turn.reply.err == Ok ==> Cut(g, w, turn.world, n, size))
  {
    hide Resolved, Components, TurnFor, EndsIn, CeilDiv;
    PathToFile(g, w, u, path, trail, p, name, n, SetSize(size));
    if 0 <= size <= 1024 * g.blkSize {
      WithinMax(g.blkSize, size);
    }
    if w.items[n].Regular? {
      assert w.items[n := w.items[n].(bytes := w.items[n].bytes)] == w.items;
    }
  }

  /** Which commands on a file are tame: all reads; a write, unless it succeeds and starts past the block after the last
      one; a truncate, unless it fails to shrink. Commands on directories always are. */
  lemma TameMeans(g: Geometry, w: World, u: User, path: Block, trail: seq<nat>, p: nat, name: Block, n: nat, off: int,
                  data: Block, size: int)
    requires Usable(g) && EndsIn(w, u, path, trail, p, name) && Leads(w, p, name, n) && n < |w.items|
      && w.items[n].Regular?
    ensures forall len :: TameCmd(g, w, u, DoFile(path, GetBytes(off, len)))
    ensures TameCmd(g, w, u, DoFile(path, PutBytes(off, data)))
            <==> TurnFor(g, w, u, DoFile(path, PutBytes(off, data))).reply.err == Ok ==>
                   off / g.blkSize <= CeilDiv(|w.items[n].bytes|, g.blkSize)
    ensures TameCmd(g, w, u, DoFile(path, SetSize(size)))
            <==> !(TurnFor(g, w, u, DoFile(path, SetSize(size))).reply.err == ENOSPC && size < |w.items[n].bytes|)
    ensures forall c: Cmd :: !c.DoFile? ==> TameCmd(g, w, u, c)
  {
    hide Resolved, Components, Quot, CeilDiv, ContentTurn, TurnFor;
    EndsResolved(w, u, OPEN, path, trail, p, name);
    PathToFile(g, w, u, path, trail, p, name, n, PutBytes(off, data));
    PathToFile(g, w, u, path, trail, p, name, n, SetSize(size));
    ContentErr(g, w, n, PutBytes(off, data));
    ContentErr(g, w, n, SetSize(size));
    if off >= 0 {
      QuotRem(off, g.blkSize);
    }
  }

  lemma ContentErr(g: Geometry, w: World, n: nat, cmd: FileCmd)
    requires Usable(g) && n < |w.items|
    ensures ContentTurn(g, w, n, cmd).reply == Apply(g, DiskIn(w), OpOn(n, cmd)).1
    ensures cmd.PutBytes? && cmd.off < 0 ==> ContentTurn(g, w, n, cmd).reply.err == EINVAL
  {
  }

  /** Growing lacks room, or cutting does: the shorter list is built before the old one is released. */
  ghost predicate Cramped(bs: nat, free: int, len: nat, size: nat)
    requires bs >= 12
  {
    var k, keep := CeilDiv(len, bs), CeilDiv(size, bs);
    if size < len then keep < k && CeilDiv(keep, (bs - 8) / 4) > free + (k - keep)
    else size > len && NoRoom(bs, free, len, size)
  }

  /** The first `size` bytes, or all of them and zeros; the blocks this takes are charged. */
  ghost predicate Cut(g: Geometry, w: World, w': World, n: nat, size: int)
    requires Usable(g)
  {
    && OnlyItem(w, w', n) && n < |w.items| && w.items[n].Regular? && w'.items[n].Regular? && 0 <= size
    && w'.items[n].attr == w.items[n].attr && w'.items[n].links == w.items[n].links && |w'.items[n].bytes| == size
    && (forall i :: 0 <= i < size ==>
          w'.items[n].bytes[i] == if i < |w.items[n].bytes| then w.items[n].bytes[i] else 0)
    && w'.free + Takes(g.blkSize, size) == w.free + Takes(g.blkSize, |w.items[n].bytes|)
  }

  // ---------------------------------------------------------------- making

  /** The lowest inode number that is not in use, past the reserved ones. */
  ghost predicate LowestGone(w: World, m: nat) {
    2 < m < |w.items| && w.items[m].Gone? && forall k :: 2 < k < m ==> !w.items[k].Gone?
  }

  ghost predicate NoneGone(w: World) {
    forall k :: 2 < k < |w.items| ==> !w.items[k].Gone?
  }

  lemma NoneIs(w: World)
    requires NoneGone(w)
    ensures FreshIno(w) < 0
  {
    hide Clear;
    ClearFacts(WorldSteps.InUse(w), ROOT_INODE + 1, |w.items|);
  }

  /** create and mkdir (`dir`): a directory has room for bs / 32 names in its block; a new one takes a block and a
      node. */
  lemma MakeMeans(g: Geometry, w: World, u: User, path: Block, trail: seq<nat>, p: nat, name: Block, dir: bool,
                  perm: nat, m: nat)
    requires Usable(g) && EndsIn(w, u, path, trail, p, name) && (LowestGone(w, m) || (NoneGone(w) && m == |w.items|))
    ensures var turn := TurnFor(g, w, u, if dir then DoMkdir(path, perm) else DoCreate(path, perm));
            var takes, full := if dir then 2 else 0, |w.items[p].names| >= g.blkSize / 32;
            && turn.reply == Reply(if name in w.items[p].names then EEXIST
                                   else if m == |w.items| || w.free < takes then ENOSPC
                                   else if full && w.free < takes + 2 then ENOSPC
                                   else Ok, [], 0)
            && (turn.lost <==> turn.reply.err == Ok && (full || name == [46] || name == [46, 46]))
            && (turn.reply.err != Ok ==> turn.world == w)
            && (turn.reply.err == Ok && !turn.lost ==>
                  && OnlyItems(w, turn.world, m, p, p) && turn.world.free == w.free - takes && m < |w.items| && m != p
                  && turn.world.items[m] == (if dir then Folder(Attr(0x4000 + perm % 512, u.uid, u.gid), 2,
                                                               map[[46] := m, [46, 46] := p])
                                             else Regular(Attr(0x8000 + perm % 512, u.uid, u.gid), 1, []))
                  && turn.world.items[p] == w.items[p].(names := w.items[p].names[name := m],
                                                        links := w.items[p].links + if dir then 1 else 0))
  {
    hide Resolved, Components, EndsIn, FreshIno;
    assert IsFolder(w, p) && |name| < 28 by {
      InFolder(w, u, path, trail, p, name);
    }
    EndsResolved(w, u, MAKE, path, trail, p, name);
    if m < |w.items| {
      FirstGone(w, m);
    } else {
      NoneIs(w);
    }
  }

  lemma InFolder(w: World, u: User, path: Block, trail: seq<nat>, p: nat, name: Block)
    requires EndsIn(w, u, path, trail, p, name)
    ensures IsFolder(w, p) && |name| < 28
  {
  }

  // ---------------------------------------------------------------- taking

  /** Node `m` is gone, its name is out of `p`, and its blocks are free. */
  ghost predicate Took(g: Geometry, w: World, w': World, p: nat, name: Block, m: nat)
    requires Usable(g) && IsFolder(w, p)
  {
    && OnlyItems(w, w', m, p, p) && m < |w.items| && w'.items[m] == Gone
    && (m != p ==> w'.items[p].Folder? && w'.items[p].attr == w.items[p].attr
                   && w'.items[p].names == w.items[p].names - {name})
    && (m != p && w.items[m].Regular? ==> w'.items[p].links == w.items[p].links
                                          && w'.free == w.free + Takes(g.blkSize, |w.items[m].bytes|))
    && (m != p && w.items[m].Folder? ==>
          w'.items[p].links == if w.items[p].links > 0 then w.items[p].links - 1 else 0)
    && (w.items[m].Folder? ==> w'.free == w.free + 2)
  }

  lemma TookIs(g: Geometry, w: World, p: nat, name: Block, m: nat)
    requires Usable(g) && IsFolder(w, p) && m < |w.items|
    ensures Took(g, w, TakenAway(g, w, p, name, m), p, name, m)
  {
    hide CeilDiv;
    CeilDivUnique(1, PtrsPerNode(g.blkSize), 1);
  }

  /** unlink: files only. */
  lemma UnlinkMeans(g: Geometry, w: World, u: User, path: Block, trail: seq<nat>, p: nat, name: Block, m: nat)
    requires Usable(g) && EndsIn(w, u, path, trail, p, name) && Leads(w, p, name, m) && m < |w.items|
    ensures var turn := TurnFor(g, w, u, DoUnlink(path));
            && !turn.lost && turn.reply == Reply(if w.items[m].Folder? then EISDIR else Ok, [], 0)
            && (w.items[m].Folder? ==> turn.world == w)
            && (!w.items[m].Folder? ==> Took(g, w, turn.world, p, name, m))
  {
    hide Resolved, Components, EndsIn, Took, TakenAway;
    EndsResolved(w, u, TAKE, path, trail, p, name);
    TookIs(g, w, p, name, m);
  }

  /** rmdir: directories only, not under the name `.` or `..`, and only with nothing else in them. */
  lemma RmdirMeans(g: Geometry, w: World, u: User, path: Block, trail: seq<nat>, p: nat, name: Block, m: nat)
    requires Usable(g) && EndsIn(w, u, path, trail, p, name) && Leads(w, p, name, m) && m < |w.items|
    ensures var turn := TurnFor(g, w, u, DoRmdir(path));
            && !turn.lost
            && turn.reply == Reply(if name == [46] || name == [46, 46] then EINVAL
                                   else if !w.items[m].Folder? then ENOTDIR
                                   else if Furnished(w.items[m]) then ENOTEMPTY
                                   else Ok, [], 0)
            && (turn.reply.err != Ok ==> turn.world == w)
            && (turn.reply.err == Ok ==> Took(g, w, turn.world, p, name, m))
  {
    hide Resolved, Components, EndsIn, Took, TakenAway;
    EndsResolved(w, u, TAKE, path, trail, p, name);
    TookIs(g, w, p, name, m);
  }

  /** The directory has a name other than `.` and `..`. */
  ghost predicate Furnished(it: Item)
    requires it.Folder?
  {
    exists name :: name in it.names && name != [46] && name != [46, 46]
  }

  /** What is not there cannot be opened or taken away. */
  lemma MissingMeans(g: Geometry, w: World, u: User, path: Block, trail: seq<nat>, p: nat, name: Block)
    requires Usable(g) && EndsIn(w, u, path, trail, p, name) && name !in w.items[p].names
    ensures forall cmd :: TurnFor(g, w, u, DoFile(path, cmd)) == Turn(w, Reply(ENOENT, [], 0), false)
    ensures TurnFor(g, w, u, DoUnlink(path)) == TurnFor(g, w, u, DoRmdir(path)) == Turn(w, Reply(ENOENT, [], 0), false)
    ensures forall to :: TurnFor(g, w, u, DoRename(path, to)) == Turn(w, Reply(ENOENT, [], 0), false)
  {
    hide Resolved, Components;
    EndsResolved(w, u, OPEN, path, trail, p, name);
    EndsResolved(w, u, TAKE, path, trail, p, name);
  }

  // ---------------------------------------------------------------- moving

  /** The directories from `q` up to the root, by the names `..`. */
  ghost predicate Chain(w: World, q: nat, chain: seq<nat>) {
    && chain != [] && chain[0] == q
    && (forall i :: 0 <= i < |chain| - 1 ==> chain[i] != 2 && Leads(w, chain[i], [46, 46], chain[i + 1]))
  }

  lemma {:induction false} ChainAbove(w: World, m: nat, q: nat, chain: seq<nat>, k: nat)
    requires Chain(w, q, chain)
    ensures chain[|chain| - 1] == m ==> Namespace.OnPath(ParentsIn(w), m, q, |chain| - 1)
    ensures chain[|chain| - 1] == 2 && m !in chain ==> !Namespace.OnPath(ParentsIn(w), m, q, k)
    decreases |chain|
  {
    hide ParentsIn;
    if |chain| > 1 {
      assert chain[0] != 2 && Leads(w, chain[0], [46, 46], chain[1]);
      var rest := chain[1..];
      assert Chain(w, chain[1], rest) by {
        forall i | 0 <= i < |rest| - 1 ensures rest[i] != 2 && Leads(w, rest[i], [46, 46], rest[i + 1]) {
          assert chain[i + 1] != 2 && Leads(w, chain[i + 1], [46, 46], chain[i + 2]);
        }
      }
      assert ParentsIn(w)[q] == chain[1];
      ChainAbove(w, m, chain[1], rest, if k > 0 then k - 1 else 0);
    }
  }

  lemma AboveMeans(w: World, m: nat, q: nat, chain: seq<nat>)
    requires Chain(w, q, chain)
    ensures chain[|chain| - 1] == m ==> Above(w, m, q)
    ensures chain[|chain| - 1] == 2 && m !in chain ==> !Above(w, m, q)
  {
    hide ParentsIn, Namespace.OnPath;
    forall k: nat ensures chain[|chain| - 1] == 2 && m !in chain ==> !Namespace.OnPath(ParentsIn(w), m, q, k) {
      ChainAbove(w, m, q, chain, k);
    }
    ChainAbove(w, m, q, chain, 0);
  }

  /** Two paths: node `m` called `was` in `p`, and `name` in `q`. */
  ghost predicate Both(w: World, u: User, from: Block, to: Block, ft: seq<nat>, tt: seq<nat>, p: nat, was: Block,
                       q: nat, name: Block, m: nat) {
    && EndsIn(w, u, from, ft, p, was) && EndsIn(w, u, to, tt, q, name) && Leads(w, p, was, m) && m < |w.items|
    && (name in w.items[q].names ==> w.items[q].names[name] < |w.items|)
  }

  ghost predicate Dotty(was: Block, name: Block) {
    was == [46] || was == [46, 46] || name == [46] || name == [46, 46]
  }

  /** What rename answers when it moves nothing: dots, the same node, a destination it cannot replace. */
  lemma RenameRefused(g: Geometry, w: World, u: User, from: Block, to: Block, ft: seq<nat>, tt: seq<nat>, p: nat,
                      was: Block, q: nat, name: Block, m: nat)
    requires Usable(g) && Both(w, u, from, to, ft, tt, p, was, q, name, m)
    ensures var turn, taken := TurnFor(g, w, u, DoRename(from, to)), name in w.items[q].names;
            && (Dotty(was, name) ==> turn == Turn(w, Reply(EINVAL, [], 0), false))
            && (!Dotty(was, name) && taken ==>
                  var d := w.items[q].names[name];
                  && (d == m ==> turn == Turn(w, Reply(Ok, [], 0), false))
                  && (d != m && w.items[m].Folder? && !w.items[d].Folder? ==>
                        turn == Turn(w, Reply(ENOTDIR, [], 0), false))
                  && (d != m && !w.items[m].Folder? && w.items[d].Folder? ==>
                        turn == Turn(w, Reply(EISDIR, [], 0), false))
                  && (d != m && w.items[m].Folder? && w.items[d].Folder? && Furnished(w.items[d]) ==>
                        turn == Turn(w, Reply(ENOTEMPTY, [], 0), false)))
  {
    hide Resolved, Components, EndsIn, Above, TakenAway, Shifting;
    BothResolved(g, w, u, from, to, ft, tt, p, was, q, name, m);
  }

  /** The paths of a rename lead to the step of the world. */
  lemma BothResolved(g: Geometry, w: World, u: User, from: Block, to: Block, ft: seq<nat>, tt: seq<nat>, p: nat,
                     was: Block, q: nat, name: Block, m: nat)
    requires Usable(g) && Both(w, u, from, to, ft, tt, p, was, q, name, m)
    ensures IsFolder(w, p) && IsFolder(w, q)
    ensures TurnFor(g, w, u, DoRename(from, to))
            == if was == [46] || was == [46, 46] then Turn(w, Reply(EINVAL, [], 0), false)
               else TurnOf(RenameStep(g, w, p, was, q, name))
  {
    hide Resolved, Components, RenameStep;
    EndsResolved(w, u, TAKE, from, ft, p, was);
    EndsResolved(w, u, MAKE, to, tt, q, name);
  }

  /** A destination whose path is stopped, once the source is found: that error, and nothing changes. */
  lemma RenameStopped(g: Geometry, w: World, u: User, from: Block, to: Block, ft: seq<nat>, tt: seq<nat>, p: nat,
                      was: Block, err: Errno)
    requires Usable(g) && EndsIn(w, u, from, ft, p, was) && was in w.items[p].names && was != [46] && was != [46, 46]
    requires StopsAt(w, u, to, tt, err)
    ensures TurnFor(g, w, u, DoRename(from, to)) == Turn(w, Reply(err, [], 0), false)
  {
    hide Resolved, Components, RenameStep;
    EndsResolved(w, u, TAKE, from, ft, p, was);
    StoppedResolved(w, u, MAKE, to, tt, err);
  }

  /** Nothing stands in the way: no dots, and no destination but one that can be replaced. */
  ghost predicate Unopposed(w: World, was: Block, q: nat, name: Block, m: nat)
    requires IsFolder(w, q) && m < |w.items|
  {
    && !Dotty(was, name)
    && (name in w.items[q].names ==>
          var d := w.items[q].names[name];
          && d < |w.items| && d != m && w.items[d].Folder? == w.items[m].Folder?
          && (w.items[d].Folder? ==> !Furnished(w.items[d])))
  }

  /** Below itself: refused, and the destination is gone. */
  lemma RenameBelow(g: Geometry, w: World, u: User, from: Block, to: Block, ft: seq<nat>, tt: seq<nat>, p: nat,
                    was: Block, q: nat, name: Block, m: nat, chain: seq<nat>)
    requires Usable(g) && Both(w, u, from, to, ft, tt, p, was, q, name, m) && Unopposed(w, was, q, name, m)
    requires Chain(w, q, chain) && chain[|chain| - 1] == m
    ensures var turn := TurnFor(g, w, u, DoRename(from, to));
            && turn.reply == Reply(EINVAL, [], 0) && !turn.lost
            && (name !in w.items[q].names ==> turn.world == w)
            && (name in w.items[q].names ==> Took(g, w, turn.world, q, name, w.items[q].names[name]))
  {
    hide Resolved, Components, EndsIn, Above, TakenAway, Shifting, Took;
    BothResolved(g, w, u, from, to, ft, tt, p, was, q, name, m);
    AboveMeans(w, m, q, chain);
    if name in w.items[q].names {
      TookIs(g, w, q, name, w.items[q].names[name]);
    }
  }

  /** Elsewhere, and the name is not taken: the node has the new name and no longer the old one; a directory names its
      new parent. */
  lemma RenameMoves(g: Geometry, w: World, u: User, from: Block, to: Block, ft: seq<nat>, tt: seq<nat>, p: nat,
                    was: Block, q: nat, name: Block, m: nat, chain: seq<nat>)
    requires Usable(g) && Both(w, u, from, to, ft, tt, p, was, q, name, m) && name !in w.items[q].names
    requires !Dotty(was, name) && m != p && Chain(w, q, chain) && chain[|chain| - 1] == 2 && m !in chain
    ensures var turn, full := TurnFor(g, w, u, DoRename(from, to)), p != q && |w.items[q].names| >= g.blkSize / 32;
            && turn.reply == Reply(if full && w.free < 2 then ENOSPC else Ok, [], 0)
            && (turn.lost <==> full && w.free >= 2)
            && (full ==> turn.world == w)
            && (!full ==> MovedTo(w, turn.world, p, was, q, name, m))
  {
    hide Resolved, Components, EndsIn, Above, TakenAway, Shifting, MovedTo, TurnFor;
    BothResolved(g, w, u, from, to, ft, tt, p, was, q, name, m);
    AboveMeans(w, m, q, chain);
    ShiftedTo(w, p, was, q, name, m);
  }

  /** Elsewhere, and the name is taken by a node it can replace: that node goes first, then the other takes its name. */
  lemma RenameReplaces(g: Geometry, w: World, u: User, from: Block, to: Block, ft: seq<nat>, tt: seq<nat>, p: nat,
                       was: Block, q: nat, name: Block, m: nat, chain: seq<nat>) returns (w1: World)
    requires Usable(g) && Both(w, u, from, to, ft, tt, p, was, q, name, m) && name in w.items[q].names
    requires Unopposed(w, was, q, name, m) && m != p && Chain(w, q, chain) && chain[|chain| - 1] == 2 && m !in chain
    ensures Took(g, w, w1, q, name, w.items[q].names[name])
    ensures var turn := TurnFor(g, w, u, DoRename(from, to));
            && turn.reply == Reply(Ok, [], 0) && !turn.lost
            && IsFolder(w1, p) && IsFolder(w1, q) && MovedTo(w1, turn.world, p, was, q, name, m)
  {
    hide Resolved, Components, EndsIn, Above, TakenAway, Shifting, MovedTo, TurnFor;
    BothResolved(g, w, u, from, to, ft, tt, p, was, q, name, m);
    AboveMeans(w, m, q, chain);
    var d := w.items[q].names[name];
    w1 := TakenAway(g, w, q, name, d);
    TookIs(g, w, q, name, d);
    TakenKeeps(g, w, q, name, d, p);
    ShiftedTo(w1, p, was, q, name, m);
  }

  lemma ShiftedTo(w: World, p: nat, was: Block, q: nat, name: Block, m: nat)
    requires IsFolder(w, p) && IsFolder(w, q) && m < |w.items| && m != p && m != q && !(p == q && was == name)
    ensures name !in w.items[q].names ==> MovedTo(w, Shifting(w, p, was, q, name, m), p, was, q, name, m)
  {
  }

  ghost predicate MovedTo(w: World, w': World, p: nat, was: Block, q: nat, name: Block, m: nat)
    requires IsFolder(w, p) && IsFolder(w, q) && m < |w.items|
  {
    && OnlyItems(w, w', m, p, q) && w'.free == w.free && w'.items[p].Folder? && w'.items[q].Folder?
    && w'.items[p].attr == w.items[p].attr && w'.items[q].attr == w.items[q].attr
    && Leads(w', q, name, m) && was !in w'.items[p].names
    && (forall x :: x != was && x != name ==> (x in w'.items[p].names <==> x in w.items[p].names))
    && (forall x :: x != was && x != name ==> (x in w'.items[q].names <==> x in w.items[q].names))
    && (forall x :: x != was && x != name && x in w.items[p].names ==> w'.items[p].names[x] == w.items[p].names[x])
    && (forall x :: x != was && x != name && x in w.items[q].names ==> w'.items[q].names[x] == w.items[q].names[x])
    && (w.items[m].Folder? ==> w'.items[m] == w.items[m].(names := w.items[m].names[[46, 46] := q]))
    && (!w.items[m].Folder? ==> w'.items[m] == w.items[m])
    && (!w.items[m].Folder? || (p == q && w.items[p].links > 0) ==>
          w'.items[p].links == w.items[p].links && w'.items[q].links == w.items[q].links)
    && (p != q && w.items[m].Folder? ==>
          && w'.items[p].links == (if w.items[p].links > 0 then w.items[p].links - 1 else 0)
          && w'.items[q].links == w.items[q].links + 1)
  }
}
