/** Whole sessions: public operations by path, one after the other, on one volume. */
module Sessions {
  import opened Errors
  import opened Bytes
  import opened Layout
  import opened ListNodes
  import opened Volumes
  import opened Ownership
  import opened Accounting
  import opened FileData
  import opened FileOps
  import opened ByteFiles
  import opened FileRuns
  import opened Dirents
  import opened DirOps
  import opened Namespace
  import opened TreeShape
  import opened TreeOps
  import opened Worlds
  import opened Renaming
  import opened Paths
  import opened WorldSteps

  // ---------------------------------------------------------------- what a path leads to

  /** A walk that looks for the last node ends in a directory, with a name that fits an entry, and finds only nodes in
      use. */
  lemma {:induction false} WalkEnds(g: Geometry, f: Fs, t: Nest, search: Attr -> Errno, flags: Flags, d: nat,
                                    comps: seq<Block>)
    requires Shaped(g, f) && Tree(NsOf(f), t) && comps != [] && d < g.inodeNum && flags.leaf
    requires forall i :: 0 <= i < |comps| ==> CString(comps[i]) && comps[i] != []
    requires Walk(WorldOf(f), search, flags, d, comps).Done?
    ensures var info := Walk(WorldOf(f), search, flags, d, comps).info;
            && LeafName(info.name) && info.name == comps[|comps| - 1]
            && (flags.parent ==> 0 <= info.parent && IsParent(g, f, info.parent))
            && (info.found ==> ROOT_INODE <= info.leaf < g.inodeNum && !NsOf(f)[info.leaf].Dead?)
            && (!flags.missing ==> info.found)
    decreases |comps|
  {
    hide EntsOf, Bit, TreeBut, GraphNode, ShapedAt, Search, WorldOf;
    var w := WorldOf(f);
    SearchedFirst(w, search, flags, d, comps);
    SearchedIsDir(g, f, t, search, d);
    if LookupAt(w, d, comps[0]) >= 0 {
      NamedNode(g, f, t, d, comps[0]);
    }
    if |comps| > 1 {
      WalkEnds(g, f, t, search, flags, Down(w, search, d, comps[0]).1, comps[1..]);
    }
  }

  lemma SearchedFirst(w: World, search: Attr -> Errno, flags: Flags, d: nat, comps: seq<Block>)
    requires comps != [] && flags.leaf && Walk(w, search, flags, d, comps).Done?
    ensures Search(w, search, d) == Ok
  {
    hide LookupAt, Search;
  }

  /** What a successful resolution means for the operation that asked for it. */
  lemma ResolvedEnds(g: Geometry, f: Fs, t: Nest, search: Attr -> Errno, flags: Flags, path: Block)
    requires Shaped(g, f) && Tree(NsOf(f), t) && CString(path) && flags.leaf
      && Resolved(WorldOf(f), search, flags, path).Done?
    ensures var info := Resolved(WorldOf(f), search, flags, path).info;
            && (flags.parent ==> 0 <= info.parent && IsParent(g, f, info.parent) && LeafName(info.name))
            && (info.found ==> ROOT_INODE <= info.leaf < g.inodeNum && !NsOf(f)[info.leaf].Dead?)
            && (!flags.missing ==> info.found)
  {
    hide EntsOf, Bit, TreeBut, GraphNode, ShapedAt, LookupAt, Search, Components, WorldOf, Walk;
    RootAlive(g, f, t);
    if path != [SLASH] {
      ComponentNames(path);
      WalkEnds(g, f, t, search, flags, ROOT_INODE, Components(path));
    }
  }

  lemma RootAlive(g: Geometry, f: Fs, t: Nest)
    requires Shaped(g, f) && Tree(NsOf(f), t)
    ensures ROOT_INODE < g.inodeNum && !NsOf(f)[ROOT_INODE].Dead?
  {
    hide EntsOf, Bit, AllLead, AllPlaced, AllDotted, AllLinked, AllRooted, AllTidy, GraphNode;
  }

  // ---------------------------------------------------------------- commands and their meaning

  datatype FileCmd = GetBytes(off: int, len: nat) | PutBytes(off: int, data: Block) | SetSize(size: int)

  /** The public calls refuse offsets that do not fit 32 bits. */
  predicate TooFar(cmd: FileCmd) {
    !cmd.SetSize? && cmd.off >= LIMIT32
  }

  /** A public operation, by path. */
  datatype Cmd =
    | DoFile(path: Block, cmd: FileCmd)
    | DoCreate(path: Block, perm: nat)
    | DoMkdir(path: Block, perm: nat)
    | DoUnlink(path: Block)
    | DoRmdir(path: Block)
    | DoRename(from: Block, to: Block)

  /** The paths of a command are C strings. */
  predicate WellFormed(c: Cmd) {
    match c
    case DoRename(from, to) => CString(from) && CString(to)
    case _ => CString(c.path)
  }

  /** Who runs the session: which directories grant search, and the owner of what is made. */
  datatype User = User(search: Attr -> Errno, uid: nat, gid: nat)

  const MAKE: Flags := Flags(true, true, true)
  const TAKE: Flags := Flags(true, true, false)
  const OPEN: Flags := Flags(true, false, false)

  ghost predicate Usable(g: Geometry) {
    g.blkSize > 0 && PtrsPerNode(g.blkSize) > 1
  }

  /** The files of the world, as byte strings. */
  ghost function DiskIn(w: World): (d: Disk)
    ensures |d.files| == |w.items| && d.free == w.free
    ensures forall n :: 0 <= n < |w.items| ==>
              d.files[n] == File(if w.items[n].Regular? then w.items[n].bytes else [], w.items[n].Folder?)
  {
    Disk(seq(|w.items|, n requires 0 <= n < |w.items| =>
           File(if w.items[n].Regular? then w.items[n].bytes else [], w.items[n].Folder?)), w.free)
  }

  function OpOn(n: nat, cmd: FileCmd): (op: Op)
    ensures op.n == n
  {
    match cmd
    case GetBytes(off, len) => Read(n, off, len)
    case PutBytes(off, data) => Write(n, off, data)
    case SetSize(size) => Truncate(n, size)
  }

  /** What a command makes of the world, and what it answers. `lost`: it broke the volume, and the session ends. */
  datatype Turn = Turn(world: World, reply: Reply, lost: bool)

  ghost function Refused(w: World, err: Errno): Turn {
    Turn(w, Failed(err), false)
  }

  ghost function TurnOf(n: Next): Turn {
    Turn(n.world, Failed(n.err), n.lost)
  }

  ghost function ContentTurn(g: Geometry, w: World, n: nat, cmd: FileCmd): Turn
    requires Usable(g) && n < |w.items|
  {
    var out := Apply(g, DiskIn(w), OpOn(n, cmd));
    if w.items[n].Regular? && n < |out.0.files|
    then Turn(World(w.items[n := w.items[n].(bytes := out.0.files[n].bytes)], out.0.free), out.1, false)
    else Turn(w, out.1, false)
  }

  ghost function MakeTurn(g: Geometry, w: World, u: User, path: Block, dir: bool, perm: nat): Turn
    requires Usable(g)
  {
    var r := Resolved(w, u.search, MAKE, path);
    if r.Fail? then Refused(w, r.err)
    else if r.info.found then Refused(w, EEXIST)
    else if r.info.parent < 0 || !IsFolder(w, r.info.parent) then Refused(w, EINVAL)
    else TurnOf(MakeStep(g, w, r.info.parent, r.info.name, dir,
                         Attr((if dir then FTYPE_DIR else FTYPE_REG) + perm % 512, u.uid, u.gid)))
  }

  ghost function TakeTurn(g: Geometry, w: World, u: User, path: Block, dir: bool): Turn
    requires Usable(g)
  {
    var r := Resolved(w, u.search, TAKE, path);
    if r.Fail? then Refused(w, r.err)
    else if r.info.parent < 0 || !IsFolder(w, r.info.parent) then Refused(w, EINVAL)
    else TurnOf(RemoveStep(g, w, r.info.parent, r.info.name, dir))
  }

  ghost function MoveTurn(g: Geometry, w: World, u: User, from: Block, to: Block): Turn
    requires Usable(g)
  {
    var r := Resolved(w, u.search, TAKE, from);
    if r.Fail? then Refused(w, r.err)
    else if IsDots(r.info.name) then Refused(w, EINVAL)
    else
      var s := Resolved(w, u.search, MAKE, to);
      if s.Fail? then Refused(w, s.err)
      else if r.info.parent < 0 || !IsFolder(w, r.info.parent) then Refused(w, EINVAL)
      else if s.info.parent < 0 || !IsFolder(w, s.info.parent) then Refused(w, EINVAL)
      else TurnOf(RenameStep(g, w, r.info.parent, r.info.name, s.info.parent, s.info.name))
  }

  ghost function FileTurn(g: Geometry, w: World, u: User, path: Block, cmd: FileCmd): Turn
    requires Usable(g)
  {
    var r := Resolved(w, u.search, OPEN, path);
    if r.Fail? then Refused(w, r.err)
    else if r.info.leaf < 0 || r.info.leaf >= |w.items| || TooFar(cmd) then Refused(w, EINVAL)
    else ContentTurn(g, w, r.info.leaf, cmd)
  }

  /** One command on the world. */
  ghost function TurnFor(g: Geometry, w: World, u: User, c: Cmd): Turn
    requires Usable(g)
  {
    match c
    case DoFile(path, cmd) => FileTurn(g, w, u, path, cmd)
    case DoCreate(path, perm) => MakeTurn(g, w, u, path, false, perm)
    case DoMkdir(path, perm) => MakeTurn(g, w, u, path, true, perm)
    case DoUnlink(path) => TakeTurn(g, w, u, path, false)
    case DoRmdir(path) => TakeTurn(g, w, u, path, true)
    case DoRename(from, to) => MoveTurn(g, w, u, from, to)
  }

  /** The command skips no block it has to allocate, and if it shrinks a file it finds room for the shorter list. */
  ghost predicate TameCmd(g: Geometry, w: World, u: User, c: Cmd)
    requires Usable(g)
  {
    c.DoFile? ==>
      var r := Resolved(w, u.search, OPEN, c.path);
      r.Done? && r.info.leaf >= 0 && !TooFar(c.cmd) ==> Tame(g, DiskIn(w), OpOn(r.info.leaf, c.cmd))
  }

  /** A session on the world: it ends early with the command that breaks the volume. */
  datatype Story = Story(world: World, replies: seq<Reply>, lost: bool)

  ghost function Told(g: Geometry, w: World, u: User, cmds: seq<Cmd>): (s: Story)
    requires Usable(g)
    ensures |s.replies| <= |cmds| && (!s.lost ==> |s.replies| == |cmds|)
  {
    if cmds == [] then Story(w, [], false)
    else
      var s := Told(g, w, u, cmds[..|cmds| - 1]);
      if s.lost then s
      else
        var turn := TurnFor(g, s.world, u, cmds[|cmds| - 1]);
        Story(turn.world, s.replies + [turn.reply], turn.lost)
  }

  ghost predicate TameSession(g: Geometry, w: World, u: User, cmds: seq<Cmd>)
    requires Usable(g)
  {
    cmds == [] ||
    (&& TameSession(g, w, u, cmds[..|cmds| - 1])
     && (var s := Told(g, w, u, cmds[..|cmds| - 1]);
         s.lost || TameCmd(g, s.world, u, cmds[|cmds| - 1])))
  }

  // ---------------------------------------------------------------- contents by path

  /** An operation on the contents of a file is none on the graph. */
  lemma FileKeeps(g: Geometry, f: Fs, f': Fs, t: Nest, n: nat)
    requires Shaped(g, f) && Tree(NsOf(f), t) && Aligned(f') && n < g.inodeNum && !NsOf(f)[n].Dead? && Handled(f, f', n)
    requires AllSized(g, f')
    ensures Shaped(g, f') && NsOf(f') == NsOf(f)
  {
    hide EntsOf, Bit, TreeBut;
    if f' != f {
      assert SizeOk(g, f', n);
      if IsDir(f.inodes[n]) {
        ShapedDir(g, f, n);
      }
      assert ShapedAt(g, f', n);
      OneInodeNs(g, f, f', n);
      assert NsOf(f)[n := NsOf(f)[n]] == NsOf(f);
    }
  }

  lemma ShapedSized(g: Geometry, f: Fs)
    requires Shaped(g, f) && ValidBlkSize(g.blkSize)
    ensures AllSized(g, f)
  {
    hide Bit;
    forall n | 0 <= n < g.inodeNum ensures SizeOk(g, f, n) {
      assert ShapedAt(g, f, n);
      if IsDir(f.inodes[n]) {
        ShapedDir(g, f, n);
        DirSizeOk(g, f, n);
      }
      CeilDivBounds(0, g.blkSize);
    }
  }

  /** An operation on a file looks at that file and the free count only. */
  lemma ApplyLocal(g: Geometry, d: Disk, e: Disk, op: Op)
    requires Usable(g) && |d.files| == |e.files| && d.free == e.free && op.n < |d.files|
    requires d.files[op.n].dir == e.files[op.n].dir && (!d.files[op.n].dir ==> d.files[op.n] == e.files[op.n])
    ensures Apply(g, d, op).1 == Apply(g, e, op).1 && Apply(g, d, op).0.free == Apply(g, e, op).0.free
    ensures Tame(g, d, op) <==> Tame(g, e, op)
    ensures |Apply(g, d, op).0.files| == |d.files| && |Apply(g, e, op).0.files| == |d.files|
    ensures forall m :: 0 <= m < |d.files| && m != op.n ==> Apply(g, d, op).0.files[m] == d.files[m]
    ensures !d.files[op.n].dir ==> Apply(g, d, op).0.files[op.n] == Apply(g, e, op).0.files[op.n]
    ensures d.files[op.n].dir ==> Apply(g, e, op).0 == e
  {
    hide NodesFor, CeilDiv, Quot, Overwritten, Resize, ReadAt, Cost;
  }

  /** The files of the volume are the files of its world; of directories and free numbers only the kind is told. */
  lemma DiskInIs(g: Geometry, f: Fs, t: Nest, n: nat)
    requires Shaped(g, f) && Tree(NsOf(f), t) && n < g.inodeNum && !NsOf(f)[n].Dead?
    ensures DiskOf(f).files[n].dir == DiskIn(WorldOf(f)).files[n].dir
    ensures !DiskOf(f).files[n].dir ==>
      WorldOf(f).items[n].Regular? && DiskOf(f).files[n] == DiskIn(WorldOf(f)).files[n]
  {
    hide EntsOf, Bit, TreeBut, ShapedAt, BytesOf, Names, WorldOf, DiskOf;
    FolderIs(g, f, t, n);
    assert WorldOf(f).items[n] == ItemOf(f, n);
  }

  /** A tame operation on the contents of `n` is the turn of the world. */
  lemma ContentRefines(g: Geometry, f: Fs, f': Fs, t: Nest, n: nat, cmd: FileCmd, r: Reply)
    requires Usable(g) && Shaped(g, f) && Tree(NsOf(f), t) && Aligned(f') && n < g.inodeNum && !NsOf(f)[n].Dead?
    requires Handled(f, f', n) && NsOf(f') == NsOf(f) && Stepped(g, f, f', OpOn(n, cmd), r)
    requires AllClear(f) && Tame(g, DiskIn(WorldOf(f)), OpOn(n, cmd))
    ensures AllClear(f') && ContentTurn(g, WorldOf(f), n, cmd) == Turn(WorldOf(f'), r, false)
  {
    hide EntsOf, Bit, TreeBut, ShapedAt, BytesOf, Names, WorldOf, DiskOf, Apply, Tame, AllSized, AllClear, GraphNode,
      DiskIn;
    var w, w', op := WorldOf(f), WorldOf(f'), OpOn(n, cmd);
    DiskInIs(g, f, t, n);
    ApplyLocal(g, DiskOf(f), DiskIn(w), op);
    FolderIs(g, f, t, n);
    forall m | 0 <= m < |f.inodes| && m != n ensures w'.items[m] == w.items[m] {
      OtherItem(f, f', n, m);
    }
    ThisItem(f, f', n);
  }

  lemma OtherItem(f: Fs, f': Fs, n: nat, m: nat)
    requires Aligned(f) && Aligned(f') && Handled(f, f', n) && NsOf(f') == NsOf(f) && m < |f.inodes| == |f'.inodes|
      && m != n
    ensures WorldOf(f').items[m] == WorldOf(f).items[m]
  {
    hide EntsOf, Bit, BytesOf, Names, WorldOf, GraphNode, IsDir;
    SameBytes(f, f', m);
    SameItem(f, f', m);
  }

  lemma ThisItem(f: Fs, f': Fs, n: nat)
    requires Aligned(f) && Aligned(f') && Handled(f, f', n) && NsOf(f') == NsOf(f) && n < |f.inodes| == |f'.inodes|
      && !NsOf(f)[n].Dead?
    ensures NsOf(f)[n].Leaf? ==>
              WorldOf(f).items[n].Regular? && WorldOf(f').items[n] == WorldOf(f).items[n].(bytes := BytesOf(f', n))
    ensures NsOf(f)[n].Dir? ==> WorldOf(f').items[n] == WorldOf(f).items[n] && WorldOf(f).items[n].Folder?
    ensures DiskOf(f').files[n].bytes == BytesOf(f', n)
  {
    hide EntsOf, Bit, BytesOf, Names, WorldOf, GraphNode, IsDir;
  }

  /** Read, write or truncate the node `n`. */
  method FileStep(v: Volume, n: nat, cmd: FileCmd, now: nat, ghost t: Nest) returns (r: Reply)
    requires Sys(v, t) && n < v.geo.inodeNum && !NsOf(View(v))[n].Dead? && now < LIMIT64
    modifies v, v.io.Repr()
    ensures Sys(v, t)
    ensures var w := WorldOf(old(View(v)));
            old(AllClear(View(v))) && Tame(v.geo, DiskIn(w), OpOn(n, cmd)) ==>
              AllClear(View(v)) && ContentTurn(v.geo, w, n, cmd) == Turn(WorldOf(View(v)), r, false)
  {
    hide Good, View, FsSized, TreeBut, GraphNode, Shaped, AllSized, AllClear, Tame, WorldOf, DiskIn, ContentTurn,
      Handled, Stepped, OnDisk, Backs, DiskOf;
    ghost var f := View(v);
    ShapedSized(v.geo, f);
    r := Do(v, OpOn(n, cmd), now);
    StepSized(v.geo, f, View(v), OpOn(n, cmd), r);
    FileKeeps(v.geo, f, View(v), t, n);
    if AllClear(f) && Tame(v.geo, DiskIn(WorldOf(f)), OpOn(n, cmd)) {
      ContentRefines(v.geo, f, View(v), t, n, cmd, r);
    }
  }

  lemma StepSized(g: Geometry, f: Fs, f': Fs, op: Op, r: Reply)
    requires g.blkSize > 0 && PtrsPerNode(g.blkSize) > 0 && |f.inodes| == |f.blocks| && |f'.inodes| == |f'.blocks|
      && Stepped(g, f, f', op, r)
    ensures AllSized(g, f')
  {
  }

  method DoContents(v: Volume, u: User, path: Block, cmd: FileCmd, now: nat, ghost t: Nest) returns (r: Reply)
    requires Sys(v, t) && CString(path) && now < LIMIT64
    modifies v, v.io.Repr()
    ensures Sys(v, t)
    ensures var w := WorldOf(old(View(v)));
            old(AllClear(View(v))) && TameCmd(v.geo, w, u, DoFile(path, cmd)) ==>
              AllClear(View(v)) && FileTurn(v.geo, w, u, path, cmd) == Turn(WorldOf(View(v)), r, false)
  {
    hide View, Good, FsSized, TreeBut, CString, GraphNode, Shaped, Resolved, OnDisk, Backs, WorldOf, AllClear, Tame,
      DiskIn, ContentTurn;
    ghost var f := View(v);
    var p := Paths.Resolve(v, u.search, OPEN, path, t);
    if p.Fail? {
      return Failed(p.err);
    }
    ResolvedEnds(v.geo, f, t, u.search, OPEN, path);
    if TooFar(cmd) {
      return Failed(EINVAL);
    }
    r := FileStep(v, p.info.leaf, cmd, now, t);
  }

  // ---------------------------------------------------------------- directories by path

  /** What a command on directories ends with, if the volume survives it. */
  ghost predicate Ended(f: Fs, f': Fs, turn: Turn)
    requires Aligned(f) && Aligned(f')
  {
    WorldOf(f') == turn.world && (AllClear(f) ==> AllClear(f'))
  }

  lemma Unchanged(f: Fs, turn: Turn)
    requires Aligned(f) && turn.world == WorldOf(f)
    ensures Ended(f, f, turn)
  {
    hide WorldOf, AllClear;
  }

  /** create or mkdir, once the path is resolved. */
  lemma MadeEnds(g: Geometry, f: Fs, f': Fs, t: Nest, t': Nest, p: nat, j: nat, name: Block, m: nat, dir: bool,
                 perm: nat, uid: nat, gid: nat, now: nat)
    requires FsSized(g, f) && FsSized(g, f') && ValidBlkSize(g.blkSize) && PtrsPerNode(g.blkSize) > 1
      && PerBlock(g.blkSize) >= 2
    requires Shaped(g, f) && Tree(NsOf(f), t) && IsParent(g, f, p) && name != [] && !IsDots(name) && HasSlot(f, p)
    requires Shaped(g, f')
      && Created(f, f', t, t', p, j, name, m, if dir then Dir(DotsEnts(g.blkSize, m, p), 2) else Leaf)
    requires dir ==>
               && MkdirErr(g, f, p, name) == Ok
               && NewDir(g, f, f', p, m, FreshRec(FTYPE_DIR, 2, perm, uid, gid, now), now)
    requires !dir ==>
               && CreateErr(g, f, p, name) == Ok
               && NewFile(f, f', p, m, FreshRec(FTYPE_REG, 1, perm, uid, gid, now), now)
    ensures IsFolder(WorldOf(f), p)
    ensures var attr := Attr((if dir then FTYPE_DIR else FTYPE_REG) + perm % 512, uid, gid);
            var step := MakeStep(g, WorldOf(f), p, name, dir, attr);
            step.world == WorldOf(f') && (AllClear(f) ==> AllClear(f'))
  {
    hide TreeBut, GraphNode, Created, Tidy, Absent, Live, Names, WorldOf, BytesOf, DotsEnts, DotsBlock, FsSized,
      ShapedAt, AllClear, Made, HasSlot, Full, IsDots, EntsOf, NoHit, CanLink, InodesFull, FreshIno, FirstFree, Bit,
      IsDir, Relinked;
    var attr := Attr((if dir then FTYPE_DIR else FTYPE_REG) + perm % 512, uid, gid);
    MakeErrIs(g, f, t, p, name, attr);
    FreshIs(g, f);
    CreatedGraph(f, f', t, t', p, j, name, m, if dir then Dir(DotsEnts(g.blkSize, m, p), 2) else Leaf);
    EmptyBefore(g, f, f', t, t', p, j, name, m, if dir then Dir(DotsEnts(g.blkSize, m, p), 2) else Leaf);
    if dir {
      MadeDir(g, f, f', t, t', p, j, name, m, FreshRec(FTYPE_DIR, 2, perm, uid, gid, now), now);
    } else {
      MadeFile(f, f', t, t', p, j, name, m, FreshRec(FTYPE_REG, 1, perm, uid, gid, now), now);
    }
    if AllClear(f) {
      MadeKeepsLeaves(f, f', t, t', p, j, name, m, if dir then Dir(DotsEnts(g.blkSize, m, p), 2) else Leaf);
      ClearKept(g, f, f');
    }
  }

  lemma EmptyBefore(g: Geometry, f: Fs, f': Fs, t: Nest, t': Nest, p: nat, j: nat, name: Block, m: nat, node: Node)
    requires Shaped(g, f) && Aligned(f') && Created(f, f', t, t', p, j, name, m, node)
    ensures m < |f.blocks| && f.blocks[m] == []
  {
    hide EntsOf, Bit, Newborn, Absent, CreateNs;
    assert ShapedAt(g, f, m);
    assert NsOf(f)[m].Dead?;
  }

  method DoNew(v: Volume, u: User, path: Block, dir: bool, perm: nat, now: nat, ghost t: Nest)
    returns (r: Reply, bad: bool, ghost t': Nest)
    requires Sys(v, t) && CString(path) && u.uid < LIMIT32 && u.gid < LIMIT32 && now < LIMIT64
    modifies v, v.io.Repr()
    ensures v.Valid() && if bad then Broken(v) && r.err == Ok else Sys(v, t')
    ensures var turn := MakeTurn(v.geo, WorldOf(old(View(v))), u, path, dir, perm);
            r == turn.reply && bad == turn.lost && (!bad ==> Ended(old(View(v)), View(v), turn))
  {
    hide View, Good, FsSized, EntsOf, Bit, TreeBut, CString, GraphNode, ShapedAt, Created, Resolved, CreateErr,
      MkdirErr, HasSlot, LeafName, IsDots, Treeless, Ownerless, WorldOf, AllClear, MakeStep, NewFile, NewDir, OnDisk,
      Backs, Ended;
    ghost var f := View(v);
    bad, t' := false, t;
    ghost var turn := MakeTurn(v.geo, WorldOf(f), u, path, dir, perm);
    var a := Paths.Resolve(v, u.search, MAKE, path, t);
    GoodValid(v);
    if a.Fail? {
      Unchanged(f, turn);
      return Failed(a.err), false, t;
    }
    ResolvedEnds(v.geo, f, t, u.search, MAKE, path);
    if a.info.found {
      Unchanged(f, turn);
      return Failed(EEXIST), false, t;
    }
    var p, name := a.info.parent, a.info.name;
    ghost var attr := Attr((if dir then FTYPE_DIR else FTYPE_REG) + perm % 512, u.uid, u.gid);
    NameFits(name);
    MakeErrIs(v.geo, f, t, p, name, attr);
    AppendIndex(0, v.geo.blkSize);
    ghost var j, m;
    var err, grew;
    if dir {
      err, grew, m, t', j := Mkdir(v, p, name, perm, u.uid, u.gid, now, t);
      if err == Ok && !grew {
        CreatedTree(f, View(v), t, t', p, j, name, m, Dir(DotsEnts(v.geo.blkSize, m, p), 2));
      }
    } else {
      var ino;
      err, ino, grew, t', j := Create(v, p, name, perm, u.uid, u.gid, now, t);
      m := ino;
      if err == Ok && !grew {
        CreatedTree(f, View(v), t, t', p, j, name, ino, Leaf);
      }
    }
    r := Failed(err);
    if err != Ok {
      t' := t;
      MakeRefused(v.geo, WorldOf(f), p, name, dir, attr);
      Unchanged(f, turn);
      return;
    }
    bad := grew || IsDots(name);
    if !bad {
      MadeEnds(v.geo, f, View(v), t, t', p, j, name, m, dir, perm, u.uid, u.gid, now);
      EndedIs(f, View(v), turn);
    }
  }

  lemma NameFits(name: Block)
    requires LeafName(name)
    ensures name != []
  {
  }

  lemma MakeRefused(g: Geometry, w: World, p: nat, name: Block, dir: bool, attr: Attr)
    requires IsFolder(w, p)
    ensures MakeStep(g, w, p, name, dir, attr).err != Ok ==> MakeStep(g, w, p, name, dir, attr).world == w
  {
    hide FreshIno, Made, Full, IsDots;
  }

  lemma EndedIs(f: Fs, f': Fs, turn: Turn)
    requires Aligned(f) && Aligned(f') && WorldOf(f') == turn.world && (AllClear(f) ==> AllClear(f'))
    ensures Ended(f, f', turn)
  {
  }

  /** unlink or rmdir, once the path is resolved. */
  lemma TookEnds(g: Geometry, f: Fs, f': Fs, t: Nest, p: nat, name: Block, m: nat, dir: bool, rec: Inode)
    requires FsSized(g, f) && FsSized(g, f') && ValidBlkSize(g.blkSize) && PtrsPerNode(g.blkSize) > 1
    requires Shaped(g, f) && Tree(NsOf(f), t) && IsParent(g, f, p) && name != [] && Shaped(g, f')
    requires Removed(f, f', t, p, name, m, dir) && GoneFrom(g, f, f', p, m, rec) && AttrOf(rec) == AttrOf(f.inodes[p])
    requires IsFolder(WorldOf(f), p) && RemoveStep(g, WorldOf(f), p, name, dir).err == Ok
    ensures RemoveStep(g, WorldOf(f), p, name, dir).world == WorldOf(f') && (AllClear(f) ==> AllClear(f'))
  {
    hide TreeBut, GraphNode, Tidy, Live, Names, WorldOf, BytesOf, FsSized, ShapedAt, AllClear, TakenAway, IsDots,
      Hollow, Cost, RemoveNs, Placed, Childless, RemoveKeeps, GoneFrom;
    TookAway(g, f, f', t, p, name, m, dir, rec);
    RemovedStood(g, f, f', t, p, name, m, dir);
    NameIs(g, f, t, p, name, m);
    if AllClear(f) {
      TookKeepsLeaves(f, f', t, p, name, m, dir);
      ClearKept(g, f, f');
    }
  }

  lemma RemovedStood(g: Geometry, f: Fs, f': Fs, t: Nest, p: nat, name: Block, m: nat, dir: bool)
    requires Aligned(f) && Aligned(f') && Removed(f, f', t, p, name, m, dir)
    ensures StandsAt(f, t, m, p, name)
  {
    hide GraphNode, RemoveNs, Childless, RemoveKeeps;
  }

  method DoRemove(v: Volume, u: User, path: Block, dir: bool, now: nat, ghost t: Nest) returns (r: Reply)
    requires Sys(v, t) && CString(path) && now < LIMIT64
    modifies v, v.io.Repr()
    ensures Sys(v, t)
    ensures var turn := TakeTurn(v.geo, WorldOf(old(View(v))), u, path, dir);
            r == turn.reply && !turn.lost && Ended(old(View(v)), View(v), turn)
  {
    hide View, Good, FsSized, EntsOf, Bit, TreeBut, CString, GraphNode, ShapedAt, Removed, Resolved, UnlinkErr,
      RmdirFinds, LeafName, WorldOf, AllClear, RemoveStep, GoneFrom, Relinked, OnDisk, Backs, Ended;
    ghost var f := View(v);
    ghost var turn := TakeTurn(v.geo, WorldOf(f), u, path, dir);
    var a := Paths.Resolve(v, u.search, TAKE, path, t);
    if a.Fail? {
      Unchanged(f, turn);
      return Failed(a.err);
    }
    ResolvedEnds(v.geo, f, t, u.search, TAKE, path);
    var p, name := a.info.parent, a.info.name;
    NameFits(name);
    RemoveErrIs(v.geo, f, t, p, name);
    RemoveRefused(v.geo, WorldOf(f), p, name, dir);
    ghost var m;
    var err;
    ghost var rec := Stamp(f.inodes[p], Times(false, true, true), now);
    RelinkedAttr(f.inodes[p], -1, now);
    if dir {
      err, m := Rmdir(v, p, name, now, t);
      rec := Relinked(rec, -1, Times(false, false, true), now);
    } else {
      err, m := Unlink(v, p, name, now, t);
    }
    r := Failed(err);
    if err == Ok {
      RemovedTree(f, View(v), t, p, name, m, dir);
      TookEnds(v.geo, f, View(v), t, p, name, m, dir, rec);
      EndedIs(f, View(v), turn);
    } else {
      Unchanged(f, turn);
    }
  }

  lemma RemoveRefused(g: Geometry, w: World, p: nat, name: Block, dir: bool)
    requires IsFolder(w, p) && g.blkSize > 0 && PtrsPerNode(g.blkSize) > 0
    ensures RemoveStep(g, w, p, name, dir).err != Ok ==> RemoveStep(g, w, p, name, dir).world == w
    ensures !RemoveStep(g, w, p, name, dir).lost
  {
    hide TakeErr, TakenAway, IsDots;
  }

  method DoMove(v: Volume, u: User, from: Block, to: Block, now: nat, ghost t: Nest)
    returns (r: Reply, bad: bool, ghost t': Nest)
    requires Sys(v, t) && CString(from) && CString(to) && now < LIMIT64
    modifies v, v.io.Repr()
    ensures v.Valid() && if bad then Broken(v) && r.err == Ok else Sys(v, t')
    ensures var turn := MoveTurn(v.geo, WorldOf(old(View(v))), u, from, to);
            r == turn.reply && bad == turn.lost && (!bad ==> Ended(old(View(v)), View(v), turn))
  {
    hide View, Good, FsSized, EntsOf, Bit, TreeBut, CString, GraphNode, ShapedAt, Resolved, LeafName, IsDots, Treeless,
      Ownerless, WorldOf, AllClear, RenameStep, OnDisk, Backs, Ended;
    ghost var f := View(v);
    bad, t' := false, t;
    ghost var turn := MoveTurn(v.geo, WorldOf(f), u, from, to);
    var a := Paths.Resolve(v, u.search, TAKE, from, t);
    GoodValid(v);
    if a.Fail? {
      Unchanged(f, turn);
      return Failed(a.err), false, t;
    }
    ResolvedEnds(v.geo, f, t, u.search, TAKE, from);
    if IsDots(a.info.name) {
      Unchanged(f, turn);
      return Failed(EINVAL), false, t;
    }
    var b := Paths.Resolve(v, u.search, MAKE, to, t);
    GoodValid(v);
    if b.Fail? {
      Unchanged(f, turn);
      return Failed(b.err), false, t;
    }
    ResolvedEnds(v.geo, f, t, u.search, MAKE, to);
    var p, was, q, name := a.info.parent, a.info.name, b.info.parent, b.info.name;
    var err;
    err, bad, t' := MoveNode(v, p, was, q, name, now, t);
    r := Failed(err);
  }

  /** rename, once both paths are resolved. */
  method MoveNode(v: Volume, p: nat, was: Block, q: nat, name: Block, now: nat, ghost t: Nest)
    returns (err: Errno, bad: bool, ghost t': Nest)
    requires Sys(v, t) && IsParent(v.geo, View(v), p) && IsParent(v.geo, View(v), q) && now < LIMIT64
    requires LeafName(was) && LeafName(name)
    modifies v, v.io.Repr()
    ensures v.Valid() && if bad then Broken(v) && err == Ok else Sys(v, t')
    ensures IsFolder(WorldOf(old(View(v))), p) && IsFolder(WorldOf(old(View(v))), q)
    ensures var next := RenameStep(v.geo, WorldOf(old(View(v))), p, was, q, name);
            err == next.err && bad == next.lost && (!bad ==> Ended(old(View(v)), View(v), TurnOf(next)))
  {
    hide View, Good, FsSized, EntsOf, Bit, TreeBut, CString, GraphNode, ShapedAt, LeafName, IsDots, RenameOutcome,
      RenameVerdict, RenameGrows, NoHit, HasSlot, Treeless, Ownerless, WorldOf, AllClear, RenameStep, OnDisk, Backs,
      Ended, Swallows;
    ghost var f := View(v);
    NameFits(was);
    NameFits(name);
    ghost var f1, m, d, j;
    err, bad, t', f1, m, d, j := Rename(v, p, was, q, name, now, t);
    RenameLost(v.geo, f, t, p, was, q, name, m, d, err);
    if !bad {
      MoveEnds(v.geo, f, f1, View(v), t, t', p, was, q, name, m, d, j, err);
      EndedIs(f, View(v), TurnOf(RenameStep(v.geo, WorldOf(f), p, was, q, name)));
    }
  }

  lemma MoveEnds(g: Geometry, f: Fs, f1: Fs, f': Fs, t: Nest, t': Nest, p: nat, was: Block, q: nat, name: Block, m: nat,
                 d: nat, j: nat, err: Errno)
    requires FsSized(g, f) && FsSized(g, f') && ValidBlkSize(g.blkSize) && PtrsPerNode(g.blkSize) > 1
    requires Shaped(g, f) && Shaped(g, f') && Tree(NsOf(f), t) && Tree(NsOf(f'), t')
    requires IsParent(g, f, p) && IsParent(g, f, q) && was != [] && name != []
    requires RenameVerdict(g, f, t, p, was, q, name, m, d, err) && !(err == Ok && RenameGrows(f, p, was, q, name))
    requires RenameOutcome(g, f, f1, f', t, t', p, was, q, name, m, d, j, err)
    ensures IsFolder(WorldOf(f), p) && IsFolder(WorldOf(f), q)
    ensures RenameStep(g, WorldOf(f), p, was, q, name).world == WorldOf(f') && (AllClear(f) ==> AllClear(f'))
  {
    hide FsSized, EntsOf, Bit, TreeBut, GraphNode, ShapedAt, RenameOutcome, RenameVerdict, RenameGrows, NoHit, HasSlot,
      WorldOf, AllClear, RenameStep;
    RenameRefines(g, f, f1, f', t, t', p, was, q, name, m, d, j, err);
    if AllClear(f) {
      RenameKeepsLeaves(g, f, f1, f', t, t', p, was, q, name, m, d, j, err);
      ClearKept(g, f, f');
    }
  }

  /** Which renames make a directory grow, told from the world. */
  lemma RenameLost(g: Geometry, f: Fs, t: Nest, p: nat, was: Block, q: nat, name: Block, m: nat, d: nat, err: Errno)
    requires FsSized(g, f) && ValidBlkSize(g.blkSize) && PtrsPerNode(g.blkSize) > 1 && Shaped(g, f) && Tree(NsOf(f), t)
    requires IsParent(g, f, p) && IsParent(g, f, q) && was != [] && name != []
      && RenameVerdict(g, f, t, p, was, q, name, m, d, err)
    ensures IsFolder(WorldOf(f), p) && IsFolder(WorldOf(f), q)
    ensures RenameStep(g, WorldOf(f), p, was, q, name).err == err
    ensures RenameStep(g, WorldOf(f), p, was, q, name).lost <==> err == Ok && RenameGrows(f, p, was, q, name)
  {
    hide EntsOf, Bit, TreeBut, ShapedAt, NameMap, Tidy, WorldOf, NoHit, FsSized, IsDots, Hollow, OnlyDots, GraphNode,
      TakenAway, Shifting, Full, HasSlot, Above, IsAncestor, Placed, ReplaceErr, TakeErr, StandsAt, CanLink;
    RenameErrIs(g, f, t, p, was, q, name, m, d, err);
    NamesIs(g, f, t, p, was);
  }

  // ---------------------------------------------------------------- sessions

  lemma {:induction false} LostStays(g: Geometry, w: World, u: User, cmds: seq<Cmd>, i: nat)
    requires Usable(g) && i <= |cmds| && Told(g, w, u, cmds[..i]).lost
    ensures Told(g, w, u, cmds) == Told(g, w, u, cmds[..i])
    decreases |cmds|
  {
    hide TurnFor;
    if i < |cmds| {
      var most := cmds[..|cmds| - 1];
      assert most[..i] == cmds[..i];
      LostStays(g, w, u, most, i);
    } else {
      assert cmds[..i] == cmds;
    }
  }

  lemma {:induction false} TamePrefix(g: Geometry, w: World, u: User, cmds: seq<Cmd>, i: nat)
    requires Usable(g) && i <= |cmds| && TameSession(g, w, u, cmds)
    ensures TameSession(g, w, u, cmds[..i])
    decreases |cmds|
  {
    hide TameCmd, Told;
    if i < |cmds| {
      var most := cmds[..|cmds| - 1];
      assert most[..i] == cmds[..i];
      TamePrefix(g, w, u, most, i);
    } else {
      assert cmds[..i] == cmds;
    }
  }

  lemma NothingTold(g: Geometry, w: World, u: User, cmds: seq<Cmd>)
    requires Usable(g)
    ensures Told(g, w, u, cmds[..0]) == Story(w, [], false)
  {
  }

  /** The next command of a tame session is tame, and takes the story one turn on. */
  lemma ToldNext(g: Geometry, w: World, u: User, cmds: seq<Cmd>, i: nat)
    requires Usable(g) && i < |cmds| && TameSession(g, w, u, cmds) && !Told(g, w, u, cmds[..i]).lost
    ensures var s := Told(g, w, u, cmds[..i]);
            var turn := TurnFor(g, s.world, u, cmds[i]);
            && TameCmd(g, s.world, u, cmds[i])
            && Told(g, w, u, cmds[..i + 1]) == Story(turn.world, s.replies + [turn.reply], turn.lost)
  {
    hide TurnFor, TameCmd;
    assert cmds[..i + 1][..i] == cmds[..i];
    TamePrefix(g, w, u, cmds, i + 1);
  }

  /** A session is its first part and then the rest. */
  lemma {:induction false} ToldOn(g: Geometry, w: World, u: User, cmds: seq<Cmd>, more: seq<Cmd>)
    requires Usable(g) && !Told(g, w, u, cmds).lost
    ensures var a := Told(g, w, u, cmds);
            var b := Told(g, a.world, u, more);
            && Told(g, w, u, cmds + more) == Story(b.world, a.replies + b.replies, b.lost)
            && (TameSession(g, w, u, cmds + more) <==> TameSession(g, w, u, cmds) && TameSession(g, a.world, u, more))
    decreases |more|
  {
    hide TurnFor, TameCmd;
    var a := Told(g, w, u, cmds);
    if more == [] {
      assert cmds + more == cmds;
      assert a.replies + [] == a.replies;
    } else {
      var most := more[..|more| - 1];
      ToldOn(g, w, u, cmds, most);
      assert (cmds + more)[..|cmds + more| - 1] == cmds + most;
      var b := Told(g, a.world, u, most);
      assert !b.lost ==> a.replies + (b.replies + [TurnFor(g, b.world, u, more[|more| - 1]).reply])
                         == a.replies + b.replies + [TurnFor(g, b.world, u, more[|more| - 1]).reply];
    }
  }

  /** One command. */
  method DoCmd(v: Volume, u: User, c: Cmd, now: nat, ghost t: Nest) returns (r: Reply, bad: bool, ghost t': Nest)
    requires Sys(v, t) && WellFormed(c) && u.uid < LIMIT32 && u.gid < LIMIT32 && now < LIMIT64
    modifies v, v.io.Repr()
    ensures v.Valid() && if bad then Broken(v) && r.err == Ok else Sys(v, t')
    ensures var w := WorldOf(old(View(v)));
            old(AllClear(View(v))) && TameCmd(v.geo, w, u, c) ==>
              var turn := TurnFor(v.geo, w, u, c);
              r == turn.reply && bad == turn.lost && (!bad ==> WorldOf(View(v)) == turn.world && AllClear(View(v)))
  {
    hide View, Good, FsSized, Shaped, TreeBut, CString, Broken, OnDisk, Backs, WorldOf, AllClear, TameCmd, FileTurn,
      MakeTurn, TakeTurn, MoveTurn;
    bad, t' := false, t;
    match c {
      case DoFile(path, cmd) => r := DoContents(v, u, path, cmd, now, t);
      case DoCreate(path, perm) => r, bad, t' := DoNew(v, u, path, false, perm, now, t);
      case DoMkdir(path, perm) => r, bad, t' := DoNew(v, u, path, true, perm, now, t);
      case DoUnlink(path) => r := DoRemove(v, u, path, false, now, t);
      case DoRmdir(path) => r := DoRemove(v, u, path, true, now, t);
      case DoRename(from, to) => r, bad, t' := DoMove(v, u, from, to, now, t);
    }
    if !bad {
      GoodValid(v);
    }
  }

  /** Every session keeps every invariant: each block has one owner or is free, each file has the blocks its size calls
      for, the directory graph is a tree. It can only end early, with the command that made a directory grow a block or
      that planted a `.` or `..` in the root. A tame session is the session on the world, answer by answer. */
  method RunSession(v: Volume, u: User, cmds: seq<Cmd>, nows: seq<nat>, ghost t: Nest)
    returns (out: seq<Reply>, bad: bool, ghost t': Nest)
    requires Sys(v, t) && u.uid < LIMIT32 && u.gid < LIMIT32 && |nows| == |cmds|
    requires (forall i :: 0 <= i < |nows| ==> nows[i] < LIMIT64)
      && (forall i :: 0 <= i < |cmds| ==> WellFormed(cmds[i]))
    modifies v, v.io.Repr()
    ensures v.Valid() && |out| <= |cmds|
    ensures bad ==> Broken(v) && out != [] && out[|out| - 1].err == Ok
    ensures !bad ==> |out| == |cmds| && Sys(v, t') && AllSized(v.geo, View(v))
    ensures !bad ==> View(v).free + Held(View(v).inodes, PtrsPerNode(v.geo.blkSize)) == v.geo.dataBlkNum
    ensures var w := WorldOf(old(View(v)));
            old(AllClear(View(v))) && TameSession(v.geo, w, u, cmds) ==>
              var s := Told(v.geo, w, u, cmds);
              out == s.replies && bad == s.lost && (!bad ==> WorldOf(View(v)) == s.world && AllClear(View(v)))
  {
    hide View, Good, FsSized, Shaped, TreeBut, WellFormed, Held, AllSized, Broken, OnDisk, Backs, WorldOf, AllClear,
      TameCmd, TurnFor, Told, TameSession;
    ghost var f := View(v);
    ghost var w := WorldOf(f);
    ghost var tame := AllClear(f) && TameSession(v.geo, w, u, cmds);
    out, bad, t' := [], false, t;
    GoodValid(v);
    NothingTold(v.geo, w, u, cmds);
    var i := 0;
    while i < |cmds|
      invariant i <= |cmds| && |out| == i && v.Valid() && Sys(v, t')
      invariant tame ==> Told(v.geo, w, u, cmds[..i]) == Story(WorldOf(View(v)), out, false) && AllClear(View(v))
    {
      if tame {
        ToldNext(v.geo, w, u, cmds, i);
      }
      var r;
      r, bad, t' := DoCmd(v, u, cmds[i], nows[i], t');
      out := out + [r];
      if bad {
        if tame {
          LostStays(v.geo, w, u, cmds, i + 1);
        }
        return;
      }
      i := i + 1;
    }
    assert cmds[..|cmds|] == cmds;
    ShapedSized(v.geo, View(v));
    SpaceIsAll(v);
  }

  /** Two volumes with the same world answer a tame session alike: one may have a split cache, one a unified cache, one
      none, though each drops released blocks unwritten and hands them on. */
  method BuildsAgree(v: Volume, w: Volume, u: User, cmds: seq<Cmd>, nows: seq<nat>, ghost t: Nest, ghost t2: Nest)
    returns (a: seq<Reply>, b: seq<Reply>, badA: bool, badB: bool)
    requires Sys(v, t) && Sys(w, t2) && v.Repr() !! w.Repr() && v.geo == w.geo && WorldOf(View(v)) == WorldOf(View(w))
    requires AllClear(View(v)) && AllClear(View(w)) && TameSession(v.geo, WorldOf(View(v)), u, cmds)
    requires u.uid < LIMIT32 && u.gid < LIMIT32 && |nows| == |cmds|
    requires (forall i :: 0 <= i < |nows| ==> nows[i] < LIMIT64)
      && (forall i :: 0 <= i < |cmds| ==> WellFormed(cmds[i]))
    modifies v, v.io.Repr(), w, w.io.Repr()
    ensures a == b && badA == badB
    ensures !badA ==> Good(v) && Good(w) && WorldOf(View(v)) == WorldOf(View(w))
  {
    hide AllClear, Held, Owned, Volume.Valid, FsOf, WellFormed, TreeBut, ShapedAt, Told, TameSession, WorldOf,
      GraphNode, Broken;
    ghost var t', t2';
    a, badA, t' := RunSession(v, u, cmds, nows, t);
    b, badB, t2' := RunSession(w, u, cmds, nows, t2);
  }
}
