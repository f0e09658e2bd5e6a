/** Short sessions on a freshly formatted volume that end in a way one would not expect. */
module Scenarios {
  import opened Errors
  import opened Bytes
  import opened Layout
  import opened ListNodes
  import opened Volumes
  import opened FileData
  import opened FileRuns
  import opened Dirents
  import opened DirOps
  import opened Namespace
  import opened TreeShape
  import opened TreeOps
  import opened Worlds
  import opened Paths
  import opened WorldSteps
  import opened Sessions
  import opened Mounting

  /** A volume as mounting finds it after formatting. */
  ghost predicate Blank(v: Volume, t: Nest)
    reads v.Repr()
  {
    Sys(v, t) && WorldOf(View(v)) == FreshWorld(v.geo) && AllClear(View(v))
  }

  // ---------------------------------------------------------------- short paths

  predicate Plain(name: Block) {
    LeafName(name) && SLASH !in name
  }

  function Under(name: Block): Block {
    [SLASH] + name
  }

  lemma {:induction false} WholeHead(name: Block)
    requires SLASH !in name
    ensures Head(name) == |name|
  {
    if name != [] {
      WholeHead(name[1..]);
    }
  }

  lemma OneComponent(name: Block)
    requires Plain(name)
    ensures Components(Under(name)) == [name]
  {
    WholeHead(name);
    assert Under(name)[1..] == name && name[0] in name;
    assert name[..|name|] == name && name[|name|..] == [];
    assert Components(name) == [name];
  }

  lemma ResolveOne(w: World, search: Attr -> Errno, flags: Flags, name: Block)
    requires Plain(name) && flags.leaf
    ensures Resolved(w, search, flags, Under(name)) == Last(w, search, flags, ROOT_INODE, name)
  {
    hide Components, Last, Down;
    OneComponent(name);
  }

  /** The node a name in the directory `a` of the root leads to. */
  lemma ResolveTwo(w: World, search: Attr -> Errno, flags: Flags, a: Block, b: Block)
    requires Plain(a) && Plain(b) && flags.leaf && LookupAt(w, ROOT_INODE, a) >= 0
    ensures Resolved(w, search, flags, Under(a) + Under(b)) == Last(w, search, flags, LookupAt(w, ROOT_INODE, a), b)
  {
    hide Components, Last, LookupAt;
    OneComponent(a);
    OneComponent(b);
    ComponentsAppend(Under(a), Under(b));
    assert [a] + [b] == [a, b] && [a, b][1..] == [b];
    assert Walk(w, search, flags, ROOT_INODE, [a, b]) == Walk(w, search, flags, LookupAt(w, ROOT_INODE, a), [b]);
  }

  /** One more command. */
  lemma ToldLast(g: Geometry, w: World, u: User, cmds: seq<Cmd>, c: Cmd)
    requires Usable(g) && !Told(g, w, u, cmds).lost
    ensures var s := Told(g, w, u, cmds);
            var turn := TurnFor(g, s.world, u, c);
            && Told(g, w, u, cmds + [c]) == Story(turn.world, s.replies + [turn.reply], turn.lost)
            && (TameSession(g, w, u, cmds) && !c.DoFile? ==> TameSession(g, w, u, cmds + [c]))
  {
    hide TurnFor;
    assert (cmds + [c])[..|cmds|] == cmds;
  }

  // ---------------------------------------------------------------- a dot in the root

  lemma DotFits(g: Geometry, f: Fs, t: Nest)
    requires FsSized(g, f) && ValidBlkSize(g.blkSize) && PtrsPerNode(g.blkSize) > 1 && Shaped(g, f) && Tree(NsOf(f), t)
    requires WorldOf(f) == FreshWorld(g) && g.inodeNum > 3
    ensures IsParent(g, f, ROOT_INODE) && CreateErr(g, f, ROOT_INODE, Dot()) == Ok && HasSlot(f, ROOT_INODE)
  {
    hide FsSized, Shaped, TreeBut, GraphNode, WorldOf, CreateErr, HasSlot;
    RootIsDir(g, f, t);
    FirstGone(FreshWorld(g), 3);
    AppendIndex(0, g.blkSize);
    FullIs(g, f, t, ROOT_INODE);
    MakeErrIs(g, f, t, ROOT_INODE, Dot(), Attr(0, 0, 0));
  }

  /** The root of a fresh volume has no entry `.`, so that a file of that name can be made; no tree explains the
      result. */
  method DotInRoot(v: Volume, perm: nat, uid: nat, gid: nat, now: nat, ghost t: Nest) returns (err: Errno)
    requires Blank(v, t) && v.geo.inodeNum > 3 && uid < LIMIT32 && gid < LIMIT32 && now < LIMIT64
    modifies v, v.io.Repr()
    ensures err == Ok && Good(v) && Treeless(NsOf(View(v)))
  {
    hide Good, View, FsSized, Shaped, TreeBut, GraphNode, WorldOf, AllClear, OnDisk, Backs, Created, CreateErr, HasSlot,
      NewFile, Treeless, FreshWorld;
    ghost var f := View(v);
    DotFits(v.geo, f, t);
    var m, grew;
    ghost var t', j;
    err, m, grew, t', j := Create(v, ROOT_INODE, Dot(), perm, uid, gid, now, t);
    CreatedTree(f, View(v), t, t', ROOT_INODE, j, Dot(), m, Leaf);
  }

  // ---------------------------------------------------------------- one file too many

  /** The names of the files that fill the root: two bytes, for up to 4096 of them. */
  function Numbered(i: nat): (name: Block)
    requires i < 4096
    ensures Plain(name) && !IsDots(name)
  {
    [128 + i / 64, 128 + i % 64]
  }

  lemma NumberedApart(i: nat, j: nat)
    requires i < 4096 && j < 4096 && Numbered(i) == Numbered(j)
    ensures i == j
  {
    assert Numbered(i)[0] == Numbered(j)[0] && Numbered(i)[1] == Numbered(j)[1];
  }

  function Creates(perm: nat, k: nat): (c: seq<Cmd>)
    requires k <= 4096
    ensures |c| == k && forall i :: 0 <= i < k ==> WellFormed(c[i])
  {
    seq(k, i requires 0 <= i < k => DoCreate(Under(Numbered(i)), perm))
  }

  /** `k` files in the root of a fresh volume and nothing else. */
  ghost predicate Filled(g: Geometry, w: World, k: nat)
    requires k <= 4096
  {
    && |w.items| == g.inodeNum > 3 + k && w.free == g.dataBlkNum - 2 && IsFolder(w, ROOT_INODE)
    && |w.items[ROOT_INODE].names| == k
    && (forall i :: k <= i < 4096 ==> Numbered(i) !in w.items[ROOT_INODE].names)
    && (forall n :: ROOT_INODE < n < |w.items| ==> (w.items[n].Gone? <==> n >= 3 + k))
  }

  lemma FillStep(g: Geometry, w: World, u: User, perm: nat, k: nat)
    requires Usable(g) && k < PerBlock(g.blkSize) <= 2048 && g.inodeNum > 4 + k && g.dataBlkNum >= 2 && Filled(g, w, k)
    ensures var turn := TurnFor(g, w, u, DoCreate(Under(Numbered(k)), perm));
            turn.reply == Failed(Ok) && !turn.lost && Filled(g, turn.world, k + 1)
  {
    hide Resolved, Numbered;
    ResolveOne(w, u.search, MAKE, Numbered(k));
    FirstGone(w, 3 + k);
    forall i | k < i < 4096 ensures Numbered(i) != Numbered(k) {
      if Numbered(i) == Numbered(k) {
        NumberedApart(i, k);
      }
    }
  }

  lemma {:induction false} FillTold(g: Geometry, u: User, perm: nat, k: nat)
    requires Usable(g) && k <= PerBlock(g.blkSize) <= 2048 && g.inodeNum > 3 + k && g.dataBlkNum >= 2
    ensures var s := Told(g, FreshWorld(g), u, Creates(perm, k));
            && s.replies == seq(k, _ => Failed(Ok)) && !s.lost && Filled(g, s.world, k)
            && TameSession(g, FreshWorld(g), u, Creates(perm, k))
  {
    hide TurnFor, Filled, Numbered;
    if k == 0 {
      BlankFilled(g);
    } else {
      FillTold(g, u, perm, k - 1);
      var cmds, c := Creates(perm, k - 1), DoCreate(Under(Numbered(k - 1)), perm);
      FillStep(g, Told(g, FreshWorld(g), u, cmds).world, u, perm, k - 1);
      ToldLast(g, FreshWorld(g), u, cmds, c);
      assert Creates(perm, k) == cmds + [c];
      assert seq(k, _ => Failed(Ok)) == seq(k - 1, _ => Failed(Ok)) + [Failed(Ok)];
    }
  }

  lemma BlankFilled(g: Geometry)
    requires g.inodeNum > 3
    ensures Filled(g, FreshWorld(g), 0)
  {
    hide Numbered;
  }

  /** With its slots used up and two blocks free, the root grows with the next name. */
  lemma FullRootGrows(g: Geometry, f: Fs, t: Nest, child: nat)
    requires FsSized(g, f) && ValidBlkSize(g.blkSize) && PtrsPerNode(g.blkSize) > 1 && Shaped(g, f) && Tree(NsOf(f), t)
    requires PerBlock(g.blkSize) <= 2048 && Filled(g, WorldOf(f), PerBlock(g.blkSize)) && g.dataBlkNum >= 4
    requires ROOT_INODE < child < g.inodeNum
    ensures Grows(g, f, ROOT_INODE, Numbered(PerBlock(g.blkSize)), child)
  {
    hide EntsOf, Bit, TreeBut, ShapedAt, NameMap, Tidy, WorldOf, NoHit, FsSized, AddErr, Numbered, CanLink, HasSlot,
      NoName;
    var name := Numbered(PerBlock(g.blkSize));
    RootIsDir(g, f, t);
    ParentIs(g, f, t, ROOT_INODE);
    FullIs(g, f, t, ROOT_INODE);
    NamesIs(g, f, t, ROOT_INODE, name);
    MissingName(EntsIn(f, ROOT_INODE), name);
    LinkErr(g, f, f, ROOT_INODE, name, child);
  }

  lemma NextFits(g: Geometry, f: Fs, t: Nest)
    requires FsSized(g, f) && ValidBlkSize(g.blkSize) && PtrsPerNode(g.blkSize) > 1 && Shaped(g, f) && Tree(NsOf(f), t)
    requires PerBlock(g.blkSize) <= 2048 && Filled(g, WorldOf(f), PerBlock(g.blkSize)) && g.dataBlkNum >= 4
    requires g.inodeNum > 4 + PerBlock(g.blkSize)
    ensures var name := Numbered(PerBlock(g.blkSize));
            IsParent(g, f, ROOT_INODE) && CreateErr(g, f, ROOT_INODE, name) == Ok && !HasSlot(f, ROOT_INODE)
  {
    hide Shaped, TreeBut, GraphNode, WorldOf, CreateErr, HasSlot, Numbered;
    RootIsDir(g, f, t);
    FirstGone(WorldOf(f), 3 + PerBlock(g.blkSize));
    FullIs(g, f, t, ROOT_INODE);
    MakeErrIs(g, f, t, ROOT_INODE, Numbered(PerBlock(g.blkSize)), Attr(0, 0, 0));
  }

  /** The root of a fresh volume takes as many files as a block has slots. The next one is made, and after it no
      assignment of blocks to files explains the volume. */
  method OneTooMany(v: Volume, u: User, perm: nat, nows: seq<nat>, now: nat, ghost t: Nest)
    returns (out: seq<Reply>, err: Errno)
    requires Blank(v, t) && v.geo.inodeNum > 4 + PerBlock(v.geo.blkSize) && v.geo.dataBlkNum >= 4 && now < LIMIT64
    requires u.uid < LIMIT32 && u.gid < LIMIT32 && |nows| == PerBlock(v.geo.blkSize)
    requires forall i :: 0 <= i < |nows| ==> nows[i] < LIMIT64
    modifies v, v.io.Repr()
    ensures out == seq(PerBlock(v.geo.blkSize), _ => Failed(Ok)) && err == Ok && v.Valid() && Ownerless(v.geo, v.vol)
  {
    hide Good, View, FsSized, Shaped, TreeBut, GraphNode, WorldOf, AllClear, OnDisk, Backs, Created, CreateErr, HasSlot,
      NewFile, Ownerless, Told, TameSession, FreshWorld, WellFormed, Broken, AllSized, Numbered, Filled;
    var k := PerBlock(v.geo.blkSize);
    SlotsBelow(v.geo.blkSize);
    FillTold(v.geo, u, perm, k);
    var bad;
    ghost var t', j;
    out, bad, t' := RunSession(v, u, Creates(perm, k), nows, t);
    NextFits(v.geo, View(v), t');
    var m, grew;
    err, m, grew, t', j := Create(v, ROOT_INODE, Numbered(k), perm, u.uid, u.gid, now, t');
  }

  lemma SlotsBelow(bs: nat)
    requires ValidBlkSize(bs)
    ensures 16 <= PerBlock(bs) <= 2048
  {
  }

  // ---------------------------------------------------------------- a rename that costs its destination

  const A: Block := [97]
  const B: Block := [98]

  /** mkdir /a, mkdir /a/b, rename /a to /a/b. */
  function Swallow(perm: nat): seq<Cmd> {
    [DoMkdir(Under(A), perm)] + [DoMkdir(Under(A) + Under(B), perm)] + [DoRename(Under(A), Under(A) + Under(B))]
  }

  ghost function Attrs(u: User, perm: nat): Attr {
    Attr(FTYPE_DIR + perm % 512, u.uid, u.gid)
  }

  lemma MadeA(g: Geometry, u: User, perm: nat)
    requires Usable(g) && PerBlock(g.blkSize) > 2 && g.inodeNum > 4 && g.dataBlkNum >= 6
    ensures var w := FreshWorld(g);
            && IsFolder(w, ROOT_INODE)
            && TurnFor(g, w, u, DoMkdir(Under(A), perm))
              == Turn(Made(w, ROOT_INODE, A, 3, true, Attrs(u, perm)), Failed(Ok), false)
  {
    hide Resolved;
    ResolveOne(FreshWorld(g), u.search, MAKE, A);
    FirstGone(FreshWorld(g), 3);
  }

  ghost function WithA(g: Geometry, u: User, perm: nat): World
    requires g.inodeNum > 4
  {
    Made(FreshWorld(g), ROOT_INODE, A, 3, true, Attrs(u, perm))
  }

  ghost function WithB(g: Geometry, u: User, perm: nat): World
    requires g.inodeNum > 4
  {
    Made(WithA(g, u, perm), 3, B, 4, true, Attrs(u, perm))
  }

  lemma MadeB(g: Geometry, u: User, perm: nat)
    requires Usable(g) && PerBlock(g.blkSize) > 2 && g.inodeNum > 4 && g.dataBlkNum >= 6
      && u.search(Attrs(u, perm)) == Ok
    ensures TurnFor(g, WithA(g, u, perm), u, DoMkdir(Under(A) + Under(B), perm))
      == Turn(WithB(g, u, perm), Failed(Ok), false)
  {
    hide Resolved;
    var w := WithA(g, u, perm);
    ResolveTwo(w, u.search, MAKE, A, B);
    FirstGone(w, 4);
    assert |map[Dot() := 3, DotDot() := ROOT_INODE]| <= 2;
  }

  /** The destination is taken away, then the rename is refused. */
  lemma Refusal(g: Geometry, u: User, perm: nat)
    requires Usable(g) && g.inodeNum > 4 && u.search(Attrs(u, perm)) == Ok
    ensures var w := WithB(g, u, perm);
            && LookupAt(w, 3, B) == 4 && w.items[4].Folder?
            && TurnFor(g, w, u, DoRename(Under(A), Under(A) + Under(B)))
              == Turn(TakenAway(g, w, 3, B, 4), Failed(EINVAL), false)
  {
    hide Resolved;
    var w := WithB(g, u, perm);
    ResolveOne(w, u.search, TAKE, A);
    ResolveTwo(w, u.search, MAKE, A, B);
    assert OnPath(ParentsIn(w), 3, 3, 0);
  }

  lemma SwallowTold(g: Geometry, u: User, perm: nat)
    requires Usable(g) && PerBlock(g.blkSize) > 2 && g.inodeNum > 4 && g.dataBlkNum >= 6
      && u.search(Attrs(u, perm)) == Ok
    ensures TameSession(g, FreshWorld(g), u, Swallow(perm))
    ensures var w := WithB(g, u, perm);
            && w.items[4].Folder? && LookupAt(w, 3, B) == 4
            && Told(g, FreshWorld(g), u, Swallow(perm))
               == Story(TakenAway(g, w, 3, B, 4), [Failed(Ok), Failed(Ok), Failed(EINVAL)], false)
  {
    hide TurnFor, FreshWorld, Made, TakenAway;
    var w := FreshWorld(g);
    MadeA(g, u, perm);
    MadeB(g, u, perm);
    Refusal(g, u, perm);
    var none: seq<Cmd> := [];
    var first, second := [DoMkdir(Under(A), perm)], DoMkdir(Under(A) + Under(B), perm);
    assert none + first == first;
    ToldLast(g, w, u, none, first[0]);
    ToldLast(g, w, u, first, second);
    ToldLast(g, w, u, first + [second], DoRename(Under(A), Under(A) + Under(B)));
  }

  /** Rename `/a` to `/a/b`, where `/a/b` is an empty directory: the answer is EINVAL, and `/a/b` is gone. */
  method RenameIntoChild(v: Volume, u: User, perm: nat, nows: seq<nat>, ghost t: Nest) returns (out: seq<Reply>)
    requires Blank(v, t) && v.geo.inodeNum > 4 && v.geo.dataBlkNum >= 6 && u.search(Attrs(u, perm)) == Ok
    requires u.uid < LIMIT32 && u.gid < LIMIT32 && |nows| == 3 && forall i :: 0 <= i < |nows| ==> nows[i] < LIMIT64
    modifies v, v.io.Repr()
    ensures out == [Failed(Ok), Failed(Ok), Failed(EINVAL)] && Good(v)
    ensures var w := WorldOf(View(v)); w.items[3].Folder? && w.items[4].Gone? && LookupAt(w, 3, B) == -1
  {
    hide Good, View, FsSized, Shaped, TreeBut, WorldOf, AllClear, OnDisk, Backs, Told, TameSession, FreshWorld, Broken,
      AllSized;
    SlotsBelow(v.geo.blkSize);
    SwallowTold(v.geo, u, perm);
    var bad;
    ghost var t';
    out, bad, t' := RunSession(v, u, Swallow(perm), nows, t);
  }
}
