/** Path resolution: a token loop over the path, meant as a walk along its components. */
module Paths {
  import opened Errors
  import opened Bytes
  import opened Layout
  import opened Volumes
  import opened Ownership
  import opened FileData
  import opened FileOps
  import opened Dirents
  import opened DirOps
  import opened Namespace
  import opened TreeShape
  import opened TreeOps
  import opened Worlds

  const SLASH: byte := 47

  // ---------------------------------------------------------------- components

  /** Length of the part before the first slash. */
  function Head(p: Block): (k: nat)
    ensures k <= |p| && (k < |p| ==> p[k] == SLASH) && forall i :: 0 <= i < k ==> p[i] != SLASH
  {
    if p == [] || p[0] == SLASH then 0 else 1 + Head(p[1..])
  }

  /** The non-empty parts between slashes. */
  function Components(p: Block): seq<Block>
    decreases |p|
  {
    if p == [] then []
    else if p[0] == SLASH then Components(p[1..])
    else [p[..Head(p)]] + Components(p[Head(p)..])
  }

  lemma {:induction false} HeadAppend(a: Block, b: Block)
    requires b == [] || b[0] == SLASH
    ensures Head(a + b) == Head(a)
  {
    if a == [] {
      assert a + b == b;
    } else if a[0] != SLASH {
      HeadAppend(a[1..], b);
      assert (a + b)[1..] == a[1..] + b;
    }
  }

  /** At a slash, a path falls apart into the components before and after it. */
  lemma {:induction false} ComponentsAppend(a: Block, b: Block)
    requires b == [] || b[0] == SLASH
    ensures Components(a + b) == Components(a) + Components(b)
    decreases |a|
  {
    if a == [] {
      assert a + b == b;
    } else if a[0] == SLASH {
      ComponentsAppend(a[1..], b);
      assert (a + b)[1..] == a[1..] + b;
    } else {
      HeadAppend(a, b);
      var k := Head(a);
      ComponentsAppend(a[k..], b);
      assert (a + b)[..k] == a[..k] && (a + b)[k..] == a[k..] + b;
    }
  }

  /** Repeated and trailing slashes make no difference. */
  lemma SlashesDoNotMatter(a: Block, b: Block)
    ensures Components(a + [SLASH] + [SLASH] + b) == Components(a + [SLASH] + b)
    ensures Components(a + [SLASH]) == Components(a)
  {
    var s: Block := [SLASH];
    ComponentsAppend(a, s + s + b);
    ComponentsAppend(a, s + b);
    ComponentsAppend(a, s);
    assert a + s + s + b == a + (s + s + b) && a + s + b == a + (s + b);
    assert (s + s + b)[1..] == s + b && (s + b)[1..] == b;
    assert Components(s) == Components(s[1..]);
    assert s[1..] == [];
  }

  lemma {:induction false} ComponentNames(p: Block)
    requires CString(p)
    ensures forall i :: 0 <= i < |Components(p)| ==> CString(Components(p)[i]) && Components(p)[i] != []
    decreases |p|
  {
    if p != [] {
      if p[0] == SLASH {
        ComponentNames(p[1..]);
      } else {
        ComponentNames(p[Head(p)..]);
      }
    }
  }

  /** One call of strtok: the next component and where the search goes on. */
  method Token(p: Block, at: nat) returns (found: bool, tok: Block, next: nat)
    requires at <= |p|
    ensures next <= |p|
    ensures found ==> Components(p[at..]) == [tok] + Components(p[next..]) && next > at
    ensures !found ==> Components(p[at..]) == []
  {
    var i := at;
    while i < |p| && p[i] == SLASH
      invariant at <= i <= |p| && Components(p[at..]) == Components(p[i..])
    {
      assert p[i..][1..] == p[i + 1..];
      i := i + 1;
    }
    if i == |p| {
      return false, [], i;
    }
    var j := i;
    while j < |p| && p[j] != SLASH
      invariant i <= j <= |p| && Head(p[i..]) == (j - i) + Head(p[j..])
    {
      assert p[j..][1..] == p[j + 1..];
      j := j + 1;
    }
    assert p[i..][..j - i] == p[i..j] && p[i..][j - i..] == p[j..];
    return true, p[i..j], j;
  }

  // ---------------------------------------------------------------- the walk

  /** Inode numbers the path leads to; -1 where the caller did not ask or the name is missing. */
  datatype Info = Info(parent: int, leaf: int, found: bool, name: Block)

  datatype Result = Done(info: Info) | Fail(err: Errno)

  /** What the caller wants: the last node, its directory, and whether the last name may be missing. */
  datatype Flags = Flags(leaf: bool, parent: bool, missing: bool)

  /** The number directory `d` has under this name, or -1. */
  ghost function LookupAt(w: World, d: nat, name: Block): int {
    if d < |w.items| && w.items[d].Folder? && name in w.items[d].names then w.items[d].names[name] else -1
  }

  /** check_parent_traverse: the root is open to everybody, any other node must be a directory that grants search. */
  ghost function Search(w: World, search: Attr -> Errno, d: nat): Errno {
    if d == ROOT_INODE then Ok
    else if d >= |w.items| then EINVAL
    else if !w.items[d].Folder? then ENOTDIR
    else search(w.items[d].attr)
  }

  /** The last component, looked for in `d`. */
  ghost function Last(w: World, search: Attr -> Errno, flags: Flags, d: nat, name: Block): Result {
    var parent := if flags.parent then d else -1;
    if |name| >= FILENAME_LEN then Fail(ENAMETOOLONG)
    else if !flags.leaf then Done(Info(parent, -1, false, name))
    else if Search(w, search, d) != Ok then Fail(Search(w, search, d))
    else
      var ino := LookupAt(w, d, name);
      if ino >= 0 then Done(Info(parent, ino, true, name))
      else if flags.missing then Done(Info(parent, -1, false, name))
      else Fail(ENOENT)
  }

  /** One step down from `d`. */
  ghost function Down(w: World, search: Attr -> Errno, d: nat, name: Block): (Errno, int) {
    if Search(w, search, d) != Ok then (Search(w, search, d), -1)
    else if LookupAt(w, d, name) < 0 then (ENOENT, -1)
    else (Ok, LookupAt(w, d, name))
  }

  /** The walk from directory `d` along the components: the first step that fails decides the error. */
  ghost function Walk(w: World, search: Attr -> Errno, flags: Flags, d: nat, comps: seq<Block>): Result
    requires comps != []
    decreases |comps|
  {
    if |comps| == 1 then Last(w, search, flags, d, comps[0])
    else
      var step := Down(w, search, d, comps[0]);
      if step.0 != Ok then Fail(step.0) else Walk(w, search, flags, step.1, comps[1..])
  }

  /** The directory the leading components lead to, or the error of the first that fails. */
  ghost function WalkDirs(w: World, search: Attr -> Errno, d: nat, comps: seq<Block>): (Errno, int)
    decreases |comps|
  {
    if comps == [] then (Ok, d)
    else
      var step := Down(w, search, d, comps[0]);
      if step.0 != Ok then (step.0, -1) else WalkDirs(w, search, step.1, comps[1..])
  }

  /** A walk is the walk along its front followed by the walk along its rest. */
  lemma {:induction false} WalkAppend(w: World, search: Attr -> Errno, flags: Flags, d: nat, a: seq<Block>,
                                      b: seq<Block>)
    requires b != []
    ensures var front := WalkDirs(w, search, d, a);
            && (front.0 == Ok ==> front.1 >= 0)
            && Walk(w, search, flags, d, a + b) == if front.0 != Ok then Fail(front.0)
              else Walk(w, search, flags, front.1, b)
    decreases |a|
  {
    hide Down, Last;
    if a == [] {
      assert a + b == b;
    } else {
      var step := Down(w, search, d, a[0]);
      DownBound(w, search, d, a[0]);
      assert (a + b)[1..] == a[1..] + b && (a + b)[0] == a[0];
      if step.0 == Ok {
        WalkAppend(w, search, flags, step.1, a[1..], b);
      }
    }
  }

  lemma DownBound(w: World, search: Attr -> Errno, d: nat, name: Block)
    ensures Down(w, search, d, name).0 == Ok ==> Down(w, search, d, name).1 >= 0
  {
  }

  /** A walk that succeeds searched only directories that granted it. */
  lemma {:induction false} WalkGranted(w: World, search: Attr -> Errno, flags: Flags, d: nat, comps: seq<Block>, i: nat)
    requires comps != [] && Walk(w, search, flags, d, comps).Done?
      && (i < |comps| - 1 || (i == |comps| - 1 && flags.leaf))
    ensures var at := WalkDirs(w, search, d, comps[..i]);
            at.0 == Ok && at.1 >= 0 && Search(w, search, at.1) == Ok && Open(w, search, at.1)
    decreases |comps|
  {
    hide LookupAt;
    if i == 0 {
      assert comps[..0] == [];
    } else {
      var step := Down(w, search, d, comps[0]);
      assert comps[..i][0] == comps[0] && comps[..i][1..] == comps[1..][..i - 1];
      WalkGranted(w, search, flags, step.1, comps[1..], i - 1);
    }
  }

  // ---------------------------------------------------------------- trails

  /** Directory `d` grants search: the root does, any other node has to be a directory whose attributes do. */
  ghost predicate Open(w: World, search: Attr -> Errno, d: nat) {
    d == 2 || (d < |w.items| && w.items[d].Folder? && search(w.items[d].attr) == Ok)
  }

  /** Directory `d` has node `e` under this name. */
  ghost predicate Leads(w: World, d: nat, name: Block, e: nat) {
    d < |w.items| && w.items[d].Folder? && name in w.items[d].names && w.items[d].names[name] == e
  }

  ghost predicate Missing(w: World, d: nat, name: Block) {
    d < |w.items| && w.items[d].Folder? ==> name !in w.items[d].names
  }

  /** The directories along the components, from `d`: each but the last grants search and has the next under its
      name. */
  ghost predicate Trail(w: World, search: Attr -> Errno, d: nat, comps: seq<Block>, trail: seq<nat>) {
    && 0 < |trail| <= |comps| && trail[0] == d
    && (forall i :: 0 <= i < |trail| - 1 ==> Open(w, search, trail[i]) && Leads(w, trail[i], comps[i], trail[i + 1]))
  }

  /** What a directory that does not grant search answers. */
  ghost function Barred(w: World, search: Attr -> Errno, d: nat): Errno {
    if d >= |w.items| then EINVAL else if !w.items[d].Folder? then ENOTDIR else search(w.items[d].attr)
  }

  /** The walk follows the trail. */
  lemma {:induction false} TrailWalk(w: World, search: Attr -> Errno, flags: Flags, d: nat, comps: seq<Block>,
                                     trail: seq<nat>)
    requires Trail(w, search, d, comps, trail)
    ensures Walk(w, search, flags, d, comps)
            == Walk(w, search, flags, trail[|trail| - 1], comps[|trail| - 1..])
    decreases |trail|
  {
    if |trail| == 1 {
      assert comps[0..] == comps;
    } else {
      var rest := trail[1..];
      assert Open(w, search, trail[0]) && Leads(w, trail[0], comps[0], trail[1]);
      assert Trail(w, search, trail[1], comps[1..], rest) by {
        forall i | 0 <= i < |rest| - 1
          ensures Open(w, search, rest[i]) && Leads(w, rest[i], comps[1..][i], rest[i + 1])
        {
          assert Open(w, search, trail[i + 1]) && Leads(w, trail[i + 1], comps[i + 1], trail[i + 2]);
        }
      }
      TrailWalk(w, search, flags, trail[1], comps[1..], rest);
      assert comps[1..][|rest| - 1..] == comps[|trail| - 1..];
    }
  }

  /** The first directory that does not grant search decides the error. */
  lemma TrailBarred(w: World, search: Attr -> Errno, flags: Flags, d: nat, comps: seq<Block>, trail: seq<nat>)
    requires Trail(w, search, d, comps, trail) && !Open(w, search, trail[|trail| - 1])
    requires |trail| == |comps| ==> flags.leaf && |comps[|comps| - 1]| < 28
    ensures Walk(w, search, flags, d, comps) == Fail(Barred(w, search, trail[|trail| - 1]))
  {
    TrailWalk(w, search, flags, d, comps, trail);
  }

  /** A component but the last that is missing ends the walk. */
  lemma TrailMissing(w: World, search: Attr -> Errno, flags: Flags, d: nat, comps: seq<Block>, trail: seq<nat>)
    requires Trail(w, search, d, comps, trail) && Open(w, search, trail[|trail| - 1]) && |trail| < |comps|
    requires Missing(w, trail[|trail| - 1], comps[|trail| - 1])
    ensures Walk(w, search, flags, d, comps) == Fail(ENOENT)
  {
    TrailWalk(w, search, flags, d, comps, trail);
  }

  /** A trail to the last directory: the last name is too long, found there, or missing. A caller that did not ask for
      the last node gets its name and does not need search there. */
  lemma TrailEnds(w: World, search: Attr -> Errno, flags: Flags, d: nat, comps: seq<Block>, trail: seq<nat>)
    requires Trail(w, search, d, comps, trail) && |trail| == |comps|
    ensures var p, name := trail[|trail| - 1], comps[|comps| - 1];
            var r := Walk(w, search, flags, d, comps);
            var parent: int := if flags.parent then p as int else -1;
            && (|name| >= 28 ==> r == Fail(ENAMETOOLONG))
            && (|name| < 28 && !flags.leaf ==> r == Done(Info(parent, -1, false, name)))
            && (|name| < 28 && flags.leaf && Open(w, search, p) ==>
                  && (forall m: nat :: Leads(w, p, name, m) ==> r == Done(Info(parent, m, true, name)))
                  && (Missing(w, p, name) && flags.missing ==> r == Done(Info(parent, -1, false, name)))
                  && (Missing(w, p, name) && !flags.missing ==> r == Fail(ENOENT)))
  {
    TrailWalk(w, search, flags, d, comps, trail);
    assert comps[|comps| - 1..] == [comps[|comps| - 1]];
  }

  /** A walk that succeeds has gone along such a trail, up to a directory that granted search. */
  lemma {:induction false} WalkTrail(w: World, search: Attr -> Errno, flags: Flags, d: nat, comps: seq<Block>)
    returns (trail: seq<nat>)
    requires comps != [] && flags.leaf && Walk(w, search, flags, d, comps).Done?
    ensures Trail(w, search, d, comps, trail) && |trail| == |comps| && Open(w, search, trail[|trail| - 1])
      && |comps[|comps| - 1]| < 28
    decreases |comps|
  {
    if |comps| == 1 {
      trail := [d];
    } else {
      var step := Down(w, search, d, comps[0]);
      var rest := WalkTrail(w, search, flags, step.1, comps[1..]);
      trail := [d] + rest;
      assert Leads(w, d, comps[0], step.1);
      forall i | 0 <= i < |trail| - 1
        ensures Open(w, search, trail[i]) && Leads(w, trail[i], comps[i], trail[i + 1])
      {
        if i > 0 {
          assert Open(w, search, rest[i - 1]) && Leads(w, rest[i - 1], comps[1..][i - 1], rest[i]);
        }
      }
    }
  }

  ghost function Resolved(w: World, search: Attr -> Errno, flags: Flags, path: Block): Result {
    if path == [] || path[0] != SLASH || (!flags.leaf && !flags.parent)
      || (flags.missing && !flags.leaf) then Fail(EINVAL)
    else if path == [SLASH] then (if flags.parent then Fail(EINVAL) else Done(Info(-1, ROOT_INODE, true, [])))
    else if Components(path) == [] then Fail(EINVAL)
    else Walk(w, search, flags, ROOT_INODE, Components(path))
  }

  /** Beyond the root itself, only the components of a path count. */
  lemma SameComponents(w: World, search: Attr -> Errno, flags: Flags, a: Block, b: Block)
    requires a != [] && b != [] && a[0] == SLASH && b[0] == SLASH && Components(a) == Components(b) != []
    ensures Resolved(w, search, flags, a) == Resolved(w, search, flags, b)
  {
    hide Walk;
    RootAlone();
  }

  lemma RootAlone()
    ensures Components([SLASH]) == []
  {
    var s: Block := [SLASH];
    assert s[1..] == [];
  }

  lemma RootIsDir(g: Geometry, f: Fs, t: Nest)
    requires Shaped(g, f) && Tree(NsOf(f), t)
    ensures ROOT_INODE < g.inodeNum == |f.inodes| && IsParent(g, f, ROOT_INODE)
  {
    hide EntsOf, Bit, AllLead, AllPlaced, AllDotted, AllLinked, AllRooted, AllTidy;
    assert NsOf(f)[ROOT_INODE].Dir?;
  }

  /** A directory of the world is a directory of the volume, with the names of its slots. */
  lemma FolderIs(g: Geometry, f: Fs, t: Nest, d: nat)
    requires Shaped(g, f) && Tree(NsOf(f), t) && d < g.inodeNum
    ensures WorldOf(f).items[d].Folder? <==> IsDir(f.inodes[d])
    ensures IsDir(f.inodes[d]) ==>
              && NsOf(f)[d] == Dir(EntsIn(f, d), f.inodes[d].links) && Tidy(EntsIn(f, d))
              && WorldOf(f).items[d] == Folder(AttrOf(f.inodes[d]), f.inodes[d].links, NameMap(EntsIn(f, d)))
  {
    hide EntsOf, Bit, TreeBut, ShapedAt, NameMap, Tidy;
    if IsDir(f.inodes[d]) {
      ParentIs(g, f, t, d);
    }
  }

  /** check_parent_traverse, for callers that ask for access checks. */
  method MaySearch(v: Volume, search: Attr -> Errno, d: nat, ghost t: Nest) returns (err: Errno)
    requires Sys(v, t) && d < v.geo.inodeNum
    modifies v.io.Repr()
    ensures Good(v) && View(v) == old(View(v)) && err == Search(WorldOf(View(v)), search, d)
  {
    hide Good, View, FsSized, Bit, OnDisk, Backs, TreeBut, Shaped;
    FolderIs(v.geo, View(v), t, d);
    if d == ROOT_INODE {
      return Ok;
    }
    var rec;
    err, rec := GetInode(v, d);
    if !IsDir(rec) {
      return ENOTDIR;
    }
    return search(AttrOf(rec));
  }

  /** Search `name` in `d`: check_parent_traverse, then find_dir_entry. */
  method SearchIn(v: Volume, search: Attr -> Errno, d: nat, name: Block, ghost t: Nest)
    returns (may: Errno, found: bool, child: nat)
    requires Sys(v, t) && d < v.geo.inodeNum && name != []
    modifies v.io.Repr()
    ensures Good(v) && View(v) == old(View(v)) && may == Search(WorldOf(View(v)), search, d)
    ensures may == Ok ==> LookupAt(WorldOf(View(v)), d, name) == if found then child else -1
    ensures may == Ok && found ==> child < v.geo.inodeNum
  {
    hide Good, View, FsSized, Bit, EntsOf, TreeBut, ShapedAt, NoHit, Live, IsDots, Tidy, GraphNode, NameMap, Search,
      WorldOf, OnDisk, Backs;
    found, child := false, 0;
    ghost var f := View(v);
    RootIsDir(v.geo, f, t);
    may := MaySearch(v, search, d, t);
    if may != Ok {
      return;
    }
    SearchedIsDir(v.geo, f, t, search, d);
    FolderIs(v.geo, f, t, d);
    ParentIs(v.geo, f, t, d);
    NameThereIff(EntsIn(f, d), name);
    var err;
    ghost var e;
    err, child, e := Find(v, d, name);
    if err == Ok {
      found := true;
      FoundNode(v.geo, f, t, d, name, e, child);
      NameThere(EntsIn(f, d), name, e);
    }
  }

  lemma SearchedIsDir(g: Geometry, f: Fs, t: Nest, search: Attr -> Errno, d: nat)
    requires Shaped(g, f) && Tree(NsOf(f), t) && d < g.inodeNum && Search(WorldOf(f), search, d) == Ok
    ensures IsParent(g, f, d)
  {
    hide EntsOf, Bit, TreeBut, GraphNode, ShapedAt, WorldOf;
    RootIsDir(g, f, t);
    FolderIs(g, f, t, d);
  }

  /** The last component of a path. */
  method ResolveLast(v: Volume, search: Attr -> Errno, flags: Flags, d: nat, name: Block, ghost t: Nest)
    returns (r: Result)
    requires Sys(v, t) && d < v.geo.inodeNum && name != []
    modifies v.io.Repr()
    ensures Good(v) && View(v) == old(View(v)) && r == Last(WorldOf(View(v)), search, flags, d, name)
  {
    hide Good, View, FsSized, Bit, EntsOf, TreeBut, Shaped, LookupAt, Search, WorldOf, OnDisk, Backs;
    if |name| >= FILENAME_LEN {
      return Fail(ENAMETOOLONG);
    }
    var parent := if flags.parent then d else -1;
    if !flags.leaf {
      return Done(Info(parent, -1, false, name));
    }
    var may, found, child := SearchIn(v, search, d, name, t);
    if may != Ok {
      return Fail(may);
    }
    if found {
      return Done(Info(parent, child, true, name));
    }
    return if flags.missing then Done(Info(parent, -1, false, name)) else Fail(ENOENT);
  }

  method TokenIn(ghost v: Volume, p: Block, at: nat) returns (found: bool, tok: Block, next: nat)
    requires Good(v) && at <= |p|
    ensures Good(v) && View(v) == old(View(v))
    ensures next <= |p|
    ensures found ==> Components(p[at..]) == [tok] + Components(p[next..]) && next > at
    ensures !found ==> Components(p[at..]) == []
  {
    hide Owned, FsOf, Components;
    found, tok, next := Token(p, at);
  }

  lemma TokenName(p: Block, at: nat, tok: Block, next: nat)
    requires CString(p) && at <= |p| && next <= |p| && Components(p[at..]) == [tok] + Components(p[next..])
    ensures tok != [] && CString(tok)
  {
    ComponentNames(p[at..]);
    assert Components(p[at..])[0] == tok;
  }

  /** mofs_resolve_path with access checks: the token loop is the walk along the components. */
  method Resolve(v: Volume, search: Attr -> Errno, flags: Flags, path: Block, ghost t: Nest) returns (r: Result)
    requires Sys(v, t) && CString(path)
    modifies v.io.Repr()
    ensures Good(v) && View(v) == old(View(v)) && r == Resolved(WorldOf(View(v)), search, flags, path)
  {
    hide Good, View, FsSized, Bit, EntsOf, TreeBut, Shaped, LookupAt, Components, Last, CString, Search, WorldOf,
      OnDisk, Backs;
    ghost var f, w := View(v), WorldOf(View(v));
    RootIsDir(v.geo, f, t);
    if path == [] || path[0] != SLASH || (!flags.leaf && !flags.parent) || (flags.missing && !flags.leaf) {
      return Fail(EINVAL);
    }
    if path == [SLASH] {
      return if flags.parent then Fail(EINVAL) else Done(Info(-1, ROOT_INODE, true, []));
    }
    assert path[0..] == path;
    var found, current, at := TokenIn(v, path, 0);
    if !found {
      return Fail(EINVAL);
    }
    TokenName(path, 0, current, at);
    var d: nat := ROOT_INODE;
    while true
      invariant Good(v) && View(v) == f && d < v.geo.inodeNum && at <= |path| && current != []
      invariant Walk(w, search, flags, d, [current] + Components(path[at..])) == Resolved(w, search, flags, path)
      decreases |path| - at
    {
      ghost var rest := Components(path[at..]);
      ghost var comps := [current] + rest;
      assert comps[0] == current && comps[1..] == rest;
      var more, next, after := TokenIn(v, path, at);
      if !more {
        r := ResolveLast(v, search, flags, d, current, t);
        return;
      }
      TokenName(path, at, next, after);
      var may, hit, child := SearchIn(v, search, d, current, t);
      if may != Ok {
        return Fail(may);
      }
      if !hit {
        return Fail(ENOENT);
      }
      d, current, at := child, next, after;
    }
  }
}
