/** The volume as its users know it: name maps, byte strings, link counts and a count of free blocks. */
module Worlds {
  import opened Bytes
  import opened Layout
  import opened FileData
  import opened FileOps
  import opened Dirents
  import opened DirOps
  import opened Namespace
  import opened TreeShape

  /** Type, permissions and owner of a node: what permission checks look at. */
  datatype Attr = Attr(mode: nat, uid: nat, gid: nat)

  function AttrOf(rec: Inode): Attr {
    Attr(rec.mode, rec.uid, rec.gid)
  }

  /** One inode number. */
  datatype Item =
    | Gone
    | Regular(attr: Attr, links: nat, bytes: Block)
    | Folder(attr: Attr, links: nat, names: map<Block, nat>)

  datatype World = World(items: seq<Item>, free: int)

  ghost predicate Aligned(f: Fs) {
    |f.ibits| == |f.inodes| == |f.blocks|
  }

  /** The names in use, each with its inode number. */
  ghost function Names(es: seq<Ent>): map<Block, nat> {
    if Tidy(es) then NameMap(es) else map[]
  }

  ghost function ItemOf(f: Fs, n: nat): Item
    requires Aligned(f) && n < |f.inodes|
  {
    match NsOf(f)[n]
    case Dead => Gone
    case Leaf => Regular(AttrOf(f.inodes[n]), f.inodes[n].links, BytesOf(f, n))
    case Dir(ents, links) => Folder(AttrOf(f.inodes[n]), links, Names(ents))
  }

  ghost function WorldOf(f: Fs): (w: World)
    requires Aligned(f)
    ensures |w.items| == |f.inodes| && w.free == f.free
    ensures forall n :: 0 <= n < |f.inodes| ==> w.items[n] == ItemOf(f, n)
  {
    World(seq(|f.inodes|, n requires 0 <= n < |f.inodes| => ItemOf(f, n)), f.free)
  }

  // ---------------------------------------------------------------- names and slots

  lemma NameLast(es: seq<Ent>)
    requires es != [] && Tidy(es)
    ensures var init, e := es[..|es| - 1], es[|es| - 1];
            && Tidy(init)
            && (Live(e) ==> e.name !in NameMap(init) && NameMap(es) == NameMap(init)[e.name := e.ino])
            && (!Live(e) ==> NameMap(es) == NameMap(init))
  {
    hide Live;
    var init, e := es[..|es| - 1], es[|es| - 1];
    assert Tidy(init);
    forall x | x in init ensures x in es {
    }
    if Live(e) {
      assert NameMap(es) == NameMap(init)[e.name := e.ino];
    } else {
      assert NameMap(es) == NameMap(init);
    }
  }

  /** A directory has as many names as slots in use. */
  lemma {:induction false} NamesFull(es: seq<Ent>)
    requires Tidy(es)
    ensures |NameMap(es)| <= |es| && (|NameMap(es)| == |es| <==> AllUsed(es))
  {
    hide NameMap, Live, Tidy;
    if es == [] {
      NoNames();
    } else {
      var init, e := es[..|es| - 1], es[|es| - 1];
      NameLast(es);
      NamesFull(init);
      assert AllUsed(es) <==> AllUsed(init) && Live(e) by {
        if AllUsed(init) && Live(e) {
          forall i | 0 <= i < |es| ensures Live(es[i]) {
            assert i < |init| ==> init[i] == es[i];
          }
        }
      }
    }
  }

  lemma NoNames()
    ensures NameMap([]) == map[]
  {
  }

  lemma NameThereIff(es: seq<Ent>, name: Block)
    requires Tidy(es) && name != []
    ensures name in NameMap(es) <==> !NoHit(es, name, false)
    ensures forall i :: 0 <= i < |es| && es[i].name == name ==> name in NameMap(es) && NameMap(es)[name] == es[i].ino
  {
    hide NameMap;
    MapLookup(es, name);
    TidyHit(es, name);
  }

  lemma OnlyDotsNames(es: seq<Ent>)
    requires Tidy(es)
    ensures OnlyDots(es) <==> forall name :: name in NameMap(es) ==> IsDots(name)
  {
    hide IsDots;
    if OnlyDots(es) {
      forall name | name in NameMap(es) ensures IsDots(name) {
        var e :| e in es && Live(e) && e.name == name;
      }
    } else {
      var i :| 0 <= i < |es| && Live(es[i]) && !IsDots(es[i].name);
      assert es[i] in es && es[i].name in NameMap(es);
    }
  }

  // ---------------------------------------------------------------- what differs

  /** Graph, attributes and bytes tell the world. */
  lemma SameItem(f: Fs, f': Fs, n: nat)
    requires Aligned(f) && Aligned(f') && n < |f.inodes| == |f'.inodes| && NsOf(f')[n] == NsOf(f)[n]
    requires AttrOf(f'.inodes[n]) == AttrOf(f.inodes[n])
    requires NsOf(f)[n].Leaf? ==> f'.inodes[n].links == f.inodes[n].links && BytesOf(f', n) == BytesOf(f, n)
    ensures ItemOf(f', n) == ItemOf(f, n)
  {
    hide GraphNode, NameMap;
  }

  lemma SameBytes(f: Fs, f': Fs, n: nat)
    requires n < |f.inodes| == |f.blocks| && n < |f'.inodes| == |f'.blocks|
    requires f'.blocks[n] == f.blocks[n] && f'.inodes[n].size == f.inodes[n].size
    ensures BytesOf(f', n) == BytesOf(f, n)
  {
  }
}
