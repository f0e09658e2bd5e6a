/** The on-disk list of a file's blocks: one node per block, a header and packed pointers. */
module ListNodes {
  import opened Bytes
  import opened Layout

  /** mofs_list_ptrs_per_node. */
  function PtrsPerNode(bs: nat): nat {
    if bs <= 8 then 0 else (bs - 8) / 4
  }

  /** list_nodes_for_block_count. */
  function NodesFor(nr: nat, cap: nat): nat
    requires cap > 0
  {
    CeilDiv(nr, cap)
  }

  /** The pointer list as the nodes hold it: full slices, then the rest. */
  ghost function Cut(ptrs: seq<nat>, cap: nat): (c: seq<seq<nat>>)
    requires cap > 0
    decreases |ptrs|
  {
    if ptrs == [] then []
    else if |ptrs| <= cap then [ptrs]
    else [ptrs[..cap]] + Cut(ptrs[cap..], cap)
  }

  /** A list of `n` pointers needs ceil(n / cap) nodes; all but the last are full and none is empty. */
  lemma {:induction false} CutShape(ptrs: seq<nat>, cap: nat)
    requires cap > 0
    ensures |Cut(ptrs, cap)| == NodesFor(|ptrs|, cap)
    ensures forall j :: 0 <= j < |Cut(ptrs, cap)| ==> 0 < |Cut(ptrs, cap)[j]| <= cap
    ensures forall j :: 0 <= j < |Cut(ptrs, cap)| - 1 ==> |Cut(ptrs, cap)[j]| == cap
    decreases |ptrs|
  {
    CeilDivBounds(|ptrs|, cap);
    if 0 < |ptrs| <= cap {
      CeilDivUnique(|ptrs|, cap, 1);
    } else if |ptrs| > cap {
      CutShape(ptrs[cap..], cap);
      CeilDivStep(|ptrs| - cap, cap);
    }
  }

  lemma CutHead(ptrs: seq<nat>, cap: nat)
    requires cap > 0 && ptrs != []
    ensures Cut(ptrs, cap) != []
    ensures var n := if |ptrs| <= cap then |ptrs| else cap;
            Cut(ptrs, cap)[0] == ptrs[..n] && Cut(ptrs, cap)[1..] == Cut(ptrs[n..], cap)
  {
    if |ptrs| <= cap {
      assert ptrs[..|ptrs|] == ptrs && ptrs[|ptrs|..] == [];
    }
  }

  /** Block `d` is a list node with these pointers; `next` is -1 in the last node. */
  ghost predicate NodeHolds(d: Block, base: nat, next: int, ptrs: seq<nat>) {
    && |d| >= 8 + 4 * |ptrs|
    && U32(d, 0) == (if next < 0 then 0 else base + next)
    && U32(d, 4) == |ptrs|
    && forall p :: 0 <= p < |ptrs| ==> U32(d, 8 + 4 * p) == base + ptrs[p]
  }

  ghost function NextOf(nodes: seq<nat>, j: nat): int {
    if j + 1 < |nodes| then nodes[j + 1] else -1
  }

  ghost predicate Linked(data: seq<Block>, base: nat, nodes: seq<nat>, chunks: seq<seq<nat>>, j: nat)
    requires j < |nodes| == |chunks|
  {
    nodes[j] < |data| && NodeHolds(data[nodes[j]], base, NextOf(nodes, j), chunks[j])
  }

  /** The chain of node blocks `nodes` maps exactly the data blocks `ptrs`, in order. */
  ghost predicate Chain(data: seq<Block>, base: nat, cap: nat, nodes: seq<nat>, ptrs: seq<nat>) {
    && cap > 0
    && |nodes| == |Cut(ptrs, cap)|
    && forall j :: 0 <= j < |nodes| ==> Linked(data, base, nodes, Cut(ptrs, cap), j)
  }

  /** The inode record points at the chain and counts its data blocks. */
  ghost predicate RecMaps(rec: Inode, base: nat, nodes: seq<nat>, ptrs: seq<nat>) {
    && rec.nr == |ptrs| <= MAX_FILE_DATA_BLOCKS
    && rec.head == if nodes == [] then 0 else base + nodes[0]
  }

  /** A chain depends on its node blocks only. */
  lemma ChainFrame(data: seq<Block>, data': seq<Block>, base: nat, cap: nat, nodes: seq<nat>, ptrs: seq<nat>)
    requires Chain(data, base, cap, nodes, ptrs) && |data'| == |data|
    requires forall j :: 0 <= j < |nodes| && nodes[j] < |data| ==> data'[nodes[j]] == data[nodes[j]]
    ensures Chain(data', base, cap, nodes, ptrs)
  {
    hide NodeHolds, NextOf, Cut;
    forall j | 0 <= j < |nodes| ensures Linked(data', base, nodes, Cut(ptrs, cap), j) {
      assert Linked(data, base, nodes, Cut(ptrs, cap), j);
    }
  }

  /** A walk along the chain stands before node `j`, with `pos` pointers behind it. */
  ghost predicate At(base: nat, cap: nat, nodes: seq<nat>, ptrs: seq<nat>, j: nat, pos: nat, nodeAbs: nat) {
    && cap > 0 && j <= |nodes| && pos <= |ptrs| && j <= |Cut(ptrs, cap)|
    && Cut(ptrs[pos..], cap) == Cut(ptrs, cap)[j..]
    && nodeAbs == if j < |nodes| then base + nodes[j] else 0
  }

  lemma WalkStart(data: seq<Block>, base: nat, cap: nat, nodes: seq<nat>, ptrs: seq<nat>)
    requires Chain(data, base, cap, nodes, ptrs)
    ensures At(base, cap, nodes, ptrs, 0, 0, if nodes == [] then 0 else base + nodes[0])
    ensures nodes == [] <==> ptrs == []
  {
    assert ptrs[0..] == ptrs;
    if ptrs != [] {
      CutHead(ptrs, cap);
    }
  }

  /** What the walk reads in node `j`, and where it stands after it. */
  lemma WalkStep(data: seq<Block>, base: nat, cap: nat, nodes: seq<nat>, ptrs: seq<nat>, j: nat, pos: nat, nodeAbs: nat)
    requires base > 0 && Chain(data, base, cap, nodes, ptrs) && At(base, cap, nodes, ptrs, j, pos, nodeAbs)
    ensures nodeAbs == 0 <==> j == |nodes|
    ensures nodeAbs == 0 <==> pos == |ptrs|
    ensures nodeAbs != 0 ==>
      && nodeAbs == base + nodes[j] && nodes[j] < |data| && pos < |ptrs|
      && var n := if |ptrs| - pos <= cap then |ptrs| - pos else cap;
      && 0 < n
      && NodeHolds(data[nodes[j]], base, NextOf(nodes, j), ptrs[pos..pos + n])
      && At(base, cap, nodes, ptrs, j + 1, pos + n, U32(data[nodes[j]], 0))
  {
    hide U32, Cut;
    var rest := ptrs[pos..];
    if rest == [] {
      CutEmpty(cap);
    } else {
      CutHead(rest, cap);
      var n := if |rest| <= cap then |rest| else cap;
      assert rest[..n] == ptrs[pos..pos + n] && rest[n..] == ptrs[pos + n..];
      assert Linked(data, base, nodes, Cut(ptrs, cap), j);
    }
  }

  lemma CutEmpty(cap: nat)
    requires cap > 0
    ensures Cut([], cap) == []
  {
  }

  lemma ChainLength(data: seq<Block>, base: nat, cap: nat, nodes: seq<nat>, ptrs: seq<nat>)
    requires Chain(data, base, cap, nodes, ptrs)
    ensures |nodes| == NodesFor(|ptrs|, cap)
  {
    CutShape(ptrs, cap);
  }

  lemma NodeUnique(d: Block, base: nat, next: int, ptrs: seq<nat>, next': int, ptrs': seq<nat>)
    requires NodeHolds(d, base, next, ptrs) && NodeHolds(d, base, next', ptrs')
    ensures ptrs == ptrs' && |d| >= 8
  {
    hide U32;
    forall p | 0 <= p < |ptrs| ensures ptrs[p] == ptrs'[p] {
      assert U32(d, 8 + 4 * p) == base + ptrs[p];
    }
  }

  lemma {:induction false} WalkUnique(data: seq<Block>, base: nat, cap: nat, nodes: seq<nat>, ptrs: seq<nat>,
                                      nodes': seq<nat>, ptrs': seq<nat>, j: nat, pos: nat, nodeAbs: nat)
    requires base > 0 && Chain(data, base, cap, nodes, ptrs) && Chain(data, base, cap, nodes', ptrs')
    requires At(base, cap, nodes, ptrs, j, pos, nodeAbs) && At(base, cap, nodes', ptrs', j, pos, nodeAbs)
    requires nodes[..j] == nodes'[..j] && ptrs[..pos] == ptrs'[..pos]
    ensures nodes == nodes' && ptrs == ptrs'
    decreases |nodes| - j
  {
    hide U32, Cut, NodeHolds, Chain, At;
    AtBounds(base, cap, nodes, ptrs, j, pos, nodeAbs);
    AtBounds(base, cap, nodes', ptrs', j, pos, nodeAbs);
    WalkStep(data, base, cap, nodes, ptrs, j, pos, nodeAbs);
    WalkStep(data, base, cap, nodes', ptrs', j, pos, nodeAbs);
    if nodeAbs == 0 {
      assert nodes[..j] == nodes && nodes'[..j] == nodes' && ptrs[..pos] == ptrs && ptrs'[..pos] == ptrs';
    } else {
      var n := if |ptrs| - pos <= cap then |ptrs| - pos else cap;
      var n' := if |ptrs'| - pos <= cap then |ptrs'| - pos else cap;
      NodeUnique(data[nodes[j]], base, NextOf(nodes, j), ptrs[pos..pos + n], NextOf(nodes', j), ptrs'[pos..pos + n']);
      assert |ptrs[pos..pos + n]| == n && |ptrs'[pos..pos + n']| == n';
      assert ptrs[..pos + n] == ptrs[..pos] + ptrs[pos..pos + n]
        && ptrs'[..pos + n] == ptrs'[..pos] + ptrs'[pos..pos + n];
      assert nodes[..j + 1] == nodes[..j] + [nodes[j]] && nodes'[..j + 1] == nodes'[..j] + [nodes'[j]];
      WalkUnique(data, base, cap, nodes, ptrs, nodes', ptrs', j + 1, pos + n, U32(data[nodes[j]], 0));
    }
  }

  lemma AtBounds(base: nat, cap: nat, nodes: seq<nat>, ptrs: seq<nat>, j: nat, pos: nat, nodeAbs: nat)
    requires At(base, cap, nodes, ptrs, j, pos, nodeAbs)
    ensures j <= |nodes| && pos <= |ptrs|
  {
  }

  /** The blocks on disk leave no choice: a record is the head of one chain only. */
  lemma ChainUnique(data: seq<Block>, rec: Inode, base: nat, cap: nat, nodes: seq<nat>, ptrs: seq<nat>,
                    nodes': seq<nat>, ptrs': seq<nat>)
    requires base > 0 && Chain(data, base, cap, nodes, ptrs) && Chain(data, base, cap, nodes', ptrs')
    requires RecMaps(rec, base, nodes, ptrs) && RecMaps(rec, base, nodes', ptrs')
    ensures nodes == nodes' && ptrs == ptrs'
  {
    hide Chain;
    WalkStart(data, base, cap, nodes, ptrs);
    WalkStart(data, base, cap, nodes', ptrs');
    WalkUnique(data, base, cap, nodes, ptrs, nodes', ptrs', 0, 0, rec.head);
  }
}
