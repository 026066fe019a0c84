/** The data providers of src/com/chart-provider.tsx: the line series is a
    positional map of the items, the bar series a doubly linked chain. The
    keyed field reads `+item[xKey]` and `+item[yKey]` are the accessor
    functions `xOf` and `yOf`. */
module ChartProvider {
  import opened Wrappers
  import opened ChartData

  /** The items of the line series, one per data item, in order. */
  function LineData<T>(data: seq<T>, xOf: T -> real, yOf: T -> real): (r: seq<LineDataNode>)
    ensures |r| == |data|
    ensures forall i :: 0 <= i < |data| ==> r[i] == LineDataNode(xOf(data[i]), yOf(data[i]))
  {
    if data == [] then []
    else [LineDataNode(xOf(data[0]), yOf(data[0]))] + LineData(data[1..], xOf, yOf)
  }

  /** buildLinkedList: a first loop pushes one unlinked node per item, a
      second loop sets each node's neighbour links in place. */
  method BuildLinkedList<T>(data: seq<T>, xOf: T -> real, yOf: T -> real) returns (arr: seq<BarDataNode>)
    ensures |arr| == |data|
    ensures forall i :: 0 <= i < |data| ==> arr[i].xVal == xOf(data[i]) && arr[i].yVal == yOf(data[i])
    ensures IsChain(arr)
  {
    arr := [];
    var i := 0;
    while i < |data|
      invariant 0 <= i <= |data| && |arr| == i
      invariant forall k :: 0 <= k < i ==> arr[k] == BarDataNode(xOf(data[k]), yOf(data[k]), None, None)
    {
      var item := data[i];
      arr := arr + [BarDataNode(xOf(item), yOf(item), None, None)];
      i := i + 1;
    }

    i := 0;
    while i < |arr|
      invariant 0 <= i <= |arr| == |data|
      invariant forall k :: 0 <= k < |arr| ==> arr[k].xVal == xOf(data[k]) && arr[k].yVal == yOf(data[k])
      invariant forall k :: 0 <= k < i ==> arr[k].prevIndex == PrevOf(k) && arr[k].nextIndex == NextOf(k, |arr|)
      invariant forall k :: i <= k < |arr| ==> arr[k].prevIndex == None && arr[k].nextIndex == None
    {
      if i == 0 {
        // `arr[i + 1]` is undefined for a one-node list, so `next` stays unset
        var next := if i + 1 < |arr| then Some(i + 1) else None;
        arr := arr[i := arr[i].(nextIndex := next)];
        i := i + 1;
        continue;
      }
      if i == |arr| - 1 {
        arr := arr[i := arr[i].(prevIndex := Some(i - 1))];
        i := i + 1;
        continue;
      }
      if i > 0 && i < |arr| - 1 {
        arr := arr[i := arr[i].(nextIndex := Some(i + 1), prevIndex := Some(i - 1))];
      }
      i := i + 1;
    }
  }

  /** The node reached from node `i` by following `next` links `k` times. */
  function Follow(nodes: seq<BarDataNode>, i: nat, k: nat): Option<nat>
    requires i < |nodes|
    decreases k
  {
    if k == 0 then Some(i)
    else match nodes[i].nextIndex
      case None => None
      case Some(j) => if j < |nodes| then Follow(nodes, j, k - 1) else None
  }

  /** Walking a chain forward visits the nodes in input order and stops
      after the last one: there is no cycle and no skipped node. */
  lemma {:induction false} ChainWalk(nodes: seq<BarDataNode>, i: nat, k: nat)
    requires IsChain(nodes) && i < |nodes|
    ensures i + k < |nodes| ==> Follow(nodes, i, k) == Some(i + k)
    ensures i + k == |nodes| ==> Follow(nodes, i, k) == None
    decreases k
  {
    if k > 0 {
      if i + 1 < |nodes| {
        ChainWalk(nodes, i + 1, k - 1);
      }
    }
  }

  /** `next` and `prev` are inverse: stepping forward then back returns to
      the same node, and so does stepping back then forward. */
  lemma ChainLinksInverse(nodes: seq<BarDataNode>, i: nat)
    requires IsChain(nodes) && i < |nodes|
    ensures nodes[i].nextIndex.Some? ==> nodes[i].nextIndex.value < |nodes| && nodes[nodes[i].nextIndex.value].prevIndex == Some(i)
    ensures nodes[i].prevIndex.Some? ==> nodes[i].prevIndex.value < |nodes| && nodes[nodes[i].prevIndex.value].nextIndex == Some(i)
  {
  }

  /** Linking depends only on position: two chains of the same length have
      the same links, whatever their values. */
  lemma ChainLinksPositional(a: seq<BarDataNode>, b: seq<BarDataNode>, i: nat)
    requires IsChain(a) && IsChain(b) && |a| == |b| && i < |a|
    ensures a[i].prevIndex == b[i].prevIndex && a[i].nextIndex == b[i].nextIndex
  {
  }
}
