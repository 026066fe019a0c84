/** The node types of src/com/chart-data.ts. The bar nodes' `prev`/`next`
    object references become indices into the array that holds them. */
module ChartData {
  import opened Wrappers

  datatype LineDataNode = LineDataNode(xVal: real, yVal: real)

  datatype BarDataNode = BarDataNode(xVal: real, yVal: real, prevIndex: Option<nat>, nextIndex: Option<nat>)

  /** The index node `i` of an `n`-node chain links back to. */
  function PrevOf(i: nat): Option<nat>
  {
    if i > 0 then Some(i - 1) else None
  }

  /** The index node `i` of an `n`-node chain links forward to. */
  function NextOf(i: nat, n: nat): Option<nat>
  {
    if i + 1 < n then Some(i + 1) else None
  }

  /** Every node links to its positional neighbours and to nothing else. */
  ghost predicate IsChain(nodes: seq<BarDataNode>)
  {
    forall i :: 0 <= i < |nodes| ==>
      nodes[i].prevIndex == PrevOf(i) && nodes[i].nextIndex == NextOf(i, |nodes|)
  }
}
