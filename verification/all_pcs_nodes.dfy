/**
 * The node arenas of the all-PCs DAG: index nodes say where the items of a
 * search state start and how many there are (or where the state continues
 * when its cell is already filled); item nodes name a placed mino and the
 * state it leads to. Both arenas only grow.
 */
module AllPcsNodes {
  datatype IndexNode =
    | Jump(nextItemId: nat, itemLength: nat)
    | Skip(nextIndexId: nat)
    | ToHi

  datatype ItemNode =
    | ItemToHi(mino: nat)
    | ToIndex(mino: nat, nextIndexId: nat)

  /** `mino_index`: the mino stored in either kind of item. */
  function MinoIndex(item: ItemNode): (r: nat)
    ensures item == ItemToHi(r) || exists next :: item == ToIndex(r, next)
  {
    match item
    case ItemToHi(mino) => mino
    case ToIndex(mino, _) => mino
  }

  class Nodes {
    var indexes: seq<IndexNode>
    var items: seq<ItemNode>

    /** `empty`: no index node and no item node. */
    constructor Empty()
      ensures indexes == [] && items == []
    {
      indexes := [];
      items := [];
    }

    /** `index_serial`: the id the next index node gets. */
    function IndexSerial(): (r: nat)
      reads this
      ensures r == |indexes|
    {
      |indexes|
    }

    /** `item_serial`: the id the next item node gets. */
    function ItemSerial(): (r: nat)
      reads this
      ensures r == |items|
    {
      |items|
    }

    /** `jump`: one more index node, pointing at a run of items. */
    method Jump(nextItemId: nat, itemLength: nat)
      modifies this
      ensures indexes == old(indexes) + [IndexNode.Jump(nextItemId, itemLength)] && items == old(items)
    {
      indexes := indexes + [IndexNode.Jump(nextItemId, itemLength)];
    }

    /** `skip`: one more index node, continuing at another index node. */
    method Skip(nextIndexId: nat)
      modifies this
      ensures indexes == old(indexes) + [IndexNode.Skip(nextIndexId)] && items == old(items)
    {
      indexes := indexes + [IndexNode.Skip(nextIndexId)];
    }

    /** `complete2`: one more index node, ending a finished state. */
    method Complete2()
      modifies this
      ensures indexes == old(indexes) + [IndexNode.ToHi] && items == old(items)
    {
      indexes := indexes + [IndexNode.ToHi];
    }

    /** `put`: one more item node, leading on to an index node. */
    method Put(mino: nat, nextIndexId: nat)
      modifies this
      ensures items == old(items) + [ToIndex(mino, nextIndexId)] && indexes == old(indexes)
    {
      items := items + [ToIndex(mino, nextIndexId)];
    }

    /** `complete`: one more item node, finishing the board. */
    method Complete(mino: nat)
      modifies this
      ensures items == old(items) + [ItemToHi(mino)] && indexes == old(indexes)
    {
      items := items + [ItemToHi(mino)];
    }
  }
}
