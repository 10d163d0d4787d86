/** The paginated iterators of the remote service's SDK (`HasNext` / `Next`), and the
    drain loop that the explorer runs over them. */
module Listings {
  import opened Wrappers

  /** What one listing call yields: its items in iteration order, and whether the
      iteration then ends with an error instead of running out. */
  datatype Listing<T> = Listing(items: seq<T>, fails: bool)

  /** The iterator's `HasNext` once `pos` items have been taken. */
  predicate HasNext<T>(l: Listing<T>, pos: nat)
  {
    pos < |l.items| || l.fails
  }

  /** The iterator's `Next` once `pos` items have been taken: the next item, or `None`
      for the iteration error. */
  function Next<T>(l: Listing<T>, pos: nat): (r: Option<T>)
    requires HasNext(l, pos) && pos <= |l.items|
    ensures r.None? <==> pos == |l.items|
  {
    if pos < |l.items| then Some(l.items[pos]) else None
  }

  /** Drains a listing and gives up on the first error, dropping what was collected
      (the loop of `ListWarehouses` and of each fetch in the interactive menus). */
  method DrainAll<T>(l: Listing<T>) returns (r: Option<seq<T>>)
    ensures l.fails <==> r.None?
    ensures r.Some? ==> r.value == l.items
  {
    var all: seq<T> := [];
    var pos := 0;
    while HasNext(l, pos)
      invariant pos <= |l.items| && all == l.items[..pos]
      decreases |l.items| - pos
    {
      var item := Next(l, pos);
      if item.None? {
        return None;
      }
      all := all + [item.value];
      pos := pos + 1;
    }
    assert l.items[..pos] == l.items;
    return Some(all);
  }
}
