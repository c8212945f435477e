/** What belongs to one worker thread: its histogram, and for the specification the cliques it stored. */
module Workers {
  import opened Cliques
  import opened Histograms

  class Worker {
    var counts: Histogram
    /** The cliques this worker stored, and the leaf calls it made. */
    ghost var log: seq<set<Vertex>>
    ghost var leaves: nat

    ghost predicate Valid()
      reads this
    {
      Describes(counts, log)
    }

    constructor ()
      ensures Valid() && counts == map[] && log == [] && leaves == 0
    {
      counts, log, leaves := map[], [], 0;
    }

    /** Count a clique by its size and store it. */
    method Report(size: nat, ghost R: set<Vertex>)
      requires Valid() && size == |R|
      modifies this
      ensures Valid() && log == old(log) + [R] && leaves == old(leaves)
    {
      if size !in counts {
        counts := counts[size := 0];
      }
      counts := counts[size := counts[size] + 1];
      log := log + [R];
      forall k: nat ensures CountAt(counts, k) == OfSize(log, k) {
        assert log[..|log| - 1] == old(log);
      }
    }

    /** A call that has no children of its own. */
    ghost method Leaf()
      requires Valid()
      modifies this`leaves
      ensures Valid() && leaves == old(leaves) + 1
    {
      leaves := leaves + 1;
    }
  }
}
