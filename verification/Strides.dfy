/**
 Dealing the positions 0, 1, 2, ... out to `width` workers: worker `id` handles
 id, id + width, id + 2 * width, ...
 */
module Strides {

  /** The worker that handles position `i`: i modulo width. */
  function WorkerOf(i: nat, width: nat): (id: nat)
    requires width > 0
    ensures id < width
  {
    if i < width then i else WorkerOf(i - width, width)
  }

  /** Stepping by `width` from a position leads to the next one of the same worker. */
  lemma {:induction false} NextStride(i: nat, width: nat)
    requires width > 0
    ensures WorkerOf(i + width, width) == WorkerOf(i, width)
    ensures forall j :: i < j < i + width ==> WorkerOf(j, width) != WorkerOf(i, width)
  {
    if i >= width {
      NextStride(i - width, width);
      forall j | i < j < i + width
        ensures WorkerOf(j, width) != WorkerOf(i, width)
      {
        assert WorkerOf(j, width) == WorkerOf(j - width, width);
      }
    }
  }

  /** The first position of a worker is its own number. */
  lemma WorkerStarts(id: nat, width: nat)
    requires id < width
    ensures WorkerOf(id, width) == id
    ensures forall i :: 0 <= i < id ==> WorkerOf(i, width) != id
  {}
}
