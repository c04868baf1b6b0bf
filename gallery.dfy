/** The detail view's image gallery and its tabs. */
module Gallery {

  /** The three tabs of the detail view: 'description', 'floorplan' and 'map'. */
  datatype Tab = Description | FloorPlan | Map

  /** `nextImage`: `(i + 1) % n`, one step forward, from the last image back to the first. */
  function NextImage(i: nat, n: nat): (r: nat)
    requires n > 0
    ensures r < n
    ensures i + 1 < n ==> r == i + 1
    ensures i + 1 == n ==> r == 0
  {
    (i + 1) % n
  }

  /** `prevImage`: one step back, from the first image to the last. */
  function PrevImage(i: nat, n: nat): (r: nat)
    requires i < n
    ensures r < n
  {
    if i == 0 then n - 1 else i - 1
  }

  /** Going back undoes going forward. */
  lemma PrevUndoesNext(i: nat, n: nat)
    requires i < n
    ensures PrevImage(NextImage(i, n), n) == i
  {
  }

  /** Going forward undoes going back. */
  lemma NextUndoesPrev(i: nat, n: nat)
    requires i < n
    ensures NextImage(PrevImage(i, n), n) == i
  {
  }

  /** The index after `k` presses of the forward button. */
  function NextTimes(i: nat, n: nat, k: nat): nat
    requires n > 0
  {
    if k == 0 then i else NextImage(NextTimes(i, n, k - 1), n)
  }

  /** `k` steps forward that do not pass the last image move the index by `k`. */
  lemma {:induction false} NextTimesAdvances(i: nat, n: nat, k: nat)
    requires i + k < n
    ensures NextTimes(i, n, k) == i + k
  {
    if k > 0 {
      NextTimesAdvances(i, n, k - 1);
    }
  }

  /** Stepping `a` times and then `b` times is stepping `a + b` times. */
  lemma {:induction false} NextTimesAdd(i: nat, n: nat, a: nat, b: nat)
    requires n > 0
    ensures NextTimes(i, n, a + b) == NextTimes(NextTimes(i, n, a), n, b)
  {
    if b > 0 {
      NextTimesAdd(i, n, a, b - 1);
    }
  }

  /** `n` steps forward through `n` images come back to the image they started from. */
  lemma GalleryCycles(i: nat, n: nat)
    requires i < n
    ensures NextTimes(i, n, n) == i
  {
    NextTimesAdd(i, n, n - 1 - i, i + 1);
    NextTimesAdvances(i, n, n - 1 - i);
    assert NextTimes(n - 1, n, 1) == 0;
    NextTimesAdd(n - 1, n, 1, i);
    if i > 0 {
      NextTimesAdvances(0, n, i);
    }
  }
}
