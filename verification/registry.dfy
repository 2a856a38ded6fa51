/**
 * The master's worker table: a map from worker id to worker that iterates in
 * insertion order, as a JavaScript `Map` does. It is kept as a sequence of
 * entries whose keys are pairwise distinct.
 */
module Registry {
  import opened Wrappers
  import opened Types

  datatype Entry = Entry(id: WorkerId, worker: Worker)

  predicate UniqueKeys(r: seq<Entry>) {
    forall i, j :: 0 <= i < j < |r| ==> r[i].id != r[j].id
  }

  type Registry = r: seq<Entry> | UniqueKeys(r) witness []

  predicate Has(r: seq<Entry>, k: WorkerId) {
    exists i :: 0 <= i < |r| && r[i].id == k
  }

  /** The position of key `k`: the first one, and in a registry the only one. */
  function IndexOf(r: seq<Entry>, k: WorkerId): (i: nat)
    requires Has(r, k)
    ensures i < |r| && r[i].id == k
    ensures forall j :: 0 <= j < i ==> r[j].id != k
  {
    if r[0].id == k then 0
    else
      assert Has(r[1..], k) by {
        var j :| 0 <= j < |r| && r[j].id == k;
        assert r[1..][j - 1].id == k;
      }
      1 + IndexOf(r[1..], k)
  }

  /** The worker stored under `k`, if any. */
  function Lookup(r: Registry, k: WorkerId): (w: Option<Worker>)
    ensures w.Some? <==> Has(r, k)
    ensures forall i :: 0 <= i < |r| && r[i].id == k ==> w == Some(r[i].worker)
  {
    if Has(r, k) then Some(r[IndexOf(r, k)].worker) else None
  }

  /**
   * `Map.prototype.set`: a present key keeps its position and gets the new
   * worker; an absent key is appended at the end of the iteration order.
   */
  function Set(r: Registry, k: WorkerId, v: Worker): (r': Registry)
    ensures forall j :: Lookup(r', j) == if j == k then Some(v) else Lookup(r, j)
    ensures Has(r, k) ==> |r'| == |r|
    ensures forall i :: 0 <= i < |r| && r[i].id != k ==> i < |r'| && r'[i] == r[i]
    ensures !Has(r, k) ==> r' == r + [Entry(k, v)]
  {
    if Has(r, k) then
      var r' := seq(|r|, i requires 0 <= i < |r| => if r[i].id == k then Entry(k, v) else r[i]);
      LookupAfterOverwrite(r, r', k, v);
      r'
    else
      LookupAfterAppend(r, k, v);
      r + [Entry(k, v)]
  }

  /** `Map.prototype.delete`: removes key `k`; the other entries keep their order. */
  function Delete(r: Registry, k: WorkerId): (r': Registry)
    ensures !Has(r', k)
    ensures forall j :: Lookup(r', j) == if j == k then None else Lookup(r, j)
    ensures Has(r, k) ==> |r'| == |r| - 1 && r' == r[..IndexOf(r, k)] + r[IndexOf(r, k) + 1..]
    ensures !Has(r, k) ==> r' == r
  {
    if Has(r, k) then
      var i := IndexOf(r, k);
      var r' := r[..i] + r[i + 1..];
      assert forall j :: 0 <= j < i ==> r'[j] == r[j];
      assert forall j :: i <= j < |r'| ==> r'[j] == r[j + 1];
      LookupAfterRemoval(r, r', i);
      r'
    else
      r
  }

  lemma LookupAfterOverwrite(r: Registry, r': Registry, k: WorkerId, v: Worker)
    requires Has(r, k) && |r'| == |r|
    requires forall i :: 0 <= i < |r| ==> r'[i] == if r[i].id == k then Entry(k, v) else r[i]
    ensures forall j :: Lookup(r', j) == if j == k then Some(v) else Lookup(r, j)
  {
    forall j
      ensures Lookup(r', j) == if j == k then Some(v) else Lookup(r, j)
    {
      if Has(r', j) {
        var i := IndexOf(r', j);
        if r[i].id != k {
          assert r'[i] == r[i];
        }
      } else {
        var i := IndexOf(r, k);
        assert r'[i].id == k;
        forall x | 0 <= x < |r|
          ensures r[x].id != j
        {
          if r[x].id != k {
            assert r'[x] == r[x];
          }
        }
      }
    }
  }

  lemma LookupAfterAppend(r: Registry, k: WorkerId, v: Worker)
    requires !Has(r, k)
    ensures UniqueKeys(r + [Entry(k, v)])
    ensures forall j :: Lookup(r + [Entry(k, v)], j) == if j == k then Some(v) else Lookup(r, j)
  {
    var r': Registry := r + [Entry(k, v)];
    forall j
      ensures Lookup(r', j) == if j == k then Some(v) else Lookup(r, j)
    {
      assert r'[|r|].id == k;
      if Has(r', j) && j != k {
        var i := IndexOf(r', j);
        assert r[i] == r'[i];
      }
      if Has(r, j) {
        var i := IndexOf(r, j);
        assert r'[i] == r[i];
      }
    }
  }

  lemma LookupAfterRemoval(r: Registry, r': Registry, i: nat)
    requires i < |r| && |r'| == |r| - 1
    requires forall j :: 0 <= j < i ==> r'[j] == r[j]
    requires forall j :: i <= j < |r'| ==> r'[j] == r[j + 1]
    ensures forall j :: Lookup(r', j) == if j == r[i].id then None else Lookup(r, j)
  {
    forall j
      ensures Lookup(r', j) == if j == r[i].id then None else Lookup(r, j)
    {
      if Has(r', j) {
        var x := IndexOf(r', j);
        if x < i {
          assert r'[x] == r[x];
        } else {
          assert r'[x] == r[x + 1];
        }
      }
      if Has(r, j) && j != r[i].id {
        var x := IndexOf(r, j);
        if x < i {
          assert r'[x] == r[x];
          assert r'[x].id == j;
        } else {
          assert x != i;
          assert r'[x - 1] == r[x];
        }
      }
    }
  }

  /**
   * Deleting a key and setting it again moves it to the end of the iteration
   * order, after every other entry.
   */
  lemma MoveToEnd(r: Registry, k: WorkerId, v: Worker)
    ensures Set(Delete(r, k), k, v) == Delete(r, k) + [Entry(k, v)]
    ensures |Set(Delete(r, k), k, v)| == |r| + (if Has(r, k) then 0 else 1)
  {
  }
}
