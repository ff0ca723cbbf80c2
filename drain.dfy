/**
 * The collecting loop of `main`: as each agent's fetch completes, its list
 * of records is appended to `all_data`. The worker pool decides the
 * completion order; here that order is an input, any rearrangement of the
 * agents' indices, and the loop that drains it is sequential.
 */
module Drain {

  import opened Fetch

  /** The agent indices `0, 1, …, n - 1`, in submission order. */
  function Range(n: nat): (r: seq<nat>)
    ensures |r| == n
    ensures forall k :: 0 <= k < n ==> r[k] == k
  {
    if n == 0 then [] else Range(n - 1) + [n - 1]
  }

  /**
   * `order` lists every one of the `n` agent indices exactly once: the
   * order in which `as_completed` hands back the `n` futures. (The bound
   * on each entry follows from the multiset equation; it is stated so that
   * contracts can index with it.)
   */
  predicate IsCompletionOrder(order: seq<nat>, n: nat)
  {
    && (forall k :: 0 <= k < |order| ==> order[k] < n)
    && multiset(order) == multiset(Range(n))
  }

  /** The list returned for agent `i` (empty for an index that names no agent). */
  function ResultOf(results: seq<seq<PackageRecord>>, i: nat): seq<PackageRecord>
  {
    if i < |results| then results[i] else []
  }

  /** The lists of records in the order they were appended. */
  function Completed(results: seq<seq<PackageRecord>>, order: seq<nat>): (blocks: seq<seq<PackageRecord>>)
    ensures |blocks| == |order|
  {
    seq(|order|, k requires 0 <= k < |order| => ResultOf(results, order[k]))
  }

  /** The blocks laid end to end, as successive `extend` calls leave them. */
  function Concat(blocks: seq<seq<PackageRecord>>): seq<PackageRecord>
  {
    if blocks == [] then [] else Concat(blocks[..|blocks| - 1]) + blocks[|blocks| - 1]
  }

  /** `all_data` once every future has been drained in the given order. */
  function Drained(results: seq<seq<PackageRecord>>, order: seq<nat>): (allData: seq<PackageRecord>)
    ensures |allData| == TotalRecords(Completed(results, order))
    ensures multiset(allData) == AllRecords(Completed(results, order))
  {
    ConcatLength(Completed(results, order));
    ConcatBag(Completed(results, order));
    Concat(Completed(results, order))
  }

  /** The number of records over all the blocks. */
  function TotalRecords(blocks: seq<seq<PackageRecord>>): nat
  {
    if blocks == [] then 0 else TotalRecords(blocks[..|blocks| - 1]) + |blocks[|blocks| - 1]|
  }

  /** Every record of every block, each counted as often as it occurs. */
  function AllRecords(blocks: seq<seq<PackageRecord>>): multiset<PackageRecord>
  {
    if blocks == [] then multiset{} else AllRecords(blocks[..|blocks| - 1]) + multiset(blocks[|blocks| - 1])
  }

  /** Where the block of the `k`-th completed agent starts in `all_data`. */
  function BlockStart(results: seq<seq<PackageRecord>>, order: seq<nat>, k: nat): nat
    requires k <= |order|
  {
    TotalRecords(Completed(results, order[..k]))
  }

  /**
   * The drain: `all_data.extend(future.result())` for each future in
   * completion order.
   */
  method DrainResults(results: seq<seq<PackageRecord>>, order: seq<nat>) returns (allData: seq<PackageRecord>)
    requires IsCompletionOrder(order, |results|)
    ensures allData == Drained(results, order)
    ensures multiset(allData) == AllRecords(results)
    ensures |allData| == TotalRecords(results)
    ensures forall k :: 0 <= k < |order| ==>
      && BlockStart(results, order, k) + |results[order[k]]| <= |allData|
      && allData[BlockStart(results, order, k)..BlockStart(results, order, k) + |results[order[k]]|] == results[order[k]]
  {
    allData := [];
    var i := 0;
    while i < |order|
      invariant 0 <= i <= |order|
      invariant allData == Concat(Completed(results, order[..i]))
    {
      assert Completed(results, order[..i + 1])[..i] == Completed(results, order[..i]);
      allData := allData + results[order[i]];
      i := i + 1;
    }
    assert order[..|order|] == order;
    DrainedHoldsEveryRecord(results, order);
    forall k | 0 <= k < |order|
      ensures BlockStart(results, order, k) + |results[order[k]]| <= |allData|
      ensures allData[BlockStart(results, order, k)..BlockStart(results, order, k) + |results[order[k]]|] == results[order[k]]
    {
      DrainedBlock(results, order, k);
    }
  }

  lemma {:induction false} ConcatAppend(a: seq<seq<PackageRecord>>, b: seq<seq<PackageRecord>>)
    ensures Concat(a + b) == Concat(a) + Concat(b)
    decreases |b|
  {
    if b == [] {
      assert a + b == a;
    } else {
      var init, last := b[..|b| - 1], b[|b| - 1];
      assert (a + b)[..|a + b| - 1] == a + init;
      assert (a + b)[|a + b| - 1] == last;
      ConcatAppend(a, init);
      calc {
        Concat(a + b);
        Concat(a + init) + last;
        (Concat(a) + Concat(init)) + last;
        Concat(a) + (Concat(init) + last);
        Concat(a) + Concat(b);
      }
    }
  }

  lemma {:induction false} ConcatLength(blocks: seq<seq<PackageRecord>>)
    ensures |Concat(blocks)| == TotalRecords(blocks)
  {
    if blocks != [] {
      ConcatLength(blocks[..|blocks| - 1]);
    }
  }

  lemma {:induction false} ConcatBag(blocks: seq<seq<PackageRecord>>)
    ensures multiset(Concat(blocks)) == AllRecords(blocks)
  {
    if blocks != [] {
      ConcatBag(blocks[..|blocks| - 1]);
    }
  }

  lemma {:induction false} AllRecordsSize(blocks: seq<seq<PackageRecord>>)
    ensures |AllRecords(blocks)| == TotalRecords(blocks)
  {
    if blocks != [] {
      AllRecordsSize(blocks[..|blocks| - 1]);
    }
  }

  lemma {:induction false} AllRecordsAppend(a: seq<seq<PackageRecord>>, b: seq<seq<PackageRecord>>)
    ensures AllRecords(a + b) == AllRecords(a) + AllRecords(b)
    decreases |b|
  {
    if b == [] {
      assert a + b == a;
    } else {
      assert (a + b)[..|a + b| - 1] == a + b[..|b| - 1];
      AllRecordsAppend(a, b[..|b| - 1]);
    }
  }

  /** A record is among all the records exactly when some block holds it. */
  lemma {:induction false} AllRecordsMembers(blocks: seq<seq<PackageRecord>>, x: PackageRecord)
    ensures x in AllRecords(blocks) <==> exists a :: 0 <= a < |blocks| && x in blocks[a]
  {
    if blocks != [] {
      var init := blocks[..|blocks| - 1];
      AllRecordsMembers(init, x);
      if exists a :: 0 <= a < |blocks| && x in blocks[a] {
        var a :| 0 <= a < |blocks| && x in blocks[a];
        if a < |blocks| - 1 {
          assert x in init[a];
        }
      }
      if exists a :: 0 <= a < |init| && x in init[a] {
        var a :| 0 <= a < |init| && x in init[a];
        assert x in blocks[a];
      }
    }
  }

  /** Taking out the entry at `j` takes one copy of it out of the multiset. */
  lemma RemoveAt(b: seq<nat>, j: nat)
    requires j < |b|
    ensures b == b[..j] + [b[j]] + b[j + 1..]
    ensures multiset(b[..j] + b[j + 1..]) == multiset(b) - multiset{b[j]}
  {
  }

  lemma CompletedAppend(results: seq<seq<PackageRecord>>, u: seq<nat>, v: seq<nat>)
    ensures AllRecords(Completed(results, u + v)) == AllRecords(Completed(results, u)) + AllRecords(Completed(results, v))
  {
    assert Completed(results, u + v) == Completed(results, u) + Completed(results, v);
    AllRecordsAppend(Completed(results, u), Completed(results, v));
  }

  /** Taking the agent at position `j` out of an order takes its records out of the bag. */
  lemma CompletedRemoveAt(results: seq<seq<PackageRecord>>, b: seq<nat>, j: nat)
    requires j < |b|
    ensures AllRecords(Completed(results, b))
         == AllRecords(Completed(results, b[..j] + b[j + 1..])) + multiset(ResultOf(results, b[j]))
  {
    var front, back, single := b[..j], b[j + 1..], [b[j]];
    RemoveAt(b, j);
    CompletedAppend(results, front + single, back);
    CompletedAppend(results, front, single);
    CompletedAppend(results, front, back);
    assert Completed(results, single) == [ResultOf(results, b[j])];
    assert AllRecords([ResultOf(results, b[j])]) == multiset(ResultOf(results, b[j])) by {
      assert [ResultOf(results, b[j])][..0] == [];
    }
  }

  /**
   * The records gathered do not depend on the order in which the agents'
   * lists are appended: any rearrangement gives the same multiset.
   */
  lemma {:induction false} CompletedBagIgnoresOrder(results: seq<seq<PackageRecord>>, a: seq<nat>, b: seq<nat>)
    requires multiset(a) == multiset(b)
    ensures AllRecords(Completed(results, a)) == AllRecords(Completed(results, b))
    decreases |a|
  {
    if a == [] {
      assert b == [] by {
        assert |multiset(b)| == 0;
      }
    } else {
      var x := a[|a| - 1];
      var a' := a[..|a| - 1];
      assert a[..|a| - 1] + a[|a|..] == a';
      RemoveAt(a, |a| - 1);
      CompletedRemoveAt(results, a, |a| - 1);
      assert x in multiset(b);
      var j :| 0 <= j < |b| && b[j] == x;
      RemoveAt(b, j);
      CompletedRemoveAt(results, b, j);
      CompletedBagIgnoresOrder(results, a', b[..j] + b[j + 1..]);
    }
  }

  /**
   * Whatever the completion order, `all_data` holds every record of every
   * agent's list, as often as it occurs there, and nothing else; its length
   * is the sum of the lists' lengths.
   */
  lemma DrainedHoldsEveryRecord(results: seq<seq<PackageRecord>>, order: seq<nat>)
    requires IsCompletionOrder(order, |results|)
    ensures multiset(Drained(results, order)) == AllRecords(results)
    ensures |Drained(results, order)| == TotalRecords(results)
  {
    var n := |results|;
    CompletedBagIgnoresOrder(results, order, Range(n));
    assert Completed(results, Range(n)) == results;
    ConcatBag(Completed(results, order));
    AllRecordsSize(results);
    assert |multiset(Drained(results, order))| == |Drained(results, order)|;
  }

  /** No record appears in `all_data` that did not come from some agent's list. */
  lemma DrainedComesFromSomeAgent(results: seq<seq<PackageRecord>>, order: seq<nat>, x: PackageRecord)
    requires IsCompletionOrder(order, |results|)
    ensures x in Drained(results, order) <==> exists a :: 0 <= a < |results| && x in results[a]
  {
    DrainedHoldsEveryRecord(results, order);
    AllRecordsMembers(results, x);
    assert x in Drained(results, order) <==> x in multiset(Drained(results, order));
  }

  /** The `k`-th agent to complete has its whole list, in its own order, as one block of `all_data`. */
  lemma DrainedBlock(results: seq<seq<PackageRecord>>, order: seq<nat>, k: nat)
    requires k < |order|
    requires forall j :: 0 <= j < |order| ==> order[j] < |results|
    ensures BlockStart(results, order, k) + |results[order[k]]| <= |Drained(results, order)|
    ensures var s := BlockStart(results, order, k);
      Drained(results, order)[s..s + |results[order[k]]|] == results[order[k]]
  {
    var blocks := Completed(results, order);
    var before := blocks[..k];
    var after := blocks[k + 1..];
    assert blocks == before + [results[order[k]]] + after;
    assert before == Completed(results, order[..k]);
    ConcatAppend(before + [results[order[k]]], after);
    ConcatAppend(before, [results[order[k]]]);
    assert Concat([results[order[k]]]) == results[order[k]] by {
      assert [results[order[k]]][..0] == [];
    }
    ConcatLength(before);
  }
}
