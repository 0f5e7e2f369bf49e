/** Coalescing happens. */
module Coalescing {
  // What the queue must look like, said without the search that keeps it so: when a
  // mutation has to be absorbed, by which record, what that record becomes, and which
  // records never stand in one queue.

  import opened Mutations

  // ----- Which record must absorb a mutation -----

  /** A document mutation other than a close goes onto the last record of its document, unless
      that is a close or a workspace batch follows it; a workspace batch goes onto a batch at
      the tail. */
  predicate Mergeable(pending: seq<Mutation>, at: int, m: Mutation) {
    && 0 <= at < |pending|
    && if m.Workspace? then at == |pending| - 1 && pending[at].Workspace?
       else
         && SameDocument(pending[at], m) && !pending[at].Close? && !m.Close?
         && forall k :: at < k < |pending| ==> !pending[k].Workspace? && pending[k].uri != m.uri
  }

  predicate SameDocument(a: Mutation, b: Mutation) { !a.Workspace? && !b.Workspace? && a.uri == b.uri }

  lemma MergeableIsUnique(pending: seq<Mutation>, i: int, j: int, m: Mutation)
    requires Mergeable(pending, i, m) && Mergeable(pending, j, m)
    ensures i == j
  {
  }

  lemma {:induction false} SearchFinds(pending: seq<Mutation>, at: int, m: Mutation)
    ensures Mergeable(pending, at, m) ==> Absorber(pending, m) == at
  {
    if pending != [] && Mergeable(pending, at, m) && at < |pending| - 1 {
      var front := pending[..|pending| - 1];
      assert Mergeable(front, at, m);
      SearchFinds(front, at, m);
    }
  }

  lemma SearchIsMergeable(pending: seq<Mutation>, m: Mutation)
    ensures Absorber(pending, m) >= 0 ==> Mergeable(pending, Absorber(pending, m), m)
  {
    AbsorberIsSound(pending, m);
    var at := Absorber(pending, m);
    if at >= 0 && !m.Workspace? {
      forall k | at < k < |pending| ensures !pending[k].Workspace? && pending[k].uri != m.uri {
        assert pending[at + 1..][k - at - 1] == pending[k];
      }
    }
  }

  // ----- What absorbing does -----

  /** The record carries the new text and version, and opens the document if the old did and
      the new one does not. A batch carries the union of both. */
  predicate Absorbed(before: Mutation, m: Mutation, after: Mutation) {
    if m.Workspace? then
      && after.Workspace? && before.Workspace?
      && after.batch.rootDirty == (before.batch.rootDirty || m.batch.rootDirty)
      && after.batch.resourceDirty == (before.batch.resourceDirty || m.batch.resourceDirty)
      && after.batch.resourceChanged == (before.batch.resourceChanged || m.batch.resourceChanged)
      && after.batch.configurationChanged == (before.batch.configurationChanged || m.batch.configurationChanged)
    else
      && !after.Workspace? && !after.Close? && !m.Close? && after.uri == m.uri && after.version == m.version
      && after.text == m.text && after.Open? == (m.Open? || before.Open?)
  }

  /** A mutation is absorbed exactly when some record must absorb it: the queue keeps its
      length and every other record. Otherwise it joins the tail. */
  lemma EnqueueExactly(pending: seq<Mutation>, m: Mutation)
    ensures |Enqueue(pending, m)| == |pending| <==> exists at :: Mergeable(pending, at, m)
    ensures forall at :: Mergeable(pending, at, m) ==>
      exists x :: Absorbed(pending[at], m, x) && Enqueue(pending, m) == pending[at := x]
    ensures !(exists at :: Mergeable(pending, at, m)) ==> Enqueue(pending, m) == pending + [m]
  {
    SearchIsMergeable(pending, m);
    forall at | Mergeable(pending, at, m)
      ensures exists x :: Absorbed(pending[at], m, x) && Enqueue(pending, m) == pending[at := x]
    {
      SearchFinds(pending, at, m);
      assert Absorbed(pending[at], m, Merge(pending[at], m));
    }
  }

  // ----- Which records never stand in one queue -----

  /** Between two records of one document, themselves included, there is a close of it or a
      workspace batch. */
  predicate Separated(pending: seq<Mutation>, i: nat, j: nat)
    requires i < j < |pending|
  {
    SameDocument(pending[i], pending[j]) ==>
      exists k :: i <= k <= j && (pending[k].Workspace? || (pending[k].Close? && SameDocument(pending[k], pending[i])))
  }

  predicate Compact(pending: seq<Mutation>) {
    && (forall i, j :: 0 <= i < j < |pending| ==> Separated(pending, i, j))
    && forall i {:trigger pending[i]} :: 0 < i < |pending| ==> !(pending[i - 1].Workspace? && pending[i].Workspace?)
  }

  lemma ReplacingKeepsCompact(pending: seq<Mutation>, at: nat, x: Mutation)
    requires Compact(pending) && at < |pending|
    requires x.Workspace? == pending[at].Workspace?
    requires !x.Workspace? ==> x.uri == pending[at].uri && !x.Close? && !pending[at].Close?
    ensures Compact(pending[at := x])
  {
    var after := pending[at := x];
    forall i, j | 0 <= i < j < |after| ensures Separated(after, i, j) {
      assert Separated(pending, i, j);
      if SameDocument(pending[i], pending[j]) {
        var k :| i <= k <= j
          && (pending[k].Workspace? || (pending[k].Close? && SameDocument(pending[k], pending[i])));
        assert after[k].Workspace? || (after[k].Close? && SameDocument(after[k], after[i]));
      }
    }
  }

  lemma AppendingKeepsCompact(pending: seq<Mutation>, m: Mutation)
    requires Compact(pending) && forall at :: !Mergeable(pending, at, m)
    ensures Compact(pending + [m])
  {
    var after := pending + [m];
    forall i, j | 0 <= i < j < |after| ensures Separated(after, i, j) {
      if j < |pending| {
        assert Separated(pending, i, j);
        if SameDocument(pending[i], pending[j]) {
          var k :| i <= k <= j
            && (pending[k].Workspace? || (pending[k].Close? && SameDocument(pending[k], pending[i])));
          assert after[k].Workspace? || (after[k].Close? && SameDocument(after[k], after[i]));
        }
      } else if SameDocument(pending[i], m) {
        LastOfDocument(pending, i, m);
      }
    }
    if |pending| > 0 { assert !Mergeable(pending, |pending| - 1, m); }
  }

  /** With a record of its document in the queue and nothing to absorb it, a mutation is
      separated from that record. */
  lemma {:induction false} LastOfDocument(pending: seq<Mutation>, i: nat, m: Mutation)
    requires i < |pending| && SameDocument(pending[i], m) && forall at :: !Mergeable(pending, at, m)
    ensures Separated(pending + [m], i, |pending|)
    decreases |pending| - i
  {
    var after := pending + [m];
    assert !Mergeable(pending, i, m);
    if m.Close? {
      assert after[|pending|].Close?;
    } else if pending[i].Close? {
      assert after[i].Close?;
    } else {
      var k :| i < k < |pending| && (pending[k].Workspace? || pending[k].uri == m.uri);
      if pending[k].Workspace? {
        assert after[k].Workspace?;
      } else {
        LastOfDocument(pending, k, m);
        var l :| k <= l <= |pending| && (after[l].Workspace? || (after[l].Close? && SameDocument(after[l], after[k])));
        assert i <= l <= |pending|;
      }
    }
  }

  lemma EnqueueKeepsCompact(pending: seq<Mutation>, m: Mutation)
    requires Compact(pending)
    ensures Compact(Enqueue(pending, m))
  {
    EnqueueExactly(pending, m);
    if at :| Mergeable(pending, at, m) {
      var x :| Absorbed(pending[at], m, x) && Enqueue(pending, m) == pending[at := x];
      ReplacingKeepsCompact(pending, at, x);
    } else {
      AppendingKeepsCompact(pending, m);
    }
  }

  lemma DequeueKeepsCompact(pending: seq<Mutation>)
    requires Compact(pending) && pending != []
    ensures Compact(pending[1..])
  {
    var after := pending[1..];
    forall i, j | 0 <= i < j < |after| ensures Separated(after, i, j) {
      assert Separated(pending, i + 1, j + 1);
      if SameDocument(after[i], after[j]) {
        var k :| i + 1 <= k <= j + 1
          && (pending[k].Workspace? || (pending[k].Close? && SameDocument(pending[k], pending[i + 1])));
        assert after[k - 1] == pending[k];
      }
    }
    forall i | 0 < i < |after| ensures !(after[i - 1].Workspace? && after[i].Workspace?) {
      assert after[i] == pending[i + 1] && after[i - 1] == pending[i];
    }
  }

  /** In every queue that accepts and dequeues reach, two records of one document are
      separated and no two workspace batches are neighbours. */
  lemma {:induction false} QueueIsCompact(ss: seq<QueueStep>)
    ensures Compact(Steps(ss).pending)
  {
    if ss != [] {
      QueueIsCompact(ss[..|ss| - 1]);
      var r, s := Steps(ss[..|ss| - 1]), ss[|ss| - 1];
      if s.Accept? {
        EnqueueKeepsCompact(r.pending, s.m);
      } else if r.pending != [] {
        DequeueKeepsCompact(r.pending);
      }
    }
  }
}
