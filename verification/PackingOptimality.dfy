/** Lexicographic optimality of packing: counted per age bucket, oldest bucket first, no feasible
    subset of the candidates beats the greedy selection. */
module PackingOptimality {
  import opened Totals
  import opened Sorting
  import opened Jobs
  import opened Packing

  /** A subset of the candidates that respects the budget and the batch cap. */
  ghost predicate Feasible(t: seq<Job>, candidates: seq<Job>, budget: size_t, maxBatch: int32) {
    && multiset(t) <= multiset(candidates)
    && Total(t, JobBytes()) <= budget
    && (maxBatch > 0 ==> |t| <= maxBatch)
  }

  function InBucket(now: int, bucket: nat): Job -> nat {
    (j: Job) => if AgeBucket(now, j) == bucket then 1 else 0
  }

  function BucketCount(t: seq<Job>, now: int, bucket: nat): nat {
    Total(t, InBucket(now, bucket))
  }

  // ----- subsets of a sorted list as masks

  function Picked(s: seq<Job>, pick: seq<bool>, i: nat): seq<Job>
    requires i <= |s| == |pick|
  {
    if i == 0 then [] else if pick[i - 1] then Picked(s, pick, i - 1) + [s[i - 1]] else Picked(s, pick, i - 1)
  }

  lemma {:induction false} PickedLocal(s: seq<Job>, pick: seq<bool>, s': seq<Job>, pick': seq<bool>, i: nat)
    requires i <= |s| == |pick| && i <= |s'| == |pick'|
    requires s[..i] == s'[..i] && pick[..i] == pick'[..i]
    ensures Picked(s, pick, i) == Picked(s', pick', i)
  {
    if i > 0 {
      assert s[..i][i - 1] == s'[..i][i - 1] && pick[..i][i - 1] == pick'[..i][i - 1];
      assert s[..i][..i - 1] == s[..i - 1] && s'[..i][..i - 1] == s'[..i - 1];
      assert pick[..i][..i - 1] == pick[..i - 1] && pick'[..i][..i - 1] == pick'[..i - 1];
      PickedLocal(s, pick, s', pick', i - 1);
    }
  }

  lemma ExtendMask(front: seq<Job>, p: seq<bool>, x: Job, b: bool)
    requires |front| == |p|
    ensures Picked(front + [x], p + [b], |front| + 1) == Picked(front, p, |front|) + (if b then [x] else [])
  {
    PickedLocal(front + [x], p + [b], front, p, |front|);
  }

  /** Every sub-multiset of a list is a mask over it, up to order. */
  lemma {:induction false} SubsetAsMask(s: seq<Job>, t: seq<Job>) returns (pick: seq<bool>)
    requires multiset(t) <= multiset(s)
    ensures |pick| == |s| && multiset(Picked(s, pick, |s|)) == multiset(t)
  {
    if s == [] {
      assert |multiset(t)| == 0;
      pick := [];
    } else {
      var front, x := s[..|s| - 1], s[|s| - 1];
      assert s == front + [x];
      var p: seq<bool>;
      if x in t {
        var k :| 0 <= k < |t| && t[k] == x;
        WithLast(front, x, t, k);
        p := SubsetAsMask(front, t[..k] + t[k + 1..]);
        pick := p + [true];
        ExtendMask(front, p, x, true);
      } else {
        WithoutLast(front, x, t);
        p := SubsetAsMask(front, t);
        pick := p + [false];
        ExtendMask(front, p, x, false);
      }
    }
  }

  lemma WithLast(front: seq<Job>, x: Job, t: seq<Job>, k: nat)
    requires multiset(t) <= multiset(front + [x]) && k < |t| && t[k] == x
    ensures multiset(t[..k] + t[k + 1..]) <= multiset(front)
    ensures multiset(t) == multiset(t[..k] + t[k + 1..]) + multiset{x}
  {
    RemoveFromMultiset(t, k);
    assert x in multiset(t);
  }

  lemma WithoutLast(front: seq<Job>, x: Job, t: seq<Job>)
    requires multiset(t) <= multiset(front + [x]) && x !in t
    ensures multiset(t) <= multiset(front)
  {
    assert multiset(t)[x] == 0;
  }

  /** The mask of the greedy sweep itself. */
  lemma {:induction false} SweepAsMask(s: seq<Job>, budget: size_t, maxBatch: int32) returns (pick: seq<bool>)
    ensures |pick| == |s|
    ensures forall i :: 0 <= i <= |s| ==> Picked(s, pick, i) == SweepOver(s[..i], budget, maxBatch).selected
  {
    hide BytesRequired;
    if s == [] {
      pick := [];
    } else {
      var front, x := s[..|s| - 1], s[|s| - 1];
      var p := SweepAsMask(front, budget, maxBatch);
      pick := p + [Accepts(SweepOver(front, budget, maxBatch), x, budget, maxBatch)];
      forall i | 0 <= i <= |s| ensures Picked(s, pick, i) == SweepOver(s[..i], budget, maxBatch).selected {
        if i < |s| {
          assert front[..i] == s[..i];
          PickedLocal(s, pick, front, p, i);
        } else {
          assert front[..|front|] == front && s[..i] == s;
          PickedLocal(s, pick, front, p, |front|);
        }
      }
    }
  }

  // ----- one age bucket: a run [p, q) of the sorted list with ascending footprints

  function PrefixBytes(s: seq<Job>, i: nat): nat
    requires i <= |s|
  {
    Total(s[..i], JobBytes())
  }

  lemma PrefixStep(s: seq<Job>, i: nat)
    requires i < |s|
    ensures PrefixBytes(s, i + 1) == PrefixBytes(s, i) + BytesRequired(s[i])
  {
    assert s[..i + 1] == s[..i] + [s[i]];
    TotalSnoc(s[..i], s[i], JobBytes());
  }

  lemma {:induction false} PrefixMonotone(s: seq<Job>, i: nat, k: nat)
    requires i <= k <= |s|
    ensures PrefixBytes(s, i) <= PrefixBytes(s, k)
  {
    hide BytesRequired;
    if i < k {
      PrefixMonotone(s, i, k - 1);
      PrefixStep(s, k - 1);
    }
  }

  ghost predicate Ascending(s: seq<Job>, p: nat, q: nat) {
    p <= q <= |s| && forall i, k :: p <= i < k < q ==> BytesRequired(s[i]) <= BytesRequired(s[k])
  }

  /** Picking `c` jobs of an ascending run costs at least as much as its first `c` jobs. */
  lemma {:induction false} CheapestFirst(s: seq<Job>, pick: seq<bool>, p: nat, q: nat)
    requires |pick| == |s| && Ascending(s, p, q)
    ensures
      var c := |Picked(s, pick, q)| - |Picked(s, pick, p)|;
      && 0 <= c <= q - p
      && PrefixBytes(s, p + c) - PrefixBytes(s, p)
         <= Total(Picked(s, pick, q), JobBytes()) - Total(Picked(s, pick, p), JobBytes())
  {
    hide BytesRequired;
    hide Total;
    hide PrefixBytes;
    if p < q {
      CheapestFirst(s, pick, p, q - 1);
      if pick[q - 1] {
        var c := |Picked(s, pick, q - 1)| - |Picked(s, pick, p)|;
        TotalSnoc(Picked(s, pick, q - 1), s[q - 1], JobBytes());
        PrefixStep(s, p + c);
        assert BytesRequired(s[p + c]) <= BytesRequired(s[q - 1]);
      }
    }
  }

  function Count(s: seq<Job>, i: nat, budget: size_t, maxBatch: int32): nat
    requires i <= |s|
  {
    |SweepOver(s[..i], budget, maxBatch).selected|
  }

  function Used(s: seq<Job>, i: nat, budget: size_t, maxBatch: int32): nat
    requires i <= |s|
  {
    SweepOver(s[..i], budget, maxBatch).used
  }

  lemma SweepStep(s: seq<Job>, i: nat, budget: size_t, maxBatch: int32)
    requires i < |s| && budget < SIZE_HALF
    ensures
      var n, u := Count(s, i, budget, maxBatch), Used(s, i, budget, maxBatch);
      if (maxBatch > 0 && n >= maxBatch) || u + BytesRequired(s[i]) > budget
      then Count(s, i + 1, budget, maxBatch) == n && Used(s, i + 1, budget, maxBatch) == u
      else Count(s, i + 1, budget, maxBatch) == n + 1 && Used(s, i + 1, budget, maxBatch) == u + BytesRequired(s[i])
  {
    hide BytesRequired;
    assert s[..i + 1][..i] == s[..i];
    UsedIsExact(s[..i], budget, maxBatch);
  }

  /** Over an ascending run the sweep takes the first `c` jobs and then no more, because the cap
      is reached or the next job, hence every later one of the run, no longer fits. */
  lemma {:induction false} SweepTakesPrefixOfRun(s: seq<Job>, p: nat, q: nat, budget: size_t, maxBatch: int32)
    requires Ascending(s, p, q) && budget < SIZE_HALF
    ensures
      var c := Count(s, q, budget, maxBatch) - Count(s, p, budget, maxBatch);
      && 0 <= c <= q - p
      && Used(s, q, budget, maxBatch) == Used(s, p, budget, maxBatch) + PrefixBytes(s, p + c) - PrefixBytes(s, p)
      && (c < q - p ==>
            || (maxBatch > 0 && Count(s, q, budget, maxBatch) >= maxBatch)
            || Used(s, q, budget, maxBatch) + BytesRequired(s[p + c]) > budget)
  {
    hide BytesRequired;
    hide Count;
    hide Used;
    hide PrefixBytes;
    if p < q {
      SweepTakesPrefixOfRun(s, p, q - 1, budget, maxBatch);
      SweepStep(s, q - 1, budget, maxBatch);
      var c := Count(s, q - 1, budget, maxBatch) - Count(s, p, budget, maxBatch);
      PrefixStep(s, p + c);
    }
  }

  /** If a feasible mask enters the run with as many jobs and no less memory than the sweep, it
      cannot take more jobs of the run, and if it takes as many it has used no less memory. */
  lemma RunDominates(s: seq<Job>, pick: seq<bool>, p: nat, q: nat, budget: size_t, maxBatch: int32)
    requires |pick| == |s| && Ascending(s, p, q) && budget < SIZE_HALF
    requires |Picked(s, pick, p)| == Count(s, p, budget, maxBatch)
    requires Used(s, p, budget, maxBatch) <= Total(Picked(s, pick, p), JobBytes())
    requires Total(Picked(s, pick, q), JobBytes()) <= budget
    requires maxBatch > 0 ==> |Picked(s, pick, q)| <= maxBatch
    ensures |Picked(s, pick, q)| <= Count(s, q, budget, maxBatch)
    ensures |Picked(s, pick, q)| == Count(s, q, budget, maxBatch) ==>
              Used(s, q, budget, maxBatch) <= Total(Picked(s, pick, q), JobBytes())
  {
    hide BytesRequired;
    hide Count;
    hide Used;
    hide PrefixBytes;
    hide Picked;
    hide Total;
    CheapestFirst(s, pick, p, q);
    SweepTakesPrefixOfRun(s, p, q, budget, maxBatch);
    var c := Count(s, q, budget, maxBatch) - Count(s, p, budget, maxBatch);
    var cT := |Picked(s, pick, q)| - |Picked(s, pick, p)|;
    if cT > c {
      PrefixStep(s, p + c);
      PrefixMonotone(s, p + c + 1, p + cT);
    }
  }

  // ----- all age buckets

  /** The run [p, q) holds exactly the jobs of `bucket`. */
  ghost predicate IsRun(s: seq<Job>, now: int, bucket: nat, p: nat, q: nat) {
    && p <= q <= |s|
    && forall i :: 0 <= i < |s| ==> (AgeBucket(now, s[i]) == bucket <==> p <= i < q)
  }

  lemma {:induction false} RunCount(s: seq<Job>, pick: seq<bool>, now: int, bucket: nat, p: nat, q: nat, i: nat)
    requires |pick| == |s| && IsRun(s, now, bucket, p, q) && i <= |s|
    ensures |Picked(s, pick, p)| <= |Picked(s, pick, q)|
    ensures
      BucketCount(Picked(s, pick, i), now, bucket)
      == if i <= p then 0
         else if i <= q then |Picked(s, pick, i)| - |Picked(s, pick, p)|
         else |Picked(s, pick, q)| - |Picked(s, pick, p)|
  {
    hide BytesRequired;
    hide AgeBucket;
    PickedGrows(s, pick, p, q);
    if i > 0 {
      RunCount(s, pick, now, bucket, p, q, i - 1);
      if pick[i - 1] {
        TotalSnoc(Picked(s, pick, i - 1), s[i - 1], InBucket(now, bucket));
      }
    }
  }

  lemma {:induction false} PickedGrows(s: seq<Job>, pick: seq<bool>, p: nat, q: nat)
    requires p <= q <= |s| == |pick|
    ensures |Picked(s, pick, p)| <= |Picked(s, pick, q)|
    ensures Total(Picked(s, pick, p), JobBytes()) <= Total(Picked(s, pick, q), JobBytes())
  {
    hide BytesRequired;
    if p < q {
      PickedGrows(s, pick, p, q - 1);
      if pick[q - 1] {
        TotalSnoc(Picked(s, pick, q - 1), s[q - 1], JobBytes());
      }
    }
  }

  /** Buckets descend along the packing order and footprints ascend inside a bucket. */
  ghost predicate Layered(s: seq<Job>, now: int) {
    forall i, k :: 0 <= i < k < |s| ==>
      || AgeBucket(now, s[i]) > AgeBucket(now, s[k])
      || (AgeBucket(now, s[i]) == AgeBucket(now, s[k]) && BytesRequired(s[i]) <= BytesRequired(s[k]))
  }

  /** The end of the run that starts at `p`. */
  lemma RunEnd(s: seq<Job>, now: int, p: nat) returns (q: nat)
    requires Layered(s, now) && p < |s|
    requires forall i :: 0 <= i < p ==> AgeBucket(now, s[i]) > AgeBucket(now, s[p])
    ensures p < q <= |s| && IsRun(s, now, AgeBucket(now, s[p]), p, q) && Ascending(s, p, q)
    ensures q < |s| ==> forall i :: 0 <= i < q ==> AgeBucket(now, s[i]) > AgeBucket(now, s[q])
  {
    hide BytesRequired;
    hide AgeBucket;
    var bucket := AgeBucket(now, s[p]);
    q := p + 1;
    while q < |s| && AgeBucket(now, s[q]) == bucket
      invariant p < q <= |s|
      invariant forall i :: p <= i < q ==> AgeBucket(now, s[i]) == bucket
    {
      q := q + 1;
    }
  }

  /** From a bucket boundary on, a mask that agrees with the sweep on every older bucket down to
      `bucket` does not beat it in `bucket`. */
  lemma {:induction false} LexFrom(s: seq<Job>, pick: seq<bool>, greedy: seq<bool>, now: int, bucket: nat, p: nat,
                                   budget: size_t, maxBatch: int32)
    requires |pick| == |greedy| == |s| && Layered(s, now) && budget < SIZE_HALF && p <= |s|
    requires p < |s| ==> forall i :: 0 <= i < p ==> AgeBucket(now, s[i]) > AgeBucket(now, s[p])
    requires forall i :: 0 <= i < p ==> AgeBucket(now, s[i]) > bucket
    requires forall i :: 0 <= i <= |s| ==> Picked(s, greedy, i) == SweepOver(s[..i], budget, maxBatch).selected
    requires |Picked(s, pick, p)| == Count(s, p, budget, maxBatch)
    requires Used(s, p, budget, maxBatch) <= Total(Picked(s, pick, p), JobBytes())
    requires Total(Picked(s, pick, |s|), JobBytes()) <= budget
    requires maxBatch > 0 ==> |Picked(s, pick, |s|)| <= maxBatch
    requires forall b: nat :: b > bucket ==>
               BucketCount(Picked(s, pick, |s|), now, b) == BucketCount(Picked(s, greedy, |s|), now, b)
    ensures BucketCount(Picked(s, pick, |s|), now, bucket) <= BucketCount(Picked(s, greedy, |s|), now, bucket)
    decreases |s| - p
  {
    hide BytesRequired;
    hide AgeBucket;
    hide SweepOver;
    hide Total;
    hide Picked;
    if p == |s| || AgeBucket(now, s[p]) < bucket {
      assert IsRun(s, now, bucket, p, p);
      RunCount(s, pick, now, bucket, p, p, |s|);
    } else {
      var q := RunEnd(s, now, p);
      var b := AgeBucket(now, s[p]);
      PickedGrows(s, pick, q, |s|);
      RunDominates(s, pick, p, q, budget, maxBatch);
      RunCount(s, pick, now, b, p, q, |s|);
      RunCount(s, greedy, now, b, p, q, |s|);
      if b > bucket {
        LexFrom(s, pick, greedy, now, bucket, q, budget, maxBatch);
      }
    }
  }

  lemma NothingAtStart(s: seq<Job>, pick: seq<bool>, budget: size_t, maxBatch: int32)
    requires |pick| == |s|
    ensures |Picked(s, pick, 0)| == Count(s, 0, budget, maxBatch) == Used(s, 0, budget, maxBatch) == 0
  {
  }

  lemma SortedIsLayered(candidates: seq<Job>, now: int)
    ensures Layered(Sorted(candidates, now), now)
  {
    PackOrderIsStrictTotal(now, candidates);
    SortSorts(candidates, PacksBefore(now));
    hide BytesRequired;
    hide AgeBucket;
    var s := Sorted(candidates, now);
    forall i, k | 0 <= i < k < |s|
      ensures AgeBucket(now, s[i]) > AgeBucket(now, s[k])
              || (AgeBucket(now, s[i]) == AgeBucket(now, s[k]) && BytesRequired(s[i]) <= BytesRequired(s[k]))
    {
      assert !PacksBefore(now)(s[k], s[i]);
    }
  }

  /** Lexicographic optimality. Against any feasible subset `t`, at the oldest age bucket where
      the two selections differ in count, the packer's count is the larger one. */
  lemma PackIsLexOptimal(candidates: seq<Job>, t: seq<Job>, budget: size_t, maxBatch: int32, now: int, bucket: nat)
    requires budget < SIZE_HALF && Feasible(t, candidates, budget, maxBatch)
    requires forall b: nat :: b > bucket ==>
               BucketCount(t, now, b) == BucketCount(Pack(candidates, budget, maxBatch, now).selected, now, b)
    ensures BucketCount(t, now, bucket) <= BucketCount(Pack(candidates, budget, maxBatch, now).selected, now, bucket)
  {
    hide BytesRequired;
    hide AgeBucket;
    hide SweepOver;
    hide Total;
    hide Picked;
    hide SortBy;
    var s := Sorted(candidates, now);
    SortPermutes(candidates, PacksBefore(now));
    SortedIsLayered(candidates, now);
    var pick := SubsetAsMask(s, t);
    var greedy := SweepAsMask(s, budget, maxBatch);
    var tm := Picked(s, pick, |s|);
    assert s[..|s|] == s;
    TotalPermutation(tm, t, JobBytes());
    assert |tm| == |multiset(tm)| == |multiset(t)| == |t|;
    forall b: nat ensures BucketCount(tm, now, b) == BucketCount(t, now, b) {
      TotalPermutation(tm, t, InBucket(now, b));
    }
    NothingAtStart(s, pick, budget, maxBatch);
    LexFrom(s, pick, greedy, now, bucket, 0, budget, maxBatch);
  }

  /** No candidate in an older age bucket is larger than one in a younger bucket. */
  ghost predicate AgeRespectsSize(candidates: seq<Job>, now: int) {
    forall x, y :: x in candidates && y in candidates && AgeBucket(now, x) > AgeBucket(now, y) ==>
      BytesRequired(x) <= BytesRequired(y)
  }

  /** The packer selects a largest feasible set whenever age does not put a larger job ahead of a
      smaller one: in particular among candidates of one age bucket, and among jobs of one size. */
  lemma PackIsLargest(candidates: seq<Job>, t: seq<Job>, budget: size_t, maxBatch: int32, now: int)
    requires budget < SIZE_HALF && Feasible(t, candidates, budget, maxBatch)
    requires AgeRespectsSize(candidates, now)
    ensures |t| <= |Pack(candidates, budget, maxBatch, now).selected|
  {
    hide BytesRequired;
    hide AgeBucket;
    hide SweepOver;
    hide Total;
    hide Picked;
    hide SortBy;
    var s := Sorted(candidates, now);
    SortPermutes(candidates, PacksBefore(now));
    MembersSurvive(s, candidates);
    SortedIsLayered(candidates, now);
    assert Ascending(s, 0, |s|);
    var pick := SubsetAsMask(s, t);
    var tm := Picked(s, pick, |s|);
    assert s[..|s|] == s;
    TotalPermutation(tm, t, JobBytes());
    assert |tm| == |multiset(tm)| == |multiset(t)| == |t|;
    NothingAtStart(s, pick, budget, maxBatch);
    RunDominates(s, pick, 0, |s|, budget, maxBatch);
  }
}
