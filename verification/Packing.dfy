/** The greedy batch packer: age buckets, the packing order and the budgeted sweep. */
module Packing {
  import opened Totals
  import opened Sorting
  import opened Jobs

  const AGING_INTERVAL_MS: int := 1000
  const NS_PER_MS: int := 1_000_000
  /** One aging interval on the nanosecond clock. */
  const AGING_INTERVAL_NS: int := AGING_INTERVAL_MS * NS_PER_MS

  /** Division truncating toward zero, as `duration_cast` does. */
  function TruncDiv(a: int, d: int): int
    requires d > 0
  {
    if a >= 0 then a / d else -((-a) / d)
  }

  function AgeBucket(now: int, j: Job): nat {
    if j.submitTime == 0 then 0
    else
      var waitMs := TruncDiv(now - j.submitTime, NS_PER_MS);
      if waitMs > 0 then waitMs / AGING_INTERVAL_MS else 0
  }

  // ----- the packing order: age bucket desc, bytes asc, priority desc, seq asc

  datatype Key = Key(bucket: nat, bytes: nat, priority: int, seqNo: nat)

  predicate KeyLess(a: Key, b: Key) {
    if a.bucket != b.bucket then a.bucket > b.bucket
    else if a.bytes != b.bytes then a.bytes < b.bytes
    else if a.priority != b.priority then a.priority > b.priority
    else a.seqNo < b.seqNo
  }

  function KeyOf(now: int, j: Job): Key {
    Key(AgeBucket(now, j), BytesRequired(j), j.priority, j.seqNo)
  }

  function PacksBefore(now: int): (Job, Job) -> bool {
    (a: Job, b: Job) => KeyLess(KeyOf(now, a), KeyOf(now, b))
  }

  /** The order on the fields: an older age bucket, then a smaller footprint, then a higher priority,
      then a lower sequence number. */
  lemma PackOrderByField(now: int, a: Job, b: Job)
    ensures PacksBefore(now)(a, b) <==>
              || AgeBucket(now, a) > AgeBucket(now, b)
              || (AgeBucket(now, a) == AgeBucket(now, b) && BytesRequired(a) < BytesRequired(b))
              || (AgeBucket(now, a) == AgeBucket(now, b) && BytesRequired(a) == BytesRequired(b)
                  && (a.priority > b.priority || (a.priority == b.priority && a.seqNo < b.seqNo)))
  {
    hide BytesRequired;
    hide AgeBucket;
  }

  /** The age bucket counts the whole aging intervals of a thousand milliseconds that a stamped job has
      waited. */
  lemma AgeBucketCountsIntervals(now: int, j: Job)
    requires j.submitTime != 0
    ensures now >= j.submitTime ==>
              AgeBucket(now, j) * 1_000_000_000 <= now - j.submitTime < (AgeBucket(now, j) + 1) * 1_000_000_000
    ensures now < j.submitTime ==> AgeBucket(now, j) == 0
  {
    var w := now - j.submitTime;
    if w >= 0 {
      var ms := w / 1_000_000;
      assert ms * 1_000_000 <= w < (ms + 1) * 1_000_000;
      assert AgeBucket(now, j) == ms / 1000;
    }
  }

  lemma PackOrderIsStrictTotal(now: int, s: seq<Job>)
    ensures StrictWeakOrder(PacksBefore(now))
    ensures DistinctSeqNos(s) ==> TotalOn(s, PacksBefore(now))
  {
    assert forall a: Key, b: Key :: KeyLess(a, b) ==> !KeyLess(b, a);
    assert forall a: Key, b: Key, c: Key :: !KeyLess(a, b) && !KeyLess(b, c) ==> !KeyLess(a, c);
    if DistinctSeqNos(s) {
      forall a, b | a in s && b in s && a != b ensures PacksBefore(now)(a, b) || PacksBefore(now)(b, a) {
        assert KeyOf(now, a).seqNo != KeyOf(now, b).seqNo;
      }
    }
  }

  /** Aging is a step function of waiting time: one aging interval of extra waiting always puts
      a stamped job in an older bucket than any job already submitted. */
  lemma IntervalOutranks(now: int, elder: Job, young: Job)
    requires 0 < elder.submitTime && elder.submitTime + AGING_INTERVAL_NS <= young.submitTime <= now
    ensures AgeBucket(now, young) < AgeBucket(now, elder)
  {
    var wOld, wYoung := (now - elder.submitTime) / NS_PER_MS, (now - young.submitTime) / NS_PER_MS;
    assert wOld >= wYoung + AGING_INTERVAL_MS;
  }

  // ----- the sweep

  datatype Sweep = Sweep(selected: seq<Job>, remaining: seq<Job>, used: size_t)

  /** The loop's acceptance test, with the `size_t` sum it performs. */
  predicate Accepts(st: Sweep, j: Job, budget: size_t, maxBatch: int32) {
    && !(maxBatch > 0 && |st.selected| >= maxBatch)
    && !(BytesRequired(j) > budget || ToSize(st.used + BytesRequired(j)) > budget)
  }

  function SweepOver(s: seq<Job>, budget: size_t, maxBatch: int32): Sweep {
    if s == [] then Sweep([], [], 0)
    else
      var st, j := SweepOver(s[..|s| - 1], budget, maxBatch), s[|s| - 1];
      if Accepts(st, j, budget, maxBatch)
      then Sweep(st.selected + [j], st.remaining, ToSize(st.used + BytesRequired(j)))
      else Sweep(st.selected, st.remaining + [j], st.used)
  }

  function Sorted(candidates: seq<Job>, now: int): seq<Job> {
    SortBy(candidates, PacksBefore(now))
  }

  /** What one packing round does with its candidates at clock reading `now`. */
  function Pack(candidates: seq<Job>, budget: size_t, maxBatch: int32, now: int): Sweep {
    SweepOver(Sorted(candidates, now), budget, maxBatch)
  }

  method PackJobs(candidates: seq<Job>, budget: size_t, maxBatch: int32, now: int)
    returns (any: bool, selected: seq<Job>, remaining: seq<Job>)
    ensures selected == Pack(candidates, budget, maxBatch, now).selected
    ensures remaining == Pack(candidates, budget, maxBatch, now).remaining
    ensures any <==> selected != []
    ensures multiset(selected) + multiset(remaining) == multiset(candidates)
    ensures maxBatch > 0 ==> |selected| <= maxBatch
    ensures budget < SIZE_HALF ==> Total(selected, JobBytes()) <= budget
    ensures forall x, y ::
              x in selected && y in remaining && AgeBucket(now, x) == AgeBucket(now, y)
              && BytesRequired(x) == BytesRequired(y) ==>
                x.priority > y.priority || (x.priority == y.priority && x.seqNo <= y.seqNo)
  {
    hide BytesRequired;
    hide AgeBucket;
    hide Total;
    hide SortBy;
    selected, remaining := [], [];
    var sorted := SortBy(candidates, PacksBefore(now));
    var used: size_t := 0;
    for i := 0 to |sorted|
      invariant SweepOver(sorted[..i], budget, maxBatch) == Sweep(selected, remaining, used)
    {
      var job := sorted[i];
      assert sorted[..i + 1][..i] == sorted[..i];
      var need := BytesRequired(job);
      if maxBatch > 0 && |selected| >= maxBatch {
        remaining := remaining + [job];
        continue;
      }
      if need > budget || ToSize(used + need) > budget {
        remaining := remaining + [job];
        continue;
      }
      selected := selected + [job];
      used := ToSize(used + need);
    }
    assert sorted[..|sorted|] == sorted;
    any := selected != [];
    hide SweepOver;
    PackPartitions(candidates, budget, maxBatch, now);
    PackWithinBudget(candidates, budget, maxBatch, now);
    TiesGoToPriority(candidates, budget, maxBatch, now);
    hide Pack;
  }

  // ----- partition, cap, budget

  lemma {:induction false} SweepPartitions(s: seq<Job>, budget: size_t, maxBatch: int32)
    ensures
      var st := SweepOver(s, budget, maxBatch);
      && multiset(st.selected) + multiset(st.remaining) == multiset(s)
      && (maxBatch > 0 ==> |st.selected| <= maxBatch)
  {
    hide BytesRequired;
    if s != [] {
      SweepPartitions(s[..|s| - 1], budget, maxBatch);
      var st, j := SweepOver(s[..|s| - 1], budget, maxBatch), s[|s| - 1];
      assert s == s[..|s| - 1] + [j];
      assert multiset(s) == multiset(s[..|s| - 1]) + multiset{j};
      if Accepts(st, j, budget, maxBatch) {
        assert multiset(st.selected + [j]) == multiset(st.selected) + multiset{j};
      } else {
        assert multiset(st.remaining + [j]) == multiset(st.remaining) + multiset{j};
      }
    }
  }

  /** Selected and remaining jobs are together exactly the candidates, and the cap holds. */
  lemma PackPartitions(candidates: seq<Job>, budget: size_t, maxBatch: int32, now: int)
    ensures
      var p := Pack(candidates, budget, maxBatch, now);
      && multiset(p.selected) + multiset(p.remaining) == multiset(candidates)
      && (maxBatch > 0 ==> |p.selected| <= maxBatch)
  {
    SweepPartitions(Sorted(candidates, now), budget, maxBatch);
    SortPermutes(candidates, PacksBefore(now));
  }

  lemma {:induction false} UsedIsExact(s: seq<Job>, budget: size_t, maxBatch: int32)
    requires budget < SIZE_HALF
    ensures
      var st := SweepOver(s, budget, maxBatch);
      st.used == Total(st.selected, JobBytes()) <= budget
  {
    hide BytesRequired;
    if s != [] {
      UsedIsExact(s[..|s| - 1], budget, maxBatch);
      var st, j := SweepOver(s[..|s| - 1], budget, maxBatch), s[|s| - 1];
      TotalSnoc(st.selected, j, JobBytes());
    }
  }

  lemma PackWithinBudget(candidates: seq<Job>, budget: size_t, maxBatch: int32, now: int)
    ensures budget < SIZE_HALF ==> Total(Pack(candidates, budget, maxBatch, now).selected, JobBytes()) <= budget
  {
    hide BytesRequired;
    if budget < SIZE_HALF {
      UsedIsExact(Sorted(candidates, now), budget, maxBatch);
    }
  }

  lemma {:induction false} SingleIsExact(s: seq<Job>, budget: size_t)
    ensures
      var st := SweepOver(s, budget, 1);
      st.used == Total(st.selected, JobBytes()) <= budget && |st.selected| <= 1
  {
    hide BytesRequired;
    if s != [] {
      SingleIsExact(s[..|s| - 1], budget);
      var st, j := SweepOver(s[..|s| - 1], budget, 1), s[|s| - 1];
      TotalSnoc(st.selected, j, JobBytes());
    }
  }

  /** A job whose footprint is exactly 2^63 bytes. */
  function HalfRangeJob(seqNo: nat): Job {
    Job(seqNo, 0x4000_0000, 0x4000_0000, 0, 2, 0, 0, seqNo)
  }

  /** The promise "never exceeds the budget" of the packing tests is kept for every candidate
      list exactly when the budget is below 2^63 or batches hold a single job; above that the
      running sum wraps and two jobs of 2^63 bytes are packed together. */
  lemma BudgetIsHonouredIff(budget: size_t, maxBatch: int32)
    ensures
      (forall candidates, now :: Total(Pack(candidates, budget, maxBatch, now).selected, JobBytes()) <= budget)
      <==> budget < SIZE_HALF || maxBatch == 1
  {
    if budget < SIZE_HALF || maxBatch == 1 {
      forall candidates, now
        ensures Total(Pack(candidates, budget, maxBatch, now).selected, JobBytes()) <= budget
      {
        if maxBatch == 1 {
          SingleIsExact(Sorted(candidates, now), budget);
        } else {
          UsedIsExact(Sorted(candidates, now), budget, maxBatch);
        }
      }
    } else {
      var c := [HalfRangeJob(0), HalfRangeJob(1)];
      WrapsAround(budget, maxBatch);
      assert Total(Pack(c, budget, maxBatch, 0).selected, JobBytes()) > budget;
    }
  }

  lemma WrapsAround(budget: size_t, maxBatch: int32)
    requires SIZE_HALF <= budget && maxBatch != 1
    ensures
      var c := [HalfRangeJob(0), HalfRangeJob(1)];
      Total(Pack(c, budget, maxBatch, 0).selected, JobBytes()) == 2 * SIZE_HALF
  {
    HalfRangeBytes(0);
    HalfRangeBytes(1);
    hide BytesRequired;
    var a, b := HalfRangeJob(0), HalfRangeJob(1);
    var c := [a, b];
    SortOfPair(a, b, PacksBefore(0));
    assert SweepOver([], budget, maxBatch) == Sweep([], [], 0);
    assert [a][..0] == [] && c[..1] == [a];
    var one := SweepOver([a], budget, maxBatch);
    assert one == Sweep([a], [], SIZE_HALF);
    assert Accepts(one, b, budget, maxBatch);
    assert SweepOver(c, budget, maxBatch).selected == [a] + [b];
    TotalSnoc([], a, JobBytes());
    assert [] + [a] == [a];
    TotalSnoc([a], b, JobBytes());
  }

  lemma HalfRangeBytes(seqNo: nat)
    ensures BytesRequired(HalfRangeJob(seqNo)) == SIZE_HALF
  {
    BytesAreExactModuloSize(HalfRangeJob(seqNo));
    hide BytesRequired;
  }

  lemma SortOfPair(a: Job, b: Job, less: (Job, Job) -> bool)
    requires !less(b, a)
    ensures SortBy([a, b], less) == [a, b]
  {
    assert [a, b][1..] == [b] && [b][1..] == [];
    assert SortBy([b], less) == [b];
    assert Insert(a, [b], less) == [a] + [b];
  }

  // ----- maximality and canonicity

  lemma StaysRejected(st: Sweep, j: Job, r: Job, budget: size_t, maxBatch: int32)
    requires st.used <= budget < SIZE_HALF && Accepts(st, j, budget, maxBatch) && !Accepts(st, r, budget, maxBatch)
    ensures !Accepts(Sweep(st.selected + [j], st.remaining, ToSize(st.used + BytesRequired(j))), r, budget, maxBatch)
  {
    hide BytesRequired;
  }

  /** Once rejected, a job stays rejected: later acceptances only consume budget and slots. */
  lemma {:induction false} SweepIsMaximal(s: seq<Job>, budget: size_t, maxBatch: int32)
    requires budget < SIZE_HALF
    ensures
      var st := SweepOver(s, budget, maxBatch);
      forall r :: r in st.remaining ==> !Accepts(st, r, budget, maxBatch)
  {
    hide BytesRequired;
    hide Total;
    if s != [] {
      SweepIsMaximal(s[..|s| - 1], budget, maxBatch);
      UsedIsExact(s[..|s| - 1], budget, maxBatch);
      var st, j := SweepOver(s[..|s| - 1], budget, maxBatch), s[|s| - 1];
      if Accepts(st, j, budget, maxBatch) {
        forall r | r in st.remaining
          ensures !Accepts(Sweep(st.selected + [j], st.remaining, ToSize(st.used + BytesRequired(j))), r, budget,
                           maxBatch)
        {
          StaysRejected(st, j, r, budget, maxBatch);
          hide *;
        }
      } else {
        forall r | r in st.remaining + [j]
          ensures !Accepts(Sweep(st.selected, st.remaining + [j], st.used), r, budget, maxBatch)
        {
          assert !Accepts(st, r, budget, maxBatch);
        }
      }
    }
  }

  /** No job left behind could still be added within both the budget and the cap. */
  lemma PackIsMaximal(candidates: seq<Job>, budget: size_t, maxBatch: int32, now: int)
    requires budget < SIZE_HALF
    ensures
      var p := Pack(candidates, budget, maxBatch, now);
      forall r :: r in p.remaining ==>
        (maxBatch > 0 && |p.selected| == maxBatch) || Total(p.selected + [r], JobBytes()) > budget
  {
    hide BytesRequired;
    hide SweepOver;
    hide Total;
    hide Sorted;
    var s := Sorted(candidates, now);
    var p := Pack(candidates, budget, maxBatch, now);
    SweepIsMaximal(s, budget, maxBatch);
    UsedIsExact(s, budget, maxBatch);
    SweepPartitions(s, budget, maxBatch);
    forall r | r in p.remaining
      ensures (maxBatch > 0 && |p.selected| == maxBatch) || Total(p.selected + [r], JobBytes()) > budget
    {
      assert !Accepts(p, r, budget, maxBatch);
      TotalSnoc(p.selected, r, JobBytes());
    }
  }

  /** The outcome depends only on the set of candidates, not on the order in which the queue
      delivered them. */
  lemma PackIsCanonical(candidates: seq<Job>, other: seq<Job>, budget: size_t, maxBatch: int32, now: int)
    requires DistinctSeqNos(candidates) && multiset(candidates) == multiset(other)
    ensures Pack(candidates, budget, maxBatch, now) == Pack(other, budget, maxBatch, now)
  {
    var less := PacksBefore(now);
    PackOrderIsStrictTotal(now, candidates);
    SortPermutes(candidates, less);
    SortPermutes(other, less);
    SortSorts(candidates, less);
    SortSorts(other, less);
    MembersSurvive(Sorted(candidates, now), candidates);
    SortedUnique(Sorted(candidates, now), Sorted(other, now), less);
  }

  // ----- the order of the outcome

  /** The sweep goes over the candidates oldest bucket first, then smallest, then highest priority, then
      first submitted. */
  lemma SortedByField(candidates: seq<Job>, now: int, i: nat, k: nat)
    requires i < k < |Sorted(candidates, now)|
    ensures
      var a, b := Sorted(candidates, now)[i], Sorted(candidates, now)[k];
      || AgeBucket(now, a) > AgeBucket(now, b)
      || (AgeBucket(now, a) == AgeBucket(now, b) && BytesRequired(a) < BytesRequired(b))
      || (AgeBucket(now, a) == AgeBucket(now, b) && BytesRequired(a) == BytesRequired(b)
          && (a.priority > b.priority || (a.priority == b.priority && a.seqNo <= b.seqNo)))
  {
    hide BytesRequired;
    hide AgeBucket;
    PackOrderIsStrictTotal(now, candidates);
    SortSorts(candidates, PacksBefore(now));
    PackOrderByField(now, Sorted(candidates, now)[k], Sorted(candidates, now)[i]);
    hide PacksBefore;
    hide SortBy;
  }

  /** A selected job was accepted at its place, a remaining one rejected. */
  lemma {:induction false} SweptAt(s: seq<Job>, budget: size_t, maxBatch: int32, x: Job, taken: bool) returns (p: nat)
    requires x in (if taken then SweepOver(s, budget, maxBatch).selected else SweepOver(s, budget, maxBatch).remaining)
    ensures p < |s| && s[p] == x
    ensures Accepts(SweepOver(s[..p], budget, maxBatch), x, budget, maxBatch) == taken
  {
    hide BytesRequired;
    hide Accepts;
    var front, last := s[..|s| - 1], s[|s| - 1];
    var st := SweepOver(front, budget, maxBatch);
    if x in (if taken then st.selected else st.remaining) {
      p := SweptAt(front, budget, maxBatch, x, taken);
      assert front[..p] == s[..p];
    } else {
      p := |s| - 1;
    }
  }

  /** Behind a rejected job, jobs of its size are rejected too. */
  lemma {:induction false} EqualsStayRejected(s: seq<Job>, budget: size_t, maxBatch: int32, p: nat, q: nat)
    requires p <= q < |s| && !Accepts(SweepOver(s[..p], budget, maxBatch), s[p], budget, maxBatch)
    requires forall i :: p <= i <= q ==> BytesRequired(s[i]) == BytesRequired(s[p])
    ensures SweepOver(s[..q], budget, maxBatch).selected == SweepOver(s[..p], budget, maxBatch).selected
    ensures SweepOver(s[..q], budget, maxBatch).used == SweepOver(s[..p], budget, maxBatch).used
    ensures !Accepts(SweepOver(s[..q], budget, maxBatch), s[q], budget, maxBatch)
  {
    hide BytesRequired;
    if p < q {
      EqualsStayRejected(s, budget, maxBatch, p, q - 1);
      assert s[..q][..q - 1] == s[..q - 1] && s[..q][q - 1] == s[q - 1];
    }
  }

  /** Between two places of the packing order with the same bucket and size all jobs have them. */
  lemma SameBetween(candidates: seq<Job>, now: int, p: nat, q: nat, i: nat)
    requires p <= i <= q < |Sorted(candidates, now)|
    requires AgeBucket(now, Sorted(candidates, now)[p]) == AgeBucket(now, Sorted(candidates, now)[q])
    requires BytesRequired(Sorted(candidates, now)[p]) == BytesRequired(Sorted(candidates, now)[q])
    ensures BytesRequired(Sorted(candidates, now)[i]) == BytesRequired(Sorted(candidates, now)[p])
  {
    if p < i < q {
      SortedByField(candidates, now, p, i);
      SortedByField(candidates, now, i, q);
    }
    hide *;
  }

  /** Ties are broken by priority, then by sequence number: of two candidates of the same bucket and
      size, one left behind has neither a higher priority than one selected, nor the same priority and
      a lower number. */
  lemma TieGoesToPriority(candidates: seq<Job>, budget: size_t, maxBatch: int32, now: int, x: Job, y: Job)
    requires x in Pack(candidates, budget, maxBatch, now).selected
    requires y in Pack(candidates, budget, maxBatch, now).remaining
    requires AgeBucket(now, x) == AgeBucket(now, y) && BytesRequired(x) == BytesRequired(y)
    ensures x.priority > y.priority || (x.priority == y.priority && x.seqNo <= y.seqNo)
  {
    hide BytesRequired;
    hide AgeBucket;
    hide Sorted;
    var s := Sorted(candidates, now);
    var q := SweptAt(s, budget, maxBatch, x, true);
    var p := SweptAt(s, budget, maxBatch, y, false);
    hide SweepOver;
    if q < p {
      SortedByField(candidates, now, q, p);
    } else {
      forall i | p <= i <= q ensures BytesRequired(s[i]) == BytesRequired(s[p]) {
        SameBetween(candidates, now, p, q, i);
      }
      EqualsStayRejected(s, budget, maxBatch, p, q);
    }
  }

  lemma TiesGoToPriority(candidates: seq<Job>, budget: size_t, maxBatch: int32, now: int)
    ensures
      var p := Pack(candidates, budget, maxBatch, now);
      forall x, y ::
        x in p.selected && y in p.remaining && AgeBucket(now, x) == AgeBucket(now, y)
        && BytesRequired(x) == BytesRequired(y) ==>
          x.priority > y.priority || (x.priority == y.priority && x.seqNo <= y.seqNo)
  {
    hide BytesRequired;
    hide AgeBucket;
    hide Pack;
    var p := Pack(candidates, budget, maxBatch, now);
    forall x, y |
      x in p.selected && y in p.remaining && AgeBucket(now, x) == AgeBucket(now, y)
      && BytesRequired(x) == BytesRequired(y)
      ensures x.priority > y.priority || (x.priority == y.priority && x.seqNo <= y.seqNo)
    {
      TieGoesToPriority(candidates, budget, maxBatch, now, x, y);
    }
  }

  /** A round takes something exactly if its budget covers some candidate. */
  lemma SelectsSomethingIff(candidates: seq<Job>, budget: size_t, maxBatch: int32, now: int)
    ensures Pack(candidates, budget, maxBatch, now).selected != [] <==>
              exists j :: j in candidates && BytesRequired(j) <= budget
  {
    hide BytesRequired;
    var s := Sorted(candidates, now);
    SortPermutes(candidates, PacksBefore(now));
    MembersSurvive(s, candidates);
    hide Sorted;
    SweepSelectsIff(s, budget, maxBatch);
  }

  lemma {:induction false} SweepSelectsIff(s: seq<Job>, budget: size_t, maxBatch: int32)
    ensures SweepOver(s, budget, maxBatch).selected != [] <==> exists j :: j in s && BytesRequired(j) <= budget
  {
    hide BytesRequired;
    if s != [] {
      var front, last := s[..|s| - 1], s[|s| - 1];
      SweepSelectsIff(front, budget, maxBatch);
      EmptySelection(front, budget, maxBatch);
      assert s == front + [last];
    }
  }

  // ----- what rejects a job that the budget covers

  /** A job that the budget covers is only passed over behind a job that was selected earlier in
      the packing order. */
  lemma {:induction false} RejectedBehindSelected(s: seq<Job>, budget: size_t, maxBatch: int32, p: nat)
    requires p < |s| && BytesRequired(s[p]) <= budget
    requires s[p] !in SweepOver(s, budget, maxBatch).selected
    ensures exists q :: 0 <= q < p && s[q] in SweepOver(s, budget, maxBatch).selected
  {
    hide BytesRequired;
    var front := s[..|s| - 1];
    var st := SweepOver(front, budget, maxBatch);
    if p < |s| - 1 {
      RejectedBehindSelected(front, budget, maxBatch, p);
      var q :| 0 <= q < p && front[q] in st.selected;
      assert s[q] == front[q];
    } else {
      assert s[p] in st.selected + [s[p]];
      assert !Accepts(st, s[p], budget, maxBatch);
      EmptySelection(front, budget, maxBatch);
      assert st.selected != [] && st.selected == SweepOver(s, budget, maxBatch).selected;
      SelectedFrom(front, budget, maxBatch, st.selected[0]);
      hide SweepOver;
      var q :| 0 <= q < |front| && front[q] == st.selected[0];
      assert s[q] == front[q];
    }
  }

  lemma SelectedFrom(s: seq<Job>, budget: size_t, maxBatch: int32, x: Job)
    requires x in SweepOver(s, budget, maxBatch).selected
    ensures x in s
  {
    SweepPartitions(s, budget, maxBatch);
    hide SweepOver;
    assert x in multiset(SweepOver(s, budget, maxBatch).selected);
    assert x in multiset(s);
  }

  lemma {:induction false} EmptySelection(s: seq<Job>, budget: size_t, maxBatch: int32)
    ensures SweepOver(s, budget, maxBatch).selected == [] ==> SweepOver(s, budget, maxBatch).used == 0
  {
    if s != [] {
      EmptySelection(s[..|s| - 1], budget, maxBatch);
    }
  }

  /** Aging bounds who can hold a job back: if the budget covers a stamped candidate and the
      round still does not take it, the round takes some other candidate that was submitted less
      than one aging interval after it. */
  lemma PassedOverForAPeer(candidates: seq<Job>, budget: size_t, maxBatch: int32, now: int, j: Job)
    requires j in candidates && 0 < j.submitTime && BytesRequired(j) <= budget
    requires forall c :: c in candidates ==> c.submitTime <= now
    requires j !in Pack(candidates, budget, maxBatch, now).selected
    ensures
      exists c :: c in Pack(candidates, budget, maxBatch, now).selected
                  && c != j && c.submitTime < j.submitTime + AGING_INTERVAL_NS
  {
    hide BytesRequired;
    hide AgeBucket;
    hide SweepOver;
    hide SortBy;
    var s := Sorted(candidates, now);
    PackOrderIsStrictTotal(now, candidates);
    SortPermutes(candidates, PacksBefore(now));
    SortSorts(candidates, PacksBefore(now));
    MembersSurvive(s, candidates);
    var p :| 0 <= p < |s| && s[p] == j;
    RejectedBehindSelected(s, budget, maxBatch, p);
    var q :| 0 <= q < p && s[q] in Pack(candidates, budget, maxBatch, now).selected;
    var c := s[q];
    assert c in candidates;
    assert !PacksBefore(now)(j, c);
    if c.submitTime >= j.submitTime + AGING_INTERVAL_NS {
      IntervalOutranks(now, j, c);
      assert false;
    }
  }

  lemma {:induction false} UsedWithinBudget(s: seq<Job>, budget: size_t, maxBatch: int32)
    ensures SweepOver(s, budget, maxBatch).used <= budget
  {
    hide BytesRequired;
    if s != [] {
      UsedWithinBudget(s[..|s| - 1], budget, maxBatch);
    }
  }

  /** A job without footprint is only rejected once the cap is reached, so behind a full batch. */
  lemma {:induction false} FreeJobWaitsForCap(s: seq<Job>, budget: size_t, maxBatch: int32, p: nat)
    requires p < |s| && BytesRequired(s[p]) == 0
    requires s[p] !in SweepOver(s, budget, maxBatch).selected
    ensures maxBatch > 0 && |SweepOver(s, budget, maxBatch).selected| == maxBatch
    ensures forall x :: x in SweepOver(s, budget, maxBatch).selected ==> x in s[..p]
  {
    hide BytesRequired;
    var front, last := s[..|s| - 1], s[|s| - 1];
    var st := SweepOver(front, budget, maxBatch);
    SweepPartitions(front, budget, maxBatch);
    UsedWithinBudget(front, budget, maxBatch);
    if p < |s| - 1 {
      FreeJobWaitsForCap(front, budget, maxBatch, p);
      assert front[..p] == s[..p];
    } else {
      assert last in st.selected + [last];
      assert !Accepts(st, last, budget, maxBatch);
      forall x | x in st.selected ensures x in front {
        assert x in multiset(st.selected) + multiset(st.remaining);
      }
    }
  }

  /** If a stamped candidate without footprint is passed over, there is a cap, and the round takes a full
      batch of other candidates, all submitted less than one aging interval after it. */
  lemma PassedOverForABatch(candidates: seq<Job>, budget: size_t, maxBatch: int32, now: int, j: Job)
    requires j in candidates && 0 < j.submitTime && BytesRequired(j) == 0
    requires forall c :: c in candidates ==> c.submitTime <= now
    requires j !in Pack(candidates, budget, maxBatch, now).selected
    ensures maxBatch > 0 && |Pack(candidates, budget, maxBatch, now).selected| == maxBatch
    ensures forall c :: c in Pack(candidates, budget, maxBatch, now).selected ==>
              c in candidates && c != j && c.submitTime < j.submitTime + AGING_INTERVAL_NS
  {
    hide BytesRequired;
    hide AgeBucket;
    hide SweepOver;
    hide SortBy;
    var s := Sorted(candidates, now);
    PackOrderIsStrictTotal(now, candidates);
    SortPermutes(candidates, PacksBefore(now));
    SortSorts(candidates, PacksBefore(now));
    MembersSurvive(s, candidates);
    var p :| 0 <= p < |s| && s[p] == j;
    FreeJobWaitsForCap(s, budget, maxBatch, p);
    forall c | c in Pack(candidates, budget, maxBatch, now).selected
      ensures c in candidates && c != j && c.submitTime < j.submitTime + AGING_INTERVAL_NS
    {
      var q :| 0 <= q < p && s[q] == c;
      assert !PacksBefore(now)(j, c);
      if c.submitTime >= j.submitTime + AGING_INTERVAL_NS {
        IntervalOutranks(now, j, c);
      }
    }
  }
}
