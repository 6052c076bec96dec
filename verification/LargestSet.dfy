/** When the packer selects a largest feasible set. Age outranks size, so across age buckets one
    old large job can displace several small ones; the claim "largest set" survives only where no
    two jobs could be displaced by one. */
module LargestSet {
  import opened Totals
  import opened Sorting
  import opened Jobs
  import opened Packing
  import opened PackingOptimality

  ghost predicate LargestAlways(budget: size_t, maxBatch: int32) {
    forall candidates, t, now :: Feasible(t, candidates, budget, maxBatch) ==>
      |t| <= |Pack(candidates, budget, maxBatch, now).selected|
  }

  /** The claim holds for all candidate lists exactly when batches hold a single job or the budget
      is too small for two jobs that take memory at all. */
  lemma LargestSetIff(budget: size_t, maxBatch: int32)
    requires budget < SIZE_HALF
    ensures LargestAlways(budget, maxBatch) <==> maxBatch == 1 || budget < 8
  {
    if maxBatch == 1 || budget < 8 {
      forall candidates, t, now | Feasible(t, candidates, budget, maxBatch)
        ensures |t| <= |Pack(candidates, budget, maxBatch, now).selected|
      {
        if maxBatch == 1 {
          OneJobIsLargest(candidates, t, budget, now);
        } else {
          TinyBudgetIsLargest(candidates, t, budget, maxBatch, now);
        }
      }
    } else {
      var candidates, t, now := OldDisplacesTwo(budget, maxBatch);
      hide Feasible;
      hide Pack;
    }
  }

  // ----- where it holds

  lemma {:induction false} SubTotal(t: seq<Job>, s: seq<Job>, w: Job -> nat)
    requires multiset(t) <= multiset(s)
    ensures Total(t, w) <= Total(s, w)
  {
    if t != [] {
      var front, last := t[..|t| - 1], t[|t| - 1];
      assert t == front + [last];
      assert last in multiset(s);
      var k :| 0 <= k < |s| && s[k] == last;
      RemoveFromMultiset(s, k);
      TotalRemove(s, k, w);
      SubTotal(front, s[..k] + s[k + 1..], w);
    }
  }

  function TakesNone(): Job -> nat {
    (j: Job) => if BytesRequired(j) == 0 then 1 else 0
  }

  function TakesSome(): Job -> nat {
    (j: Job) => if BytesRequired(j) == 0 then 0 else 1
  }

  lemma {:induction false} CountByNeed(s: seq<Job>)
    ensures |s| == Total(s, TakesNone()) + Total(s, TakesSome())
    ensures 4 * Total(s, TakesSome()) <= Total(s, JobBytes())
  {
    hide BytesRequired;
    if s != [] {
      CountByNeed(s[..|s| - 1]);
      BytesAreMultiples(s[|s| - 1]);
    }
  }

  lemma MultiplesOfFour(x: int)
    ensures ToSize(x * 4) == 0 || ToSize(x * 4) >= 4
  {
    assert ToSize(x * 4) % 4 == 0;
  }

  lemma BytesAreMultiples(j: Job)
    ensures BytesRequired(j) == 0 || BytesRequired(j) >= 4
  {
    BytesAreExactModuloSize(j);
    hide BytesRequired;
    hide ToSize;
    MultiplesOfFour((j.m * j.k + j.k * j.n + j.m * j.n) * j.batch);
  }

  /** If some job of a feasible set takes memory, the packer takes a job that does. */
  lemma SomeNeedIsMet(candidates: seq<Job>, t: seq<Job>, budget: size_t, maxBatch: int32, now: int, x: Job)
    requires budget < SIZE_HALF && Feasible(t, candidates, budget, maxBatch)
    requires x in t
    ensures
      var p := Pack(candidates, budget, maxBatch, now);
      (maxBatch > 0 && |p.selected| == maxBatch) || x in p.selected || Total(p.selected, JobBytes()) > 0
  {
    hide BytesRequired;
    hide Total;
    hide Pack;
    var p := Pack(candidates, budget, maxBatch, now);
    PackPartitions(candidates, budget, maxBatch, now);
    PackIsMaximal(candidates, budget, maxBatch, now);
    var k :| 0 <= k < |t| && t[k] == x;
    TotalBounds(t, JobBytes(), k);
    assert x in multiset(t);
    if x !in p.selected {
      assert x in multiset(p.selected) + multiset(p.remaining);
      TotalSnoc(p.selected, x, JobBytes());
    }
  }

  lemma OneJobIsLargest(candidates: seq<Job>, t: seq<Job>, budget: size_t, now: int)
    requires budget < SIZE_HALF && Feasible(t, candidates, budget, 1)
    ensures |t| <= |Pack(candidates, budget, 1, now).selected|
  {
    hide BytesRequired;
    hide Pack;
    if t != [] {
      SomeNeedIsMet(candidates, t, budget, 1, now, t[0]);
    }
  }

  lemma TinyBudgetIsLargest(candidates: seq<Job>, t: seq<Job>, budget: size_t, maxBatch: int32, now: int)
    requires budget < 8 && Feasible(t, candidates, budget, maxBatch)
    ensures |t| <= |Pack(candidates, budget, maxBatch, now).selected|
  {
    hide BytesRequired;
    hide Pack;
    hide Total;
    var p := Pack(candidates, budget, maxBatch, now);
    PackPartitions(candidates, budget, maxBatch, now);
    CountByNeed(t);
    CountByNeed(p.selected);
    if maxBatch > 0 && |p.selected| == maxBatch {
      return;
    }
    FreeJobsAreTaken(candidates, t, budget, maxBatch, now);
    if Total(t, TakesSome()) > Total(p.selected, TakesSome()) {
      var x := Contributor(t);
      SomeNeedIsMet(candidates, t, budget, maxBatch, now, x);
      NoNeedNoBytes(p.selected, x);
      assert false;
    }
  }

  lemma Contributor(t: seq<Job>) returns (x: Job)
    requires Total(t, TakesSome()) > 0
    ensures x in t && BytesRequired(x) > 0
  {
    hide BytesRequired;
    if forall y :: y in t ==> TakesSome()(y) == 0 {
      TotalZero(t, TakesSome());
    }
    hide Total;
    x :| x in t && TakesSome()(x) != 0;
  }

  lemma NoNeedNoBytes(s: seq<Job>, x: Job)
    requires Total(s, TakesSome()) == 0 && BytesRequired(x) > 0
    ensures x !in s && Total(s, JobBytes()) == 0
  {
    hide BytesRequired;
    forall y | y in s ensures TakesSome()(y) == 0 {
      var k :| 0 <= k < |s| && s[k] == y;
      TotalBounds(s, TakesSome(), k);
    }
    TotalZero(s, JobBytes());
    hide Total;
  }

  lemma FreeJobsAreTaken(candidates: seq<Job>, t: seq<Job>, budget: size_t, maxBatch: int32, now: int)
    requires budget < SIZE_HALF && Feasible(t, candidates, budget, maxBatch)
    requires var p := Pack(candidates, budget, maxBatch, now); !(maxBatch > 0 && |p.selected| == maxBatch)
    ensures Total(t, TakesNone()) <= Total(Pack(candidates, budget, maxBatch, now).selected, TakesNone())
  {
    hide BytesRequired;
    hide Pack;
    var p := Pack(candidates, budget, maxBatch, now);
    PackPartitions(candidates, budget, maxBatch, now);
    PackIsMaximal(candidates, budget, maxBatch, now);
    PackWithinBudget(candidates, budget, maxBatch, now);
    forall y | y in p.remaining ensures TakesNone()(y) == 0 {
      TotalSnoc(p.selected, y, JobBytes());
    }
    TotalZero(p.remaining, TakesNone());
    hide Total;
    assert multiset(p.selected + p.remaining) == multiset(candidates);
    SubTotal(t, p.selected + p.remaining, TakesNone());
    TotalConcat(p.selected, p.remaining, TakesNone());
  }

  // ----- where it fails

  /** A job without output columns: it takes m * k * batch elements. */
  function Piece(seqNo: nat, m: int32, k: int32, batch: int32, submitTime: int): Job {
    Job(seqNo, m, 0, k, batch, 0, submitTime, seqNo)
  }

  lemma PieceBytes(seqNo: nat, m: int32, k: int32, batch: int32, submitTime: int)
    requires 0 <= m && 0 <= k && 0 <= batch && 4 * (m * (k * batch)) < SIZE_VALUES
    ensures BytesRequired(Piece(seqNo, m, k, batch, submitTime)) == 4 * (m * (k * batch))
  {
    var j := Piece(seqNo, m, k, batch, submitTime);
    BytesAreExactModuloSize(j);
    hide BytesRequired;
    assert j.k * j.n == 0 && j.m * j.n == 0;
    assert (m * k) * batch == m * (k * batch);
  }

  /** A size between a quarter and a half of the budget, as a product of two dimensions. */
  lemma {:induction false} HalfBudget(budget: nat) returns (k: nat, batch: nat)
    requires 8 <= budget < SIZE_VALUES
    ensures 0 < k < 0x8000_0000 && 0 < batch < 0x8000_0000 && 8 * (k * batch) <= budget < 16 * (k * batch)
  {
    if budget < 16 {
      k, batch := 1, 1;
    } else {
      var k0, b0 := HalfBudget(budget / 2);
      Doubled(k0, b0);
      var size, twice := k0 * b0, 2 * (k0 * b0);
      assert 8 * twice <= budget < 16 * twice by {
        assert 2 * (budget / 2) <= budget <= 2 * (budget / 2) + 1;
      }
      if k0 < 0x4000_0000 {
        k, batch := 2 * k0, b0;
      } else {
        Factor(k0, b0);
        k, batch := k0, 2 * b0;
      }
    }
  }

  lemma Doubled(k: nat, b: nat)
    ensures (2 * k) * b == 2 * (k * b) == k * (2 * b)
  {
  }

  lemma ProductAtLeast(k: nat, b: nat, c: nat)
    requires c <= k && c <= b
    ensures k * b >= c * c
  {
    assert k * b - c * b == (k - c) * b;
    assert c * b - c * c == c * (b - c);
  }

  lemma Factor(k: nat, b: nat)
    requires 0x4000_0000 <= k && k * b < 0x1000_0000_0000_0000
    ensures b < 0x4000_0000
  {
    if b >= 0x4000_0000 {
      ProductAtLeast(k, b, 0x4000_0000);
    }
  }

  lemma SortOfTriple(a: Job, b: Job, c: Job, less: (Job, Job) -> bool)
    requires !less(b, a) && !less(c, b)
    ensures SortBy([a, b, c], less) == [a, b, c]
  {
    assert [a, b, c][1..] == [b, c];
    SortOfPair(b, c, less);
    assert Insert(a, [b, c], less) == [a] + [b, c];
  }

  /** One job that has waited an aging interval and two fresh ones, each of the smaller size. The old
      one fits alone and leaves no room for a fresh one; the two fresh ones fit together. */
  lemma OldDisplacesTwo(budget: size_t, maxBatch: int32) returns (candidates: seq<Job>, t: seq<Job>, now: int)
    requires 8 <= budget < SIZE_HALF && maxBatch != 1
    ensures Feasible(t, candidates, budget, maxBatch)
    ensures |t| > |Pack(candidates, budget, maxBatch, now).selected|
  {
    var k, batch := HalfBudget(budget);
    var size := k * batch;
    var m: int32 := if budget < 12 * size then 2 else 3;
    assert m * size == if budget < 12 * size then 2 * size else 3 * size;
    assert 1 * size == size;
    now := AGING_INTERVAL_NS + 1;
    var elder, x, y := Piece(0, m, k, batch, 1), Piece(1, 1, k, batch, now), Piece(2, 1, k, batch, now);
    PieceBytes(0, m, k, batch, 1);
    PieceBytes(1, 1, k, batch, now);
    PieceBytes(2, 1, k, batch, now);
    candidates, t := [elder, x, y], [x, y];
    hide BytesRequired;
    PairIsFeasible(elder, x, y, budget, maxBatch);
    assert AgeBucket(now, elder) == 1 && AgeBucket(now, x) == 0 && AgeBucket(now, y) == 0;
    SortOfTriple(elder, x, y, PacksBefore(now));
    OnlyTheFirst(elder, x, y, budget, maxBatch);
  }

  lemma PairIsFeasible(a: Job, x: Job, y: Job, budget: size_t, maxBatch: int32)
    requires BytesRequired(x) + BytesRequired(y) <= budget && maxBatch != 1
    ensures Feasible([x, y], [a, x, y], budget, maxBatch)
  {
    hide BytesRequired;
    TotalSnoc([], x, JobBytes());
    assert [] + [x] == [x] && [x] + [y] == [x, y] && [a, x, y] == [a] + [x, y];
    TotalSnoc([x], y, JobBytes());
  }

  lemma Rejected(st: Sweep, j: Job, budget: size_t, maxBatch: int32)
    requires st.used <= budget < SIZE_HALF && st.used + BytesRequired(j) > budget
    ensures !Accepts(st, j, budget, maxBatch)
  {
    hide BytesRequired;
  }

  lemma SweepOfNext(s: seq<Job>, j: Job, budget: size_t, maxBatch: int32)
    requires !Accepts(SweepOver(s, budget, maxBatch), j, budget, maxBatch)
    ensures SweepOver(s + [j], budget, maxBatch).selected == SweepOver(s, budget, maxBatch).selected
    ensures SweepOver(s + [j], budget, maxBatch).used == SweepOver(s, budget, maxBatch).used
  {
    hide BytesRequired;
    hide Accepts;
    assert (s + [j])[..|s|] == s;
  }

  lemma OnlyTheFirst(a: Job, x: Job, y: Job, budget: size_t, maxBatch: int32)
    requires budget < SIZE_HALF && BytesRequired(a) <= budget
    requires BytesRequired(a) + BytesRequired(x) > budget && BytesRequired(a) + BytesRequired(y) > budget
    ensures |SweepOver([a, x, y], budget, maxBatch).selected| <= 1
  {
    hide BytesRequired;
    SweepOfOne(a, budget, maxBatch);
    hide SweepOver;
    hide Accepts;
    assert [a] + [x] == [a, x] && [a, x] + [y] == [a, x, y];
    Rejected(SweepOver([a], budget, maxBatch), x, budget, maxBatch);
    SweepOfNext([a], x, budget, maxBatch);
    Rejected(SweepOver([a, x], budget, maxBatch), y, budget, maxBatch);
    SweepOfNext([a, x], y, budget, maxBatch);
  }

  lemma SweepOfOne(a: Job, budget: size_t, maxBatch: int32)
    requires budget < SIZE_HALF && BytesRequired(a) <= budget
    ensures SweepOver([a], budget, maxBatch).selected == [a]
            && SweepOver([a], budget, maxBatch).used == BytesRequired(a)
  {
    hide BytesRequired;
    assert [a][..0] == [];
    assert SweepOver([], budget, maxBatch) == Sweep([], [], 0);
  }
}
