/** Ownership of device memory: the buffer class and the allocation retry loop of a batch, against
    an allocator whose answers are arbitrary. */
module DeviceBuffers {
  import opened Totals
  import opened Jobs
  import opened Protocol
  import opened Ledger
  import opened Wrappers
  import opened Gemm

  datatype Status = Success | OutOfMemory | OtherError

  /** The answers that are not `Success`, in order. */
  function Failures(answers: seq<Status>): seq<Status> {
    if answers == [] then []
    else
      Failures(answers[..|answers| - 1]) + (if answers[|answers| - 1] == Success then [] else [answers[|answers| - 1]])
  }

  lemma FailuresSnoc(answers: seq<Status>, status: Status)
    ensures Failures(answers + [status]) == Failures(answers) + (if status == Success then [] else [status])
  {
    assert (answers + [status])[..|answers|] == answers;
  }

  /** The device allocator. `live` maps every block handed out and not yet freed to its size; a
      block can only be freed while it is live, so no block is ever freed twice. `answers` is the
      history of what requests were answered. */
  class Device {
    var live: map<nat, nat>
    var nextId: nat
    var answers: seq<Status>

    ghost predicate Valid()
      reads this
    {
      forall id :: id in live ==> id < nextId
    }

    constructor ()
      ensures Valid() && live == map[] && answers == []
    {
      live, nextId, answers := map[], 0, [];
    }

    method Malloc(bytes: nat) returns (status: Status, id: nat)
      requires Valid()
      modifies this
      ensures Valid()
      ensures status == Success ==> id !in old(live) && live == old(live)[id := bytes]
      ensures status != Success ==> live == old(live)
      ensures answers == old(answers) + [status]
    {
      status := *;
      answers := answers + [status];
      id := nextId;
      if status == Success {
        live := live[id := bytes];
        nextId := nextId + 1;
      }
    }

    method Free(id: nat)
      requires Valid() && id in live
      modifies this
      ensures Valid() && live == old(live) - {id} && answers == old(answers)
    {
      live := live - {id};
    }
  }

  class DeviceBuffer {
    const device: Device
    var block: Option<nat>
    var count: size_t

    /** An empty buffer has no block; a full one owns a live block of the right size. */
    predicate Valid()
      reads this, device
    {
      match block
      case None => count == 0
      case Some(id) => id in device.live && device.live[id] == AllocationSize(count) && count > 0
    }

    function Owned(): set<nat>
      reads this
    {
      if block.Some? then {block.value} else {}
    }

    constructor (device: Device)
      ensures this.device == device && block == None && count == 0 && Valid()
    {
      this.device := device;
      block, count := None, 0;
    }

    method Release()
      requires Valid() && device.Valid()
      modifies this, device
      ensures device.Valid() && block == None && count == 0
      ensures device.live == old(device.live) - old(Owned()) && device.answers == old(device.answers)
    {
      if block.Some? {
        device.Free(block.value);
        block := None;
      }
      count := 0;
    }

    method TryAllocate(count: size_t) returns (status: Status)
      requires Valid() && device.Valid()
      modifies this, device
      ensures Valid() && device.Valid()
      ensures status == Success ==> this.count == count && (block == None <==> count == 0)
      ensures status != Success ==> block == None && this.count == 0
      ensures Owned() !! old(device.live).Keys - old(Owned())
      ensures device.live - Owned() == old(device.live) - old(Owned())
      ensures device.answers == old(device.answers) + (if count == 0 then [] else [status])
      ensures count == 0 ==> status == Success
    {
      Release();
      if count == 0 {
        return Success;
      }
      var id;
      status, id := device.Malloc(AllocationSize(count));
      if status != Success {
        block := None;
        this.count := 0;
        return;
      }
      block := Some(id);
      this.count := count;
    }

    /** Move assignment: this buffer's old block is freed, the other's block changes owner. */
    method MoveFrom(other: DeviceBuffer)
      requires Valid() && other.Valid() && device.Valid() && other.device == device
      requires other != this ==> Owned() !! other.Owned()
      modifies this, other, device
      ensures device.Valid() && Valid() && other.Valid()
      ensures block == old(other.block) && count == old(other.count)
      ensures other != this ==> other.block == None && device.live == old(device.live) - old(Owned())
      ensures other == this ==> device.live == old(device.live)
    {
      if this != other {
        Release();
        block := other.block;
        count := other.count;
        other.block := None;
        other.count := 0;
      }
    }
  }

  // ----- the buffers of one batch

  /** The sets `owned` are disjoint from each other and from `base`, and with `base` they cover
      exactly the live blocks. */
  ghost predicate Tally(owned: seq<set<nat>>, live: map<nat, nat>, base: map<nat, nat>) {
    && (forall i, k :: 0 <= i < k < |owned| ==> owned[i] !! owned[k])
    && (forall i :: 0 <= i < |owned| ==> owned[i] !! base.Keys && owned[i] <= live.Keys)
    && (forall id :: id in base ==> id in live && live[id] == base[id])
    && (forall id :: id in live && id !in base ==> exists i :: 0 <= i < |owned| && id in owned[i])
  }

  /** What the exchange leaves to everybody else. */
  lemma TallyRest(owned: seq<set<nat>>, live: map<nat, nat>, base: map<nat, nat>, k: nat, mine: set<nat>,
                  live': map<nat, nat>)
    requires k < |owned| && Tally(owned, live, base)
    requires mine !! live.Keys - owned[k] && mine <= live'.Keys
    requires live' - mine == live - owned[k]
    ensures forall i :: 0 <= i < |owned| && i != k ==> owned[i] !! mine
    ensures base.Keys !! mine
    ensures forall id :: id in live' && id !in mine <==> id in live && id !in owned[k]
    ensures forall id :: id in live' && id !in mine ==> live'[id] == live[id]
  {
    var rest := live' - mine;
    assert forall id :: id in rest <==> id in live' && id !in mine;
    assert forall id :: id in rest <==> id in live && id !in owned[k];
    assert forall id :: id in rest ==> live'[id] == rest[id] == live[id];
    forall i | 0 <= i < |owned| && i != k ensures owned[i] !! mine {
      assert owned[i] !! owned[k];
      assert owned[i] <= live.Keys - owned[k];
    }
  }

  /** One owner exchanges its blocks with the allocator. */
  lemma TallyUpdate(owned: seq<set<nat>>, live: map<nat, nat>, base: map<nat, nat>, k: nat, mine: set<nat>,
                    live': map<nat, nat>)
    requires k < |owned| && Tally(owned, live, base)
    requires mine !! live.Keys - owned[k] && mine <= live'.Keys
    requires live' - mine == live - owned[k]
    ensures Tally(owned[k := mine], live', base)
    ensures forall i, id :: 0 <= i < |owned| && i != k && id in owned[i] ==> id in live' && live'[id] == live[id]
  {
    TallyRest(owned, live, base, k, mine, live');
    var owned' := owned[k := mine];
    forall i | 0 <= i < |owned| && i != k ensures forall id :: id in owned[i] ==> id in live' && id !in mine {
      assert owned[i] !! owned[k];
    }
    forall id | id in live' && id !in base ensures exists i :: 0 <= i < |owned'| && id in owned'[i] {
      StillOwned(owned, live, base, k, mine, live', owned', id);
    }
  }

  lemma StillOwned(owned: seq<set<nat>>, live: map<nat, nat>, base: map<nat, nat>, k: nat, mine: set<nat>,
                   live': map<nat, nat>, owned': seq<set<nat>>, id: nat)
    requires k < |owned| && Tally(owned, live, base) && id in live' && id !in base
    requires owned' == owned[k := mine] && (id !in mine ==> id in live && id !in owned[k])
    ensures exists i :: 0 <= i < |owned'| && id in owned'[i]
  {
    if id in mine {
      assert id in owned'[k];
    } else {
      var i :| 0 <= i < |owned| && id in owned[i];
      assert id in owned'[i];
    }
  }

  ghost function OwnedBy(bufs: seq<DeviceBuffer>): seq<set<nat>>
    reads bufs
  {
    if bufs == [] then [] else OwnedBy(bufs[..|bufs| - 1]) + [bufs[|bufs| - 1].Owned()]
  }

  lemma {:induction false} OwnedByAt(bufs: seq<DeviceBuffer>)
    ensures |OwnedBy(bufs)| == |bufs|
    ensures forall i :: 0 <= i < |bufs| ==> OwnedBy(bufs)[i] == bufs[i].Owned()
  {
    if bufs != [] {
      OwnedByAt(bufs[..|bufs| - 1]);
    }
  }

  /** The buffers are distinct and valid and own distinct blocks; together they own exactly the
      live blocks that are not in `base`. */
  ghost predicate Accounts(device: Device, bufs: seq<DeviceBuffer>, base: map<nat, nat>)
    reads device, bufs
  {
    && device.Valid()
    && (forall i :: 0 <= i < |bufs| ==> bufs[i].device == device && bufs[i].Valid())
    && (forall i, k :: 0 <= i < k < |bufs| ==> bufs[i] != bufs[k])
    && Tally(OwnedBy(bufs), device.live, base)
  }

  ghost predicate AllEmpty(bufs: seq<DeviceBuffer>)
    reads bufs
  {
    forall i :: 0 <= i < |bufs| ==> bufs[i].block == None && bufs[i].count == 0
  }

  lemma EmptyOwnsNothing(device: Device, bufs: seq<DeviceBuffer>, base: map<nat, nat>)
    requires Accounts(device, bufs, base) && AllEmpty(bufs)
    ensures device.live == base
  {
    OwnedByAt(bufs);
  }

  method ReleaseAt(device: Device, bufs: seq<DeviceBuffer>, k: nat, ghost base: map<nat, nat>)
    requires k < |bufs| && Accounts(device, bufs, base)
    modifies device, bufs[k]
    ensures Accounts(device, bufs, base) && bufs[k].block == None && bufs[k].count == 0
    ensures device.answers == old(device.answers)
  {
    hide Tally;
    hide OwnedBy;
    ghost var owned, live := OwnedBy(bufs), device.live;
    OwnedByAt(bufs);
    bufs[k].Release();
    OwnedByAt(bufs);
    TallyUpdate(owned, live, base, k, bufs[k].Owned(), device.live);
    assert OwnedBy(bufs) == owned[k := bufs[k].Owned()];
  }

  method AllocateAt(device: Device, bufs: seq<DeviceBuffer>, k: nat, count: size_t, ghost base: map<nat, nat>)
    returns (status: Status)
    requires k < |bufs| && Accounts(device, bufs, base)
    modifies device, bufs[k]
    ensures Accounts(device, bufs, base)
    ensures status == Success ==> bufs[k].count == count && (bufs[k].block == None <==> count == 0)
    ensures status != Success ==> bufs[k].block == None
    ensures Failures(device.answers) == Failures(old(device.answers)) + (if status == Success then [] else [status])
  {
    hide Tally;
    hide OwnedBy;
    hide Failures;
    ghost var owned, live := OwnedBy(bufs), device.live;
    OwnedByAt(bufs);
    status := bufs[k].TryAllocate(count);
    FailuresSnoc(old(device.answers), status);
    assert old(device.answers) + [] == old(device.answers);
    OwnedByAt(bufs);
    TallyUpdate(owned, live, base, k, bufs[k].Owned(), device.live);
    assert OwnedBy(bufs) == owned[k := bufs[k].Owned()];
  }

  method ReleaseAll(device: Device, bufs: seq<DeviceBuffer>, ghost base: map<nat, nat>)
    requires Accounts(device, bufs, base)
    modifies device, bufs
    ensures Accounts(device, bufs, base) && AllEmpty(bufs) && device.live == base
    ensures device.answers == old(device.answers)
  {
    hide Tally;
    hide OwnedBy;
    for k := 0 to |bufs|
      invariant Accounts(device, bufs, base) && device.answers == old(device.answers)
      invariant forall i :: 0 <= i < k ==> bufs[i].block == None && bufs[i].count == 0
    {
      ReleaseAt(device, bufs, k, base);
    }
    EmptyOwnsNothing(device, bufs, base);
  }

  /** Every buffer has its element count, and a block unless that is zero. */
  ghost predicate Filled(bufs: seq<DeviceBuffer>, counts: seq<size_t>)
    reads bufs
  {
    |bufs| == |counts|
    && forall i :: 0 <= i < |bufs| ==> bufs[i].count == counts[i] && (bufs[i].block == None <==> counts[i] == 0)
  }

  /** One attempt: allocate every buffer in order, stopping at the first failure. */
  method AllocateAll(device: Device, bufs: seq<DeviceBuffer>, counts: seq<size_t>, ghost base: map<nat, nat>)
    returns (status: Status)
    requires |bufs| == |counts| && Accounts(device, bufs, base)
    modifies device, bufs
    ensures Accounts(device, bufs, base)
    ensures status == Success ==> Filled(bufs, counts)
    ensures Failures(device.answers) == Failures(old(device.answers)) + (if status == Success then [] else [status])
  {
    hide Tally;
    hide OwnedBy;
    hide Failures;
    for k := 0 to |bufs|
      invariant Accounts(device, bufs, base)
      invariant forall i :: 0 <= i < k ==> bufs[i].count == counts[i] && (bufs[i].block == None <==> counts[i] == 0)
      invariant Failures(device.answers) == Failures(old(device.answers))
    {
      status := AllocateAt(device, bufs, k, counts[k], base);
      if status != Success {
        return;
      }
    }
    status := Success;
  }

  // ----- the counts of a batch

  /** Element counts of all buffers of a batch, three per job. */
  function BatchCounts(batch: seq<Job>): seq<size_t> {
    if batch == [] then [] else BatchCounts(batch[..|batch| - 1]) + ElementCounts(batch[|batch| - 1])
  }

  lemma {:induction false} BatchCountsAt(batch: seq<Job>, i: nat)
    requires i < |batch|
    ensures |BatchCounts(batch)| == 3 * |batch|
    ensures BatchCounts(batch)[3 * i..3 * i + 3] == ElementCounts(batch[i])
  {
    hide ElementCounts;
    if i < |batch| - 1 {
      BatchCountsAt(batch[..|batch| - 1], i);
    } else if i > 0 {
      BatchCountsAt(batch[..|batch| - 1], i - 1);
    }
  }

  lemma BatchCountsLength(batch: seq<Job>)
    ensures |BatchCounts(batch)| == 3 * |batch|
  {
    if batch != [] {
      BatchCountsAt(batch, 0);
    }
  }

  /** The three buffers of every representable job have exactly the elements of its A, B and C. */
  ghost predicate HoldMatrices(bufs: seq<DeviceBuffer>, batch: seq<Job>)
    reads bufs
  {
    && |bufs| == 3 * |batch|
    && forall i :: 0 <= i < |batch| && Representable(batch[i]) ==>
         && bufs[3 * i].count == batch[i].m * batch[i].k * batch[i].batch
         && bufs[3 * i + 1].count == batch[i].k * batch[i].n * batch[i].batch
         && bufs[3 * i + 2].count == batch[i].m * batch[i].n * batch[i].batch
  }

  lemma FilledHoldMatrices(bufs: seq<DeviceBuffer>, batch: seq<Job>)
    requires Filled(bufs, BatchCounts(batch))
    ensures HoldMatrices(bufs, batch)
  {
    BatchCountsLength(batch);
    forall i | 0 <= i < |batch| && Representable(batch[i])
      ensures bufs[3 * i].count == batch[i].m * batch[i].k * batch[i].batch
      ensures bufs[3 * i + 1].count == batch[i].k * batch[i].n * batch[i].batch
      ensures bufs[3 * i + 2].count == batch[i].m * batch[i].n * batch[i].batch
    {
      var c := BatchCounts(batch);
      BatchCountsAt(batch, i);
      CountsAreExact(batch[i]);
      hide *;
      var three := c[3 * i..3 * i + 3];
      assert three[0] == c[3 * i] && three[1] == c[3 * i + 1] && three[2] == c[3 * i + 2];
    }
  }

  /** The dimensions a job's kernel is launched with. */
  function DimsOf(j: Job): Dims
    requires Representable(j)
  {
    Dims(j.m, j.n, j.k, j.batch)
  }

  /** Whatever the buffers of a filled batch contain, they are what the kernels require of A and B of
      every job, and C has an element for each of the product. */
  lemma FilledForKernels<F>(bufs: seq<DeviceBuffer>, batch: seq<Job>, i: nat, a: seq<F>, b: seq<F>, c: seq<F>)
    requires HoldMatrices(bufs, batch) && i < |batch| && Representable(batch[i])
    requires |a| == bufs[3 * i].count && |b| == bufs[3 * i + 1].count && |c| == bufs[3 * i + 2].count
    ensures Sized(DimsOf(batch[i]), a, b)
    ensures var s := DimsOf(batch[i]); |c| == s.batch * (s.m * s.n)
  {
    var j := batch[i];
    hide Representable;
    Commuted(j.m, j.k, j.batch);
    Commuted(j.k, j.n, j.batch);
    Commuted(j.m, j.n, j.batch);
  }

  lemma Commuted(x: int, y: int, z: int)
    ensures x * y * z == z * (x * y)
  {
  }

  /** The retry loop of a batch. For any sequence of allocator answers it makes at most 201
      attempts. `answers` are the attempts' outcomes: every one but the last is out of memory, and
      they are what the allocator's history records of failures. Success leaves every buffer with
      exactly its element count, that of its matrix for representable jobs; failure leaves the batch
      holding nothing and the device as it was. */
  method AllocateBatch(device: Device, bufs: seq<DeviceBuffer>, batch: seq<Job>, ghost base: map<nat, nat>)
    returns (got: bool, status: Status, attempts: nat, retries: nat, oomFailures: nat, ghost answers: seq<Status>)
    requires |bufs| == 3 * |batch| && Accounts(device, bufs, base) && AllEmpty(bufs)
    modifies device, bufs
    ensures Accounts(device, bufs, base)
    ensures got <==> status == Success
    ensures got ==> Filled(bufs, BatchCounts(batch)) && HoldMatrices(bufs, batch)
    ensures !got ==> AllEmpty(bufs) && device.live == base
    ensures 1 <= |answers| == attempts <= 201 && retries == attempts - 1
    ensures answers[attempts - 1] == status && forall i :: 0 <= i < attempts - 1 ==> answers[i] == OutOfMemory
    ensures Failures(device.answers) == Failures(old(device.answers))
            + (if got then answers[..attempts - 1] else answers)
    ensures !got && status == OutOfMemory ==> attempts == 201
    ensures oomFailures == if !got && status == OutOfMemory then 1 else 0
  {
    hide Failures;
    hide Tally;
    hide OwnedBy;
    BatchCountsLength(batch);
    hide BatchCounts;
    hide HoldMatrices;
    hide Filled;
    got, retries, attempts, oomFailures, answers := false, 0, 0, 0, [];
    EmptyOwnsNothing(device, bufs, base);
    var counts := BatchCounts(batch);
    var attempt: nat := 0;
    while true
      invariant attempt <= MAX_ALLOC_RETRIES && attempts == retries == attempt == |answers|
      invariant Accounts(device, bufs, base)
      invariant forall i :: 0 <= i < |answers| ==> answers[i] == OutOfMemory
      invariant Failures(device.answers) == Failures(old(device.answers)) + answers
      decreases MAX_ALLOC_RETRIES - attempt
    {
      attempts := attempts + 1;
      ghost var failed := answers;
      status := AllocateAll(device, bufs, counts, base);
      answers := answers + [status];
      assert answers[..|failed|] == failed;
      if status == Success {
        got := true;
        FilledHoldMatrices(bufs, batch);
        break;
      }
      ReleaseAll(device, bufs, base);
      if status != OutOfMemory || attempt == MAX_ALLOC_RETRIES {
        break;
      }
      retries := retries + 1;
      attempt := attempt + 1;
    }
    if !got && status == OutOfMemory {
      oomFailures := 1;
    }
  }

  /** The thread protocol asks for the same buffers: four bytes for each element of A, B and C of every
      representable job, job after job. */
  lemma {:induction false} BuffersAreMatrices(batch: seq<Job>, i: nat)
    requires i < |batch| && Representable(batch[i])
    ensures |Buffers(batch)| == 3 * |batch|
    ensures Buffers(batch)[3 * i] == 4 * (batch[i].m * batch[i].k * batch[i].batch)
    ensures Buffers(batch)[3 * i + 1] == 4 * (batch[i].k * batch[i].n * batch[i].batch)
    ensures Buffers(batch)[3 * i + 2] == 4 * (batch[i].m * batch[i].n * batch[i].batch)
  {
    var front := batch[..|batch| - 1];
    BuffersLength(front);
    if i < |front| {
      BuffersAreMatrices(front, i);
    } else {
      SizesAreExact(batch[i]);
    }
    hide Representable;
    hide ElementCounts;
    hide AllocationSize;
  }

  lemma {:induction false} BuffersLength(batch: seq<Job>)
    ensures |Buffers(batch)| == 3 * |batch|
  {
    if batch != [] {
      BuffersLength(batch[..|batch| - 1]);
    }
  }

  // ----- the bytes a successful batch holds

  function CountBytes(): size_t -> nat {
    (count: size_t) => AllocationSize(count)
  }

  lemma {:induction false} CountsAreBuffers(batch: seq<Job>)
    ensures Total(BatchCounts(batch), CountBytes()) == Total(Buffers(batch), Id())
  {
    hide ElementCounts;
    hide AllocationSize;
    if batch != [] {
      var front := batch[..|batch| - 1];
      var e := ElementCounts(batch[|batch| - 1]);
      CountsAreBuffers(front);
      var c, b := BatchCounts(front), Buffers(front);
      assert BatchCounts(batch) == c + [e[0]] + [e[1]] + [e[2]];
      assert Buffers(batch) == b + [AllocationSize(e[0])] + [AllocationSize(e[1])] + [AllocationSize(e[2])];
      TotalSnoc(c, e[0], CountBytes());
      TotalSnoc(c + [e[0]], e[1], CountBytes());
      TotalSnoc(c + [e[0]] + [e[1]], e[2], CountBytes());
      TotalSnoc(b, AllocationSize(e[0]), Id());
      TotalSnoc(b + [AllocationSize(e[0])], AllocationSize(e[1]), Id());
      TotalSnoc(b + [AllocationSize(e[0])] + [AllocationSize(e[1])], AllocationSize(e[2]), Id());
    }
  }

  /** Bytes of all blocks of a device. */
  ghost function Bytes(live: map<nat, nat>): nat
    decreases |live|
  {
    if live == map[] then 0 else
      var id :| id in live;
      live[id] + Bytes(live - {id})
  }

  /** Any block may be taken out first. */
  lemma {:induction false} BytesWithout(live: map<nat, nat>, id: nat)
    requires id in live
    ensures Bytes(live) == live[id] + Bytes(live - {id})
    decreases |live|
  {
    var first :| first in live && Bytes(live) == live[first] + Bytes(live - {first});
    if first != id {
      BytesWithout(live - {first}, id);
      BytesWithout(live - {id}, first);
      assert live - {first} - {id} == live - {id} - {first};
    }
  }

  /** `mine` is one block of the right size, or none for a count of zero. */
  ghost predicate Holds(mine: set<nat>, live: map<nat, nat>, count: size_t) {
    if count == 0 then mine == {} else exists id :: id in live && mine == {id} && live[id] == AllocationSize(count)
  }

  lemma TallyWithoutLast(owned: seq<set<nat>>, live: map<nat, nat>, base: map<nat, nat>)
    requires Tally(owned, live, base) && owned != []
    ensures Tally(owned[..|owned| - 1], live - owned[|owned| - 1], base)
    ensures forall i :: 0 <= i < |owned| - 1 ==> owned[i] !! owned[|owned| - 1]
  {
    var n := |owned| - 1;
    var front, rest := owned[..n], live - owned[n];
    assert forall i :: 0 <= i < n ==> front[i] == owned[i] && owned[i] !! owned[n];
    forall id | id in rest && id !in base ensures exists i :: 0 <= i < |front| && id in front[i] {
      var i :| 0 <= i < |owned| && id in owned[i];
      assert id in front[i];
    }
  }

  lemma FrontHolds(owned: seq<set<nat>>, live: map<nat, nat>, counts: seq<size_t>, n: nat, i: nat)
    requires i < n < |owned| == |counts| && Holds(owned[i], live, counts[i]) && owned[i] !! owned[n]
    ensures Holds(owned[..n][i], live - owned[n], counts[..n][i])
  {
    hide AllocationSize;
  }

  lemma LastBytes(mine: set<nat>, live: map<nat, nat>, count: size_t)
    requires Holds(mine, live, count)
    ensures Bytes(live) == Bytes(live - mine) + AllocationSize(count)
  {
    NoCountNoBytes();
    hide AllocationSize;
    hide Bytes;
    if count == 0 {
      assert live - mine == live;
    } else {
      var id :| id in live && mine == {id} && live[id] == AllocationSize(count);
      BytesWithout(live, id);
    }
  }

  /** The owners' blocks account for all bytes beyond those of `base`. */
  lemma {:induction false} OwnedBytes(owned: seq<set<nat>>, live: map<nat, nat>, base: map<nat, nat>,
                                      counts: seq<size_t>)
    requires Tally(owned, live, base) && |owned| == |counts|
    requires forall i :: 0 <= i < |owned| ==> Holds(owned[i], live, counts[i])
    ensures Bytes(live) == Bytes(base) + Total(counts, CountBytes())
    decreases |owned|
  {
    hide AllocationSize;
    hide Holds;
    hide Bytes;
    if owned == [] {
      assert live == base;
    } else {
      var n := |owned| - 1;
      TallyWithoutLast(owned, live, base);
      hide Tally;
      forall i | 0 <= i < n ensures Holds(owned[..n][i], live - owned[n], counts[..n][i]) {
        FrontHolds(owned, live, counts, n, i);
      }
      OwnedBytes(owned[..n], live - owned[n], base, counts[..n]);
      LastBytes(owned[n], live, counts[n]);
    }
  }

  lemma NoCountNoBytes()
    ensures AllocationSize(0) == 0
  {
  }

  /** A batch whose buffers are all filled adds to the bytes in use on the device exactly what was
      reserved for it. */
  lemma HeldEqualsReservation(device: Device, bufs: seq<DeviceBuffer>, batch: seq<Job>, base: map<nat, nat>)
    requires Accounts(device, bufs, base) && Filled(bufs, BatchCounts(batch))
    requires forall j :: j in batch ==> Representable(j)
    ensures Bytes(device.live) == Bytes(base) + Total(batch, JobBytes())
  {
    CountsAreBuffers(batch);
    BuffersOfRepresentable(batch);
    OwnedByAt(bufs);
    hide Tally;
    hide OwnedBy;
    hide BatchCounts;
    hide AllocationSize;
    hide Buffers;
    hide Bytes;
    hide Representable;
    OwnedBytes(OwnedBy(bufs), device.live, base, BatchCounts(batch));
  }
}
