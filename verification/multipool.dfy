/** The pool allocator (multipool.c): bump pools that are sealed while their last block may still
    grow. A pool is known by a number, a block by its pool and the offset of its header there;
    sizes are those of a 64-bit machine. Memory is a value that the operations take and return. */
module MultiPools {
  import opened Sequences
  import opened Sets

  const ALIGNMENT := 16
  const HEADER := 8
  const POOL_HEADER := 32
  const INIT_OFFSET := 8

  function RoundUp(n: nat): (r: nat)
    ensures n <= r < n + ALIGNMENT && r % ALIGNMENT == 0
  {
    (n + 15) / 16 * 16
  }

  /** round_size: the header included. */
  function RoundSize(size: nat): (r: nat)
    ensures size + HEADER <= r < size + HEADER + ALIGNMENT && r % ALIGNMENT == 0 && r >= ALIGNMENT
  {
    RoundUp(size + 8)
  }

  datatype Ptr = Ptr(pool: nat, offset: nat)

  /** struct pool; blocks gives the size in the header of every live block, by its offset. */
  datatype Pool = Pool(nAlloc: nat, offset: nat, size: nat, isSealed: bool, blocks: map<nat, nat>, data: seq<int>)

  /** Offsets of blocks are a multiple of the alignment behind the first one. */
  ghost predicate OnGrid(o: nat) {
    o >= INIT_OFFSET && (o - INIT_OFFSET) % ALIGNMENT == 0
  }

  ghost predicate WholeUnits(size: nat) {
    size >= ALIGNMENT && size % ALIGNMENT == 0
  }

  lemma GridSum(o: nat, size: nat)
    requires OnGrid(o) && WholeUnits(size)
    ensures OnGrid(o + size)
  {
  }

  /** A block is inside the used part of its pool and aligned. */
  ghost predicate BlockOk(p: Pool, o: nat)
    requires o in p.blocks
  {
    OnGrid(o) && WholeUnits(p.blocks[o]) && o + p.blocks[o] <= p.offset
  }

  ghost predicate Apart(p: Pool, o1: nat, o2: nat)
    requires o1 in p.blocks && o2 in p.blocks
  {
    o1 < o2 ==> o1 + p.blocks[o1] <= o2
  }

  ghost predicate PoolOk(p: Pool) {
    && OnGrid(p.offset) && p.offset <= p.size == |p.data|
    && p.nAlloc == |p.blocks| && (p.isSealed ==> p.nAlloc > 0)
    && (forall o {:trigger BlockOk(p, o)} :: o in p.blocks ==> BlockOk(p, o))
    && (forall o1, o2 {:trigger Apart(p, o1, o2)} :: o1 in p.blocks && o2 in p.blocks ==> Apart(p, o1, o2))
  }

  /** A block's bytes, behind its header. */
  ghost function Bytes(p: Pool, o: nat): seq<int>
    requires o in p.blocks && p.blocks[o] >= HEADER && o + p.blocks[o] <= |p.data|
  {
    p.data[o + HEADER..o + p.blocks[o]]
  }

  ghost predicate Live(pools: map<nat, Pool>, q: Ptr) {
    q.pool in pools && q.offset in pools[q.pool].blocks
  }

  /** A block is the last one of its pool, and nobody else can allocate behind it, up to room bytes
      from its start. */
  ghost predicate CanGrow(pools: map<nat, Pool>, q: Ptr, room: nat)
    requires Live(pools, q)
  {
    var p := pools[q.pool];
    p.isSealed && q.offset + p.blocks[q.offset] == p.offset && q.offset + room <= p.size
  }

  /** The block has the same place, size and bytes. */
  ghost predicate Untouched(pools0: map<nat, Pool>, pools: map<nat, Pool>, q: Ptr)
    requires Live(pools0, q)
  {
    && Live(pools, q)
    && var p0, p := pools0[q.pool], pools[q.pool];
       && p.blocks[q.offset] == p0.blocks[q.offset] >= HEADER
       && q.offset + p0.blocks[q.offset] <= |p0.data| && q.offset + p.blocks[q.offset] <= |p.data|
       && Bytes(p, q.offset) == Bytes(p0, q.offset)
  }

  // ----- Blocks of one pool -----

  /** A new block behind the used part. */
  function AddBlock(p: Pool, size: nat): Pool {
    p.(blocks := p.blocks[p.offset := size], offset := p.offset + size, nAlloc := p.nAlloc + 1)
  }

  lemma AddedApart(p: Pool, size: nat, o1: nat, o2: nat)
    requires (o1 in p.blocks && BlockOk(p, o1)) || o1 == p.offset
    requires (o2 in p.blocks && BlockOk(p, o2)) || o2 == p.offset
    requires p.offset !in p.blocks && (o1 in p.blocks && o2 in p.blocks ==> Apart(p, o1, o2))
    ensures Apart(AddBlock(p, size), o1, o2)
  {
  }

  lemma AddBlockOk(p: Pool, size: nat)
    requires PoolOk(p) && WholeUnits(size) && p.offset + size <= p.size
    ensures p.offset !in p.blocks && PoolOk(AddBlock(p, size)) && PoolOk(AddBlock(p, size).(isSealed := true))
  {
    assert p.offset in p.blocks ==> BlockOk(p, p.offset);
    GridSum(p.offset, size);
    var new_ := AddBlock(p, size);
    assert new_.blocks.Keys == p.blocks.Keys + {p.offset};
    forall o | o in new_.blocks
      ensures BlockOk(new_, o)
    {
      assert o != p.offset ==> BlockOk(p, o);
    }
    forall o1, o2 | o1 in new_.blocks && o2 in new_.blocks
      ensures Apart(new_, o1, o2)
    {
      assert o1 != p.offset ==> BlockOk(p, o1);
      assert o2 != p.offset ==> BlockOk(p, o2);
      assert o1 in p.blocks && o2 in p.blocks ==> Apart(p, o1, o2);
      AddedApart(p, size, o1, o2);
    }
    Resealed(new_);
  }

  lemma Resealed(p: Pool)
    requires PoolOk(p) && p.nAlloc > 0
    ensures PoolOk(p.(isSealed := true)) && PoolOk(p.(isSealed := false))
  {
    Unsealed(p);
    var q := p.(isSealed := true);
    forall o | o in q.blocks
      ensures BlockOk(q, o)
    {
      assert BlockOk(p, o);
    }
    forall o1, o2 | o1 in q.blocks && o2 in q.blocks
      ensures Apart(q, o1, o2)
    {
      assert Apart(p, o1, o2);
    }
  }

  lemma Unsealed(p: Pool)
    requires PoolOk(p)
    ensures PoolOk(p.(isSealed := false))
  {
    var q := p.(isSealed := false);
    forall o | o in q.blocks
      ensures BlockOk(q, o)
    {
      assert BlockOk(p, o);
    }
    forall o1, o2 | o1 in q.blocks && o2 in q.blocks
      ensures Apart(q, o1, o2)
    {
      assert Apart(p, o1, o2);
    }
  }

  predicate IsLast(p: Pool, o: nat)
    requires o in p.blocks
  {
    o + p.blocks[o] == p.offset
  }

  /** A block goes; the used part shrinks if it was the last one. */
  function DropBlock(p: Pool, o: nat): Pool
    requires o in p.blocks && p.nAlloc > 0 && p.blocks[o] <= p.offset
  {
    var offset := if p.nAlloc == 1 then INIT_OFFSET else if IsLast(p, o) then p.offset - p.blocks[o] else p.offset;
    p.(blocks := p.blocks - {o}, offset := offset, nAlloc := p.nAlloc - 1)
  }

  /** Another block of the pool stays inside the used part. */
  lemma BlockStays(p: Pool, o: nat, x: nat)
    requires o in p.blocks && x in p.blocks && x != o && p.nAlloc > 1
    requires BlockOk(p, o) && BlockOk(p, x) && Apart(p, x, o) && Apart(p, o, x)
    ensures BlockOk(DropBlock(p, o).(isSealed := false), x)
  {
  }

  lemma DropOffset(p: Pool, o: nat)
    requires OnGrid(p.offset) && o in p.blocks && BlockOk(p, o) && p.nAlloc > 0
    ensures OnGrid(DropBlock(p, o).offset) && DropBlock(p, o).offset <= p.offset
    ensures p.nAlloc > 1 && !IsLast(p, o) ==> DropBlock(p, o).offset == p.offset
  {
    assert p.nAlloc > 1 && IsLast(p, o) ==> DropBlock(p, o).offset == o;
  }

  lemma DropBlockOk(p: Pool, o: nat)
    requires PoolOk(p) && o in p.blocks
    ensures p.nAlloc > 0 && p.blocks[o] <= p.offset
    ensures var q := DropBlock(p, o);
      && PoolOk(q.(isSealed := false)) && (q.nAlloc > 0 ==> PoolOk(q))
      && (q.nAlloc == 0 <==> q.blocks == map[])
      && (!IsLast(p, o) ==> q.nAlloc > 0 ==> q.offset == p.offset)
  {
    assert BlockOk(p, o);
    assert p.blocks.Keys == (p.blocks - {o}).Keys + {o};
    assert |p.blocks| == |p.blocks - {o}| + 1;
    DropOffset(p, o);
    var q := DropBlock(p, o).(isSealed := false);
    forall x | x in q.blocks
      ensures BlockOk(q, x)
    {
      assert q.nAlloc > 0;
      assert BlockOk(p, x) && Apart(p, x, o) && Apart(p, o, x);
      BlockStays(p, o, x);
    }
    forall x, y | x in q.blocks && y in q.blocks
      ensures Apart(q, x, y)
    {
      assert Apart(p, x, y);
    }
    if q.nAlloc > 0 {
      Resealed(q);
    }
  }

  /** The last block gets another size. */
  function SizeBlock(p: Pool, o: nat, size: nat): Pool
    requires o in p.blocks
  {
    p.(blocks := p.blocks[o := size], offset := o + size)
  }

  lemma SizeBlockOk(p: Pool, o: nat, size: nat)
    requires PoolOk(p) && o in p.blocks && IsLast(p, o) && WholeUnits(size) && o + size <= p.size
    ensures PoolOk(SizeBlock(p, o, size))
  {
    var q := SizeBlock(p, o, size);
    assert BlockOk(p, o);
    GridSum(o, size);
    assert q.blocks.Keys == p.blocks.Keys;
    forall x | x in q.blocks
      ensures BlockOk(q, x)
    {
      assert BlockOk(p, x) && Apart(p, x, o) && Apart(p, o, x);
    }
    forall x, y | x in q.blocks && y in q.blocks
      ensures Apart(q, x, y)
    {
      assert Apart(p, x, y) && BlockOk(p, y);
    }
  }

  // ----- All pools -----

  /** struct multipool, the pools it owns, and the next unused pool number. */
  datatype Multi = Multi(pools: map<nat, Pool>, unsealed: seq<nat>, maxPad: nat, poolSize: nat,
                         unsealedCount: nat, poolCount: nat, maxUnsealed: nat, brk: nat)

  /** The list holds exactly the pools that are not sealed, and the counters count. */
  ghost predicate Listed(m: Multi) {
    && (forall i :: i in m.pools ==> i < m.brk)
    && Distinct(m.unsealed) && (forall i :: i in m.unsealed <==> i in m.pools && !m.pools[i].isSealed)
    && m.unsealedCount == |m.unsealed| && m.poolCount == |m.pools|
  }

  ghost predicate Valid(m: Multi) {
    Listed(m) && forall i :: i in m.pools ==> PoolOk(m.pools[i])
  }

  /** What an operation does to the blocks other than those in except: nothing, and those that
      could grow still can, unless their pool is in pinned. */
  ghost predicate OthersKept(pools0: map<nat, Pool>, pools: map<nat, Pool>, except: set<Ptr>) {
    && (forall x {:trigger Live(pools0, x)} :: Live(pools0, x) && x !in except ==> Untouched(pools0, pools, x))
    && (forall x {:trigger Live(pools, x)} :: Live(pools, x) && x !in except ==> Live(pools0, x))
  }

  ghost predicate GrowthKept(pools0: map<nat, Pool>, pools: map<nat, Pool>, x: Ptr)
    requires Live(pools0, x) && Live(pools, x)
  {
    forall room :: CanGrow(pools0, x, room) ==> CanGrow(pools, x, room)
  }

  /** Blocks that could grow still can, those of one pool aside. */
  ghost predicate AllGrowthKept(pools0: map<nat, Pool>, pools: map<nat, Pool>, except: set<Ptr>, pinned: set<nat>) {
    forall x {:trigger GrowthKept(pools0, pools, x)} ::
      Live(pools0, x) && Live(pools, x) && x !in except && x.pool !in pinned ==> GrowthKept(pools0, pools, x)
  }

  /** A block is added to an unsealed pool, which is sealed. */
  function Added(pools: map<nat, Pool>, i: nat, size: nat): map<nat, Pool>
    requires i in pools
  {
    pools[i := AddBlock(pools[i], size).(isSealed := true)]
  }

  /** The same pools, and maybe new, empty ones. */
  ghost predicate SamePools(pools0: map<nat, Pool>, pools: map<nat, Pool>) {
    && (forall i :: i in pools0 ==> i in pools && pools[i] == pools0[i])
    && (forall i :: i in pools && i !in pools0 ==> pools[i].blocks == map[])
  }

  lemma AddedKeeps(pools0: map<nat, Pool>, pools: map<nat, Pool>, i: nat, size: nat)
    requires (forall j :: j in pools ==> PoolOk(pools[j])) && i in pools && !pools[i].isSealed
    requires SamePools(pools0, pools)
    ensures var new_, q := Added(pools, i, size), Ptr(i, pools[i].offset);
      && !Live(pools0, q) && Live(new_, q) && new_[i].blocks[q.offset] == size
      && OthersKept(pools0, new_, {q}) && AllGrowthKept(pools0, new_, {}, {})
  {
    var new_, q := Added(pools, i, size), Ptr(i, pools[i].offset);
    assert q.offset in pools[i].blocks ==> BlockOk(pools[i], q.offset);
    forall x | Live(pools0, x)
      ensures Untouched(pools0, new_, x)
    {
      assert PoolOk(pools[x.pool]) && BlockOk(pools[x.pool], x.offset);
    }
  }

  /** pool_seal, for a pool with a new state. */
  function Seal(m: Multi, i: nat, p: Pool): Multi
    requires m.unsealedCount > 0
  {
    m.(unsealed := Without(m.unsealed, i), unsealedCount := m.unsealedCount - 1,
       pools := m.pools[i := p.(isSealed := true)])
  }

  /** pool_unseal, for a pool with a new state. */
  function Unseal(m: Multi, i: nat, p: Pool): Multi {
    m.(unsealed := [i] + m.unsealed, unsealedCount := m.unsealedCount + 1, pools := m.pools[i := p.(isSealed := false)])
  }

  /** pool_free. */
  function FreePool(m: Multi, i: nat): Multi
    requires i in m.pools && m.poolCount > 0 && (!m.pools[i].isSealed ==> m.unsealedCount > 0)
  {
    var m1 := if m.pools[i].isSealed then m
              else m.(unsealed := Without(m.unsealed, i), unsealedCount := m.unsealedCount - 1);
    m1.(pools := m1.pools - {i}, poolCount := m1.poolCount - 1)
  }

  lemma PoolSet(m: Multi, i: nat, p: Pool)
    requires Listed(m) && i in m.pools && p.isSealed == m.pools[i].isSealed
    ensures Listed(m.(pools := m.pools[i := p]))
  {
    assert m.pools[i := p].Keys == m.pools.Keys;
  }

  lemma PoolSealed(m: Multi, i: nat, p: Pool)
    requires Listed(m) && i in m.pools && !m.pools[i].isSealed
    ensures i in m.unsealed && m.unsealedCount > 0 && Listed(Seal(m, i, p))
  {
    assert i in m.unsealed;
    DistinctWithout(m.unsealed, i);
    assert m.pools[i := p.(isSealed := true)].Keys == m.pools.Keys;
  }

  lemma PoolUnsealed(m: Multi, i: nat, p: Pool)
    requires Listed(m) && i in m.pools && m.pools[i].isSealed
    ensures Listed(Unseal(m, i, p))
  {
    DistinctFirst(i, m.unsealed);
    assert m.pools[i := p.(isSealed := false)].Keys == m.pools.Keys;
  }

  lemma NewPoolListed(m: Multi, p: Pool)
    requires Listed(m)
    ensures Listed(Unseal(m.(poolCount := m.poolCount + 1, brk := m.brk + 1), m.brk, p))
  {
    DistinctFirst(m.brk, m.unsealed);
    assert m.pools[m.brk := p.(isSealed := false)].Keys == m.pools.Keys + {m.brk};
  }

  lemma PoolFreed(m: Multi, i: nat)
    requires Listed(m) && i in m.pools
    ensures m.poolCount > 0 && (!m.pools[i].isSealed ==> m.unsealedCount > 0) && Listed(FreePool(m, i))
  {
    assert m.pools.Keys == (m.pools - {i}).Keys + {i};
    if !m.pools[i].isSealed {
      assert i in m.unsealed;
      DistinctWithout(m.unsealed, i);
    }
  }

  /** All other pools are the same. */
  ghost predicate SameBut(pools0: map<nat, Pool>, pools: map<nat, Pool>, i: nat) {
    && (forall j :: j in pools0 && j != i ==> j in pools && pools[j] == pools0[j])
    && (forall j :: j in pools && j != i ==> j in pools0)
  }

  predicate SameLimits(m0: Multi, m: Multi) {
    m.maxPad == m0.maxPad && m.maxUnsealed == m0.maxUnsealed && m.poolSize == m0.poolSize
  }

  /** mpa_init. */
  method Init(poolSize: nat) returns (m: Multi)
    requires poolSize >= POOL_HEADER
    ensures Valid(m) && m.pools == map[] && m.unsealed == [] && m.maxPad == 0 && m.brk == 0
    ensures m.poolSize == poolSize - POOL_HEADER
  {
    m := Multi(map[], [], 0, poolSize - POOL_HEADER, 0, 0, 0, 0);
  }

  lemma EmptyPoolOk(size: nat)
    requires size >= INIT_OFFSET
    ensures PoolOk(Pool(0, INIT_OFFSET, size, false, map[], seq(size, _ => 0)))
  {
  }

  /** A new, empty pool. */
  method NewPool(m0: Multi, size: nat) returns (m: Multi, i: nat)
    requires Valid(m0) && size >= INIT_OFFSET
    ensures Valid(m) && i == m0.brk && i in m.pools && !m.pools[i].isSealed && SamePools(m0.pools, m.pools)
    ensures m.pools[i].size == size && m.pools[i].offset == INIT_OFFSET
    ensures SameLimits(m0, m) && m.unsealed == [i] + m0.unsealed && SameBut(m0.pools, m.pools, i) && i !in m0.pools
  {
    i := m0.brk;
    var pool := Pool(0, INIT_OFFSET, size, true, map[], seq(size, _ => 0));
    m := Unseal(m0.(poolCount := m0.poolCount + 1, brk := i + 1), i, pool);
    NewPoolListed(m0, pool);
    EmptyPoolOk(size);
  }

  predicate Fits(m: Multi, i: nat, size: nat) {
    i in m.pools && m.pools[i].size - m.pools[i].offset >= size
  }

  /** The first pool on the list, from place n on, with enough room; its length if there is none. */
  function FirstFit(m: Multi, size: nat, n: nat): (k: nat)
    requires n <= |m.unsealed|
    ensures n <= k <= |m.unsealed| && (k < |m.unsealed| ==> Fits(m, m.unsealed[k], size))
    ensures forall j :: n <= j < k ==> !Fits(m, m.unsealed[j], size)
    decreases |m.unsealed| - n
  {
    if n == |m.unsealed| || Fits(m, m.unsealed[n], size) then n else FirstFit(m, size, n + 1)
  }

  /** The pool a block of some size goes into, and the size of that pool. */
  function TargetPool(m: Multi, size: nat): nat {
    var k := FirstFit(m, size, 0);
    if k < |m.unsealed| then m.unsealed[k] else m.brk
  }

  function TargetSize(m: Multi, size: nat): nat {
    if TargetPool(m, size) in m.pools then m.pools[TargetPool(m, size)].size
    else if m.poolSize >= size + INIT_OFFSET then m.poolSize
    else size + INIT_OFFSET
  }

  function TargetOffset(m: Multi, size: nat): nat {
    if TargetPool(m, size) in m.pools then m.pools[TargetPool(m, size)].offset else INIT_OFFSET
  }

  /** get_fitting_pool: the first unsealed pool with enough room behind its used part, a new one if
      need be. */
  method GetFittingPool(m0: Multi, size: nat) returns (m: Multi, i: nat)
    requires Valid(m0)
    ensures Valid(m) && i in m.pools && !m.pools[i].isSealed && SamePools(m0.pools, m.pools)
    ensures m.pools[i].size - m.pools[i].offset >= size
    ensures SameLimits(m0, m) && SameBut(m0.pools, m.pools, i)
    ensures i == TargetPool(m0, size) && m.pools[i].size == TargetSize(m0, size)
    ensures m.pools[i].offset == TargetOffset(m0, size)
    ensures m.unsealed == if i in m0.pools then m0.unsealed else [i] + m0.unsealed
  {
    var n := 0;
    while n < |m0.unsealed|
      invariant n <= |m0.unsealed| && FirstFit(m0, size, n) == FirstFit(m0, size, 0)
    {
      m, i := m0, m0.unsealed[n];
      assert i in m0.unsealed;
      if m.pools[i].size - m.pools[i].offset >= size {
        return;
      }
      n := n + 1;
    }
    m, i := NewPool(m0, if m0.poolSize >= size + INIT_OFFSET then m0.poolSize else size + INIT_OFFSET);
  }

  /** mpa_alloc: a block of its own, behind the used part of the first pool on the list with room for
      it and for the padding in force, up to which it can grow. */
  method Alloc(m0: Multi, request: nat) returns (m: Multi, q: Ptr)
    requires Valid(m0)
    ensures Valid(m) && SameLimits(m0, m)
    ensures !Live(m0.pools, q) && Live(m.pools, q) && m.pools[q.pool].blocks[q.offset] == RoundSize(request)
    ensures CanGrow(m.pools, q, RoundSize(request)) && CanGrow(m.pools, q, m.maxPad)
    ensures OthersKept(m0.pools, m.pools, {q}) && AllGrowthKept(m0.pools, m.pools, {}, {})
    ensures var room := if RoundSize(request) >= m0.maxPad then RoundSize(request) else m0.maxPad;
      q == Ptr(TargetPool(m0, room), TargetOffset(m0, room)) && m.pools[q.pool].size == TargetSize(m0, room)
    ensures m.unsealed == (if q.pool in m0.pools then Without(m0.unsealed, q.pool) else m0.unsealed)
    ensures SameBut(m0.pools, m.pools, q.pool) && IsLast(m.pools[q.pool], q.offset)
    ensures q.pool in m0.pools ==> m.pools[q.pool] == AddBlock(m0.pools[q.pool], RoundSize(request)).(isSealed := true)
  {
    var size := RoundSize(request);
    var m1, i := GetFittingPool(m0, if size >= m0.maxPad then size else m0.maxPad);
    q := Ptr(i, m1.pools[i].offset);
    m := AddIn(m1, i, size);
    AddedKeeps(m0.pools, m1.pools, i, size);
  }

  /** A block is added to an unsealed pool. */
  method AddIn(m0: Multi, i: nat, size: nat) returns (m: Multi)
    requires Valid(m0) && i in m0.pools && !m0.pools[i].isSealed && WholeUnits(size)
    requires m0.pools[i].offset + size <= m0.pools[i].size
    ensures Valid(m) && SameLimits(m0, m) && m.pools == Added(m0.pools, i, size)
    ensures m.unsealed == Without(m0.unsealed, i)
  {
    var p := AddBlock(m0.pools[i], size);
    PoolSealed(m0, i, p);
    AddBlockOk(m0.pools[i], size);
    m := Seal(m0, i, p);
  }

  /** A block, wherever it is. */
  method AllocSome(m0: Multi, request: nat) returns (m: Multi, q: Ptr)
    requires Valid(m0)
    ensures Valid(m) && SameLimits(m0, m)
    ensures !Live(m0.pools, q) && Live(m.pools, q) && m.pools[q.pool].blocks[q.offset] == RoundSize(request)
    ensures CanGrow(m.pools, q, RoundSize(request)) && CanGrow(m.pools, q, m.maxPad)
    ensures OthersKept(m0.pools, m.pools, {q}) && AllGrowthKept(m0.pools, m.pools, {}, {})
  {
    m, q := Alloc(m0, request);
  }

  // ----- Freeing -----

  /** A pool in a new state with one block less, which may be sealed, unsealed, or gone. */
  lemma KeptBeside(pools0: map<nat, Pool>, pools: map<nat, Pool>, q: Ptr)
    requires (forall j :: j in pools0 ==> PoolOk(pools0[j])) && Live(pools0, q) && SameBut(pools0, pools, q.pool)
    requires var p := pools0[q.pool];
      if q.pool in pools then pools[q.pool].blocks == p.blocks - {q.offset} && pools[q.pool].data == p.data
      else p.blocks - {q.offset} == map[]
    requires q.pool in pools && !IsLast(pools0[q.pool], q.offset) && pools[q.pool].blocks != map[] ==>
      pools[q.pool] == pools0[q.pool].(blocks := pools[q.pool].blocks, nAlloc := pools[q.pool].nAlloc)
    ensures !Live(pools, q) && OthersKept(pools0, pools, {q}) && AllGrowthKept(pools0, pools, {q}, {})
  {
    forall x | Live(pools0, x) && x != q
      ensures Untouched(pools0, pools, x)
    {
      assert PoolOk(pools0[x.pool]) && BlockOk(pools0[x.pool], x.offset);
      if x.pool == q.pool {
        assert x.offset in pools0[q.pool].blocks - {q.offset};
      }
    }
    forall x | Live(pools0, x) && Live(pools, x) && x != q
      ensures GrowthKept(pools0, pools, x)
    {
      if x.pool == q.pool {
        var p := pools0[q.pool];
        assert PoolOk(p) && Apart(p, x.offset, q.offset) && Apart(p, q.offset, x.offset);
        assert BlockOk(p, x.offset) && BlockOk(p, q.offset);
        assert x.offset in pools[q.pool].blocks;
        assert IsLast(p, q.offset) ==> !IsLast(p, x.offset);
      }
    }
  }

  /** The end of mpa_free: an empty pool is kept unsealed, or freed if there are enough of those. */
  method Retire(m0: Multi, i: nat) returns (m: Multi)
    requires Listed(m0) && i in m0.pools
    ensures Listed(m) && SameLimits(m0, m) && SameBut(m0.pools, m.pools, i)
    ensures i in m.pools <==> |m0.unsealed| < m0.maxUnsealed
    ensures i in m.pools ==> m.pools[i] == m0.pools[i].(isSealed := false)
    ensures i in m.pools ==> m.unsealed == if m0.pools[i].isSealed then [i] + m0.unsealed else m0.unsealed
  {
    m := m0;
    if m.unsealedCount + 1 > m.maxUnsealed {
      PoolFreed(m, i);
      m := FreePool(m, i);
    } else if m.pools[i].isSealed {
      PoolUnsealed(m, i, m.pools[i]);
      m := Unseal(m, i, m.pools[i]);
    }
  }

  /** The list once a block of a pool is gone: a sealed pool comes to the front if it was the last one. */
  function Opened(m: Multi, q: Ptr): seq<nat>
    requires q.pool in m.pools && q.offset in m.pools[q.pool].blocks
  {
    var p := m.pools[q.pool];
    if p.isSealed && IsLast(p, q.offset) then [q.pool] + m.unsealed else m.unsealed
  }

  /** What a free leaves of a pool: the room of the last block is free again, and all of it once no block is left. */
  ghost predicate Freed(m0: Multi, q: Ptr, m: Multi)
    requires Live(m0.pools, q)
  {
    var i, p := q.pool, m0.pools[q.pool];
    if |p.blocks| > 1 then
      && i in m.pools && m.unsealed == Opened(m0, q)
      && m.pools[i] == p.(blocks := p.blocks - {q.offset}, nAlloc := |p.blocks| - 1,
                          offset := if IsLast(p, q.offset) then q.offset else p.offset,
                          isSealed := p.isSealed && !IsLast(p, q.offset))
    else
      && (i in m.pools <==> |Opened(m0, q)| < m0.maxUnsealed)
      && (i in m.pools ==>
            && m.pools[i] == p.(blocks := map[], nAlloc := 0, offset := 8, isSealed := false)
            && m.unsealed == if p.isSealed then [i] + m0.unsealed else m0.unsealed)
  }

  /** The start of mpa_free: the block goes, and if it was the last one its room is free again. */
  method TakeOut(m0: Multi, q: Ptr) returns (m: Multi)
    requires Valid(m0) && Live(m0.pools, q)
    requires m0.pools[q.pool].nAlloc > 0 && m0.pools[q.pool].blocks[q.offset] <= m0.pools[q.pool].offset
    ensures Listed(m) && SameLimits(m0, m) && SameBut(m0.pools, m.pools, q.pool)
    ensures var p := m0.pools[q.pool];
      q.pool in m.pools && m.pools[q.pool] == DropBlock(p, q.offset).(isSealed := p.isSealed && !IsLast(p, q.offset))
    ensures m.unsealed == Opened(m0, q)
  {
    var i, p := q.pool, m0.pools[q.pool];
    var dropped := DropBlock(p, q.offset);
    if IsLast(p, q.offset) && p.isSealed {
      PoolUnsealed(m0, i, dropped);
      m := Unseal(m0, i, dropped);
    } else {
      PoolSet(m0, i, dropped);
      m := m0.(pools := m0.pools[i := dropped]);
    }
  }

  lemma FreedPart(m0: Multi, q: Ptr, m: Multi)
    requires Live(m0.pools, q) && PoolOk(m0.pools[q.pool]) && m0.pools[q.pool].nAlloc > 1
    requires m0.pools[q.pool].blocks[q.offset] <= m0.pools[q.pool].offset
    requires var p := m0.pools[q.pool];
      q.pool in m.pools && m.pools[q.pool] == DropBlock(p, q.offset).(isSealed := p.isSealed && !IsLast(p, q.offset))
    requires m.unsealed == Opened(m0, q)
    ensures Freed(m0, q, m)
  {
  }

  lemma FreedValid(m0: Multi, q: Ptr, m: Multi)
    requires Valid(m0) && Live(m0.pools, q) && Listed(m) && SameBut(m0.pools, m.pools, q.pool) && Freed(m0, q, m)
    ensures Valid(m)
  {
    var p := m0.pools[q.pool];
    DropBlockOk(p, q.offset);
    assert BlockOk(p, q.offset);
    if |p.blocks| > 1 {
      var r := DropBlock(p, q.offset).(isSealed := p.isSealed && !IsLast(p, q.offset));
      Resealed(DropBlock(p, q.offset));
      assert m.pools[q.pool] == r;
    }
  }

  lemma FreedWhole(m0: Multi, q: Ptr, m1: Multi, m: Multi)
    requires Live(m0.pools, q) && PoolOk(m0.pools[q.pool]) && m0.pools[q.pool].nAlloc == 1
    requires m0.pools[q.pool].blocks[q.offset] <= m0.pools[q.pool].offset && m1.maxUnsealed == m0.maxUnsealed
    requires var p := m0.pools[q.pool];
      q.pool in m1.pools && m1.pools[q.pool] == DropBlock(p, q.offset).(isSealed := p.isSealed && !IsLast(p, q.offset))
    requires m1.pools[q.pool].blocks == map[] && m1.unsealed == Opened(m0, q)
    requires q.pool in m.pools <==> |m1.unsealed| < m1.maxUnsealed
    requires q.pool in m.pools ==>
      && m.pools[q.pool] == m1.pools[q.pool].(isSealed := false)
      && m.unsealed == if m1.pools[q.pool].isSealed then [q.pool] + m1.unsealed else m1.unsealed
    ensures Freed(m0, q, m)
  {
  }

  lemma FreedMeans(m0: Multi, q: Ptr, m: Multi)
    requires Valid(m0) && Live(m0.pools, q) && Freed(m0, q, m)
    ensures var p := m0.pools[q.pool];
      && (p.blocks - {q.offset} == map[] <==> |p.blocks| == 1)
      && if q.pool in m.pools then m.pools[q.pool].blocks == p.blocks - {q.offset} && m.pools[q.pool].data == p.data
         else p.blocks - {q.offset} == map[]
    ensures q.pool in m.pools && !IsLast(m0.pools[q.pool], q.offset) && m.pools[q.pool].blocks != map[] ==>
      m.pools[q.pool] == m0.pools[q.pool].(blocks := m.pools[q.pool].blocks, nAlloc := m.pools[q.pool].nAlloc)
  {
    var p := m0.pools[q.pool];
    assert PoolOk(p);
    assert p.blocks.Keys == (p.blocks - {q.offset}).Keys + {q.offset};
    assert |p.blocks| == |p.blocks - {q.offset}| + 1;
  }

  /** mpa_free, up to what it does to the other blocks. */
  method TakeOutAndRetire(m0: Multi, q: Ptr) returns (m: Multi)
    requires Valid(m0) && Live(m0.pools, q)
    ensures Valid(m) && SameLimits(m0, m) && SameBut(m0.pools, m.pools, q.pool) && Freed(m0, q, m)
  {
    DropBlockOk(m0.pools[q.pool], q.offset);
    m := TakeOut(m0, q);
    if m.pools[q.pool].nAlloc == 0 {
      ghost var m1 := m;
      m := Retire(m, q.pool);
      FreedWhole(m0, q, m1, m);
    } else {
      FreedPart(m0, q, m);
    }
    FreedValid(m0, q, m);
  }

  /** mpa_free. */
  method Free(m0: Multi, q: Ptr) returns (m: Multi)
    requires Valid(m0) && Live(m0.pools, q)
    ensures Valid(m) && SameLimits(m0, m)
    ensures !Live(m.pools, q) && OthersKept(m0.pools, m.pools, {q}) && AllGrowthKept(m0.pools, m.pools, {q}, {})
    ensures SameBut(m0.pools, m.pools, q.pool) && Freed(m0, q, m)
  {
    m := TakeOutAndRetire(m0, q);
    FreedMeans(m0, q, m);
    KeptBeside(m0.pools, m.pools, q);
  }

  /** The room of a freed block is used again: if it was the last one of its pool, which nobody else could
      use, the next block that fits there is put in its place; if the pool is empty and kept, at its start. */
  method FreeAndAlloc(m0: Multi, q: Ptr, request: nat) returns (m: Multi, r: Ptr)
    requires Valid(m0) && Live(m0.pools, q) && m0.pools[q.pool].isSealed
    ensures Valid(m) && Live(m.pools, r)
    ensures var p := m0.pools[q.pool];
      var start := if |p.blocks| > 1 then q.offset else 8;
      && (|p.blocks| > 1 ==> IsLast(p, q.offset))
      && (|p.blocks| == 1 ==> |Opened(m0, q)| < m0.maxUnsealed)
      && start + RoundSize(request) <= p.size && start + m0.maxPad <= p.size ==>
        r == Ptr(q.pool, start)
  {
    var m1 := Free(m0, q);
    m, r := Alloc(m1, request);
  }

  // ----- Limits -----

  /** A pool that is sealed because too little room is left in it, or freed if it is empty. */
  method SealFull(m0: Multi, i: nat) returns (m: Multi)
    requires Valid(m0) && i in m0.pools && !m0.pools[i].isSealed
    ensures Valid(m) && SameLimits(m0, m)
    ensures SameBut(m0.pools, m.pools, i)
    ensures i in m.pools <==> |m0.pools[i].blocks| > 0
    ensures i in m.pools ==> m.pools[i] == m0.pools[i].(isSealed := true)
    ensures OthersKept(m0.pools, m.pools, {}) && AllGrowthKept(m0.pools, m.pools, {}, {})
  {
    var p := m0.pools[i];
    if p.nAlloc > 0 {
      PoolSealed(m0, i, p);
      Resealed(p);
      m := Seal(m0, i, p);
    } else {
      PoolFreed(m0, i);
      m := FreePool(m0, i);
    }
    OnlySealed(m0.pools, m.pools, i);
  }

  lemma OnlySealed(pools0: map<nat, Pool>, pools: map<nat, Pool>, i: nat)
    requires (forall j :: j in pools0 ==> PoolOk(pools0[j])) && SameBut(pools0, pools, i) && i in pools0
    requires if i in pools then pools[i] == pools0[i].(isSealed := true) else pools0[i].blocks == map[]
    ensures OthersKept(pools0, pools, {}) && AllGrowthKept(pools0, pools, {}, {})
  {
    forall x | Live(pools0, x)
      ensures Untouched(pools0, pools, x)
    {
      assert PoolOk(pools0[x.pool]) && BlockOk(pools0[x.pool], x.offset);
    }
  }

  lemma KeptTwice(pools0: map<nat, Pool>, pools1: map<nat, Pool>, pools: map<nat, Pool>, e1: set<Ptr>, e2: set<Ptr>)
    requires OthersKept(pools0, pools1, e1) && AllGrowthKept(pools0, pools1, e1, {})
    requires OthersKept(pools1, pools, e2) && AllGrowthKept(pools1, pools, e2, {})
    ensures OthersKept(pools0, pools, e1 + e2) && AllGrowthKept(pools0, pools, e1 + e2, {})
  {
    forall x | Live(pools0, x) && x !in e1 + e2
      ensures Untouched(pools0, pools, x)
    {
      assert Untouched(pools0, pools1, x) && Untouched(pools1, pools, x);
    }
    forall x | Live(pools0, x) && Live(pools, x) && x !in e1 + e2
      ensures GrowthKept(pools0, pools, x)
    {
      assert Untouched(pools0, pools1, x);
      assert GrowthKept(pools0, pools1, x) && GrowthKept(pools1, pools, x);
    }
  }

  /** What a new padding makes of a pool on the list: with too little room behind its used part it is
      sealed, or freed if it is empty; otherwise it stays as it is. */
  ghost predicate Resettled(p0: Pool, pools: map<nat, Pool>, i: nat, maxPad: nat) {
    if p0.isSealed || p0.offset + maxPad <= p0.size then i in pools && pools[i] == p0
    else if p0.blocks != map[] then i in pools && pools[i] == p0.(isSealed := true)
    else i !in pools
  }

  method SealIfFull(m0: Multi, i: nat, ghost pools0: map<nat, Pool>) returns (m: Multi)
    requires Valid(m0) && i in m0.pools && !m0.pools[i].isSealed
    requires OthersKept(pools0, m0.pools, {}) && AllGrowthKept(pools0, m0.pools, {}, {})
    ensures Valid(m) && SameLimits(m0, m) && SameBut(m0.pools, m.pools, i)
    ensures i in m.pools && !m.pools[i].isSealed ==> m.pools[i].offset + m.maxPad <= m.pools[i].size
    ensures OthersKept(pools0, m.pools, {}) && AllGrowthKept(pools0, m.pools, {}, {})
    ensures Resettled(m0.pools[i], m.pools, i, m0.maxPad)
  {
    m := m0;
    if m.pools[i].size < m.maxPad + m.pools[i].offset {
      m := SealFull(m, i);
      KeptTwice(pools0, m0.pools, m.pools, {}, {});
      ghost var none: set<Ptr> := {};
      assert none + none == none;
    }
  }

  /** The pools still to be looked at are unsealed; all other unsealed ones have room for the padding. */
  ghost predicate Waiting(pools: map<nat, Pool>, maxPad: nat, rest: seq<nat>) {
    && (forall i :: i in rest ==> i in pools && !pools[i].isSealed)
    && (forall i :: i in pools && !pools[i].isSealed ==> i in rest || pools[i].offset + maxPad <= pools[i].size)
  }

  /** What became of the pools so far, those still to be looked at aside. */
  ghost predicate SoFar(pools0: map<nat, Pool>, pools: map<nat, Pool>, maxPad: nat, rest: seq<nat>) {
    && (forall i :: i in pools0 && i !in rest ==> Resettled(pools0[i], pools, i, maxPad))
    && (forall i :: i in pools0 && i in rest ==> i in pools && pools[i] == pools0[i])
    && (forall i :: i in pools ==> i in pools0)
  }

  /** The loop over the list, at its place n. */
  ghost predicate Progress(pools0: map<nat, Pool>, m: Multi, list: seq<nat>, n: nat)
    requires n <= |list|
  {
    && Valid(m) && OthersKept(pools0, m.pools, {}) && AllGrowthKept(pools0, m.pools, {}, {})
    && Waiting(m.pools, m.maxPad, list[n..]) && SoFar(pools0, m.pools, m.maxPad, list[n..])
  }

  lemma Remaining(list: seq<nat>, n: nat)
    requires Distinct(list) && n < |list|
    ensures forall i :: i in list[n..] <==> i == list[n] || i in list[n + 1..]
    ensures list[n] !in list[n + 1..]
  {
    OnlyAt(list, n);
    assert list[n..] == [list[n]] + list[n + 1..];
  }

  /** mpa_set_seal_max_pad: every pool on the list has room for the new padding. */
  method SetSealMaxPad(m0: Multi, pad: nat, maxUnsealed: nat) returns (m: Multi)
    requires Valid(m0)
    ensures Valid(m) && m.maxPad == RoundSize(pad) && m.maxUnsealed == maxUnsealed
    ensures OthersKept(m0.pools, m.pools, {}) && AllGrowthKept(m0.pools, m.pools, {}, {})
    ensures forall i :: i in m.unsealed ==> i in m.pools && m.pools[i].offset + m.maxPad <= m.pools[i].size
    ensures m0.unsealed == [] ==> m == m0.(maxPad := RoundSize(pad), maxUnsealed := maxUnsealed)
    ensures forall i :: i in m0.pools ==> Resettled(m0.pools[i], m.pools, i, m.maxPad)
    ensures forall i :: i in m.pools ==> i in m0.pools
  {
    m := m0.(maxPad := RoundSize(pad), maxUnsealed := maxUnsealed);
    var list, n := m0.unsealed, 0;
    NoProgress(m0, m);
    while n < |list|
      invariant n <= |list| && Progress(m0.pools, m, list, n)
      invariant m.maxPad == RoundSize(pad) && m.maxUnsealed == maxUnsealed
      invariant n == 0 ==> m == m0.(maxPad := RoundSize(pad), maxUnsealed := maxUnsealed)
    {
      m := SealNext(m, list, n, m0.pools);
      n := n + 1;
    }
    AllSettled(m0.pools, m, list);
  }

  /** The next pool of the list. */
  method SealNext(m0: Multi, list: seq<nat>, n: nat, ghost pools0: map<nat, Pool>) returns (m: Multi)
    requires n < |list| && Distinct(list) && Progress(pools0, m0, list, n)
    ensures Progress(pools0, m, list, n + 1) && SameLimits(m0, m)
  {
    assert list[n..][0] == list[n];
    m := SealIfFull(m0, list[n], pools0);
    OneWaitsLess(m0.pools, m.pools, m.maxPad, list, n);
    OneSettled(pools0, m0.pools, m.pools, m.maxPad, list, n);
  }

  lemma OneWaitsLess(pools0: map<nat, Pool>, pools: map<nat, Pool>, maxPad: nat, list: seq<nat>, n: nat)
    requires n < |list| && Distinct(list) && Waiting(pools0, maxPad, list[n..]) && SameBut(pools0, pools, list[n])
    requires var i := list[n]; i in pools && !pools[i].isSealed ==> pools[i].offset + maxPad <= pools[i].size
    ensures Waiting(pools, maxPad, list[n + 1..])
  {
    Remaining(list, n);
  }

  lemma OneSettled(pools0: map<nat, Pool>, pools1: map<nat, Pool>, pools: map<nat, Pool>, maxPad: nat, list: seq<nat>,
                   n: nat)
    requires n < |list| && Distinct(list) && SoFar(pools0, pools1, maxPad, list[n..])
    requires SameBut(pools1, pools, list[n]) && list[n] in pools1
    requires Resettled(pools1[list[n]], pools, list[n], maxPad)
    ensures SoFar(pools0, pools, maxPad, list[n + 1..])
  {
    Remaining(list, n);
    forall i | i in pools0 && i !in list[n + 1..]
      ensures Resettled(pools0[i], pools, i, maxPad)
    {
      if i != list[n] {
        assert Resettled(pools0[i], pools1, i, maxPad);
      }
    }
  }

  lemma NothingChanged(pools: map<nat, Pool>)
    requires forall j :: j in pools ==> PoolOk(pools[j])
    ensures OthersKept(pools, pools, {}) && AllGrowthKept(pools, pools, {}, {})
  {
    forall x | Live(pools, x)
      ensures Untouched(pools, pools, x)
    {
      assert PoolOk(pools[x.pool]) && BlockOk(pools[x.pool], x.offset);
    }
  }

  lemma NoProgress(m0: Multi, m: Multi)
    requires Valid(m0) && m == m0.(maxPad := m.maxPad, maxUnsealed := m.maxUnsealed)
    ensures Progress(m0.pools, m, m0.unsealed, 0)
  {
    NothingChanged(m0.pools);
    assert m0.unsealed[0..] == m0.unsealed;
  }

  lemma AllSettled(pools0: map<nat, Pool>, m: Multi, list: seq<nat>)
    requires Progress(pools0, m, list, |list|)
    ensures forall i :: i in m.unsealed ==> i in m.pools && m.pools[i].offset + m.maxPad <= m.pools[i].size
    ensures forall i :: i in pools0 ==> Resettled(pools0[i], m.pools, i, m.maxPad)
    ensures forall i :: i in m.pools ==> i in pools0
  {
  }

  // ----- Pinning and resizing -----

  lemma UnsealedKeeps(pools0: map<nat, Pool>, pools: map<nat, Pool>, i: nat)
    requires (forall j :: j in pools0 ==> PoolOk(pools0[j])) && i in pools0
    requires pools == pools0[i := pools0[i].(isSealed := false)]
    ensures OthersKept(pools0, pools, {}) && AllGrowthKept(pools0, pools, {}, {i}) && SameBut(pools0, pools, i)
  {
    forall x | Live(pools0, x)
      ensures Untouched(pools0, pools, x)
    {
      assert PoolOk(pools0[x.pool]) && BlockOk(pools0[x.pool], x.offset);
    }
  }

  /** check_unseal: a pool with room for the padding takes further blocks. */
  method CheckUnseal(m0: Multi, i: nat) returns (m: Multi)
    requires Valid(m0) && i in m0.pools
    ensures Valid(m) && SameLimits(m0, m)
    ensures OthersKept(m0.pools, m.pools, {}) && AllGrowthKept(m0.pools, m.pools, {}, {i})
    ensures SameBut(m0.pools, m.pools, i)
    ensures i in m.pools
    ensures m.pools[i] ==
      m0.pools[i].(isSealed := m0.pools[i].isSealed && m0.pools[i].size - m0.pools[i].offset < m0.maxPad)
    ensures m.unsealed == if m0.pools[i].isSealed && !m.pools[i].isSealed then [i] + m0.unsealed else m0.unsealed
  {
    var p := m0.pools[i];
    if p.isSealed && p.size - p.offset >= m0.maxPad {
      PoolUnsealed(m0, i, p);
      Unsealed(p);
      m := Unseal(m0, i, p);
      UnsealedKeeps(m0.pools, m.pools, i);
    } else {
      m := m0;
      NothingChanged(m0.pools);
    }
  }

  lemma OpenedRoom(pools0: map<nat, Pool>, pools: map<nat, Pool>, i: nat, maxPad: nat, x: Ptr, room: nat)
    requires SameBut(pools0, pools, i) && i in pools0 && i in pools && Live(pools0, x) && Live(pools, x)
    requires pools[i] == pools0[i].(isSealed := pools0[i].isSealed && pools0[i].size - pools0[i].offset < maxPad)
    ensures CanGrow(pools, x, room) <==>
      CanGrow(pools0, x, room) && (x.pool != i || pools0[i].size - pools0[i].offset < maxPad)
  {
  }

  /** mpa_pin: after it a block can still grow in place, up to some room, exactly if it could
      before, and its pool is another one or stays sealed for lack of room for the padding. */
  method Pin(m0: Multi, q: Ptr) returns (m: Multi)
    requires Valid(m0) && Live(m0.pools, q)
    ensures Valid(m) && OthersKept(m0.pools, m.pools, {})
    ensures forall x, room {:trigger CanGrow(m.pools, x, room)} :: Live(m0.pools, x) && Live(m.pools, x) ==>
      (CanGrow(m.pools, x, room) <==>
        CanGrow(m0.pools, x, room) && (x.pool != q.pool || m0.pools[q.pool].size - m0.pools[q.pool].offset < m0.maxPad))
    ensures SameLimits(m0, m) && SameBut(m0.pools, m.pools, q.pool) && q.pool in m.pools
    ensures var p := m0.pools[q.pool]; m.pools[q.pool] == p.(isSealed := p.isSealed && p.size - p.offset < m0.maxPad)
    ensures m.unsealed ==
      if m0.pools[q.pool].isSealed && !m.pools[q.pool].isSealed then [q.pool] + m0.unsealed else m0.unsealed
  {
    m := CheckUnseal(m0, q.pool);
    forall x, room | Live(m0.pools, x) && Live(m.pools, x)
      ensures CanGrow(m.pools, x, room) <==>
        CanGrow(m0.pools, x, room) && (x.pool != q.pool || m0.pools[q.pool].size - m0.pools[q.pool].offset < m0.maxPad)
    {
      OpenedRoom(m0.pools, m.pools, q.pool, m0.maxPad, x, room);
    }
  }

  /** Bytes written into a block, from its byte k on. */
  function PutBytes(p: Pool, o: nat, k: nat, bytes: seq<int>): Pool
    requires o + HEADER + k + |bytes| <= |p.data|
  {
    var at := o + HEADER + k;
    p.(data := p.data[..at] + bytes + p.data[at + |bytes|..])
  }

  lemma PutBytesPoolOk(p: Pool, o: nat, k: nat, bytes: seq<int>)
    requires PoolOk(p) && o + HEADER + k + |bytes| <= |p.data|
    ensures PoolOk(PutBytes(p, o, k, bytes))
  {
    var p2 := PutBytes(p, o, k, bytes);
    forall x | x in p2.blocks
      ensures BlockOk(p2, x)
    {
      assert BlockOk(p, x);
    }
    forall x, y | x in p2.blocks && y in p2.blocks
      ensures Apart(p2, x, y)
    {
      assert Apart(p, x, y);
    }
  }

  /** Writing inside a block reaches no other block of its pool. */
  lemma PutBytesBeside(p: Pool, o: nat, k: nat, bytes: seq<int>, x: nat)
    requires PoolOk(p) && o in p.blocks && x in p.blocks && x != o && k + |bytes| + HEADER <= p.blocks[o]
    requires o + p.blocks[o] <= |p.data| && x + p.blocks[x] <= |p.data| && p.blocks[x] >= HEADER
    ensures Bytes(PutBytes(p, o, k, bytes), x) == Bytes(p, x)
  {
    assert Apart(p, o, x) && Apart(p, x, o);
    var p2 := PutBytes(p, o, k, bytes);
    assert forall j :: x <= j < x + p.blocks[x] ==> p2.data[j] == p.data[j];
  }

  predicate Holds(data: seq<int>, at: nat, bytes: seq<int>) {
    at + |bytes| <= |data| && data[at..at + |bytes|] == bytes
  }

  /** Bytes stored into a block: by its user, or by the copy of mpa_realloc. */
  method Write(m0: Multi, q: Ptr, k: nat, bytes: seq<int>) returns (m: Multi)
    requires Valid(m0) && Live(m0.pools, q) && k + |bytes| + HEADER <= m0.pools[q.pool].blocks[q.offset]
    ensures Valid(m) && SameLimits(m0, m) && OthersKept(m0.pools, m.pools, {q})
    ensures AllGrowthKept(m0.pools, m.pools, {}, {})
    ensures Live(m.pools, q) && m.pools[q.pool].blocks == m0.pools[q.pool].blocks
    ensures q.offset + m.pools[q.pool].blocks[q.offset] <= |m.pools[q.pool].data|
    ensures Holds(m.pools[q.pool].data, q.offset + HEADER + k, bytes)
  {
    var p := m0.pools[q.pool];
    assert BlockOk(p, q.offset);
    var p2 := PutBytes(p, q.offset, k, bytes);
    PutBytesPoolOk(p, q.offset, k, bytes);
    PoolSet(m0, q.pool, p2);
    PutBytesKeeps(m0.pools, q, k, bytes);
    m := m0.(pools := m0.pools[q.pool := p2]);
  }

  lemma PutBytesKeeps(pools: map<nat, Pool>, q: Ptr, k: nat, bytes: seq<int>)
    requires (forall j :: j in pools ==> PoolOk(pools[j])) && Live(pools, q)
    requires k + |bytes| + HEADER <= pools[q.pool].blocks[q.offset]
    requires q.offset + HEADER + k + |bytes| <= |pools[q.pool].data|
    ensures var new_ := pools[q.pool := PutBytes(pools[q.pool], q.offset, k, bytes)];
      OthersKept(pools, new_, {q}) && AllGrowthKept(pools, new_, {}, {})
  {
    var p := pools[q.pool];
    var new_ := pools[q.pool := PutBytes(p, q.offset, k, bytes)];
    assert BlockOk(p, q.offset);
    forall x | Live(pools, x) && x != q
      ensures Untouched(pools, new_, x)
    {
      assert PoolOk(pools[x.pool]) && BlockOk(pools[x.pool], x.offset);
      if x.pool == q.pool {
        PutBytesBeside(p, q.offset, k, bytes, x.offset);
      }
    }
  }

  lemma KeptAgain(pools0: map<nat, Pool>, pools1: map<nat, Pool>, pools: map<nat, Pool>, r: Ptr)
    requires OthersKept(pools0, pools1, {r}) && AllGrowthKept(pools0, pools1, {}, {})
    requires OthersKept(pools1, pools, {r}) && AllGrowthKept(pools1, pools, {}, {})
    ensures OthersKept(pools0, pools, {r}) && AllGrowthKept(pools0, pools, {r}, {})
  {
    KeptTwice(pools0, pools1, pools, {r}, {r});
    assert {r} + {r} == {r};
  }

  lemma BytesAre(p: Pool, o: nat, bytes: seq<int>)
    requires o in p.blocks && p.blocks[o] >= HEADER && o + p.blocks[o] <= |p.data|
    requires bytes == p.data[o + HEADER..o + p.blocks[o]]
    ensures Bytes(p, o) == bytes
  {
  }

  /** The slow path of mpa_realloc: a new block and a copy. */
  method AllocCopy(m0: Multi, q: Ptr, size: nat) returns (m: Multi, r: Ptr)
    requires Valid(m0) && Live(m0.pools, q) && WholeUnits(size) && HEADER <= m0.pools[q.pool].blocks[q.offset] < size
    requires q.offset + m0.pools[q.pool].blocks[q.offset] <= |m0.pools[q.pool].data|
    ensures Valid(m) && SameLimits(m0, m) && !Live(m0.pools, r) && Live(m.pools, r)
    ensures m.pools[r.pool].blocks[r.offset] == size && CanGrow(m.pools, r, m.maxPad) && CanGrow(m.pools, r, size)
    ensures OthersKept(m0.pools, m.pools, {r}) && AllGrowthKept(m0.pools, m.pools, {r}, {})
    ensures r.offset + size <= |m.pools[r.pool].data|
    ensures Bytes(m0.pools[q.pool], q.offset) <= Bytes(m.pools[r.pool], r.offset)
  {
    var p := m0.pools[q.pool];
    var bytes := p.data[q.offset + HEADER..q.offset + p.blocks[q.offset]];
    BytesAre(p, q.offset, bytes);
    RoundedAlready(size, size - HEADER);
    var m1;
    m1, r := AllocSome(m0, size - HEADER);
    m := FillNew(m1, r, bytes);
    KeptAgain(m0.pools, m1.pools, m.pools, r);
  }

  /** The copy. */
  method FillNew(m0: Multi, r: Ptr, bytes: seq<int>) returns (m: Multi)
    requires Valid(m0) && Live(m0.pools, r) && |bytes| + HEADER <= m0.pools[r.pool].blocks[r.offset]
    ensures Valid(m) && SameLimits(m0, m) && OthersKept(m0.pools, m.pools, {r})
    ensures AllGrowthKept(m0.pools, m.pools, {}, {})
    ensures Live(m.pools, r) && m.pools[r.pool].blocks[r.offset] == m0.pools[r.pool].blocks[r.offset]
    ensures GrowthKept(m0.pools, m.pools, r)
    ensures r.offset + m.pools[r.pool].blocks[r.offset] <= |m.pools[r.pool].data|
    ensures bytes <= Bytes(m.pools[r.pool], r.offset)
  {
    m := Write(m0, r, 0, bytes);
    StartsWith(m.pools[r.pool], r.offset, bytes);
    assert GrowthKept(m0.pools, m.pools, r);
  }

  /** The slow path of mpa_realloc, after which the old block is freed. */
  method Move(m0: Multi, q: Ptr, size: nat) returns (m: Multi, r: Ptr)
    requires Valid(m0) && Live(m0.pools, q) && WholeUnits(size) && HEADER <= m0.pools[q.pool].blocks[q.offset] < size
    requires q.offset + m0.pools[q.pool].blocks[q.offset] <= |m0.pools[q.pool].data|
    ensures Valid(m) && SameLimits(m0, m) && !Live(m0.pools, r) && Live(m.pools, r) && !Live(m.pools, q)
    ensures m.pools[r.pool].blocks[r.offset] == size && CanGrow(m.pools, r, m.maxPad) && CanGrow(m.pools, r, size)
    ensures OthersKept(m0.pools, m.pools, {q, r}) && AllGrowthKept(m0.pools, m.pools, {q, r}, {})
    ensures r.offset + size <= |m.pools[r.pool].data|
    ensures Bytes(m0.pools[q.pool], q.offset) <= Bytes(m.pools[r.pool], r.offset)
  {
    var m1;
    m1, r := AllocCopy(m0, q, size);
    assert Untouched(m0.pools, m1.pools, q);
    m := Free(m1, q);
    KeptTwice(m0.pools, m1.pools, m.pools, {r}, {q});
    assert {r} + {q} == {q, r};
    assert Untouched(m1.pools, m.pools, r) && GrowthKept(m1.pools, m.pools, r);
  }

  lemma RoundedAlready(size: nat, request: nat)
    requires WholeUnits(size) && size == request + HEADER
    ensures RoundSize(request) == size
  {
  }

  lemma StartsWith(p: Pool, o: nat, bytes: seq<int>)
    requires o in p.blocks && p.blocks[o] >= HEADER + |bytes| && o + p.blocks[o] <= |p.data|
    requires Holds(p.data, o + HEADER + 0, bytes)
    ensures bytes <= Bytes(p, o)
  {
  }

  /** The last block of a pool resized in place. */
  method SizeInPlace(m0: Multi, q: Ptr, size: nat) returns (m: Multi)
    requires Valid(m0) && Live(m0.pools, q) && IsLast(m0.pools[q.pool], q.offset)
    requires WholeUnits(size) && q.offset + size <= m0.pools[q.pool].size
    ensures Valid(m) && SameLimits(m0, m) && m.pools == m0.pools[q.pool := SizeBlock(m0.pools[q.pool], q.offset, size)]
    ensures OthersKept(m0.pools, m.pools, {q}) && AllGrowthKept(m0.pools, m.pools, {}, {})
  {
    var p := SizeBlock(m0.pools[q.pool], q.offset, size);
    SizeBlockOk(m0.pools[q.pool], q.offset, size);
    PoolSet(m0, q.pool, p);
    m := m0.(pools := m0.pools[q.pool := p]);
    ResizedKeeps(m0.pools, m.pools, q, size);
  }

  lemma ResizedKeeps(pools0: map<nat, Pool>, pools: map<nat, Pool>, q: Ptr, size: nat)
    requires (forall j :: j in pools0 ==> PoolOk(pools0[j])) && Live(pools0, q) && IsLast(pools0[q.pool], q.offset)
    requires pools == pools0[q.pool := SizeBlock(pools0[q.pool], q.offset, size)]
    ensures OthersKept(pools0, pools, {q}) && AllGrowthKept(pools0, pools, {}, {})
  {
    forall x | Live(pools0, x) && x != q
      ensures Untouched(pools0, pools, x)
    {
      assert PoolOk(pools0[x.pool]) && BlockOk(pools0[x.pool], x.offset);
    }
    forall x | Live(pools0, x) && Live(pools, x)
      ensures GrowthKept(pools0, pools, x)
    {
      var p := pools0[q.pool];
      if x.pool == q.pool && x != q {
        assert PoolOk(p) && BlockOk(p, x.offset) && BlockOk(p, q.offset);
        assert Apart(p, x.offset, q.offset) && Apart(p, q.offset, x.offset);
      }
    }
  }

  /** A block's bytes, as many as both sizes hold, are the same. */
  ghost predicate BytesKept(m0: Multi, q: Ptr, m: Multi, r: Ptr) {
    && Live(m0.pools, q) && Live(m.pools, r)
    && var p0, p := m0.pools[q.pool], m.pools[r.pool];
       && p0.blocks[q.offset] >= HEADER && q.offset + p0.blocks[q.offset] <= |p0.data|
       && p.blocks[r.offset] >= HEADER && r.offset + p.blocks[r.offset] <= |p.data|
       && var b0, b := Bytes(p0, q.offset), Bytes(p, r.offset);
          if |b| <= |b0| then b <= b0 else b0 <= b
  }

  /** mpa_realloc where the block stays: the last block of a pool gets its new size, any other one
      keeps what it has. */
  method Stay(m0: Multi, q: Ptr, size: nat) returns (m: Multi)
    requires Valid(m0) && Live(m0.pools, q) && WholeUnits(size)
    requires if IsLast(m0.pools[q.pool], q.offset) then q.offset + size <= m0.pools[q.pool].size
             else size <= m0.pools[q.pool].blocks[q.offset]
    ensures Valid(m) && SameLimits(m0, m) && BytesKept(m0, q, m, q)
    ensures OthersKept(m0.pools, m.pools, {q}) && AllGrowthKept(m0.pools, m.pools, {}, {})
    ensures Live(m.pools, q) && m.pools[q.pool].blocks[q.offset] ==
      if IsLast(m0.pools[q.pool], q.offset) then size else m0.pools[q.pool].blocks[q.offset]
    ensures m.pools ==
      if IsLast(m0.pools[q.pool], q.offset) then m0.pools[q.pool := SizeBlock(m0.pools[q.pool], q.offset, size)]
      else m0.pools
  {
    var p := m0.pools[q.pool];
    assert BlockOk(p, q.offset);
    m := m0;
    if IsLast(p, q.offset) {
      m := SizeInPlace(m0, q, size);
      assert BlockOk(m.pools[q.pool], q.offset);
    } else {
      NothingChanged(m0.pools);
    }
  }

  /** The room of all blocks after a block stayed: the same, but that of the last block of its pool
      is given up if the block is pinned and enough is left in the pool. */
  ghost predicate RoomAfter(pools0: map<nat, Pool>, pools: map<nat, Pool>, x: Ptr, room: nat, i: nat, pin: bool,
                            maxPad: nat)
    requires Live(pools0, x) && Live(pools, x) && i in pools
  {
    CanGrow(pools, x, room) <==>
      CanGrow(pools0, x, room) && (pin && x.pool == i ==> pools[i].size - pools[i].offset < maxPad)
  }

  ghost predicate AllRoomAfter(pools0: map<nat, Pool>, pools: map<nat, Pool>, i: nat, pin: bool, maxPad: nat) {
    i in pools && forall x, room {:trigger RoomAfter(pools0, pools, x, room, i, pin, maxPad)} ::
      Live(pools0, x) && Live(pools, x) ==> RoomAfter(pools0, pools, x, room, i, pin, maxPad)
  }

  /** mpa_realloc. Bytes are kept. The block stays exactly if it does not grow, or is the last one of
      its pool and its pool has the room; so shrinking never moves it. What stays keeps its room, and
      so do all others, but for what a pin gives up. */
  method Realloc(m0: Multi, q: Ptr, request: nat, pin: bool) returns (m: Multi, r: Ptr)
    requires Valid(m0) && Live(m0.pools, q)
    ensures Valid(m) && SameLimits(m0, m) && BytesKept(m0, q, m, r)
    ensures (r != q ==> !Live(m0.pools, r) && !Live(m.pools, q))
    ensures r == q <==>
      || RoundSize(request) <= m0.pools[q.pool].blocks[q.offset]
      || (IsLast(m0.pools[q.pool], q.offset) && q.offset + RoundSize(request) <= m0.pools[q.pool].size)
    ensures m.pools[r.pool].blocks[r.offset] ==
      if r == q && !IsLast(m0.pools[q.pool], q.offset) then m0.pools[q.pool].blocks[q.offset] else RoundSize(request)
    ensures OthersKept(m0.pools, m.pools, {q, r})
    ensures r == q ==>
      AllRoomAfter(m0.pools, m.pools, q.pool, pin, m0.maxPad) && m.pools[q.pool].size == m0.pools[q.pool].size
    ensures r == q ==>
      m.pools[q.pool].offset ==
        if IsLast(m0.pools[q.pool], q.offset) then q.offset + RoundSize(request) else m0.pools[q.pool].offset
    ensures r != q ==> AllGrowthKept(m0.pools, m.pools, {q, r}, {}) && CanGrow(m.pools, r, m.maxPad)
  {
    var size := RoundSize(request);
    var p := m0.pools[q.pool];
    assert BlockOk(p, q.offset);
    if !(IsLast(p, q.offset) && size - p.blocks[q.offset] <= p.size - p.offset) && p.blocks[q.offset] < size {
      m, r := Move(m0, q, size);
    } else {
      r := q;
      m := StayAndPin(m0, q, size, pin);
    }
  }

  method StayAndPin(m0: Multi, q: Ptr, size: nat, pin: bool) returns (m: Multi)
    requires Valid(m0) && Live(m0.pools, q) && WholeUnits(size)
    requires if IsLast(m0.pools[q.pool], q.offset) then q.offset + size <= m0.pools[q.pool].size
             else size <= m0.pools[q.pool].blocks[q.offset]
    ensures Valid(m) && SameLimits(m0, m) && BytesKept(m0, q, m, q) && OthersKept(m0.pools, m.pools, {q})
    ensures AllRoomAfter(m0.pools, m.pools, q.pool, pin, m0.maxPad) && m.pools[q.pool].size == m0.pools[q.pool].size
    ensures m.pools[q.pool].offset ==
      if IsLast(m0.pools[q.pool], q.offset) then q.offset + size else m0.pools[q.pool].offset
    ensures m.pools[q.pool].blocks[q.offset] ==
      if IsLast(m0.pools[q.pool], q.offset) then size else m0.pools[q.pool].blocks[q.offset]
  {
    m := StayPut(m0, q, size);
    if pin {
      m := PinStayed(m0, m, q);
    }
  }

  method StayPut(m0: Multi, q: Ptr, size: nat) returns (m: Multi)
    requires Valid(m0) && Live(m0.pools, q) && WholeUnits(size)
    requires if IsLast(m0.pools[q.pool], q.offset) then q.offset + size <= m0.pools[q.pool].size
             else size <= m0.pools[q.pool].blocks[q.offset]
    ensures Valid(m) && SameLimits(m0, m) && BytesKept(m0, q, m, q) && OthersKept(m0.pools, m.pools, {q})
    ensures AllRoomAfter(m0.pools, m.pools, q.pool, false, m0.maxPad) && m.pools[q.pool].size == m0.pools[q.pool].size
    ensures m.pools[q.pool].offset ==
      if IsLast(m0.pools[q.pool], q.offset) then q.offset + size else m0.pools[q.pool].offset
    ensures m.pools[q.pool].blocks[q.offset] ==
      if IsLast(m0.pools[q.pool], q.offset) then size else m0.pools[q.pool].blocks[q.offset]
  {
    m := Stay(m0, q, size);
    RoomStays(m0.pools, m.pools, q, size, m0.maxPad);
  }

  /** The pin at the end of mpa_realloc. */
  method PinStayed(ghost m0: Multi, m1: Multi, q: Ptr) returns (m: Multi)
    requires Valid(m1) && BytesKept(m0, q, m1, q)
    requires OthersKept(m0.pools, m1.pools, {q}) && AllRoomAfter(m0.pools, m1.pools, q.pool, false, m1.maxPad)
    ensures Valid(m) && SameLimits(m1, m) && OthersKept(m0.pools, m.pools, {q})
    ensures AllRoomAfter(m0.pools, m.pools, q.pool, true, m1.maxPad) && BytesKept(m0, q, m, q)
    ensures q.pool in m.pools && m.pools[q.pool] == m1.pools[q.pool].(isSealed := m.pools[q.pool].isSealed)
  {
    m := CheckUnseal(m1, q.pool);
    PinnedKeeps(m0.pools, m1.pools, m.pools, q);
    RoomPinned(m0.pools, m1.pools, m.pools, q.pool, m1.maxPad);
  }

  lemma RoomStays(pools0: map<nat, Pool>, pools: map<nat, Pool>, q: Ptr, size: nat, maxPad: nat)
    requires (forall j :: j in pools0 ==> PoolOk(pools0[j])) && Live(pools0, q) && WholeUnits(size)
    requires pools ==
      if IsLast(pools0[q.pool], q.offset) then pools0[q.pool := SizeBlock(pools0[q.pool], q.offset, size)] else pools0
    requires IsLast(pools0[q.pool], q.offset) ==> q.offset + size <= pools0[q.pool].size
    ensures AllRoomAfter(pools0, pools, q.pool, false, maxPad)
  {
    forall x, room | Live(pools0, x) && Live(pools, x)
      ensures RoomAfter(pools0, pools, x, room, q.pool, false, maxPad)
    {
      var p := pools0[q.pool];
      if x.pool == q.pool && x != q {
        assert PoolOk(p) && BlockOk(p, x.offset) && BlockOk(p, q.offset);
        assert Apart(p, x.offset, q.offset) && Apart(p, q.offset, x.offset);
      }
    }
  }

  lemma RoomPinned(pools0: map<nat, Pool>, pools1: map<nat, Pool>, pools: map<nat, Pool>, i: nat, maxPad: nat)
    requires AllRoomAfter(pools0, pools1, i, false, maxPad) && SameBut(pools1, pools, i) && i in pools
    requires pools[i] == pools1[i].(isSealed := pools1[i].isSealed && pools1[i].size - pools1[i].offset < maxPad)
    ensures AllRoomAfter(pools0, pools, i, true, maxPad)
  {
    forall x, room | Live(pools0, x) && Live(pools, x)
      ensures RoomAfter(pools0, pools, x, room, i, true, maxPad)
    {
      assert Live(pools1, x);
      assert RoomAfter(pools0, pools1, x, room, i, false, maxPad);
    }
  }

  lemma PinnedKeeps(pools0: map<nat, Pool>, pools1: map<nat, Pool>, pools: map<nat, Pool>, q: Ptr)
    requires OthersKept(pools0, pools1, {q}) && OthersKept(pools1, pools, {})
    ensures OthersKept(pools0, pools, {q})
  {
    forall x | Live(pools0, x) && x != q
      ensures Untouched(pools0, pools, x)
    {
      assert Untouched(pools0, pools1, x) && Untouched(pools1, pools, x);
    }
  }

  // ----- What holds after any calls -----

  /** Live blocks are aligned, inside their pool, and apart from each other, headers included. */
  lemma LiveBlocks(m: Multi, q: Ptr, r: Ptr)
    requires Valid(m) && Live(m.pools, q) && Live(m.pools, r) && q != r
    ensures var p := m.pools[q.pool]; q.offset + p.blocks[q.offset] <= p.size == |p.data|
    ensures (POOL_HEADER + q.offset + HEADER) % ALIGNMENT == 0
    ensures q.pool == r.pool ==>
      var p := m.pools[q.pool]; q.offset + p.blocks[q.offset] <= r.offset || r.offset + p.blocks[r.offset] <= q.offset
  {
    var p := m.pools[q.pool];
    assert PoolOk(p) && BlockOk(p, q.offset);
    if q.pool == r.pool {
      assert Apart(p, q.offset, r.offset) && Apart(p, r.offset, q.offset);
    }
  }

  /** A sealed pool holds a live block. */
  lemma SealedHoldsBlock(m: Multi, i: nat) returns (o: nat)
    requires Valid(m) && i in m.pools && m.pools[i].isSealed
    ensures Live(m.pools, Ptr(i, o))
  {
    assert PoolOk(m.pools[i]);
    assert m.pools[i].blocks != map[];
    o :| o in m.pools[i].blocks;
  }

  ghost function Elements(list: seq<nat>): (r: set<nat>) {
    set i | i in list
  }

  lemma {:induction false} DistinctSize(list: seq<nat>)
    requires Distinct(list)
    ensures |Elements(list)| == |list|
  {
    if list != [] {
      DistinctPairs(list);
      var rest := list[1..];
      assert list == [list[0]] + rest;
      DistinctSize(rest);
      assert Elements(list) == {list[0]} + Elements(rest);
    }
  }

  /** The assertion in mpa_release holds exactly if no pool is sealed; so it does once all blocks are freed. */
  lemma ReleaseAssertion(m: Multi)
    requires Valid(m)
    ensures m.poolCount == m.unsealedCount <==> forall i :: i in m.pools ==> !m.pools[i].isSealed
    ensures (forall q :: !Live(m.pools, q)) ==> m.poolCount == m.unsealedCount
  {
    DistinctSize(m.unsealed);
    assert Elements(m.unsealed) <= m.pools.Keys;
    if m.poolCount == m.unsealedCount {
      SameSize(Elements(m.unsealed), m.pools.Keys);
    }
    if forall i :: i in m.pools ==> !m.pools[i].isSealed {
      assert Elements(m.unsealed) == m.pools.Keys;
    } else if forall q :: !Live(m.pools, q) {
      var i :| i in m.pools && m.pools[i].isSealed;
      var o := SealedHoldsBlock(m, i);
    }
  }

  /** From the start: a first block, in a new pool. */
  method FirstBlock() returns (m: Multi, q: Ptr)
    ensures Valid(m) && m.unsealed == [] && m.maxPad == RoundSize(100) == 112 && q == Ptr(0, 8) && Live(m.pools, q)
    ensures m.pools[0].isSealed && m.pools[0].offset == 24 && m.pools[0].size == 4064
  {
    m := Init(4096);
    m := SetSealMaxPad(m, 100, 1);
    m, q := Alloc(m, 8);
  }

  /** It is pinned, and a second one, x, which is not, follows it. */
  method TwoBlocks() returns (m: Multi, q: Ptr, x: Ptr)
    ensures Valid(m) && m.unsealed == [] && m.maxPad == RoundSize(100) == 112
    ensures q == Ptr(0, 8) && x == Ptr(0, 24) && Live(m.pools, q) && Live(m.pools, x) && CanGrow(m.pools, x, m.maxPad)
    ensures m.pools[0].blocks[24] == 16 && m.pools[0].offset == 40 && m.pools[0].size == 4064
  {
    var m1;
    m1, q := FirstBlock();
    m1 := Pin(m1, q);
    m, x := Alloc(m1, 8);
    assert Untouched(m1.pools, m.pools, q);
  }

  /** A block that was never pinned can be moved while it grows to the padding in force since its
      allocation, so the guarantee stated for mpa_set_seal_max_pad does not hold of all blocks: here
      its neighbour q is pinned once more, and another block is allocated behind it. */
  method NeighbourPinned() returns (m0: Multi, m1: Multi, m: Multi, x: Ptr, moved: Ptr)
    ensures Valid(m0) && Live(m0.pools, x) && CanGrow(m0.pools, x, m0.maxPad) && RoundSize(100) <= m0.maxPad
    ensures m1.maxPad == m0.maxPad && Live(m1.pools, x) && Untouched(m0.pools, m1.pools, x)
    ensures moved != x && !Live(m.pools, x) && BytesKept(m1, x, m, moved)
  {
    var q, y;
    m0, q, x := TwoBlocks();
    m1, y := PinAndAlloc(m0, q, x);
    m, moved := Realloc(m1, x, 100, false);
  }

  method PinAndAlloc(m0: Multi, q: Ptr, x: Ptr) returns (m: Multi, y: Ptr)
    requires Valid(m0) && m0.unsealed == [] && m0.maxPad == 112 && q == Ptr(0, 8) && x == Ptr(0, 24)
    requires Live(m0.pools, q) && Live(m0.pools, x)
    requires m0.pools[0].isSealed && m0.pools[0].blocks[24] == 16 && m0.pools[0].offset == 40
    requires m0.pools[0].size == 4064
    ensures Valid(m) && m.maxPad == 112 && Live(m.pools, x) && m.pools[0].blocks[24] == 16 && m.pools[0].offset == 56
    ensures y == Ptr(0, 40) && Untouched(m0.pools, m.pools, x)
  {
    var m1 := PinFirst(m0, q, x);
    m, y := Alloc(m1, 8);
    assert Untouched(m1.pools, m.pools, x);
  }

  /** Pinning the lower block opens the pool again. */
  method PinFirst(m0: Multi, q: Ptr, x: Ptr) returns (m: Multi)
    requires Valid(m0) && m0.unsealed == [] && m0.maxPad == 112 && q == Ptr(0, 8) && x == Ptr(0, 24)
    requires Live(m0.pools, q) && Live(m0.pools, x)
    requires m0.pools[0].isSealed && m0.pools[0].blocks[24] == 16 && m0.pools[0].offset == 40
    requires m0.pools[0].size == 4064
    ensures Valid(m) && m.maxPad == 112 && Live(m.pools, x) && m.unsealed == [0]
    ensures m.pools[0] == m0.pools[0].(isSealed := false) && Untouched(m0.pools, m.pools, x)
  {
    m := Pin(m0, q);
  }
}
