/** The staging buffer pool: best-fit reuse, allocation only when nothing fits, and the handles that
    give buffers back.  Addresses are numbers, 0 is the null pointer, and sizes are 64-bit. */
module Pool {
  import opened Common

  const LARGE := 0x1000_0000

  type Word = x: int | 0 <= x < U64

  datatype Buffer = Buffer(data: nat, capacity: Word, used: Word)

  const EMPTY := Buffer(0, 0, 0)

  // ---------------------------------------------------------------- sizes

  predicate Multiple(x: nat, a: nat)
    requires a > 0
  {
    x == 0 || (x >= a && Multiple(x - a, a))
  }

  /** The divisors of 2^64 are the powers of two. */
  predicate IsAlignment(a: nat) {
    0 < a < U64 && Multiple(U64, a)
  }

  /** Clearing the low bits: the largest multiple up to x. */
  function RoundDown(x: nat, a: nat): (m: nat)
    requires a > 0
    ensures x < m + a && m <= x && Multiple(m, a)
  {
    if x < a then 0 else RoundDown(x - a, a) + a
  }

  /** Bitwise and, bit by bit from the lowest. */
  function And(x: nat, y: nat): nat
    decreases x
  {
    if x == 0 then 0 else 2 * And(x / 2, y / 2) + Both(x, y)
  }

  /** The lowest bit of both. */
  function Both(x: nat, y: nat): nat {
    if x % 2 == 1 && y % 2 == 1 then 1 else 0
  }

  lemma {:induction false} Pow2Mono(j: nat, k: nat)
    requires j <= k
    ensures Pow2(j) <= Pow2(k) && Multiple(Pow2(k), Pow2(j))
    decreases k
  {
    if j == k {
      assert Multiple(0, Pow2(j));
    } else {
      Pow2Mono(j, k - 1);
      MultipleSum(Pow2(k - 1), Pow2(k - 1), Pow2(j));
    }
  }

  lemma {:induction false} MultipleSum(x: nat, y: nat, a: nat)
    requires a > 0 && Multiple(x, a) && Multiple(y, a)
    ensures Multiple(x + y, a)
    decreases x
  {
    if x > 0 { MultipleSum(x - a, y, a); }
  }

  lemma {:induction false} MultipleTwice(x: nat, a: nat)
    requires a > 0 && Multiple(x, a)
    ensures Multiple(2 * x, 2 * a)
  {
    if x > 0 { MultipleTwice(x - a, a); }
  }

  lemma RoundDownUnique(x: nat, a: nat, m: nat)
    requires a > 0 && Multiple(m, a) && m <= x < m + a
    ensures RoundDown(x, a) == m
  {
    var d := RoundDown(x, a);
    if d < m { Apart(d, m, a); } else if m < d { Apart(m, d, a); }
  }

  lemma OddHalf(m: nat)
    requires m >= 1
    ensures (2 * m - 1) / 2 == m - 1 && (2 * m - 1) % 2 == 1
  {
  }

  lemma {:induction false} MaskAll(x: nat, n: nat)
    requires x < Pow2(n)
    ensures And(x, Pow2(n) - 1) == x
    decreases n
  {
    if x > 0 {
      var m := Pow2(n - 1);
      OddHalf(m);
      MaskAll(x / 2, n - 1);
      assert And(x, 2 * m - 1) == 2 * And(x / 2, m - 1) + Both(x, 2 * m - 1);
    }
  }

  lemma {:induction false} AllMultiples(x: nat)
    ensures Multiple(x, 1)
  {
    if x > 0 { AllMultiples(x - 1); }
  }

  lemma {:induction false} MaskEven(x: nat, y: nat)
    ensures And(x, 2 * y) == 2 * And(x / 2, y)
  {
    var z := 2 * y;
    assert z / 2 == y && z % 2 == 0;
    assert x > 0 ==> And(x, z) == 2 * And(x / 2, z / 2) + Both(x, z);
  }

  lemma RoundDownTwice(x: nat, a: nat)
    requires a > 0
    ensures RoundDown(x, 2 * a) == 2 * RoundDown(x / 2, a)
  {
    var half := RoundDown(x / 2, a);
    MultipleTwice(half, a);
    RoundDownUnique(x, 2 * a, 2 * half);
  }

  /** Clearing the low `k` of `n` bits with a mask is rounding down to a multiple of 2^k. */
  lemma {:induction false} MaskIsRoundDown(x: nat, n: nat, k: nat)
    requires k <= n && x < Pow2(n)
    ensures Pow2(k) <= Pow2(n) && And(x, Pow2(n) - Pow2(k)) == RoundDown(x, Pow2(k))
    decreases n
  {
    Pow2Mono(k, n);
    if k == 0 {
      MaskAll(x, n);
      AllMultiples(x);
      RoundDownUnique(x, 1, x);
    } else {
      MaskIsRoundDown(x / 2, n - 1, k - 1);
      MaskEven(x, Pow2(n - 1) - Pow2(k - 1));
      RoundDownTwice(x, Pow2(k - 1));
    }
  }

  lemma Pow2Byte(k: nat)
    ensures Pow2(k + 8) == 256 * Pow2(k)
  {
    assert Pow2(k + 2) == 2 * Pow2(k + 1) && Pow2(k + 4) == 2 * Pow2(k + 3);
    assert Pow2(k + 6) == 2 * Pow2(k + 5) && Pow2(k + 8) == 2 * Pow2(k + 7);
  }

  lemma Pow2Of64()
    ensures Pow2(64) == U64
  {
    Pow2Byte(0);
    Pow2Byte(8);
    Pow2Byte(16);
    Pow2Byte(24);
    Pow2Byte(32);
    Pow2Byte(40);
    Pow2Byte(48);
    Pow2Byte(56);
  }

  /** `align_up` as the source writes it: add, then mask with the complement of `a - 1`, all in 64 bits,
      for an alignment that is a power of two. */
  lemma AlignUpIsMask(n: Word, k: nat)
    requires k < 64
    ensures IsAlignment(Pow2(k)) && AlignUp(n, Pow2(k)) == And((n + Pow2(k) - 1) % U64, U64 - 1 - (Pow2(k) - 1))
  {
    Pow2Of64();
    Pow2Mono(k, 64);
    Pow2Mono(k, 63);
    MaskIsRoundDown((n + Pow2(k) - 1) % U64, 64, k);
  }

  function AlignUp(n: Word, a: nat): (m: Word)
    requires IsAlignment(a)
    ensures Multiple(m, a)
  {
    RoundDown((n + a - 1) % U64, a)
  }

  /** Rounding up loses the request exactly when the sum leaves 64 bits; otherwise it is the least
      multiple that covers it. */
  lemma AlignIff(n: Word, a: nat)
    requires IsAlignment(a)
    ensures AlignUp(n, a) >= n <==> n + a - 1 < U64
    ensures n + a - 1 < U64 ==> AlignUp(n, a) < n + a
    ensures n + a - 1 >= U64 ==> AlignUp(n, a) == 0
  {
  }

  lemma {:induction false} Apart(x: nat, y: nat, a: nat)
    requires a > 0 && Multiple(x, a) && Multiple(y, a) && x < y
    ensures x + a <= y
  {
    if x > 0 {
      Apart(x - a, y - a, a);
    }
  }

  /** What a new buffer is given: a quarter more, unless it is over 256 MiB. */
  function Capacity(need: Word, a: nat): Word
    requires IsAlignment(a)
  {
    AlignUp(if need <= LARGE then need + need / 4 else need, a)
  }

  /** Up to 256 MiB a quarter more than asked, rounded up to the alignment; beyond that exactly what is
      asked. */
  lemma CapacityCovers(need: Word, a: nat)
    requires IsAlignment(a) && Multiple(need, a)
    ensures need <= Capacity(need, a) && Multiple(Capacity(need, a), a)
    ensures need <= 268435456 ==> need + need / 4 <= Capacity(need, a) < need + need / 4 + a
    ensures need > 268435456 ==> Capacity(need, a) == need
  {
    Apart(need, U64, a);
    Apart(a, U64, a);
    AlignIff(if need <= LARGE then need + need / 4 else need, a);
    if need > LARGE { RoundDownUnique((need + a - 1) % U64, a, need); }
  }

  // ---------------------------------------------------------------- the pool

  datatype Store = Store(pool: seq<Buffer>, total: Word)

  predicate Fits(pool: seq<Buffer>, need: nat, i: int)
    requires 0 <= i < |pool|
  {
    pool[i].capacity >= need
  }

  /** The buffer the search has chosen after the first n. */
  function Best(pool: seq<Buffer>, need: nat, n: nat): (best: int)
    requires n <= |pool|
    ensures -1 <= best < n
    ensures best < 0 <==> forall i :: 0 <= i < n ==> !Fits(pool, need, i)
    ensures best >= 0 ==> Fits(pool, need, best)
    ensures best >= 0 ==> forall i :: 0 <= i < n && Fits(pool, need, i) ==> pool[best].capacity <= pool[i].capacity
    ensures best >= 0 ==> forall i :: 0 <= i < best && Fits(pool, need, i) ==> pool[best].capacity < pool[i].capacity
  {
    if n == 0 then -1
    else
      var best := Best(pool, need, n - 1);
      if Fits(pool, need, n - 1) && (best < 0 || pool[n - 1].capacity < pool[best].capacity) then n - 1 else best
  }

  function Remove(pool: seq<Buffer>, k: nat): seq<Buffer>
    requires k < |pool|
  {
    pool[..k] + pool[k + 1..]
  }

  /** A search for `need` bytes.  `ptr` is what the system allocator answers if it is asked for `cap`
      bytes; 0 is a failure. */
  function Take(s: Store, need: Word, cap: Word, ptr: nat): (Store, Option<Buffer>) {
    var best := Best(s.pool, need, |s.pool|);
    if best >= 0 then (s.(pool := Remove(s.pool, best)), Some(s.pool[best].(used := need)))
    else if ptr == 0 then (s, None)
    else (s.(total := (s.total + cap) % U64), Some(Buffer(ptr, cap, need)))
  }

  /** Buffer `i` is large enough, none that is large enough is smaller, and none before it is as small. */
  predicate BestFit(pool: seq<Buffer>, need: nat, i: nat) {
    && i < |pool| && pool[i].capacity >= need
    && (forall j :: 0 <= j < |pool| && pool[j].capacity >= need ==> pool[i].capacity <= pool[j].capacity)
    && (forall j :: 0 <= j < i && pool[j].capacity >= need ==> pool[i].capacity < pool[j].capacity)
  }

  predicate SomeFit(pool: seq<Buffer>, need: nat) {
    exists j :: 0 <= j < |pool| && pool[j].capacity >= need
  }

  predicate HandsOut(before: Store, need: Word, i: nat, after: Store, r: Option<Buffer>)
    requires i < |before.pool|
  {
    && r == Some(Buffer(before.pool[i].data, before.pool[i].capacity, need))
    && after == Store(before.pool[..i] + before.pool[i + 1..], before.total)
  }

  /** The best fit leaves the pool with only `used` changed, and nothing is allocated.  Only if nothing fits is
      there a new buffer, counted with its capacity, or a failure that changes nothing. */
  ghost predicate Served(before: Store, need: Word, cap: Word, ptr: nat, after: Store, r: Option<Buffer>) {
    if SomeFit(before.pool, need) then
      exists i: nat :: BestFit(before.pool, need, i) && HandsOut(before, need, i, after, r)
    else if ptr == 0 then r == None && after == before
    else r == Some(Buffer(ptr, cap, need)) && after == Store(before.pool, (before.total + cap) % U64)
  }

  lemma TakeServes(s: Store, need: Word, cap: Word, ptr: nat)
    ensures var (t, r) := Take(s, need, cap, ptr); Served(s, need, cap, ptr, t, r)
  {
    var best := Best(s.pool, need, |s.pool|);
    if best >= 0 {
      assert Fits(s.pool, need, best);
      forall j | 0 <= j < |s.pool| && s.pool[j].capacity >= need
        ensures s.pool[best].capacity <= s.pool[j].capacity
        ensures j < best ==> s.pool[best].capacity < s.pool[j].capacity
      {
        assert Fits(s.pool, need, j);
      }
      assert BestFit(s.pool, need, best);
    } else {
      forall j | 0 <= j < |s.pool| ensures s.pool[j].capacity < need {
        assert !Fits(s.pool, need, j);
      }
    }
  }

  function Give(s: Store, buf: Buffer): Store {
    if buf.data == 0 then s else s.(pool := s.pool + [buf.(used := 0)])
  }

  function Trimmed(s: Store): Store {
    Store([], (s.total - Sum(Size(), s.pool)) % U64)
  }

  lemma MinusMod(x: int, y: int, c: int)
    requires x % U64 == y % U64
    ensures (x - c) % U64 == (y - c) % U64
  {
  }

  class MemoryPool {
    const alignment: nat
    var pool: seq<Buffer>
    var total: Word

    ghost function View(): Store
      reads this
    {
      Store(pool, total)
    }

    constructor (alignment: nat)
      ensures this.alignment == alignment && View() == Store([], 0)
    {
      this.alignment := alignment;
      pool := [];
      total := 0;
    }

    /** The search loop of `acquire`. */
    method Search(need: Word) returns (best: int)
      ensures best == Best(pool, need, |pool|)
    {
      best := -1;
      for i := 0 to |pool|
        invariant best == Best(pool, need, i)
      {
        if pool[i].capacity >= need {
          if best < 0 || pool[i].capacity < pool[best].capacity {
            best := i;
          }
        }
      }
    }

    /** How much is allocated for a request that nothing in the pool fits. */
    method NewSize(need: Word) returns (size: Word)
      requires IsAlignment(alignment)
      ensures size == Capacity(need, alignment)
    {
      size := need;
      if need <= LARGE {
        size := need + need / 4;
      }
      size := AlignUp(size, alignment);
    }

    method Acquire(nbytes: Word, ptr: nat) returns (r: Option<Buffer>)
      requires IsAlignment(alignment)
      modifies this
      ensures var need := AlignUp(nbytes, alignment);
              && (View(), r) == Take(old(View()), need, Capacity(need, alignment), ptr)
              && Served(old(View()), need, Capacity(need, alignment), ptr, View(), r)
    {
      var need := AlignUp(nbytes, alignment);
      TakeServes(View(), need, Capacity(need, alignment), ptr);
      var best := Search(need);
      if best >= 0 {
        var buf := pool[best].(used := need);
        pool := pool[..best] + pool[best + 1..];
        return Some(buf);
      }
      var size := NewSize(need);
      if ptr == 0 {
        return None;
      }
      total := (total + size) % U64;
      return Some(Buffer(ptr, size, need));
    }

    method Release(buf: Buffer)
      modifies this
      ensures View() == Give(old(View()), buf) && total == old(total)
      ensures pool == if buf.data == 0 then old(pool) else old(pool) + [Buffer(buf.data, buf.capacity, 0)]
    {
      if buf.data == 0 {
        return;
      }
      pool := pool + [buf.(used := 0)];
    }

    method Trim()
      modifies this
      ensures View() == Trimmed(old(View()))
      ensures pool == [] && total == (old(total) - Sum((b: Buffer) => b.capacity, old(pool))) % U64
    {
      for i := 0 to |pool|
        invariant pool == old(pool)
        invariant total == (old(total) - Sum(Size(), pool[..i])) % U64
      {
        assert pool[..i + 1] == pool[..i] + [pool[i]];
        SumAppend(Size(), pool[..i], pool[i]);
        MinusMod(total, old(total) - Sum(Size(), pool[..i]), pool[i].capacity);
        total := (total - pool[i].capacity) % U64;
      }
      assert pool[..|pool|] == pool;
      pool := [];
    }
  }

  /** A handle: gives its buffer back when destroyed or assigned over. */
  class PooledBuffer {
    var pool: MemoryPool?
    var buf: Buffer

    constructor (pool: MemoryPool, buf: Buffer)
      ensures this.pool == pool && this.buf == buf
    {
      this.pool := pool;
      this.buf := buf;
    }

    method Destroy()
      modifies this, pool
      ensures pool == null && buf == EMPTY
      ensures old(pool) != null ==> old(pool).View() == Give(old(pool.View()), old(buf))
    {
      if pool != null && buf.data != 0 {
        pool.Release(buf);
      }
      pool, buf := null, EMPTY;
    }

    /** Assigning a handle to itself changes nothing. */
    method MoveFrom(other: PooledBuffer)
      modifies this, other, pool
      ensures other == this ==> pool == old(pool) && buf == old(buf)
      ensures other == this && pool != null ==> pool.View() == old(pool.View())
      ensures other != this ==> pool == old(other.pool) && buf == old(other.buf)
      ensures other != this ==> other.pool == null && other.buf == EMPTY
      ensures other != this && old(pool) != null ==> old(pool).View() == Give(old(pool.View()), old(buf))
    {
      if this != other {
        if pool != null && buf.data != 0 {
          pool.Release(buf);
        }
        pool, buf := other.pool, other.buf;
        other.pool, other.buf := null, EMPTY;
      }
    }
  }

  // ---------------------------------------------------------------- sums over buffers

  function Sum(f: Buffer -> nat, s: seq<Buffer>): nat {
    if s == [] then 0 else f(s[0]) + Sum(f, s[1..])
  }

  lemma {:induction false} SumConcat(f: Buffer -> nat, a: seq<Buffer>, b: seq<Buffer>)
    ensures Sum(f, a + b) == Sum(f, a) + Sum(f, b)
    decreases |a|
  {
    if a == [] {
      assert a + b == b;
    } else {
      assert (a + b)[1..] == a[1..] + b;
      SumConcat(f, a[1..], b);
    }
  }

  lemma SumAppend(f: Buffer -> nat, s: seq<Buffer>, b: Buffer)
    ensures Sum(f, s + [b]) == Sum(f, s) + f(b)
  {
    SumConcat(f, s, [b]);
  }

  lemma SumOne(f: Buffer -> nat, b: Buffer)
    ensures Sum(f, [b]) == f(b)
  {
    assert [b][1..] == [];
  }

  lemma SumRemove(f: Buffer -> nat, s: seq<Buffer>, k: nat)
    requires k < |s|
    ensures Sum(f, Remove(s, k)) + f(s[k]) == Sum(f, s)
  {
    var a, b := s[..k], s[k + 1..];
    SumConcat(f, a, b);
    SumConcat(f, a, [s[k]] + b);
    assert s == a + ([s[k]] + b) && ([s[k]] + b)[1..] == b;
  }

  lemma SumUpdate(f: Buffer -> nat, s: seq<Buffer>, k: nat, b: Buffer)
    requires k < |s|
    ensures Sum(f, s[k := b]) + f(s[k]) == Sum(f, s) + f(b)
  {
    SumRemove(f, s, k);
    SumRemove(f, s[k := b], k);
    assert Remove(s[k := b], k) == Remove(s, k);
  }

  function Size(): Buffer -> nat {
    (b: Buffer) => b.capacity
  }

  function At(p: nat): Buffer -> nat {
    (b: Buffer) => if b.data == p && p != 0 then 1 else 0
  }

  function Real(): Buffer -> nat {
    (b: Buffer) => if b.data != 0 then 1 else 0
  }

  // ---------------------------------------------------------------- runs

  /** The pool together with every handle. */
  datatype World = World(store: Store, held: seq<Buffer>)

  datatype Op =
    | Create(need: Word, cap: Word, ptr: nat)
    | Destroy(h: nat)
    | MoveAssign(to: nat, src: nat)
    | MoveNew(src: nat)
    | Trim

  const FRESH := World(Store([], 0), [])

  /** How much of a quantity the pool and the handles hold between them. */
  function Weight(f: Buffer -> nat, w: World): nat {
    Sum(f, w.store.pool) + Sum(f, w.held)
  }

  /** The request the pool makes of the system for a caller's `nbytes`. */
  function Request(nbytes: Word, a: nat, ptr: nat): Op
    requires IsAlignment(a)
  {
    Create(AlignUp(nbytes, a), Capacity(AlignUp(nbytes, a), a), ptr)
  }

  lemma RequestAllowed(w: World, nbytes: Word, a: nat, ptr: nat)
    requires IsAlignment(a) && Weight(At(ptr), w) == 0
    ensures Allowed(w, Request(nbytes, a, ptr))
  {
    CapacityCovers(AlignUp(nbytes, a), a);
  }

  /** Handles exist, what is allocated covers the request, and the system allocator does not answer with
      an address that is in use. */
  predicate Allowed(w: World, op: Op) {
    match op
    case Create(need, cap, ptr) => need <= cap && Weight(At(ptr), w) == 0
    case Destroy(h) => h < |w.held|
    case MoveAssign(to, src) => to < |w.held| && src < |w.held|
    case MoveNew(src) => src < |w.held|
    case Trim => true
  }

  function Do(w: World, op: Op): World
    requires Allowed(w, op)
  {
    match op
    case Create(need, cap, ptr) =>
      var (s, r) := Take(w.store, need, cap, ptr);
      if r.Some? then World(s, w.held + [r.value]) else w
    case Destroy(h) => World(Give(w.store, w.held[h]), w.held[h := EMPTY])
    case MoveAssign(to, src) =>
      if to == src then w else World(Give(w.store, w.held[to]), w.held[to := w.held[src]][src := EMPTY])
    case MoveNew(src) => w.(held := w.held[src := EMPTY] + [w.held[src]])
    case Trim => w.(store := Trimmed(w.store))
  }

  /** Moves and destruction, handle by handle: a handle that is destroyed or moved from is empty, one that is
      assigned to has the other's buffer, and the buffer it had goes to the end of the pool; assigning a handle
      to itself does nothing. */
  lemma HandlesAfter(w: World, op: Op)
    requires Allowed(w, op) && !op.Create? && !op.Trim?
    ensures var r := Do(w, op);
            match op
            case Destroy(h) => r.held == w.held[h := EMPTY] && r.store.pool == w.store.pool + Returned(w.held[h])
            case MoveAssign(to, src) =>
              if to == src then r == w
              else |r.held| == |w.held| && r.held[to] == w.held[src] && r.held[src] == EMPTY
                   && (forall h :: 0 <= h < |w.held| && h != to && h != src ==> r.held[h] == w.held[h])
                   && r.store.pool == w.store.pool + Returned(w.held[to])
            case MoveNew(src) => r.held == w.held[src := EMPTY] + [w.held[src]] && r.store == w.store
    ensures Do(w, op).store.total == w.store.total
  {
    assert w.store.pool + [] == w.store.pool;
  }

  function Returned(b: Buffer): seq<Buffer> {
    if b.data == 0 then [] else [Buffer(b.data, b.capacity, 0)]
  }

  /** What an operation takes from the system, and what it gives back. */
  function Gained(w: World, op: Op): seq<Buffer>
    requires Allowed(w, op)
  {
    if op.Create? && op.ptr != 0 && Best(w.store.pool, op.need, |w.store.pool|) < 0
    then [Take(w.store, op.need, op.cap, op.ptr).1.value] else []
  }

  function Lost(w: World, op: Op): seq<Buffer> {
    if op.Trim? then w.store.pool else []
  }

  /** A quantity that a handle without a buffer has none of and that ignores how much is in use. */
  ghost predicate Steady(f: Buffer -> nat) {
    f(EMPTY) == 0 && forall b: Buffer, u: Word :: f(b.(used := u)) == f(b)
  }

  /** Pooled buffers are real, and so is what a handle holds unless it holds nothing; all of them have
      at least `need` bytes. */
  ghost predicate Roomy(pool: seq<Buffer>, held: seq<Buffer>, need: Word) {
    && (forall b :: b in pool ==> b.data != 0 && b.capacity >= need)
    && (forall b :: b in held ==> b == EMPTY || (b.data != 0 && b.capacity >= need))
  }

  lemma UpdateMembers(s: seq<Buffer>, k: nat, b: Buffer, x: Buffer)
    requires k < |s| && x in s[k := b]
    ensures x == b || x in s
  {
    var i :| 0 <= i < |s| && s[k := b][i] == x;
    assert i != k ==> s[i] == x;
  }

  lemma HeldUpdate(pool: seq<Buffer>, held: seq<Buffer>, need: Word, k: nat, b: Buffer)
    requires Roomy(pool, held, need) && k < |held| && (b == EMPTY || b in held)
    ensures Roomy(pool, held[k := b], need)
  {
    forall x | x in held[k := b]
      ensures x == EMPTY || (x.data != 0 && x.capacity >= need)
    {
      UpdateMembers(held, k, b, x);
    }
  }

  lemma RoomyGive(s: Store, held: seq<Buffer>, need: Word, b: Buffer)
    requires Roomy(s.pool, held, need) && b in held
    ensures Roomy(Give(s, b).pool, held, need)
  {
  }

  lemma RoomyTake(s: Store, held: seq<Buffer>, need: Word, asked: Word, cap: Word, ptr: nat)
    requires Roomy(s.pool, held, need) && need <= asked <= cap
    ensures var (t, r) := Take(s, asked, cap, ptr);
            Roomy(t.pool, if r.Some? then held + [r.value] else held, need)
  {
    var best := Best(s.pool, asked, |s.pool|);
    if best >= 0 {
      assert s.pool[best] in s.pool;
    }
  }

  lemma RoomyStep(w: World, op: Op, need: Word)
    requires Allowed(w, op) && Roomy(w.store.pool, w.held, need) && (op.Create? ==> op.need >= need)
    ensures Roomy(Do(w, op).store.pool, Do(w, op).held, need)
  {
    var pool, held := w.store.pool, w.held;
    match op
    case Create(asked, cap, ptr) => RoomyTake(w.store, held, need, asked, cap, ptr);
    case Destroy(h) => {
      RoomyGive(w.store, held, need, held[h]);
      HeldUpdate(Give(w.store, held[h]).pool, held, need, h, EMPTY);
    }
    case MoveAssign(to, src) => {
      RoomyGive(w.store, held, need, held[to]);
      HeldUpdate(Give(w.store, held[to]).pool, held, need, to, held[src]);
      HeldUpdate(Give(w.store, held[to]).pool, held[to := held[src]], need, src, EMPTY);
    }
    case MoveNew(src) => HeldUpdate(pool, held, need, src, EMPTY);
    case Trim => {
    }
  }

  ghost predicate Inv(w: World) {
    && Roomy(w.store.pool, w.held, 0)
    && (forall p: nat :: Weight(At(p), w) <= 1)
    && w.store.total == Weight(Size(), w) % U64
  }

  lemma GiveWeight(f: Buffer -> nat, s: Store, b: Buffer)
    requires Steady(f) && (b.data == 0 ==> b == EMPTY)
    ensures Sum(f, Give(s, b).pool) == Sum(f, s.pool) + f(b)
  {
    SumAppend(f, s.pool, b.(used := 0));
  }

  lemma CreateConserves(f: Buffer -> nat, w: World, need: Word, cap: Word, ptr: nat)
    requires Allowed(w, Create(need, cap, ptr)) && Steady(f)
    ensures Weight(f, Do(w, Create(need, cap, ptr))) == Weight(f, w) + Sum(f, Gained(w, Create(need, cap, ptr)))
  {
    var best := Best(w.store.pool, need, |w.store.pool|);
    if best >= 0 {
      SumRemove(f, w.store.pool, best);
      SumAppend(f, w.held, w.store.pool[best].(used := need));
    } else if ptr != 0 {
      SumAppend(f, w.held, Buffer(ptr, cap, need));
      SumOne(f, Buffer(ptr, cap, need));
    }
  }

  /** No operation loses or duplicates a buffer: of every quantity, what there is afterwards is what
      there was, plus what was allocated, minus what was freed. */
  lemma StepConserves(f: Buffer -> nat, w: World, op: Op)
    requires Allowed(w, op) && Steady(f) && Roomy(w.store.pool, w.held, 0)
    ensures Weight(f, Do(w, op)) + Sum(f, Lost(w, op)) == Weight(f, w) + Sum(f, Gained(w, op))
  {
    match op
    case Create(need, cap, ptr) => CreateConserves(f, w, need, cap, ptr);
    case Destroy(h) => {
      GiveWeight(f, w.store, w.held[h]);
      SumUpdate(f, w.held, h, EMPTY);
    }
    case MoveAssign(to, src) => {
      if to != src {
        GiveWeight(f, w.store, w.held[to]);
        SumUpdate(f, w.held, to, w.held[src]);
        SumUpdate(f, w.held[to := w.held[src]], src, EMPTY);
      }
    }
    case MoveNew(src) => {
      SumUpdate(f, w.held, src, EMPTY);
      SumAppend(f, w.held[src := EMPTY], w.held[src]);
    }
    case Trim => {
    }
  }

  lemma AllSteady(p: nat)
    ensures Steady(At(p)) && Steady(Size()) && Steady(Real())
  {
  }

  lemma Unwrapped(x: Word)
    ensures x % U64 == x
  {
  }

  lemma TotalOf(w: World, op: Op)
    requires Allowed(w, op)
    ensures Do(w, op).store.total == (w.store.total + Sum(Size(), Gained(w, op)) - Sum(Size(), Lost(w, op))) % U64
  {
    Unwrapped(w.store.total);
    match op
    case Create(need, cap, ptr) => SumOne(Size(), Buffer(ptr, cap, need));
    case Destroy(h) => assert Do(w, op).store.total == w.store.total;
    case MoveAssign(to, src) => assert Do(w, op).store.total == w.store.total;
    case MoveNew(src) => assert Do(w, op).store.total == w.store.total;
    case Trim => assert Gained(w, op) == [];
  }

  lemma Carry(total: Word, before: nat, after: nat, gained: nat, lost: nat)
    requires total == before % U64 && after + lost == before + gained
    ensures (total + gained - lost) % U64 == after % U64
  {
    MinusMod(total, before, lost - gained);
  }

  lemma TotalStep(w: World, op: Op)
    requires Allowed(w, op) && Inv(w)
    ensures Do(w, op).store.total == Weight(Size(), Do(w, op)) % U64
  {
    AllSteady(0);
    StepConserves(Size(), w, op);
    TotalOf(w, op);
    var gained, lost := Sum(Size(), Gained(w, op)), Sum(Size(), Lost(w, op));
    Carry(w.store.total, Weight(Size(), w), Weight(Size(), Do(w, op)), gained, lost);
  }

  lemma PlacesStep(w: World, op: Op, p: nat)
    requires Allowed(w, op) && Inv(w)
    ensures Weight(At(p), Do(w, op)) <= 1
  {
    AllSteady(p);
    StepConserves(At(p), w, op);
    assert Weight(At(p), w) <= 1;
  }

  lemma StepInv(w: World, op: Op)
    requires Allowed(w, op) && Inv(w)
    ensures Inv(Do(w, op))
  {
    RoomyStep(w, op, 0);
    TotalStep(w, op);
    forall p: nat
      ensures Weight(At(p), Do(w, op)) <= 1
    {
      PlacesStep(w, op, p);
    }
  }

  predicate Legal(w: World, ops: seq<Op>)
    decreases |ops|
  {
    ops == [] || (Allowed(w, ops[0]) && Legal(Do(w, ops[0]), ops[1..]))
  }

  function Exec(w: World, ops: seq<Op>): World
    requires Legal(w, ops)
    decreases |ops|
  {
    if ops == [] then w else Exec(Do(w, ops[0]), ops[1..])
  }

  /** Everything a run takes from the system, and everything it gives back. */
  function AllGained(w: World, ops: seq<Op>): seq<Buffer>
    requires Legal(w, ops)
    decreases |ops|
  {
    if ops == [] then [] else Gained(w, ops[0]) + AllGained(Do(w, ops[0]), ops[1..])
  }

  function AllLost(w: World, ops: seq<Op>): seq<Buffer>
    requires Legal(w, ops)
    decreases |ops|
  {
    if ops == [] then [] else Lost(w, ops[0]) + AllLost(Do(w, ops[0]), ops[1..])
  }

  lemma {:induction false} RunFrom(f: Buffer -> nat, w: World, ops: seq<Op>)
    requires Legal(w, ops) && Inv(w) && Steady(f)
    ensures Inv(Exec(w, ops))
    ensures Weight(f, Exec(w, ops)) + Sum(f, AllLost(w, ops)) == Weight(f, w) + Sum(f, AllGained(w, ops))
    decreases |ops|
  {
    if ops != [] {
      var next := Do(w, ops[0]);
      StepInv(w, ops[0]);
      StepConserves(f, w, ops[0]);
      RunFrom(f, next, ops[1..]);
      SumConcat(f, Lost(w, ops[0]), AllLost(next, ops[1..]));
      SumConcat(f, Gained(w, ops[0]), AllGained(next, ops[1..]));
    }
  }

  /** After every run: a buffer that was allocated and not freed is in the pool or with exactly one
      handle, nothing else is in either, and the counter is the capacity of them all. */
  lemma EveryRun(ops: seq<Op>, p: nat)
    requires Legal(FRESH, ops)
    ensures var w := Exec(FRESH, ops);
            && Weight(At(p), w) == Sum(At(p), AllGained(FRESH, ops)) - Sum(At(p), AllLost(FRESH, ops)) <= 1
            && w.store.total == Weight(Size(), w) % U64
            && Weight(Size(), w) == Sum(Size(), AllGained(FRESH, ops)) - Sum(Size(), AllLost(FRESH, ops))
  {
    assert Inv(FRESH);
    AllSteady(p);
    RunFrom(At(p), FRESH, ops);
    RunFrom(Size(), FRESH, ops);
  }

  // ---------------------------------------------------------------- same-size requests

  /** Requests of one size only, and nothing trimmed. */
  predicate Uniform(ops: seq<Op>, need: Word) {
    forall i :: 0 <= i < |ops| ==> !ops[i].Trim? && (ops[i].Create? ==> ops[i].need == need)
  }

  function Holding(w: World): nat {
    Sum(Real(), w.held)
  }

  /** The most handles that have a buffer at one time. */
  function Peak(w: World, ops: seq<Op>): nat
    requires Legal(w, ops)
    decreases |ops|
  {
    if ops == [] then Holding(w)
    else
      var later := Peak(Do(w, ops[0]), ops[1..]);
      if later >= Holding(w) then later else Holding(w)
  }

  /** With one request size, a buffer is allocated only when the pool is empty. */
  lemma UniformStep(w: World, op: Op, need: Word)
    requires Allowed(w, op) && Roomy(w.store.pool, w.held, need) && !op.Trim? && (op.Create? ==> op.need == need)
    ensures var next := Do(w, op);
            && Weight(Real(), next) == Weight(Real(), w) + |Gained(w, op)|
            && |Gained(w, op)| <= 1
            && (Gained(w, op) != [] ==> Holding(next) == Weight(Real(), next))
  {
    AllSteady(0);
    StepConserves(Real(), w, op);
    assert w.store.pool != [] ==> Fits(w.store.pool, need, 0);
  }

  lemma {:induction false} UniformRun(w: World, ops: seq<Op>, need: Word)
    requires Legal(w, ops) && Roomy(w.store.pool, w.held, need) && Uniform(ops, need)
    ensures var live, peak := Weight(Real(), w), Peak(w, ops);
            live + |AllGained(w, ops)| == if peak >= live then peak else live
    decreases |ops|
  {
    if ops != [] {
      var next := Do(w, ops[0]);
      RoomyStep(w, ops[0], need);
      UniformStep(w, ops[0], need);
      UniformRun(next, ops[1..], need);
      AtLeastNow(next, ops[1..]);
    }
  }

  lemma AtLeastNow(w: World, ops: seq<Op>)
    requires Legal(w, ops)
    ensures Peak(w, ops) >= Holding(w)
  {
  }

  /** Requests of one size never allocate more buffers than are ever in use together. */
  lemma AllocatesPeak(ops: seq<Op>, need: Word)
    requires Legal(FRESH, ops) && Uniform(ops, need)
    ensures |AllGained(FRESH, ops)| == Peak(FRESH, ops)
  {
    UniformRun(FRESH, ops, need);
  }
}
