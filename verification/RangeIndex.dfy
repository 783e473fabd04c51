/** The page-range index over live allocations: buckets of four slots, keyed by
    process and page, each allocation entered in at most 64 pages. */
module RangeIndex {
  import opened Words

  const PAGE_SIZE: int := 4096
  const PAGE_SPAN_MAX: int := 64
  const RANGE_SLOTS: int := 4

  datatype AllocFamily = AllocUnknown | AllocMalloc | AllocNew | AllocNewArray
  datatype DeallocFamily = DeallocUnknown | DeallocFree | DeallocDelete | DeallocDeleteArray

  datatype AllocKey = AllocKey(pid: u32, addr: u64)
  datatype AllocInfo = AllocInfo(size: u64, stack: int, family: AllocFamily, dealloc: DeallocFamily)
  datatype RangeKey = RangeKey(pid: u32, page: nat)
  datatype Slot = Slot(base: u64, size: u64, stack: int, family: AllocFamily)

  const ZERO_SLOT: Slot := Slot(0, 0, 0, AllocUnknown)
  const CLEARED_SLOT: Slot := Slot(0, 0, -1, AllocUnknown)
  const ZERO_BUCKET: Bucket := [ZERO_SLOT, ZERO_SLOT, ZERO_SLOT, ZERO_SLOT]

  type Bucket = b: seq<Slot> | |b| == 4 witness [ZERO_SLOT, ZERO_SLOT, ZERO_SLOT, ZERO_SLOT]
  type Ranges = map<RangeKey, Bucket>
  type Allocs = map<AllocKey, AllocInfo>

  function SlotFor(addr: u64, info: AllocInfo): Slot {
    Slot(addr, info.size, info.stack, info.family)
  }

  /** Pages an allocation is entered in: none for a zero size, one when its last
      byte wraps past 2^64, and never more than 64. */
  function PageCount(addr: u64, size: u64): nat {
    if addr == 0 || size == 0 then 0
    else if addr + size > TWO64 then 1
    else Min(PAGE_SPAN_MAX, (addr + size - 1) / PAGE_SIZE - addr / PAGE_SIZE + 1)
  }

  predicate OnPage(addr: u64, size: u64, page: int) {
    addr / PAGE_SIZE <= page < addr / PAGE_SIZE + PageCount(addr, size)
  }

  predicate Usable(slot: Slot, addr: u64) {
    slot.base == addr || slot.base == 0
  }

  /** The slot a store writes: the first usable one, slot 0 when all are taken. */
  function Target(b: Bucket, addr: u64): (i: nat)
    ensures i < RANGE_SLOTS
    ensures forall j :: 0 <= j < i ==> !Usable(b[j], addr)
    ensures (exists j :: 0 <= j < RANGE_SLOTS && Usable(b[j], addr)) ==> Usable(b[i], addr)
  {
    if Usable(b[0], addr) then 0
    else if Usable(b[1], addr) then 1
    else if Usable(b[2], addr) then 2
    else if Usable(b[3], addr) then 3
    else 0
  }

  function Stored(b: Bucket, addr: u64, info: AllocInfo): Bucket {
    b[Target(b, addr) := SlotFor(addr, info)]
  }

  function Cleared(b: Bucket, addr: u64): Bucket {
    seq(RANGE_SLOTS, i requires 0 <= i < RANGE_SLOTS => if b[i].base == addr then CLEARED_SLOT else b[i])
  }

  method StoreRangeSlot(bucket: Bucket, addr: u64, info: AllocInfo) returns (b: Bucket)
    ensures b == Stored(bucket, addr, info)
  {
    b := bucket;
    var stored := false;
    for i := 0 to RANGE_SLOTS
      invariant !stored ==> b == bucket && forall j :: 0 <= j < i ==> !Usable(bucket[j], addr)
      invariant stored ==> b == Stored(bucket, addr, info) && Usable(bucket[Target(bucket, addr)], addr)
    {
      if !stored && (b[i].base == addr || b[i].base == 0) {
        b := b[i := SlotFor(addr, info)];
        stored := true;
      }
    }
    if !stored {
      b := b[0 := SlotFor(addr, info)];
    }
  }

  method ClearRangeSlot(bucket: Bucket, addr: u64) returns (b: Bucket)
    ensures b == Cleared(bucket, addr)
  {
    b := bucket;
    for i := 0 to RANGE_SLOTS
      invariant b[..i] == Cleared(bucket, addr)[..i]
      invariant b[i..] == bucket[i..]
    {
      assert b[i] == b[i..][0] == bucket[i..][0];
      var next: Bucket := if b[i].base == addr then b[i := CLEARED_SLOT] else b;
      assert next[..i + 1] == b[..i] + [next[i]];
      assert next[i + 1..] == b[i..][1..] == bucket[i..][1..];
      b := next;
    }
  }

  function PageKeys(pid: u32, first: nat, count: nat): set<RangeKey> {
    set page | first <= page < first + count :: RangeKey(pid, page)
  }

  function BucketAt(r: Ranges, k: RangeKey): Bucket {
    if k in r then r[k] else ZERO_BUCKET
  }

  function StoredPages(r: Ranges, pid: u32, first: nat, count: nat, addr: u64, info: AllocInfo): Ranges {
    map k | k in r.Keys + PageKeys(pid, first, count) ::
      if k in PageKeys(pid, first, count) then Stored(BucketAt(r, k), addr, info) else r[k]
  }

  function ClearedPages(r: Ranges, pid: u32, first: nat, count: nat, addr: u64): Ranges {
    map k | k in r :: if k in PageKeys(pid, first, count) then Cleared(r[k], addr) else r[k]
  }

  /** The buckets an allocation is entered in. */
  function Span(key: AllocKey, info: AllocInfo): (s: set<RangeKey>)
    ensures forall k :: k in s <==> k.pid == key.pid && OnPage(key.addr, info.size, k.page)
  {
    PageKeys(key.pid, key.addr / PAGE_SIZE, PageCount(key.addr, info.size))
  }

  /** Every page of the allocation gets its slot; no other bucket changes. */
  function Indexed(r: Ranges, key: AllocKey, info: AllocInfo): Ranges {
    StoredPages(r, key.pid, key.addr / PAGE_SIZE, PageCount(key.addr, info.size), key.addr, info)
  }

  function Unindexed(r: Ranges, key: AllocKey, info: AllocInfo): Ranges {
    ClearedPages(r, key.pid, key.addr / PAGE_SIZE, PageCount(key.addr, info.size), key.addr)
  }

  /** The page walk shared by indexing and removal, in wrapping 64-bit arithmetic. */
  method PageSpan(addr: u64, size: u64) returns (first: u64, count: nat)
    requires size != 0 && addr != 0
    ensures first == addr / PAGE_SIZE && count == PageCount(addr, size) <= PAGE_SPAN_MAX
    ensures first + count <= TWO64 / PAGE_SIZE
  {
    first := addr / PAGE_SIZE;
    var lastByte := Wrap64(addr + size - 1);
    if lastByte < addr {
      lastByte := addr;
    }
    var lastPage := lastByte / PAGE_SIZE;
    count := Wrap64(lastPage - first + 1);
    if count > PAGE_SPAN_MAX {
      count := PAGE_SPAN_MAX;
    }
  }

  method IndexAllocationRange(ranges: Ranges, key: AllocKey, info: AllocInfo) returns (r: Ranges)
    ensures r == Indexed(ranges, key, info)
  {
    r := ranges;
    if key.addr == 0 || info.size == 0 {
      return;
    }
    var first, count := PageSpan(key.addr, info.size);
    for i := 0 to count
      invariant r == StoredPages(ranges, key.pid, first, i, key.addr, info)
    {
      var k := RangeKey(key.pid, first + i);
      var bucket: Bucket := if k in r then r[k] else ZERO_BUCKET;
      assert bucket == BucketAt(ranges, k);
      var stored := StoreRangeSlot(bucket, key.addr, info);
      r := r[k := stored];
      assert PageKeys(key.pid, first, i + 1) == PageKeys(key.pid, first, i) + {k};
    }
  }

  method RemoveAllocationRange(ranges: Ranges, key: AllocKey, info: AllocInfo) returns (r: Ranges)
    ensures r == Unindexed(ranges, key, info)
  {
    r := ranges;
    if key.addr == 0 || info.size == 0 {
      return;
    }
    var first, count := PageSpan(key.addr, info.size);
    for i := 0 to count
      invariant r == ClearedPages(ranges, key.pid, first, i, key.addr)
    {
      var k := RangeKey(key.pid, first + i);
      assert PageKeys(key.pid, first, i + 1) == PageKeys(key.pid, first, i) + {k};
      if k in r {
        var cleared := ClearRangeSlot(r[k], key.addr);
        r := r[k := cleared];
      }
    }
  }
}
