/** What the page-range index promises about the allocations it indexes:
    soundness always, completeness exactly while every page is sparse. */
module IndexInvariants {
  import opened Words
  import opened RangeIndex

  predicate SlotLive(allocs: Allocs, k: RangeKey, s: Slot) {
    var key := AllocKey(k.pid, s.base);
    && key in allocs
    && SlotFor(s.base, allocs[key]) == s
    && OnPage(s.base, s.size, k.page)
  }

  ghost predicate DistinctBases(b: Bucket) {
    forall i, j :: 0 <= i < j < RANGE_SLOTS && b[i].base != 0 ==> b[i].base != b[j].base
  }

  predicate Holds(b: Bucket, base: u64) {
    exists i :: 0 <= i < RANGE_SLOTS && b[i].base == base
  }

  /** Every occupied slot names a live allocation that covers the page, once. */
  ghost predicate Sound(allocs: Allocs, ranges: Ranges) {
    forall k :: k in ranges ==> SoundBucket(allocs, k, ranges[k])
  }

  ghost predicate SoundBucket(allocs: Allocs, k: RangeKey, b: Bucket) {
    DistinctBases(b) && forall i :: 0 <= i < RANGE_SLOTS && b[i].base != 0 ==> SlotLive(allocs, k, b[i])
  }

  ghost predicate Found(allocs: Allocs, ranges: Ranges, key: AllocKey, page: nat)
    requires key in allocs
  {
    OnPage(key.addr, allocs[key].size, page) ==>
      RangeKey(key.pid, page) in ranges && Holds(ranges[RangeKey(key.pid, page)], key.addr)
  }

  /** Every live allocation sits in the bucket of each of its first 64 pages. */
  ghost predicate Complete(allocs: Allocs, ranges: Ranges) {
    forall key, page: nat :: key in allocs ==> Found(allocs, ranges, key, page)
  }

  ghost function LiveOn(allocs: Allocs, k: RangeKey): set<u64> {
    set key | key in allocs && key.pid == k.pid && OnPage(key.addr, allocs[key].size, k.page) :: key.addr
  }

  /** No page is shared by more than four live allocations of one process. */
  ghost predicate Sparse(allocs: Allocs) {
    forall k: RangeKey :: |LiveOn(allocs, k)| <= RANGE_SLOTS
  }

  ghost predicate Addressed(allocs: Allocs) {
    forall key :: key in allocs ==> key.addr != 0
  }

  ghost function Bases(b: Bucket): set<u64> {
    set i | 0 <= i < RANGE_SLOTS && b[i].base != 0 :: b[i].base
  }

  ghost predicate Full(b: Bucket) {
    forall i :: 0 <= i < RANGE_SLOTS ==> b[i].base != 0
  }

  /** Pigeonhole on one bucket. */
  lemma BucketPigeonhole(b: Bucket)
    requires DistinctBases(b)
    ensures |Bases(b)| <= RANGE_SLOTS
    ensures Full(b) <==> |Bases(b)| == RANGE_SLOTS
  {
    BasesBefore(b, RANGE_SLOTS);
    assert FirstBases(b, RANGE_SLOTS) == Bases(b);
    assert Full(b) <==> b[0].base != 0 && b[1].base != 0 && b[2].base != 0 && b[3].base != 0;
  }

  ghost function FirstBases(b: Bucket, n: nat): set<u64>
    requires n <= RANGE_SLOTS
  {
    set i | 0 <= i < n && b[i].base != 0 :: b[i].base
  }

  function OccupiedCount(b: Bucket, n: nat): (c: nat)
    requires n <= RANGE_SLOTS
    ensures c <= n
    ensures c == n <==> forall i :: 0 <= i < n ==> b[i].base != 0
  {
    if n == 0 then 0 else OccupiedCount(b, n - 1) + if b[n - 1].base != 0 then 1 else 0
  }

  lemma {:induction false} BasesBefore(b: Bucket, n: nat)
    requires DistinctBases(b) && n <= RANGE_SLOTS
    ensures |FirstBases(b, n)| == OccupiedCount(b, n)
  {
    if n > 0 {
      BasesBefore(b, n - 1);
      var last := b[n - 1].base;
      if last != 0 {
        assert FirstBases(b, n) == FirstBases(b, n - 1) + {last};
        assert last !in FirstBases(b, n - 1);
      } else {
        assert FirstBases(b, n) == FirstBases(b, n - 1);
      }
    }
  }

  /** Storing a new base keeps bases distinct and displaces one only from a full bucket. */
  lemma StoreDisplacesOnlyWhenFull(b: Bucket, addr: u64, info: AllocInfo)
    requires addr != 0 && DistinctBases(b) && !Holds(b, addr)
    ensures DistinctBases(Stored(b, addr, info)) && Holds(Stored(b, addr, info), addr)
    ensures forall i :: 0 <= i < RANGE_SLOTS ==>
      Stored(b, addr, info)[i] == b[i] || Stored(b, addr, info)[i] == SlotFor(addr, info)
    ensures !Full(b) ==> Bases(Stored(b, addr, info)) == Bases(b) + {addr}
  {
    var t := Target(b, addr);
    var s := Stored(b, addr, info);
    assert s[t].base == addr;
    if !Full(b) {
      assert b[t].base == 0 by {
        var j :| 0 <= j < RANGE_SLOTS && b[j].base == 0;
        assert Usable(b[j], addr);
      }
      forall x | x in Bases(b) + {addr} ensures x in Bases(s) {
        if x == addr {
          assert s[t].base == x;
        } else {
          var i :| 0 <= i < RANGE_SLOTS && b[i].base == x;
          assert s[i].base == x;
        }
      }
      assert Bases(s) <= Bases(b) + {addr};
    }
  }

  /** In a sound, complete index the occupied bases of a page are its live allocations. */
  lemma BasesAreLive(allocs: Allocs, ranges: Ranges, k: RangeKey)
    requires Sound(allocs, ranges) && Complete(allocs, ranges) && Addressed(allocs)
    ensures Bases(BucketAt(ranges, k)) == LiveOn(allocs, k)
  {
    forall x | x in Bases(BucketAt(ranges, k)) ensures x in LiveOn(allocs, k) {
      var i :| 0 <= i < RANGE_SLOTS && BucketAt(ranges, k)[i].base == x && x != 0;
      assert SlotLive(allocs, k, ranges[k][i]);
      assert AllocKey(k.pid, x) in allocs;
    }
    forall x | x in LiveOn(allocs, k) ensures x in Bases(BucketAt(ranges, k)) {
      var key :| key in allocs && key.pid == k.pid && key.addr == x && OnPage(x, allocs[key].size, k.page);
      assert Found(allocs, ranges, key, k.page);
    }
  }

  lemma CompleteImpliesSparse(allocs: Allocs, ranges: Ranges)
    requires Sound(allocs, ranges) && Complete(allocs, ranges) && Addressed(allocs)
    ensures Sparse(allocs)
  {
    forall k: RangeKey ensures |LiveOn(allocs, k)| <= RANGE_SLOTS {
      BasesAreLive(allocs, ranges, k);
      BucketPigeonhole(BucketAt(ranges, k));
    }
  }

  ghost predicate Unheld(ranges: Ranges, key: AllocKey) {
    forall k :: k in ranges && k.pid == key.pid ==> !Holds(ranges[k], key.addr)
  }

  /** An allocation that is not live occupies no slot. */
  lemma DeadIsUnheld(allocs: Allocs, ranges: Ranges, key: AllocKey)
    requires Sound(allocs, ranges) && key !in allocs && key.addr != 0
    ensures Unheld(ranges, key)
  {
    forall k | k in ranges && k.pid == key.pid ensures !Holds(ranges[k], key.addr) {
      if i :| 0 <= i < RANGE_SLOTS && ranges[k][i].base == key.addr {
        assert SlotLive(allocs, k, ranges[k][i]);
      }
    }
  }

  lemma ClearedSlots(b: Bucket, addr: u64)
    requires addr != 0
    ensures !Holds(Cleared(b, addr), addr)
    ensures DistinctBases(b) ==> DistinctBases(Cleared(b, addr))
    ensures forall x :: x != addr && Holds(b, x) ==> Holds(Cleared(b, addr), x)
  {
    forall x | x != addr && Holds(b, x) ensures Holds(Cleared(b, addr), x) {
      var i :| 0 <= i < RANGE_SLOTS && b[i].base == x;
      assert Cleared(b, addr)[i].base == x;
    }
  }

  /** Dropping an allocation together with its index entries keeps both directions. */
  lemma RemovalKeepsIndex(allocs: Allocs, ranges: Ranges, key: AllocKey)
    requires Sound(allocs, ranges) && key in allocs && key.addr != 0
    ensures Sound(allocs - {key}, Unindexed(ranges, key, allocs[key]))
    ensures Complete(allocs, ranges) ==> Complete(allocs - {key}, Unindexed(ranges, key, allocs[key]))
  {
    var info := allocs[key];
    var allocs', ranges' := allocs - {key}, Unindexed(ranges, key, info);
    forall k | k in ranges' ensures SoundBucket(allocs', k, ranges'[k]) {
      assert SoundBucket(allocs, k, ranges[k]);
      ClearedSlots(ranges[k], key.addr);
      forall i | 0 <= i < RANGE_SLOTS && ranges'[k][i].base != 0
        ensures SlotLive(allocs', k, ranges'[k][i])
      {
        assert SlotLive(allocs, k, ranges[k][i]);
        assert AllocKey(k.pid, ranges[k][i].base) == key ==> k in Span(key, info);
      }
    }
    if Complete(allocs, ranges) {
      forall other, page: nat | other in allocs' ensures Found(allocs', ranges', other, page) {
        assert Found(allocs, ranges, other, page);
        var k := RangeKey(other.pid, page);
        if OnPage(other.addr, allocs[other].size, page) && k in Span(key, info) {
          ClearedSlots(ranges[k], key.addr);
        }
      }
    }
  }

  lemma InsertionKeepsSound(allocs: Allocs, ranges: Ranges, key: AllocKey, info: AllocInfo)
    requires Sound(allocs, ranges) && key !in allocs && key.addr != 0
    ensures Sound(allocs[key := info], Indexed(ranges, key, info))
  {
    DeadIsUnheld(allocs, ranges, key);
    var ranges' := Indexed(ranges, key, info);
    forall k | k in ranges' ensures SoundBucket(allocs[key := info], k, ranges'[k]) {
      InsertedBucketSound(allocs, k, BucketAt(ranges, k), key, info);
    }
  }

  lemma InsertedBucketSound(allocs: Allocs, k: RangeKey, b: Bucket, key: AllocKey, info: AllocInfo)
    requires SoundBucket(allocs, k, b) && key !in allocs && key.addr != 0
    requires k.pid == key.pid ==> !Holds(b, key.addr)
    ensures SoundBucket(allocs[key := info], k, if k in Span(key, info) then Stored(b, key.addr, info) else b)
  {
    var allocs' := allocs[key := info];
    var b' := if k in Span(key, info) then Stored(b, key.addr, info) else b;
    if k in Span(key, info) {
      StoreDisplacesOnlyWhenFull(b, key.addr, info);
    }
    forall i | 0 <= i < RANGE_SLOTS && b'[i].base != 0 ensures SlotLive(allocs', k, b'[i]) {
      assert b'[i] == b[i] ==> SlotLive(allocs, k, b[i]);
    }
  }

  lemma LiveOnAfterInsert(allocs: Allocs, key: AllocKey, info: AllocInfo, k: RangeKey)
    requires key !in allocs
    ensures LiveOn(allocs[key := info], k) ==
      LiveOn(allocs, k) + (if key.pid == k.pid && OnPage(key.addr, info.size, k.page) then {key.addr} else {})
    ensures key.pid == k.pid ==> key.addr !in LiveOn(allocs, k)
  {
    var allocs' := allocs[key := info];
    forall x | x in LiveOn(allocs, k) ensures x in LiveOn(allocs', k) {
      var o :| o in allocs && o.pid == k.pid && o.addr == x && OnPage(x, allocs[o].size, k.page);
      assert o in allocs';
    }
    if key.pid == k.pid && OnPage(key.addr, info.size, k.page) {
      assert key in allocs';
    }
    forall x | x in LiveOn(allocs', k) && x !in LiveOn(allocs, k) ensures x == key.addr {
      var o :| o in allocs' && o.pid == k.pid && o.addr == x && OnPage(x, allocs'[o].size, k.page);
      assert o == key;
    }
  }

  /** Indexing one more allocation keeps the index complete exactly when the pages stay sparse. */
  lemma InsertionCompleteIffSparse(allocs: Allocs, ranges: Ranges, key: AllocKey, info: AllocInfo)
    requires Sound(allocs, ranges) && Complete(allocs, ranges) && Addressed(allocs)
    requires key !in allocs && key.addr != 0
    ensures Complete(allocs[key := info], Indexed(ranges, key, info)) <==> Sparse(allocs[key := info])
  {
    var allocs', ranges' := allocs[key := info], Indexed(ranges, key, info);
    InsertionKeepsSound(allocs, ranges, key, info);
    if Complete(allocs', ranges') {
      CompleteImpliesSparse(allocs', ranges');
    }
    if Sparse(allocs') {
      DeadIsUnheld(allocs, ranges, key);
      forall other, page: nat | other in allocs' ensures Found(allocs', ranges', other, page) {
        var k := RangeKey(other.pid, page);
        if OnPage(other.addr, allocs'[other].size, page) {
          RoomOnPage(allocs, ranges, key, info, k);
          if other != key {
            assert Found(allocs, ranges, other, page);
            if k in Span(key, info) {
              assert other.addr in Bases(ranges[k]);
              assert other.addr in Bases(ranges'[k]);
            }
          } else {
            assert k in Span(key, info);
          }
        }
      }
    }
  }

  lemma RoomOnPage(allocs: Allocs, ranges: Ranges, key: AllocKey, info: AllocInfo, k: RangeKey)
    requires Sound(allocs, ranges) && Complete(allocs, ranges) && Addressed(allocs)
    requires key !in allocs && key.addr != 0 && Sparse(allocs[key := info]) && Unheld(ranges, key)
    ensures k in Span(key, info) ==>
      && Holds(Stored(BucketAt(ranges, k), key.addr, info), key.addr)
      && Bases(Stored(BucketAt(ranges, k), key.addr, info)) == Bases(BucketAt(ranges, k)) + {key.addr}
  {
    if k in Span(key, info) {
      var b := BucketAt(ranges, k);
      LiveOnAfterInsert(allocs, key, info, k);
      BasesAreLive(allocs, ranges, k);
      assert |LiveOn(allocs[key := info], k)| == |Bases(b)| + 1;
      BucketPigeonhole(b);
      StoreDisplacesOnlyWhenFull(b, key.addr, info);
    }
  }
}
