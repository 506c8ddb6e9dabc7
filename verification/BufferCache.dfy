/** The block buffer cache of kernel/buffercache.c against a plain disk. */
module BufferCache {
  import opened Common
  import opened Ring

  const BUFFER_CACHE_SIZE := 64

  type Block = seq<int>
  datatype Key = Key(dev: int, blockno: int)

  // The disk as the cache should look to its users: a map from block to contents.
  type Disk = Key -> Block

  datatype Buffer = Buffer(dirty: bool, valid: bool, key: Key, refcnt: int, data: Block)

  function Zeroed(): Buffer { Buffer(false, false, Key(0, 0), 0, []) }

  // ---- what the cache keeps ----

  // Ahead of a valid buffer, in order of last use, nothing claims the same block.
  ghost predicate FirstClaim(m: seq<Buffer>, ring: seq<int>)
    requires Distinct(ring, |m|)
  {
    forall i, j | 0 <= i < j < |ring| && m[ring[j]].valid :: m[ring[i]].key != m[ring[j]].key
  }

  // A valid buffer without unwritten edits holds what the disk holds.
  ghost predicate Transparent(m: seq<Buffer>, disk: Disk, edited: set<int>) {
    forall b | 0 <= b < |m| && m[b].valid && b !in edited :: m[b].data == disk(m[b].key)
  }

  // refcnt counts the holders; a held buffer is valid, except one still being filled.
  ghost predicate Counted(m: seq<Buffer>, holders: seq<int>, filling: Option<int>) {
    && |holders| == |m|
    && forall b | 0 <= b < |m| ::
         && m[b].refcnt == holders[b] && 0 <= holders[b] && !m[b].dirty
         && (holders[b] > 0 ==> m[b].valid || filling == Some(b))
  }

  // No block is cached validly in two buffers.
  lemma ValidOnce(m: seq<Buffer>, ring: seq<int>, b: int, c: int)
    requires Distinct(ring, |m|) && FirstClaim(m, ring)
    requires b in ring && c in ring && m[b].valid && m[c].valid && m[b].key == m[c].key
    ensures b == c
  {
    var i :| 0 <= i < |ring| && ring[i] == b;
    var j :| 0 <= j < |ring| && ring[j] == c;
  }

  // The first buffer in order of use that claims a block may become valid for it.
  lemma FirstClaimValidate(m: seq<Buffer>, ring: seq<int>, k: int, x: Buffer)
    requires Distinct(ring, |m|) && FirstClaim(m, ring) && 0 <= k < |ring| && x.key == m[ring[k]].key
    requires forall i | 0 <= i < k :: m[ring[i]].key != x.key
    ensures FirstClaim(m[ring[k] := x], ring)
  {
  }

  // A buffer may be given a block that nobody claims.
  lemma FirstClaimRecycle(m: seq<Buffer>, ring: seq<int>, b: int, x: Buffer)
    requires Distinct(ring, |m|) && FirstClaim(m, ring) && b in ring
    requires forall i | 0 <= i < |ring| :: m[ring[i]].key != x.key
    ensures FirstClaim(m[b := x], ring)
  {
  }

  // A valid buffer may move to the front.
  lemma FirstClaimToFront(m: seq<Buffer>, ring: seq<int>, k: int)
    requires Distinct(ring, |m|) && FirstClaim(m, ring) && 0 <= k < |ring| && m[ring[k]].valid
    requires Distinct([ring[k]] + Without(ring, k), |m|)
    ensures FirstClaim(m, [ring[k]] + Without(ring, k))
  {
    var r := [ring[k]] + Without(ring, k);
    forall i, j | 0 <= i < j < |r| && m[r[j]].valid ensures m[r[i]].key != m[r[j]].key {
      var jj := if j - 1 < k then j - 1 else j;
      assert r[j] == ring[jj];
      if i == 0 {
        assert jj < k || k < jj;
      } else {
        var ii := if i - 1 < k then i - 1 else i;
        assert r[i] == ring[ii] && ii < jj;
      }
    }
  }

  // b is the first buffer, in order of last use, that claims block key.
  ghost predicate Claims(m: seq<Buffer>, ring: seq<int>, b: int, key: Key)
    requires Distinct(ring, |m|)
  {
    exists k | 0 <= k < |ring| :: ring[k] == b && m[b].key == key && forall i | 0 <= i < k :: m[ring[i]].key != key
  }

  ghost predicate Busy(m: seq<Buffer>, b: int) {
    0 <= b < |m| ==> m[b].refcnt != 0 || m[b].dirty
  }

  // b is the first buffer, from lru on along the next links, that nobody refers to and that is clean.
  ghost predicate FirstUnused(m: seq<Buffer>, ring: seq<int>, lru: int, b: int) {
    && !Busy(m, b)
    && exists s, i | 0 <= s < |ring| && 0 <= i < |ring| ::
         ring[s] == lru && Rotate(ring, s)[i] == b && forall j | 0 <= j < i :: Busy(m, Rotate(ring, s)[j])
  }

  ghost predicate AllBusy(m: seq<Buffer>, round: seq<int>, i: int) {
    i <= |round| && forall j | 0 <= j < i :: Busy(m, round[j])
  }

  lemma NoneBusy(m: seq<Buffer>, round: seq<int>)
    ensures AllBusy(m, round, 0)
  {
  }

  lemma OneMoreBusy(m: seq<Buffer>, round: seq<int>, i: int)
    requires 0 <= i < |round| && AllBusy(m, round, i) && Busy(m, round[i])
    ensures AllBusy(m, round, i + 1)
  {
  }

  lemma BusyMember(m: seq<Buffer>, round: seq<int>, b: int)
    requires AllBusy(m, round, |round|) && b in round
    ensures Busy(m, b)
  {
  }

  lemma FoundUnused(m: seq<Buffer>, ring: seq<int>, lru: int, s: int, i: int)
    requires 0 <= s < |ring| && 0 <= i < |ring| && ring[s] == lru && AllBusy(m, Rotate(ring, s), i)
    requires !Busy(m, Rotate(ring, s)[i])
    ensures FirstUnused(m, ring, lru, Rotate(ring, s)[i])
  {
    hide Rotate, Busy;
    var round := Rotate(ring, s);
    assert ring[s] == lru && round[i] == round[i] && forall j | 0 <= j < i :: Busy(m, round[j]);
  }

  ghost predicate Inv(m: seq<Buffer>, ring: seq<int>, disk: Disk, holders: seq<int>, edited: set<int>, filling: Option<int>) {
    && Distinct(ring, |m|) && FirstClaim(m, ring)
    && Transparent(m, disk, edited)
    && Counted(m, holders, filling)
    && forall b | b in edited :: 0 <= b < |m| && m[b].valid
  }

  lemma CountsOf(m: seq<Buffer>, ring: seq<int>, disk: Disk, holders: seq<int>, edited: set<int>, filling: Option<int>)
    requires Inv(m, ring, disk, holders, edited, filling)
    ensures |holders| == |m| && Distinct(ring, |m|)
    ensures forall b | 0 <= b < |m| :: m[b].refcnt == holders[b] && 0 <= holders[b] && !m[b].dirty
  {
  }

  lemma ClaimsKey(m: seq<Buffer>, ring: seq<int>, b: int, key: Key)
    requires Distinct(ring, |m|) && Claims(m, ring, b, key)
    ensures b in ring && m[b].key == key
  {
  }

  lemma CleanAt(m: seq<Buffer>, ring: seq<int>, disk: Disk, holders: seq<int>, edited: set<int>, b: int)
    requires Inv(m, ring, disk, holders, edited, None) && 0 <= b < |m| && m[b].valid && b !in edited
    ensures m[b].data == disk(m[b].key)
  {
  }

  // Another holder of the first claimer: it becomes the one being filled.
  lemma HitKeepsInv(m: seq<Buffer>, ring: seq<int>, disk: Disk, holders: seq<int>, edited: set<int>, b: int, key: Key)
    requires Inv(m, ring, disk, holders, edited, None) && 0 <= b < |m| && Claims(m, ring, b, key)
    ensures var m', h' := m[b := m[b].(refcnt := m[b].refcnt + 1)], holders[b := holders[b] + 1];
            Inv(m', ring, disk, h', edited, Some(b)) && Claims(m', ring, b, key)
  {
    var m' := m[b := m[b].(refcnt := m[b].refcnt + 1)];
    var k :| 0 <= k < |ring| && ring[k] == b && m[b].key == key && forall i | 0 <= i < k :: m[ring[i]].key != key;
    assert ring[k] == b && forall i | 0 <= i < k :: m'[ring[i]].key != key;
  }

  // A free buffer takes a block nobody claims; its edits are gone.
  lemma RecycleKeepsInv(m: seq<Buffer>, ring: seq<int>, disk: Disk, holders: seq<int>, edited: set<int>, b: int, key: Key)
    requires Inv(m, ring, disk, holders, edited, None) && 0 <= b < |m| && b in ring && m[b].refcnt == 0
    requires forall c | 0 <= c < |m| :: m[c].key != key
    ensures var m', h' := m[b := m[b].(key := key, valid := false, refcnt := 1)], holders[b := 1];
            Inv(m', ring, disk, h', edited - {b}, Some(b)) && Claims(m', ring, b, key)
  {
    var x := m[b].(key := key, valid := false, refcnt := 1);
    FirstClaimRecycle(m, ring, b, x);
    var k :| 0 <= k < |ring| && ring[k] == b;
    assert ring[k] == b && forall i | 0 <= i < k :: m[b := x][ring[i]].key != key;
  }

  // The buffer being filled is read from disk if it is not valid.
  lemma FillKeepsInv(m: seq<Buffer>, ring: seq<int>, disk: Disk, holders: seq<int>, edited: set<int>, b: int, key: Key)
    requires Inv(m, ring, disk, holders, edited, Some(b)) && 0 <= b < |m| && Claims(m, ring, b, key)
    ensures m[b].valid ==> Inv(m, ring, disk, holders, edited, None)
    ensures !m[b].valid ==> Inv(m[b := m[b].(data := disk(key), valid := true)], ring, disk, holders, edited, None)
  {
    if !m[b].valid {
      var k :| 0 <= k < |ring| && ring[k] == b && m[b].key == key && forall i | 0 <= i < k :: m[ring[i]].key != key;
      FirstClaimValidate(m, ring, k, m[b].(data := disk(key), valid := true));
    }
  }

  // A holder's write goes to the disk; by ValidOnce no other valid buffer has the block.
  lemma WriteKeepsInv(m: seq<Buffer>, ring: seq<int>, disk: Disk, disk': Disk, holders: seq<int>, edited: set<int>, b: int)
    requires Inv(m, ring, disk, holders, edited, None) && 0 <= b < |m| && holders[b] > 0
    requires forall c | 0 <= c < |m| :: c in ring
    requires disk'(m[b].key) == m[b].data && forall k | k != m[b].key :: disk'(k) == disk(k)
    ensures m[b].valid && Inv(m, ring, disk', holders, edited - {b}, None)
  {
    forall c | 0 <= c < |m| && m[c].valid && c !in edited - {b} ensures m[c].data == disk'(m[c].key) {
      if m[c].key == m[b].key { ValidOnce(m, ring, b, c); }
    }
  }

  lemma EditKeepsInv(m: seq<Buffer>, ring: seq<int>, disk: Disk, holders: seq<int>, edited: set<int>, b: int, data: Block)
    requires Inv(m, ring, disk, holders, edited, None) && 0 <= b < |m| && holders[b] > 0
    ensures Inv(m[b := m[b].(data := data)], ring, disk, holders, edited + {b}, None)
  {
  }

  lemma ReleaseKeepsInv(m: seq<Buffer>, ring: seq<int>, disk: Disk, holders: seq<int>, edited: set<int>, b: int)
    requires Inv(m, ring, disk, holders, edited, None) && 0 <= b < |m| && holders[b] > 0
    ensures m[b].valid
    ensures Inv(m[b := m[b].(refcnt := m[b].refcnt - 1)], ring, disk, holders[b := holders[b] - 1], edited, None)
  {
  }

  lemma ToFrontKeepsInv(m: seq<Buffer>, ring: seq<int>, disk: Disk, holders: seq<int>, edited: set<int>, k: int)
    requires Inv(m, ring, disk, holders, edited, None) && 0 <= k < |ring| && m[ring[k]].valid
    requires Distinct([ring[k]] + Without(ring, k), |m|)
    ensures Inv(m, [ring[k]] + Without(ring, k), disk, holders, edited, None)
  {
    FirstClaimToFront(m, ring, k);
  }

  // ---- buffer_get as written: a hit is not counted ----

  datatype Use = Hit | Release

  // A buffer's reference count after some uses, as the unsigned 32-bit field counts it.
  function CountAsWritten(refcnt: int, uses: seq<Use>): int
    decreases |uses|
  {
    if uses == [] then refcnt
    else CountAsWritten(if uses[0].Hit? then refcnt else (refcnt - 1) % 0x1_0000_0000, uses[1..])
  }

  function Holders(holders: int, uses: seq<Use>): int
    decreases |uses|
  {
    if uses == [] then holders else Holders(if uses[0].Hit? then holders + 1 else holders - 1, uses[1..])
  }

  function Hits(uses: seq<Use>): int {
    if uses == [] then 0 else (if uses[0].Hit? then 1 else 0) + Hits(uses[1..])
  }

  lemma {:induction false} CountAsWrittenIs(refcnt: int, holders: int, uses: seq<Use>)
    requires 0 <= refcnt < 0x1_0000_0000
    ensures CountAsWritten(refcnt, uses) == (refcnt + Holders(holders, uses) - holders - Hits(uses)) % 0x1_0000_0000
    decreases |uses|
  {
    if uses != [] {
      if uses[0].Hit? {
        CountAsWrittenIs(refcnt, holders + 1, uses[1..]);
      } else {
        CountAsWrittenIs((refcnt - 1) % 0x1_0000_0000, holders - 1, uses[1..]);
      }
    }
  }

  // After the miss that loaded it, a buffer still held can be recycled exactly when its
  // holders are as many as the hits since (up to wrap-around).
  lemma RecycledWhileHeld(uses: seq<Use>)
    requires Holders(1, uses) > 0
    ensures CountAsWritten(1, uses) == 0 <==> (Holders(1, uses) - Hits(uses)) % 0x1_0000_0000 == 0
    ensures CountAsWritten(1, [Hit, Release]) == 0 && Holders(1, [Hit, Release]) == 1
  {
    CountAsWrittenIs(1, 1, uses);
    assert [Hit, Release][1..] == [Release];
  }

  class Cache {
    const n: int
    const bufs: array<Buffer>
    const links: array<Link>
    var mru: int
    var lru: int
    var disk: Disk
    ghost var ring: seq<int>
    ghost var holders: seq<int>
    ghost var edited: set<int>

    ghost predicate Shaped()
      reads this, links
    {
      && n > 0 && bufs.Length == n && links.Length == n
      && IsRing(links[..], ring) && mru == ring[0] && 0 <= lru < n
      && (forall b | 0 <= b < n :: b in ring)
    }

    ghost predicate ValidBut(filling: Option<int>)
      reads this, bufs, links
    {
      && Shaped()
      && Inv(bufs[..], ring, disk, holders, edited, filling)
    }

    ghost predicate Valid()
      reads this, bufs, links
    {
      ValidBut(None)
    }

    // init_buffer_cache: the zeroed buffers in one ring, the last one first.
    constructor (d: Disk)
      ensures Valid() && n == 64 && disk == d && edited == {} && fresh(bufs) && fresh(links)
      ensures forall b | 0 <= b < n :: bufs[b] == Zeroed() && holders[b] == 0
    {
      n := BUFFER_CACHE_SIZE;
      bufs := new Buffer[BUFFER_CACHE_SIZE](_ => Zeroed());
      links := new Link[BUFFER_CACHE_SIZE](_ => Link(0, 0));
      mru, lru, disk := 0, 0, d;
      ring, holders, edited := [0], seq(BUFFER_CACHE_SIZE, _ => 0), {};
      new;
      assert LinkedAt(links[..], ring, 0);
      var b := 1;
      while b < BUFFER_CACHE_SIZE
        invariant 1 <= b <= n && |ring| == b && IsRing(links[..], ring) && mru == ring[0]
        invariant forall x :: x in ring <==> 0 <= x < b
        modifies links, this`ring, this`mru
      {
        PushToFront(b);
        b := b + 1;
      }
    }

    // sata_sync: write back if dirty, else fill from disk; either way the buffer becomes valid.
    method SataSync(b: int)
      requires bufs.Length == n && 0 <= b < n
      modifies bufs, this`disk
      ensures var x := old(bufs[b]);
              if x.dirty then
                && bufs[..] == old(bufs[..])[b := x.(dirty := false, valid := true)]
                && disk(x.key) == x.data && forall k | k != x.key :: disk(k) == old(disk)(k)
              else
                && bufs[..] == old(bufs[..])[b := x.(data := disk(x.key), valid := true)]
                && disk == old(disk)
    {
      var x := bufs[b];
      if x.dirty {
        var d := disk;
        disk := (k: Key) => if k == x.key then x.data else d(k);
        bufs[b] := x.(dirty := false, valid := true);
      } else {
        bufs[b] := x.(data := disk(x.key), valid := true);
      }
    }

    // The first buffer from the front that claims the block.
    method FindCached(key: Key) returns (r: Option<int>)
      requires Shaped()
      ensures r.Some? ==> 0 <= r.value < n && Claims(bufs[..], ring, r.value, key)
      ensures r.None? ==> forall c | 0 <= c < n :: bufs[c].key != key
    {
      var b := mru;
      ghost var i := 0;
      while true
        invariant 0 <= i < |ring| && b == ring[i]
        invariant forall j | 0 <= j < i :: bufs[ring[j]].key != key
        decreases |ring| - i
      {
        if bufs[b].key == key { return Some(b); }
        RingAt(links[..], ring, i);
        b := links[b].next;
        i := i + 1;
        if b == mru { break; }
      }
      forall c | 0 <= c < n ensures bufs[c].key != key {
        assert c in ring;
      }
      return None;
    }

    // The first buffer from lru on that nobody refers to and that is clean.
    method FindUnused() returns (r: Option<int>)
      requires Shaped()
      ensures r.Some? ==> 0 <= r.value < n && FirstUnused(bufs[..], ring, lru, r.value)
      ensures r.None? ==> forall c | 0 <= c < n :: bufs[c].refcnt != 0 || bufs[c].dirty
    {
      hide Rotate, IsRing, FirstUnused, AllBusy;
      assert lru in ring;
      ghost var s :| 0 <= s < |ring| && ring[s] == lru;
      ghost var round := Rotate(ring, s);
      RingAt(links[..], ring, s);
      RotateKeepsRing(links[..], ring, s);
      RotateDistinct(ring, s, n);
      NoneBusy(bufs[..], round);
      var b := lru;
      ghost var i := 0;
      while true
        invariant 0 <= i < |round| && b == round[i] && AllBusy(bufs[..], round, i)
        decreases |round| - i
      {
        if bufs[b].refcnt == 0 && !bufs[b].dirty {
          FoundUnused(bufs[..], ring, lru, s, i);
          return Some(b);
        }
        OneMoreBusy(bufs[..], round, i);
        RingAt(links[..], round, i);
        b := links[b].next;
        i := i + 1;
        if b == lru { break; }
      }
      forall c | 0 <= c < n ensures bufs[c].refcnt != 0 || bufs[c].dirty {
        assert c in ring && c in round;
        BusyMember(bufs[..], round, c);
      }
      return None;
    }

    // buffer_get, counting the reference on a hit as well.
    method BufferGet(key: Key) returns (r: Option<int>)
      requires Valid()
      modifies bufs, this`holders, this`edited
      ensures r.None? ==>
                && Valid() && bufs[..] == old(bufs[..]) && holders == old(holders) && edited == old(edited)
                && forall c | 0 <= c < n :: bufs[c].key != key && holders[c] > 0
      ensures r.Some? ==>
                var b := r.value;
                && 0 <= b < n && ValidBut(r) && Claims(bufs[..], ring, b, key)
                && holders == old(holders)[b := old(holders)[b] + 1]
                && bufs[..] == old(bufs[..])[b := bufs[b]]
                && if old(bufs[b]).key == key
                   then bufs[b] == old(bufs[b]).(refcnt := holders[b]) && edited == old(edited)
                   else
                     && !bufs[b].valid && edited == old(edited) - {b} && old(holders)[b] == 0
                     && FirstUnused(old(bufs[..]), ring, lru, b)
                     && forall c | 0 <= c < n :: old(bufs[c]).key != key
    {
      hide Inv, Claims;
      CountsOf(bufs[..], ring, disk, holders, edited, None);
      r := FindCached(key);
      if r.Some? {
        var b := r.value;
        ClaimsKey(bufs[..], ring, b, key);
        HitKeepsInv(bufs[..], ring, disk, holders, edited, b, key);
        bufs[b] := bufs[b].(refcnt := bufs[b].refcnt + 1);
        holders := holders[b := holders[b] + 1];
        assert bufs[..] == old(bufs[..])[b := bufs[b]];
        return;
      }
      r := FindUnused();
      if r.Some? {
        var b := r.value;
        RecycleKeepsInv(bufs[..], ring, disk, holders, edited, b, key);
        bufs[b] := bufs[b].(key := key, valid := false, refcnt := 1);
        holders := holders[b := 1];
        edited := edited - {b};
        assert bufs[..] == old(bufs[..])[b := bufs[b]];
      }
    }

    // buffer_read
    method BufferRead(key: Key) returns (r: Option<int>)
      requires Valid()
      modifies bufs, this`holders, this`edited, this`disk
      ensures Valid() && disk == old(disk)
      ensures r.None? ==>
                && bufs[..] == old(bufs[..]) && holders == old(holders) && edited == old(edited)
                && forall c | 0 <= c < n :: bufs[c].key != key && holders[c] > 0
      ensures r.Some? ==>
                var b := r.value;
                && 0 <= b < n && bufs[b].key == key && bufs[b].valid
                && (b !in edited ==> bufs[b].data == disk(key))
                && holders == old(holders)[b := old(holders)[b] + 1]
                && (forall c | 0 <= c < n && c != b :: bufs[c] == old(bufs[c]))
                && edited == (if old(bufs[b]).key == key then old(edited) else old(edited) - {b})
                && (old(bufs[b]).key != key ==> old(holders)[b] == 0)
                && (old(bufs[b]).key == key && old(bufs[b]).valid ==> bufs[b].data == old(bufs[b]).data)
    {
      hide Inv, Claims;
      r := BufferGet(key);
      if r.None? { return; }
      var b := r.value;
      CountsOf(bufs[..], ring, disk, holders, edited, r);
      ClaimsKey(bufs[..], ring, b, key);
      FillKeepsInv(bufs[..], ring, disk, holders, edited, b, key);
      if !bufs[b].valid {
        SataSync(b);
      }
      if b !in edited { CleanAt(bufs[..], ring, disk, holders, edited, b); }
    }

    // buffer_write
    method BufferWrite(b: int)
      requires Valid() && 0 <= b < n && holders[b] > 0
      modifies bufs, this`edited, this`disk
      ensures Valid() && bufs[..] == old(bufs[..]) && edited == old(edited) - {b}
      ensures disk(bufs[b].key) == bufs[b].data && forall k | k != bufs[b].key :: disk(k) == old(disk)(k)
    {
      hide Inv;
      CountsOf(bufs[..], ring, disk, holders, edited, None);
      ghost var m, d := bufs[..], disk;
      bufs[b] := bufs[b].(dirty := true);
      SataSync(b);
      WriteKeepsInv(m, ring, d, disk, holders, edited, b);
      assert bufs[..] == m;
      edited := edited - {b};
    }

    // A holder changes the data in place.
    method Edit(b: int, data: Block)
      requires Valid() && 0 <= b < n && holders[b] > 0
      modifies bufs, this`edited
      ensures Valid() && edited == old(edited) + {b}
      ensures bufs[..] == old(bufs[..])[b := old(bufs[b]).(data := data)]
    {
      hide Inv;
      EditKeepsInv(bufs[..], ring, disk, holders, edited, b, data);
      bufs[b] := bufs[b].(data := data);
      edited := edited + {b};
      assert bufs[..] == old(bufs[..])[b := old(bufs[b]).(data := data)];
    }

    // doubly_linked_list_remove
    method Remove(ghost k: int, b: int)
      requires links.Length == n && IsRing(links[..], ring) && 0 <= k < |ring| && ring[k] == b && |ring| > 1
      modifies links, this`ring
      ensures ring == Without(old(ring), k) && IsRing(links[..], ring)
    {
      RingAt(links[..], ring, k);
      UnlinkKeepsRing(links[..], ring, k);
      ghost var m := links[..];
      var x := links[b];
      links[x.prev] := links[x.prev].(next := x.next);
      links[x.next] := links[x.next].(prev := x.prev);
      assert links[..] == Unlink(m, b);
      ring := Without(ring, k);
    }

    // doubly_linked_list_push_front, linking both neighbours
    method PushToFront(b: int)
      requires links.Length == n && IsRing(links[..], ring) && mru == ring[0] && 0 <= b < n && b !in ring
      modifies links, this`ring, this`mru
      ensures ring == [b] + old(ring) && mru == b && IsRing(links[..], ring)
    {
      RingAt(links[..], ring, 0);
      PushFrontKeepsRing(links[..], ring, b);
      ghost var m := links[..];
      var front := mru;
      var last := links[front].prev;
      links[b] := Link(front, last);
      links[last] := links[last].(next := b);
      links[front] := links[front].(prev := b);
      assert links[..] == PushFront(m, front, b);
      mru := b;
      ring := [b] + ring;
    }

    // buffer_release: the last holder makes the buffer the most recently used.
    method BufferRelease(b: int)
      requires Valid() && 0 <= b < n && holders[b] > 0
      modifies this`mru, this`ring, this`holders, bufs, links
      ensures Valid() && holders == old(holders)[b := old(holders)[b] - 1]
      ensures bufs[..] == old(bufs[..])[b := old(bufs[b]).(refcnt := holders[b])]
      ensures exists k | 0 <= k < |old(ring)| ::
                old(ring)[k] == b && ring == if holders[b] == 0 then [b] + Without(old(ring), k) else old(ring)
    {
      hide Inv;
      CountsOf(bufs[..], ring, disk, holders, edited, None);
      ReleaseKeepsInv(bufs[..], ring, disk, holders, edited, b);
      bufs[b] := bufs[b].(refcnt := bufs[b].refcnt - 1);
      holders := holders[b := holders[b] - 1];
      assert bufs[..] == old(bufs[..])[b := old(bufs[b]).(refcnt := holders[b])];
      assert b in ring;
      ghost var k :| 0 <= k < |ring| && ring[k] == b;
      WithoutAll(ring, k, n);
      if bufs[b].refcnt == 0 && b != mru {
        ToFrontKeepsInv(bufs[..], ring, disk, holders, edited, k);
        Remove(k, b);
        PushToFront(b);
      }
    }
  }
}
