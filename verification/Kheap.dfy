/** The kernel heap of kernel/memory/kmalloc.cpp, in place on the words of `kmem`. */
module Kheap {
  import opened Common
  import opened KheapTiling
  import opened KheapMemory
  import opened KheapTags
  import opened KheapLists
  import KheapRuns

  class Heap {
    const kmem: array<u16>
    var freelist: u16
    var bytesAllocated: u16
    ghost var tiles: Tiles
    ghost var fl: seq<int>

    ghost predicate Linked()
      reads this, kmem
    {
      kmem.Length == WORDS && Links(kmem[..], fl, freelist)
    }

    ghost predicate Valid()
      reads this, kmem
    {
      && Linked()
      && Tiling(tiles) && Tagged(TagView(kmem[..]), tiles)
      && ListsFree(tiles, fl)
      && bytesAllocated == AllocatedFrom(tiles, 0)
    }

    // One 16-bit store.
    method Store(o: int, x: u16)
      requires kmem.Length == WORDS && 0 <= o <= END
      modifies kmem
      ensures kmem[..] == Put(old(kmem[..]), o, x)
    {
      kmem[o / 2] := x;
    }

    function SizeAt(o: int): (r: u16)
      requires Linked() && 0 <= o <= END && Even(o)
      reads this, kmem
      ensures r == TagView(kmem[..])(o).size && r % 4 == 0
    {
      SizeOf(kmem[o / 2])
    }

    predicate AllocAt(o: int)
      requires Linked() && 0 <= o <= END && Even(o)
      reads this, kmem
      ensures AllocAt(o) == TagView(kmem[..])(o).alloc
    {
      IsAlloc(kmem[o / 2])
    }

    predicate LeftAt(o: int)
      requires Linked() && 0 <= o <= END && Even(o)
      reads this, kmem
      ensures LeftAt(o) == TagView(kmem[..])(o).left
    {
      LeftAlloc(kmem[o / 2])
    }

    method SetSize(o: int, v: u16)
      requires Linked() && 0 <= o <= END && Even(o) && o !in LinkWords(fl)
      modifies kmem
      ensures Linked()
      ensures TagView(kmem[..])(o) == old(TagView(kmem[..])(o)).(size := SizeOf(v))
      ensures SameAt(old(TagView(kmem[..])), TagView(kmem[..]), {o})
    {
      ghost var m := kmem[..];
      var w := WithSize(kmem[o / 2], v);
      StoreKeepsLinks(m, fl, freelist, o, w);
      PutFrame(m, o, w);
      Store(o, w);
      ViewOfSame(m, kmem[..], {o});
    }

    method SetAlloc(o: int, b: bool)
      requires Linked() && 0 <= o <= END && Even(o) && o !in LinkWords(fl)
      modifies kmem
      ensures Linked()
      ensures TagView(kmem[..])(o) == old(TagView(kmem[..])(o)).(alloc := b)
      ensures SameAt(old(TagView(kmem[..])), TagView(kmem[..]), {o})
    {
      ghost var m := kmem[..];
      var w := WithAlloc(kmem[o / 2], b);
      StoreKeepsLinks(m, fl, freelist, o, w);
      PutFrame(m, o, w);
      Store(o, w);
      ViewOfSame(m, kmem[..], {o});
    }

    method SetLeft(o: int, b: bool)
      requires Linked() && 0 <= o <= END && Even(o) && o !in LinkWords(fl)
      modifies kmem
      ensures Linked()
      ensures TagView(kmem[..])(o) == old(TagView(kmem[..])(o)).(left := b)
      ensures SameAt(old(TagView(kmem[..])), TagView(kmem[..]), {o})
    {
      ghost var m := kmem[..];
      var w := WithLeft(kmem[o / 2], b);
      StoreKeepsLinks(m, fl, freelist, o, w);
      PutFrame(m, o, w);
      Store(o, w);
      ViewOfSame(m, kmem[..], {o});
    }

    // Copies the header of the block at b to the last word of the block.
    method CopyHeaderToFooter(b: int)
      requires Linked() && 0 <= b <= END && Even(b)
      requires var o := b + TagView(kmem[..])(b).size - 2; b <= o <= END && o !in LinkWords(fl)
      modifies kmem
      ensures Linked()
      ensures var f, o := old(TagView(kmem[..])), b + old(TagView(kmem[..])(b).size) - 2;
              TagView(kmem[..])(o) == f(b) && SameAt(f, TagView(kmem[..]), {o})
    {
      ghost var m := kmem[..];
      var w := kmem[b / 2];
      var o := b + SizeOf(w) - 2;
      StoreKeepsLinks(m, fl, freelist, o, w);
      PutFrame(m, o, w);
      Store(o, w);
      ViewOfSame(m, kmem[..], {o});
    }

    method RemoveFromFreeList(b: int)
      requires Linked() && b in fl
      modifies kmem, this`freelist, this`fl
      ensures Linked()
      ensures fl == Drop(old(fl), b)
      ensures SameAt(old(TagView(kmem[..])), TagView(kmem[..]), LinkWords(old(fl)))
    {
      ghost var m, k := kmem[..], IndexOf(fl, b);
      assert LinksAt(m, fl, k);
      var prev, next := kmem[(b + 2) / 2], kmem[(b + 4) / 2];
      assert prev == PrevIn(fl, k) && next == NextIn(fl, k);
      UnlinkedKeepsLinks(m, fl, k, freelist);
      if prev == NIL {
        if next == NIL {
          freelist := NIL;
        } else {
          freelist := next;
        }
      } else {
        Store(prev + 4, next);
      }
      if next != NIL {
        Store(next + 2, prev);
      }
      assert kmem[..] == Unlinked(m, fl, k);
      UnlinkedFrame(m, fl, k);
      ViewOfSame(m, kmem[..], LinkWords(fl));
      fl := Without(fl, k);
    }

    method InsertIntoFreeList(b: int)
      requires Linked() && Fits(fl, b)
      modifies kmem, this`freelist, this`fl
      ensures Linked()
      ensures fl == [b] + old(fl)
      ensures SameAt(old(TagView(kmem[..])), TagView(kmem[..]), LinkWords(fl))
    {
      ghost var m := kmem[..];
      LinkedKeepsLinks(kmem[..], fl, b, freelist);
      var previousFreelist := freelist;
      freelist := b;
      Store(b + 2, NIL);
      Store(b + 4, previousFreelist);
      if previousFreelist != NIL {
        Store(previousFreelist + 2, b);
      }
      assert kmem[..] == KheapMemory.Linked(m, fl, b);
      LinkedFrame(m, fl, b);
      fl := [b] + fl;
      ViewOfSame(m, kmem[..], LinkWords(fl));
    }

    // What Valid says about a free block, before `place` touches it.
    lemma PlaceStart(s: int, n: int)
      requires Valid() && CanPlace(tiles, s, n) && n % 4 == 0
      ensures Linked() && Tiling(tiles) && Tagged(TagView(kmem[..]), tiles)
      ensures s in fl && Fits(Drop(fl, s), s) && TagView(kmem[..])(s).size == tiles[s].size
      ensures 0 <= s && Right(tiles, s) <= END && SizeOf(n) == n && SizeOf(tiles[s].size) == tiles[s].size
      ensures tiles[s].size - n >= 0 && SizeOf(tiles[s].size - n) == tiles[s].size - n
      ensures var r := Right(tiles, s); Even(s) && Even(r) && Even(r - n) && Even(r - n - 2)
    {
      hide LinkWords, Tagged, AllocatedFrom, TagView, Covering, Aligned, Coalesced, Drop, Fits, Even, SizeOf;
      BlockBounds(tiles, s);
      EvenSum(Right(tiles, s), -n);
      SizeOfDifference(0, n);
      SizeOfDifference(s, Right(tiles, s));
      SizeOfDifference(n, tiles[s].size);
      TaggedAt(TagView(kmem[..]), tiles, s);
      LinksSpread(kmem[..], fl, freelist);
      DropMembers(fl, s);
      FreeFits(tiles, Drop(fl, s), s);
    }

    // The link words met while placing in s miss every tag that is written.
    lemma PlacedLists(s: int, n: int)
      requires Valid() && CanPlace(tiles, s, n)
      ensures var r, x := Right(tiles, s), LinkWords(fl) + LinkWords(Drop(fl, s)) + LinkWords([s] + Drop(fl, s));
              && MissesTags(tiles, x) && MissesPayloads(tiles, x) && s !in x && r !in x
              && (tiles[s].size - n >= MIN_BLOCK_SIZE ==> r - n !in x && r - n - 2 !in x)
    {
      hide LinkWords, Tagged, AllocatedFrom, TagView, Covering, Aligned, Coalesced, Drop, Links;
      LinksSpread(kmem[..], fl, freelist);
      DropMembers(fl, s);
      LinksMissPlace(tiles, fl, s, n);
      LinksMissPlace(tiles, Drop(fl, s), s, n);
      LinksMissPlace(tiles, [s] + Drop(fl, s), s, n);
    }

    // Writes the tags of a free block of the given size at b whose left neighbour is allocated.
    method WriteFree(b: int, size: u16)
      requires Linked() && 0 <= b && 8 <= size && b + size <= END && SizeOf(size) == size
      requires Even(b) && b !in LinkWords(fl) && b + size - 2 !in LinkWords(fl)
      modifies kmem
      ensures Linked()
      ensures var f, f' := old(TagView(kmem[..])), TagView(kmem[..]);
              && f'(b) == Tag(size, false, true) && f'(b + size - 2) == f'(b)
              && SameAt(f, f', {b, b + size - 2})
    {
      hide TagView, Linked, LinkWords, SizeOf, Even;
      SetSize(b, size);
      SetAlloc(b, false);
      SetLeft(b, true);
      CopyHeaderToFooter(b);
    }

    // Marks the block at a allocated and tells its right neighbour.
    method MarkAllocated(a: int)
      requires Linked() && 0 <= a && Even(a) && a !in LinkWords(fl)
      requires var r := a + TagView(kmem[..])(a).size; a < r <= END && Even(r) && r !in LinkWords(fl)
      modifies kmem
      ensures Linked()
      ensures var f, f' := old(TagView(kmem[..])), TagView(kmem[..]);
              var r := a + f(a).size;
              && f'(a) == f(a).(alloc := true) && f'(r) == f(r).(left := true)
              && SameAt(f, f', {a, r})
    {
      hide TagView, Linked, LinkWords, Even;
      SetAlloc(a, true);
      SetLeft(a + SizeAt(a), true);
    }

    // Writes the tags of a split: n bytes at a on the right, a free block at s on the left.
    method WriteSplit(s: int, a: int, n: u16)
      requires Linked() && 0 <= s < a - 2 && a + n <= END && SizeOf(n) == n && SizeOf(a - s) == a - s
      requires Even(s) && Even(a) && s !in LinkWords(fl) && a !in LinkWords(fl) && a - 2 !in LinkWords(fl)
      modifies kmem
      ensures Linked()
      ensures var f, f' := old(TagView(kmem[..])), TagView(kmem[..]);
              && f'(a) == Tag(n, f(a).alloc, false)
              && f'(s) == Tag(a - s, false, f(s).left)
              && f'(a - 2) == f'(s)
              && SameAt(f, f', {s, a, a - 2})
    {
      hide TagView, Linked, LinkWords, SizeOf, Even;
      SetSize(a, n);
      SetLeft(a, false);
      SetSize(s, a - s);
      SetAlloc(s, false);
      CopyHeaderToFooter(s);
    }

    // The writes of `place`: n bytes (header included) from the free block at s.
    method PlaceWords(s: int, n: u16) returns (a: int)
      requires Valid() && CanPlace(tiles, s, n) && n % 4 == 0
      modifies kmem, this`freelist, this`fl
      ensures Linked()
      ensures fl == PlacedList(tiles, old(fl), s, n) && a == PlacedAt(tiles, s, n)
      ensures Tagged(TagView(kmem[..]), KheapTiling.Place(tiles, s, n))
      ensures PayloadsSame(old(TagView(kmem[..])), TagView(kmem[..]), tiles)
    {
      hide TagView, Linked, LinkWords, SizeOf, Even, Valid, Tiling, Tagged, Fits, Drop;
      hide MissesTags, MissesPayloads, PayloadsSame;
      ghost var t, f, r := tiles, TagView(kmem[..]), Right(tiles, s);
      ghost var x := LinkWords(fl) + LinkWords(Drop(fl, s)) + LinkWords([s] + Drop(fl, s));
      PlaceStart(s, n);
      PlacedLists(s, n);
      var size := SizeAt(s);
      RemoveFromFreeList(s);
      if size - n >= MIN_BLOCK_SIZE {
        a := s + size - n;
        WriteSplit(s, a, n);
        InsertIntoFreeList(s);
        MarkAllocated(a);
        PlacedSplit(t, f, TagView(kmem[..]), s, n, x);
      } else {
        a := s;
        SetSize(a, size);
        SetLeft(a, true);
        MarkAllocated(a);
        PlacedWhole(t, f, TagView(kmem[..]), s, x);
      }
    }

    method Place(s: int, n: u16) returns (a: int)
      requires Valid() && CanPlace(tiles, s, n) && n % 4 == 0
      modifies kmem, this
      ensures Valid()
      ensures tiles == KheapTiling.Place(old(tiles), s, n) && a == PlacedAt(old(tiles), s, n)
      ensures fl == PlacedList(old(tiles), old(fl), s, n)
      ensures PayloadsSame(old(TagView(kmem[..])), TagView(kmem[..]), old(tiles))
    {
      hide PayloadsSame, TagView, LinkWords, Tagged, Links, Covering, Aligned, Coalesced, ListsFree, KheapTiling.Place;
      ghost var t := tiles;
      PlaceKeepsTiling(t, s, n);
      LinksSpread(kmem[..], fl, freelist);
      PlacedListsFree(t, fl, s, n);
      AllocatedAfterPlace(t, s, n);
      AllocatedBounds(KheapTiling.Place(t, s, n), 0);
      a := PlaceWords(s, n);
      tiles := KheapTiling.Place(t, s, n);
      TaggedAt(TagView(kmem[..]), tiles, a);
      BlockBounds(tiles, a);
      bytesAllocated := bytesAllocated + SizeAt(a);
    }

    // What Valid says around an allocated block, before `coalesce` touches it.
    lemma CoalesceStart(s: int)
      requires Valid() && s in tiles && tiles[s].alloc
      ensures var t, f, lo, r, hi := tiles, TagView(kmem[..]), MergeLo(tiles, s), Right(tiles, s), MergeHi(tiles, s);
              && Linked() && Tiling(t) && Tagged(f, t) && f(s).size == t[s].size && s !in fl
              && 0 <= lo <= s && s + 8 <= r <= hi <= END && (hi != r ==> r + 8 <= hi)
              && Even(lo) && Even(s) && Even(s - 2) && Even(r) && Even(hi) && Even(hi - 2)
              && (f(s).left <==> lo == s) && (lo != s ==> lo in fl && lo + 8 <= s && f(s - 2).size == s - lo)
              && (f(r).alloc <==> hi == r) && (r in fl <==> hi != r) && (hi != r ==> f(r).size == hi - r && !f(hi).left)
              && SizeOf(hi - lo) == hi - lo
    {
      hide TagView, LinkWords, Tagged, Links, AllocatedFrom, Covering, Aligned, Coalesced, Opened;
      hide MergeLo, MergeHi, Even, SizeOf;
      var t, lo, r := tiles, MergeLo(tiles, s), Right(tiles, s);
      NeighbourTags(TagView(kmem[..]), t, s);
      NeighboursOfMerge(t, s);
      TaggedAt(TagView(kmem[..]), t, s);
      BlockBounds(t, s);
      BlockBounds(t, lo);
      if MergeHi(t, s) != r {
        BlockBounds(t, r);
        MergeHiFree(t, s);
      }
      SizeOfDifference(lo, MergeHi(t, s));
    }

    // The link words met while freeing s miss every tag that is written.
    lemma FreedLists(s: int)
      requires Valid() && s in tiles && tiles[s].alloc
      ensures var lo, r := MergeLo(tiles, s), Right(tiles, s);
              var fl1 := Drop(fl, lo); var fl2 := Drop(fl1, r);
              var x := LinkWords(fl) + LinkWords(fl1) + LinkWords(fl2) + LinkWords([lo] + fl2);
              && (r in fl <==> r in fl1) && Fits(fl2, lo)
              && MissesTags(tiles, x) && MissesPayloads(Opened(tiles, s), x)
              && lo !in x && r !in x && MergeHi(tiles, s) !in x && MergeHi(tiles, s) - 2 !in x
    {
      hide TagView, LinkWords, Tagged, Links, AllocatedFrom, Covering, Aligned, Coalesced, MergeLo, MergeHi, Drop, Fits;
      hide Spread;
      hide Opened, MissesTags, MissesPayloads;
      var t, t1, lo, r := tiles, Opened(tiles, s), MergeLo(tiles, s), Right(tiles, s);
      MergeStretch(t, s);
      OpenedCovering(t, s);
      OpenedBlocks(t, s);
      LinksSpread(kmem[..], fl, freelist);
      DropMembers(fl, lo);
      DropSpread(fl, lo);
      DropMembers(Drop(fl, lo), r);
      FreeFits(t1, Drop(Drop(fl, lo), r), lo);
      FreedListMisses(t, s, fl);
      FreedListMisses(t, s, Drop(fl, lo));
      FreedListMisses(t, s, Drop(Drop(fl, lo), r));
      FreedListMisses(t, s, [lo] + Drop(Drop(fl, lo), r));
      var x := LinkWords(fl) + LinkWords(Drop(fl, lo));
      MissesUnion(t, t1, LinkWords(fl), LinkWords(Drop(fl, lo)));
      MissesUnion(t, t1, x, LinkWords(Drop(Drop(fl, lo), r)));
      MissesUnion(t, t1, x + LinkWords(Drop(Drop(fl, lo), r)), LinkWords([lo] + Drop(Drop(fl, lo), r)));
    }

    method CoalesceWords(s: int)
      requires Valid() && s in tiles && tiles[s].alloc
      modifies kmem, this`freelist, this`fl
      ensures Linked()
      ensures fl == FreedList(tiles, old(fl), s)
      ensures Tagged(TagView(kmem[..]), Release(tiles, s))
      ensures PayloadsSame(old(TagView(kmem[..])), TagView(kmem[..]), Opened(tiles, s))
    {
      hide TagView, Linked, LinkWords, SizeOf, Even, Valid, Tiling, Tagged, Fits, Drop;
      hide MissesTags, MissesPayloads, PayloadsSame, MergeLo, MergeHi, Release;
      ghost var t, f, lo, r, hi := tiles, TagView(kmem[..]), MergeLo(tiles, s), Right(tiles, s), MergeHi(tiles, s);
      ghost var fl1 := Drop(fl, lo);
      ghost var fl2 := Drop(fl1, r);
      ghost var x := LinkWords(fl) + LinkWords(fl1) + LinkWords(fl2) + LinkWords([lo] + fl2);
      CoalesceStart(s);
      FreedLists(s);
      var coalesced, right, size := s, s + SizeAt(s), SizeAt(s);
      if !LeftAt(s) {
        var leftSize := SizeAt(s - 2);
        size := size + leftSize;
        coalesced := s - leftSize;
        RemoveFromFreeList(coalesced);
      } else {
        DropAbsent(fl, lo);
      }
      if !AllocAt(right) {
        size := size + SizeAt(right);
        RemoveFromFreeList(right);
      } else {
        DropAbsent(fl, r);
        SetLeft(right, false);
      }
      ghost var f2 := TagView(kmem[..]);
      assert fl == fl2 && coalesced == lo && size == hi - lo;
      assert SameAt(f, f2, x + {lo, hi - 2, hi}) && f2(hi) == f(hi).(left := false);
      WriteFree(coalesced, size);
      InsertIntoFreeList(coalesced);
      FreedTagged(t, f, TagView(kmem[..]), s, x);
    }

    // Turns the allocated block at s into a free block, merged with its free neighbours.
    method Coalesce(s: int)
      requires Valid() && s in tiles && tiles[s].alloc
      modifies kmem, this`freelist, this`fl, this`tiles
      ensures Linked() && Tiling(tiles) && Tagged(TagView(kmem[..]), tiles) && ListsFree(tiles, fl)
      ensures tiles == Release(old(tiles), s) && fl == FreedList(old(tiles), old(fl), s)
      ensures PayloadsSame(old(TagView(kmem[..])), TagView(kmem[..]), Opened(old(tiles), s))
    {
      hide PayloadsSame, TagView, LinkWords, Tagged, Links, Covering, Aligned, Coalesced, ListsFree, Release, Opened;
      ReleaseKeepsTiling(tiles, s);
      LinksSpread(kmem[..], fl, freelist);
      FreedListsFree(tiles, fl, s);
      CoalesceWords(s);
      tiles := Release(tiles, s);
    }

    // The free block in position i of the list, as the memory shows it.
    lemma ListedBlock(i: int)
      requires Valid() && 0 <= i < |fl|
      ensures Linked() && 0 <= fl[i] <= END - 8 && Even(fl[i])
      ensures fl[i] in tiles && !tiles[fl[i]].alloc && tiles[fl[i]].size <= END
      ensures TagView(kmem[..])(fl[i]).size == tiles[fl[i]].size && kmem.Length == WORDS
      ensures kmem[(fl[i] + 4) / 2] == NextIn(fl, i)
    {
      hide TagView, Tagged, AllocatedFrom;
      var b := fl[i];
      assert b in fl;
      assert LinksAt(kmem[..], fl, i);
      BlockBounds(tiles, b);
      TaggedAt(TagView(kmem[..]), tiles, b);
    }

    lemma ListHead()
      requires Valid()
      ensures freelist == NextIn(fl, -1)
    {
    }

    // First fit along the list.
    method FindFit(size: int) returns (cur: u16)
      requires Valid()
      ensures cur == NextIn(fl, FirstFit(tiles, fl, size) - 1)
    {
      hide Valid, TagView, Even, Linked;
      ghost var i, k := 0, FirstFit(tiles, fl, size);
      ListHead();
      cur := freelist;
      if 0 < |fl| { ListedBlock(0); }
      while cur != NIL && SizeAt(cur) < size
        invariant 0 <= i <= k && cur == NextIn(fl, i - 1)
        invariant i < |fl| ==>
                    && Linked() && 0 <= fl[i] <= END - 8 && Even(fl[i]) && fl[i] in tiles
                    && TagView(kmem[..])(fl[i]).size == tiles[fl[i]].size
        decreases |fl| - i
      {
        ListedBlock(i);
        cur := kmem[(cur + 4) / 2];
        i := i + 1;
        if i < |fl| { ListedBlock(i); }
      }
    }

    // The body of kmalloc, against the functions on tiling and list.
    method FindAndPlace(n: nat) returns (p: Option<int>)
      requires Valid()
      modifies kmem, this
      ensures Valid() && p == MallocResult(old(tiles), old(fl), n)
      ensures tiles == MallocTiles(old(tiles), old(fl), n) && fl == MallocList(old(tiles), old(fl), n)
      ensures KeepsPayloads(old(kmem[..]), kmem[..], old(tiles), None)
    {
      hide Valid, TagView, Even, Linked, KheapTiling.Place, PlacedList, KeepsPayloads, Covering, AllocatedFrom;
      Counts();
      SamePayloads(kmem[..], tiles, None);
      if n == 0 || n > MAX_ALLOC {
        return None;
      }
      var size := RequestSize(n);
      ghost var m, k := kmem[..], FirstFit(tiles, fl, size);
      var suitable := FindFit(size);
      if k < |fl| { ListedBlock(k); }
      if suitable == NIL {
        return None;
      }
      var a := Place(suitable, size);
      p := Some(a + 2);
      Counts();
      PayloadWords(m, kmem[..], old(tiles));
    }

    method Kmalloc(n: nat) returns (p: Option<int>)
      requires Valid()
      modifies kmem, this
      ensures Valid()
      ensures p == MallocResult(old(tiles), old(fl), n)
      ensures KheapRuns.Takes(old(tiles), old(fl), KheapRuns.Malloc(n), tiles, fl)
      ensures p.None? <==>
                n == 0 || n > 65535 || forall s | s in old(tiles) && !old(tiles)[s].alloc :: old(tiles)[s].size < n + 2
      ensures p.Some? ==>
                && LiveSize(old(tiles), p.value - 2) == 0
                && n + 2 <= LiveSize(tiles, p.value - 2) < (if n < 3 then 16 else n + 13)
      ensures forall s | p != Some(s + 2) :: LiveSize(tiles, s) == LiveSize(old(tiles), s)
      ensures bytesAllocated == old(bytesAllocated) + if p.Some? then LiveSize(tiles, p.value - 2) else 0
      ensures KeepsPayloads(old(kmem[..]), kmem[..], old(tiles), None)
    {
      hide Valid, MallocTiles, MallocList, MallocResult, KeepsPayloads, KheapRuns.Takes, LiveSize, Covering, AllocatedFrom;
      MallocStart(n);
      p := FindAndPlace(n);
      Counts();
    }

    // What is known of a call of kmalloc before it.
    lemma MallocStart(n: nat)
      requires Valid()
      ensures Covering(tiles) && bytesAllocated == AllocatedFrom(tiles, 0) && kmem.Length == WORDS
      ensures var t', fl' := MallocTiles(tiles, fl, n), MallocList(tiles, fl, n);
              && Covering(t') && KheapRuns.Takes(tiles, fl, KheapRuns.Malloc(n), t', fl')
              && KheapRuns.SeenMalloc(tiles, t', n, MallocResult(tiles, fl, n), AllocatedFrom(t', 0) - bytesAllocated)
    {
      hide TagView, Tagged, AllocatedFrom, MallocTiles, MallocList, MallocResult, KheapRuns.SeenMalloc, Aligned, Coalesced;
      LinksSpread(kmem[..], fl, freelist);
      KheapRuns.MallocSeen(KheapRuns.State(tiles, fl), n);
    }

    lemma Counts()
      requires Valid()
      ensures Covering(tiles) && bytesAllocated == AllocatedFrom(tiles, 0) && kmem.Length == WORDS
    {
    }

    // The size of a live block, as its header shows it.
    lemma LiveBlock(s: int)
      requires Valid() && s in tiles
      ensures Linked() && 0 <= s <= END && Even(s) && TagView(kmem[..])(s).size == tiles[s].size
    {
      hide TagView, Tagged, AllocatedFrom;
      BlockBounds(tiles, s);
      TaggedAt(TagView(kmem[..]), tiles, s);
    }

    method Kfree(p: Option<int>)
      requires Valid()
      requires p.Some? ==> p.value - 2 in tiles && tiles[p.value - 2].alloc
      modifies kmem, this
      ensures Valid()
      ensures p.None? ==> kmem[..] == old(kmem[..]) && tiles == old(tiles) && fl == old(fl)
      ensures p.Some? ==> KheapRuns.Takes(old(tiles), old(fl), KheapRuns.Free(p.value), tiles, fl)
      ensures forall s :: LiveSize(tiles, s) == if p == Some(s + 2) then 0 else LiveSize(old(tiles), s)
      ensures bytesAllocated == old(bytesAllocated) - if p.Some? then old(tiles)[p.value - 2].size else 0
      ensures KeepsPayloads(old(kmem[..]), kmem[..], old(tiles), p)
    {
      hide TagView, Links, Tagged, Covering, Aligned, Coalesced, ListsFree, Release, Opened, FreedList, AllocatedFrom, Even;
      hide KeepsPayloads, KheapRuns.Takes, LiveSize;
      if p == None {
        SamePayloads(kmem[..], tiles, p);
        return;
      }
      var s := p.value - 2;
      ghost var m := kmem[..];
      FreeStart(s);
      LiveBlock(s);
      AllocatedAfterRelease(tiles, s);
      AllocatedBounds(Release(tiles, s), 0);
      var size := SizeAt(s);
      Coalesce(s);
      bytesAllocated := bytesAllocated - size;
      OtherPayloadWords(m, kmem[..], old(tiles), s);
    }

    lemma FreeStart(s: int)
      requires Valid() && s in tiles && tiles[s].alloc
      ensures var t', fl' := Release(tiles, s), FreedList(tiles, fl, s);
              && Covering(t') && KheapRuns.Takes(tiles, fl, KheapRuns.Free(s + 2), t', fl')
              && KheapRuns.SeenFree(tiles, t', s + 2, AllocatedFrom(t', 0) - bytesAllocated)
              && LiveSize(tiles, s) == tiles[s].size
    {
      hide TagView, Tagged, AllocatedFrom, Release, FreedList, KheapRuns.SeenFree, Aligned, Coalesced;
      LinksSpread(kmem[..], fl, freelist);
      KheapRuns.FreeSeen(KheapRuns.State(tiles, fl), s + 2);
    }

    // The owner of a live block stores anywhere in its payload.
    method UserWrite(ghost s: int, o: int, x: u16)
      requires Valid() && s in tiles && tiles[s].alloc
      requires s + 2 <= o < s + tiles[s].size && Even(o)
      modifies kmem
      ensures Valid() && kmem[..] == Put(old(kmem[..]), o, x)
    {
      ghost var f, m := TagView(kmem[..]), kmem[..];
      UserWriteClear(tiles, fl, s, o);
      StoreKeepsLinks(m, fl, freelist, o, x);
      PutFrame(m, o, x);
      Store(o, x);
      ViewOfSame(m, kmem[..], {o});
      TagsSurvive(f, TagView(kmem[..]), tiles);
    }

    // The heap after static initialisation and init_kheap.
    constructor ()
      ensures Valid() && fresh(kmem)
      ensures tiles == map[0 := Tile(65532, false)] && fl == [0] && bytesAllocated == 0
    {
      kmem := new u16[WORDS](_ => 0);
      freelist := 0;
      bytesAllocated := 0;
      tiles := map[0 := Tile(END, false)];
      fl := [0];
      new;
      InitKheap();
    }

    method InitKheap()
      requires kmem.Length == WORDS && (forall i | 0 <= i < WORDS :: kmem[i] == 0)
      requires freelist == 0 && bytesAllocated == 0 && tiles == map[0 := Tile(END, false)] && fl == [0]
      modifies kmem
      ensures Valid()
    {
      hide WithSize, WithAlloc, SizeOf, IsAlloc, LeftAlloc, TagView, Tagged, Links, Tiling, AllocatedFrom;
      InitialHeaders();
      kmem[0] := WithSize(kmem[0], MAX_ALLOC);
      kmem[1] := NIL;
      kmem[2] := NIL;
      kmem[(END - 2) / 2] := kmem[0];
      kmem[END / 2] := WithAlloc(kmem[END / 2], true);
      InitialTiling();
      InitialWords(kmem[..]);
    }
  }
}
