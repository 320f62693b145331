/** The physical frame allocator: bump cursors over the memory regions found at
    boot, excluded ranges, and a free list threaded through the freed frames. */
module Frames {
  import opened Memory

  /** start, end and next unissued address of a memory region. */
  datatype Region = Region(start: nat, end: nat, cursor: nat)

  datatype Exclude = Exclude(start: nat, end: nat)

  /** What the allocator can still hand out, as frame numbers: never issued frames
      in issue order, and freed frames in order of release. */
  datatype Pool = Pool(unissued: seq<int>, freed: seq<int>)

  const MAX_MEM_REGIONS: int := 8
  const MAX_EXCLUDE_REGIONS: int := 4
  /** The architecture's physical address limit: frame numbers have 40 bits. */
  const PHYS_LIMIT: int := 0x10_0000_0000_0000

  function RoundUp(n: nat): (r: nat)
    ensures n <= r < n + 4096 && r % 4096 == 0
  {
    (n + 4096 - 1) / 4096 * 4096
  }

  predicate Touches(r: Region, x: Exclude) {
    !(r.start > x.end || r.end < x.start)
  }

  /** The cursor of r once every touching exclude has been skipped. */
  function Skip(r: Region, exs: seq<Exclude>): (c: nat)
    ensures c >= r.cursor
  {
    if exs == [] then r.cursor
    else
      var c := Skip(r, exs[..|exs| - 1]);
      var x := exs[|exs| - 1];
      if Touches(r, x) && x.end + 4096 > c then x.end + 4096 else c
  }

  function Numbers(lo: int, hi: int): seq<int> {
    if lo < hi then seq(hi - lo, i requires 0 <= i => lo + i) else []
  }

  /** The frames a region can still issue. */
  function Window(r: Region, exs: seq<Exclude>): seq<int> {
    Numbers(Skip(r, exs) / 4096, r.end / 4096)
  }

  function Fresh(regs: seq<Region>, exs: seq<Exclude>): seq<int> {
    if regs == [] then [] else Window(regs[0], exs) + Fresh(regs[1..], exs)
  }

  /** The frame the next allocation returns, 0 when there is none. */
  function Next(pool: Pool): int {
    if pool.unissued != [] then pool.unissued[0]
    else if pool.freed != [] then pool.freed[|pool.freed| - 1]
    else 0
  }

  function Take(pool: Pool): Pool {
    if pool.unissued != [] then pool.(unissued := pool.unissued[1..])
    else if pool.freed != [] then pool.(freed := pool.freed[..|pool.freed| - 1])
    else pool
  }

  /** Releasing frame 0 makes the tail pointer NULL, which loses the whole list. */
  function Give(pool: Pool, f: int): Pool {
    if f == 0 then pool.(freed := []) else pool.(freed := pool.freed + [f])
  }

  function Available(pool: Pool): nat { |pool.unissued| + |pool.freed| }

  ghost predicate GoodRegion(r: Region) {
    r.start % 4096 == 0 && r.end % 4096 == 0 && r.cursor % 4096 == 0 && (r.cursor > 0 || r.cursor == r.end)
  }

  ghost predicate GoodExclude(x: Exclude) {
    x.end % 4096 == 0
  }

  /** Word 1 of the i-th freed frame points at the one freed before it. */
  ghost predicate Link(words: Words, freed: seq<int>, i: nat)
    requires i < |freed|
  {
    && freed[i] > 0 && Backed(words, freed[i])
    && words[freed[i]][1] == Entry(false, 0, if i == 0 then 0 else freed[i - 1])
  }

  /** The intrusive free list: the tail pointer and the links spell out freed. */
  ghost predicate Chain(words: Words, tail: int, freed: seq<int>) {
    && tail == (if freed == [] then 0 else freed[|freed| - 1])
    && forall i :: 0 <= i < |freed| ==> Link(words, freed, i)
  }

  lemma ChainPop(words: Words, tail: int, freed: seq<int>)
    requires Chain(words, tail, freed) && freed != []
    ensures tail > 0 && Backed(words, tail) && words[tail][1].base >= 0
    ensures Chain(words, words[tail][1].base, freed[..|freed| - 1])
  {
    var rest := freed[..|freed| - 1];
    assert Link(words, freed, |freed| - 1);
    if |freed| > 1 { assert Link(words, freed, |freed| - 2); }
    forall i | 0 <= i < |rest| ensures Link(words, rest, i) {
      assert Link(words, freed, i);
    }
  }

  lemma ChainPush(words: Words, tail: int, freed: seq<int>, f: int)
    requires Chain(words, tail, freed) && Backed(words, f) && f !in freed && f >= 0
    ensures Chain(Store(words, f, 1, Entry(false, 0, tail)), f, if f == 0 then [] else freed + [f])
  {
    var words', freed' := Store(words, f, 1, Entry(false, 0, tail)), freed + [f];
    if f != 0 {
      forall i | 0 <= i < |freed'| ensures Link(words', freed', i) {
        if i < |freed| { assert Link(words, freed, i); }
      }
    }
  }

  /** Only the freed frames matter to the list. */
  lemma ChainFrame(words: Words, words': Words, tail: int, freed: seq<int>)
    requires Chain(words, tail, freed)
    requires forall f | f in freed && f in words :: f in words' && words'[f] == words[f]
    ensures Chain(words', tail, freed)
  {
    forall i | 0 <= i < |freed| ensures Link(words', freed, i) {
      assert Link(words, freed, i);
    }
  }

  class FrameAllocator {
    const ram: Ram
    var memReg: seq<Region>
    var memEx: seq<Exclude>
    var freeTail: nat       // address of the last freed frame
    ghost var pool: Pool

    ghost predicate Valid()
      reads this, ram
    {
      && |memReg| <= MAX_MEM_REGIONS && |memEx| <= MAX_EXCLUDE_REGIONS
      && (forall i :: 0 <= i < |memReg| ==> GoodRegion(memReg[i]))
      && (forall j :: 0 <= j < |memEx| ==> GoodExclude(memEx[j]))
      && pool.unissued == Fresh(memReg, memEx)
      && freeTail % 4096 == 0
      && Chain(ram.words, freeTail / 4096, pool.freed)
    }

    constructor (ram: Ram)
      ensures Valid() && this.ram == ram
      ensures pool == Pool([], []) && memReg == [] && memEx == []
    {
      this.ram := ram;
      memReg, memEx, freeTail := [], [], 0;
      pool := Pool([], []);
    }

    method AddMemRegion(start: nat, end: nat) returns (res: int)
      requires Valid()
      requires start % 4096 == 0 ==> |memReg| < MAX_MEM_REGIONS && end <= PHYS_LIMIT
      modifies this`memReg, this`pool
      ensures Valid() && pool.freed == old(pool).freed
      ensures res == (if start % 4096 != 0 then 1 else 0)
      ensures memReg == old(memReg) +
                          (if res != 0 then [] else [NewRegion(start, end)])
    {
      if start % 4096 != 0 {
        return 1;
      }
      var end' := RoundUp(end);
      var cursor := if start == 0 then 4096 else start;
      memReg := memReg + [Region(start, end', cursor)];
      pool := pool.(unissued := Fresh(memReg, memEx));
      return 0;
    }

    method AddMemExcludeRegion(start: nat, end: nat) returns (res: int)
      requires Valid()
      requires start % 4096 == 0 ==> |memEx| < MAX_EXCLUDE_REGIONS && end <= PHYS_LIMIT
      modifies this`memEx, this`pool
      ensures Valid() && pool.freed == old(pool).freed
      ensures res == (if start % 4096 != 0 then 1 else 0)
      ensures memEx == old(memEx) +
                         (if res != 0 then [] else [Exclude(start, RoundUp(end))])
    {
      if start % 4096 != 0 {
        return 1;
      }
      var end' := RoundUp(end);
      memEx := memEx + [Exclude(start, end')];
      pool := pool.(unissued := Fresh(memReg, memEx));
      return 0;
    }

    /** The inner loop of Alloc: moves the cursor of region i past the excludes. */
    method SkipExcluded(i: nat)
      requires i < |memReg| && GoodRegion(memReg[i])
      requires forall j :: 0 <= j < |memEx| ==> GoodExclude(memEx[j])
      modifies this`memReg
      ensures i < |memReg| == |old(memReg)| && GoodRegion(memReg[i])
      ensures memReg == old(memReg)[i := old(memReg)[i].(cursor := Skip(old(memReg)[i], memEx))]
    {
      var j := 0;
      while j < |memEx|
        invariant 0 <= j <= |memEx|
        invariant memReg == old(memReg)[i := old(memReg)[i].(cursor := Skip(old(memReg)[i], memEx[..j]))]
        invariant GoodRegion(memReg[i])
      {
        assert memEx[..j + 1][..j] == memEx[..j];
        if memReg[i].start > memEx[j].end || memReg[i].end < memEx[j].start {
          j := j + 1;
          continue;
        }
        var newSize := memEx[j].end + 4096;
        if newSize > memReg[i].cursor {
          memReg := memReg[i := memReg[i].(cursor := newSize)];
        }
        j := j + 1;
      }
      assert memEx[..|memEx|] == memEx;
    }

    /** One turn of Alloc's outer loop: the next frame of region i, or 0. */
    method IssueFrom(i: nat) returns (frame: nat)
      requires Valid() && i < |memReg|
      requires forall k :: 0 <= k < i ==> Window(memReg[k], memEx) == []
      modifies this`pool, this`memReg
      ensures Valid() && pool.freed == old(pool).freed && |memReg| == |old(memReg)|
      ensures forall k :: 0 <= k < i ==> Window(memReg[k], memEx) == []
      ensures frame == 0 ==> pool == old(pool) && Window(memReg[i], memEx) == []
      ensures frame != 0 ==> frame % 4096 == 0 && old(pool).unissued == [frame / 4096] + pool.unissued
    {
      IssueEffect(memReg, memEx, i);
      pool := pool.(unissued := Fresh(memReg[i := Issue(memReg[i], memEx).1], memEx));
      frame := IssueRegion(i);
    }

    /** The body of that turn. */
    method IssueRegion(i: nat) returns (frame: nat)
      requires i < |memReg| && GoodRegion(memReg[i])
      requires forall j :: 0 <= j < |memEx| ==> GoodExclude(memEx[j])
      modifies this`memReg
      ensures frame == Issue(old(memReg)[i], memEx).0
      ensures memReg == old(memReg)[i := Issue(old(memReg)[i], memEx).1]
    {
      if memReg[i].cursor == memReg[i].end {
        assert memReg[i := memReg[i]] == memReg;
        return 0;
      }
      SkipExcluded(i);
      if memReg[i].cursor >= memReg[i].end {
        memReg := memReg[i := memReg[i].(cursor := memReg[i].end)];
        return 0;
      }
      frame := memReg[i].cursor;
      memReg := memReg[i := memReg[i].(cursor := memReg[i].cursor + 4096)];
    }

    method Alloc() returns (frame: nat)
      requires Valid()
      modifies this`pool, this`freeTail, this`memReg
      ensures Valid()
      ensures pool == Take(old(pool)) && frame == 4096 * Next(old(pool))
    {
      frame := 0;
      var i := 0;
      while i < |memReg| && frame == 0
        invariant i <= |memReg| && Valid() && freeTail == old(freeTail)
        invariant frame == 0 ==> pool == old(pool)
        invariant frame == 0 ==> forall k :: 0 <= k < i ==> Window(memReg[k], memEx) == []
        invariant frame != 0 ==> old(pool).unissued != [] && pool == Take(old(pool)) && frame == 4096 * Next(old(pool))
      {
        frame := IssueFrom(i);
        i := i + 1;
      }
      if frame != 0 {
        return frame;
      }
      FreshNone(memReg, memEx);
      frame := PopFreed();
    }

    /** The tail of Alloc: takes the last freed frame off the list. */
    method PopFreed() returns (frame: nat)
      requires Valid() && pool.unissued == []
      modifies this`pool, this`freeTail
      ensures Valid()
      ensures pool == Take(old(pool)) && frame == 4096 * Next(old(pool))
    {
      if freeTail == 0 {
        assert pool.freed == [] by {
          if pool.freed != [] { ChainPop(ram.words, 0, pool.freed); }
        }
        return 0;
      }
      ChainPop(ram.words, freeTail / 4096, pool.freed);
      frame := freeTail;
      freeTail := 4096 * ram.words[frame / 4096][1].base;
      pool := Take(pool);
    }

    /** The memset of AllocZeroed writes the whole frame unless there was none. */
    method AllocZeroed() returns (frame: nat)
      requires Valid()
      requires Next(pool) != 0 ==> Backed(ram.words, Next(pool)) && Next(pool) !in Take(pool).freed
      modifies this`pool, this`freeTail, this`memReg, ram
      ensures Valid()
      ensures pool == Take(old(pool)) && frame == 4096 * Next(old(pool))
      ensures ram.words == if frame == 0 then old(ram.words)
                           else old(ram.words)[Next(old(pool)) := Filled(ZERO)]
    {
      frame := Alloc();
      if frame != 0 {
        ghost var words := ram.words;
        ram.Zero(frame / 4096);
        ChainFrame(words, ram.words, freeTail / 4096, pool.freed);
      }
    }

    /** An unaligned address is reported and ignored. */
    method Free(frame: nat)
      requires Valid()
      requires Backed(ram.words, frame / 4096)
      requires frame / 4096 !in pool.freed
      modifies this`pool, this`freeTail, ram
      ensures Valid()
      ensures pool == if frame % 4096 != 0 then old(pool) else Give(old(pool), frame / 4096)
      ensures ram.words == if frame % 4096 != 0 then old(ram.words)
                           else Store(old(ram.words), frame / 4096, 1, Entry(false, 0, old(freeTail) / 4096))
    {
      if frame % 4096 != 0 {
        return;
      }
      ChainPush(ram.words, freeTail / 4096, pool.freed, frame / 4096);
      ram.Write(frame / 4096, 1, Entry(false, 0, freeTail / 4096));
      freeTail := frame;
      pool := Give(pool, frame / 4096);
    }
  }

  ghost predicate NoRepeat(s: seq<int>) {
    forall i, j :: 0 <= i < j < |s| ==> s[i] != s[j]
  }

  /** Once past every touching exclude, a cursor stays where it is put. */
  lemma {:induction false} SkipPast(r: Region, exs: seq<Exclude>, c: nat)
    requires Skip(r, exs) <= c
    ensures Skip(r.(cursor := c), exs) == c
  {
    if exs != [] {
      SkipPast(r, exs[..|exs| - 1], c);
    }
  }

  /** The skipped cursor is the maximum of the old one and one frame past the end of
      every touching exclude: at or above f exactly when all of those are. */
  lemma {:induction false} SkipIsMax(r: Region, exs: seq<Exclude>, f: int)
    ensures f >= Skip(r, exs) <==>
            f >= r.cursor && forall x | x in exs && Touches(r, x) :: f >= x.end + 4096
  {
    if exs != [] {
      var rest, last := exs[..|exs| - 1], exs[|exs| - 1];
      SkipIsMax(r, rest, f);
      assert exs == rest + [last];
      assert last in exs;
    }
  }

  /** Regions with nothing left in front contribute nothing. */
  lemma {:induction false} FreshAt(regs: seq<Region>, exs: seq<Exclude>, i: nat)
    requires i < |regs|
    requires forall k :: 0 <= k < i ==> Window(regs[k], exs) == []
    ensures Fresh(regs, exs) == Window(regs[i], exs) + Fresh(regs[i + 1..], exs)
  {
    if i > 0 {
      FreshAt(regs[1..], exs, i - 1);
      assert regs[1..][i..] == regs[i + 1..];
    }
  }

  lemma {:induction false} FreshNone(regs: seq<Region>, exs: seq<Exclude>)
    requires forall k :: 0 <= k < |regs| ==> Window(regs[k], exs) == []
    ensures Fresh(regs, exs) == []
  {
    if regs != [] { FreshNone(regs[1..], exs); }
  }

  /** The frame a region issues next, 0 if it has none left, and the region after. */
  function Issue(r: Region, exs: seq<Exclude>): (nat, Region) {
    var c := Skip(r, exs);
    if r.cursor == r.end then (0, r)
    else if c >= r.end then (0, r.(cursor := r.end))
    else (c, r.(cursor := c + 4096))
  }

  lemma {:induction false} SkipAligned(r: Region, exs: seq<Exclude>)
    requires GoodRegion(r) && forall j :: 0 <= j < |exs| ==> GoodExclude(exs[j])
    ensures Skip(r, exs) % 4096 == 0
  {
    if exs != [] { SkipAligned(r, exs[..|exs| - 1]); }
  }

  /** A region issues the first frame of its window, if any, and keeps the others. */
  lemma IssueWindow(r: Region, exs: seq<Exclude>)
    requires GoodRegion(r) && forall j :: 0 <= j < |exs| ==> GoodExclude(exs[j])
    ensures var (f, r') := Issue(r, exs);
            && GoodRegion(r') && f % 4096 == 0
            && Window(r, exs) == (if f == 0 then [] else [f / 4096]) + Window(r', exs)
            && (f == 0 ==> Window(r', exs) == [])
  {
    SkipAligned(r, exs);
    if r.cursor != r.end && Skip(r, exs) < r.end { WindowStep(r, exs); }
  }

  /** Issuing from the first region that may have frames left. */
  lemma IssueEffect(regs: seq<Region>, exs: seq<Exclude>, i: nat)
    requires i < |regs| && GoodRegion(regs[i])
    requires forall j :: 0 <= j < |exs| ==> GoodExclude(exs[j])
    requires forall k :: 0 <= k < i ==> Window(regs[k], exs) == []
    ensures var (f, r') := Issue(regs[i], exs);
            && GoodRegion(r') && f % 4096 == 0
            && Fresh(regs, exs) == (if f == 0 then [] else [f / 4096]) + Fresh(regs[i := r'], exs)
            && (f == 0 ==> Window(r', exs) == [])
  {
    var (f, r') := Issue(regs[i], exs);
    var front := if f == 0 then [] else [f / 4096];
    var rest := Fresh(regs[i + 1..], exs);
    assert Fresh(regs, exs) == Window(regs[i], exs) + rest by { FreshAt(regs, exs, i); }
    assert Fresh(regs[i := r'], exs) == Window(r', exs) + rest by {
      FreshAt(regs[i := r'], exs, i);
      assert regs[i := r'][i + 1..] == regs[i + 1..];
    }
    IssueWindow(regs[i], exs);
    assert front + Window(r', exs) + rest == front + (Window(r', exs) + rest);
  }

  lemma WindowStep(r: Region, exs: seq<Exclude>)
    requires r.end % 4096 == 0 && Skip(r, exs) % 4096 == 0 && Skip(r, exs) < r.end
    ensures Window(r, exs) == [Skip(r, exs) / 4096] + Window(r.(cursor := Skip(r, exs) + 4096), exs)
  {
    var s := Skip(r, exs);
    SkipPast(r, exs, s + 4096);
    assert (s + 4096) / 4096 == s / 4096 + 1 && s / 4096 < r.end / 4096;
    NumbersStep(s / 4096, r.end / 4096);
  }

  lemma NumbersStep(lo: int, hi: int)
    requires lo < hi
    ensures Numbers(lo, hi) == [lo] + Numbers(lo + 1, hi)
  {
  }

  function NewRegion(start: nat, end: nat): Region {
    Region(start, RoundUp(end), if start == 0 then 4096 else start)
  }
}
