/** From the loader's tables to the running address space. */
module Startup {
  import opened Memory
  import opened Frames
  import opened PageTree
  import opened Vm
  import opened Boot
  import Multiboot
  import Paging
  import VmSystem

  /** The frames that can be handed out after start-up. */
  function BootPool(es: seq<Boot.Entry>, sections: seq<Range>): Pool {
    Pool(Fresh(BootRegions(Spans(es)), BootExcludes(sections)), [])
  }

  /** A frame of the kernel image, in a section that is looked at. */
  ghost predicate KernelFrame(words: Words, sections: seq<Range>, f: int) {
    f > 0 && Backed(words, f) && In(4096 * f, Looked(sections))
  }

  /** What the loader and the linker provide: entries whose chunks do not overlap, memory
      behind all of them, no chunk of the sections dropped, and the three level-3 tables
      in the kernel image. */
  ghost predicate Provided(words: Words, es: seq<Boot.Entry>, sections: seq<Range>,
                           idP3: int, stackP3: int, heapP3: int)
  {
    && Proper(Spans(es)) && Disjoint(Chunks(Spans(es), 1))
    && (forall f: int :: In(4096 * f, Spans(es)) ==> Backed(words, f))
    && Proper(Looked(sections)) && !Misaligned(Chunks(Looked(sections), 4096))
    && Backed(words, 0) && idP3 != stackP3 && idP3 != heapP3 && stackP3 != heapP3
    && KernelFrame(words, sections, idP3) && KernelFrame(words, sections, stackP3)
    && KernelFrame(words, sections, heapP3)
    && words[stackP3] == Filled(ZERO) && words[heapP3] == Filled(ZERO)
  }

  lemma TableNotIssued(words: Words, es: seq<Boot.Entry>, sections: seq<Range>, f: int)
    requires Proper(Looked(sections)) && !Misaligned(Chunks(Looked(sections), 4096))
    requires KernelFrame(words, sections, f)
    ensures f !in BootPool(es, sections).unissued
  {
    if f in BootPool(es, sections).unissued {
      KernelSafe(Chunks(Spans(es), 1), Looked(sections), f, 4096 * f);
    }
  }

  lemma IssuedBacked(words: Words, es: seq<Boot.Entry>, sections: seq<Range>, f: int)
    requires Proper(Spans(es)) && f in BootPool(es, sections).unissued
    requires forall f: int :: In(4096 * f, Spans(es)) ==> Backed(words, f)
    ensures f > 0 && Backed(words, f)
  {
    var mem, xs := Chunks(Spans(es), 1), Chunks(Looked(sections), 4096);
    BootExact(mem, xs, f);
    FrameInMap(Spans(es), xs, f);
  }

  /** The frame allocator's tables then leave memory as the page tables need it. */
  lemma BootMemoryReady(words: Words, es: seq<Boot.Entry>, sections: seq<Range>, idP3: int, stackP3: int, heapP3: int)
    requires Provided(words, es, sections, idP3, stackP3, heapP3)
    requires BootPool(es, sections).unissued != []
    ensures Paging.BootMemory(words, BootPool(es, sections), idP3, stackP3, heapP3)
  {
    hide Fresh, Chunks, Proper, Disjoint, Misaligned, Looked;
    BootOnce(Chunks(Spans(es), 1), Chunks(Looked(sections), 4096));
    forall f | f in BootPool(es, sections).unissued ensures f > 0 && Backed(words, f) {
      IssuedBacked(words, es, sections, f);
    }
    TableNotIssued(words, es, sections, idP3);
    TableNotIssued(words, es, sections, stackP3);
    TableNotIssued(words, es, sections, heapP3);
  }

  /** n frames of zeroed memory. */
  function Zeroed(n: nat): (words: Words)
    ensures forall f :: f in words <==> 0 <= f < n
    ensures forall f :: f in words ==> words[f] == Filled(ZERO)
  {
    if n == 0 then map[] else Zeroed(n - 1)[n - 1 := Filled(ZERO)]
  }

  const SMALL_RAM := Range(0x10_0000, 0x20_0000)
  const SMALL_KERNEL := Range(0x10_0000, 0x10_4000)

  /** A machine for which all of that holds: a megabyte of RAM with the kernel at its
      start. */
  lemma SmallMachine()
    ensures var es, sections := [Boot.Entry(SMALL_RAM, RAM)], [Range(0, 0), SMALL_KERNEL];
            Provided(Zeroed(512), es, sections, 256, 257, 258) && BootPool(es, sections).unissued != []
  {
    hide Fresh, Regions, Excludes, Chunks, In, Zeroed, Filled;
    var es, sections := [Boot.Entry(SMALL_RAM, RAM)], [Range(0, 0), SMALL_KERNEL];
    assert Spans(es) == [SMALL_RAM] && Looked(sections) == [SMALL_KERNEL];
    OneChunk(SMALL_RAM, 1);
    OneChunk(SMALL_KERNEL, 4096);
    SmallIssues();
    SmallFrames();
  }

  lemma OneChunk(r: Range, gap: nat)
    ensures Chunks([r], gap) == [r]
  {}

  lemma SmallIssues()
    ensures 300 in Fresh(Regions([SMALL_RAM]), Excludes([SMALL_KERNEL]))
  {
    assert Usable(SMALL_RAM, [SMALL_KERNEL], 300);
    assert SMALL_RAM in [SMALL_RAM];
    BootExact([SMALL_RAM], [SMALL_KERNEL], 300);
  }

  lemma SmallFrames()
    ensures forall f: int :: In(4096 * f, [SMALL_RAM]) ==> Backed(Zeroed(512), f)
    ensures In(4096 * 256, [SMALL_KERNEL]) && In(4096 * 257, [SMALL_KERNEL]) && In(4096 * 258, [SMALL_KERNEL])
  {
    assert [SMALL_KERNEL][0] == SMALL_KERNEL;
  }

  /** init_mem_regions and the page tables, one after the other. */
  method StartUp(w: Multiboot.Words, info: Multiboot.Info, ram: Ram, idP3: int, stackP3: int, heapP3: int)
    returns (page: Paging.Page)
    requires info.entrySize > 0 && info.mmap > 0 && info.elfNum >= 0
    requires MapFits(Spans(Multiboot.Walk(w, info, info.mmap))) && SectionsFit(Multiboot.Sections(w, info))
    requires BootPool(Multiboot.Walk(w, info, info.mmap), Multiboot.Sections(w, info)).unissued != []
    requires Provided(ram.words, Multiboot.Walk(w, info, info.mmap), Multiboot.Sections(w, info), idP3, stackP3, heapP3)
    modifies ram
    ensures page.Valid() && page.ram == ram
    ensures page.State() == Paging.BootSys(BootPool(Multiboot.Walk(w, info, info.mmap), Multiboot.Sections(w, info)),
                                           idP3, stackP3, heapP3)
  {
    hide Provided;
    var frames := new FrameAllocator(ram);
    var warn := Multiboot.InitMemRegions(w, info, frames);
    BootMemoryReady(ram.words, Multiboot.Walk(w, info, info.mmap), Multiboot.Sections(w, info), idP3, stackP3, heapP3);
    assert frames.pool == BootPool(Multiboot.Walk(w, info, info.mmap), Multiboot.Sections(w, info));
    page := new Paging.Page(ram, frames, idP3, stackP3, heapP3);
  }

  /** From the header that the loader passes to the running address space: its frames are
      exactly those the memory map and the sections in the loader's bytes leave. */
  method BootFrom(w: Multiboot.Words, header: nat, ram: Ram, idP3: int, stackP3: int, heapP3: int,
                  ghost m: Multiboot.Bytes, ghost tags: seq<Multiboot.Tag>,
                  ghost es: seq<Multiboot.MapEntry>, ghost ss: seq<Multiboot.Section>)
    returns (page: Paging.Page)
    requires Multiboot.Describes(w, m, header, tags, es, ss)
    requires MapFits(Spans(Multiboot.Entries(es))) && SectionsFit(Multiboot.Ranges(ss))
    requires BootPool(Multiboot.Entries(es), Multiboot.Ranges(ss)).unissued != []
    requires Provided(ram.words, Multiboot.Entries(es), Multiboot.Ranges(ss), idP3, stackP3, heapP3)
    modifies ram
    ensures page.Valid() && page.ram == ram
    ensures page.State() == Paging.BootSys(BootPool(Multiboot.Entries(es), Multiboot.Ranges(ss)), idP3, stackP3, heapP3)
  {
    hide Provided, BootPool, MapFits, SectionsFit, Spans, Paging.BootSys;
    hide Multiboot.Describes, Multiboot.Visits, Multiboot.Walk, Multiboot.Sections, Multiboot.LearnAll, Multiboot.Pad;
    Multiboot.Described(w, m, header, tags, es, ss);
    var info, visited, ending := Multiboot.ParseMultiboot(w, Multiboot.MAGIC, header);
    Multiboot.VisitsOnce(w, Multiboot.Pad(header + 8), header + w(header), visited, ending,
                         Multiboot.Places(tags, Multiboot.Pad(header + 8)), Multiboot.AtEndTag);
    page := StartUp(w, info, ram, idP3, stackP3, heapP3);
  }

  lemma {:induction false} AllocSlots(vm: Vm, pos: int, end: int)
    ensures AllocFrom(vm, pos, end).1.slots == vm.slots
    decreases end - pos
  {
    if pos < end && pos / 0x800_0000 in vm.slots {
      var vm1 := WithL2(vm, pos / 0x4_0000);
      if Spanned(vm1, pos, end) {
        AllocSlots(MarkBlock(vm1, pos / 512), pos + 512, end);
      } else {
        AllocSlots(MarkPage(WithL1(vm1, pos / 512), pos), pos + 1, end);
      }
    }
  }

  lemma {:induction false} FreeSlots(vm: Vm, pos: int, end: int)
    ensures FreeFrom(vm, pos, end).1.slots == vm.slots
    decreases end - pos
  {
    if pos < end && pos / 0x800_0000 in vm.slots {
      FreeSlots(FreeOne(vm, pos), pos + 1, end);
    }
  }

  lemma {:induction false} RunSlots(sys: VmSystem.Sys, ops: seq<VmSystem.Op>)
    ensures VmSystem.Run(sys, ops).vm.slots == sys.vm.slots
    decreases |ops|
  {
    if ops != [] {
      match ops[0] {
        case Take(area, n) =>
          AllocSlots(sys.vm, VmSystem.Position(sys, area), VmSystem.Position(sys, area) + n);
        case Drop(r) => FreeSlots(sys.vm, r.0, r.1);
        case Touch(v) =>
      }
      RunSlots(VmSystem.Step(sys, ops[0]), ops[1..]);
    }
  }

  /** Over every run from start-up, no stack page, no heap page and no page table the
      kernel builds ever lies over a byte x of a section; only the null section is not
      looked at. */
  lemma KernelNeverTouched(words: Words, es: seq<Boot.Entry>, sections: seq<Range>,
                           idP3: int, stackP3: int, heapP3: int, ops: seq<VmSystem.Op>, low: int,
                           kind: Kind, key: int, i: int, x: int)
    requires Provided(words, es, sections, idP3, stackP3, heapP3)
    requires BootPool(es, sections).unissued != []
    requires VmSystem.Runnable(Paging.BootSys(BootPool(es, sections), idP3, stackP3, heapP3), ops, low)
    requires kind != Slot && 0 < i < |sections| && sections[i].start <= x < sections[i].end
    ensures var vm := VmSystem.Run(Paging.BootSys(BootPool(es, sections), idP3, stackP3, heapP3), ops).vm;
            key in Holders(vm, kind) ==> !(4096 * Holders(vm, kind)[key] <= x < 4096 * Holders(vm, kind)[key] + 4096)
  {
    var pool := BootPool(es, sections);
    var boot := Paging.BootSys(pool, idP3, stackP3, heapP3);
    var vm := VmSystem.Run(boot, ops).vm;
    if key in Holders(vm, kind) {
      var f := Holders(vm, kind)[key];
      assert Looked(sections)[i - 1] == sections[i];
      BootMemoryReady(words, es, sections, idP3, stackP3, heapP3);
      HeldFromPool(words, pool, idP3, stackP3, heapP3, ops, low, kind, key);
      KernelSafe(Chunks(Spans(es), 1), Looked(sections), f, x);
    }
  }

  /** What is held besides the three tables came from the pool. */
  lemma HeldFromPool(words: Words, pool: Pool, idP3: int, stackP3: int, heapP3: int,
                     ops: seq<VmSystem.Op>, low: int, kind: Kind, key: int)
    requires Paging.BootMemory(words, pool, idP3, stackP3, heapP3)
    requires VmSystem.Runnable(Paging.BootSys(pool, idP3, stackP3, heapP3), ops, low) && kind != Slot
    ensures var vm := VmSystem.Run(Paging.BootSys(pool, idP3, stackP3, heapP3), ops).vm;
            key in Holders(vm, kind) ==> Holders(vm, kind)[key] in pool.unissued
  {
    hide VmSystem.Run, Paging.BootRoles, VmSystem.Runnable, VmSystem.FramesOk;
    var boot := Paging.BootSys(pool, idP3, stackP3, heapP3);
    var vm, managed := VmSystem.Run(boot, ops).vm, Paging.BootRoles(pool, idP3, stackP3, heapP3).Keys;
    Paging.BootInv(words, pool, idP3, stackP3, heapP3, ops, low);
    assert VmSystem.PartOk(VmSystem.Run(boot, ops), managed, VmSystem.FramesPart);
    RunSlots(boot, ops);
    if key in Holders(vm, kind) {
      NotInSlots(vm, managed, kind, key);
      assert vm.slots == map[0 := idP3, 2 := stackP3, 4 := heapP3];
      assert vm.slots[0] == idP3 && vm.slots[2] == stackP3 && vm.slots[4] == heapP3;
      RolesAtBoot(pool, idP3, stackP3, heapP3, Holders(vm, kind)[key]);
    }
  }

  lemma NotInSlots(vm: Vm, managed: set<int>, kind: Kind, key: int)
    requires VmSystem.FramesOk(vm, managed) && kind != Slot && key in Holders(vm, kind)
    ensures Holders(vm, kind)[key] in managed
    ensures forall d :: d in vm.slots ==> vm.slots[d] != Holders(vm, kind)[key]
  {
    var roles :| Accounts(vm, roles) && roles.Keys == managed;
    assert OwnedAt(vm, roles, kind) && OwnedAt(vm, roles, Slot);
  }

  lemma RolesAtBoot(pool: Pool, idP3: int, stackP3: int, heapP3: int, f: int)
    requires pool.unissued != [] && f in Paging.BootRoles(pool, idP3, stackP3, heapP3).Keys
    ensures f in pool.unissued || f == idP3 || f == stackP3 || f == heapP3
  {}
}
