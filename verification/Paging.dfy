/** The page directories of paging.c and the two-level translation that the processor performs on
    them (section 4.3, 32-Bit Paging, of the Intel SDM Volume 3A).

    Entries are natural numbers.  Or-ing flag bits into a 4 KB aligned address is addition, and a
    flag is read back by division.
 */
module Paging {
  import opened Division

  const FOUR_MB := 0x400000
  const FOUR_KB := 0x1000
  const KERNEL_LOC := 0x400000
  const PROGRAM_IMAGE := 0x8000000
  const USER_PAGE_BOTTOM := 0x8400000
  const MAX_PROCESSES := 6
  const ENTRIES := 1024
  const IMAGE_DIR := 32     // PROGRAM_IMAGE / FOUR_MB
  const VIDEO_DIR := 33     // USER_PAGE_BOTTOM >> 22

  const VIDEO := 0xB8000
  const VIDEO_0 := 0xB9000
  const VIDEO_1 := 0xBA000
  const VIDEO_2 := 0xBB000

  predicate IsVideoPage(phys: nat) {
    phys == VIDEO || phys == VIDEO_0 || phys == VIDEO_1 || phys == VIDEO_2
  }

  lemma {:induction false} Aligned(phys: nat)
    requires IsVideoPage(phys)
    ensures phys % FOUR_KB == 0
  {
    assert VIDEO % FOUR_KB == 0 && VIDEO_0 % FOUR_KB == 0 && VIDEO_1 % FOUR_KB == 0 && VIDEO_2 % FOUR_KB == 0;
  }

  /** The hidden page of a terminal. */
  function HiddenPage(terminal: nat): nat {
    if terminal == 0 then VIDEO_0 else if terminal == 1 then VIDEO_1 else VIDEO_2
  }

  predicate Present(e: nat) { e % 2 == 1 }
  predicate Writable(e: nat) { e / 2 % 2 == 1 }
  predicate User(e: nat) { e / 4 % 2 == 1 }
  predicate Large(e: nat) { e / 128 % 2 == 1 }

  lemma {:induction false} PageOf(k: nat, flags: nat)
    requires flags < FOUR_KB
    ensures (FOUR_KB * k + flags) / FOUR_KB == k
  {
  }

  lemma {:induction false} FlagKept(flags: nat, p: int, n: nat)
    requires p >= 1
    ensures (p * (2 * n) + flags) / p % 2 == flags / p % 2
  {
    QuotientShift(flags, p, 2 * n);
  }

  lemma {:induction false} LowFlags(k: nat, flags: nat)
    ensures Present(FOUR_KB * k + flags) == Present(flags)
    ensures Writable(FOUR_KB * k + flags) == Writable(flags)
  {
    FlagKept(flags, 1, 2048 * k);
    FlagKept(flags, 2, 1024 * k);
  }

  lemma {:induction false} HighFlags(k: nat, flags: nat)
    ensures User(FOUR_KB * k + flags) == User(flags)
    ensures Large(FOUR_KB * k + flags) == Large(flags)
  {
    FlagKept(flags, 4, 512 * k);
    FlagKept(flags, 128, 16 * k);
  }

  /** Flags or-ed into an aligned address can be read back, and so can the address. */
  lemma {:induction false} Flags(addr: nat, flags: nat)
    requires addr % FOUR_KB == 0 && flags < FOUR_KB
    ensures (addr + flags) / FOUR_KB * FOUR_KB == addr
    ensures Present(addr + flags) == Present(flags) && Writable(addr + flags) == Writable(flags)
    ensures User(addr + flags) == User(flags) && Large(addr + flags) == Large(flags)
  {
    var k := addr / FOUR_KB;
    assert addr == FOUR_KB * k;
    PageOf(k, flags);
    LowFlags(k, flags);
    HighFlags(k, flags);
  }

  lemma {:induction false} LargeBase(addr: nat, flags: nat)
    requires addr % FOUR_MB == 0 && flags < FOUR_KB
    ensures addr % FOUR_KB == 0
    ensures (addr + flags) / FOUR_MB * FOUR_MB == addr
  {
    var k := addr / FOUR_MB;
    assert addr == FOUR_KB * (1024 * k);
  }

  datatype Mapping = Unmapped | Mapped(phys: nat, user: bool, writable: bool)

  /** The address space of a process that did not call vidmap: the kernel's 8 MB, without the first page, at their
      own addresses and out of reach of user code, the program image in 4 MB of its own, and nothing else. */
  function Layout(pid: nat, va: nat): Mapping {
    if va < FOUR_KB then Unmapped
    else if va < 2 * FOUR_MB then Mapped(va, false, true)
    else if PROGRAM_IMAGE <= va < PROGRAM_IMAGE + FOUR_MB then
      Mapped(2 * FOUR_MB + FOUR_MB * (pid - 1) + (va - PROGRAM_IMAGE), true, true)
    else Unmapped
  }

  class Tables {
    const pageDir: array2<nat>
    const first4MB: array2<nat>
    const videoTables: array2<nat>
    const firstBase: nat         // physical address of first_4MB
    const videoBase: nat         // physical address of video_page_tables
    var cr3: nat                 // the process whose directory is loaded

    ghost function Repr(): set<object> {
      {this, pageDir, first4MB, videoTables}
    }

    ghost predicate Shape() {
      && pageDir.Length0 == first4MB.Length0 == videoTables.Length0 == MAX_PROCESSES + 1
      && pageDir.Length1 == first4MB.Length1 == videoTables.Length1 == ENTRIES
      && pageDir != first4MB && pageDir != videoTables && first4MB != videoTables
      && firstBase % FOUR_KB == 0 && videoBase % FOUR_KB == 0
      && firstBase + FOUR_KB * (MAX_PROCESSES + 1) <= videoBase
    }

    /** The entry `i` of the page table at physical address `addr`. */
    ghost function TableEntry(addr: nat, i: nat): nat
      requires Shape() && i < ENTRIES
      reads first4MB, videoTables
    {
      if firstBase <= addr < firstBase + FOUR_KB * (MAX_PROCESSES + 1) then
        first4MB[(addr - firstBase) / FOUR_KB, i]
      else if videoBase <= addr < videoBase + FOUR_KB * (MAX_PROCESSES + 1) then
        videoTables[(addr - videoBase) / FOUR_KB, i]
      else 0
    }

    /** Where the processor finds virtual address `va` while the directory of `pid` is loaded. */
    ghost function Translate(pid: nat, va: nat): Mapping
      requires Shape() && pid <= MAX_PROCESSES && va < 0x1_0000_0000
      reads pageDir, first4MB, videoTables
    {
      var e := pageDir[pid, va / FOUR_MB];
      if !Present(e) then Unmapped
      else if Large(e) then Mapped(e / FOUR_MB * FOUR_MB + va % FOUR_MB, User(e), Writable(e))
      else
        var p := TableEntry(e / FOUR_KB * FOUR_KB, va / FOUR_KB % ENTRIES);
        if !Present(p) then Unmapped
        else Mapped(p / FOUR_KB * FOUR_KB + va % FOUR_KB, User(e) && User(p), Writable(e) && Writable(p))
    }

    /** The directory entries that new_page_directory writes. */
    ghost function Fresh(pid: nat, i: nat): nat {
      if i == 0 then firstBase + FOUR_KB * pid + 0x3
      else if i == 1 then KERNEL_LOC + 0x83
      else if i == IMAGE_DIR then FOUR_MB * (pid + 1) + 0x87
      else 0x2
    }

    /** A directory as new_page_directory and vidmap leave it. */
    ghost predicate Built(pid: nat)
      requires Shape() && pid <= MAX_PROCESSES
      reads pageDir, first4MB, videoTables
    {
      && (forall i :: 0 <= i < ENTRIES && i != VIDEO_DIR ==> pageDir[pid, i] == Fresh(pid, i))
      && (forall i :: 0 <= i < ENTRIES ==> first4MB[pid, i] == FOUR_KB * i + (if i == 0 then 0x2 else 0x3))
      && (forall i :: 0 < i < ENTRIES ==> videoTables[pid, i] == 0)
      && (pageDir[pid, VIDEO_DIR] == 0x2 || VideoMapped(pid, VIDEO) || VideoMapped(pid, VIDEO_0)
          || VideoMapped(pid, VIDEO_1) || VideoMapped(pid, VIDEO_2))
    }

    /** vidmap's mapping is in place and leads to the page at `phys`. */
    ghost predicate VideoMapped(pid: nat, phys: nat)
      requires Shape() && pid <= MAX_PROCESSES
      reads pageDir, videoTables
    {
      pageDir[pid, VIDEO_DIR] == videoBase + FOUR_KB * pid + 0x7 && videoTables[pid, 0] == phys + 0x7
    }

    /** The tables of a slot no process has used yet. */
    ghost predicate Unused(pid: nat)
      requires Shape() && pid <= MAX_PROCESSES
      reads pageDir, videoTables
    {
      forall i :: 0 <= i < ENTRIES ==> pageDir[pid, i] == 0 && videoTables[pid, i] == 0
    }

    ghost predicate Valid()
      reads pageDir, first4MB, videoTables
    {
      Shape() && forall pid :: 1 <= pid <= MAX_PROCESSES ==> Built(pid) || Unused(pid)
    }

    constructor (firstBase: nat, videoBase: nat)
      requires firstBase % FOUR_KB == 0 && videoBase % FOUR_KB == 0
      requires firstBase + FOUR_KB * (MAX_PROCESSES + 1) <= videoBase
      ensures Valid() && fresh(Repr() - {this}) && cr3 == 0
      ensures forall pid :: 1 <= pid <= MAX_PROCESSES ==> Unused(pid)
    {
      pageDir := new nat[MAX_PROCESSES + 1, ENTRIES]((_, _) => 0);
      first4MB := new nat[MAX_PROCESSES + 1, ENTRIES]((_, _) => 0);
      videoTables := new nat[MAX_PROCESSES + 1, ENTRIES]((_, _) => 0);
      this.firstBase := firstBase;
      this.videoBase := videoBase;
      cr3 := 0;
    }

    /** Only row `pid` of the tables changed. */
    twostate predicate OnlyRow(pid: nat)
      requires Shape()
      reads pageDir, first4MB, videoTables
    {
      forall q, i :: 0 <= q <= MAX_PROCESSES && q != pid && 0 <= i < ENTRIES ==>
        pageDir[q, i] == old(pageDir[q, i]) && first4MB[q, i] == old(first4MB[q, i])
        && videoTables[q, i] == old(videoTables[q, i])
    }

    /** A change to one row leaves the other directories as they were. */
    twostate lemma OthersKept(pid: nat)
      requires old(Valid()) && OnlyRow(pid)
      ensures forall q :: 1 <= q <= MAX_PROCESSES && q != pid ==> Built(q) || Unused(q)
    {
      forall q | 1 <= q <= MAX_PROCESSES && q != pid
        ensures Built(q) || Unused(q)
      {
        assert old(Built(q)) || old(Unused(q));
      }
    }

    method NewPageDirectory(pid: nat)
      requires Valid() && 1 <= pid <= MAX_PROCESSES
      modifies `cr3, pageDir, first4MB
      ensures Valid() && Built(pid) && pageDir[pid, VIDEO_DIR] == 0x2 && cr3 == pid && OnlyRow(pid)
      ensures forall va :: 0 <= va < 0x1_0000_0000 ==> Translate(pid, va) == Layout(pid, va)
    {
      assert Built(pid) || Unused(pid);
      ClearDirectory(pid);
      pageDir[pid, 0] := firstBase + FOUR_KB * pid + 0x3;
      IdentityTable(pid);
      first4MB[pid, 0] := first4MB[pid, 0] - 1;
      pageDir[pid, 1] := KERNEL_LOC + 0x83;
      pageDir[pid, PROGRAM_IMAGE / FOUR_MB] := FOUR_MB * (pid + 1) + 0x87;
      cr3 := pid;
      OthersKept(pid);
      forall va | 0 <= va < 0x1_0000_0000
        ensures Translate(pid, va) == Layout(pid, va)
      {
        AddressSpace(pid, va);
      }
    }

    /** The first loop of new_page_directory: no entry is present. */
    method ClearDirectory(pid: nat)
      requires Shape() && pid <= MAX_PROCESSES
      modifies pageDir
      ensures forall k :: 0 <= k < ENTRIES ==> pageDir[pid, k] == 0x2
      ensures forall q, k :: 0 <= q <= MAX_PROCESSES && q != pid && 0 <= k < ENTRIES ==>
                pageDir[q, k] == old(pageDir[q, k])
    {
      var i := 0;
      while i < ENTRIES
        invariant 0 <= i <= ENTRIES
        invariant forall k :: 0 <= k < i ==> pageDir[pid, k] == 0x2
        invariant forall q, k :: 0 <= q <= MAX_PROCESSES && q != pid && 0 <= k < ENTRIES ==>
                    pageDir[q, k] == old(pageDir[q, k])
      {
        pageDir[pid, i] := 0x2;
        i := i + 1;
      }
    }

    /** The second loop: the first 4 MB are mapped to themselves. */
    method IdentityTable(pid: nat)
      requires Shape() && pid <= MAX_PROCESSES
      modifies first4MB
      ensures forall k :: 0 <= k < ENTRIES ==> first4MB[pid, k] == FOUR_KB * k + 0x3
      ensures forall q, k :: 0 <= q <= MAX_PROCESSES && q != pid && 0 <= k < ENTRIES ==>
                first4MB[q, k] == old(first4MB[q, k])
    {
      var i := 0;
      while i < ENTRIES
        invariant 0 <= i <= ENTRIES
        invariant forall k :: 0 <= k < i ==> first4MB[pid, k] == FOUR_KB * k + 0x3
        invariant forall q, k :: 0 <= q <= MAX_PROCESSES && q != pid && 0 <= k < ENTRIES ==>
                    first4MB[q, k] == old(first4MB[q, k])
      {
        first4MB[pid, i] := i * 0x1000 + 0x3;
        i := i + 1;
      }
    }

    /** Translation through a process's own video page table. */
    lemma {:induction false} TranslateSmall(pid: nat, va: nat, page: nat, user: bool)
      requires Shape() && pid <= MAX_PROCESSES && va < 0x1_0000_0000 && page % FOUR_KB == 0
      requires pageDir[pid, va / FOUR_MB] == videoBase + FOUR_KB * pid + if user then 0x7 else 0x3
      requires videoTables[pid, va / FOUR_KB % ENTRIES] == page + if user then 0x7 else 0x3
      ensures Translate(pid, va) == Mapped(page + va % FOUR_KB, user, true)
    {
      Flags(videoBase + FOUR_KB * pid, if user then 0x7 else 0x3);
      Flags(page, if user then 0x7 else 0x3);
    }

    /** Translation through a 4 MB page. */
    lemma {:induction false} TranslateLarge(pid: nat, va: nat, page: nat, user: bool)
      requires Shape() && pid <= MAX_PROCESSES && va < 0x1_0000_0000 && page % FOUR_MB == 0
      requires pageDir[pid, va / FOUR_MB] == page + if user then 0x87 else 0x83
      ensures Translate(pid, va) == Mapped(page + va % FOUR_MB, user, true)
    {
      LargeBase(page, if user then 0x87 else 0x83);
      Flags(page, if user then 0x87 else 0x83);
    }

    /** new_page_directory_entry: maps one 4 KB page through the process's video page table, or one
        4 MB page directly. */
    method NewPageDirectoryEntry(pid: nat, virtAddr: nat, physAddr: nat, size: nat, privilege: nat)
      requires Shape() && pid <= MAX_PROCESSES && virtAddr < 0x1_0000_0000
      modifies `cr3, pageDir, videoTables
      ensures cr3 == pid && OnlyRow(pid)
      ensures Translate(pid, virtAddr) ==
        if size == 0 then Mapped(physAddr / FOUR_KB * FOUR_KB + virtAddr % FOUR_KB, privilege == 3, true)
        else Mapped(physAddr / FOUR_MB * FOUR_MB + virtAddr % FOUR_MB, privilege == 3, true)
      ensures forall i :: 0 <= i < ENTRIES && i != virtAddr / FOUR_MB ==> pageDir[pid, i] == old(pageDir[pid, i])
      ensures forall i :: 0 <= i < ENTRIES && (size != 0 || i != virtAddr / FOUR_KB % ENTRIES) ==>
                videoTables[pid, i] == old(videoTables[pid, i])
      ensures size == 0 && privilege == 3 ==> pageDir[pid, virtAddr / FOUR_MB] == videoBase + FOUR_KB * pid + 0x7
      ensures size == 0 && privilege == 3 ==>
                videoTables[pid, virtAddr / FOUR_KB % ENTRIES] == physAddr / FOUR_KB * FOUR_KB + 0x7
    {
      hide Present, Writable, User, Large, TableEntry, Translate;
      var pde := virtAddr / FOUR_MB;
      var pte := virtAddr / FOUR_KB % ENTRIES;
      if size == 0 {
        if privilege == 3 {
          pageDir[pid, pde] := videoBase + FOUR_KB * pid + 0x7;
          videoTables[pid, pte] := physAddr / FOUR_KB * FOUR_KB + 0x7;
        } else {
          pageDir[pid, pde] := videoBase + FOUR_KB * pid + 0x3;
          videoTables[pid, pte] := physAddr / FOUR_KB * FOUR_KB + 0x3;
        }
        TranslateSmall(pid, virtAddr, physAddr / FOUR_KB * FOUR_KB, privilege == 3);
      } else {
        if privilege == 3 {
          pageDir[pid, pde] := physAddr / FOUR_MB * FOUR_MB + 0x87;
        } else {
          pageDir[pid, pde] := physAddr / FOUR_MB * FOUR_MB + 0x83;
        }
        TranslateLarge(pid, virtAddr, physAddr / FOUR_MB * FOUR_MB, privilege == 3);
      }
      cr3 := pid;
    }

    /** vidmap's use of new_page_directory_entry. */
    method MapVideo(pid: nat, phys: nat)
      requires Valid() && 1 <= pid <= MAX_PROCESSES && Built(pid) && IsVideoPage(phys)
      modifies `cr3, pageDir, videoTables
      ensures Valid() && Built(pid) && VideoMapped(pid, phys) && cr3 == pid && OnlyRow(pid)
    {
      hide Present, Writable, User, Large, TableEntry;
      NewPageDirectoryEntry(pid, USER_PAGE_BOTTOM, phys, 0, 3);
      OthersKept(pid);
    }

    method SwapPages(pid: nat)
      modifies `cr3
      ensures cr3 == pid
    {
      cr3 := pid;
    }

    lemma {:induction false} ThroughVideoTable(pid: nat, va: nat, phys: nat)
      requires Shape() && 1 <= pid <= MAX_PROCESSES && Built(pid) && va < 0x1_0000_0000
      requires IsVideoPage(phys) && VideoMapped(pid, phys)
      requires va / FOUR_MB == VIDEO_DIR
      ensures Translate(pid, va) ==
        if va / FOUR_KB == USER_PAGE_BOTTOM / FOUR_KB then Mapped(phys + va % FOUR_KB, true, true) else Unmapped
    {
      var pte := va / FOUR_KB % ENTRIES;
      Flags(videoBase + FOUR_KB * pid, 0x7);
      assert TableEntry(videoBase + FOUR_KB * pid, pte) == videoTables[pid, pte];
      Aligned(phys);
      assert pte == 0 <==> va / FOUR_KB == USER_PAGE_BOTTOM / FOUR_KB;
      if pte == 0 {
        TranslateSmall(pid, va, phys, true);
      }
    }

    /** The first 4 MB are mapped to themselves for the kernel, except for the first page. */
    lemma {:induction false} ThroughFirstTable(pid: nat, va: nat)
      requires Shape() && 1 <= pid <= MAX_PROCESSES && Built(pid) && va < FOUR_MB
      ensures Translate(pid, va) == if va < FOUR_KB then Unmapped else Mapped(va, false, true)
    {
      var pte := va / FOUR_KB;
      assert va / FOUR_MB == 0 && pte % ENTRIES == pte;
      Flags(firstBase + FOUR_KB * pid, 0x3);
      assert TableEntry(firstBase + FOUR_KB * pid, pte) == first4MB[pid, pte];
      if pte > 0 {
        Flags(FOUR_KB * pte, 0x3);
      } else {
        assert first4MB[pid, 0] == 0x2;
      }
    }

    /** The address lies in the page that vidmap maps, and vidmap was called. */
    ghost predicate Video(pid: nat, va: nat)
      requires Shape() && pid <= MAX_PROCESSES
      reads pageDir
    {
      pageDir[pid, VIDEO_DIR] != 0x2 && USER_PAGE_BOTTOM <= va < USER_PAGE_BOTTOM + FOUR_KB
    }

    /** The address is that of a byte of the video page at `phys`. */
    ghost predicate LeadsTo(pid: nat, va: nat, phys: nat)
      requires Shape() && pid <= MAX_PROCESSES && USER_PAGE_BOTTOM <= va < USER_PAGE_BOTTOM + FOUR_KB
      reads pageDir, first4MB, videoTables
    {
      && IsVideoPage(phys) && VideoMapped(pid, phys)
      && Translate(pid, va) == Mapped(phys + va - USER_PAGE_BOTTOM, true, true)
    }

    /** The whole address space of a process: the layout and at most one video page. */
    lemma {:induction false} AddressSpace(pid: nat, va: nat)
      requires Shape() && 1 <= pid <= MAX_PROCESSES && Built(pid) && va < 0x1_0000_0000
      ensures !Video(pid, va) ==> Translate(pid, va) == Layout(pid, va)
      ensures Video(pid, va) ==> exists phys: nat :: LeadsTo(pid, va, phys)
    {
      hide Built, Translate;
      var d := va / FOUR_MB;
      if d == 0 {
        ThroughFirstTable(pid, va);
      } else if d == 1 {
        Entries(pid, d);
        TranslateLarge(pid, va, KERNEL_LOC, false);
      } else if d == IMAGE_DIR {
        Entries(pid, d);
        TranslateLarge(pid, va, FOUR_MB * (pid + 1), true);
      } else {
        Elsewhere(pid, va);
      }
    }

    lemma {:induction false} Entries(pid: nat, d: nat)
      requires Shape() && 1 <= pid <= MAX_PROCESSES && Built(pid) && d < ENTRIES && d != VIDEO_DIR
      ensures pageDir[pid, d] == Fresh(pid, d)
    {
    }

    lemma {:induction false} Elsewhere(pid: nat, va: nat)
      requires Shape() && 1 <= pid <= MAX_PROCESSES && Built(pid) && va < 0x1_0000_0000
      requires va / FOUR_MB != 0 && va / FOUR_MB != 1 && va / FOUR_MB != IMAGE_DIR
      ensures !Video(pid, va) ==> Translate(pid, va).Unmapped?
      ensures Video(pid, va) ==> exists phys: nat :: LeadsTo(pid, va, phys)
    {
      if va / FOUR_MB == VIDEO_DIR && pageDir[pid, VIDEO_DIR] != 0x2 {
        var phys: nat :| IsVideoPage(phys) && VideoMapped(pid, phys);
        ThroughVideoTable(pid, va, phys);
        assert Video(pid, va) ==> LeadsTo(pid, va, phys);
      }
    }

    /** User code can use this address. */
    ghost predicate Reachable(pid: nat, va: nat)
      requires Shape() && pid <= MAX_PROCESSES && va < 0x1_0000_0000
      reads pageDir, first4MB, videoTables
    {
      Translate(pid, va).Mapped? && Translate(pid, va).user
    }

    /** What user code of a process can reach: its own 4 MB image page and at most one video page. */
    lemma {:induction false} UserReach(pid: nat, va: nat)
      requires Valid() && 1 <= pid <= MAX_PROCESSES && va < 0x1_0000_0000
      ensures Reachable(pid, va) <==>
        && Built(pid)
        && (va / FOUR_MB == IMAGE_DIR || (va / FOUR_KB == USER_PAGE_BOTTOM / FOUR_KB && pageDir[pid, VIDEO_DIR] != 0x2))
      ensures Reachable(pid, va) && va / FOUR_MB == IMAGE_DIR ==>
        Translate(pid, va).phys == FOUR_MB * (pid + 1) + va % FOUR_MB
      ensures Reachable(pid, va) && va / FOUR_MB != IMAGE_DIR ==>
        VIDEO <= Translate(pid, va).phys < VIDEO_2 + FOUR_KB
    {
      assert Built(pid) || Unused(pid);
      if Built(pid) {
        AddressSpace(pid, va);
      }
    }

    /** User code reaches no memory below 8 MB, where the kernel lives, except video pages. */
    lemma {:induction false} KernelUnreachable(pid: nat, va: nat)
      requires Valid() && 1 <= pid <= MAX_PROCESSES && va < 0x1_0000_0000 && Reachable(pid, va)
      ensures Translate(pid, va).phys >= 2 * FOUR_MB || VIDEO <= Translate(pid, va).phys < VIDEO_2 + FOUR_KB
    {
      UserReach(pid, va);
    }

    /** Two processes share nothing but video pages. */
    lemma {:induction false} Isolated(p: nat, va: nat, q: nat, vb: nat)
      requires Valid() && 1 <= p <= MAX_PROCESSES && 1 <= q <= MAX_PROCESSES && p != q
      requires va < 0x1_0000_0000 && vb < 0x1_0000_0000
      requires Reachable(p, va) && Reachable(q, vb)
      ensures Translate(p, va).phys == Translate(q, vb).phys ==> VIDEO <= Translate(p, va).phys < VIDEO_2 + FOUR_KB
    {
      UserReach(p, va);
      UserReach(q, vb);
    }
  }
}
