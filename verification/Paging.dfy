/** The page allocator (src/util/paging.rs): bump allocation in pages taken from a backing allocator,
    page reclaim by counting, and poisoning of a heap in which something was freed. */
module Paging {
  import opened Values
  import opened Numbers

  datatype AllocError = AllocationFailed | HeapPoisoned | PageTooSmall | OutOfMemory | Refused

  datatype Block = Block(addr: nat, size: nat, align: nat)

  predicate Apart(a: Block, b: Block) { a.addr + a.size <= b.addr || b.addr + b.size <= a.addr }

  /** Bytes from `ptr` up to `ptr + size`. */
  predicate Inside(b: Block, ptr: nat, size: nat) { ptr <= b.addr && b.addr + b.size <= ptr + size }

  predicate RegionsApart(p: nat, q: nat, size: nat) { p + size <= q || q + size <= p }

  // ----- the backing allocator -----

  datatype Event = Granted(addr: nat) | Denied | GivenBack(addr: nat)

  /** The pages taken and not given back. */
  function Outstanding(history: seq<Event>): set<nat> {
    if history == [] then {}
    else
      var before := Outstanding(history[..|history| - 1]);
      match history[|history| - 1]
      case Granted(a) => before + {a}
      case Denied => before
      case GivenBack(a) => before - {a}
  }

  /** Whoever provides the pages: its answer may depend on everything that happened before. */
  class Backing {
    const pageSize: nat
    const answer: seq<Event> -> Option<nat>
    var history: seq<Event>

    /** Pages are aligned, and a new page overlaps none that is still out. */
    ghost predicate WellBehaved()
      reads this
    {
      forall h: seq<Event> :: Proper(h)
    }

    ghost predicate Proper(h: seq<Event>) {
      answer(h).Some? ==>
        answer(h).value % 8 == 0 && forall p :: p in Outstanding(h) ==> RegionsApart(p, answer(h).value, pageSize)
    }

    constructor (pageSize: nat, answer: seq<Event> -> Option<nat>)
      ensures this.pageSize == pageSize && this.answer == answer && history == []
    {
      this.pageSize, this.answer, history := pageSize, answer, [];
    }

    ghost function Out(): set<nat>
      reads this
    {
      Outstanding(history)
    }

    method Alloc() returns (addr: Option<nat>)
      requires WellBehaved()
      modifies this
      ensures WellBehaved() && addr == answer(old(history))
      ensures addr.None? ==> Out() == old(Out())
      ensures addr.Some? ==> Out() == old(Out()) + {addr.value} && addr.value % 8 == 0
      ensures addr.Some? ==> forall p :: p in old(Out()) ==> RegionsApart(p, addr.value, pageSize)
    {
      addr := answer(history);
      assert Proper(history);
      var e := if addr.Some? then Granted(addr.value) else Denied;
      assert (history + [e])[..|history|] == history;
      history := history + [e];
    }

    method Dealloc(addr: nat)
      modifies this
      ensures Out() == old(Out()) - {addr}
      ensures old(WellBehaved()) ==> WellBehaved()
    {
      assert (history + [GivenBack(addr)])[..|history|] == history;
      history := history + [GivenBack(addr)];
    }
  }

  // ----- one page -----

  /** The first address from `start` on that is a multiple of `align`. */
  function AlignUp(start: nat, align: nat): (a: nat)
    requires align > 0
  {
    if start % align == 0 then start else start + (align - start % align)
  }

  lemma AlignUpLeast(start: nat, align: nat)
    requires align > 0
    ensures var a := AlignUp(start, align);
            a % align == 0 && start <= a && forall b :: start <= b && b % align == 0 ==> a <= b
  {
    var (q, m) := (start / align, start % align);
    assert start == q * align + m;
    if m != 0 {
      assert AlignUp(start, align) == (q + 1) * align;
      MulMod(q + 1, align);
    }
    forall b | start <= b && b % align == 0 ensures AlignUp(start, align) <= b {
      var k := b / align;
      assert b == k * align;
      NoMultipleBetween(k, q, align);
      if m == 0 { MulLess(k, q, align); }
    }
  }

  lemma NoMultipleBetween(k: nat, q: nat, n: nat)
    requires n > 0
    ensures !(q * n < k * n < (q + 1) * n)
  {
    MulLess(q, k, n);
    MulLess(k, q + 1, n);
  }

  /** The book-keeping of one page; it lies in the allocator's table and is updated there. */
  datatype Page = Page(ptr: nat, size: nat, used: nat, nAllocations: nat, wasted: nat)
  {
    /** `Page::alloc`: the address of the new block, and the page with it. */
    function Alloc(bytes: nat, align: nat): Option<(nat, Page)>
      requires align > 0
    {
      var start_address := ptr + used;
      var aligned_start := AlignUp(start_address, align);
      var final_offset := (aligned_start - ptr) + bytes;
      if final_offset <= size then
        Some((aligned_start,
              Page(ptr, size, final_offset, nAllocations + 1, wasted + (aligned_start - start_address))))
      else None
    }

    predicate Owns(addr: nat) { ptr <= addr < ptr + size }

    /** `Page::dealloc` of an address of this page. */
    function Dealloc(): Page
      requires nAllocations > 0
    {
      this.(nAllocations := nAllocations - 1)
    }
  }

  /** What a page is used for: the blocks in use, and the bytes handed out since it was taken. */
  datatype Use = Use(live: set<Block>, handed: nat)

  predicate BlocksApart(bs: set<Block>) { forall b, c :: b in bs && c in bs && b != c ==> Apart(b, c) }

  /** The count of a page is the number of its blocks in use; they are aligned, inside the part of the
      page handed out, and overlap nowhere; what was handed out and what was lost to alignment make up
      the used part. */
  predicate PageOk(p: Page, u: Use) {
    && p.used <= p.size && p.nAllocations == |u.live| && p.used == p.wasted + u.handed
    && (forall b :: b in u.live ==> b.size > 0 && b.align > 0 && b.addr % b.align == 0 && Inside(b, p.ptr, p.used))
    && BlocksApart(u.live)
  }

  /** A new block goes to the first aligned address behind all others, exactly when it fits there. */
  lemma AllocOk(p: Page, u: Use, bytes: nat, align: nat)
    requires PageOk(p, u) && bytes > 0 && align > 0
    ensures p.Alloc(bytes, align).Some? <==> AlignUp(p.ptr + p.used, align) + bytes <= p.ptr + p.size
    ensures p.Alloc(bytes, align).Some? ==>
              var (addr, p') := p.Alloc(bytes, align).value;
              var b := Block(addr, bytes, align);
              && PageOk(p', Use(u.live + {b}, u.handed + bytes)) && b !in u.live
              && p'.ptr == p.ptr && p'.size == p.size && addr % align == 0
  {
    AlignUpLeast(p.ptr + p.used, align);
    if p.Alloc(bytes, align).Some? {
      var (addr, p') := p.Alloc(bytes, align).value;
      var b := Block(addr, bytes, align);
      forall c | c in u.live ensures Apart(c, b) && Inside(c, p.ptr, p'.used) {
        assert Inside(c, p.ptr, p.used);
      }
    }
  }

  lemma DeallocOk(p: Page, u: Use, b: Block)
    requires PageOk(p, u) && b in u.live
    ensures p.nAllocations > 0 && PageOk(p.Dealloc(), Use(u.live - {b}, u.handed))
    ensures p.Dealloc().nAllocations == 0 <==> u.live - {b} == {}
  {
    assert |u.live - {b}| == |u.live| - 1;
  }

  // ----- the table of pages -----

  predicate PairOk(p: Option<Page>, q: Option<Page>, size: nat) {
    p.Some? && q.Some? ==> RegionsApart(p.value.ptr, q.value.ptr, size)
  }

  predicate SlotOk(p: Option<Page>, u: Use, size: nat) {
    if p.Some? then p.value.size == size && PageOk(p.value, u) && u.live != {} else u.live == {}
  }

  predicate TableOk(ps: seq<Option<Page>>, us: seq<Use>, size: nat) {
    && |us| == |ps|
    && (forall i :: 0 <= i < |ps| ==> SlotOk(ps[i], us[i], size))
    && (forall i, j :: 0 <= i < |ps| && 0 <= j < |ps| && i != j ==> PairOk(ps[i], ps[j], size))
  }

  /** Resident pages come first in the table. */
  predicate Prefix(ps: seq<Option<Page>>) {
    forall i, j :: 0 <= i < j < |ps| && ps[j].Some? ==> ps[i].Some?
  }

  /** The addresses of the pages in the table. */
  function Resident(ps: seq<Option<Page>>): set<nat> {
    set i | 0 <= i < |ps| && ps[i].Some? :: ps[i].value.ptr
  }

  /** All blocks in use. */
  function Live(us: seq<Use>): set<Block> {
    set i, b | 0 <= i < |us| && b in us[i].live :: b
  }

  lemma BlockPlace(ps: seq<Option<Page>>, us: seq<Use>, size: nat, i: nat, b: Block)
    requires TableOk(ps, us, size) && i < |us| && b in us[i].live
    ensures b.size > 0 && b.align > 0 && b.addr % b.align == 0
    ensures ps[i].Some? && ps[i].value.ptr in Resident(ps) && Inside(b, ps[i].value.ptr, size)
  {
    assert SlotOk(ps[i], us[i], size);
    assert Inside(b, ps[i].value.ptr, ps[i].value.used);
  }

  lemma TwoBlocks(ps: seq<Option<Page>>, us: seq<Use>, size: nat, i: nat, j: nat, b: Block, c: Block)
    requires TableOk(ps, us, size) && i < |us| && j < |us| && b in us[i].live && c in us[j].live && b != c
    ensures Apart(b, c)
  {
    if i == j {
      assert SlotOk(ps[i], us[i], size);
    } else {
      BlockPlace(ps, us, size, i, b);
      BlockPlace(ps, us, size, j, c);
      assert PairOk(ps[i], ps[j], size);
    }
  }

  /** Every block in use lies in a resident page, and no two blocks overlap, whatever their pages. */
  lemma LiveSafe(ps: seq<Option<Page>>, us: seq<Use>, size: nat)
    requires TableOk(ps, us, size)
    ensures BlocksApart(Live(us))
    ensures forall b :: b in Live(us) ==>
              b.size > 0 && b.align > 0 && b.addr % b.align == 0 && exists p :: p in Resident(ps) && Inside(b, p, size)
  {
    hide TableOk, Inside, Apart, Resident;
    forall b | b in Live(us)
      ensures b.size > 0 && b.align > 0 && b.addr % b.align == 0 && exists p :: p in Resident(ps) && Inside(b, p, size)
    {
      var i :| 0 <= i < |us| && b in us[i].live;
      BlockPlace(ps, us, size, i, b);
    }
    forall b, c | b in Live(us) && c in Live(us) && b != c ensures Apart(b, c) {
      var i :| 0 <= i < |us| && b in us[i].live;
      var j :| 0 <= j < |us| && c in us[j].live;
      TwoBlocks(ps, us, size, i, j, b, c);
    }
  }

  /** Replacing one entry of the table. */
  lemma Replaced(ps: seq<Option<Page>>, us: seq<Use>, size: nat, i: nat, p: Option<Page>, u: Use)
    requires TableOk(ps, us, size) && i < |ps| && SlotOk(p, u, size)
    requires forall j :: 0 <= j < |ps| && j != i ==> PairOk(p, ps[j], size)
    ensures TableOk(ps[i := p], us[i := u], size)
    ensures Live(us[i := u]) == Live(us) - us[i].live + u.live
  {
    var qs := ps[i := p];
    forall j, k | 0 <= j < |qs| && 0 <= k < |qs| && j != k ensures PairOk(qs[j], qs[k], size) {
      assert PairOk(ps[j], ps[k], size);
      if k == i { assert PairOk(p, ps[j], size); }
    }
    ReplacedLive(ps, us, size, i, p, u);
  }

  lemma ReplacedLive(ps: seq<Option<Page>>, us: seq<Use>, size: nat, i: nat, p: Option<Page>, u: Use)
    requires TableOk(ps, us, size) && i < |ps|
    ensures Live(us[i := u]) == Live(us) - us[i].live + u.live
  {
    var us' := us[i := u];
    forall b | b in Live(us') ensures b in Live(us) - us[i].live + u.live {
      var j :| 0 <= j < |us'| && b in us'[j].live;
      if j != i { OneOwner(ps, us, size, j, i, b); }
    }
    var after := Live(us) - us[i].live + u.live;
    forall b | b in after ensures b in Live(us') {
      if b in u.live {
        assert b in us'[i].live;
      } else {
        var j :| 0 <= j < |us| && b in us[j].live;
        assert b in us'[j].live;
      }
    }
  }

  /** A block belongs to one page only. */
  lemma OneOwner(ps: seq<Option<Page>>, us: seq<Use>, size: nat, i: nat, j: nat, b: Block)
    requires TableOk(ps, us, size) && i < |ps| && j < |ps| && i != j && b in us[i].live
    ensures b !in us[j].live && ps[i].Some? && ps[i].value.Owns(b.addr)
    ensures ps[j].Some? ==> !ps[j].value.Owns(b.addr)
  {
    BlockPlace(ps, us, size, i, b);
    assert PairOk(ps[i], ps[j], size) && SlotOk(ps[j], us[j], size);
    assert b in us[j].live ==> ps[j].Some? && Inside(b, ps[j].value.ptr, ps[j].value.used);
  }

  lemma ResidentReplaced(ps: seq<Option<Page>>, i: nat, p: Option<Page>)
    requires i < |ps|
    requires forall j :: 0 <= j < |ps| && j != i && ps[j].Some? && ps[i].Some? ==> ps[j].value.ptr != ps[i].value.ptr
    ensures Resident(ps[i := p]) ==
            (if ps[i].Some? then Resident(ps) - {ps[i].value.ptr} else Resident(ps))
            + (if p.Some? then {p.value.ptr} else {})
  {
    var qs := ps[i := p];
    var want := (if ps[i].Some? then Resident(ps) - {ps[i].value.ptr} else Resident(ps))
        + (if p.Some? then {p.value.ptr} else {});
    forall a | a in want ensures a in Resident(qs) {
      if p.Some? && a == p.value.ptr {
        assert qs[i] == p;
      } else {
        var j :| 0 <= j < |ps| && ps[j].Some? && ps[j].value.ptr == a;
        assert qs[j] == ps[j];
      }
    }
    forall a | a in Resident(qs) ensures a in want {
      var j :| 0 <= j < |qs| && qs[j].Some? && qs[j].value.ptr == a;
      if j != i { assert ps[j] == qs[j] && a in Resident(ps); }
    }
  }

  /** Where the table leads an allocation: the first page with room, or an empty place before it. */
  function FirstFit(ps: seq<Option<Page>>, bytes: nat, align: nat): (i: nat)
    requires align > 0
    ensures i <= |ps|
    ensures i < |ps| ==> ps[i].None? || ps[i].value.Alloc(bytes, align).Some?
    ensures forall j :: 0 <= j < i ==> ps[j].Some? && ps[j].value.Alloc(bytes, align).None?
  {
    if ps == [] || ps[0].None? || ps[0].value.Alloc(bytes, align).Some? then 0
    else
      assert forall j :: 1 <= j < |ps| ==> ps[j] == ps[1..][j - 1];
      1 + FirstFit(ps[1..], bytes, align)
  }

  /** As long as nothing was freed, only a new page is taken when no resident page has room. */
  lemma FitsResident(ps: seq<Option<Page>>, bytes: nat, align: nat)
    requires align > 0 && Prefix(ps)
    ensures var i := FirstFit(ps, bytes, align);
            (i < |ps| && ps[i].Some?) <==>
            exists j :: 0 <= j < |ps| && ps[j].Some? && ps[j].value.Alloc(bytes, align).Some?
  {
    var i := FirstFit(ps, bytes, align);
    if i < |ps| && ps[i].Some? { assert ps[i].value.Alloc(bytes, align).Some?; }
  }

  lemma FitIs(ps: seq<Option<Page>>, bytes: nat, align: nat, i: nat)
    requires align > 0 && i <= |ps|
    requires forall j :: 0 <= j < i ==> ps[j].Some? && ps[j].value.Alloc(bytes, align).None?
    requires i < |ps| ==> ps[i].None? || ps[i].value.Alloc(bytes, align).Some?
    ensures FirstFit(ps, bytes, align) == i
  {
  }

  /** The table after a successful allocation at `addr`: one entry holds the block. */
  ghost predicate Placed(
    ps: seq<Option<Page>>, qs: seq<Option<Page>>, i: nat, size: nat, bytes: nat, align: nat, addr: nat)
    requires align > 0
  {
    && i < |ps|
    && if ps[i].Some? then
         ps[i].value.Alloc(bytes, align).Some?
         && var (a, p) := ps[i].value.Alloc(bytes, align).value; addr == a && qs == ps[i := Some(p)]
       else
         exists ptr :: Fresh(ps, qs, i, ptr, size, bytes, align, addr)
  }

  /** Entry `i` is a new page at `ptr` with its first block. */
  predicate Fresh(
    ps: seq<Option<Page>>, qs: seq<Option<Page>>, i: nat, ptr: nat, size: nat, bytes: nat, align: nat, addr: nat)
    requires align > 0 && i < |ps|
  {
    var a := Page(ptr, size, 0, 0, 0).Alloc(bytes, align);
    a.Some? && addr == a.value.0 && qs == ps[i := Some(a.value.1)]
  }

  // ----- the allocator -----

  class PageAllocator {
    const backing: Backing
    const pageSize: nat
    const pages: array<Option<Page>>
    var poisoned: bool
    /** What each page of the table is used for. */
    ghost var uses: seq<Use>

    ghost predicate Valid()
      reads this, backing, pages
    {
      && pageSize > 0 && backing.WellBehaved() && backing.pageSize == pageSize
      && TableOk(pages[..], uses, pageSize)
      && backing.Out() == Resident(pages[..])
      && (!poisoned ==> Prefix(pages[..]))
      && (poisoned ==> Resident(pages[..]) != {})
    }

    /** The blocks in use. */
    ghost function InUse(): set<Block>
      reads this
    {
      Live(uses)
    }

    constructor (backing: Backing, pageSize: nat, maxPages: nat)
      requires pageSize > 0 && backing.WellBehaved() && backing.pageSize == pageSize && backing.Out() == {}
      ensures Valid() && !poisoned && InUse() == {} && this.backing == backing && this.pageSize == pageSize
      ensures fresh(pages) && pages.Length == maxPages
    {
      this.backing, this.pageSize, poisoned := backing, pageSize, false;
      pages := new Option<Page>[maxPages](_ => None);
      uses := seq(maxPages, _ => Use({}, 0));
    }

    /** What comes of asking for a new page: the backing allocator refuses it, or the block does not fit
        even there, or the block is its first. */
    predicate TakesNew(granted: Option<nat>, bytes: nat, align: nat, r: Result<nat, AllocError>)
      requires align > 0
    {
      match granted
      case None => r == Err(Refused)
      case Some(ptr) =>
        var a := Page(ptr, pageSize, 0, 0, 0).Alloc(bytes, align);
        r == if a.Some? then Ok(a.value.0) else Err(PageTooSmall)
    }

    /** `alloc`: the first page with room gets the block, the first empty place a new page. */
    method Alloc(bytes: nat, align: nat) returns (r: Result<nat, AllocError>)
      requires Valid() && align > 0
      modifies this`uses, pages, backing
      ensures Valid()
      ensures bytes == 0 ==> r == Err(AllocationFailed)
      ensures bytes > 0 && poisoned ==> r == Err(HeapPoisoned)
      ensures r.Err? ==> InUse() == old(InUse()) && pages[..] == old(pages[..])
      ensures bytes > 0 && !poisoned ==> var i := FirstFit(old(pages[..]), bytes, align);
                && (r == Err(OutOfMemory) <==> i == pages.Length)
                && (i < pages.Length && old(pages[..])[i].Some? ==> r.Ok?)
                && (i < pages.Length && old(pages[..])[i].None? ==>
                    TakesNew(backing.answer(old(backing.history)), bytes, align, r))
                && (r.Ok? ==> Placed(old(pages[..]), pages[..], i, pageSize, bytes, align, r.value))
      ensures r.Ok? ==>
                var b := Block(r.value, bytes, align);
                b !in old(InUse()) && InUse() == old(InUse()) + {b} && BlocksApart(InUse())
    {
      if bytes == 0 { return Err(AllocationFailed); }
      if poisoned { return Err(HeapPoisoned); }
      ghost var ps := pages[..];
      var i := 0;
      while i < pages.Length
        invariant 0 <= i <= pages.Length
        invariant forall j :: 0 <= j < i ==> pages[j].Some? && pages[j].value.Alloc(bytes, align).None?
      {
        if pages[i].None? {
          FitIs(ps, bytes, align, i);
          r := AllocInNewPage(i, bytes, align);
          return;
        }
        var a := pages[i].value.Alloc(bytes, align);
        if a.Some? {
          FitIs(ps, bytes, align, i);
          ReplacePage(i, a.value.1, bytes, align);
          return Ok(a.value.0);
        }
        i := i + 1;
      }
      FitIs(ps, bytes, align, i);
      r := Err(OutOfMemory);
    }

    /** A page with room. */
    method ReplacePage(i: nat, p: Page, bytes: nat, align: nat)
      requires Valid() && align > 0 && bytes > 0 && i < pages.Length && pages[i].Some? && !poisoned
      requires pages[i].value.Alloc(bytes, align).Some? && p == pages[i].value.Alloc(bytes, align).value.1
      modifies this`uses, pages
      ensures Valid() && pages[..] == old(pages[..])[i := Some(p)]
      ensures var b := Block(old(pages[i].value.Alloc(bytes, align)).value.0, bytes, align);
              b !in old(InUse()) && InUse() == old(InUse()) + {b} && BlocksApart(InUse())
    {
      ghost var (ps, us) := (pages[..], uses);
      ghost var b := Block(ps[i].value.Alloc(bytes, align).value.0, bytes, align);
      Bumped(ps, us, pageSize, i, bytes, align);
      pages[i] := Some(p);
      uses := us[i := Use(us[i].live + {b}, us[i].handed + bytes)];
      assert pages[..] == ps[i := Some(p)];
      LiveSafe(pages[..], uses, pageSize);
    }

    /** The first empty place: a new page, if the backing allocator has one and the block fits it. */
    method AllocInNewPage(i: nat, bytes: nat, align: nat) returns (r: Result<nat, AllocError>)
      requires Valid() && !poisoned && align > 0 && bytes > 0 && i < pages.Length && pages[i].None?
      requires forall j :: 0 <= j < i ==> pages[j].Some?
      modifies this`uses, pages, backing
      ensures Valid() && r != Err(OutOfMemory)
      ensures r.Err? ==> InUse() == old(InUse()) && pages[..] == old(pages[..])
      ensures r.Ok? ==> Placed(old(pages[..]), pages[..], i, pageSize, bytes, align, r.value)
      ensures TakesNew(backing.answer(old(backing.history)), bytes, align, r)
      ensures r.Ok? ==>
                var b := Block(r.value, bytes, align);
                b !in old(InUse()) && InUse() == old(InUse()) + {b} && BlocksApart(InUse())
    {
      ghost var (ps, us) := (pages[..], uses);
      var addr := backing.Alloc();
      if addr.None? { return Err(Refused); }
      var page := Page(addr.value, pageSize, 0, 0, 0);
      ghost var none: set<Block> := {};
      assert PageOk(page, Use(none, 0));
      var a := page.Alloc(bytes, align);
      NewPage(ps, us, pageSize, i, page, bytes, align);
      if a.None? {
        backing.Dealloc(addr.value);
        return Err(PageTooSmall);
      }
      ghost var b := Block(a.value.0, bytes, align);
      pages[i] := Some(a.value.1);
      uses := us[i := Use({b}, bytes)];
      assert pages[..] == ps[i := Some(a.value.1)];
      LiveSafe(pages[..], uses, pageSize);
      assert Fresh(ps, pages[..], i, addr.value, pageSize, bytes, align, a.value.0);
      r := Ok(a.value.0);
    }

    /** No resident page has this address. */
    ghost predicate Foreign(addr: nat)
      reads pages
    {
      forall i :: 0 <= i < pages.Length && pages[i].Some? ==> !pages[i].value.Owns(addr)
    }

    /** `dealloc` of a block in use. It poisons the heap until nothing is in use any more; then every
        page has gone back to the backing allocator. A foreign address is ignored. */
    method Dealloc(addr: nat, ghost b: Option<Block>)
      requires Valid() && if b.Some? then b.value in InUse() && b.value.addr == addr else Foreign(addr)
      modifies this`uses, this`poisoned, pages, backing
      ensures Valid()
      ensures b.Some? ==>
                && InUse() == old(InUse()) - {b.value} && (poisoned <==> InUse() != {})
                && (InUse() == {} ==> backing.Out() == {})
      ensures b.None? ==>
                && pages[..] == old(pages[..]) && uses == old(uses) && poisoned == old(poisoned)
                && backing.Out() == old(backing.Out())
    {
      ghost var k: nat := pages.Length;
      if b.Some? { k :| 0 <= k < |uses| && b.value in uses[k].live; }
      ghost var (ps, us) := (pages[..], uses);
      for i := 0 to pages.Length
        invariant i <= k && pages[..] == ps && uses == us && Valid() && InUse() == old(InUse())
        invariant poisoned == old(poisoned) && backing.Out() == old(backing.Out())
      {
        if pages[i].Some? && pages[i].value.Owns(addr) {
          if i != k { OneOwner(ps, us, pageSize, k, i, b.value); }
          Release(i, b.value);
          return;
        }
        if b.Some? { BlockPlace(ps, us, pageSize, k, b.value); }
      }
    }

    /** The block is this page's. */
    method Release(i: nat, ghost b: Block)
      requires Valid() && i < pages.Length && i < |uses| && b in uses[i].live
      modifies this`uses, this`poisoned, pages, backing
      ensures Valid() && InUse() == old(InUse()) - {b}
      ensures poisoned <==> InUse() != {}
      ensures InUse() == {} ==> backing.Out() == {}
    {
      ghost var (ps, us) := (pages[..], uses);
      Dropped(ps, us, pageSize, i, b);
      var page := pages[i].value.Dealloc();
      poisoned := true;
      if page.nAllocations == 0 {
        backing.Dealloc(page.ptr);
        pages[i] := None;
      } else {
        pages[i] := Some(page);
      }
      uses := us[i := Use(us[i].live - {b}, us[i].handed)];
      assert pages[..] == ps[i := if page.nAllocations == 0 then None else Some(page)];
      EmptyHeap(pages[..], uses, pageSize);
      var empty := AllNone();
      if empty { poisoned := false; }
    }

    method AllNone() returns (all: bool)
      ensures all <==> forall i :: 0 <= i < pages.Length ==> pages[i].None?
    {
      for i := 0 to pages.Length
        invariant forall j :: 0 <= j < i ==> pages[j].None?
      {
        if pages[i].Some? { return false; }
      }
      all := true;
    }

    /** `drop`: the pages go back in reverse order. */
    method Drop()
      requires Valid()
      modifies pages, backing
      ensures backing.Out() == {}
    {
      var i := pages.Length;
      ghost var ps := pages[..];
      while i > 0
        invariant 0 <= i <= pages.Length
        invariant forall j :: 0 <= j < i ==> pages[j] == ps[j]
        invariant backing.Out() == Resident(ps[..i])
        decreases i
      {
        i := i - 1;
        GiveBack(ps, i);
        if pages[i].Some? {
          backing.Dealloc(pages[i].value.ptr);
          pages[i] := None;
        }
      }
    }

    lemma GiveBack(ps: seq<Option<Page>>, i: nat)
      requires TableOk(ps, uses, pageSize) && i < |ps|
      ensures Resident(ps[..i])
           == if ps[i].Some? then Resident(ps[..i + 1]) - {ps[i].value.ptr} else Resident(ps[..i + 1])
    {
      Distinct(ps, uses, pageSize, i);
      var (qs, rs) := (ps[..i], ps[..i + 1]);
      forall a | a in Resident(rs) && (ps[i].Some? ==> a != ps[i].value.ptr) ensures a in Resident(qs) {
        var j :| 0 <= j < |rs| && rs[j].Some? && rs[j].value.ptr == a;
        assert qs[j] == rs[j];
      }
      forall a | a in Resident(qs) ensures a in Resident(rs) && (ps[i].Some? ==> a != ps[i].value.ptr) {
        var j :| 0 <= j < |qs| && qs[j].Some? && qs[j].value.ptr == a;
        assert rs[j] == qs[j];
      }
    }
  }

  /** A block less in a page of the table; an empty page goes. */
  lemma Dropped(ps: seq<Option<Page>>, us: seq<Use>, size: nat, i: nat, b: Block)
    requires TableOk(ps, us, size) && i < |ps| && b in us[i].live
    ensures ps[i].Some? && ps[i].value.nAllocations > 0
    ensures var p := ps[i].value.Dealloc();
            var p' := if p.nAllocations == 0 then None else Some(p);
            var us' := us[i := Use(us[i].live - {b}, us[i].handed)];
            && TableOk(ps[i := p'], us', size) && Live(us') == Live(us) - {b}
            && Resident(ps[i := p']) == if p.nAllocations == 0 then Resident(ps) - {ps[i].value.ptr} else Resident(ps)
  {
    hide Resident, Live, TableOk, SlotOk, PairOk;
    DroppedSlot(ps, us, size, i, b);
    var p := ps[i].value.Dealloc();
    var p' := if p.nAllocations == 0 then None else Some(p);
    Replaced(ps, us, size, i, p', Use(us[i].live - {b}, us[i].handed));
    Distinct(ps, us, size, i);
    ResidentReplaced(ps, i, p');
    HasAddress(ps, i);
    LiveLess(ps, us, size, i, b);
  }

  lemma DroppedSlot(ps: seq<Option<Page>>, us: seq<Use>, size: nat, i: nat, b: Block)
    requires TableOk(ps, us, size) && i < |ps| && b in us[i].live
    ensures |us| == |ps| && ps[i].Some? && ps[i].value.nAllocations > 0
    ensures var p := ps[i].value.Dealloc();
            var p' := if p.nAllocations == 0 then None else Some(p);
            && SlotOk(p', Use(us[i].live - {b}, us[i].handed), size)
            && forall j :: 0 <= j < |ps| && j != i ==> PairOk(p', ps[j], size)
  {
    hide Apart, Inside;
    assert SlotOk(ps[i], us[i], size);
    DeallocOk(ps[i].value, us[i], b);
    var p := ps[i].value.Dealloc();
    var p' := if p.nAllocations == 0 then None else Some(p);
    forall j | 0 <= j < |ps| && j != i ensures PairOk(p', ps[j], size) {
      assert PairOk(ps[i], ps[j], size);
    }
  }

  lemma HasAddress(ps: seq<Option<Page>>, i: nat)
    requires i < |ps| && ps[i].Some?
    ensures ps[i].value.ptr in Resident(ps)
  {
  }

  lemma LiveLess(ps: seq<Option<Page>>, us: seq<Use>, size: nat, i: nat, b: Block)
    requires TableOk(ps, us, size) && i < |us| && b in us[i].live
    ensures Live(us) - us[i].live + (us[i].live - {b}) == Live(us) - {b}
  {
    assert us[i].live <= Live(us);
  }

  /** The heap is empty exactly when no page is left. */
  lemma EmptyHeap(ps: seq<Option<Page>>, us: seq<Use>, size: nat)
    requires TableOk(ps, us, size)
    ensures Live(us) == {} <==> Resident(ps) == {}
    ensures Resident(ps) == {} <==> forall i :: 0 <= i < |ps| ==> ps[i].None?
  {
    if i :| 0 <= i < |ps| && ps[i].Some? {
      assert SlotOk(ps[i], us[i], size) && ps[i].value.ptr in Resident(ps);
      var b :| b in us[i].live;
      assert b in Live(us);
    } else {
      forall j | 0 <= j < |us| ensures us[j].live == {} { assert SlotOk(ps[j], us[j], size); }
    }
  }

  /** A block in the room of a page apart from all others is in use nowhere else. */
  lemma NotYetLive(ps: seq<Option<Page>>, us: seq<Use>, size: nat, i: nat, ptr: nat, b: Block, mine: set<Block>)
    requires TableOk(ps, us, size) && i < |ps| && us[i].live == mine && b !in mine && b.size > 0
    requires Inside(b, ptr, size)
    requires forall j :: 0 <= j < |ps| && j != i && ps[j].Some? ==> RegionsApart(ps[j].value.ptr, ptr, size)
    ensures b !in Live(us)
  {
    forall j | 0 <= j < |us| ensures b !in us[j].live {
      assert SlotOk(ps[j], us[j], size);
      assert j != i && b in us[j].live ==> ps[j].Some? && Inside(b, ps[j].value.ptr, ps[j].value.used);
    }
  }

  /** A block more in a page of the table. */
  lemma Bumped(ps: seq<Option<Page>>, us: seq<Use>, size: nat, i: nat, bytes: nat, align: nat)
    requires TableOk(ps, us, size) && i < |ps| && ps[i].Some? && bytes > 0 && align > 0 && Prefix(ps)
    requires ps[i].value.Alloc(bytes, align).Some?
    ensures var (addr, p) := ps[i].value.Alloc(bytes, align).value;
            var b := Block(addr, bytes, align);
            var us' := us[i := Use(us[i].live + {b}, us[i].handed + bytes)];
            && TableOk(ps[i := Some(p)], us', size) && Live(us') == Live(us) + {b} && b !in Live(us)
            && Resident(ps[i := Some(p)]) == Resident(ps) && Prefix(ps[i := Some(p)])
  {
    hide Prefix, Resident, Apart;
    assert SlotOk(ps[i], us[i], size);
    AllocOk(ps[i].value, us[i], bytes, align);
    var (addr, p) := ps[i].value.Alloc(bytes, align).value;
    var b := Block(addr, bytes, align);
    var u := Use(us[i].live + {b}, us[i].handed + bytes);
    forall j | 0 <= j < |ps| && j != i
      ensures PairOk(Some(p), ps[j], size) && (ps[j].Some? ==> RegionsApart(ps[j].value.ptr, p.ptr, size))
    {
      assert PairOk(ps[i], ps[j], size);
    }
    Replaced(ps, us, size, i, Some(p), u);
    assert Inside(b, p.ptr, p.used);
    NotYetLive(ps, us, size, i, p.ptr, b, us[i].live);
    BumpedPlaces(ps, us, size, i, p);
    LiveMore(us, i, b);
  }

  lemma LiveMore(us: seq<Use>, i: nat, b: Block)
    requires i < |us|
    ensures Live(us) - us[i].live + (us[i].live + {b}) == Live(us) + {b}
  {
  }

  lemma BumpedPlaces(ps: seq<Option<Page>>, us: seq<Use>, size: nat, i: nat, p: Page)
    requires TableOk(ps, us, size) && i < |ps| && ps[i].Some? && Prefix(ps) && p.ptr == ps[i].value.ptr
    ensures Resident(ps[i := Some(p)]) == Resident(ps) && Prefix(ps[i := Some(p)])
  {
    Distinct(ps, us, size, i);
    ResidentReplaced(ps, i, Some(p));
    assert ps[i].value.ptr in Resident(ps);
  }

  lemma Distinct(ps: seq<Option<Page>>, us: seq<Use>, size: nat, i: nat)
    requires TableOk(ps, us, size) && i < |ps|
    ensures forall j :: 0 <= j < |ps| && j != i && ps[j].Some? && ps[i].Some? ==> ps[j].value.ptr != ps[i].value.ptr
  {
    forall j | 0 <= j < |ps| && j != i && ps[j].Some? && ps[i].Some? ensures ps[j].value.ptr != ps[i].value.ptr {
      assert PairOk(ps[j], ps[i], size) && SlotOk(ps[i], us[i], size);
      var b :| b in us[i].live;
      assert Inside(b, ps[i].value.ptr, ps[i].value.used);
    }
  }

  /** A new page with its first block in an empty place of the table. */
  lemma NewPage(ps: seq<Option<Page>>, us: seq<Use>, size: nat, i: nat, page: Page, bytes: nat, align: nat)
    requires TableOk(ps, us, size) && i < |ps| && ps[i].None? && bytes > 0 && align > 0 && size > 0
    requires page == Page(page.ptr, size, 0, 0, 0) && Prefix(ps)
    requires forall j :: 0 <= j < i ==> ps[j].Some?
    requires forall p :: p in Resident(ps) ==> RegionsApart(p, page.ptr, size)
    ensures page.ptr !in Resident(ps)
    ensures page.Alloc(bytes, align).Some? ==>
              var (addr, p) := page.Alloc(bytes, align).value;
              var b := Block(addr, bytes, align);
              var us' := us[i := Use({b}, bytes)];
              && TableOk(ps[i := Some(p)], us', size) && Live(us') == Live(us) + {b} && b !in Live(us)
              && Resident(ps[i := Some(p)]) == Resident(ps) + {page.ptr} && Prefix(ps[i := Some(p)])
  {
    var none: set<Block> := {};
    AllocOk(page, Use(none, 0), bytes, align);
    if page.Alloc(bytes, align).Some? {
      var (addr, p) := page.Alloc(bytes, align).value;
      var b := Block(addr, bytes, align);
      assert SlotOk(ps[i], us[i], size);
      assert none + {b} == {b};
      forall j | 0 <= j < |ps| && j != i ensures PairOk(Some(p), ps[j], size) {
        if ps[j].Some? { assert ps[j].value.ptr in Resident(ps); }
      }
      Replaced(ps, us, size, i, Some(p), Use({b}, bytes));
      ResidentReplaced(ps, i, Some(p));
      assert Inside(b, p.ptr, p.used);
      NotYetLive(ps, us, size, i, page.ptr, b, none);
    }
  }
}
