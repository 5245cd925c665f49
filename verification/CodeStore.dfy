/** The paged code store (src/text.rs, `CodeBuilder`): pages of 256 words that behave as one flat word
    sequence, and the two walks along a chain of unresolved slots. */
module CodeStore {
  import opened Values
  import opened Label
  import opened Ir
  import opened Text
  import opened Chains

  /** All words of the pages, the unused rest of the last page included. */
  ghost function PageWords(pages: seq<array<Word>>): (ws: seq<Word>)
    requires forall p :: p in pages ==> p.Length == PAGE_WORDS
    reads pages
    ensures |ws| == PAGE_WORDS * |pages|
  {
    seq(PAGE_WORDS * |pages|,
        i requires 0 <= i < PAGE_WORDS * |pages| && forall p :: p in pages ==> p.Length == PAGE_WORDS reads pages =>
          pages[i / PAGE_WORDS][i % PAGE_WORDS])
  }

  /** A word of the emitted code replaced, if it was emitted. */
  function Overwrite(ws: seq<Word>, a: nat, v: Word): seq<Word> { if a < |ws| then ws[a := v] else ws }

  class CodeBuilder {
    var pages: seq<array<Word>>
    var offset: nat
    const options: Options
    /** The pages as objects. */
    ghost var Repr: set<array<Word>>

    ghost predicate Valid()
      reads this, Repr
    {
      && (forall p :: p in pages ==> p in Repr && p.Length == PAGE_WORDS)
      && (forall i, j :: 0 <= i < j < |pages| ==> pages[i] != pages[j])
      && |pages| <= options.maxPages
      && offset <= PAGE_WORDS && (pages == [] ==> offset == 0)
    }

    /** Words written so far. */
    ghost function Used(): nat
      reads this
    {
      if pages == [] then 0 else PAGE_WORDS * (|pages| - 1) + offset
    }

    /** The emitted code as one sequence. */
    ghost function Contents(): (ws: seq<Word>)
      requires Valid()
      reads this, Repr
      ensures |ws| == Used()
    {
      PageWords(pages)[..Used()]
    }

    constructor (options: Options)
      ensures Valid() && Contents() == [] && this.options == options && Repr == {}
    {
      this.options := options;
      pages := [];
      offset := 0;
      Repr := {};
    }

    /** `pc`: on a full last page the address is that of the page to come. */
    method Pc() returns (pc: nat)
      requires Valid()
      ensures pc == |Contents()|
    {
      if offset == PAGE_WORDS {
        pc := PAGE_WORDS * |pages|;
      } else if pages == [] {
        pc := 0;
      } else {
        pc := PAGE_WORDS * (|pages| - 1) + offset;
      }
    }

    /** `add_page`, when no page has room. */
    method AddPage() returns (ok: bool)
      requires Valid() && (pages == [] || offset == PAGE_WORDS)
      modifies this
      ensures Valid() && fresh(Repr - old(Repr)) && Contents() == old(Contents())
      ensures ok <==> |old(pages)| < options.maxPages
      ensures ok ==> offset == 0 && pages != []
    {
      ghost var was := Contents();
      ghost var before := pages;
      ok := |pages| < options.maxPages;
      if ok {
        var page := new Word[PAGE_WORDS](_ => 0);
        pages := pages + [page];
        offset := 0;
        Repr := Repr + {page};
        assert forall i :: 0 <= i < |was| ==> was[i] == old(PageWords(pages))[i] == PageWords(pages)[i];
        assert Contents() == was;
      }
    }

    /** `push`: fails exactly when all pages are full. */
    method Push(c: Word) returns (ok: bool)
      requires Valid()
      modifies this, Repr
      ensures Valid() && fresh(Repr - old(Repr))
      ensures ok <==> |old(Contents())| < PAGE_WORDS * options.maxPages
      ensures Contents() == if ok then old(Contents()) + [c] else old(Contents())
    {
      ghost var was := Contents();
      if (offset == 0 && pages == []) || offset >= PAGE_WORDS {
        ok := AddPage();
        if !ok { return; }
      }
      ok := true;
      Put(c);
    }

    /** Write the next word of the last page. */
    method Put(c: Word)
      requires Valid() && pages != [] && offset < PAGE_WORDS
      modifies this, Repr
      ensures Valid() && Repr == old(Repr) && pages == old(pages) && Contents() == old(Contents()) + [c]
    {
      ghost var was := Contents();
      var last := |pages| - 1;
      pages[last][offset] := c;
      offset := offset + 1;
      forall i | 0 <= i < |was| ensures PageWords(pages)[i] == was[i] {
        assert old(PageWords(pages))[i] == was[i];
        assert i / PAGE_WORDS < last || (i / PAGE_WORDS == last && i % PAGE_WORDS < offset - 1);
      }
      assert |was| / PAGE_WORDS == last && |was| % PAGE_WORDS == offset - 1;
      assert Contents() == was + [c];
    }

    /** `read`: any word of the allocated pages can be read. */
    method Read(a: nat) returns (w: Option<Word>)
      requires Valid()
      ensures a < |Contents()| ==> w == Some(Contents()[a])
      ensures w.None? <==> a >= PAGE_WORDS * |pages|
    {
      var (page, at) := (a / PAGE_WORDS, a % PAGE_WORDS);
      if page >= |pages| {
        w := None;
      } else {
        w := Some(pages[page][at]);
      }
    }

    method Write(a: nat, v: Word) returns (ok: bool)
      requires Valid()
      modifies Repr
      ensures Valid() && (ok <==> a < PAGE_WORDS * |pages|)
      ensures Contents() == if a < |old(Contents())| then old(Contents())[a := v] else old(Contents())
    {
      var (page, at) := (a / PAGE_WORDS, a % PAGE_WORDS);
      ghost var was := Contents();
      if page >= |pages| {
        ok := false;
      } else {
        ok := true;
        pages[page][at] := v;
        forall i | 0 <= i < |was| ensures Contents()[i] == if i == a then v else was[i] {
          assert was[i] == old(PageWords(pages))[i];
          if i / PAGE_WORDS == page && i % PAGE_WORDS == at { assert i == a; }
        }
        assert Contents() == if a < |was| then was[a := v] else was;
      }
    }

    method Read32(a: nat) returns (d: Option<U32>)
      requires Valid()
      ensures SlotIn(Contents(), a) ==> d == Some(Slot(Contents(), a))
      ensures d.None? <==> a + 1 >= PAGE_WORDS * |pages|
    {
      var lo := Read(a);
      if lo.None? { return None; }
      var hi := Read(a + 1);
      if hi.None? { return None; }
      var (l: int, h: int) := (lo.value, hi.value);
      d := Some(l + h * 0x1_0000);
    }

    /** `write_32`: of a slot already emitted both words change; in general, those that were emitted. It
        fails exactly if one of them lies outside the pages, with the first one written if it does not. */
    method Write32(a: nat, d: U32) returns (ok: bool)
      requires Valid()
      modifies Repr
      ensures Valid() && (ok <==> a + 1 < PAGE_WORDS * |pages|)
      ensures Contents() == Overwrite(Overwrite(old(Contents()), a, d % 0x1_0000), a + 1, d / 0x1_0000)
      ensures SlotIn(old(Contents()), a) ==> ok && Contents() == SetSlot(old(Contents()), a, d)
    {
      ok := Write(a, d % 0x1_0000);
      if ok {
        ok := Write(a + 1, d / 0x1_0000);
      }
    }

    /** The closure of `pop_control`: send one slot to `pc`. */
    method SendTo(a: nat, lt: U32, pc: nat) returns (r: Result<(), Error>)
      requires Valid() && SlotIn(Contents(), a)
      modifies Repr
      ensures Valid() && |Contents()| == |old(Contents())|
      ensures match JumpOffset(a, pc)
              case Ok(offset) => r.Ok? && Contents() == SetSlot(old(Contents()), a, WithJump(lt, offset))
              case Err(e) => r == Err(e)
    {
      var offset := JumpOffset(a, pc);
      if offset.Err? { return Err(offset.error); }
      var _ := Write32(a, WithJump(lt, offset.value));
      r := Ok(());
    }

    /** `backpatch` with the closure of `pop_control`: send every slot of the chain from `start` to
        `pc`. It does so exactly as `Text.Backpatch` says, and ends because links lead down. */
    method Backpatch(start: int, pc: nat) returns (r: Result<(), Error>)
      requires Valid() && |Contents()| < 0x8000_0000
      requires start != SENTINEL ==> ChainOk(Contents(), start, 0)
      modifies Repr
      ensures Valid() && |Contents()| == |old(Contents())|
      ensures start == SENTINEL ==> r.Ok? && Contents() == old(Contents())
      ensures start != SENTINEL ==>
                match Text.Backpatch(options, old(Contents()), start, pc, 0)
                case Ok(code) => r.Ok? && Contents() == code
                case Err(e) => r == Err(e)
    {
      hide Slot, Jump, WithJump, SetSlot, JumpOffset;
      if start == SENTINEL { return Ok(()); }
      ghost var was := Contents();
      var next: int, n: nat := start, 0;
      while true
        invariant Valid() && |Contents()| == |was| && ChainOk(Contents(), next, 0)
        invariant Text.Backpatch(options, was, start, pc, 0) == Text.Backpatch(options, Contents(), next, pc, n)
        decreases next
      {
        ghost var before := Contents();
        var lt := Read32(next);
        r := SendTo(next, lt.value, pc);
        if r.Err? || IsSentinel(lt.value) { return r; }
        BackpatchStep(options, before, next, pc, n, 0);
        next := next + Jump(lt.value);
        n := n + 1;
        if OverLimit(options, n) { return Err(PossibleBackpatchCycle); }
      }
    }

    /** The closure of `pop_control_and_patch_if` at the tail: send it to `pc` and make the slot
        before it, if any, the new tail. */
    method CutTail(a: nat, lt: U32, prev: int, pc: nat) returns (r: Result<(), Error>)
      requires Valid() && SlotIn(Contents(), a) && (prev != SENTINEL ==> SlotIn(Contents(), prev) && a + 2 <= prev)
      modifies Repr
      ensures Valid() && |Contents()| == |old(Contents())|
      ensures match JumpOffset(a, pc)
              case Ok(offset) =>
                var patched := SetSlot(old(Contents()), a, WithJump(lt, offset));
                r.Ok? && Contents() == if prev == SENTINEL then patched
                                       else SetSlot(patched, prev, WithJump(Slot(patched, prev), 0))
              case Err(e) => r == Err(e)
    {
      hide Slot, WithJump, SetSlot;
      r := SendTo(a, lt, pc);
      if r.Ok? && prev != SENTINEL {
        var old_label := Read32(prev);
        var _ := Write32(prev, WithJump(old_label.value, 0));
      }
    }

    /** `backpatch` with the closure of `pop_control_and_patch_if`: send only the tail to `pc`, make
        the slot before it the new tail, and return the head of the chain that remains. */
    method SplitTail(start: int, pc: nat) returns (r: Result<int, Error>)
      requires Valid() && |Contents()| < 0x8000_0000 && ChainOk(Contents(), start, 0)
      modifies Repr
      ensures Valid() && |Contents()| == |old(Contents())|
      ensures match Text.SplitTail(options, old(Contents()), start, start, SENTINEL, pc, 0)
              case Ok(v) => r == Ok(v.1) && Contents() == v.0
              case Err(e) => r == Err(e)
    {
      hide Slot, Jump, WithJump, SetSlot, JumpOffset;
      ghost var was := Contents();
      var next: int, prev: int, n: nat := start, SENTINEL, 0;
      while true
        invariant Valid() && Contents() == was && ChainOk(was, next, 0)
        invariant prev != SENTINEL ==> SlotIn(was, prev) && next + 2 <= prev
        invariant Text.SplitTail(options, was, start, start, SENTINEL, pc, 0)
               == Text.SplitTail(options, was, start, next, prev, pc, n)
        decreases next
      {
        var lt := Read32(next);
        if IsSentinel(lt.value) {
          var cut := CutTail(next, lt.value, prev, pc);
          if cut.Err? { return Err(cut.error); }
          return Ok(if prev == SENTINEL then SENTINEL else start);
        }
        prev := next;
        next := next + Jump(lt.value);
        n := n + 1;
        if OverLimit(options, n) { return Err(PossibleBackpatchCycle); }
      }
    }
  }
}
