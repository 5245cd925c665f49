/** The chains of unresolved slots that run through the emitted code (src/text.rs).

    Every open block or if above the function frame owns the chain that starts at its `target`.
    `ChainsOk` is what every compile step keeps; `Agree` says how the finished code relates to the
    code emitted so far; `Extends` combines both for a compile step. */
module Chains {
  import opened Values
  import opened Label
  import opened Ir
  import opened Wasm
  import opened Text

  // ----- one chain -----

  /** The slots met by following links from `a`. */
  function Chain(code: seq<Word>, a: int): (s: seq<int>)
    ensures s != [] && s[0] == a
    decreases if a < 0 then 0 else a + 1
  {
    if !SlotIn(code, a) || Jump(Slot(code, a)) >= 0 then [a]
    else [a] + Chain(code, a + Jump(Slot(code, a)))
  }

  /** Links lead down by at least a slot, stay at or above `lo`, and end at the zero link. */
  predicate ChainOk(code: seq<Word>, a: int, lo: nat)
    decreases if a < 0 then 0 else a + 1
  {
    && lo <= a
    && SlotIn(code, a)
    && (Jump(Slot(code, a)) != 0 ==> Jump(Slot(code, a)) <= -2 && ChainOk(code, a + Jump(Slot(code, a)), lo))
  }

  /** The last slot of a chain. */
  function Tail(code: seq<Word>, a: int): int { Chain(code, a)[|Chain(code, a)| - 1] }

  lemma {:induction false} ChainBounds(code: seq<Word>, a: int, lo: nat)
    requires ChainOk(code, a, lo)
    ensures forall b :: b in Chain(code, a) ==> lo <= b && SlotIn(code, b) && (b == a || b + 2 <= a)
    decreases a
  {
    if Jump(Slot(code, a)) != 0 {
      ChainBounds(code, a + Jump(Slot(code, a)), lo);
    }
  }

  /** Code that keeps the slots of a chain keeps the chain. */
  lemma {:induction false} ChainSame(code: seq<Word>, code': seq<Word>, a: int, lo: nat)
    requires ChainOk(code, a, lo)
    requires forall b :: b in Chain(code, a) ==> SlotIn(code', b) && SlotIn(code, b) && Slot(code', b) == Slot(code, b)
    ensures ChainOk(code', a, lo) && Chain(code', a) == Chain(code, a)
    decreases a
  {
    hide Slot, Jump;
    assert a in Chain(code, a);
    if Jump(Slot(code, a)) != 0 {
      var b := a + Jump(Slot(code, a));
      assert forall d :: d in Chain(code, b) ==> d in Chain(code, a);
      ChainSame(code, code', b, lo);
    }
  }

  /** Only the last slot of a chain holds the zero link. */
  lemma {:induction false} ChainTail(code: seq<Word>, a: int, lo: nat)
    requires ChainOk(code, a, lo)
    ensures forall b :: b in Chain(code, a) ==> SlotIn(code, b) && (Jump(Slot(code, b)) == 0 <==> b == Tail(code, a))
    decreases a
  {
    hide Slot, Jump;
    ChainBounds(code, a, lo);
    if Jump(Slot(code, a)) != 0 {
      ChainTail(code, a + Jump(Slot(code, a)), lo);
      ChainBounds(code, a + Jump(Slot(code, a)), lo);
      assert Tail(code, a) == Tail(code, a + Jump(Slot(code, a)));
      assert Tail(code, a) in Chain(code, a + Jump(Slot(code, a)));
    }
  }

  // ----- rewriting slots -----

  /** `g` is `s` with its jump set to `delta`. */
  predicate Resolved(g: U32, s: U32, delta: int) {
    Arity(g) == Arity(s) && Depth(g) == Depth(s) && Jump(g) == delta
  }

  predicate Apart(a: int, b: int) { a + 2 <= b || b + 2 <= a }

  lemma SetSlotReads(code: seq<Word>, a: int, d: U32)
    requires SlotIn(code, a)
    ensures Slot(SetSlot(code, a, d), a) == d
    ensures forall k :: 0 <= k < |code| && k != a && k != a + 1 ==> SetSlot(code, a, d)[k] == code[k]
    ensures forall b :: SlotIn(code, b) && Apart(a, b) ==> Slot(SetSlot(code, a, d), b) == Slot(code, b)
  {
  }

  lemma JumpOffsetRange(current: int, to: int)
    requires 0 <= current < 0x8000_0000 && 0 <= to < 0x8000_0000
    requires JumpOffset(current, to).Ok?
    ensures JumpOffset(current, to).value == to - current && -0x20_0000 <= to - current < 0x20_0000
  {
    FitsJumpRange(to - current);
  }

  lemma PatchOne(code: seq<Word>, a: int, to: int)
    requires SlotIn(code, a) && |code| < 0x8000_0000 && 0 <= to < 0x8000_0000
    requires JumpOffset(a, to).Ok?
    ensures var code' := SetSlot(code, a, WithJump(Slot(code, a), JumpOffset(a, to).value));
            Resolved(Slot(code', a), Slot(code, a), to - a)
  {
    JumpOffsetRange(a, to);
    WithJumpFields(Slot(code, a), to - a);
    SetSlotReads(code, a, WithJump(Slot(code, a), to - a));
  }

  /** `k` is one of the two words of a slot in `s`. */
  predicate Covers(s: seq<int>, k: int) { k in s || k - 1 in s }

  /** Closing a block: every slot of the chain is sent to `pc` with its arity and depth kept, and no
      other word changes. */
  lemma {:induction false} BackpatchSlots(o: Options, code: seq<Word>, a: int, pc: int, n: nat, lo: nat)
    requires ChainOk(code, a, lo) && |code| < 0x8000_0000 && 0 <= pc < 0x8000_0000
    requires Backpatch(o, code, a, pc, n).Ok?
    ensures var code' := Backpatch(o, code, a, pc, n).value;
            && |code'| == |code|
            && (forall b :: b in Chain(code, a) ==> SlotIn(code, b) && Resolved(Slot(code', b), Slot(code, b), pc - b))
            && (forall k :: 0 <= k < |code| && !Covers(Chain(code, a), k) ==> code'[k] == code[k])
    decreases a
  {
    PatchOne(code, a, pc);
    var slot := Slot(code, a);
    var code1 := SetSlot(code, a, WithJump(slot, JumpOffset(a, pc).value));
    SetSlotReads(code, a, WithJump(slot, JumpOffset(a, pc).value));
    if Jump(slot) != 0 {
      var next := a + Jump(slot);
      BackpatchStep(o, code, a, pc, n, lo);
      BackpatchSlots(o, code1, next, pc, n + 1, lo);
      BackpatchRest(code, code1, Backpatch(o, code, a, pc, n).value, a, pc, lo);
    }
  }

  /** One step of the walk leaves the rest of the chain in place. */
  lemma BackpatchStep(o: Options, code: seq<Word>, a: int, pc: int, n: nat, lo: nat)
    requires ChainOk(code, a, lo) && Jump(Slot(code, a)) != 0 && JumpOffset(a, pc).Ok?
    ensures var code1 := SetSlot(code, a, WithJump(Slot(code, a), JumpOffset(a, pc).value));
            var next := a + Jump(Slot(code, a));
            && ChainOk(code1, next, lo)
            && Chain(code1, next) == Chain(code, next)
            && (forall b :: b in Chain(code, next) ==> SlotIn(code, b) && Slot(code1, b) == Slot(code, b) && b + 2 <= a)
  {
    hide Slot, Jump, WithJump, SetSlot;
    var d := WithJump(Slot(code, a), JumpOffset(a, pc).value);
    var next := a + Jump(Slot(code, a));
    ChainBounds(code, next, lo);
    SetSlotReads(code, a, d);
    ChainSame(code, SetSlot(code, a, d), next, lo);
  }

  lemma BackpatchRest(code: seq<Word>, code1: seq<Word>, code': seq<Word>, a: int, pc: int, lo: nat)
    requires ChainOk(code, a, lo) && Jump(Slot(code, a)) != 0
    requires |code| == |code1| == |code'|
    requires Resolved(Slot(code1, a), Slot(code, a), pc - a)
    requires forall k :: 0 <= k < |code| && k != a && k != a + 1 ==> code1[k] == code[k]
    requires var next := a + Jump(Slot(code, a));
             && (forall b :: b in Chain(code, next) ==>
                   SlotIn(code, b) && Slot(code1, b) == Slot(code, b) && b + 2 <= a)
             && (forall b :: b in Chain(code, next) ==>
                   SlotIn(code, b) && Resolved(Slot(code', b), Slot(code1, b), pc - b))
             && (forall k :: 0 <= k < |code| && !Covers(Chain(code, next), k) ==> code'[k] == code1[k])
    ensures forall b :: b in Chain(code, a) ==> SlotIn(code, b) && Resolved(Slot(code', b), Slot(code, b), pc - b)
    ensures forall k :: 0 <= k < |code| && !Covers(Chain(code, a), k) ==> code'[k] == code[k]
  {
    var next := a + Jump(Slot(code, a));
    assert Chain(code, a) == [a] + Chain(code, next);
    assert !Covers(Chain(code, next), a) && !Covers(Chain(code, next), a + 1);
    assert Slot(code', a) == Slot(code1, a);
    hide Slot, Jump, Resolved, Chain;
    forall k | 0 <= k < |code| && !Covers(Chain(code, a), k) ensures code'[k] == code[k] {
      assert a in Chain(code, a);
      assert !Covers(Chain(code, next), k);
    }
  }

  predicate Reaches(a: int, pc: int) { -0x20_0000 <= pc - a < 0x20_0000 }

  /** Slot `k` of the chain `s` is the first that is too far from `pc`, and it is met within the limit. */
  predicate FirstFar(o: Options, s: seq<int>, k: int, pc: int, n: nat) {
    && 0 <= k < |s| && !Reaches(s[k], pc) && (forall j :: 0 <= j < k ==> Reaches(s[j], pc))
    && (k > 0 && o.maxIterations.Some? ==> n + k <= o.maxIterations.value)
  }

  predicate MeetsFar(o: Options, s: seq<int>, pc: int, n: nat) { exists k :: 0 <= k < |s| && FirstFar(o, s, k, pc, n) }

  lemma FarLater(o: Options, s: seq<int>, pc: int, n: nat, m: nat)
    requires |s| > 1 && Reaches(s[0], pc) && m == n + 1 && (o.maxIterations.Some? ==> m <= o.maxIterations.value)
    ensures MeetsFar(o, s, pc, n) <==> MeetsFar(o, s[1..], pc, m)
  {
    if MeetsFar(o, s, pc, n) {
      var k :| 0 <= k < |s| && FirstFar(o, s, k, pc, n);
      assert forall j :: 0 <= j < k - 1 ==> s[1..][j] == s[j + 1];
      assert FirstFar(o, s[1..], k - 1, pc, m);
    }
    if MeetsFar(o, s[1..], pc, m) {
      var k :| 0 <= k < |s[1..]| && FirstFar(o, s[1..], k, pc, m);
      assert forall j :: 1 <= j < k + 1 ==> s[j] == s[1..][j - 1];
      assert FirstFar(o, s, k + 1, pc, n);
    }
  }

  /** A backpatch succeeds exactly when every slot reaches the target in signed 22 bits and the chain has
      no more than the limit's number of links; otherwise a slot too far away is met before the limit, or
      the limit is. The limit does not change what a backpatch does. */
  lemma {:induction false} BackpatchLimit(o: Options, code: seq<Word>, a: int, pc: int, n: nat, lo: nat)
    requires ChainOk(code, a, lo) && |code| < 0x8000_0000 && 0 <= pc < 0x8000_0000
    ensures var r := Backpatch(o, code, a, pc, n);
            var s := Chain(code, a);
            && (r.Ok? <==>
                  && (forall b :: b in s ==> Reaches(b, pc))
                  && (|s| > 1 && o.maxIterations.Some? ==> n + |s| - 1 <= o.maxIterations.value))
            && (r.Err? ==> r.error == LabelJumpTooLarge || r.error == PossibleBackpatchCycle)
            && (r == Result.Err(LabelJumpTooLarge) <==> MeetsFar(o, s, pc, n))
    ensures Backpatch(o, code, a, pc, n).Ok? ==>
            Backpatch(o, code, a, pc, n) == Backpatch(o.(maxIterations := None), code, a, pc, n)
    decreases a
  {
    hide Slot, Jump, WithJump, SetSlot, FitsJump;
    FitsJumpRange(pc - a);
    if JumpOffset(a, pc).Err? { assert FirstFar(o, Chain(code, a), 0, pc, n); }
    if JumpOffset(a, pc).Ok? && Jump(Slot(code, a)) != 0 {
      var next := a + Jump(Slot(code, a));
      BackpatchStep(o, code, a, pc, n, lo);
      var code1 := SetSlot(code, a, WithJump(Slot(code, a), JumpOffset(a, pc).value));
      BackpatchLimit(o, code1, next, pc, n + 1, lo);
      assert Chain(code, a) == [a] + Chain(code, next);
      if !OverLimit(o, n + 1) { FarLater(o, Chain(code, a), pc, n, n + 1); }
    }
  }

  // ----- splitting off the tail -----

  /** The slot before the tail, when `prev` links to `a`. */
  function BeforeTail(code: seq<Word>, prev: int, a: int): int
    decreases if a < 0 then 0 else a + 1
  {
    if !SlotIn(code, a) || Jump(Slot(code, a)) >= 0 then prev
    else BeforeTail(code, a, a + Jump(Slot(code, a)))
  }

  /** Splitting off the tail is refused exactly when the chain has more links than the limit, or else the
      tail is too far away. */
  lemma {:induction false} SplitTailLimit(
    o: Options, code: seq<Word>, head: int, a: int, prev: int, pc: int, n: nat, lo: nat)
    requires ChainOk(code, a, lo) && |code| < 0x8000_0000 && 0 <= pc < 0x8000_0000
    requires prev == SENTINEL || SlotIn(code, prev)
    ensures var r := SplitTail(o, code, head, a, prev, pc, n);
            var links := |Chain(code, a)| - 1;
            var over := links > 0 && o.maxIterations.Some? && n + links > o.maxIterations.value;
            && (r.Ok? <==> !over && Reaches(Tail(code, a), pc))
            && (r.Err? ==> r.error == if over then PossibleBackpatchCycle else LabelJumpTooLarge)
    decreases a
  {
    hide Slot, WithJump, FitsJump;
    if Jump(Slot(code, a)) != 0 {
      SplitTailLimit(o, code, head, a + Jump(Slot(code, a)), a, pc, n + 1, lo);
      assert Chain(code, a) == [a] + Chain(code, a + Jump(Slot(code, a)));
    } else {
      FitsJumpRange(pc - a);
    }
  }

  /** What `else` does to a chain with at least two slots: the tail goes to the start of the else
      part, the slot before it becomes the tail, and nothing else changes. */
  predicate TailSplit(code: seq<Word>, code': seq<Word>, tail: int, before: int, pc: int) {
    && |code'| == |code| && SlotIn(code, tail) && SlotIn(code, before) && tail + 2 <= before
    && Resolved(Slot(code', tail), Slot(code, tail), pc - tail)
    && Resolved(Slot(code', before), Slot(code, before), 0)
    && forall k :: 0 <= k < |code| && !Covers([tail, before], k) ==> code'[k] == code[k]
  }

  lemma SplitTwo(code: seq<Word>, tail: int, before: int, pc: int)
    requires SlotIn(code, tail) && SlotIn(code, before) && tail + 2 <= before
    requires |code| < 0x8000_0000 && 0 <= pc < 0x8000_0000 && JumpOffset(tail, pc).Ok?
    ensures var code1 := SetSlot(code, tail, WithJump(Slot(code, tail), JumpOffset(tail, pc).value));
            TailSplit(code, SetSlot(code1, before, WithJump(Slot(code1, before), 0)), tail, before, pc)
  {
    PatchOne(code, tail, pc);
    var d := WithJump(Slot(code, tail), JumpOffset(tail, pc).value);
    var code1 := SetSlot(code, tail, d);
    SetSlotReads(code, tail, d);
    var e := WithJump(Slot(code1, before), 0);
    WithJumpFields(Slot(code1, before), 0);
    SetSlotReads(code1, before, e);
    var code2 := SetSlot(code1, before, e);
    hide Slot, Jump, WithJump, SetSlot;
    assert Slot(code2, tail) == Slot(code1, tail);
    forall k | 0 <= k < |code| && !Covers([tail, before], k) ensures code2[k] == code[k] {
      assert tail in [tail, before] && before in [tail, before];
    }
  }

  lemma {:induction false} SplitTailSlots(
    o: Options, code: seq<Word>, head: int, a: int, prev: int, pc: int, n: nat, lo: nat)
    requires ChainOk(code, a, lo) && |code| < 0x8000_0000 && 0 <= pc < 0x8000_0000
    requires prev != SENTINEL && SlotIn(code, prev) && a + 2 <= prev
    requires SplitTail(o, code, head, a, prev, pc, n).Ok?
    ensures var (code', rest) := SplitTail(o, code, head, a, prev, pc, n).value;
            rest == head && TailSplit(code, code', Tail(code, a), BeforeTail(code, prev, a), pc)
    decreases a
  {
    if Jump(Slot(code, a)) == 0 {
      SplitTwo(code, a, prev, pc);
    } else {
      SplitTailSlots(o, code, head, a + Jump(Slot(code, a)), a, pc, n + 1, lo);
      TailOfRest(code, a, lo);
    }
  }

  lemma TailOfRest(code: seq<Word>, a: int, lo: nat)
    requires ChainOk(code, a, lo) && Jump(Slot(code, a)) != 0
    ensures Chain(code, a) == [a] + Chain(code, a + Jump(Slot(code, a)))
    ensures Tail(code, a) == Tail(code, a + Jump(Slot(code, a)))
  {
  }

  /** The slots that remain keep their order. */
  lemma {:induction false} ChainCut(code: seq<Word>, code': seq<Word>, prev: int, a: int, pc: int, lo: nat)
    requires ChainOk(code, a, lo) && SlotIn(code, prev) && a + 2 <= prev && lo <= prev
    requires Jump(Slot(code, prev)) == a - prev
    requires TailSplit(code, code', Tail(code, a), BeforeTail(code, prev, a), pc)
    ensures ChainOk(code', prev, lo) && Chain(code', prev) + [Tail(code, a)] == Chain(code, prev)
    decreases a
  {
    ChainBounds(code, a, lo);
    assert Tail(code, a) in Chain(code, a);
    assert Chain(code, prev) == [prev] + Chain(code, a);
    if Jump(Slot(code, a)) == 0 {
      assert Chain(code, a) == [a];
      assert Chain(code', prev) == [prev];
    } else {
      TailOfRest(code, a, lo);
      ChainCut(code, code', a, a + Jump(Slot(code, a)), pc, lo);
      BeforeTailBound(code, a, a + Jump(Slot(code, a)), lo);
      assert Slot(code', prev) == Slot(code, prev) by {
        var before := BeforeTail(code, prev, a);
        assert before + 2 <= prev && Tail(code, a) + 2 <= prev;
        assert !Covers([Tail(code, a), before], prev) && !Covers([Tail(code, a), before], prev + 1);
      }
      assert Chain(code', prev) == [prev] + Chain(code', a);
    }
  }

  lemma {:induction false} BeforeTailBound(code: seq<Word>, prev: int, a: int, lo: nat)
    requires ChainOk(code, a, lo) && a < prev
    ensures BeforeTail(code, prev, a) <= prev
    ensures BeforeTail(code, prev, a) == prev || BeforeTail(code, prev, a) in Chain(code, a)
    decreases a
  {
    if Jump(Slot(code, a)) != 0 {
      BeforeTailBound(code, a, a + Jump(Slot(code, a)), lo);
    }
  }
}
