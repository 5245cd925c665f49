/** All open control frames at once: what every compile step keeps of their chains, and how the
    finished code is determined by the code emitted so far. */
module Frames {
  import opened Values
  import opened Label
  import opened Ir
  import opened Wasm
  import opened Text
  import opened Chains

  /** The unresolved slots of frame `i`. The function frame and loops have none. */
  function Slots(st: State, i: nat): seq<int>
    requires i < |st.frames|
  {
    var f := st.frames[i];
    if i == 0 || f.kind.Loop? || f.target == SENTINEL then [] else Chain(st.code, f.target)
  }

  predicate FrameOk(st: State, i: nat, lo: nat)
    requires i < |st.frames|
  {
    var f := st.frames[i];
    if i == 0 then f.kind.Block? && f.target == SENTINEL
    else if f.kind.Loop? then lo <= f.target <= |st.code|
    else if f.target == SENTINEL then f.kind.Block?
    else ChainOk(st.code, f.target, lo)
  }

  /** The invariant of compilation from address `lo`: each open frame's links are a well-formed
      chain, an if keeps its placeholder, and chains of different frames are disjoint. */
  predicate ChainsOk(st: State, lo: nat) {
    && st.frames != [] && lo <= |st.code| < 0x8000_0000
    && (forall i :: 0 <= i < |st.frames| ==> FrameOk(st, i, lo))
    && forall i, j, a, b :: 0 <= i < j < |st.frames| && a in Slots(st, i) && b in Slots(st, j) ==> Apart(a, b)
  }

  /** Where a frame's branches lead, and where the false branch of an if leads. */
  datatype Goal = Goal(branch: int, otherwise: int)

  function GoalOf(st: State, i: nat, goal: Goal, a: int): int
    requires i < |st.frames| && SlotIn(st.code, a)
  {
    if st.frames[i].kind.If? && Jump(Slot(st.code, a)) == 0 then goal.otherwise else goal.branch
  }

  /** Word `k` belongs to an unresolved slot. */
  predicate Open(st: State, k: int) {
    exists i :: 0 <= i < |st.frames| && Covers(Slots(st, i), k)
  }

  /** `code` is a completion of what `st` has emitted: every word outside the unresolved slots is
      final, and each unresolved slot of frame `i` jumps to that frame's goal. */
  predicate Agree(code: seq<Word>, st: State, goals: seq<Goal>) {
    && |goals| == |st.frames| && |st.code| <= |code| < 0x8000_0000
    && (forall k :: 0 <= k < |st.code| && !Open(st, k) ==> code[k] == st.code[k])
    && (forall i, a :: 0 <= i < |st.frames| && a in Slots(st, i) ==>
          SlotIn(st.code, a) && Resolved(Slot(code, a), Slot(st.code, a), GoalOf(st, i, goals[i], a) - a))
    && forall i :: 1 <= i < |st.frames| && !st.frames[i].kind.Loop? ==> |st.code| <= goals[i].branch
  }

  predicate SameFrame(f: Frame, g: Frame) {
    f.kind == g.kind && f.branch == g.branch && f.out == g.out && f.height == g.height && f.target == g.target
  }

  predicate SameFrames(st: State, st': State) {
    |st.frames| == |st'.frames| && forall i :: 0 <= i < |st.frames| ==> SameFrame(st.frames[i], st'.frames[i])
  }

  /** Frames as compiling leaves them: only the heads of forward chains and dead marks change. */
  predicate SameShape(st: State, st': State) {
    && |st.frames| == |st'.frames|
    && forall i :: 0 <= i < |st.frames| ==>
         var (f, g) := (st.frames[i], st'.frames[i]);
         f.kind == g.kind && f.branch == g.branch && f.out == g.out && f.height == g.height
         && (f.kind.Loop? ==> f.target == g.target)
  }

  // ----- single frames -----

  lemma SlotsIn(st: State, i: nat, lo: nat)
    requires i < |st.frames| && FrameOk(st, i, lo)
    ensures forall a :: a in Slots(st, i) ==> lo <= a && SlotIn(st.code, a)
  {
    var f := st.frames[i];
    if i != 0 && !f.kind.Loop? && f.target != SENTINEL { ChainBounds(st.code, f.target, lo); }
  }

  /** A frame keeps its slots as long as their words are kept. */
  lemma SlotsKept(st: State, st': State, i: nat, lo: nat)
    requires i < |st.frames| && i < |st'.frames| && FrameOk(st, i, lo)
    requires SameFrame(st.frames[i], st'.frames[i]) && |st.code| <= |st'.code|
    requires forall k :: 0 <= k < |st.code| && Covers(Slots(st, i), k) ==> st'.code[k] == st.code[k]
    ensures Slots(st', i) == Slots(st, i) && FrameOk(st', i, lo)
    ensures forall a :: a in Slots(st, i) ==> SlotIn(st.code, a) && Slot(st'.code, a) == Slot(st.code, a)
  {
    SlotsIn(st, i, lo);
    var f := st.frames[i];
    if i != 0 && !f.kind.Loop? && f.target != SENTINEL {
      forall a | a in Slots(st, i) ensures Slot(st'.code, a) == Slot(st.code, a) {
        assert Covers(Slots(st, i), a) && Covers(Slots(st, i), a + 1);
      }
      ChainSame(st.code, st'.code, f.target, lo);
    }
  }

  // ----- appending code that is final -----

  lemma AppendSlots(st: State, st': State, lo: nat)
    requires ChainsOk(st, lo) && SameFrames(st, st') && st.code <= st'.code && |st'.code| < 0x8000_0000
    ensures ChainsOk(st', lo)
    ensures forall i :: 0 <= i < |st.frames| ==> Slots(st', i) == Slots(st, i)
    ensures forall i, a :: 0 <= i < |st.frames| && a in Slots(st, i) ==>
              SlotIn(st.code, a) && Slot(st'.code, a) == Slot(st.code, a)
  {
    forall i | 0 <= i < |st.frames|
      ensures Slots(st', i) == Slots(st, i) && FrameOk(st', i, lo)
      ensures forall a :: a in Slots(st, i) ==> SlotIn(st.code, a) && Slot(st'.code, a) == Slot(st.code, a)
    {
      SlotsKept(st, st', i, lo);
    }
  }

  lemma AppendBack(code: seq<Word>, st: State, st': State, goals: seq<Goal>, lo: nat)
    requires ChainsOk(st, lo) && SameFrames(st, st') && st.code <= st'.code && |st'.code| < 0x8000_0000
    requires Agree(code, st', goals)
    ensures Agree(code, st, goals)
    ensures forall k :: |st.code| <= k < |st'.code| ==> code[k] == st'.code[k]
  {
    AppendSlots(st, st', lo);
    hide Slot, Jump, Resolved, Chain, ChainOk;
    forall i | 0 <= i < |st.frames| ensures forall a :: a in Slots(st, i) ==> SlotIn(st.code, a) {
      SlotsIn(st, i, lo);
    }
    forall k | 0 <= k < |st'.code| && !Open(st, k) ensures code[k] == st'.code[k] {
      assert !Open(st', k);
    }
    forall k | |st.code| <= k < |st'.code| ensures code[k] == st'.code[k] {
      assert !Open(st, k);
    }
  }

  // ----- adding a slot to a chain -----

  /** `st'` is `st` with one more slot, at its end, on the chain of frame `idx`. */
  predicate SlotLinked(st: State, st': State, idx: nat) {
    && 1 <= idx < |st.frames| && |st'.frames| == |st.frames|
    && (forall i :: 0 <= i < |st.frames| && i != idx ==> SameFrame(st.frames[i], st'.frames[i]))
    && !st.frames[idx].kind.Loop?
    && SameFrame(st.frames[idx].(target := |st.code|), st'.frames[idx])
    && st.code <= st'.code && |st'.code| == |st.code| + 2 && |st'.code| < 0x8000_0000
    && Jump(Slot(st'.code, |st.code|)) == LinkTo(st.frames[idx].target, |st.code|)
  }

  /** The link written at `pc` for a chain whose newest slot is at `target`. */
  function LinkTo(target: int, pc: int): int { if target == SENTINEL then 0 else target - pc }

  lemma LinkSlots(st: State, st': State, idx: nat, lo: nat)
    requires ChainsOk(st, lo) && SlotLinked(st, st', idx)
    ensures Slots(st', idx) == [|st.code|] + Slots(st, idx) && FrameOk(st', idx, lo)
    ensures forall i :: 0 <= i < |st.frames| && i != idx ==> Slots(st', i) == Slots(st, i) && FrameOk(st', i, lo)
    ensures forall i, a :: 0 <= i < |st.frames| && a in Slots(st, i) ==>
              lo <= a && SlotIn(st.code, a) && Slot(st'.code, a) == Slot(st.code, a)
  {
    hide Slot, Jump;
    forall i | 0 <= i < |st.frames|
      ensures i != idx ==> Slots(st', i) == Slots(st, i) && FrameOk(st', i, lo)
      ensures forall a :: a in Slots(st, i) ==> lo <= a && SlotIn(st.code, a) && Slot(st'.code, a) == Slot(st.code, a)
    {
      SlotsIn(st, i, lo);
      if i != idx {
        SlotsKept(st, st', i, lo);
      } else {
        SlotsKept(st, st'.(frames := st.frames), i, lo);
      }
    }
    var head := st.frames[idx].target;
    if head != SENTINEL {
      SlotsKept(st, st'.(frames := st.frames), idx, lo);
      assert head in Slots(st, idx);
    }
  }

  lemma LinkOk(st: State, st': State, idx: nat, lo: nat)
    requires ChainsOk(st, lo) && SlotLinked(st, st', idx)
    ensures ChainsOk(st', lo)
  {
    hide Slot, Jump, Chain, ChainOk;
    LinkSlots(st, st', idx, lo);
    forall i, j, a, b | 0 <= i < j < |st'.frames| && a in Slots(st', i) && b in Slots(st', j)
      ensures Apart(a, b)
    {
      if a in Slots(st, i) && b in Slots(st, j) {
        SlotsApart(st, i, j, a, b);
      } else if a in Slots(st, i) {
        assert b == |st.code| && SlotIn(st.code, a);
      } else {
        assert a == |st.code| && b in Slots(st, j) && SlotIn(st.code, b);
      }
    }
  }

  lemma LinkBack(code: seq<Word>, st: State, st': State, idx: nat, goals: seq<Goal>, lo: nat)
    requires ChainsOk(st, lo) && SlotLinked(st, st', idx) && Agree(code, st', goals)
    requires st.frames[idx].kind.If? ==> st.frames[idx].target != SENTINEL
    ensures Agree(code, st, goals)
    ensures Resolved(Slot(code, |st.code|), Slot(st'.code, |st.code|), goals[idx].branch - |st.code|)
  {
    hide Slot, Jump, Resolved, Chain, ChainOk;
    LinkSlots(st, st', idx, lo);
    assert |st.code| in Slots(st', idx);
    assert forall i, a :: 0 <= i < |st.frames| && a in Slots(st, i) ==> a in Slots(st', i);
    forall k | 0 <= k < |st.code| && !Open(st, k) ensures code[k] == st.code[k] {
      forall i | 0 <= i < |st'.frames| ensures !Covers(Slots(st', i), k) {
        assert !Covers(Slots(st, i), k);
      }
    }
    assert GoalOf(st', idx, goals[idx], |st.code|) == goals[idx].branch by {
      if st.frames[idx].kind.If? { LinkNonzero(st, idx, lo); }
    }
  }

  lemma LinkNonzero(st: State, idx: nat, lo: nat)
    requires ChainsOk(st, lo) && 1 <= idx < |st.frames| && !st.frames[idx].kind.Loop?
    ensures st.frames[idx].target != SENTINEL ==> LinkTo(st.frames[idx].target, |st.code|) <= -2
  {
    if st.frames[idx].target != SENTINEL {
      SlotsIn(st, idx, lo);
      assert st.frames[idx].target in Slots(st, idx);
    }
  }

  // ----- opening a frame -----

  /** `st'` is `st` with one more frame, whose slots, if any, are new. */
  predicate Opened(st: State, st': State, lo: nat) {
    && |st'.frames| == |st.frames| + 1
    && (forall i :: 0 <= i < |st.frames| ==> SameFrame(st.frames[i], st'.frames[i]))
    && st.code <= st'.code && |st'.code| < 0x8000_0000
    && FrameOk(st', |st.frames|, lo)
    && (forall a :: a in Slots(st', |st.frames|) ==> |st.code| <= a)
  }

  lemma OpenSlots(st: State, st': State, lo: nat)
    requires ChainsOk(st, lo) && Opened(st, st', lo)
    ensures ChainsOk(st', lo)
    ensures forall i :: 0 <= i < |st.frames| ==> Slots(st', i) == Slots(st, i)
    ensures forall i, a :: 0 <= i < |st.frames| && a in Slots(st, i) ==>
              SlotIn(st.code, a) && Slot(st'.code, a) == Slot(st.code, a)
  {
    hide Slot, Jump, Chain, ChainOk;
    forall i | 0 <= i < |st.frames|
      ensures Slots(st', i) == Slots(st, i) && FrameOk(st', i, lo)
      ensures forall a :: a in Slots(st, i) ==> SlotIn(st.code, a) && Slot(st'.code, a) == Slot(st.code, a)
    {
      SlotsKept(st, st', i, lo);
    }
  }

  lemma OpenBack(code: seq<Word>, st: State, st': State, goals: seq<Goal>, goal: Goal, lo: nat)
    requires ChainsOk(st, lo) && Opened(st, st', lo)
    requires Agree(code, st', goals + [goal])
    ensures |goals| == |st.frames| ==> Agree(code, st, goals)
  {
    hide Slot, Jump, Resolved, Chain, ChainOk;
    OpenSlots(st, st', lo);
    if |goals| == |st.frames| {
      assert forall i :: 0 <= i < |st.frames| ==> (goals + [goal])[i] == goals[i];
      forall k | 0 <= k < |st.code| && !Open(st, k) ensures code[k] == st.code[k] {
        forall i | 0 <= i < |st'.frames| ensures !Covers(Slots(st', i), k) {
          if i < |st.frames| { assert !Covers(Slots(st, i), k); }
        }
      }
    }
  }

  // ----- closing a frame -----

  /** `st'` is `st` without its innermost frame, whose slots are all sent to the end of the code. */
  predicate Closed(st: State, st': State) {
    && |st.frames| == |st'.frames| + 1 && 1 <= |st'.frames|
    && (forall i :: 0 <= i < |st'.frames| ==> SameFrame(st.frames[i], st'.frames[i]))
    && |st'.code| == |st.code|
    && var s := Slots(st, |st'.frames|);
       && (forall k :: 0 <= k < |st.code| && !Covers(s, k) ==> st'.code[k] == st.code[k])
       && (forall a :: a in s ==> SlotIn(st.code, a) && Resolved(Slot(st'.code, a), Slot(st.code, a), |st.code| - a))
  }

  lemma CloseSlots(st: State, st': State, lo: nat)
    requires ChainsOk(st, lo) && Closed(st, st')
    ensures ChainsOk(st', lo)
    ensures forall i :: 0 <= i < |st'.frames| ==> Slots(st', i) == Slots(st, i)
    ensures forall i, a :: 0 <= i < |st'.frames| && a in Slots(st, i) ==>
              SlotIn(st.code, a) && Slot(st'.code, a) == Slot(st.code, a)
  {
    hide Slot, Jump, Chain, ChainOk, Resolved;
    var n := |st'.frames|;
    forall i | 0 <= i < n
      ensures Slots(st', i) == Slots(st, i) && FrameOk(st', i, lo)
      ensures forall a :: a in Slots(st, i) ==> SlotIn(st.code, a) && Slot(st'.code, a) == Slot(st.code, a)
    {
      forall k | 0 <= k < |st.code| && Covers(Slots(st, i), k) ensures !Covers(Slots(st, n), k) {
        DisjointWords(st, i, n, k, lo);
      }
      SlotsKept(st, st', i, lo);
    }
  }

  lemma DisjointWords(st: State, i: nat, j: nat, k: int, lo: nat)
    requires ChainsOk(st, lo) && i < |st.frames| && j < |st.frames| && i != j
    requires Covers(Slots(st, i), k)
    ensures !Covers(Slots(st, j), k)
  {
    hide Slot, Jump, Chain, ChainOk;
    var a := if k in Slots(st, i) then k else k - 1;
    assert a in Slots(st, i);
    if k in Slots(st, j) {
      SlotsApart(st, i, j, a, k);
    } else if k - 1 in Slots(st, j) {
      SlotsApart(st, i, j, a, k - 1);
    }
  }

  lemma SlotsApart(st: State, i: nat, j: nat, a: int, b: int)
    requires st.frames != [] && i < |st.frames| && j < |st.frames| && i != j
    requires forall i, j, a, b :: 0 <= i < j < |st.frames| && a in Slots(st, i) && b in Slots(st, j) ==> Apart(a, b)
    requires a in Slots(st, i) && b in Slots(st, j)
    ensures Apart(a, b)
  {
    if j < i { assert Apart(b, a); }
  }

  lemma CloseBack(code: seq<Word>, st: State, st': State, goals: seq<Goal>, otherwise: int, lo: nat)
    requires ChainsOk(st, lo) && Closed(st, st') && Agree(code, st', goals)
    requires Innermost(st).kind.If? ==> otherwise == |st.code|
    ensures Agree(code, st, goals + [Goal(|st.code|, otherwise)])
  {
    hide Slot, Jump, Chain, ChainOk;
    CloseSlots(st, st', lo);
    var n := |st'.frames|;
    var goals' := goals + [Goal(|st.code|, otherwise)];
    SlotsIn(st, n, lo);
    forall k | 0 <= k < |st.code| && !Open(st, k) ensures code[k] == st.code[k] {
      assert !Covers(Slots(st, n), k);
      forall i | 0 <= i < n ensures !Covers(Slots(st', i), k) { assert !Covers(Slots(st, i), k); }
      assert !Open(st', k);
    }
    forall a | a in Slots(st, n) ensures Resolved(Slot(code, a), Slot(st.code, a), |st.code| - a) {
      forall i, k | 0 <= i < n && (k == a || k == a + 1) ensures !Covers(Slots(st', i), k) {
        DisjointWords(st, n, i, k, lo);
      }
      assert !Open(st', a) && !Open(st', a + 1);
      assert Slot(code, a) == Slot(st'.code, a) by { SlotEqual(code, st'.code, a); }
    }
  }

  lemma SlotEqual(code: seq<Word>, code': seq<Word>, a: int)
    requires SlotIn(code, a) && SlotIn(code', a) && code[a] == code'[a] && code[a + 1] == code'[a + 1]
    ensures Slot(code, a) == Slot(code', a)
  {
  }

  // ----- else -----

  /** `st'` is `st` with its innermost frame, an if with at least two slots, turned into the block
      of the else part. */
  predicate Split(st: State, st': State) {
    && 2 <= |st.frames| == |st'.frames| && |st'.code| == |st.code|
    && var n := |st.frames| - 1;
       && (forall i :: 0 <= i < n ==> SameFrame(st.frames[i], st'.frames[i]))
       && st.frames[n].kind.If? && st'.frames[n].kind.Block?
       && var h := st.frames[n].target;
          && h != SENTINEL && st'.frames[n].target == h
          && SlotIn(st.code, h) && Jump(Slot(st.code, h)) <= -2
          && var next := h + Jump(Slot(st.code, h));
             TailSplit(st.code, st'.code, Tail(st.code, next), BeforeTail(st.code, h, next), |st.code|)
  }

  /** The tail that `else` cuts off. */
  function CutTail(st: State): int
    requires st.frames != []
  {
    Tail(st.code, Innermost(st).target)
  }

  lemma SplitInner(st: State, st': State, lo: nat)
    requires ChainsOk(st, lo) && Split(st, st')
    ensures var n := |st.frames| - 1;
            && Slots(st', n) + [CutTail(st)] == Slots(st, n) && FrameOk(st', n, lo)
            && (forall a :: a in Slots(st', n) ==> a in Slots(st, n) && Apart(a, CutTail(st)))
  {
    hide Slot, Jump, Resolved, TailSplit;
    var n := |st.frames| - 1;
    var h := st.frames[n].target;
    assert FrameOk(st, n, lo);
    TailOfRest(st.code, h, lo);
    ChainCut(st.code, st'.code, h, h + Jump(Slot(st.code, h)), |st.code|, lo);
    CutApart(st.code, st'.code, h, lo);
  }

  /** The tail is the slot with the zero link, and it is sent to the else part. */
  lemma SplitEnd(st: State, st': State, lo: nat)
    requires ChainsOk(st, lo) && Split(st, st')
    ensures forall a :: a in Slots(st, |st.frames| - 1) ==>
              SlotIn(st.code, a) && (Jump(Slot(st.code, a)) == 0 <==> a == CutTail(st))
    ensures SlotIn(st.code, CutTail(st))
    ensures Resolved(Slot(st'.code, CutTail(st)), Slot(st.code, CutTail(st)), |st.code| - CutTail(st))
  {
    hide Slot, Jump, Resolved;
    var n := |st.frames| - 1;
    var h := st.frames[n].target;
    assert FrameOk(st, n, lo);
    TailOfRest(st.code, h, lo);
    ChainTail(st.code, h, lo);
  }

  /** A chain's last slot lies below all others. */
  lemma {:induction false} CutApart(code: seq<Word>, code': seq<Word>, a: int, lo: nat)
    requires ChainOk(code, a, lo)
    requires Chain(code', a) + [Tail(code, a)] == Chain(code, a)
    ensures forall b :: b in Chain(code', a) ==> b in Chain(code, a) && Tail(code, a) + 2 <= b
  {
    var s := Chain(code, a);
    forall b | b in Chain(code', a) ensures b in s && Tail(code, a) + 2 <= b {
      var k :| 0 <= k < |Chain(code', a)| && Chain(code', a)[k] == b;
      assert s[k] == b;
      ChainDown(code, a, lo, k, |s| - 1);
    }
  }

  lemma {:induction false} ChainDown(code: seq<Word>, a: int, lo: nat, i: nat, j: nat)
    requires ChainOk(code, a, lo) && i < j < |Chain(code, a)|
    ensures Chain(code, a)[j] + 2 <= Chain(code, a)[i]
    decreases i
  {
    var next := a + Jump(Slot(code, a));
    TailOfRest(code, a, lo);
    if i == 0 {
      ChainBounds(code, next, lo);
      assert Chain(code, next)[j - 1] in Chain(code, next);
    } else {
      ChainDown(code, next, lo, i - 1, j - 1);
    }
  }

  lemma SplitOk(st: State, st': State, lo: nat)
    requires ChainsOk(st, lo) && Split(st, st')
    ensures ChainsOk(st', lo)
    ensures forall i :: 0 <= i < |st.frames| - 1 ==> Slots(st', i) == Slots(st, i)
    ensures forall i, a :: 0 <= i < |st.frames| - 1 && a in Slots(st, i) ==>
              SlotIn(st.code, a) && Slot(st'.code, a) == Slot(st.code, a)
  {
    hide Slot, Jump, Resolved, Chain, ChainOk;
    var n := |st.frames| - 1;
    SplitInner(st, st', lo);
    SplitWords(st, st', lo);
    forall i | 0 <= i < n
      ensures Slots(st', i) == Slots(st, i) && FrameOk(st', i, lo)
      ensures forall a :: a in Slots(st, i) ==> SlotIn(st.code, a) && Slot(st'.code, a) == Slot(st.code, a)
    {
      forall k | 0 <= k < |st.code| && Covers(Slots(st, i), k) ensures !Covers(Slots(st, n), k) {
        DisjointWords(st, i, n, k, lo);
      }
      SlotsKept(st, st', i, lo);
    }
    forall i, a, b | 0 <= i < n && a in Slots(st', i) && b in Slots(st', n) ensures Apart(a, b) {
      SlotsApart(st, i, n, a, b);
    }
  }

  lemma ChainApart(code: seq<Word>, a: int, lo: nat, b: int, d: int)
    requires ChainOk(code, a, lo) && b in Chain(code, a) && d in Chain(code, a)
    ensures b == d || Apart(b, d)
  {
    var i :| 0 <= i < |Chain(code, a)| && Chain(code, a)[i] == b;
    var j :| 0 <= j < |Chain(code, a)| && Chain(code, a)[j] == d;
    if i < j {
      ChainDown(code, a, lo, i, j);
    } else if j < i {
      ChainDown(code, a, lo, j, i);
    }
  }

  predicate SameFields(g: U32, s: U32) { Label.Arity(g) == Label.Arity(s) && Depth(g) == Depth(s) }

  lemma ResolvedFields(g: U32, s: U32, delta: int)
    requires Resolved(g, s, delta)
    ensures SameFields(g, s)
  {
  }

  lemma ResolvedAgain(g: U32, s': U32, s: U32, delta: int)
    requires Resolved(g, s', delta) && SameFields(s', s)
    ensures Resolved(g, s, delta)
  {
  }

  /** Only words of the if's own chain change, and its slots keep arity and depth. */
  lemma SplitWords(st: State, st': State, lo: nat)
    requires ChainsOk(st, lo) && Split(st, st')
    ensures forall k :: 0 <= k < |st.code| && !Covers(Slots(st, |st.frames| - 1), k) ==> st'.code[k] == st.code[k]
    ensures forall a :: a in Slots(st, |st.frames| - 1) ==>
              SlotIn(st.code, a) && SameFields(Slot(st'.code, a), Slot(st.code, a))
  {
    hide Slot, Jump, Resolved, SameFields;
    var n := |st.frames| - 1;
    var h := st.frames[n].target;
    assert FrameOk(st, n, lo);
    var next := h + Jump(Slot(st.code, h));
    var (tail, before) := (Tail(st.code, next), BeforeTail(st.code, h, next));
    BeforeTailBound(st.code, h, next, lo);
    TailOfRest(st.code, h, lo);
    assert tail in Slots(st, n) && before in Slots(st, n);
    ResolvedFields(Slot(st'.code, tail), Slot(st.code, tail), |st.code| - tail);
    ResolvedFields(Slot(st'.code, before), Slot(st.code, before), 0);
    SlotsIn(st, n, lo);
    forall a | a in Slots(st, n) ensures SameFields(Slot(st'.code, a), Slot(st.code, a)) {
      if a != tail && a != before {
        ChainApart(st.code, h, lo, a, tail);
        ChainApart(st.code, h, lo, a, before);
        assert !Covers([tail, before], a) && !Covers([tail, before], a + 1);
        SlotEqual(st'.code, st.code, a);
        SameFieldsRefl(Slot(st.code, a));
      }
    }
    forall k | 0 <= k < |st.code| && !Covers(Slots(st, n), k) ensures st'.code[k] == st.code[k] {
      assert !Covers([tail, before], k);
    }
  }

  lemma SameFieldsRefl(s: U32)
    ensures SameFields(s, s)
  {
  }

  lemma SplitBack(code: seq<Word>, st: State, st': State, goals: seq<Goal>, goal: Goal, lo: nat)
    requires ChainsOk(st, lo) && Split(st, st') && Agree(code, st', goals + [goal])
    ensures Agree(code, st, goals + [Goal(goal.branch, |st.code|)])
  {
    hide Slot, Jump, Resolved, Chain, ChainOk, TailSplit;
    var n := |st.frames| - 1;
    var goals' := goals + [Goal(goal.branch, |st.code|)];
    SplitOk(st, st', lo);
    SlotsIn(st, n, lo);
    assert forall i :: 0 <= i < n ==> (goals + [goal])[i] == goals[i] == goals'[i];
    SplitFinal(code, st, st', goals, goal, lo);
    SplitSlots(code, st, st', goals, goal, lo);
  }

  /** Words outside the open slots before the `else` are final after it. */
  lemma SplitFinal(code: seq<Word>, st: State, st': State, goals: seq<Goal>, goal: Goal, lo: nat)
    requires ChainsOk(st, lo) && Split(st, st') && Agree(code, st', goals + [goal])
    ensures forall k :: 0 <= k < |st.code| && !Open(st, k) ==> code[k] == st.code[k]
  {
    hide Slot, Jump, Resolved, Chain, ChainOk, TailSplit;
    var n := |st.frames| - 1;
    SplitOk(st, st', lo);
    SplitInner(st, st', lo);
    SplitWords(st, st', lo);
    forall k | 0 <= k < |st.code| && !Open(st, k) ensures code[k] == st.code[k] {
      forall i | 0 <= i <= n ensures !Covers(Slots(st', i), k) { assert !Covers(Slots(st, i), k); }
      assert !Open(st', k);
    }
  }

  /** The slots of the if jump where they should: the tail to the else part, the others to the end. */
  lemma SplitSlots(code: seq<Word>, st: State, st': State, goals: seq<Goal>, goal: Goal, lo: nat)
    requires ChainsOk(st, lo) && Split(st, st') && Agree(code, st', goals + [goal])
    ensures var n := |st.frames| - 1;
            forall a :: a in Slots(st, n) ==>
              SlotIn(st.code, a) && Resolved(Slot(code, a), Slot(st.code, a),
                  GoalOf(st, n, Goal(goal.branch, |st.code|), a) - a)
  {
    hide Slot, Jump, Resolved, Chain, ChainOk, SameFields, TailSplit, ChainsOk, Open;
    var n := |st.frames| - 1;
    SplitInner(st, st', lo);
    SplitEnd(st, st', lo);
    SplitWords(st, st', lo);
    assert |st.code| <= |code|;
    forall a | a in Slots(st, n)
      ensures SlotIn(st.code, a) && SlotIn(code, a)
      ensures Resolved(Slot(code, a), Slot(st.code, a), GoalOf(st, n, Goal(goal.branch, |st.code|), a) - a)
    {
      if a == CutTail(st) {
        SplitTailFinal(code, st, st', goals + [goal], lo);
        SlotEqual(code, st'.code, a);
      } else {
        assert SlotIn(st.code, a) && |st'.code| == |st.code|;
        assert a in Slots(st', n);
        assert (goals + [goal])[n] == goal;
        assert Resolved(Slot(code, a), Slot(st'.code, a), goal.branch - a);
        ResolvedAgain(Slot(code, a), Slot(st'.code, a), Slot(st.code, a), goal.branch - a);
      }
    }
  }

  /** The cut-off tail is final. */
  lemma SplitTailFinal(code: seq<Word>, st: State, st': State, goals: seq<Goal>, lo: nat)
    requires ChainsOk(st, lo) && Split(st, st') && Agree(code, st', goals)
    ensures var t := CutTail(st);
            SlotIn(st.code, t) && code[t] == st'.code[t] && code[t + 1] == st'.code[t + 1]
  {
    hide Slot, Jump, Resolved, Chain, ChainOk;
    var n := |st.frames| - 1;
    SplitOk(st, st', lo);
    SplitInner(st, st', lo);
    SplitEnd(st, st', lo);
    var t := CutTail(st);
    assert t in Slots(st, n);
    forall k | k == t || k == t + 1 ensures !Open(st', k) {
      assert Covers(Slots(st, n), k);
      forall i | 0 <= i < n ensures !Covers(Slots(st', i), k) { DisjointWords(st, n, i, k, lo); }
    }
  }
}
