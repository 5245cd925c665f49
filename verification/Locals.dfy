/** Where locals live in a frame: what `get_local` (src/text.rs) finds, including the 16-bit
    wrap-around of its index counter. */
module Locals {
  import opened Values
  import opened Ir
  import opened Wasm
  import opened Text

  /** Parameters, then declared locals. */
  function LocalTypes(sig: FuncSig, groups: seq<LocalGroup>): seq<ValType> {
    sig.params + GroupTypes(groups)
  }

  /** The offset of a local from the frame pointer, in words: parameters end at the frame pointer,
      declared locals start after the two header words. */
  function FrameOffset(sig: FuncSig, groups: seq<LocalGroup>, x: nat): int
    requires x < |LocalTypes(sig, groups)|
  {
    var np := |sig.params|;
    if x < np then WordLen(sig.params[..x]) - WordLen(sig.params)
    else 2 + WordLen(GroupTypes(groups)[..x - np])
  }

  lemma {:induction false} WordLenRepeat(n: nat, t: ValType)
    ensures WordLen(Repeat(n, t)) == n * Width(t)
  {
    if n > 0 {
      WordLenRepeat(n - 1, t);
      assert Repeat(n, t)[..n - 1] == Repeat(n - 1, t);
      assert (n - 1) * Width(t) + Width(t) == n * Width(t);
    }
  }

  lemma {:induction false} RepeatAt(n: nat, t: ValType, k: nat)
    requires k <= n
    ensures Repeat(n, t)[..k] == Repeat(k, t)
    ensures k < n ==> Repeat(n, t)[k] == t
  {
    if k < n { RepeatAt(n - 1, t, k); }
  }

  lemma {:induction false} WordLenAtLeast(ts: seq<ValType>)
    ensures WordLen(ts) >= |ts|
  {
    if ts != [] { WordLenAtLeast(ts[..|ts| - 1]); }
  }

  /** Far into the frame nothing is found: the offset no longer fits. */
  lemma {:induction false} FindLocalFar(groups: seq<LocalGroup>, x: Word, index: Word, offset: nat)
    requires index <= x && offset > 0x7FFF - 2
    ensures FindLocal(groups, x, index, offset).Err?
    decreases |groups|
  {
    if groups != [] {
      var end: Word := (index + groups[0].count) % 0x1_0000;
      assert Width(groups[0].ty) * (x - index) >= 0;
      if end <= x {
        FindLocalFar(groups[1..], x, end, offset + Width(groups[0].ty) * groups[0].count);
      }
    }
  }

  /** The number of declared locals up to the end of the group that holds local `k`. */
  function GroupEnd(groups: seq<LocalGroup>, k: nat): nat
    requires k < |GroupTypes(groups)|
  {
    var n := groups[0].count;
    if k < n then n else n + GroupEnd(groups[1..], k - n)
  }

  /** The group that makes the counter wrap hides itself and every later local. */
  lemma FindLocalWraps(groups: seq<LocalGroup>, x: Word, index: Word, offset: nat)
    requires groups != [] && index <= x && index <= 0xFF + offset && index + groups[0].count > 0xFFFF
    ensures FindLocal(groups, x, index, offset).Err?
  {
    var g := groups[0];
    assert Width(g.ty) * g.count >= g.count;
    assert (index + g.count) % 0x1_0000 == index + g.count - 0x1_0000;
    FindLocalFar(groups[1..], x, index + g.count - 0x1_0000, offset + Width(g.ty) * g.count);
  }

  /** A local in the first group. */
  lemma FindLocalHere(groups: seq<LocalGroup>, x: Word, index: Word, offset: nat)
    requires groups != [] && index <= x < index + groups[0].count <= 0xFFFF
    ensures var k := x - index;
            && k < |GroupTypes(groups)|
            && GroupTypes(groups)[k] == groups[0].ty
            && WordLen(GroupTypes(groups)[..k]) == Width(groups[0].ty) * k
            && FindLocal(groups, x, index, offset)
               == (if 2 + offset + Width(groups[0].ty) * k <= 0x7FFF
                   then Ok(LocalVar(2 + offset + Width(groups[0].ty) * k, groups[0].ty))
                   else Err(LocalIdxOutOfRange))
  {
    var g := groups[0];
    var k := x - index;
    RepeatAt(g.count, g.ty, k);
    WordLenRepeat(k, g.ty);
    assert GroupTypes(groups)[..k] == Repeat(g.count, g.ty)[..k];
  }

  /** A declared local is found exactly when its offset fits 16 signed bits and the index counter has
      not wrapped by the end of its group; what is found is its place. */
  lemma {:induction false} FindLocalExact(groups: seq<LocalGroup>, x: Word, index: Word, offset: nat)
    requires index <= x && index <= 0xFF + offset
    ensures var k := x - index;
            FindLocal(groups, x, index, offset).Ok? <==>
            && k < |GroupTypes(groups)|
            && index + GroupEnd(groups, k) <= 0xFFFF
            && 2 + offset + WordLen(GroupTypes(groups)[..k]) <= 0x7FFF
    ensures var r := FindLocal(groups, x, index, offset);
            var k := x - index;
            r.Ok? ==> r.value == LocalVar(2 + offset + WordLen(GroupTypes(groups)[..k]), GroupTypes(groups)[k])
    decreases |groups|
  {
    hide GroupTypes, Repeat, WordLen, GroupEnd, Width;
    if groups == [] {
      NoGroups();
    } else {
      var g := groups[0];
      var k := x - index;
      if index + g.count > 0xFFFF {
        FindLocalWraps(groups, x, index, offset);
        if k < |GroupTypes(groups)| { GroupEndFirst(groups, k); }
      } else if k < g.count {
        FindLocalHere(groups, x, index, offset);
        GroupEndHere(groups, k);
      } else {
        WidthAtLeast(g.ty, g.count);
        FindLocalExact(groups[1..], x, index + g.count, offset + Width(g.ty) * g.count);
        FindLocalPast(groups, x, index, offset);
        SkipGroup(groups, k);
      }
    }
  }

  lemma WidthAtLeast(t: ValType, n: nat)
    ensures Width(t) * n >= n
  {
  }

  lemma FindLocalPast(groups: seq<LocalGroup>, x: Word, index: Word, offset: nat)
    requires groups != [] && index <= x && index + groups[0].count <= x && Width(groups[0].ty) * groups[0].count >= 0
    ensures FindLocal(groups, x, index, offset)
         == FindLocal(groups[1..], x, index + groups[0].count, offset + Width(groups[0].ty) * groups[0].count)
  {
    hide Width;
  }

  lemma GroupEndHere(groups: seq<LocalGroup>, k: nat)
    requires groups != [] && k < groups[0].count && k < |GroupTypes(groups)|
    ensures GroupEnd(groups, k) == groups[0].count
  {
  }

  lemma NoGroups()
    ensures GroupTypes([]) == []
  {
  }

  lemma GroupEndFirst(groups: seq<LocalGroup>, k: nat)
    requires k < |GroupTypes(groups)|
    ensures GroupEnd(groups, k) >= groups[0].count
  {
  }

  lemma SkipGroup(groups: seq<LocalGroup>, k: nat)
    requires groups != [] && groups[0].count <= k
    ensures var k' := k - groups[0].count;
            && (k < |GroupTypes(groups)| <==> k' < |GroupTypes(groups[1..])|)
            && (k < |GroupTypes(groups)| ==>
                  && GroupTypes(groups)[k] == GroupTypes(groups[1..])[k']
                  && WordLen(GroupTypes(groups)[..k])
                     == Width(groups[0].ty) * groups[0].count + WordLen(GroupTypes(groups[1..])[..k'])
                  && GroupEnd(groups, k) == groups[0].count + GroupEnd(groups[1..], k'))
  {
    var g := groups[0];
    var k' := k - g.count;
    if k < |GroupTypes(groups)| {
      assert GroupTypes(groups)[..k] == Repeat(g.count, g.ty) + GroupTypes(groups[1..])[..k'];
      WordLenConcat(Repeat(g.count, g.ty), GroupTypes(groups[1..])[..k']);
      WordLenRepeat(g.count, g.ty);
    }
  }

  /** `get_local` finds exactly these locals, and finds each in its own place. */
  lemma GetLocalExact(c: Context, x: nat)
    requires WordLen(c.sig.params) <= 0xFF
    ensures var np := |c.sig.params|;
            GetLocal(c, x).Ok? <==>
            && x < |LocalTypes(c.sig, c.groups)|
            && (x >= np ==> np + GroupEnd(c.groups, x - np) <= 0xFFFF && FrameOffset(c.sig, c.groups, x) <= 0x7FFF)
    ensures GetLocal(c, x).Ok? ==>
            GetLocal(c, x).value == LocalVar(FrameOffset(c.sig, c.groups, x), LocalTypes(c.sig, c.groups)[x])
  {
    var np := |c.sig.params|;
    WordLenAtLeast(c.sig.params);
    if x < np {
      assert c.sig.params == c.sig.params[..x] + c.sig.params[x..];
      WordLenConcat(c.sig.params[..x], c.sig.params[x..]);
      WordLenAtLeast(c.sig.params[x..]);
    } else if x <= 0xFFFF {
      FindLocalExact(c.groups, x, np, 0);
    } else if x < |LocalTypes(c.sig, c.groups)| {
      GroupEndAfter(c.groups, x - np);
    }
  }

  lemma {:induction false} GroupEndAfter(groups: seq<LocalGroup>, k: nat)
    requires k < |GroupTypes(groups)|
    ensures GroupEnd(groups, k) > k
    decreases |groups|
  {
    if k >= groups[0].count { GroupEndAfter(groups[1..], k - groups[0].count); }
  }

  lemma WordLenPrefix(ts: seq<ValType>, i: nat, j: nat)
    requires i <= j <= |ts|
    ensures WordLen(ts[..i]) <= WordLen(ts[..j])
    ensures i < j ==> WordLen(ts[..i]) + Width(ts[i]) <= WordLen(ts[..j])
  {
    assert ts[..j] == ts[..i] + ts[i..j];
    WordLenConcat(ts[..i], ts[i..j]);
    if i < j {
      assert ts[i..j] == [ts[i]] + ts[i + 1..j];
      WordLenConcat([ts[i]], ts[i + 1..j]);
      assert [ts[i]][..0] == [];
    }
  }

  /** Parameters fill the words just below the frame pointer; locals lie between the header and the
      operands. */
  lemma LayoutRange(sig: FuncSig, groups: seq<LocalGroup>, x: nat)
    requires x < |LocalTypes(sig, groups)|
    ensures var (o, w) := (FrameOffset(sig, groups, x), Width(LocalTypes(sig, groups)[x]));
            if x < |sig.params| then 0 <= WordLen(sig.params) + o && o + w <= 0
            else 2 <= o && o + w <= 2 + WordLen(GroupTypes(groups))
  {
    var np := |sig.params|;
    if x < np {
      WordLenPrefix(sig.params, x, np);
      assert sig.params[..np] == sig.params;
    } else {
      var ts := GroupTypes(groups);
      WordLenPrefix(ts, x - np, |ts|);
      assert ts[..|ts|] == ts;
    }
  }

  /** No two locals share a word. */
  lemma LayoutDisjoint(sig: FuncSig, groups: seq<LocalGroup>, x: nat, y: nat)
    requires x < y < |LocalTypes(sig, groups)|
    ensures FrameOffset(sig, groups, x) + Width(LocalTypes(sig, groups)[x]) <= FrameOffset(sig, groups, y)
  {
    var np := |sig.params|;
    if y < np {
      WordLenPrefix(sig.params, x, y);
    } else if np <= x {
      WordLenPrefix(GroupTypes(groups), x - np, y - np);
    } else {
      LayoutRange(sig, groups, x);
      LayoutRange(sig, groups, y);
    }
  }

  /** A local the specification allows and the compiler refuses: with four parameters and 65,532
      declared locals the 16-bit counter wraps inside the only group. */
  lemma HiddenLocal(c: Context)
    requires c.sig.params == [ValType.I32, ValType.I32, ValType.I32, ValType.I32]
    requires c.groups == [LocalGroup(65532, ValType.I32)]
    ensures 4 < |LocalTypes(c.sig, c.groups)|
    ensures GetLocal(c, 4) == Err(LocalIdxOutOfRange)
  {
    var (groups, w) := (c.groups, LocalGroup(65532, ValType.I32));
    assert groups[0] == w && groups[1..] == [];
    assert GroupTypes(groups) == Repeat(w.count, w.ty) + GroupTypes(groups[1..]);
    assert FindLocal(groups, 4, 4, 0) == FindLocal(groups[1..], 4, 0, 65532);
  }
}
