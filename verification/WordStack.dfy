/** The engine's stack memory (src/stack.rs): 32-bit words, read and written without checks. */
module WordStack {
  import opened Values
  import opened Machine

  class Stack {
    const words: array<U32>

    /** All words, the unused ones included. */
    ghost function Words(): (ws: seq<U32>)
      reads words
      ensures |ws| == words.Length
    {
      words[..]
    }

    constructor (size: nat)
      ensures fresh(words) && words.Length == size
    {
      words := new U32[size](_ => 0);
    }

    method ReadU32(a: nat) returns (w: U32)
      requires a < words.Length
      ensures w == Words()[a]
    {
      w := words[a];
    }

    method WriteU32(a: nat, w: U32)
      requires a < words.Length
      modifies words
      ensures Words() == Put(old(Words()), a, w)
    {
      words[a] := w;
    }

    method ReadU64(a: nat) returns (d: U64)
      requires a + 2 <= words.Length
      ensures d == Join64(Words()[a], Words()[a + 1])
    {
      d := Join64(words[a], words[a + 1]);
    }

    method WriteU64(a: nat, d: U64)
      requires a + 2 <= words.Length
      modifies words
      ensures Words() == Put(Put(old(Words()), a, Low32(d)), a + 1, High32(d))
    {
      words[a] := Low32(d);
      words[a + 1] := High32(d);
    }
  }

  // ----- stacks as sequences -----

  function Put(ws: seq<U32>, a: nat, w: U32): (r: seq<U32>)
    requires a < |ws|
    ensures |r| == |ws|
  {
    ws[a := w]
  }

  lemma PutOne(ws: seq<U32>, a: nat, w: U32)
    requires a < |ws|
    ensures Put(ws, a, w)[..a + 1] == ws[..a] + [w]
  {
  }

  lemma PutTwo(ws: seq<U32>, a: nat, lo: U32, hi: U32)
    requires a + 2 <= |ws|
    ensures Put(Put(ws, a, lo), a + 1, hi)[..a + 2] == ws[..a] + [lo, hi]
  {
  }

  /** Parts of the stack below the stack pointer are parts of the stack. */
  lemma Cut(ws: seq<U32>, a: nat, sp: nat)
    requires a <= sp <= |ws|
    ensures ws[..sp][..a] == ws[..a] && ws[..sp][a..] == ws[a..sp]
  {
  }

  lemma OneWord(ws: seq<U32>, a: nat)
    requires a < |ws|
    ensures ws[a..a + 1] == [ws[a]]
  {
  }

  lemma TwoWords(ws: seq<U32>, a: nat)
    requires a + 2 <= |ws|
    ensures ws[a..a + 2] == [ws[a], ws[a + 1]]
  {
  }

  lemma PutOneInside(ws: seq<U32>, a: nat, sp: nat, w: U32)
    requires a < sp <= |ws|
    ensures Put(ws, a, w)[..sp] == SetWords(ws[..sp], a, [w])
  {
  }

  lemma PutTwoInside(ws: seq<U32>, a: nat, sp: nat, lo: U32, hi: U32)
    requires a + 2 <= sp <= |ws|
    ensures Put(Put(ws, a, lo), a + 1, hi)[..sp] == SetWords(ws[..sp], a, [lo, hi])
  {
  }

  lemma JoinParts(lo: U32, hi: U32)
    ensures Low32(Join64(lo, hi)) == lo && High32(Join64(lo, hi)) == hi
  {
  }
}
