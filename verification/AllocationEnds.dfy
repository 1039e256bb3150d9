/** When allocateMemory comes back at all: its recursion, call by call, with nodes always at hand. */
module AllocationEnds {
  import opened BuddyTree

  datatype Answer = StillRunning | Null | Granted

  /** What a call of allocateMemory has answered within n nested calls. */
  function Within(t: Tree, need: nat, n: nat): Answer
    decreases n
  {
    if n == 0 then StillRunning
    else if need > t.slotSize then Null
    else match t
      case Occupied(_, _) => Null
      case Split(_, l, h) =>
        var a := Within(l, need, n - 1);
        if a == Null then Within(h, need, n - 1) else a
      case Free(s) =>
        if s / 2 < need then Granted else Within(Split(s, Free(s / 2), Free(s / 2)), need, n - 1)
  }

  ghost predicate Ends(t: Tree, need: nat) {
    exists n: nat :: !Within(t, need, n).StillRunning?
  }

  /** A request of size 0 is never granted, however long one waits. */
  lemma {:induction false} NothingForZero(t: Tree, n: nat)
    ensures !Within(t, 0, n).Granted?
    decreases n
  {
    if n > 0 {
      match t
      case Occupied(_, _) =>
      case Split(_, l, h) =>
        NothingForZero(l, n - 1);
        NothingForZero(h, n - 1);
      case Free(s) =>
        NothingForZero(Split(s, Free(s / 2), Free(s / 2)), n - 1);
    }
  }

  /** Size 0 splits a free leaf, and a free leaf of that, without end. */
  lemma {:induction false} ZeroSplitsForEver(t: Tree, base: int, n: nat)
    requires FreeLeaves(t, base) != []
    ensures Within(t, 0, n).StillRunning?
    decreases n
  {
    if n > 0 {
      match t
      case Split(s, l, h) =>
        if FreeLeaves(l, base) != [] {
          ZeroSplitsForEver(l, base, n - 1);
        } else {
          NothingForZero(l, n - 1);
          ZeroSplitsForEver(h, base + s / 2, n - 1);
        }
      case Free(s) =>
        var t' := Split(s, Free(s / 2), Free(s / 2));
        assert FreeLeaves(t', base) == [(base, s / 2)] + FreeLeaves(t'.high, base + s / 2);
        ZeroSplitsForEver(t', base, n - 1);
    }
  }

  /** An answer does not change afterwards. */
  lemma {:induction false} AnswerStays(t: Tree, need: nat, n: nat, m: nat)
    requires !Within(t, need, n).StillRunning? && n <= m
    ensures Within(t, need, m) == Within(t, need, n)
    decreases n
  {
    match t
    case Occupied(_, _) =>
    case Split(_, l, h) =>
      if need <= t.slotSize {
        AnswerStays(l, need, n - 1, m - 1);
        if Within(l, need, n - 1) == Null {
          AnswerStays(h, need, n - 1, m - 1);
        }
      }
    case Free(s) =>
      if need <= t.slotSize && need <= s / 2 {
        AnswerStays(Split(s, Free(s / 2), Free(s / 2)), need, n - 1, m - 1);
      }
  }

  /** Without a free leaf size 0 is refused like any other. */
  lemma {:induction false} ZeroRefused(t: Tree, base: int) returns (n: nat)
    requires FreeLeaves(t, base) == []
    ensures Within(t, 0, n) == Null
  {
    match t
    case Occupied(_, _) =>
      n := 1;
    case Split(s, l, h) =>
      var a := ZeroRefused(l, base);
      var b := ZeroRefused(h, base + s / 2);
      n := 1 + if a > b then a else b;
      AnswerStays(l, 0, a, n - 1);
      AnswerStays(h, 0, b, n - 1);
  }

  /** What Alloc says, as an answer. */
  function Said(t: Tree, need: nat, base: int): Answer
    requires Shaped(t) && need >= 1
  {
    if Alloc(t, need, base).1.Some? then Granted else Null
  }

  /** A split node answers once its halves have. */
  lemma HalvesAnswer(t: Tree, need: nat, base: int, a: nat, b: nat) returns (n: nat)
    requires Shaped(t) && t.Split? && 1 <= need <= t.slotSize
    requires Within(t.low, need, a) == Said(t.low, need, base)
    requires Within(t.high, need, b) == Said(t.high, need, base + t.slotSize / 2)
    ensures Within(t, need, n) == Said(t, need, base)
  {
    hide Alloc, Shaped;
    n := 1 + if a > b then a else b;
    AnswerStays(t.low, need, a, n - 1);
    AnswerStays(t.high, need, b, n - 1);
    AllocHalves(t, need, base);
  }

  /** A request of at least one byte is answered, and as Alloc says. */
  lemma {:induction false} RequestEnds(t: Tree, need: nat, base: int) returns (n: nat)
    requires Shaped(t) && need >= 1
    ensures Within(t, need, n) == Said(t, need, base)
    decreases t.slotSize, if t.Free? then 1 else 0
  {
    n := 1;
    if need <= t.slotSize {
      match t
      case Occupied(_, _) =>
      case Split(s, l, h) =>
        var a := RequestEnds(l, need, base);
        var b := RequestEnds(h, need, base + s / 2);
        n := HalvesAnswer(t, need, base, a, b);
      case Free(s) =>
        if need <= s / 2 {
          var a := RequestEnds(Split(s, Free(s / 2), Free(s / 2)), need, base);
          n := a + 1;
        }
    }
  }

  /** Exactly when allocateMemory comes back: for every size but 0, and for 0 when nothing is free. */
  lemma AllocationEndsIff(t: Tree, need: nat, base: int)
    requires Shaped(t)
    ensures Ends(t, need) <==> need >= 1 || FreeLeaves(t, base) == []
  {
    if need >= 1 {
      var n := RequestEnds(t, need, base);
      assert !Within(t, need, n).StillRunning?;
    } else if FreeLeaves(t, base) == [] {
      var n := ZeroRefused(t, base);
      assert !Within(t, need, n).StillRunning?;
    } else {
      forall n: nat ensures Within(t, need, n).StillRunning? {
        ZeroSplitsForEver(t, base, n);
      }
    }
  }
}
