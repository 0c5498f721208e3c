/** The inventory helpers of TaskUtils: getAmountsPerSlot counts the matching
    items in the 36 storage slots of a player's inventory, and
    removeItemsInSlots takes a number of items out of the slots a count
    flagged. */
module Inventory {
  import opened JavaLang

  const SLOTS: nat := 36

  /** An item stack in an inventory slot. Its kind (material and meta) stays
      the same; its amount is updated in place. */
  class ItemStack {
    const kind: string
    var amount: int32

    constructor (kind: string, amount: int32)
      ensures this.kind == kind && this.amount == amount
    {
      this.kind := kind;
      this.amount := amount;
    }
  }

  /** What a slot holds at one moment: nothing, or a stack of some kind and
      amount. */
  datatype Stack = Stack(kind: string, amount: int32)

  /** The stacks held by an inventory. */
  function Stacks(inventory: array<ItemStack?>): set<ItemStack>
    reads inventory
  {
    set i | 0 <= i < inventory.Length && inventory[i] != null :: inventory[i]
  }

  /** Each slot holds its own stack object. */
  predicate DistinctStacks(inventory: array<ItemStack?>)
    reads inventory
  {
    forall i, j :: 0 <= i < j < inventory.Length && inventory[i] != null ==> inventory[i] != inventory[j]
  }

  /** What a slot holds now. */
  function View(stack: ItemStack?): Option<Stack>
    reads stack
  {
    if stack == null then None else Some(Stack(stack.kind, stack.amount))
  }

  /** What the first n slots of an inventory hold. */
  function Contents(inventory: array<ItemStack?>, n: nat): (r: seq<Option<Stack>>)
    requires n <= inventory.Length
    reads inventory, Stacks(inventory)
    ensures |r| == n
    ensures forall i :: 0 <= i < n ==> r[i] == View(inventory[i])
  {
    if n == 0 then [] else Contents(inventory, n - 1) + [View(inventory[n - 1])]
  }

  // ---------------------------------------------------------------------------
  // getAmountsPerSlot

  /** The amount of matching items in each slot: the stack's amount when the
      slot holds a stack the quest item accepts, 0 otherwise. */
  function Counted(contents: seq<Option<Stack>>, accepts: string -> bool): (r: seq<int32>)
    ensures |r| == |contents|
    ensures forall i :: 0 <= i < |contents| ==>
              r[i] == (if contents[i].Some? && accepts(contents[i].value.kind) then contents[i].value.amount else 0)
  {
    if contents == [] then []
    else
      Counted(contents[..|contents| - 1], accepts) +
        [var c := contents[|contents| - 1]; if c.Some? && accepts(c.value.kind) then c.value.amount else 0]
  }

  /** The mathematical sum of some ints. */
  function Sum(xs: seq<int32>): int
  {
    if xs == [] then 0 else Sum(xs[..|xs| - 1]) + xs[|xs| - 1] as int
  }

  /** TaskUtils.getAmountsPerSlot: a fresh int[37] holding, for each of the
      first 36 slots, the number of matching items in it, and at index 36
      their total, accumulated in int arithmetic. `accepts` is the quest
      item's comparison of a stack. */
  method GetAmountsPerSlot(inventory: array<ItemStack?>, accepts: string -> bool) returns (slotToAmount: array<int32>)
    requires inventory.Length >= SLOTS
    ensures fresh(slotToAmount) && slotToAmount.Length == SLOTS + 1
    ensures slotToAmount[..SLOTS] == Counted(Contents(inventory, SLOTS), accepts)
    ensures slotToAmount[SLOTS] == Wrap(Sum(slotToAmount[..SLOTS]))
  {
    slotToAmount := new int32[SLOTS + 1](_ => 0);
    ghost var contents := Contents(inventory, SLOTS);
    ghost var counted := Counted(contents, accepts);
    for i := 0 to SLOTS
      invariant slotToAmount[..i] == counted[..i]
      invariant forall k :: i <= k < SLOTS ==> slotToAmount[k] == 0
      invariant slotToAmount[SLOTS] == Wrap(Sum(counted[..i]))
    {
      RunningTotalStep(counted, i);
      var slot := inventory[i];
      assert contents[i] == View(slot);
      if slot == null || !accepts(slot.kind) {
        continue;
      }
      slotToAmount[SLOTS] := Add32(slotToAmount[SLOTS], slot.amount);
      slotToAmount[i] := slot.amount;
    }
    assert counted[..SLOTS] == counted;
    assert slotToAmount[..SLOTS] == counted;
    assert Contents(inventory, SLOTS) == contents;
  }

  /** One step of the running total: adding the next count in int arithmetic
      keeps the total equal to the wrapped sum so far. */
  lemma RunningTotalStep(xs: seq<int32>, i: nat)
    requires i < |xs|
    ensures Wrap(Sum(xs[..i + 1])) == Add32(Wrap(Sum(xs[..i])), xs[i])
    ensures xs[i] == 0 ==> Wrap(Sum(xs[..i + 1])) == Wrap(Sum(xs[..i]))
  {
    assert xs[..i + 1][..i] == xs[..i];
    WrapAdd(Sum(xs[..i]), xs[i] as int);
  }

  /** With amounts no larger than a stack can hold (at most 127), the total
      at index 36 does not wrap around and is the true number of matching
      items. */
  lemma {:induction false} CountedTotalExact(contents: seq<Option<Stack>>, accepts: string -> bool)
    requires |contents| <= SLOTS
    requires forall i :: 0 <= i < |contents| && contents[i].Some? ==> 0 <= contents[i].value.amount <= 127
    ensures 0 <= Sum(Counted(contents, accepts)) <= 127 * |contents|
    ensures Wrap(Sum(Counted(contents, accepts))) as int == Sum(Counted(contents, accepts))
  {
    SumBounds(Counted(contents, accepts), 127);
  }

  lemma {:induction false} SumBounds(xs: seq<int32>, bound: nat)
    requires forall i :: 0 <= i < |xs| ==> 0 <= xs[i] as int <= bound
    ensures 0 <= Sum(xs) <= bound * |xs|
  {
    if xs != [] {
      SumBounds(xs[..|xs| - 1], bound);
    }
  }

  // ---------------------------------------------------------------------------
  // removeItemsInSlots

  /** `Math.max(0, x)`. */
  function AtLeastZero(x: int32): int32 { if x < 0 then 0 else x }

  /** The slots a per-slot count flags: those whose count is not 0. */
  function Flags(amountPerSlot: seq<int32>): (r: seq<bool>)
    ensures |r| == |amountPerSlot|
    ensures forall i :: 0 <= i < |r| ==> (r[i] <==> amountPerSlot[i] != 0)
  {
    if amountPerSlot == [] then [] else Flags(amountPerSlot[..|amountPerSlot| - 1]) + [amountPerSlot[|amountPerSlot| - 1] != 0]
  }

  /** What removeItemsInSlots leaves in the slots, visited in order: a flagged
      slot holding a stack of `in` items is set to max(0, in - remaining), the
      remaining count drops by `in`, and the sweep stops once it is <= 0.
      Unflagged and empty slots, and the slots after the stop, keep what they
      hold; no slot is emptied or filled, and no changed amount is negative. */
  function Sweep(flags: seq<bool>, contents: seq<Option<Stack>>, remaining: int32): (r: seq<Option<Stack>>)
    requires |flags| == |contents|
    ensures |r| == |contents|
  {
    if contents == [] then []
    else if !flags[0] || contents[0].None? then
      [contents[0]] + Sweep(flags[1..], contents[1..], remaining)
    else
      var inStack := contents[0].value.amount;
      var left := Sub32(remaining, inStack);
      var slot := Some(contents[0].value.(amount := AtLeastZero(Sub32(inStack, remaining))));
      if left <= 0 then [slot] + contents[1..]
      else [slot] + Sweep(flags[1..], contents[1..], left)
  }

  /** The sweep leaves unflagged slots as they are, never empties or fills a
      slot or changes the kind of its stack, and never leaves a negative
      amount in a slot it changes. */
  lemma {:induction false} SweepKeeps(flags: seq<bool>, contents: seq<Option<Stack>>, remaining: int32)
    requires |flags| == |contents|
    ensures var r := Sweep(flags, contents, remaining);
            && (forall i :: 0 <= i < |r| && !flags[i] ==> r[i] == contents[i])
            && (forall i :: 0 <= i < |r| ==> (r[i].None? <==> contents[i].None?))
            && (forall i :: 0 <= i < |r| && r[i].Some? ==> r[i].value.kind == contents[i].value.kind)
            && (forall i :: 0 <= i < |r| && r[i] != contents[i] ==> r[i].value.amount >= 0)
  {
    if contents != [] {
      var r := Sweep(flags, contents, remaining);
      var inStack := if contents[0].Some? then contents[0].value.amount else 0;
      var left := Sub32(remaining, inStack);
      if !flags[0] || contents[0].None? || left > 0 {
        var rem := if !flags[0] || contents[0].None? then remaining else left;
        SweepKeeps(flags[1..], contents[1..], rem);
        assert r[1..] == Sweep(flags[1..], contents[1..], rem);
      } else {
        assert r[1..] == contents[1..];
      }
      forall i | 0 < i < |r| ensures r[i] == r[1..][i - 1] && contents[i] == contents[1..][i - 1] && flags[i] == flags[1..][i - 1] { }
    }
  }

  /** One step of the sweep, at slot i. */
  lemma SweepAt(flags: seq<bool>, contents: seq<Option<Stack>>, remaining: int32, i: nat)
    requires |flags| == |contents| && i < |contents|
    ensures var s := Sweep(flags[i..], contents[i..], remaining);
            && (!flags[i] || contents[i].None? ==>
                  s == [contents[i]] + Sweep(flags[i + 1..], contents[i + 1..], remaining))
            && (flags[i] && contents[i].Some? ==>
                  var inStack := contents[i].value.amount;
                  var left := Sub32(remaining, inStack);
                  s[0] == Some(contents[i].value.(amount := AtLeastZero(Sub32(inStack, remaining)))) &&
                  s[1..] == (if left <= 0 then contents[i + 1..] else Sweep(flags[i + 1..], contents[i + 1..], left)))
  {
    assert flags[i..][1..] == flags[i + 1..];
    assert contents[i..][1..] == contents[i + 1..];
  }

  /** TaskUtils.removeItemsInSlots on the first 36 slots of an inventory. */
  method RemoveItemsInSlots(inventory: array<ItemStack?>, amountPerSlot: array<int32>, amountToRemove: int32)
    requires inventory.Length >= SLOTS && amountPerSlot.Length >= SLOTS
    requires DistinctStacks(inventory)
    modifies Stacks(inventory)
    ensures Contents(inventory, SLOTS) ==
            Sweep(Flags(amountPerSlot[..SLOTS]), old(Contents(inventory, SLOTS)), amountToRemove)
    ensures Contents(inventory, inventory.Length)[SLOTS..] == old(Contents(inventory, inventory.Length))[SLOTS..]
  {
    ghost var before := Contents(inventory, inventory.Length);
    ghost var start := before[..SLOTS];
    assert start == Contents(inventory, SLOTS);
    ghost var flags := Flags(amountPerSlot[..SLOTS]);
    ghost var goal := Sweep(flags, start, amountToRemove);
    assert flags[0..] == flags && start[0..] == start;
    var remaining := amountToRemove;
    var i := 0;
    while i < SLOTS
      invariant 0 <= i <= SLOTS
      invariant forall k :: i <= k < inventory.Length ==> View(inventory[k]) == before[k]
      invariant forall k :: 0 <= k < i ==> View(inventory[k]) == goal[k]
      invariant goal[i..] == Sweep(flags[i..], start[i..], remaining)
    {
      SweepAt(flags, start, remaining, i);
      if amountPerSlot[i] == 0 {
        i := i + 1;
        continue;
      }
      var slot := inventory[i];
      if slot == null {
        i := i + 1;
        continue;
      }
      remaining := TakeFromSlot(inventory, i, remaining);
      if remaining <= 0 {
        assert forall k :: i < k < SLOTS ==> goal[k] == start[k] by {
          assert goal[i + 1..] == start[i + 1..];
        }
        assert forall k :: 0 <= k < SLOTS ==> View(inventory[k]) == goal[k];
        break;
      }
      i := i + 1;
    }
    ContentsAgree(inventory, before, goal);
  }

  /** The body of removeItemsInSlots for a flagged slot holding a stack: the
      stack keeps max(0, amount - remaining) items and the new remaining count
      is returned; no other slot changes. */
  method TakeFromSlot(inventory: array<ItemStack?>, i: nat, remaining: int32) returns (left: int32)
    requires i < inventory.Length && inventory[i] != null && DistinctStacks(inventory)
    modifies inventory[i]
    ensures View(inventory[i]) ==
            Some(old(View(inventory[i])).value.(amount := AtLeastZero(Sub32(old(inventory[i].amount), remaining))))
    ensures left == Sub32(remaining, old(inventory[i].amount))
    ensures forall k :: 0 <= k < inventory.Length && k != i ==> View(inventory[k]) == old(View(inventory[k]))
  {
    var slot := inventory[i];
    var amountInStack := slot.amount;
    slot.amount := AtLeastZero(Sub32(amountInStack, remaining));
    left := Sub32(remaining, amountInStack);
    assert forall k :: 0 <= k < inventory.Length && k != i ==> inventory[k] != slot;
  }

  /** Slot-by-slot agreement gives agreement of the contents. */
  lemma ContentsAgree(inventory: array<ItemStack?>, before: seq<Option<Stack>>, goal: seq<Option<Stack>>)
    requires SLOTS <= inventory.Length == |before| && |goal| == SLOTS
    requires forall k :: 0 <= k < SLOTS ==> View(inventory[k]) == goal[k]
    requires forall k :: SLOTS <= k < inventory.Length ==> View(inventory[k]) == before[k]
    ensures Contents(inventory, SLOTS) == goal
    ensures Contents(inventory, inventory.Length)[SLOTS..] == before[SLOTS..]
  {
    var after := Contents(inventory, inventory.Length);
    assert forall k :: 0 <= k < |after| - SLOTS ==> after[SLOTS..][k] == before[SLOTS..][k];
  }

  // ---------------------------------------------------------------------------
  // Removing what was counted

  /** The number of items in some slots. */
  function Total(contents: seq<Option<Stack>>): int
  {
    if contents == [] then 0
    else (if contents[0].Some? then contents[0].value.amount as int else 0) + Total(contents[1..])
  }

  /** The number of items in the flagged slots. */
  function FlaggedTotal(flags: seq<bool>, contents: seq<Option<Stack>>): int
    requires |flags| == |contents|
  {
    if contents == [] then 0
    else (if flags[0] && contents[0].Some? then contents[0].value.amount as int else 0) + FlaggedTotal(flags[1..], contents[1..])
  }

  predicate NonNegative(contents: seq<Option<Stack>>)
  {
    forall i :: 0 <= i < |contents| && contents[i].Some? ==> contents[i].value.amount >= 0
  }

  /** With no negative amounts and a non-negative count to remove, the sweep
      removes exactly as many items as asked for, or every flagged item when
      there are fewer. */
  lemma {:induction false} SweepRemovesRequested(flags: seq<bool>, contents: seq<Option<Stack>>, remaining: int32)
    requires |flags| == |contents| && NonNegative(contents) && remaining >= 0
    ensures var removed := Total(contents) - Total(Sweep(flags, contents, remaining));
            removed == if remaining as int <= FlaggedTotal(flags, contents) then remaining as int
                       else FlaggedTotal(flags, contents)
  {
    if contents != [] {
      assert NonNegative(contents[1..]) by {
        forall i | 0 <= i < |contents[1..]| && contents[1..][i].Some? ensures contents[1..][i].value.amount >= 0 {
          assert contents[1..][i] == contents[i + 1];
        }
      }
      FlaggedTotalNonNegative(flags[1..], contents[1..]);
      var r := Sweep(flags, contents, remaining);
      if !flags[0] || contents[0].None? {
        SweepRemovesRequested(flags[1..], contents[1..], remaining);
        assert r[1..] == Sweep(flags[1..], contents[1..], remaining);
      } else {
        var inStack := contents[0].value.amount;
        var left := Sub32(remaining, inStack);
        assert left as int == remaining as int - inStack as int;
        assert Sub32(inStack, remaining) as int == inStack as int - remaining as int;
        if left <= 0 {
          assert r[1..] == contents[1..];
        } else {
          SweepRemovesRequested(flags[1..], contents[1..], left);
          assert r[1..] == Sweep(flags[1..], contents[1..], left);
        }
      }
    }
  }

  lemma {:induction false} FlaggedTotalNonNegative(flags: seq<bool>, contents: seq<Option<Stack>>)
    requires |flags| == |contents| && NonNegative(contents)
    ensures 0 <= FlaggedTotal(flags, contents) <= Total(contents)
  {
    if contents != [] {
      assert NonNegative(contents[1..]) by {
        forall i | 0 <= i < |contents[1..]| && contents[1..][i].Some? ensures contents[1..][i].value.amount >= 0 {
          assert contents[1..][i] == contents[i + 1];
        }
      }
      FlaggedTotalNonNegative(flags[1..], contents[1..]);
    }
  }

  /** Flagging the slots getAmountsPerSlot counted flags exactly the non-empty
      stacks of the accepted kind, so removing from them touches no other
      slot and their items are the counted total. */
  lemma {:induction false} CountedFlagsMatchingStacks(contents: seq<Option<Stack>>, accepts: string -> bool)
    ensures var flags := Flags(Counted(contents, accepts));
            && |flags| == |contents|
            && (forall i :: 0 <= i < |contents| ==>
                  (flags[i] <==> contents[i].Some? && accepts(contents[i].value.kind) && contents[i].value.amount != 0))
            && FlaggedTotal(flags, contents) == Sum(Counted(contents, accepts))
  {
    var flags := Flags(Counted(contents, accepts));
    CountedFlaggedTotal(contents, accepts, flags);
  }

  lemma {:induction false} CountedFlaggedTotal(contents: seq<Option<Stack>>, accepts: string -> bool, flags: seq<bool>)
    requires flags == Flags(Counted(contents, accepts))
    ensures FlaggedTotal(flags, contents) == Sum(Counted(contents, accepts))
    decreases |contents|
  {
    if contents != [] {
      var n := |contents|;
      var init := contents[..n - 1];
      CountedFlaggedTotal(init, accepts, Flags(Counted(init, accepts)));
      FlaggedTotalSnoc(flags, contents);
      assert flags[..n - 1] == Flags(Counted(init, accepts));
      assert Counted(contents, accepts)[..n - 1] == Counted(init, accepts);
    }
  }

  /** FlaggedTotal, taken from the back. */
  lemma {:induction false} FlaggedTotalSnoc(flags: seq<bool>, contents: seq<Option<Stack>>)
    requires |flags| == |contents| > 0
    ensures var n := |contents|;
            FlaggedTotal(flags, contents) ==
              FlaggedTotal(flags[..n - 1], contents[..n - 1]) +
              (if flags[n - 1] && contents[n - 1].Some? then contents[n - 1].value.amount as int else 0)
  {
    var n := |contents|;
    if n > 1 {
      FlaggedTotalSnoc(flags[1..], contents[1..]);
      assert flags[1..][..n - 2] == flags[..n - 1][1..];
      assert contents[1..][..n - 2] == contents[..n - 1][1..];
    }
  }
}
