/**
 The sliding window: a queue of items under consecutive 31-bit wrapping sequence
 numbers. `Window` is the specification, a queue indexed by unbounded naturals;
 `SlidingWindow` is the code's representation, which only ever sees numbers
 modulo 2^31 and decides membership with the two-case range test.
 */
module SlidingWindows {
  import opened MachineWords
  import opened Parameters
  import opened SequenceNumbers

  datatype Window<T> = Window(base: nat, items: seq<T>, limit: nat) {
    /** The absolute number the next item will get. */
    function Top(): nat {
      base + |items|
    }

    /** The item under absolute number `a`. */
    function At(a: nat): T
      requires base <= a < Top()
    {
      items[a - base]
    }

    predicate Has(n: u32) {
      n < MODULUS && Distance(base, n) < |items|
    }

    predicate Soon(n: u32) {
      n < MODULUS && Distance(Top(), n) < MAXIMUM_WINDOW
    }

    predicate Full() {
      |items| >= limit
    }

    /** Room left under the limit; the limit may have shrunk below the size. */
    function Room(): nat {
      if Full() then 0 else limit - |items|
    }

    predicate Bounded() {
      |items| <= MAXIMUM_WINDOW && limit <= MAXIMUM_WINDOW
    }

    function Resize(size: nat): (w: Window<T>)
      ensures w.Bounded() <==> |items| <= MAXIMUM_WINDOW
    {
      this.(limit := if size < MAXIMUM_WINDOW then size else MAXIMUM_WINDOW)
    }

    function Push(blanks: seq<T>): Window<T> {
      this.(items := items + blanks)
    }

    function Drop(k: nat): Window<T>
      requires k <= |items|
    {
      this.(base := base + k, items := items[k..])
    }
  }

  /** Among numbers within a cycle of the window, membership on the wire is membership in the absolute interval. */
  lemma HasExact<T>(w: Window<T>, a: int)
    requires w.Bounded()
    requires w.Top() - MODULUS <= a < w.base + MODULUS
    ensures w.Has(Wire(a)) <==> w.base <= a < w.Top()
    ensures w.Has(Wire(a)) ==> Distance(w.base, Wire(a)) == a - w.base
  {
    if a < w.base {
      DistanceOfOldWire(w.base, a);
    } else {
      DistanceOfWire(w.base, a);
    }
  }

  lemma SoonExact<T>(w: Window<T>, a: int)
    requires w.Top() + MAXIMUM_WINDOW - MODULUS <= a < w.Top() + MODULUS
    ensures w.Soon(Wire(a)) <==> w.Top() <= a < w.Top() + MAXIMUM_WINDOW
    ensures w.Soon(Wire(a)) ==> Distance(w.Top(), Wire(a)) == a - w.Top()
  {
    if a < w.Top() {
      DistanceOfOldWire(w.Top(), a);
    } else {
      DistanceOfWire(w.Top(), a);
    }
  }

  class SlidingWindow<T> {
    var items: seq<T>
    var maximumSize: nat
    var begin: SeqNum
    var end: SeqNum

    /** Absolute number of the first item. */
    ghost var base: nat

    ghost predicate Valid()
      reads this
    {
      && begin == Wire(base)
      && end == Wire(base + |items|)
      && Value().Bounded()
    }

    ghost function Value(): Window<T>
      reads this
    {
      Window(base, items, maximumSize)
    }

    constructor (initial: SeqNum)
      ensures Valid()
      ensures Value() == Window(initial, [], DEFAULT_WINDOW)
    {
      items := [];
      maximumSize := DEFAULT_WINDOW;
      begin, end := initial, initial;
      base := initial;
    }

    method Reset(initial: SeqNum)
      modifies this
      ensures Valid()
      ensures Value() == Window(initial, [], DEFAULT_WINDOW)
    {
      maximumSize := DEFAULT_WINDOW;
      begin, end := initial, initial;
      items := [];
      base := initial;
    }

    /** The span of wire numbers is the item count, whatever the limit did meanwhile. */
    lemma SizeIsSpan()
      requires Valid()
      ensures (end - begin) % MODULUS == |items| <= MAXIMUM_WINDOW
    {
    }

    predicate Contains(n: u32)
      requires Valid()
      reads this
      ensures Contains(n) <==> Value().Has(n)
    {
      RangeIsDistance(base, base + |items|, n);
      IsInRange(begin, end, n)
    }

    predicate IsComingSoon(n: u32)
      requires Valid()
      reads this
      ensures IsComingSoon(n) <==> Value().Soon(n)
    {
      RangeIsDistance(base + |items|, base + |items| + MAXIMUM_WINDOW, n);
      WireAdds(base + |items|, MAXIMUM_WINDOW);
      IsInRange(end, Wire(end + MAXIMUM_WINDOW), n)
    }

    predicate IsEmpty()
      reads this
    {
      items == []
    }

    predicate IsFull()
      reads this
    {
      |items| >= maximumSize
    }

    method SetMaximumSize(size: nat)
      requires Valid()
      modifies this
      ensures Valid() && Value() == old(Value()).Resize(size)
    {
      maximumSize := if size < MAXIMUM_WINDOW then size else MAXIMUM_WINDOW;
    }

    /** `blank` stands for the default-constructed item. */
    method Append(blank: T) returns (n: SeqNum)
      requires Valid() && !IsFull()
      modifies this
      ensures Valid() && Value() == old(Value()).Push([blank])
      ensures n == Wire(old(Value().Top()))
    {
      items := items + [blank];
      n := end;
      NextIsSuccessor(base + |items| - 1);
      end := Next(end);
    }

    method Remove()
      requires Valid() && !IsEmpty()
      modifies this
      ensures Valid() && Value() == old(Value()).Drop(1)
    {
      items := items[1..];
      NextIsSuccessor(base);
      begin := Next(begin);
      base := base + 1;
    }

    function SequenceNumberToIndex(n: u32): (i: nat)
      requires Valid() && Contains(n)
      reads this
      ensures i == Distance(base, n) < |items|
    {
      IndexIsDistance(base, base + |items|, n);
      if begin <= end then n - begin
      else if n < end then MODULUS - 1 - begin + n + 1
      else n - begin
    }

    /** Walking the window with `Next` visits the items in order and stops exactly at the end. */
    lemma Walk(i: nat)
      requires Valid() && i <= |items|
      ensures Wire(base + i) == end <==> i == |items|
      ensures Wire(base + i) == begin <==> i == 0
      ensures i < |items| ==>
                && Contains(Wire(base + i))
                && SequenceNumberToIndex(Wire(base + i)) == i
                && Next(Wire(base + i)) == Wire(base + i + 1)
    {
      hide Wire, Distance;
      DistanceOfWire(base, base);
      DistanceOfWire(base, base + i);
      DistanceOfWire(base, base + |items|);
      NextIsSuccessor(base + i);
    }

    function Get(n: u32): T
      requires Valid() && Contains(n)
      reads this
    {
      items[SequenceNumberToIndex(n)]
    }

    /** Assignment through the reference that indexing returns. */
    method Set(n: u32, item: T)
      requires Valid() && Contains(n)
      modifies this
      ensures Valid()
      ensures Value() == old(Value()).(items := old(items[SequenceNumberToIndex(n) := item]))
    {
      items := items[SequenceNumberToIndex(n) := item];
    }

    function Front(): T
      requires !IsEmpty()
      reads this
    {
      items[0]
    }

    /** The overload chosen on a mutable window: it returns the front item. */
    function Back(): T
      requires !IsEmpty()
      reads this
    {
      items[0]
    }
  }
}
