/**
  The growable array of the runtime: a header with a length and a capacity in front of
  the bytes of the elements. It behaves like a list, and no size computation overflows.
 */
module RuntimeArray {

  const HEADER_BYTES: nat := 8
  const INITIAL_CAPACITY: nat := 8
  const INT_MAX: nat := 0x7fff_ffff
  const SIZE_MAX: nat := 0xffff_ffff_ffff_ffff

  newtype Byte = b: int | 0 <= b < 256

  // ----- capacities -----

  /** Doubling from at least 8; where that would pass the integer range, just enough. */
  function Grown(capacity: nat, needed: nat): (r: nat)
    requires capacity > 0
    ensures needed <= r
    decreases needed - capacity
  {
    if capacity >= needed then capacity
    else if capacity > INT_MAX / 2 then needed
    else Grown(capacity * 2, needed)
  }

  function GrownCapacity(oldCapacity: nat, needed: nat): nat {
    Grown(if oldCapacity < INITIAL_CAPACITY then INITIAL_CAPACITY else oldCapacity, needed)
  }

  lemma {:induction false} GrownInRange(capacity: nat, needed: nat)
    requires 0 < capacity <= INT_MAX && needed <= INT_MAX
    ensures needed <= Grown(capacity, needed) <= INT_MAX
    decreases needed - capacity
  {
    if capacity < needed && capacity <= INT_MAX / 2 { GrownInRange(capacity * 2, needed); }
  }

  /** Every intermediate value is an int: the doubling never overflows. */
  method VixArrayGrownCapacity(oldCapacity: nat, needed: nat) returns (capacity: nat)
    requires oldCapacity <= INT_MAX && needed <= INT_MAX
    ensures capacity == GrownCapacity(oldCapacity, needed) && needed <= capacity <= INT_MAX
  {
    capacity := oldCapacity;
    if capacity < INITIAL_CAPACITY { capacity := INITIAL_CAPACITY; }
    GrownInRange(capacity, needed);
    while capacity < needed
      invariant 0 < capacity <= INT_MAX
      invariant Grown(capacity, needed) == GrownCapacity(oldCapacity, needed)
      decreases needed - capacity
    {
      if capacity > INT_MAX / 2 { return needed; }
      var next := capacity * 2;
      assert next <= INT_MAX;
      capacity := next;
    }
  }

  // ----- blocks -----

  lemma Fits(i: nat, n: nat, size: nat)
    requires i < n
    ensures i * size + size <= n * size
  {
    assert (i + 1) * size <= n * size;
  }

  lemma Ordered(i: nat, j: nat, size: nat)
    requires i < j
    ensures i * size + size <= j * size
  {
    Fits(i, j, size);
  }

  /** A block of memory: the header and, behind it, room for `capacity` elements. */
  class Block {
    var length: int
    var capacity: int
    const bytes: array<Byte>

    constructor (length: int, capacity: int, bytes: array<Byte>)
      ensures this.length == length && this.capacity == capacity && this.bytes == bytes
    {
      this.length, this.capacity, this.bytes := length, capacity, bytes;
    }

    ghost predicate Valid(size: nat)
      reads this
    {
      && size > 0 && 0 <= length <= capacity <= INT_MAX
      && bytes.Length == capacity * size && HEADER_BYTES + capacity * size <= SIZE_MAX
    }

    ghost function Element(size: nat, i: nat): seq<Byte>
      requires Valid(size) && i < capacity
      reads this, bytes
    {
      Fits(i, capacity, size);
      bytes[i * size..i * size + size]
    }

    ghost function Contents(size: nat): (r: seq<seq<Byte>>)
      requires Valid(size)
      reads this, bytes
      ensures |r| == length && forall i :: 0 <= i < length ==> r[i] == Element(size, i)
    {
      seq(length, i requires 0 <= i < length && Valid(size) reads this, bytes => Element(size, i))
    }
  }

  method VixArrayLen(arr: Block?) returns (n: int)
    ensures n == if arr == null then 0 else arr.length
  {
    if arr == null { return 0; }
    n := arr.length;
  }

  ghost predicate ValidArray(arr: Block?, size: nat)
    reads arr
  {
    size > 0 && (arr != null ==> arr.Valid(size))
  }

  /** A null pointer is the empty array. */
  ghost function ContentsOf(arr: Block?, size: nat): seq<seq<Byte>>
    requires ValidArray(arr, size)
    reads arr, if arr == null then {} else {arr.bytes}
  {
    if arr == null then [] else arr.Contents(size)
  }

  /** Copies whole bytes from one block to another. */
  method MemCopy(dst: array<Byte>, at: nat, src: array<Byte>, from: nat, n: nat)
    requires at + n <= dst.Length && from + n <= src.Length && dst != src
    modifies dst
    ensures dst[at..at + n] == src[from..from + n]
    ensures dst[..at] == old(dst[..at]) && dst[at + n..] == old(dst[at + n..])
  {
    for i := 0 to n
      invariant dst[at..at + i] == src[from..from + i]
      invariant dst[..at] == old(dst[..at]) && dst[at + i..] == old(dst[at + i..])
    {
      dst[at + i] := src[from + i];
      assert dst[at..at + i + 1] == dst[at..at + i] + [dst[at + i]];
      assert src[from..from + i + 1] == src[from..from + i] + [src[from + i]];
      assert dst[at + i + 1..] == dst[at + i..][1..];
    }
  }

  lemma SliceSlice(s: seq<Byte>, t: seq<Byte>, n: nat, a: nat, b: nat)
    requires n <= |s| && n <= |t| && s[..n] == t[..n] && a <= b <= n
    ensures s[a..b] == t[a..b]
  {
    assert s[a..b] == s[..n][a..b];
    assert t[a..b] == t[..n][a..b];
  }

  /** The same elements, if the bytes of the first ones are the same. */
  lemma SameElements(a: Block, b: Block, size: nat, n: nat)
    requires a.Valid(size) && b.Valid(size) && n <= a.capacity && n <= b.capacity
    requires n * size <= a.bytes.Length && n * size <= b.bytes.Length && a.bytes[..n * size] == b.bytes[..n * size]
    ensures forall i :: 0 <= i < n ==> a.Element(size, i) == b.Element(size, i)
  {
    forall i | 0 <= i < n ensures a.Element(size, i) == b.Element(size, i) {
      Fits(i, n, size);
      Fits(i, a.capacity, size);
      Fits(i, b.capacity, size);
      SliceSlice(a.bytes[..], b.bytes[..], n * size, i * size, i * size + size);
    }
  }

  // ----- pushing -----

  /** Room for one more element: the array itself if it has room, else a larger block with
      the same elements. None if the memory cannot be had. */
  method VixArrayReserveForPush(arr: Block?, size: nat, memory: bool) returns (r: Block?)
    requires ValidArray(arr, size) && size <= SIZE_MAX
    ensures r != null ==> r.Valid(size) && r.capacity > r.length
    ensures r != null ==> r.Contents(size) == ContentsOf(arr, size)
    ensures arr != null && arr.capacity > arr.length ==> r == arr
    ensures r != null && r != arr ==> fresh(r) && fresh(r.bytes) && r.capacity == GrownCapacity(CapacityOf(arr), LengthOf(arr) + 1)
    ensures r == null ==> !memory || LengthOf(arr) == INT_MAX || HEADER_BYTES + GrownCapacity(CapacityOf(arr), LengthOf(arr) + 1) * size > SIZE_MAX
  {
    var oldLength := VixArrayLen(arr);
    if oldLength == INT_MAX { return null; }
    var oldCapacity := if arr == null then 0 else arr.capacity;
    if oldCapacity >= oldLength + 1 { return arr; }
    var newCapacity := VixArrayGrownCapacity(oldCapacity, oldLength + 1);
    if size > (SIZE_MAX - HEADER_BYTES) / newCapacity {
      TooLarge(size, newCapacity);
      return null;
    }
    SmallEnough(size, newCapacity);
    if !memory { return null; }
    var bytes := new Byte[newCapacity * size];
    if arr != null {
      assert arr.capacity * size <= newCapacity * size by { Monotone(arr.capacity, newCapacity, size); }
      MemCopy(bytes, 0, arr.bytes, 0, arr.capacity * size);
    }
    r := new Block(oldLength, newCapacity, bytes);
    if arr != null {
      assert arr.length == arr.capacity;
      assert bytes[..arr.capacity * size] == arr.bytes[..arr.capacity * size];
      SameElements(arr, r, size, arr.length);
      assert r.Contents(size) == arr.Contents(size);
    }
  }

  function LengthOf(arr: Block?): int
    reads arr
  {
    if arr == null then 0 else arr.length
  }

  function CapacityOf(arr: Block?): int
    reads arr
  {
    if arr == null then 0 else arr.capacity
  }

  lemma Monotone(a: nat, b: nat, size: nat)
    requires a <= b
    ensures a * size <= b * size
  {
  }

  lemma TooLarge(size: nat, n: nat)
    requires n > 0 && size > (SIZE_MAX - HEADER_BYTES) / n
    ensures HEADER_BYTES + n * size > SIZE_MAX
  {
    assert size * n >= ((SIZE_MAX - HEADER_BYTES) / n + 1) * n;
  }

  lemma SmallEnough(size: nat, n: nat)
    requires n > 0 && size <= (SIZE_MAX - HEADER_BYTES) / n
    ensures HEADER_BYTES + n * size <= SIZE_MAX
  {
    assert size * n <= (SIZE_MAX - HEADER_BYTES) / n * n;
  }

  /** Writes one element behind the last; the others stay. */
  method WriteElement(r: Block, size: nat, val: seq<Byte>)
    requires r.Valid(size) && r.length < r.capacity && |val| == size
    modifies r, r.bytes
    ensures r.Valid(size) && r.capacity == old(r.capacity) && r.Contents(size) == old(r.Contents(size)) + [val]
  {
    Fits(r.length, r.capacity, size);
    var at := r.length * size;
    ghost var before := r.bytes[..];
    for i := 0 to size
      invariant r.length == old(r.length) && r.capacity == old(r.capacity)
      invariant r.bytes[at..at + i] == val[..i]
      invariant r.bytes[..at] == before[..at]
    {
      r.bytes[at + i] := val[i];
      assert r.bytes[at..at + i + 1] == r.bytes[at..at + i] + [val[i]];
    }
    forall i | 0 <= i < r.length ensures r.Element(size, i) == old(r.Element(size, i)) {
      Fits(i, r.length, size);
      SliceSlice(before, r.bytes[..], at, i * size, i * size + size);
    }
    ghost var n := r.length;
    r.length := r.length + 1;
    assert r.Element(size, n) == val;
  }

  method VixArrayPushRaw(arr: Block?, val: seq<Byte>, size: nat, memory: bool) returns (r: Block?)
    requires size > 0 ==> ValidArray(arr, size) && |val| == size
    requires size <= SIZE_MAX
    modifies if arr == null then {} else {arr, arr.bytes}
    ensures size == 0 ==> r == arr
    ensures size > 0 && r != null ==> r.Valid(size) && r.Contents(size) == old(ContentsOf(arr, size)) + [val]
    ensures size > 0 && r == null ==> unchanged(if arr == null then {} else {arr, arr.bytes})
    ensures size > 0 && r == null ==> !memory || LengthOf(arr) == INT_MAX
                                      || HEADER_BYTES + GrownCapacity(CapacityOf(arr), LengthOf(arr) + 1) * size > SIZE_MAX
    ensures size > 0 && r != null ==> r.capacity == if old(CapacityOf(arr)) > old(LengthOf(arr)) then old(CapacityOf(arr))
                                                    else GrownCapacity(old(CapacityOf(arr)), old(LengthOf(arr)) + 1)
    ensures size > 0 && old(CapacityOf(arr)) > old(LengthOf(arr)) ==> r == arr
    ensures r != null && r != arr ==> fresh(r) && fresh(r.bytes)
  {
    if size == 0 { return arr; }
    var oldLength := VixArrayLen(arr);
    if oldLength == INT_MAX { return null; }
    var reserved := VixArrayReserveForPush(arr, size, memory);
    if reserved == null { return null; }
    WriteElement(reserved, size, val);
    r := reserved;
  }

  // ----- slices -----

  function ClampStart(start: int, length: nat): (r: nat)
    ensures r <= length
  {
    if start < 0 then 0 else if start > length then length else start
  }

  /** The end is first pulled up to the start, and then both down to the length. */
  function ClampEnd(start: int, end: int, length: nat): (r: nat)
    ensures ClampStart(start, length) <= r <= length
  {
    var s := if start < 0 then 0 else start;
    var e := if end < s then s else end;
    if e > length then length else e
  }

  method VixArraySliceBytes(arr: Block?, start: int, end: int, size: nat, memory: bool) returns (r: Block?)
    requires size > 0 ==> ValidArray(arr, size)
    ensures arr == null || size == 0 ==> r == null
    ensures arr != null && size > 0 && r != null ==>
              fresh(r) && r.Valid(size)
              && r.Contents(size) == arr.Contents(size)[ClampStart(start, arr.length)..ClampEnd(start, end, arr.length)]
    ensures arr != null && size > 0 && r == null ==>
              !memory || ClampStart(start, arr.length) == ClampEnd(start, end, arr.length)
  {
    if arr == null || size == 0 { return null; }
    var length := VixArrayLen(arr);
    var s, e := start, end;
    if s < 0 { s := 0; }
    if e < s { e := s; }
    if s > length { s := length; }
    if e > length { e := length; }
    assert s == ClampStart(start, length) && e == ClampEnd(start, end, length);
    var count := e - s;
    if count == 0 { return null; }
    Monotone(count, arr.capacity, size);
    if count > (SIZE_MAX - HEADER_BYTES) / size {
      TooLarge(count, size);
      return null;
    }
    if !memory { return null; }
    r := CopySlice(arr, s, count, size);
    assert s + count == e;
  }

  method CopySlice(arr: Block, s: nat, count: nat, size: nat) returns (r: Block)
    requires arr.Valid(size) && 0 < count && s + count <= arr.length
    ensures fresh(r) && r.Valid(size) && r.Contents(size) == arr.Contents(size)[s..s + count]
  {
    Monotone(count, arr.capacity, size);
    Monotone(s + count, arr.capacity, size);
    SplitProduct(s, s + count, size);
    var bytes := new Byte[count * size];
    MemCopy(bytes, 0, arr.bytes, s * size, count * size);
    r := new Block(count, count, bytes);
    SlicedElements(arr, r, size, s, count);
  }

  lemma SplitProduct(s: nat, e: nat, size: nat)
    requires s <= e
    ensures s * size + (e - s) * size == e * size
  {
  }

  lemma SlicedElements(arr: Block, r: Block, size: nat, s: nat, count: nat)
    requires arr.Valid(size) && r.Valid(size) && r.length == r.capacity == count && s + count <= arr.length
    requires s * size + count * size <= arr.bytes.Length
    requires r.bytes[..count * size] == arr.bytes[s * size..s * size + count * size]
    ensures r.Contents(size) == arr.Contents(size)[s..s + count]
  {
    forall i | 0 <= i < count ensures r.Element(size, i) == arr.Element(size, s + i) {
      SlicedElement(arr, r, size, s, count, i);
    }
  }

  lemma SlicedElement(arr: Block, r: Block, size: nat, s: nat, count: nat, i: nat)
    requires arr.Valid(size) && r.Valid(size) && r.length == r.capacity == count && s + count <= arr.length && i < count
    requires s * size + count * size <= arr.bytes.Length
    requires r.bytes[..count * size] == arr.bytes[s * size..s * size + count * size]
    ensures r.Element(size, i) == arr.Element(size, s + i)
  {
    Fits(i, count, size);
    Fits(s + i, arr.capacity, size);
    SplitProduct(s, s + i, size);
    SliceOfSlice(arr.bytes[..], r.bytes[..], s * size, count * size, i * size, size);
  }

  lemma SliceOfSlice(a: seq<Byte>, b: seq<Byte>, from: nat, n: nat, at: nat, k: nat)
    requires from + n <= |a| && n <= |b| && b[..n] == a[from..from + n] && at + k <= n
    ensures b[at..at + k] == a[from + at..from + at + k]
  {
    var x, y := b[at..at + k], a[from + at..from + at + k];
    forall j | 0 <= j < k ensures x[j] == y[j] {
      assert x[j] == b[at + j] == b[..n][at + j];
      assert y[j] == a[from + (at + j)] == a[from..from + n][at + j];
    }
    assert x == y;
  }

  // ----- how much is copied -----

  const DOUBLING_LIMIT: nat := 0x4000_0000

  /** The capacity after n pushes onto the empty array. */
  function CapacityAfter(n: nat): nat {
    if n == 0 then 0
    else
      var c := CapacityAfter(n - 1);
      if c >= n then c else GrownCapacity(c, n)
  }

  /** The elements that n pushes copy from one block to the next. */
  function Copied(n: nat): nat {
    if n == 0 then 0 else Copied(n - 1) + if CapacityAfter(n - 1) >= n then 0 else n - 1
  }

  /** While doubling goes on, the capacity stays below twice the length, and all copying so
      far has cost less than the capacity. */
  lemma {:induction false} CopyingIsLinear(n: nat)
    requires n <= DOUBLING_LIMIT
    ensures n > 0 ==> 8 <= CapacityAfter(n) <= DOUBLING_LIMIT && n <= CapacityAfter(n) && Copied(n) + 8 <= CapacityAfter(n)
    ensures n > 0 ==> CapacityAfter(n) == 8 || CapacityAfter(n) <= 2 * (n - 1)
    ensures n > 0 ==> exists k: nat :: PowerTimes8(k) == CapacityAfter(n)
    ensures Copied(n) <= 2 * n
    decreases n
  {
    if n > 0 {
      CopyingIsLinear(n - 1);
      var c := CapacityAfter(n - 1);
      if n == 1 {
        assert GrownCapacity(0, 1) == 8 && PowerTimes8(0) == 8;
      } else if c < n {
        var k: nat :| PowerTimes8(k) == c;
        HalfOrLess(k);
        assert Grown(c * 2, n) == c * 2;
        assert Grown(c, n) == Grown(c * 2, n);
        assert PowerTimes8(k + 1) == 2 * c;
      }
    }
  }

  function PowerTimes8(k: nat): nat {
    if k == 0 then 8 else 2 * PowerTimes8(k - 1)
  }

  /** A capacity below the limit is at most half of it. */
  lemma {:induction false} HalfOrLess(k: nat)
    ensures PowerTimes8(k) < DOUBLING_LIMIT ==> 2 * PowerTimes8(k) <= DOUBLING_LIMIT
  {
    if k < 27 {
      PowerAtMost(k, 26);
    } else {
      PowerAtMost(27, k);
    }
    assert PowerTimes8(26) == 0x2000_0000 && PowerTimes8(27) == 0x4000_0000 by { Powers(); }
  }

  lemma {:induction false} PowerAtMost(j: nat, k: nat)
    requires j <= k
    ensures PowerTimes8(j) <= PowerTimes8(k)
    decreases k
  {
    if j < k { PowerAtMost(j, k - 1); }
  }

  lemma Powers()
    ensures PowerTimes8(26) == 0x2000_0000 && PowerTimes8(27) == 0x4000_0000
  {
    assert PowerTimes8(9) == 4096;
    assert PowerTimes8(18) == 2097152;
    assert PowerTimes8(22) == 33554432;
    assert PowerTimes8(26) == 0x2000_0000;
  }

  /** A whole run of pushes: the array ends up with exactly the values, and the elements
      moved on the way are at most twice as many. */
  method PushAll(values: seq<seq<Byte>>, size: nat) returns (arr: Block?, copied: nat)
    requires size > 0 && |values| <= DOUBLING_LIMIT && HEADER_BYTES + DOUBLING_LIMIT * size <= SIZE_MAX
    requires forall i :: 0 <= i < |values| ==> |values[i]| == size
    ensures ValidArray(arr, size) && ContentsOf(arr, size) == values
    ensures copied == Copied(|values|) <= 2 * |values|
  {
    hide Copied, CapacityAfter;
    arr, copied := null, 0;
    NothingCopied();
    for n := 0 to |values|
      invariant arr != null ==> fresh(arr) && fresh(arr.bytes)
      invariant ValidArray(arr, size) && ContentsOf(arr, size) == values[..n]
      invariant LengthOf(arr) == n && CapacityOf(arr) == CapacityAfter(n) && copied == Copied(n)
    {
      if CapacityOf(arr) < n + 1 { copied := copied + n; }
      arr := PushOne(arr, values[n], size, n);
      CopiedNext(n);
      assert values[..n + 1] == values[..n] + [values[n]];
    }
    CopyingIsLinear(|values|);
    assert values[..|values|] == values;
  }

  lemma NothingCopied()
    ensures Copied(0) == 0 && CapacityAfter(0) == 0
  {
  }

  lemma CopiedNext(n: nat)
    ensures Copied(n + 1) == Copied(n) + if CapacityAfter(n) >= n + 1 then 0 else n
    ensures CapacityAfter(n + 1) == if CapacityAfter(n) >= n + 1 then CapacityAfter(n) else GrownCapacity(CapacityAfter(n), n + 1)
  {
  }

  method PushOne(arr: Block?, value: seq<Byte>, size: nat, ghost n: nat) returns (r: Block)
    requires size > 0 && n < DOUBLING_LIMIT && HEADER_BYTES + DOUBLING_LIMIT * size <= SIZE_MAX && |value| == size
    requires ValidArray(arr, size) && LengthOf(arr) == n && CapacityOf(arr) == CapacityAfter(n)
    modifies if arr == null then {} else {arr, arr.bytes}
    ensures r.Valid(size) && r.Contents(size) == old(ContentsOf(arr, size)) + [value]
    ensures r.length == n + 1 && r.capacity == CapacityAfter(n + 1)
    ensures r != arr ==> fresh(r) && fresh(r.bytes)
  {
    hide Grown, GrownCapacity, CapacityAfter;
    CopyingIsLinear(n + 1);
    CopiedNext(n);
    Monotone(CapacityAfter(n + 1), DOUBLING_LIMIT, size);
    var pushed := VixArrayPushRaw(arr, value, size, true);
    r := pushed;
  }
}
