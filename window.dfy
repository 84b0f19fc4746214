/**
 * The candidate window drawn beneath the prompt: a run of at most `size`
 * consecutive candidates around the highlighted one, pushed back inside the
 * list when it would run off either end (`PathPrompt.slice`).
 */
module Window {

  function Min(a: int, b: int): int { if a <= b then a else b }

  function Max(a: int, b: int): int { if a <= b then b else a }

  /** `Math.floor(size / 2)` for an integer `size`: Dafny's `/` by 2 rounds toward negative infinity. */
  function FloorHalf(size: int): int { size / 2 }

  /** `Math.ceil(size / 2)` for an integer `size`. */
  function CeilHalf(size: int): int { (size + 1) / 2 }

  /**
   * The half-open bounds `[min, max)` that `slice` hands to `Array.prototype.slice`.
   * For a positive size they lie inside the list, span `Min(size, length)` items and
   * contain every index of the list that is asked for.
   */
  function SliceBounds(length: nat, itemIndex: int, size: int): (b: (int, int))
    ensures size >= 1 ==> 0 <= b.0 <= b.1 <= length
    ensures size >= 1 ==> b.1 - b.0 == Min(size, length)
    ensures size >= 1 && 0 <= itemIndex < length ==> b.0 <= itemIndex < b.1
  {
    var lo := itemIndex - FloorHalf(size);
    var hi := itemIndex + CeilHalf(size);
    if lo < 0 then
      (0, Min(length, hi - lo))
    else if hi >= length then
      (Max(0, lo - (hi - length)), length)
    else
      (lo, hi)
  }

  /** An argument of `Array.prototype.slice`: a negative one counts from the end; both are clamped to the array. */
  function RelativeIndex(k: int, length: nat): (r: nat)
    ensures r <= length
    ensures 0 <= k <= length ==> r == k
  {
    if k < 0 then Max(length + k, 0) else Min(k, length)
  }

  /** `items.slice(start, end)` for integer arguments. */
  function ArraySlice<T>(items: seq<T>, start: int, end: int): (r: seq<T>)
    ensures |r| <= |items|
    ensures 0 <= start <= end <= |items| ==> r == items[start..end]
  {
    var from := RelativeIndex(start, |items|);
    var to := RelativeIndex(end, |items|);
    if from < to then items[from..to] else []
  }

  /**
   * `slice(items, itemIndex, size)`: the window of `Min(size, |items|)` consecutive
   * items that holds `items[itemIndex]` whenever that index is in the list.
   */
  function Slice<T>(items: seq<T>, itemIndex: int, size: int): (r: seq<T>)
    ensures size >= 1 ==> |r| == Min(size, |items|)
    ensures size >= 1 ==> var lo := SliceBounds(|items|, itemIndex, size).0; r == items[lo..lo + |r|]
    ensures size >= 1 && 0 <= itemIndex < |items| ==> items[itemIndex] in r
  {
    var b := SliceBounds(|items|, itemIndex, size);
    var r := ArraySlice(items, b.0, b.1);
    assert size >= 1 && 0 <= itemIndex < |items| ==> items[itemIndex] == r[itemIndex - b.0];
    r
  }

  function Clamp(x: int, lo: int, hi: int): int
    requires lo <= hi
  {
    if x < lo then lo else if hi < x then hi else x
  }

  /**
   * A second description of the window, independent of the branch structure of
   * `SliceBounds`: take the window of `Min(size, length)` items that starts
   * `FloorHalf(size)` before the highlighted index, and move it the least distance
   * that keeps it inside `[0, length)`.
   */
  lemma SliceIsCentredThenClamped(length: nat, itemIndex: int, size: int)
    requires size >= 1
    ensures var w := Min(size, length);
            var start := Clamp(itemIndex - FloorHalf(size), 0, length - w);
            SliceBounds(length, itemIndex, size) == (start, start + w)
  {
  }

  /**
   * With nothing highlighted, `indexOf` gives -1 and the window is the head of
   * the list.
   */
  lemma NoHighlightShowsHead<T>(items: seq<T>, size: int)
    requires size >= 1
    ensures Slice(items, -1, size) == items[..Min(size, |items|)]
  {
  }
}
