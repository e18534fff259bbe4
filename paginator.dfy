/** The paginator of the catalogue page (src/pages/Home.jsx): pages of twelve records,
    numbered from 1, cut from the filtered view with `Array.prototype.slice`, and as
    many page buttons as `Math.ceil(length / 12)`. */
module Paginator {

  /** `pokemonsPerPage`. */
  const PageSize: nat := 12

  function Min(a: int, b: int): int {
    if a <= b then a else b
  }

  function Max(a: int, b: int): int {
    if a <= b then b else a
  }

  /** The index `slice` uses for an argument `i`: counted from the end when negative,
      then clamped to `0 .. len`. */
  function SliceIndex(i: int, len: nat): (k: nat)
    ensures k <= len
  {
    if i < 0 then (if len + i < 0 then 0 else len + i)
    else if i > len then len
    else i
  }

  /** `s.slice(start, end)`. */
  function Slice<T>(s: seq<T>, start: int, end: int): seq<T> {
    var from, to := SliceIndex(start, |s|), SliceIndex(end, |s|);
    if from < to then s[from..to] else []
  }

  /** `slice` cuts `s` in three: what lies before the start index, the slice, and what
      lies after it; the slice is as long as the gap between the two indices, or empty
      when the end index does not lie after the start index. */
  lemma {:induction false} SliceSplit<T>(s: seq<T>, start: int, end: int)
    ensures var from, to := SliceIndex(start, |s|), SliceIndex(end, |s|);
      && s == s[..from] + Slice(s, start, end) + s[Max(from, to)..]
      && |Slice(s, start, end)| == Max(to - from, 0)
  {
    var from, to := SliceIndex(start, |s|), SliceIndex(end, |s|);
    if from < to {
      assert s == s[..from] + s[from..to] + s[to..];
    } else {
      assert s == s[..from] + [] + s[from..];
    }
  }

  /** `currentPokemons` for current page `p`: `slice(p * 12 - 12, p * 12)`. */
  function Page<T>(v: seq<T>, p: int): seq<T> {
    Slice(v, p * PageSize - PageSize, p * PageSize)
  }

  /** `Math.ceil(n / 12)`: the least number of pages that hold `n` records. */
  function PageCount(n: nat): (r: nat)
    ensures (r - 1) * PageSize < n <= r * PageSize
  {
    (n + PageSize - 1) / PageSize
  }

  /** Page `p`, from 1 on, holds the records at indices `(p-1)*12` up to `p*12`, as far
      as the view reaches, and so at most twelve. */
  lemma {:induction false} PageWindow<T>(v: seq<T>, p: int)
    requires p >= 1
    ensures Page(v, p) == v[Min((p - 1) * PageSize, |v|)..Min(p * PageSize, |v|)]
    ensures |Page(v, p)| <= PageSize
  {
  }

  /** Page 0 is empty, and a negative page counts from the end of the view. */
  lemma {:induction false} PageNonPositive<T>(v: seq<T>, p: int)
    requires p <= 0
    ensures p == 0 ==> Page(v, p) == []
    ensures p < 0 ==> Page(v, p) == v[Max(|v| + (p - 1) * PageSize, 0)..Max(|v| + p * PageSize, 0)]
  {
  }

  /** Pages before the last are full, the last holds the rest, later pages are empty. */
  lemma {:induction false} PageLength<T>(v: seq<T>, p: int)
    requires p >= 1
    ensures p < PageCount(|v|) ==> |Page(v, p)| == PageSize
    ensures p == PageCount(|v|) ==> |Page(v, p)| == |v| - (p - 1) * PageSize > 0
    ensures p > PageCount(|v|) ==> Page(v, p) == []
  {
    PageWindow(v, p);
    var k := PageCount(|v|);
    if p < k {
      assert p * PageSize <= (k - 1) * PageSize;
    } else if p > k {
      assert (p - 1) * PageSize >= k * PageSize;
    }
  }

  /** Pages 1 to `k`, concatenated in order. */
  function Pages<T>(v: seq<T>, k: nat): seq<T> {
    if k == 0 then [] else Pages(v, k - 1) + Page(v, k)
  }

  /** The first `k` pages are the first `k * 12` records, as far as the view reaches. */
  lemma {:induction false} PagesPrefix<T>(v: seq<T>, k: nat)
    ensures Pages(v, k) == v[..Min(k * PageSize, |v|)]
  {
    if k > 0 {
      PagesPrefix(v, k - 1);
      PageWindow(v, k);
      var a, b := Min((k - 1) * PageSize, |v|), Min(k * PageSize, |v|);
      assert v[..a] + v[a..b] == v[..b];
    }
  }

  /** The page buttons cover the view: pages 1 to `PageCount` concatenated are the view,
      without gaps or overlaps. */
  lemma {:induction false} PagesTile<T>(v: seq<T>)
    ensures Pages(v, PageCount(|v|)) == v
  {
    PagesPrefix(v, PageCount(|v|));
  }

  /** A view of 25 records has three pages and the third holds only the last record. */
  lemma {:induction false} TwentyFiveRecords<T>(v: seq<T>)
    requires |v| == 25
    ensures PageCount(|v|) == 3
    ensures Page(v, 3) == [v[24]]
  {
  }

}
