/**
 * Image metadata helpers (app/lib/utils/image-loader.ts): choosing the output
 * canvas size, and ordering uploaded images by the numbers in their names.
 */
module ImageLoader {
  import opened Wrappers
  import opened Text
  import opened Types

  function Dims(img: ImageFile): Resolution {
    Resolution(img.width, img.height)
  }

  /** Wider wins; at equal width, taller wins. */
  predicate LexLeq(a: Resolution, b: Resolution) {
    a.width < b.width || (a.width == b.width && a.height <= b.height)
  }

  /** `r` is the size of one of the images and no image is larger in (width, height) order. */
  ghost predicate IsLargest(r: Resolution, images: seq<ImageFile>) {
    && (exists i :: 0 <= i < |images| && Dims(images[i]) == r)
    && (forall i :: 0 <= i < |images| ==> LexLeq(Dims(images[i]), r))
  }

  /** One iteration of the `forEach` body, updating `(maxWidth, maxHeight)`. */
  function Step(acc: Resolution, img: ImageFile): (r: Resolution)
    ensures r == acc || r == Dims(img)
    ensures LexLeq(acc, r) && LexLeq(Dims(img), r)
  {
    if img.width > acc.width then Resolution(img.width, img.height)
    else if img.width == acc.width && img.height > acc.height then Resolution(acc.width, img.height)
    else acc
  }

  /** The running maximum after visiting `images` in order, starting from `(0, 0)`. */
  function Scan(images: seq<ImageFile>): Resolution
  {
    if |images| == 0 then Resolution(0, 0)
    else Step(Scan(images[..|images| - 1]), images[|images| - 1])
  }

  lemma {:induction false} ScanIsLargest(images: seq<ImageFile>)
    requires |images| > 0
    ensures IsLargest(Scan(images), images)
    decreases |images|
  {
    var n := |images|;
    var prefix := images[..n - 1];
    var last := images[n - 1];
    if n == 1 {
      // Starting from (0, 0), sizes being natural numbers, the one image is the result.
      assert Scan(images) == Dims(last);
    } else {
      ScanIsLargest(prefix);
      var acc := Scan(prefix);
      var r := Scan(images);
      assert r == Step(acc, last);
      forall i | 0 <= i < n ensures LexLeq(Dims(images[i]), r) {
        if i < n - 1 {
          assert images[i] == prefix[i];
        }
      }
      if r == acc {
        var i :| 0 <= i < |prefix| && Dims(prefix[i]) == acc;
        assert images[i] == prefix[i];
      } else {
        assert Dims(images[n - 1]) == r;
      }
    }
  }

  /** `findHighestResolution`: the largest size by width, then height; null for no images. */
  function FindHighestResolution(images: seq<ImageFile>): (r: Option<Resolution>)
    ensures r.None? <==> |images| == 0
    ensures r.Some? ==>
      && (forall i :: 0 <= i < |images| ==> images[i].width <= r.value.width)
      && (forall i :: 0 <= i < |images| && images[i].width == r.value.width ==> images[i].height <= r.value.height)
      && (exists i :: 0 <= i < |images| && Dims(images[i]) == r.value)
  {
    if |images| == 0 then None
    else
      ScanIsLargest(images);
      Some(Scan(images))
  }

  /** The canvas does not depend on the order in which the images are listed. */
  lemma FindHighestResolutionOrderIndependent(a: seq<ImageFile>, b: seq<ImageFile>)
    requires multiset(a) == multiset(b)
    ensures FindHighestResolution(a) == FindHighestResolution(b)
  {
    if |a| > 0 {
      assert |b| == |multiset(b)| == |multiset(a)| == |a|;
      ScanIsLargest(a);
      ScanIsLargest(b);
      var ra, rb := Scan(a), Scan(b);
      var i :| 0 <= i < |a| && Dims(a[i]) == ra;
      assert a[i] in multiset(b);
      var j :| 0 <= j < |b| && b[j] == a[i];
      var k :| 0 <= k < |b| && Dims(b[k]) == rb;
      assert b[k] in multiset(a);
      var l :| 0 <= l < |a| && a[l] == b[k];
      assert LexLeq(ra, rb) && LexLeq(rb, ra);
    } else {
      assert |b| == |multiset(b)| == 0;
    }
  }

  /** Sizes (100,200), (150,150), (150,180) give the canvas (150,180). */
  lemma FindHighestResolutionExample(f: FileRef)
    ensures FindHighestResolution([ImageFile(f, "a", "", 100, 200, 0),
                                   ImageFile(f, "b", "", 150, 150, 1),
                                   ImageFile(f, "c", "", 150, 180, 2)])
            == Some(Resolution(150, 180))
  {
  }

  /* ---------- Digit-run-aware ordering ---------- */

  /**
   * The values of the maximal runs of digits in `s`, left to right, as
   * `s.match(/\d+/g)` followed by `parseInt(_, 10)` gives them; empty when
   * the match finds nothing (where the source gets `null`). `acc` holds the
   * value of a run in progress.
   */
  function RunsFrom(s: string, acc: Option<nat>): seq<nat>
    decreases |s|
  {
    if |s| == 0 then (if acc.Some? then [acc.value] else [])
    else if IsDigit(s[0]) then
      RunsFrom(s[1..], Some((if acc.Some? then acc.value * 10 else 0) + DigitValue(s[0])))
    else (if acc.Some? then [acc.value] else []) + RunsFrom(s[1..], None)
  }

  function DigitRuns(s: string): seq<nat> {
    RunsFrom(s, None)
  }

  lemma {:induction false} RunsFromPending(s: string, a: nat)
    ensures RunsFrom(s, Some(a)) != []
    decreases |s|
  {
    if |s| > 0 && IsDigit(s[0]) {
      RunsFromPending(s[1..], a * 10 + DigitValue(s[0]));
    }
  }

  /** A name has digit runs exactly when it contains a digit. */
  lemma {:induction false} DigitRunsEmptyIff(s: string)
    ensures DigitRuns(s) == [] <==> NoDigits(s)
    decreases |s|
  {
    if |s| > 0 {
      DigitRunsEmptyIff(s[1..]);
      if IsDigit(s[0]) {
        RunsFromPending(s[1..], DigitValue(s[0]));
      } else {
        assert NoDigits(s) <==> NoDigits(s[1..]) by {
          if NoDigits(s[1..]) {
            forall i | 0 <= i < |s| ensures !IsDigit(s[i]) {
              if i > 0 { assert s[i] == s[1..][i - 1]; }
            }
          }
        }
      }
    }
  }

  lemma {:induction false} RunsSkipText(p: string, x: string)
    requires NoDigits(p)
    ensures RunsFrom(p + x, None) == RunsFrom(x, None)
    decreases |p|
  {
    if |p| > 0 {
      assert (p + x)[0] == p[0];
      assert (p + x)[1..] == p[1..] + x;
      RunsSkipText(p[1..], x);
      assert RunsFrom(p + x, None) == [] + RunsFrom(p[1..] + x, None);
    } else {
      assert p + x == x;
    }
  }

  lemma {:induction false} RunsReadDigits(d: string, x: string, a: nat)
    requires AllDigits(d)
    ensures RunsFrom(d + x, Some(a)) == RunsFrom(x, Some(Accumulate(a, d)))
    decreases |d|
  {
    if |d| > 0 {
      assert (d + x)[0] == d[0];
      assert (d + x)[1..] == d[1..] + x;
      RunsReadDigits(d[1..], x, a * 10 + DigitValue(d[0]));
    } else {
      assert d + x == x;
    }
  }

  /** A name made of digit-free text around one number has that number as its only run. */
  lemma DigitRunsOfNumberedName(p: string, n: nat, q: string)
    requires NoDigits(p) && NoDigits(q)
    ensures DigitRuns(p + Decimal(n) + q) == [n]
  {
    var d := Decimal(n);
    assert p + d + q == p + (d + q);
    RunsSkipText(p, d + q);
    assert (d + q)[0] == d[0];
    assert (d + q)[1..] == d[1..] + q;
    assert RunsFrom(d + q, None) == RunsFrom(d[1..] + q, Some(DigitValue(d[0])));
    RunsReadDigits(d[1..], q, DigitValue(d[0]));
    assert Accumulate(DigitValue(d[0]), d[1..]) == Accumulate(0, d);
    DecimalRoundTrip(n);
    RunEndsBeforeText(q, n);
  }

  /** A run in progress followed by digit-free text is the last run. */
  lemma RunEndsBeforeText(q: string, n: nat)
    requires NoDigits(q)
    ensures RunsFrom(q, Some(n)) == [n]
  {
    if |q| > 0 {
      assert RunsFrom(q, Some(n)) == [n] + RunsFrom(q[1..], None);
      assert NoDigits(q[1..]) by {
        forall i | 0 <= i < |q[1..]| ensures !IsDigit(q[1..][i]) {
          assert q[1..][i] == q[i + 1];
        }
      }
      DigitRunsEmptyIff(q[1..]);
    }
  }

  /** The first position, within both sequences, where they differ. */
  function FirstDifference(a: seq<nat>, b: seq<nat>): (r: Option<nat>)
    ensures r.Some? ==> r.value < |a| && r.value < |b| && a[r.value] != b[r.value]
    ensures r.Some? ==> forall k :: 0 <= k < r.value ==> a[k] == b[k]
    ensures r.None? ==> forall k :: 0 <= k < |a| && k < |b| ==> a[k] == b[k]
  {
    if |a| == 0 || |b| == 0 then None
    else if a[0] != b[0] then Some(0)
    else
      var rest := FirstDifference(a[1..], b[1..]);
      if rest.Some? then Some(rest.value + 1) else None
  }

  lemma FirstDifferenceSymmetric(a: seq<nat>, b: seq<nat>)
    ensures FirstDifference(a, b) == FirstDifference(b, a)
  {
    var r, s := FirstDifference(a, b), FirstDifference(b, a);
    if r.Some? && s.Some? {
      assert !(r.value < s.value) && !(s.value < r.value);
    }
  }

  /**
   * The comparator of `sortImagesIntelligently`. `localeCmp` stands for
   * `localeCompare` with base sensitivity. A negative result puts `a` first.
   */
  function Compare(a: ImageFile, b: ImageFile, localeCmp: (string, string) -> int): int
  {
    var an := DigitRuns(a.name);
    var bn := DigitRuns(b.name);
    var diff := if |an| > 0 && |bn| > 0 then FirstDifference(an, bn) else None;
    if diff.Some? then an[diff.value] - bn[diff.value]
    else if |an| > 0 && |bn| == 0 then -1
    else if |an| == 0 && |bn| > 0 then 1
    else localeCmp(a.name, b.name)
  }

  /** The cases of the comparator, each stated on the names' digit runs. */
  lemma CompareCases(a: ImageFile, b: ImageFile, localeCmp: (string, string) -> int)
    ensures var an, bn := DigitRuns(a.name), DigitRuns(b.name);
      && (forall k :: 0 <= k < |an| && k < |bn| && an[k] != bn[k]
            && (forall m :: 0 <= m < k ==> an[m] == bn[m])
            ==> (Compare(a, b, localeCmp) < 0 <==> an[k] < bn[k]))
      && (!NoDigits(a.name) && NoDigits(b.name) ==> Compare(a, b, localeCmp) < 0)
      && (NoDigits(a.name) && !NoDigits(b.name) ==> Compare(a, b, localeCmp) > 0)
      && ((forall m :: 0 <= m < |an| && m < |bn| ==> an[m] == bn[m])
          && (NoDigits(a.name) <==> NoDigits(b.name))
          ==> Compare(a, b, localeCmp) == localeCmp(a.name, b.name))
  {
    DigitRunsEmptyIff(a.name);
    DigitRunsEmptyIff(b.name);
    var an, bn := DigitRuns(a.name), DigitRuns(b.name);
    forall k | 0 <= k < |an| && k < |bn| && an[k] != bn[k] && (forall m :: 0 <= m < k ==> an[m] == bn[m])
      ensures Compare(a, b, localeCmp) < 0 <==> an[k] < bn[k]
    {
      var d := FirstDifference(an, bn);
      assert d.Some?;
      assert !(d.value < k) && !(k < d.value);
    }
  }

  /** `image2.png` sorts before `image10.png`: numbers compare by value, not as text. */
  lemma NumberedNamesCompareByValue(a: ImageFile, b: ImageFile, p: string, q: string, m: nat, n: nat,
                                    localeCmp: (string, string) -> int)
    requires NoDigits(p) && NoDigits(q)
    requires a.name == p + Decimal(m) + q && b.name == p + Decimal(n) + q
    requires m != n
    ensures Compare(a, b, localeCmp) < 0 <==> m < n
  {
    DigitRunsOfNumberedName(p, m, q);
    DigitRunsOfNumberedName(p, n, q);
  }

  function Sign(x: int): int {
    if x < 0 then -1 else if x > 0 then 1 else 0
  }

  /** Swapping the arguments flips the sign: what `localeCompare` promises. */
  ghost predicate Antisymmetric(localeCmp: (string, string) -> int) {
    forall x, y :: Sign(localeCmp(x, y)) == -Sign(localeCmp(y, x))
  }

  /** The comparator inherits antisymmetry from the name order. */
  lemma CompareAntisymmetric(a: ImageFile, b: ImageFile, localeCmp: (string, string) -> int)
    requires Antisymmetric(localeCmp)
    ensures Sign(Compare(a, b, localeCmp)) == -Sign(Compare(b, a, localeCmp))
  {
    FirstDifferenceSymmetric(DigitRuns(a.name), DigitRuns(b.name));
    assert Sign(localeCmp(a.name, b.name)) == -Sign(localeCmp(b.name, a.name));
  }

  /** Inserts `x` after every leading element that does not sort after it (stable). */
  function Insert(x: ImageFile, s: seq<ImageFile>, localeCmp: (string, string) -> int): (r: seq<ImageFile>)
    ensures multiset(r) == multiset(s) + multiset{x}
    ensures |r| == |s| + 1
    ensures r[0] == x || (|s| > 0 && r[0] == s[0])
  {
    if |s| == 0 then [x]
    else if Compare(x, s[0], localeCmp) < 0 then [x] + s
    else
      assert s == [s[0]] + s[1..];
      [s[0]] + Insert(x, s[1..], localeCmp)
  }

  /** Neighbours are in comparator order. */
  ghost predicate LocallySorted(s: seq<ImageFile>, localeCmp: (string, string) -> int) {
    forall i :: 0 < i < |s| ==> Compare(s[i - 1], s[i], localeCmp) <= 0
  }

  lemma {:induction false} InsertKeepsSorted(x: ImageFile, s: seq<ImageFile>, localeCmp: (string, string) -> int)
    requires Antisymmetric(localeCmp)
    requires LocallySorted(s, localeCmp)
    ensures LocallySorted(Insert(x, s, localeCmp), localeCmp)
    decreases |s|
  {
    if |s| > 0 && Compare(x, s[0], localeCmp) >= 0 {
      var tail := Insert(x, s[1..], localeCmp);
      assert LocallySorted(s[1..], localeCmp) by {
        forall i | 0 < i < |s[1..]| ensures Compare(s[1..][i - 1], s[1..][i], localeCmp) <= 0 {
          assert s[1..][i - 1] == s[i] && s[1..][i] == s[i + 1];
        }
      }
      InsertKeepsSorted(x, s[1..], localeCmp);
      var r := [s[0]] + tail;
      CompareAntisymmetric(x, s[0], localeCmp);
      forall i | 0 < i < |r| ensures Compare(r[i - 1], r[i], localeCmp) <= 0 {
        if i > 1 {
          assert r[i - 1] == tail[i - 2] && r[i] == tail[i - 1];
        }
      }
    }
  }

  /**
   * `sortImagesIntelligently`: a sorted copy, the input itself being a value
   * that is never changed. Modelled as a stable insertion sort.
   */
  function SortImagesIntelligently(images: seq<ImageFile>, localeCmp: (string, string) -> int)
    : (r: seq<ImageFile>)
    ensures multiset(r) == multiset(images)
    ensures |r| == |images|
  {
    if |images| == 0 then []
    else
      var prefix := images[..|images| - 1];
      assert images == prefix + [images[|images| - 1]];
      Insert(images[|images| - 1], SortImagesIntelligently(prefix, localeCmp), localeCmp)
  }

  /** With an antisymmetric name order, every neighbouring pair of the result is in comparator order. */
  lemma {:induction false} SortIsLocallySorted(images: seq<ImageFile>, localeCmp: (string, string) -> int)
    requires Antisymmetric(localeCmp)
    ensures LocallySorted(SortImagesIntelligently(images, localeCmp), localeCmp)
    decreases |images|
  {
    if |images| > 0 {
      var prefix := images[..|images| - 1];
      SortIsLocallySorted(prefix, localeCmp);
      InsertKeepsSorted(images[|images| - 1], SortImagesIntelligently(prefix, localeCmp), localeCmp);
    }
  }
}
