/**
 The clock offset computed from the answers of several NTP servers
 (waku/v2/timesource/ntp.go): count the failures, sort the offsets of the rest
 in descending order, take the middle. Offsets are 64-bit durations, so the sum
 of the two middle ones can wrap around, and Go's division truncates.
 */
module NtpMedian {
  import opened GoTypes

  datatype Answer = Failed | Offset(value: Int64)

  datatype Result = Ok(offset: int) | RpcErrors

  /** Truncating division by two. */
  function Half(x: int): int {
    if x >= 0 then x / 2 else -(-x / 2)
  }

  /** Halving drops the fraction: the result is nearer to zero, on the same side, and at most a half away. */
  lemma HalfTruncates(x: int)
    ensures x >= 0 ==> 0 <= x - 2 * Half(x) <= 1
    ensures x < 0 ==> -1 <= x - 2 * Half(x) <= 0
  {
  }

  /** The offsets of the answers that did not fail, in order of arrival. */
  function Successes(answers: seq<Answer>): seq<int> {
    if answers == [] then []
    else
      var last := answers[|answers| - 1];
      Successes(answers[..|answers| - 1]) + if last.Failed? then [] else [last.value]
  }

  function Insert(x: int, s: seq<int>): seq<int> {
    if s == [] then [x]
    else if x > s[0] then [x] + s
    else [s[0]] + Insert(x, s[1..])
  }

  /** The offsets in descending order. */
  function Sorted(s: seq<int>): seq<int> {
    if s == [] then [] else Insert(s[0], Sorted(s[1..]))
  }

  function Middle(s: seq<int>): int
    requires s != []
  {
    var mid := |s| / 2;
    if |s| % 2 == 0 then Half(Wrap64(s[mid - 1] + s[mid])) else s[mid]
  }

  function Computed(answers: seq<Answer>, allowedFailures: int): Result {
    var offsets := Successes(answers);
    var failures := |answers| - |offsets|;
    if answers == [] then Ok(0)
    else if failures > allowedFailures || offsets == [] then RpcErrors
    else SortedLength(offsets); Ok(Middle(Sorted(offsets)))
  }

  lemma {:induction false} InsertLength(x: int, s: seq<int>)
    ensures |Insert(x, s)| == |s| + 1
  {
    if s != [] {
      InsertLength(x, s[1..]);
    }
  }

  lemma {:induction false} SortedLength(s: seq<int>)
    ensures |Sorted(s)| == |s|
  {
    if s != [] {
      SortedLength(s[1..]);
      InsertLength(s[0], Sorted(s[1..]));
    }
  }

  /** The answers arrive one by one; `allowedFailures` is the configured bound. */
  method ComputeOffset(answers: seq<Answer>, allowedFailures: int) returns (r: Result)
    ensures r == Computed(answers, allowedFailures)
  {
    if answers == [] {
      return Ok(0);
    }
    var errors: nat := 0;
    var offsets: seq<int> := [];
    for collected := 0 to |answers|
      invariant offsets == Successes(answers[..collected])
      invariant errors == collected - |offsets|
    {
      assert answers[..collected + 1][..collected] == answers[..collected];
      match answers[collected]
      case Failed => errors := errors + 1;
      case Offset(v) => offsets := offsets + [v];
    }
    assert answers[..|answers|] == answers;
    if errors > allowedFailures {
      return RpcErrors;
    } else if errors == |answers| {
      return RpcErrors;
    }
    SortedLength(offsets);
    offsets := Sorted(offsets);
    var mid := |offsets| / 2;
    if |offsets| % 2 == 0 {
      return Ok(Half(Wrap64(offsets[mid - 1] + offsets[mid])));
    }
    r := Ok(offsets[mid]);
  }

  // ---------- order of arrival ----------

  predicate Descending(s: seq<int>) {
    forall i, j :: 0 <= i < j < |s| ==> s[i] >= s[j]
  }

  lemma HeadTail(s: seq<int>)
    requires s != []
    ensures multiset(s) == multiset{s[0]} + multiset(s[1..])
  {
    assert s == [s[0]] + s[1..];
  }

  lemma {:induction false} InsertMultiset(x: int, s: seq<int>)
    ensures multiset(Insert(x, s)) == multiset{x} + multiset(s)
  {
    if s != [] && x <= s[0] {
      InsertMultiset(x, s[1..]);
      HeadTail(s);
      assert multiset([s[0]] + Insert(x, s[1..])) == multiset{s[0]} + multiset(Insert(x, s[1..]));
    }
  }

  predicate AtMost(s: seq<int>, m: int) {
    forall i :: 0 <= i < |s| ==> s[i] <= m
  }

  lemma {:induction false} InsertAtMost(x: int, s: seq<int>, m: int)
    requires x <= m && AtMost(s, m)
    ensures AtMost(Insert(x, s), m)
  {
    if s != [] && x <= s[0] {
      InsertAtMost(x, s[1..], m);
    }
  }

  lemma {:induction false} InsertDescending(x: int, s: seq<int>)
    requires Descending(s)
    ensures Descending(Insert(x, s))
  {
    if s != [] && x <= s[0] {
      InsertDescending(x, s[1..]);
      InsertAtMost(x, s[1..], s[0]);
    }
  }

  lemma {:induction false} SortedIs(s: seq<int>)
    ensures Descending(Sorted(s)) && multiset(Sorted(s)) == multiset(s)
  {
    if s != [] {
      SortedIs(s[1..]);
      InsertDescending(s[0], Sorted(s[1..]));
      InsertMultiset(s[0], Sorted(s[1..]));
      HeadTail(s);
    }
  }

  lemma HeadsAgree(a: seq<int>, b: seq<int>)
    requires Descending(a) && Descending(b) && multiset(a) == multiset(b) && a != []
    ensures b != [] && a[0] == b[0] && multiset(a[1..]) == multiset(b[1..])
  {
    assert a[0] in multiset(a);
    assert a[0] in b;
    assert b[0] in multiset(b);
    assert b[0] in a;
    HeadTail(a);
    HeadTail(b);
    assert multiset(a[1..]) == multiset(a) - multiset{a[0]};
    assert multiset(b[1..]) == multiset(b) - multiset{b[0]};
  }

  lemma {:induction false} DescendingUnique(a: seq<int>, b: seq<int>)
    requires Descending(a) && Descending(b) && multiset(a) == multiset(b)
    ensures a == b
  {
    if a == [] {
      if b != [] {
        HeadsAgree(b, a);
      }
    } else {
      HeadsAgree(a, b);
      DescendingUnique(a[1..], b[1..]);
      assert a == [a[0]] + a[1..] && b == [b[0]] + b[1..];
    }
  }

  /** The offset depends on how many servers were asked and which offsets they gave, not on the order of arrival. */
  lemma ArrivalOrderIrrelevant(a: seq<Answer>, b: seq<Answer>, allowedFailures: int)
    requires |a| == |b| && multiset(Successes(a)) == multiset(Successes(b))
    ensures Computed(a, allowedFailures) == Computed(b, allowedFailures)
  {
    var x, y := Successes(a), Successes(b);
    SortedIs(x);
    SortedIs(y);
    DescendingUnique(Sorted(x), Sorted(y));
    SortedLength(x);
    SortedLength(y);
  }

  // ---------- the majority bound ----------

  /** How many of the offsets lie in [lo, hi]. */
  function Inside(s: seq<int>, lo: int, hi: int): nat {
    if s == [] then 0 else (if lo <= s[0] <= hi then 1 else 0) + Inside(s[1..], lo, hi)
  }

  lemma {:induction false} InsertInside(x: int, s: seq<int>, lo: int, hi: int)
    ensures Inside(Insert(x, s), lo, hi) == Inside(s, lo, hi) + if lo <= x <= hi then 1 else 0
  {
    if s != [] && x <= s[0] {
      InsertInside(x, s[1..], lo, hi);
    } else {
      assert ([x] + s)[1..] == s;
    }
  }

  lemma {:induction false} SortedInside(s: seq<int>, lo: int, hi: int)
    ensures Inside(Sorted(s), lo, hi) == Inside(s, lo, hi)
  {
    if s != [] {
      SortedInside(s[1..], lo, hi);
      InsertInside(s[0], Sorted(s[1..]), lo, hi);
    }
  }

  lemma {:induction false} InsideAtMost(s: seq<int>, lo: int, hi: int)
    ensures Inside(s, lo, hi) <= |s|
  {
    if s != [] {
      InsideAtMost(s[1..], lo, hi);
    }
  }

  lemma {:induction false} InsideSplit(s: seq<int>, k: nat, lo: int, hi: int)
    requires k <= |s|
    ensures Inside(s, lo, hi) == Inside(s[..k], lo, hi) + Inside(s[k..], lo, hi)
  {
    if k == 0 {
      assert s[..0] == [] && s[0..] == s;
    } else {
      InsideSplit(s[1..], k - 1, lo, hi);
      assert s[..k][1..] == s[1..][..k - 1] && s[1..][k - 1..] == s[k..];
    }
  }

  lemma {:induction false} NoneInside(s: seq<int>, lo: int, hi: int)
    requires forall i :: 0 <= i < |s| ==> s[i] < lo || s[i] > hi
    ensures Inside(s, lo, hi) == 0
  {
    if s != [] {
      NoneInside(s[1..], lo, hi);
    }
  }

  /** In a descending list with more than half inside, position k is inside when neither side of it is a majority. */
  lemma MajorityAt(s: seq<int>, k: nat, lo: int, hi: int)
    requires Descending(s) && k < |s| && 2 * Inside(s, lo, hi) > |s|
    requires |s| <= 2 * (k + 1) && 2 * k <= |s|
    ensures lo <= s[k] <= hi
  {
    if s[k] > hi {
      InsideSplit(s, k + 1, lo, hi);
      NoneInside(s[..k + 1], lo, hi);
      InsideAtMost(s[k + 1..], lo, hi);
    } else if s[k] < lo {
      InsideSplit(s, k, lo, hi);
      NoneInside(s[k..], lo, hi);
      InsideAtMost(s[..k], lo, hi);
    }
  }

  predicate Fits(x: int) {
    -0x8000_0000_0000_0000 <= x <= 0x7FFF_FFFF_FFFF_FFFF
  }

  /** The mean of two offsets lies between them exactly when their sum does not wrap around. */
  lemma MeanBetweenIff(a: int, b: int)
    requires a >= b && Fits(a) && Fits(b)
    ensures b <= Half(Wrap64(a + b)) <= a <==> Fits(a + b)
  {
    if Fits(a + b) {
      assert Wrap64(a + b) == a + b;
    }
  }

  /** The two offsets whose mean an even number of answers gives. */
  predicate MiddleSumFits(offsets: seq<int>) {
    var s := Sorted(offsets);
    s != [] && |s| % 2 == 0 ==> Fits(s[|s| / 2 - 1] + s[|s| / 2])
  }

  predicate AllFit(s: seq<int>) {
    forall i :: 0 <= i < |s| ==> Fits(s[i])
  }

  lemma {:induction false} SuccessesFit(answers: seq<Answer>)
    ensures AllFit(Successes(answers))
    decreases |answers|
  {
    if answers != [] {
      SuccessesFit(answers[..|answers| - 1]);
    }
  }

  lemma {:induction false} InsertFits(x: int, s: seq<int>)
    requires Fits(x) && AllFit(s)
    ensures AllFit(Insert(x, s))
  {
    if s != [] && x <= s[0] {
      InsertFits(x, s[1..]);
    }
  }

  lemma {:induction false} SortedFit(s: seq<int>)
    requires AllFit(s)
    ensures AllFit(Sorted(s))
  {
    if s != [] {
      SortedFit(s[1..]);
      InsertFits(s[0], Sorted(s[1..]));
    }
  }

  lemma MiddleInside(s: seq<int>, lo: int, hi: int)
    requires s != [] && Descending(s) && AllFit(s) && 2 * Inside(s, lo, hi) > |s|
    requires |s| % 2 == 0 ==> Fits(s[|s| / 2 - 1] + s[|s| / 2])
    ensures lo <= Middle(s) <= hi
  {
    var mid := |s| / 2;
    MajorityAt(s, mid, lo, hi);
    if |s| % 2 == 0 {
      MajorityAt(s, mid - 1, lo, hi);
      MeanBetweenIff(s[mid - 1], s[mid]);
    }
  }

  /**
   Whenever more than half of the successful answers lie in [lo, hi], so does
   the offset, for odd and even counts, unless the sum of the middle two wraps.
   */
  lemma MajorityBounds(answers: seq<Answer>, allowedFailures: int, lo: int, hi: int)
    requires answers != [] && Computed(answers, allowedFailures).Ok?
    requires 2 * Inside(Successes(answers), lo, hi) > |Successes(answers)|
    requires MiddleSumFits(Successes(answers))
    ensures lo <= Computed(answers, allowedFailures).offset <= hi
  {
    var offsets := Successes(answers);
    SortedIs(offsets);
    SortedLength(offsets);
    SortedInside(offsets, lo, hi);
    SuccessesFit(answers);
    SortedFit(offsets);
    MiddleInside(Sorted(offsets), lo, hi);
  }

  lemma {:induction false} EveryInside(s: seq<int>, lo: int, hi: int)
    requires forall i :: 0 <= i < |s| ==> lo <= s[i] <= hi
    ensures Inside(s, lo, hi) == |s|
  {
    if s != [] {
      EveryInside(s[1..], lo, hi);
    }
  }

  lemma PartInside(s: seq<int>, i: nat, j: nat, lo: int, hi: int)
    requires i <= j <= |s| && forall k :: i <= k < j ==> lo <= s[k] <= hi
    ensures Inside(s, lo, hi) >= j - i
  {
    InsideSplit(s, i, lo, hi);
    var rest := s[i..];
    InsideSplit(rest, j - i, lo, hi);
    EveryInside(rest[..j - i], lo, hi);
  }

  /** The upper half with both middle elements is a majority ... */
  lemma UpperIsMajority(s: seq<int>)
    requires s != [] && |s| % 2 == 0 && Descending(s)
    ensures 2 * Inside(s, s[|s| / 2], s[0]) > |s|
  {
    PartInside(s, 0, |s| / 2 + 1, s[|s| / 2], s[0]);
  }

  /** ... and so is the lower half. */
  lemma LowerIsMajority(s: seq<int>)
    requires s != [] && |s| % 2 == 0 && Descending(s)
    ensures 2 * Inside(s, s[|s| - 1], s[|s| / 2 - 1]) > |s|
  {
    PartInside(s, |s| / 2 - 1, |s|, s[|s| - 1], s[|s| / 2 - 1]);
  }

  /** A wrapped sum has the other sign, so its half is beyond both offsets. */
  lemma WrappedMean(a: int, b: int)
    requires Fits(a) && Fits(b) && a >= b && !Fits(a + b)
    ensures Half(Wrap64(a + b)) < b || Half(Wrap64(a + b)) > a
    ensures b >= 0 ==> Half(Wrap64(a + b)) < b
    ensures b < 0 ==> Half(Wrap64(a + b)) > a
  {
  }

  /** With an even count whose middle sum does not wrap, the result is the mean of the middle two, cut toward zero. */
  lemma EvenIsMean(answers: seq<Answer>, allowedFailures: int)
    requires answers != [] && Computed(answers, allowedFailures).Ok? && |Successes(answers)| % 2 == 0
    requires MiddleSumFits(Successes(answers))
    ensures var s, r := Sorted(Successes(answers)), Computed(answers, allowedFailures).offset;
            && |s| == |Successes(answers)|
            && var sum := s[|s| / 2 - 1] + s[|s| / 2];
               if sum >= 0 then 0 <= sum - 2 * r <= 1 else -1 <= sum - 2 * r <= 0
  {
    SortedLength(Successes(answers));
    var s := Sorted(Successes(answers));
    var sum := s[|s| / 2 - 1] + s[|s| / 2];
    WrapFits(sum);
    HalfTruncates(sum);
  }

  lemma WrapFits(x: int)
    requires Fits(x)
    ensures Wrap64(x) == x
  {
  }

  /** A range that holds more than half of the offsets but not the result. */
  ghost predicate Misses(offsets: seq<int>, result: int, lo: int, hi: int) {
    2 * Inside(offsets, lo, hi) > |offsets| && !(lo <= result <= hi)
  }

  /** The bound by a majority holds for every range exactly when the sum of the middle two does not wrap. */
  lemma MajorityIff(answers: seq<Answer>, allowedFailures: int)
    requires answers != [] && Computed(answers, allowedFailures).Ok?
    ensures MiddleSumFits(Successes(answers))
       <==> forall lo, hi :: !Misses(Successes(answers), Computed(answers, allowedFailures).offset, lo, hi)
  {
    var offsets := Successes(answers);
    var result := Computed(answers, allowedFailures).offset;
    if MiddleSumFits(offsets) {
      forall lo, hi ensures !Misses(offsets, result, lo, hi) {
        if 2 * Inside(offsets, lo, hi) > |offsets| {
          MajorityBounds(answers, allowedFailures, lo, hi);
        }
      }
    } else {
      WrapMisses(answers, allowedFailures);
    }
  }

  lemma WrapMisses(answers: seq<Answer>, allowedFailures: int)
    requires answers != [] && Computed(answers, allowedFailures).Ok? && !MiddleSumFits(Successes(answers))
    ensures exists lo, hi :: Misses(Successes(answers), Computed(answers, allowedFailures).offset, lo, hi)
  {
    var offsets := Successes(answers);
    SortedIs(offsets);
    SortedLength(offsets);
    SuccessesFit(answers);
    SortedFit(offsets);
    var lo, hi := WrapMissesSorted(Sorted(offsets));
    SortedInside(offsets, lo, hi);
    assert Misses(offsets, Computed(answers, allowedFailures).offset, lo, hi);
  }

  lemma WrapMissesSorted(s: seq<int>) returns (lo: int, hi: int)
    requires s != [] && |s| % 2 == 0 && Descending(s) && AllFit(s)
    requires !Fits(s[|s| / 2 - 1] + s[|s| / 2])
    ensures Misses(s, Middle(s), lo, hi)
  {
    UpperIsMajority(s);
    LowerIsMajority(s);
    WrappedMean(s[|s| / 2 - 1], s[|s| / 2]);
    if s[|s| / 2] >= 0 {
      lo, hi := s[|s| / 2], s[0];
    } else {
      lo, hi := s[|s| - 1], s[|s| / 2 - 1];
    }
  }

  /** Two servers that agree on the same huge offset give an offset of the other sign. */
  lemma WrapLeavesTheRange()
    ensures var big := 0x7000_0000_0000_0000;
            var r := Computed([Offset(big), Offset(big)], 0);
            r.Ok? && r.offset < 0
  {
    var big := 0x7000_0000_0000_0000;
    var answers := [Offset(big), Offset(big)];
    assert answers[..1] == [Offset(big)] && [Offset(big)][..0] == [];
    assert Successes([Offset(big)]) == [big];
    assert Successes(answers) == [big, big];
    assert [big, big][1..] == [big] && [big][1..] == [];
    assert Sorted([big]) == [big];
    assert Sorted([big, big]) == [big, big];
  }

  /** The computation fails exactly when too many servers failed or, having asked some, none answered. */
  lemma FailsIff(answers: seq<Answer>, allowedFailures: int)
    ensures Computed(answers, allowedFailures).RpcErrors?
       <==> answers != [] && (Failures(answers) > allowedFailures || Failures(answers) == |answers|)
    ensures answers == [] ==> Computed(answers, allowedFailures) == Ok(0)
  {
    FailuresCount(answers);
  }

  function Failures(answers: seq<Answer>): nat {
    if answers == [] then 0 else (if answers[0].Failed? then 1 else 0) + Failures(answers[1..])
  }

  lemma {:induction false} FailuresSnoc(answers: seq<Answer>, a: Answer)
    ensures Failures(answers + [a]) == Failures(answers) + if a.Failed? then 1 else 0
  {
    if answers == [] {
      assert [] + [a] == [a] && [a][1..] == [];
    } else {
      assert (answers + [a])[1..] == answers[1..] + [a];
      FailuresSnoc(answers[1..], a);
    }
  }

  lemma {:induction false} FailuresCount(answers: seq<Answer>)
    ensures Failures(answers) == |answers| - |Successes(answers)|
    decreases |answers|
  {
    if answers != [] {
      var front, last := answers[..|answers| - 1], answers[|answers| - 1];
      FailuresCount(front);
      FailuresSnoc(front, last);
      assert front + [last] == answers;
    }
  }
}
