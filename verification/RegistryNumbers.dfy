/** What number an AP id stands for, and what acceptance says about numbers, order and blocked ranges. */
module RegistryNumbers {
  import opened Options
  import opened Ordering
  import opened Registry

  // ----- decimal text

  function DigitChar(d: nat): char
    requires d < 10
  {
    '0' + d as char
  }

  /** The decimal text of a number, without leading zeros. */
  function DecimalText(n: nat): string {
    if n < 10 then [DigitChar(n)] else DecimalText(n / 10) + [DigitChar(n % 10)]
  }

  function Zeros(k: nat): (s: string)
    ensures |s| == k && Digits(s)
  {
    if k == 0 then "" else Zeros(k - 1) + "0"
  }

  lemma DigitsPrefix(s: string, k: nat)
    requires Digits(s) && k <= |s|
    ensures Digits(s[..k]) && Digits(s[k..])
  {
  }

  /** Reading the decimal text of a number gives the number. */
  lemma {:induction false} TextReadsBack(n: nat)
    ensures Digits(DecimalText(n)) && DecimalValue(DecimalText(n)) == n
    decreases n
  {
    var text := DecimalText(n);
    if n >= 10 {
      TextReadsBack(n / 10);
      assert text[..|text| - 1] == DecimalText(n / 10);
    } else {
      assert text[..0] == "";
    }
  }

  function PowerOfTen(k: nat): nat {
    if k == 0 then 1 else 10 * PowerOfTen(k - 1)
  }

  /** A number moved k decimal places to the left. */
  function Shifted(x: nat, k: nat): nat {
    if k == 0 then x else Shifted(x, k - 1) * 10
  }

  lemma {:induction false} ShiftedIsProduct(x: nat, k: nat)
    ensures Shifted(x, k) == x * PowerOfTen(k)
    decreases k
  {
    if k > 0 {
      ShiftedIsProduct(x, k - 1);
      TenTimes(x, PowerOfTen(k - 1));
    }
  }

  lemma TenTimes(x: int, p: int)
    ensures (x * p) * 10 == x * (10 * p)
  {
  }

  lemma LastDigit(s: string)
    requires Digits(s) && s != ""
    ensures Digits(s[..|s| - 1]) && DecimalValue(s) == DecimalValue(s[..|s| - 1]) * 10 + DigitValue(s[|s| - 1])
  {
  }

  lemma {:induction false} ValueOfConcat(a: string, b: string)
    requires Digits(a) && Digits(b)
    ensures Digits(a + b) && DecimalValue(a + b) == Shifted(DecimalValue(a), |b|) + DecimalValue(b)
    decreases |b|
  {
    if b == "" {
      assert a + b == a;
    } else {
      var front := b[..|b| - 1];
      ValueOfConcat(a, front);
      LastDigit(b);
      LastDigit(a + b);
      assert (a + b)[..|a + b| - 1] == a + front;
    }
  }

  /** Place value: digits put in front count for powers of ten. */
  lemma PlaceValue(a: string, b: string)
    requires Digits(a) && Digits(b)
    ensures Digits(a + b) && DecimalValue(a + b) == DecimalValue(a) * PowerOfTen(|b|) + DecimalValue(b)
  {
    ValueOfConcat(a, b);
    ShiftedIsProduct(DecimalValue(a), |b|);
  }

  lemma {:induction false} ValueIsBelow(s: string)
    requires Digits(s)
    ensures DecimalValue(s) < PowerOfTen(|s|)
    decreases |s|
  {
    if s != "" {
      ValueIsBelow(s[..|s| - 1]);
    }
  }

  /** Leading zeros change nothing. */
  lemma LeadingZeros(k: nat, s: string)
    requires Digits(s)
    ensures Digits(Zeros(k) + s) && DecimalValue(Zeros(k) + s) == DecimalValue(s)
  {
    PlaceValue(Zeros(k), s);
    ZerosAreZero(k);
  }

  lemma {:induction false} ZerosAreZero(k: nat)
    ensures DecimalValue(Zeros(k)) == 0
  {
    if k > 0 {
      ZerosAreZero(k - 1);
      assert Zeros(k)[..k - 1] == Zeros(k - 1);
    }
  }

  function DigitValue(c: char): int { c as int - '0' as int }

  lemma OneDigit(c: char)
    requires '0' <= c <= '9'
    ensures Digits([c]) && DecimalValue([c]) == DigitValue(c)
  {
    assert [c][..0] == "";
  }

  lemma HeadValue(s: string)
    requires Digits(s) && s != ""
    ensures Digits(s[1..]) && DecimalValue(s[1..]) < PowerOfTen(|s| - 1)
    ensures DecimalValue(s) == DigitValue(s[0]) * PowerOfTen(|s| - 1) + DecimalValue(s[1..])
  {
    OneDigit(s[0]);
    PlaceValue([s[0]], s[1..]);
    assert [s[0]] + s[1..] == s;
    ValueIsBelow(s[1..]);
  }

  lemma {:induction false} Multiples(d: nat, e: nat, p: nat)
    requires d <= e
    ensures d * p <= e * p
    decreases e - d
  {
    if d < e {
      Multiples(d + 1, e, p);
      assert (d + 1) * p == d * p + p;
    }
  }

  lemma SmallerHeadDecides(d: nat, e: nat, p: nat, v: nat, w: nat)
    requires d < e && v < p
    ensures d * p + v < e * p + w
  {
    Multiples(d + 1, e, p);
    assert (d + 1) * p == d * p + p;
  }

  /** Numbers of equal length compare as their texts do. */
  lemma {:induction false} EqualLengthsCompareAsText(a: string, b: string)
    requires Digits(a) && Digits(b) && |a| == |b|
    ensures DecimalValue(a) < DecimalValue(b) <==> StringLess(a, b)
    ensures DecimalValue(a) == DecimalValue(b) <==> a == b
    decreases |a|
  {
    if a == "" {
      assert a == b;
    } else {
      HeadValue(a);
      HeadValue(b);
      EqualLengthsCompareAsText(a[1..], b[1..]);
      var p := PowerOfTen(|a| - 1);
      var d, e := DigitValue(a[0]), DigitValue(b[0]);
      assert a == [a[0]] + a[1..] && b == [b[0]] + b[1..];
      if d < e {
        SmallerHeadDecides(d, e, p, DecimalValue(a[1..]), DecimalValue(b[1..]));
      } else if e < d {
        SmallerHeadDecides(e, d, p, DecimalValue(b[1..]), DecimalValue(a[1..]));
      }
    }
  }

  // ----- ids

  /** An id is the prefix and three or more digits, and stands for their value. */
  lemma ApIdShape(s: string)
    ensures IsApId(s) <==> |s| >= 6 && s == "AP-" + s[3..] && Digits(s[3..])
    ensures IsApId(s) ==> ApNumber(s) == DecimalValue(s[3..])
  {
    if |s| >= 3 {
      assert s == s[..3] + s[3..];
    }
  }

  /** The id of a number, padded with zeros. */
  function ApIdOf(padding: nat, n: nat): string {
    "AP-" + Zeros(padding) + DecimalText(n)
  }

  lemma PrefixedId(digits: string)
    requires |digits| >= 3 && Digits(digits)
    ensures IsApId("AP-" + digits) && ApNumber("AP-" + digits) == DecimalValue(digits)
  {
    var id := "AP-" + digits;
    assert id[..3] == "AP-" && id[3..] == digits;
  }

  lemma ApIdOfReads(padding: nat, n: nat)
    requires padding + |DecimalText(n)| >= 3
    ensures IsApId(ApIdOf(padding, n)) && ApNumber(ApIdOf(padding, n)) == n
  {
    var digits := Zeros(padding) + DecimalText(n);
    TextReadsBack(n);
    LeadingZeros(padding, DecimalText(n));
    PrefixedId(digits);
    assert ApIdOf(padding, n) == "AP-" + digits;
  }

  /** A date is year, month and day digits between dashes. */
  lemma DateShape(y: string, m: string, d: string)
    requires |y| == 4 && |m| == 2 && |d| == 2
    ensures IsDate(y + "-" + m + "-" + d) <==> Digits(y) && Digits(m) && Digits(d)
  {
    var s := y + "-" + m + "-" + d;
    assert s[..4] == y && s[5..7] == m && s[8..] == d && s[4] == '-' && s[7] == '-';
  }

  // ----- accepted registries

  lemma KeyLessIsTransitive(a: Allocation, b: Allocation, c: Allocation)
    requires IsApId(a.apId) && IsApId(b.apId) && IsApId(c.apId) && KeyLess(a, b) && KeyLess(b, c)
    ensures KeyLess(a, c)
  {
    if StringLess(a.title, b.title) && StringLess(b.title, c.title) {
      StringLessIsTransitive(a.title, b.title, c.title);
    }
    if StringLess(a.commit, b.commit) && StringLess(b.commit, c.commit) {
      StringLessIsTransitive(a.commit, b.commit, c.commit);
    }
  }

  lemma {:induction false} AllocationsAreOrdered(w: Context, r: Registry, i: nat, j: nat)
    requires Accepted(w, r) && i < j < |r.allocations|
    ensures IsApId(r.allocations[i].apId) && IsApId(r.allocations[j].apId) && KeyLess(r.allocations[i], r.allocations[j])
    decreases j
  {
    assert AllocationOk(r.allocations, r.blocked, i) && AllocationOk(r.allocations, r.blocked, j);
    if i < j - 1 {
      AllocationsAreOrdered(w, r, i, j - 1);
      KeyLessIsTransitive(r.allocations[i], r.allocations[j - 1], r.allocations[j]);
    }
  }

  lemma PrefixedCompare(a: string, b: string)
    requires |a| >= 3 && |b| >= 3 && a[..3] == b[..3]
    ensures StringLess(a, b) <==> StringLess(a[3..], b[3..])
  {
    assert a[0] == b[0] && a[1] == b[1] && a[2] == b[2] by {
      assert a[..3][0] == b[..3][0] && a[..3][1] == b[..3][1] && a[..3][2] == b[..3][2];
    }
    assert a[1..][1..] == a[2..] && a[2..][1..] == a[3..] && b[1..][1..] == b[2..] && b[2..][1..] == b[3..];
    assert StringLess(a, b) <==> StringLess(a[1..], b[1..]);
    assert StringLess(a[1..], b[1..]) <==> StringLess(a[2..], b[2..]);
    assert StringLess(a[2..], b[2..]) <==> StringLess(a[3..], b[3..]);
  }

  /**
   In an accepted registry the allocations stand in order: ids of one length in text order, records of
   one id by title in text order, and records of one id and title by commit.
   */
  lemma IdsStandInTextOrder(w: Context, r: Registry, i: nat, j: nat)
    requires Accepted(w, r) && i < j < |r.allocations| && |r.allocations[i].apId| == |r.allocations[j].apId|
    ensures var a, b := r.allocations[i], r.allocations[j];
            || StringLess(a.apId, b.apId)
            || (a.apId == b.apId && (StringLess(a.title, b.title) || (a.title == b.title && StringLess(a.commit, b.commit))))
  {
    var a, b := r.allocations[i], r.allocations[j];
    AllocationsAreOrdered(w, r, i, j);
    EqualLengthsCompareAsText(a.apId[3..], b.apId[3..]);
    PrefixedCompare(a.apId, b.apId);
    ApIdShape(a.apId);
    ApIdShape(b.apId);
  }

  /** No id of a number in a blocked range, however padded, is allocated or has an event. */
  lemma BlockedIdsAreAbsent(w: Context, r: Registry, k: nat, padding: nat, n: nat)
    requires Accepted(w, r) && k < |r.blocked| && r.blocked[k].start <= n <= r.blocked[k].end
    requires padding + |DecimalText(n)| >= 3
    ensures forall i :: 0 <= i < |r.allocations| ==> r.allocations[i].apId != ApIdOf(padding, n)
    ensures forall i :: 0 <= i < |r.Events()| ==> r.Events()[i].apId != ApIdOf(padding, n)
  {
    ApIdOfReads(padding, n);
    assert Blocked(r.blocked, n);
    forall i | 0 <= i < |r.allocations| ensures r.allocations[i].apId != ApIdOf(padding, n) {
      assert AllocationOk(r.allocations, r.blocked, i);
    }
    forall i | 0 <= i < |r.Events()| ensures r.Events()[i].apId != ApIdOf(padding, n) {
      assert EventOk(w, r, r.Events(), i);
    }
  }

  /** Blocked ranges are well formed, and any two of them stand apart in order. */
  lemma {:induction false} RangesStandApart(w: Context, r: Registry, i: nat, j: nat)
    requires Accepted(w, r) && i < j < |r.blocked|
    ensures 1 <= r.blocked[i].start <= r.blocked[i].end < r.blocked[j].start <= r.blocked[j].end
    decreases j
  {
    assert RangeOk(r.blocked, i) && RangeOk(r.blocked, j);
    if i < j - 1 {
      RangesStandApart(w, r, i, j - 1);
    }
  }

  /** An id in active use has one title, and no record that was superseded or awaits repair. */
  lemma ActiveIdIsUnambiguous(w: Context, r: Registry, i: nat, j: nat)
    requires Accepted(w, r) && i < |r.allocations| && j < |r.allocations|
    requires r.allocations[i].apId == r.allocations[j].apId
    requires r.allocations[i].status == BootReserved || r.allocations[i].status == BootAllocated
    ensures r.allocations[j].title == r.allocations[i].title
    ensures r.allocations[j].status == BootReserved || r.allocations[j].status == BootAllocated
  {
    assert PairOk(r.allocations[i], r.allocations[j]) && PairOk(r.allocations[j], r.allocations[i]);
    assert AllocationOk(r.allocations, r.blocked, j);
  }

  /** An unresolved repair is the only kind of record that is unresolved, and a repair is always one or the other. */
  lemma RepairsAreResolvedOrNot(w: Context, r: Registry, i: nat)
    requires Accepted(w, r) && i < |r.allocations|
    ensures r.allocations[i].reconciliation == Unresolved ==> r.allocations[i].status == CollisionRepair
    ensures r.allocations[i].status == CollisionRepair ==>
              r.allocations[i].reconciliation == Unresolved || r.allocations[i].reconciliation == Resolved
  {
    assert AllocationOk(r.allocations, r.blocked, i);
  }

  // ----- commitments and governance

  /** With commitments that tell different contents apart, an event id fixes the whole event, in any two accepted registries. */
  lemma EventIdFixesEvent(w: Context, r: Registry, q: Registry, i: nat, j: nat)
    requires Accepted(w, r) && Accepted(w, q) && i < |r.Events()| && j < |q.Events()|
    requires forall a, b :: w.eventHash(a) == w.eventHash(b) ==> a == b
    requires r.Events()[i].eventId == q.Events()[j].eventId
    ensures r.Events()[i] == q.Events()[j]
  {
    assert EventOk(w, r, r.Events(), i) && EventOk(w, q, q.Events(), j);
    var a, b := r.Events()[i], q.Events()[j];
    assert a.(eventId := "") == b.(eventId := "");
  }

  lemma RecIdFixesReconciliation(w: Context, r: Registry, q: Registry, i: nat, j: nat)
    requires Accepted(w, r) && Accepted(w, q) && i < |r.Recs()| && j < |q.Recs()|
    requires forall a, b :: w.recHash(a) == w.recHash(b) ==> a == b
    requires r.Recs()[i].recId == q.Recs()[j].recId
    ensures r.Recs()[i] == q.Recs()[j]
  {
    assert RecOk(w, r, r.Recs(), i) && RecOk(w, q, q.Recs(), j);
    var a, b := r.Recs()[i], q.Recs()[j];
    assert a.(recId := "") == b.(recId := "");
  }

  /** A commit is governed when the authoritative main or a durable reference reaches it. */
  ghost predicate Reached(w: Context, sha: string) {
    || (w.mainCommit.Some? && w.mainReachable.Some? && w.mainReachable.value(sha, w.mainCommit.value))
    || (w.durableReachable.Some? && w.durableReachable.value(sha))
  }

  /** All lifecycle evidence sits on governed commits, and there is none without an authoritative main. */
  lemma EvidenceIsGoverned(w: Context, r: Registry)
    requires Accepted(w, r)
    ensures forall i :: 0 <= i < |r.Events()| ==> Reached(w, r.Events()[i].base)
    ensures forall i :: 0 <= i < |r.Recs()| ==> Reached(w, r.Recs()[i].base)
    ensures w.mainCommit.None? ==> r.Events() == [] && r.Recs() == []
  {
    forall i | 0 <= i < |r.Events()| ensures Reached(w, r.Events()[i].base) && w.mainCommit.Some? {
      assert EventOk(w, r, r.Events(), i);
    }
    forall i | 0 <= i < |r.Recs()| ensures Reached(w, r.Recs()[i].base) && w.mainCommit.Some? {
      assert RecOk(w, r, r.Recs(), i);
    }
    if r.Events() != [] {
      assert Reached(w, r.Events()[0].base);
    }
    if r.Recs() != [] {
      assert Reached(w, r.Recs()[0].base);
    }
  }

  /** What a revision adds to its predecessor is based on exactly the authoritative main commit. */
  lemma NewEvidenceNamesMain(w: Context, r: Registry, main: string)
    requires Accepted(w, r) && w.baseline.Some? && w.mainCommit == Some(main)
    ensures forall i :: |w.baseline.value.Events()| <= i < |r.Events()| ==> r.Events()[i].base == main
    ensures forall i :: |w.baseline.value.Recs()| <= i < |r.Recs()| ==> r.Recs()[i].base == main
  {
    forall i | |w.baseline.value.Events()| <= i < |r.Events()| ensures r.Events()[i].base == main {
      assert NewEventOk(w, w.baseline.value, r.Events()[i]);
    }
    forall i | |w.baseline.value.Recs()| <= i < |r.Recs()| ensures r.Recs()[i].base == main {
      assert NewRecOk(w, w.baseline.value, r.Recs()[i]);
    }
  }
}
