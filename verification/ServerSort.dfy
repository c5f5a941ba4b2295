// Sorting the list of servers on a rule (master-server/MasterCommon.cpp).
module ServerSort {
  import opened GameServers

  // A server with the position of the rule it is sorted on
  datatype Keyed = Keyed(server: GameServer, keyIndex: int)

  // ---- the order of rule values ----

  // strcmp: negative, zero or positive
  function Strcmp(a: string, b: string): int {
    if a == [] && b == [] then 0
    else if a == [] then -1
    else if b == [] then 1
    else if a[0] != b[0] then a[0] as int - b[0] as int
    else Strcmp(a[1..], b[1..])
  }

  lemma {:induction false} StrcmpFlips(a: string, b: string)
    ensures Strcmp(a, b) < 0 <==> Strcmp(b, a) > 0
    ensures Strcmp(a, b) == 0 <==> a == b
    decreases |a|
  {
    if a != [] && b != [] && a[0] == b[0] {
      StrcmpFlips(a[1..], b[1..]);
      assert a == [a[0]] + a[1..] && b == [b[0]] + b[1..];
    }
  }

  lemma {:induction false} StrcmpTrans(a: string, b: string, c: string)
    requires Strcmp(a, b) <= 0 && Strcmp(b, c) <= 0
    ensures Strcmp(a, c) <= 0
    decreases |a|
  {
    if a != [] && b != [] && c != [] && a[0] == b[0] == c[0] {
      StrcmpTrans(a[1..], b[1..], c[1..]);
    }
  }

  // The first difference is at k: a ends there and b does not, or has the smaller character.
  predicate SmallerAt(a: string, b: string, k: nat) {
    && k <= |a| && k < |b| && a[..k] == b[..k] && (k < |a| ==> a[k] < b[k])
  }

  // The order of a dictionary
  ghost predicate Precedes(a: string, b: string) {
    exists k: nat :: SmallerAt(a, b, k)
  }

  lemma SameFirst(a: string, b: string, k: nat)
    requires 0 < k && SmallerAt(a, b, k)
    ensures a != [] && a[0] == b[0]
  {
    assert a[..k][0] == b[..k][0];
  }

  lemma {:induction false} StrcmpPrecedes(a: string, b: string)
    ensures Strcmp(a, b) < 0 <==> Precedes(a, b)
    decreases |a|
  {
    if a != [] && b != [] && a[0] == b[0] {
      StrcmpPrecedes(a[1..], b[1..]);
      if Precedes(a[1..], b[1..]) {
        var k: nat :| SmallerAt(a[1..], b[1..], k);
        assert a[..k + 1] == [a[0]] + a[1..][..k] && b[..k + 1] == [b[0]] + b[1..][..k];
        assert SmallerAt(a, b, k + 1);
      }
      if Precedes(a, b) {
        var k: nat :| SmallerAt(a, b, k);
        assert k > 0 && a[1..][..k - 1] == a[..k][1..] && b[1..][..k - 1] == b[..k][1..];
        assert SmallerAt(a[1..], b[1..], k - 1);
      }
    } else if a != [] && b != [] {
      if Precedes(a, b) {
        var k: nat :| SmallerAt(a, b, k);
        if k > 0 {
          SameFirst(a, b, k);
          assert false;
        }
      }
      assert a[0] < b[0] ==> SmallerAt(a, b, 0);
    } else if a == [] && b != [] {
      assert SmallerAt(a, b, 0);
    }
  }

  predicate HasRule(x: Keyed) {
    0 <= x.keyIndex < |x.server.rules|
  }

  function ValueOf(x: Keyed): RuleValue
    requires HasRule(x)
  {
    x.server.rules[x.keyIndex].value
  }

  // Both have the rule, and its values are of one kind.
  predicate Comparable(x: Keyed, y: Keyed) {
    HasRule(x) && HasRule(y) && ValueOf(x).Text? == ValueOf(y).Text?
  }

  function CompareValues(v: RuleValue, w: RuleValue): int
    requires v.Text? == w.Text?
  {
    if v.Text? then Strcmp(v.s, w.s) else v.n - w.n
  }

  function Compare(x: Keyed, y: Keyed): int
    requires Comparable(x, y)
  {
    CompareValues(ValueOf(x), ValueOf(y))
  }

  // EQ, LT and GT, where both servers have the rule
  predicate EQ(left: Keyed, right: Keyed)
    requires Comparable(left, right)
  {
    if ValueOf(left).Text? then Strcmp(ValueOf(left).s, ValueOf(right).s) == 0 else ValueOf(left).n == ValueOf(right).n
  }

  predicate LT(left: Keyed, right: Keyed)
    requires Comparable(left, right)
  {
    if ValueOf(left).Text? then Strcmp(ValueOf(left).s, ValueOf(right).s) < 0 else ValueOf(left).n < ValueOf(right).n
  }

  predicate GT(left: Keyed, right: Keyed)
    requires Comparable(left, right)
  {
    if ValueOf(left).Text? then Strcmp(ValueOf(left).s, ValueOf(right).s) > 0 else ValueOf(left).n > ValueOf(right).n
  }

  predicate LTEQ(left: Keyed, right: Keyed)
    requires Comparable(left, right)
  {
    LT(left, right) || EQ(left, right)
  }

  predicate GTEQ(left: Keyed, right: Keyed)
    requires Comparable(left, right)
  {
    GT(left, right) || EQ(left, right)
  }

  // x may stand before y.
  predicate Ordered(x: Keyed, y: Keyed, ascending: bool)
    requires Comparable(x, y)
  {
    if ascending then Compare(x, y) <= 0 else Compare(x, y) >= 0
  }

  // v may stand before w: numbers by size, strings as in a dictionary.
  ghost predicate ValuesOrdered(v: RuleValue, w: RuleValue, ascending: bool) {
    match (v, w)
    case (Text(a), Text(b)) => if ascending then !Precedes(b, a) else !Precedes(a, b)
    case (Number(m), Number(n)) => if ascending then m <= n else m >= n
    case _ => false
  }

  lemma OrderedValues(x: Keyed, y: Keyed, ascending: bool)
    requires Comparable(x, y)
    ensures Ordered(x, y, ascending) <==> ValuesOrdered(ValueOf(x), ValueOf(y), ascending)
  {
    if ValueOf(x).Text? {
      var a, b := ValueOf(x).s, ValueOf(y).s;
      StrcmpPrecedes(a, b);
      StrcmpPrecedes(b, a);
      StrcmpFlips(a, b);
      StrcmpFlips(b, a);
    }
  }

  lemma OrderedTrans(x: Keyed, y: Keyed, z: Keyed, ascending: bool)
    requires Comparable(x, y) && Comparable(y, z) && Ordered(x, y, ascending) && Ordered(y, z, ascending)
    ensures Ordered(x, z, ascending)
  {
    if ValueOf(x).Text? {
      var a, b, c := ValueOf(x).s, ValueOf(y).s, ValueOf(z).s;
      StrcmpFlips(a, b);
      StrcmpFlips(b, c);
      StrcmpFlips(a, c);
      if ascending {
        StrcmpTrans(a, b, c);
      } else {
        StrcmpTrans(c, b, a);
      }
    }
  }

  lemma OrderedTotal(x: Keyed, y: Keyed, ascending: bool)
    requires Comparable(x, y)
    ensures Ordered(x, y, ascending) || Ordered(y, x, ascending)
    ensures x == y ==> Ordered(x, y, ascending)
  {
    if ValueOf(x).Text? {
      StrcmpFlips(ValueOf(x).s, ValueOf(y).s);
    }
  }

  ghost predicate AllComparable(q: seq<Keyed>) {
    forall i, j :: 0 <= i < |q| && 0 <= j < |q| ==> Comparable(q[i], q[j])
  }

  ghost predicate Sorted(q: seq<Keyed>, low: int, high: int, ascending: bool)
    requires AllComparable(q) && 0 <= low && high < |q|
  {
    forall i, j :: low <= i < j <= high ==> Ordered(q[i], q[j], ascending)
  }

  // Only what is between low and high has been rearranged.
  ghost predicate Rearranged(q: seq<Keyed>, q': seq<Keyed>, low: int, high: int)
    requires 0 <= low <= high + 1 <= |q|
  {
    && |q'| == |q| && q'[..low] == q[..low] && q'[high + 1..] == q[high + 1..]
    && multiset(q'[low..high + 1]) == multiset(q[low..high + 1])
  }

  lemma Swapped(q: seq<Keyed>, low: int, high: int, i: int, j: int)
    requires 0 <= low <= i <= high < |q| && low <= j <= high && AllComparable(q)
    ensures Rearranged(q, q[i := q[j]][j := q[i]], low, high) && AllComparable(q[i := q[j]][j := q[i]])
  {
    hide AllComparable;
    SwappedSlice(q, low, high, i, j);
    StillComparable(q, q[i := q[j]][j := q[i]], low, high);
  }

  lemma SwappedSlice(q: seq<Keyed>, low: int, high: int, i: int, j: int)
    requires 0 <= low <= i <= high < |q| && low <= j <= high
    ensures Rearranged(q, q[i := q[j]][j := q[i]], low, high)
  {
    var q', s := q[i := q[j]][j := q[i]], q[low..high + 1];
    assert q'[low..high + 1] == s[i - low := s[j - low]][j - low := s[i - low]];
  }

  lemma RearrangedSelf(q: seq<Keyed>, low: int, high: int)
    requires 0 <= low <= high + 1 <= |q|
    ensures Rearranged(q, q, low, high)
  {
  }

  // What has been passed on either side is where it belongs.
  ghost predicate Parted(q: seq<Keyed>, item: Keyed, low: int, left: int, right: int, high: int, ascending: bool)
    requires AllComparable(q) && 0 <= low <= left <= high < |q| && low <= right <= high && q[low] == item
  {
    && (forall i :: low <= i < left ==> Ordered(q[i], item, ascending))
    && (forall i :: right < i <= high ==> !Ordered(q[i], item, ascending))
    && Ordered(q[if left < right then left else right], item, ascending)
  }

  lemma PartedMore(q: seq<Keyed>, item: Keyed, low: int, from: int, left: int, right: int, upto: int, high: int,
                   ascending: bool)
    requires AllComparable(q) && 0 <= low <= from < left <= high < |q| && low <= right <= upto <= high && q[low] == item
    requires Parted(q, item, low, from, upto, high, ascending)
    requires forall i :: from <= i < left ==> Ordered(q[i], item, ascending)
    requires forall i :: right < i <= upto ==> !Ordered(q[i], item, ascending)
    requires Ordered(q[right], item, ascending)
    ensures forall i :: low <= i < left ==> Ordered(q[i], item, ascending)
    ensures forall i :: right < i <= high ==> !Ordered(q[i], item, ascending)
    ensures left >= right ==> Parted(q, item, low, left, right, high, ascending)
  {
    hide AllComparable, Ordered;
  }

  lemma PartedSwap(q0: seq<Keyed>, q: seq<Keyed>, item: Keyed, low: int, left: int, right: int, high: int,
                   ascending: bool)
    requires AllComparable(q) && 0 <= low < left < right <= high < |q| == |q0| && q[low] == item &&
             Rearranged(q0, q, low, high)
    requires forall i :: low <= i < left ==> Ordered(q[i], item, ascending)
    requires forall i :: right < i <= high ==> !Ordered(q[i], item, ascending)
    requires Ordered(q[right], item, ascending)
    ensures var q' := q[left := q[right]][right := q[left]];
            && Rearranged(q0, q', low, high) && AllComparable(q') && q'[low] == item
            && Parted(q', item, low, left, right, high, ascending)
  {
    hide Rearranged, AllComparable, Ordered;
    Swapped(q, low, high, left, right);
    RearrangedTrans(q0, q, q[left := q[right]][right := q[left]], low, high);
  }

  lemma PartedEnd(q0: seq<Keyed>, q: seq<Keyed>, item: Keyed, low: int, left: int, right: int, high: int,
                  ascending: bool)
    requires AllComparable(q) && 0 <= low <= right <= left <= high < |q| == |q0| && q[low] == item &&
             Rearranged(q0, q, low, high)
    requires Parted(q, item, low, left, right, high, ascending)
    ensures var q' := q[low := q[right]][right := item];
            && Rearranged(q0, q', low, high) && AllComparable(q') && q'[right] == item
            && (forall i :: low <= i < right ==> Ordered(q'[i], item, ascending))
            && (forall i :: right < i <= high ==> !Ordered(q'[i], item, ascending))
  {
    Swapped(q, low, high, low, right);
    RearrangedTrans(q0, q, q[low := q[right]][right := item], low, high);
    hide Rearranged, AllComparable;
  }

  lemma RearrangedTrans(q0: seq<Keyed>, q1: seq<Keyed>, q2: seq<Keyed>, low: int, high: int)
    requires 0 <= low <= high + 1 <= |q0| && Rearranged(q0, q1, low, high) && Rearranged(q1, q2, low, high)
    ensures Rearranged(q0, q2, low, high)
  {
  }

  lemma RearrangedWiden(q: seq<Keyed>, q': seq<Keyed>, lo: int, hi: int, low: int, high: int)
    requires 0 <= low <= lo <= hi + 1 <= high + 1 <= |q| && Rearranged(q, q', lo, hi)
    ensures Rearranged(q, q', low, high)
  {
    assert q'[..low] == q'[..lo][..low] && q[..low] == q[..lo][..low];
    assert q'[high + 1..] == q'[hi + 1..][high - hi..] && q[high + 1..] == q[hi + 1..][high - hi..];
    Parts(q, lo, hi, low, high);
    Parts(q', lo, hi, low, high);
    assert q'[low..lo] == q'[..lo][low..] && q[low..lo] == q[..lo][low..];
    assert q'[hi + 1..high + 1] == q'[hi + 1..][..high - hi] && q[hi + 1..high + 1] == q[hi + 1..][..high - hi];
  }

  lemma Parts(q: seq<Keyed>, lo: int, hi: int, low: int, high: int)
    requires 0 <= low <= lo <= hi + 1 <= high + 1 <= |q|
    ensures multiset(q[low..high + 1]) ==
            multiset(q[low..lo]) + multiset(q[lo..hi + 1]) + multiset(q[hi + 1..high + 1])
  {
    assert q[low..high + 1] == q[low..lo] + q[lo..hi + 1] + q[hi + 1..high + 1];
  }

  // Whatever stands between low and high stood there before.
  lemma StoodThere(q: seq<Keyed>, q': seq<Keyed>, low: int, high: int, i: int) returns (j: int)
    requires 0 <= low <= i <= high < |q| && Rearranged(q, q', low, high)
    ensures low <= j <= high && q'[i] == q[j]
  {
    assert q'[i] == q'[low..high + 1][i - low];
    assert q'[i] in multiset(q'[low..high + 1]);
    assert q'[i] in q[low..high + 1];
    var k :| 0 <= k < |q[low..high + 1]| && q[low..high + 1][k] == q'[i];
    j := low + k;
  }

  lemma StillComparable(q: seq<Keyed>, q': seq<Keyed>, low: int, high: int)
    requires 0 <= low <= high + 1 <= |q| && Rearranged(q, q', low, high) && AllComparable(q)
    ensures AllComparable(q')
  {
    forall i | 0 <= i < |q'|
      ensures exists j :: 0 <= j < |q| && q'[i] == q[j]
    {
      if low <= i <= high {
        var j := StoodThere(q, q', low, high, i);
      } else if i < low {
        assert q'[i] == q'[..low][i] == q[i];
      } else {
        assert q'[i] == q'[high + 1..][i - high - 1] == q[i];
      }
    }
  }

  lemma Elsewhere(q: seq<Keyed>, q': seq<Keyed>, low: int, high: int, i: int)
    requires 0 <= low <= high + 1 <= |q| && Rearranged(q, q', low, high) && 0 <= i < |q| && (i < low || i > high)
    ensures q'[i] == q[i]
  {
    if i < low {
      assert q'[..low][i] == q[..low][i];
    } else {
      assert q'[high + 1..][i - high - 1] == q[high + 1..][i - high - 1];
    }
  }

  // What is before pivot may stand before it; what is after it must stand after.
  ghost predicate Divided(q: seq<Keyed>, low: int, pivot: int, high: int, ascending: bool)
    requires 0 <= low <= pivot <= high < |q| && AllComparable(q)
  {
    && (forall i :: low <= i < pivot ==> Ordered(q[i], q[pivot], ascending))
    && (forall i :: pivot < i <= high ==> !Ordered(q[i], q[pivot], ascending))
  }

  // The two halves are sorted, and the pivot separates them.
  lemma SortedWhole(q1: seq<Keyed>, q2: seq<Keyed>, q3: seq<Keyed>, low: int, pivot: int, high: int, ascending: bool)
    requires 0 <= low <= pivot <= high < |q1| && AllComparable(q1) && AllComparable(q2) && AllComparable(q3)
    requires Divided(q1, low, pivot, high, ascending)
    requires Rearranged(q1, q2, low, pivot - 1) && Sorted(q2, low, pivot - 1, ascending)
    requires Rearranged(q2, q3, pivot + 1, high) && Sorted(q3, pivot + 1, high, ascending)
    ensures Sorted(q3, low, high, ascending)
  {
    assert |q2| == |q1| && |q3| == |q2|;
    hide Rearranged, Compare, CompareValues, HasRule, ValueOf;
    Elsewhere(q1, q2, low, pivot - 1, pivot);
    Elsewhere(q2, q3, pivot + 1, high, pivot);
    var p := q3[pivot];
    forall i | low <= i < pivot
      ensures q3[i] == q2[i] && Ordered(q3[i], p, ascending)
    {
      Elsewhere(q2, q3, pivot + 1, high, i);
      var j := StoodThere(q1, q2, low, pivot - 1, i);
    }
    forall i | pivot < i <= high
      ensures Ordered(p, q3[i], ascending)
    {
      var j := StoodThere(q2, q3, pivot + 1, high, i);
      Elsewhere(q1, q2, low, pivot - 1, j);
      OrderedTotal(p, q3[i], ascending);
    }
    assert Sorted(q3, low, pivot - 1, ascending);
    SortedAround(q3, low, pivot, high, ascending);
  }

  lemma SortedAround(q: seq<Keyed>, low: int, pivot: int, high: int, ascending: bool)
    requires 0 <= low <= pivot <= high < |q| && AllComparable(q)
    requires Sorted(q, low, pivot - 1, ascending) && Sorted(q, pivot + 1, high, ascending)
    requires forall i :: low <= i < pivot ==> Ordered(q[i], q[pivot], ascending)
    requires forall i :: pivot < i <= high ==> Ordered(q[pivot], q[i], ascending)
    ensures Sorted(q, low, high, ascending)
  {
    hide Compare, HasRule, ValueOf, Ordered;
    forall i, j | low <= i < j <= high
      ensures Ordered(q[i], q[j], ascending)
    {
      if i < pivot < j {
        OrderedTrans(q[i], q[pivot], q[j], ascending);
      }
    }
  }

  class GameServerList {
    var serverList: seq<Keyed>

    // Everything before the returned position may stand before its server, and everything after it must stand
    // after.  No position outside low and high is read, although right is only compared with 0.
    method Partition(low: int, high: int, ascending: bool) returns (pivot: int)
      requires 0 <= low < high < |serverList| && AllComparable(serverList)
      modifies this
      ensures low <= pivot <= high && |serverList| == |old(serverList)|
      ensures Rearranged(old(serverList), serverList, low, high) && AllComparable(serverList)
      ensures Divided(serverList, low, pivot, high, ascending)
    {
      ghost var q := serverList;
      var item := serverList[low];
      var left, right := low, high;
      OrderedTotal(item, item, ascending);
      RearrangedSelf(q, low, high);
      hide Rearranged, AllComparable, Ordered;
      while left < right
        invariant low <= left <= high && low <= right <= high && |serverList| == |q|
        invariant Rearranged(q, serverList, low, high) && AllComparable(serverList) && serverList[low] == item
        invariant Parted(serverList, item, low, left, right, high, ascending)
        decreases high - left
      {
        ghost var from, upto := left, right;
        left := MoveLeft(left, high, item, ascending);
        right := MoveRight(right, low, item, ascending);
        PartedMore(serverList, item, low, from, left, right, upto, high, ascending);
        if left < right {
          PartedSwap(q, serverList, item, low, left, right, high, ascending);
          serverList := serverList[left := serverList[right]][right := serverList[left]];
        }
      }
      PartedEnd(q, serverList, item, low, left, right, high, ascending);
      serverList := serverList[low := serverList[right]][right := item];
      pivot := right;
    }

    method MoveLeft(from: int, high: int, item: Keyed, ascending: bool) returns (left: int)
      requires 0 <= from < high < |serverList| && AllComparable(serverList) && item in serverList
      requires Ordered(serverList[from], item, ascending)
      ensures from < left <= high && forall i :: from <= i < left ==> Ordered(serverList[i], item, ascending)
      ensures left < high ==> !Ordered(serverList[left], item, ascending)
    {
      left := from;
      while (if ascending then LTEQ(serverList[left], item) else GTEQ(serverList[left], item)) && left < high
        invariant from <= left <= high && forall i :: from <= i < left ==> Ordered(serverList[i], item, ascending)
      {
        left := left + 1;
      }
    }

    method MoveRight(from: int, low: int, item: Keyed, ascending: bool) returns (right: int)
      requires 0 <= low <= from < |serverList| && AllComparable(serverList) && serverList[low] == item
      ensures low <= right <= from && forall i :: right < i <= from ==> !Ordered(serverList[i], item, ascending)
      ensures Ordered(serverList[right], item, ascending)
    {
      right := from;
      OrderedTotal(item, item, ascending);
      while (if ascending then GT(serverList[right], item) else LT(serverList[right], item)) && right > 0
        invariant low <= right <= from && forall i :: right < i <= from ==> !Ordered(serverList[i], item, ascending)
      {
        right := right - 1;
      }
    }

    method QuickSort(low: int, high: int, ascending: bool)
      requires 0 <= low <= high + 1 <= |serverList| && AllComparable(serverList)
      modifies this
      ensures |serverList| == |old(serverList)| && Rearranged(old(serverList), serverList, low, high)
      ensures AllComparable(serverList) && Sorted(serverList, low, high, ascending)
      decreases high - low
    {
      RearrangedSelf(serverList, low, high);
      if high > low {
        hide Rearranged, Sorted, AllComparable, Divided;
        ghost var q := serverList;
        var pivot := Partition(low, high, ascending);
        ghost var q1 := serverList;
        QuickSort(low, pivot - 1, ascending);
        ghost var q2 := serverList;
        QuickSort(pivot + 1, high, ascending);
        SortedWhole(q1, q2, serverList, low, pivot, high, ascending);
        RearrangedWiden(q1, q2, low, pivot - 1, low, high);
        RearrangedWiden(q2, serverList, pivot + 1, high, low, high);
        RearrangedTrans(q, q1, q2, low, high);
        RearrangedTrans(q, q2, serverList, low, high);
      }
    }

    // SortOnKey, where every server has the key, with values of one kind
    method SortOnKey(key: string, ascending: bool) returns (ghost keyed: seq<Keyed>)
      requires forall i, j :: 0 <= i < |serverList| && 0 <= j < |serverList| ==>
                 OneKind(serverList[i].server, serverList[j].server, key)
      modifies this
      ensures Servers(keyed) == Servers(old(serverList)) && multiset(serverList) == multiset(keyed)
      ensures forall i, j :: 0 <= i < j < |serverList| ==>
                OneKind(serverList[i].server, serverList[j].server, key)
                && RuleOrdered(serverList[i].server, serverList[j].server, key, ascending)
    {
      ghost var q := serverList;
      var i := 0;
      while i < |serverList|
        invariant 0 <= i <= |serverList| == |q| && Servers(serverList) == Servers(q)
        invariant forall j :: 0 <= j < |q| ==> serverList[j].server == q[j].server
        invariant forall j :: 0 <= j < i ==> IsKeyed(serverList[j], key)
      {
        var index := FindKey(serverList[i].server.rules, key);
        assert OneKind(q[i].server, q[i].server, key);
        KeyFound(serverList[i].server, key, index);
        serverList := serverList[i := Keyed(serverList[i].server, index)];
        i := i + 1;
      }
      keyed := serverList;
      KeyedComparable(keyed, q, key);
      hide AllComparable, Rearranged, Sorted, IsKeyed, OneKind, Servers;
      QuickSort(0, |serverList| - 1, ascending);
      SameElements(keyed, serverList);
      SortedOnKey(keyed, serverList, key, ascending);
    }
  }

  function Servers(q: seq<Keyed>): seq<GameServer> {
    seq(|q|, i requires 0 <= i < |q| => q[i].server)
  }

  predicate IsKeyed(x: Keyed, key: string) {
    HasRule(x) && Lookup(x.server.rules, key) == Some(ValueOf(x))
  }

  predicate OneKind(a: GameServer, b: GameServer, key: string) {
    match (Lookup(a.rules, key), Lookup(b.rules, key))
    case (Some(v), Some(w)) => v.Text? == w.Text?
    case _ => false
  }

  // In the order of the rule, a may stand before b.
  ghost predicate RuleOrdered(a: GameServer, b: GameServer, key: string, ascending: bool)
    requires OneKind(a, b, key)
  {
    ValuesOrdered(Lookup(a.rules, key).value, Lookup(b.rules, key).value, ascending)
  }

  lemma KeyFound(g: GameServer, key: string, index: int)
    requires Lookup(g.rules, key).Some? && -1 <= index < |g.rules|
    requires index >= 0 ==> g.rules[index].key == key && forall i :: 0 <= i < index ==> g.rules[i].key != key
    requires index < 0 ==> forall i :: 0 <= i < |g.rules| ==> g.rules[i].key != key
    ensures IsKeyed(Keyed(g, index), key)
  {
    LookupNone(g.rules, key);
    LookupAt(g.rules, index);
  }

  lemma KeyedComparable(q: seq<Keyed>, q0: seq<Keyed>, key: string)
    requires |q| == |q0| && forall i :: 0 <= i < |q| ==> q[i].server == q0[i].server && IsKeyed(q[i], key)
    requires forall i, j :: 0 <= i < |q| && 0 <= j < |q| ==> OneKind(q0[i].server, q0[j].server, key)
    ensures AllComparable(q)
  {
    forall i, j | 0 <= i < |q| && 0 <= j < |q|
      ensures Comparable(q[i], q[j])
    {
      assert OneKind(q0[i].server, q0[j].server, key);
    }
  }

  lemma SameElements(q: seq<Keyed>, q': seq<Keyed>)
    requires Rearranged(q, q', 0, |q| - 1)
    ensures multiset(q') == multiset(q)
  {
    assert q'[0..|q|] == q' && q[0..|q|] == q;
  }

  lemma SortedOnKey(q: seq<Keyed>, q': seq<Keyed>, key: string, ascending: bool)
    requires AllComparable(q) && AllComparable(q') && Rearranged(q, q', 0, |q| - 1) && Sorted(q', 0, |q| - 1, ascending)
    requires forall i :: 0 <= i < |q| ==> IsKeyed(q[i], key)
    ensures forall i, j :: 0 <= i < j < |q'| ==>
              OneKind(q'[i].server, q'[j].server, key) && RuleOrdered(q'[i].server, q'[j].server, key, ascending)
  {
    forall i | 0 <= i < |q'|
      ensures IsKeyed(q'[i], key)
    {
      var j := StoodThere(q, q', 0, |q| - 1, i);
    }
    forall i, j | 0 <= i < j < |q'|
      ensures OneKind(q'[i].server, q'[j].server, key) && RuleOrdered(q'[i].server, q'[j].server, key, ascending)
    {
      assert IsKeyed(q'[i], key) && IsKeyed(q'[j], key) && Ordered(q'[i], q'[j], ascending);
      OrderedValues(q'[i], q'[j], ascending);
    }
  }
}
