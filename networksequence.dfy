/**
 * A temporal network as a sequence of snapshots (NetworkSequence).
 *
 * A snapshot added at time T is meant to stay valid until the next change
 * time.  The sequence keeps a map from change time to snapshot and the list of
 * change times, re-sorted after every addition.  Snapshot values (graphs or
 * adjacency matrices) are an opaque type parameter.
 *
 * The lookup selects the greatest change time strictly before the query
 * (StrictFloor), so a query exactly at a non-zero change time selects the
 * change time before it; Floor is the selection the validity rule describes.
 */
module TemporalNetwork {

  datatype Option<T> = None | Some(value: T)

  predicate Sorted(s: seq<int>)
  {
    forall i, j :: 0 <= i < j < |s| ==> s[i] <= s[j]
  }

  /** Places x after every leading element of s that is not greater than x. */
  function Insert(s: seq<int>, x: int): (r: seq<int>)
    ensures |r| == |s| + 1
    ensures multiset(r) == multiset(s) + multiset{x}
  {
    if s == [] then [x]
    else if x < s[0] then [x] + s
    else
      assert s == [s[0]] + s[1..];
      [s[0]] + Insert(s[1..], x)
  }

  /** Inserting into a sorted list keeps it sorted. */
  lemma {:induction false} InsertSorted(s: seq<int>, x: int)
    requires Sorted(s)
    ensures Sorted(Insert(s, x))
  {
    if s != [] && x >= s[0] {
      var rest := Insert(s[1..], x);
      InsertSorted(s[1..], x);
      forall k | 0 <= k < |rest| ensures s[0] <= rest[k] {
        assert rest[k] in multiset(rest);
        if rest[k] != x {
          assert rest[k] in multiset(s[1..]);
        }
      }
      ConsSorted(s[0], rest);
    }
  }

  /** A sorted list stays sorted when a head no greater than any of its elements is put in front. */
  lemma ConsSorted(h: int, t: seq<int>)
    requires Sorted(t)
    requires forall k :: 0 <= k < |t| ==> h <= t[k]
    ensures Sorted([h] + t)
  {
    var r := [h] + t;
    forall i, j | 0 <= i < j < |r| ensures r[i] <= r[j] {
      assert r[j] == t[j - 1];
      if i > 0 {
        assert r[i] == t[i - 1];
      }
    }
  }

  /**
   * The list sort applied to a list of change times, written as an insertion
   * sort; SortedPermutationUnique shows that every sorting algorithm gives
   * this same list.
   */
  function SortList(s: seq<int>): (r: seq<int>)
    ensures Sorted(r)
    ensures multiset(r) == multiset(s)
  {
    if s == [] then []
    else
      assert s == [s[0]] + s[1..];
      InsertSorted(SortList(s[1..]), s[0]);
      Insert(SortList(s[1..]), s[0])
  }

  /** A sorted list is determined by its multiset of elements. */
  lemma {:induction false} SortedPermutationUnique(a: seq<int>, b: seq<int>)
    requires Sorted(a) && Sorted(b)
    requires multiset(a) == multiset(b)
    ensures a == b
  {
    assert |a| == |multiset(a)| == |multiset(b)| == |b|;
    if a != [] {
      HeadIsLeast(a, b);
      HeadIsLeast(b, a);
      var a', b' := a[1..], b[1..];
      assert a == [a[0]] + a' && b == [b[0]] + b';
      assert multiset(a') == multiset(b') by {
        assert a[0] == b[0];
        assert multiset(a) == multiset{a[0]} + multiset(a');
        assert multiset(b) == multiset{b[0]} + multiset(b');
        forall x ensures multiset(a')[x] == multiset(b')[x] {
          assert multiset(a)[x] == multiset(b)[x];
        }
      }
      assert Sorted(a') && Sorted(b');
      SortedPermutationUnique(a', b');
    }
  }

  /** The head of a sorted list is not greater than any element of a list with the same elements. */
  lemma HeadIsLeast(a: seq<int>, b: seq<int>)
    requires Sorted(a) && |a| > 0 && |b| > 0
    requires multiset(a) == multiset(b)
    ensures a[0] <= b[0]
  {
    assert b[0] in multiset(a);
    var j :| 0 <= j < |a| && a[j] == b[0];
  }

  /** Sorting an already sorted list of change times leaves it as it is. */
  lemma SortListOfSorted(s: seq<int>)
    requires Sorted(s)
    ensures SortList(s) == s
  {
    SortedPermutationUnique(SortList(s), s);
  }

  /**
   * The last element of s strictly smaller than time, or None when every
   * element is at least time.  On a sorted s it is the greatest such element.
   */
  function StrictFloor(s: seq<int>, time: int): (r: Option<int>)
    ensures r.None? <==> forall i :: 0 <= i < |s| ==> s[i] >= time
    ensures r.Some? ==> r.value in s && r.value < time
  {
    if s == [] then None
    else if s[|s| - 1] < time then Some(s[|s| - 1])
    else StrictFloor(s[..|s| - 1], time)
  }

  /** On sorted change times the selected time is the greatest one strictly before the query. */
  lemma {:induction false} StrictFloorIsGreatest(s: seq<int>, time: int)
    requires Sorted(s)
    requires StrictFloor(s, time).Some?
    ensures forall i :: 0 <= i < |s| && s[i] < time ==> s[i] <= StrictFloor(s, time).value
  {
    var last := |s| - 1;
    if s[last] >= time {
      var p := s[..last];
      StrictFloorIsGreatest(p, time);
      forall i | 0 <= i < |s| && s[i] < time ensures s[i] <= StrictFloor(s, time).value {
        assert i < last && p[i] == s[i];
      }
    }
  }

  /** Change times at or after the query time never affect the floor of the part before them. */
  lemma {:induction false} StrictFloorIgnoresLaterTimes(s: seq<int>, k: int, time: int)
    requires 0 <= k <= |s|
    requires forall i :: k <= i < |s| ==> s[i] >= time
    ensures StrictFloor(s, time) == StrictFloor(s[..k], time)
    decreases |s| - k
  {
    if k < |s| {
      var p := s[..|s| - 1];
      assert p[..k] == s[..k];
      StrictFloorIgnoresLaterTimes(p, k, time);
    } else {
      assert s[..k] == s;
    }
  }

  /**
   * The greatest change time at or before the query: the snapshot that is
   * valid at `time` when each snapshot holds from its own time until the next.
   */
  function Floor(s: seq<int>, time: int): (r: Option<int>)
    ensures r.None? <==> forall i :: 0 <= i < |s| ==> s[i] > time
    ensures r.Some? ==> r.value in s && r.value <= time
  {
    if s == [] then None
    else if s[|s| - 1] <= time then Some(s[|s| - 1])
    else Floor(s[..|s| - 1], time)
  }

  /** On sorted change times Floor selects the greatest change time at or before the query. */
  lemma {:induction false} FloorIsGreatest(s: seq<int>, time: int)
    requires Sorted(s)
    requires Floor(s, time).Some?
    ensures forall i :: 0 <= i < |s| && s[i] <= time ==> s[i] <= Floor(s, time).value
  {
    var last := |s| - 1;
    if s[last] > time {
      var p := s[..last];
      FloorIsGreatest(p, time);
      forall i | 0 <= i < |s| && s[i] <= time ensures s[i] <= Floor(s, time).value {
        assert i < last && p[i] == s[i];
      }
    }
  }

  /** A query exactly at a change time selects that change time itself. */
  lemma {:induction false} FloorAtChangeTime(s: seq<int>, time: int)
    requires Sorted(s) && time in s
    ensures Floor(s, time) == Some(time)
  {
    var i :| 0 <= i < |s| && s[i] == time;
    FloorIsGreatest(s, time);
  }

  /** Away from the change times the two selections agree. */
  lemma {:induction false} FloorAgreesOffChangeTimes(s: seq<int>, time: int)
    requires time !in s
    ensures Floor(s, time) == StrictFloor(s, time)
  {
    if s != [] {
      var p := s[..|s| - 1];
      assert forall t :: t in p ==> t in s;
      FloorAgreesOffChangeTimes(p, time);
    }
  }

  /** With change times 0, 3, 5, 10, 25 a query at 5 selects 3, although a snapshot starts at 5. */
  lemma QueryAtChangeTimeSelectsEarlier(s: seq<int>)
    requires s == [0, 3, 5, 10, 25]
    ensures StrictFloor(s, 5) == Some(3)
    ensures Floor(s, 5) == Some(5)
  {
    assert s[..4] == [0, 3, 5, 10] && s[..3] == [0, 3, 5] && s[..2] == [0, 3];
    assert s[..4][..3] == s[..3] && s[..3][..2] == s[..2];
    assert StrictFloor(s, 5) == StrictFloor(s[..4], 5) == StrictFloor(s[..3], 5) == StrictFloor(s[..2], 5);
    assert Floor(s, 5) == Floor(s[..4], 5) == Floor(s[..3], 5);
  }

  class NetworkSequence<M> {
    var timeToMatrix: map<int, M>
    var times: seq<int>

    /** The change times stay sorted, and they are exactly the keys of the snapshot map. */
    ghost predicate Valid()
      reads this
    {
      Sorted(times) && forall t :: t in timeToMatrix <==> t in times
    }

    constructor ()
      ensures Valid()
      ensures times == [] && timeToMatrix == map[]
    {
      timeToMatrix := map[];
      times := [];
    }

    /**
     * Stores the snapshot under its time (replacing any earlier snapshot for
     * that time), appends the time to the change times and re-sorts them;
     * a repeated time is kept twice.
     */
    method AddNetwork(time: int, matrix: M)
      requires Valid()
      modifies this
      ensures Valid()
      ensures timeToMatrix == old(timeToMatrix)[time := matrix]
      ensures multiset(times) == multiset(old(times)) + multiset{time}
    {
      timeToMatrix := timeToMatrix[time := matrix];
      ghost var before := times;
      times := times + [time];
      times := SortList(times);
      forall t ensures t in timeToMatrix <==> t in times {
        assert t in times <==> t in multiset(times);
        assert t in before <==> t in multiset(before);
      }
    }

    /** The change times, sorted and exactly the times that have a snapshot. */
    method GetListOfChangeTimes() returns (r: seq<int>)
      requires Valid()
      ensures r == times
      ensures Sorted(r)
      ensures forall t :: t in r <==> t in timeToMatrix
    {
      r := times;
    }

    /**
     * Selects the greatest change time strictly before `time`, or None when
     * there is none; a query at time 0 always selects 0.  A query exactly at
     * a non-zero change time therefore selects the change time before it.
     * The selection is only logged, so the model returns it.
     */
    method GetGraphMatrixForTime(time: int) returns (index: Option<int>)
      requires Valid()
      ensures time == 0 ==> index == Some(0)
      ensures time != 0 ==> index == StrictFloor(times, time)
    {
      index := None;
      var k := 0;
      while k < |times|
        invariant 0 <= k <= |times|
        invariant index == StrictFloor(times[..k], time)
      {
        var t := times[k];
        if time > t {
          assert times[..k + 1][..k] == times[..k];
          index := Some(t);
        } else if index != None {
          StrictFloorIgnoresLaterTimes(times, k, time);
          assert index == StrictFloor(times, time);
          break;
        } else {
          assert times[..k + 1][..k] == times[..k];
        }
        k := k + 1;
      }
      if k == |times| {
        assert times[..k] == times;
      }
      if time == 0 {
        index := Some(0);
      }
    }
  }

  /** The only sorted arrangement of the change times 0, 10, 5, 25, 3 is 0, 3, 5, 10, 25. */
  lemma ExampleTimesSorted(s: seq<int>)
    requires Sorted(s) && multiset(s) == multiset{0, 10, 5, 25, 3}
    ensures s == [0, 3, 5, 10, 25]
  {
    var expected := [0, 3, 5, 10, 25];
    assert multiset(expected) == multiset{0, 10, 5, 25, 3};
    SortedPermutationUnique(s, expected);
  }

  /** On the change times 0, 3, 5, 10, 25 queries at 8, 12, 50 and 1 select 5, 10, 25 and 0. */
  lemma ExampleFloors(s: seq<int>)
    requires s == [0, 3, 5, 10, 25]
    ensures StrictFloor(s, 8) == Some(5) && StrictFloor(s, 12) == Some(10)
    ensures StrictFloor(s, 50) == Some(25) && StrictFloor(s, 1) == Some(0)
  {
    assert s[..4] == [0, 3, 5, 10] && s[..3] == [0, 3, 5];
    assert s[..2] == [0, 3] && s[..1] == [0];
    assert s[..4][..3] == s[..3] && s[..3][..2] == s[..2] && s[..2][..1] == s[..1];
    assert StrictFloor(s, 8) == StrictFloor(s[..4], 8) == StrictFloor(s[..3], 8) == Some(5);
    assert StrictFloor(s, 12) == StrictFloor(s[..4], 12) == Some(10);
    assert StrictFloor(s, 1) == StrictFloor(s[..4], 1) == StrictFloor(s[..3], 1) == StrictFloor(s[..2], 1)
      == StrictFloor(s[..1], 1) == Some(0);
  }

  /** Change times 0, 10, 5, 25, 3 come back sorted; queries at 8, 12, 0, 50 and 1 select 5, 10, 0, 25 and 0. */
  method ChangeTimes() returns (times: seq<int>, at8: Option<int>, at12: Option<int>, at0: Option<int>, at50: Option<int>, at1: Option<int>)
    ensures times == [0, 3, 5, 10, 25]
    ensures at8 == Some(5) && at12 == Some(10) && at0 == Some(0) && at50 == Some(25) && at1 == Some(0)
  {
    var ns := new NetworkSequence<string>();
    ns.AddNetwork(0, "g");
    ns.AddNetwork(10, "g");
    ns.AddNetwork(5, "g");
    ns.AddNetwork(25, "g");
    ns.AddNetwork(3, "g");
    ExampleTimesSorted(ns.times);
    ExampleFloors(ns.times);
    times := ns.GetListOfChangeTimes();
    at8 := ns.GetGraphMatrixForTime(8);
    at12 := ns.GetGraphMatrixForTime(12);
    at0 := ns.GetGraphMatrixForTime(0);
    at50 := ns.GetGraphMatrixForTime(50);
    at1 := ns.GetGraphMatrixForTime(1);
  }

  /** A sequence with change times 0 and 5 answers a query at 5 with change time 0. */
  method QueryAtChangeTime() returns (at5: Option<int>)
    ensures at5 == Some(0)
  {
    var ns := new NetworkSequence<string>();
    ns.AddNetwork(0, "g");
    ns.AddNetwork(5, "g");
    assert multiset([0, 5]) == multiset{0, 5};
    SortedPermutationUnique(ns.times, [0, 5]);
    assert ns.times[..1] == [0];
    at5 := ns.GetGraphMatrixForTime(5);
  }
}
