/**
 * Where DataModel::LoadFile puts a new event in the merged event list, and
 * what its VisualDebug filter keeps.  These are the specifications that the
 * list-editing methods of DataModel are proved against.
 */
module EventOrder {
  import opened TraceEvent

  /** Position of the first event at or after `from` whose kind is `k`, or |s| when there is none. */
  function FirstOfKind(s: seq<Event>, from: nat, k: Kind): (i: nat)
    requires from <= |s|
    ensures from <= i <= |s|
    ensures forall x :: from <= x < i ==> s[x].Kind() != k
    ensures i < |s| ==> s[i].Kind() == k
    decreases |s| - from
  {
    if from == |s| || s[from].Kind() == k then from else FirstOfKind(s, from + 1, k)
  }

  /**
   * The group a marker joins: start and end records group by kind, tag
   * records by tag number, pause records by tag id.
   */
  predicate SameGroup(x: Event, e: Event)
  {
    match e
    case Tag(_, _, n, _, _) => x.Tag? && x.tagNo == n
    case Pause(_, _, g, _) => x.Pause? && x.tagId == g
    case _ => x.Kind() == e.Kind()
  }

  /** End of the run of events of the group of `e` that begins at `from`. */
  function GroupEnd(s: seq<Event>, from: nat, e: Event): (p: nat)
    requires from <= |s|
    ensures from <= p <= |s|
    ensures forall x :: from <= x < p ==> SameGroup(s[x], e)
    ensures p < |s| ==> !SameGroup(s[p], e)
    decreases |s| - from
  {
    if from == |s| || !SameGroup(s[from], e) then from else GroupEnd(s, from + 1, e)
  }

  /** End of the run of non-marker events earlier than `e` that begins at `from`. */
  function TimeSlot(s: seq<Event>, from: nat, e: Event): (p: nat)
    requires from <= |s|
    ensures from <= p <= |s|
    ensures forall x :: from <= x < p ==> !s[x].IsMarker() && Earlier(s[x].time, e.time)
    ensures p < |s| ==> s[p].IsMarker() || !Earlier(s[p].time, e.time)
    decreases |s| - from
  {
    if from == |s| || s[from].IsMarker() || !Earlier(s[from].time, e.time) then from
    else TimeSlot(s, from + 1, e)
  }

  /** Where a new event goes: an insertion position, or nowhere ("event mismatch"). */
  datatype Placement = InsertAt(pos: nat) | Mismatch

  /**
   * The placement LoadFile chooses for event `e` with the list `s` and the
   * file's cursor at `c` (|s| stands for the end of the list).
   */
  function Place(s: seq<Event>, c: nat, e: Event): (r: Placement)
    requires c <= |s|
    ensures r.InsertAt? ==> c <= r.pos <= |s|
    ensures |s| == 0 ==> r == InsertAt(0)
    ensures 0 < |s| && c == |s| ==> r == InsertAt(|s|)
    ensures r.Mismatch? <==>
              0 < |s| && c < |s| && e.IsMarker() && forall x :: c <= x < |s| ==> s[x].Kind() != e.Kind()
  {
    if |s| == 0 then InsertAt(0)
    else if c == |s| then InsertAt(|s|)
    else if e.IsMarker() then
      var i := FirstOfKind(s, c, e.Kind());
      if i == |s| then Mismatch else InsertAt(GroupEnd(s, i, e))
    else InsertAt(TimeSlot(s, c, e))
  }

  /**
   * The list and cursor after offering `e`: inserted at its place with the
   * cursor just after it, or, on a mismatch, the list kept with the cursor at
   * its end, where the scan for the event's kind stopped.
   */
  function Offer(s: seq<Event>, c: nat, e: Event): (r: (seq<Event>, nat))
    requires c <= |s|
    ensures c <= r.1 <= |r.0|
    ensures Place(s, c, e).InsertAt? ==> |r.0| == |s| + 1 && 1 <= r.1 && r.0[r.1 - 1] == e
    ensures Place(s, c, e).Mismatch? ==> r.0 == s && r.1 == |s|
    ensures Place(s, c, e).InsertAt? ==> r.1 == Place(s, c, e).pos + 1
    ensures Place(s, c, e).InsertAt? ==> r.0 == s[..Place(s, c, e).pos] + [e] + s[Place(s, c, e).pos..]
    ensures Place(s, c, e).InsertAt? ==> multiset(r.0) == multiset(s) + multiset{e}
    ensures 1 <= c ==> |r.0| > 0 && r.0[0] == s[0]
  {
    match Place(s, c, e)
    case InsertAt(p) =>
      assert s == s[..p] + s[p..];
      (s[..p] + [e] + s[p..], p + 1)
    case Mismatch => (s, |s|)
  }

  /**
   * A marker that is placed goes right after the run of its group that starts
   * at the first event of its kind at or after the cursor.
   */
  lemma MarkerJoinsGroup(s: seq<Event>, c: nat, e: Event)
    requires c < |s| && e.IsMarker() && Place(s, c, e).InsertAt?
    ensures var p := Place(s, c, e).pos;
            exists i :: c <= i <= p && i < |s| && s[i].Kind() == e.Kind()
                        && (forall x :: c <= x < i ==> s[x].Kind() != e.Kind())
                        && (forall x :: i <= x < p ==> SameGroup(s[x], e))
                        && (p < |s| ==> !SameGroup(s[p], e))
  {
    var i := FirstOfKind(s, c, e.Kind());
    assert i < |s|;
  }

  /** A non-marker goes before the first event from the cursor on that is a marker or is not earlier. */
  lemma NonMarkerByTime(s: seq<Event>, c: nat, e: Event)
    requires c < |s| && !e.IsMarker()
    ensures Place(s, c, e).InsertAt?
    ensures var p := Place(s, c, e).pos;
            (forall x :: c <= x < p ==> !s[x].IsMarker() && Earlier(s[x].time, e.time))
            && (p < |s| ==> s[p].IsMarker() || !Earlier(s[p].time, e.time))
  {
  }

  /** Offering a sequence of events to an empty list, or at its end, appends them in order. */
  lemma {:induction false} AppendAtEnd(s: seq<Event>, es: seq<Event>)
    ensures OfferAll(s, |s|, es) == (s + es, |s + es|)
    decreases |es|
  {
    if es != [] {
      assert s[..|s|] + [es[0]] + s[|s|..] == s + [es[0]];
      assert Offer(s, |s|, es[0]) == (s + [es[0]], |s| + 1);
      AppendAtEnd(s + [es[0]], es[1..]);
      assert (s + [es[0]]) + es[1..] == s + es;
    } else {
      assert s + es == s;
    }
  }

  /** Offering events one after the other, carrying the cursor. */
  function OfferAll(s: seq<Event>, c: nat, es: seq<Event>): (r: (seq<Event>, nat))
    requires c <= |s|
    ensures c <= r.1 <= |r.0|
    ensures |s| <= |r.0| <= |s| + |es|
    ensures 1 <= c ==> r.0[0] == s[0]
    decreases |es|
  {
    if es == [] then (s, c)
    else
      var (s', c') := Offer(s, c, es[0]);
      OfferAll(s', c', es[1..])
  }

  /** Offering one more event continues from where the earlier ones left the list and the cursor. */
  lemma {:induction false} OfferAllSnoc(s: seq<Event>, c: nat, es: seq<Event>, e: Event)
    requires c <= |s|
    ensures var (s1, c1) := OfferAll(s, c, es);
            OfferAll(s, c, es + [e]) == Offer(s1, c1, e)
    decreases |es|
  {
    if es == [] {
      assert es + [e] == [e];
      assert [e][1..] == [];
    } else {
      var (s1, c1) := Offer(s, c, es[0]);
      assert (es + [e])[0] == es[0];
      assert (es + [e])[1..] == es[1..] + [e];
      OfferAllSnoc(s1, c1, es[1..], e);
    }
  }

  /**
   * Where a file's start event goes: after the start events at the head of
   * the list, or as its only element.
   */
  function PlaceStart(s: seq<Event>, e: Event): (r: (seq<Event>, nat))
    requires e.Start?
    ensures 1 <= r.1 <= |r.0| == |s| + 1 && r.0[r.1 - 1] == e
    ensures forall x :: 0 <= x < r.1 ==> r.0[x].Start?
    ensures r.1 < |r.0| ==> !r.0[r.1].Start?
    ensures multiset(r.0) == multiset(s) + multiset{e}
  {
    if s == [] then ([e], 1)
    else
      var p := GroupEnd(s, 0, e);
      assert s == s[..p] + s[p..];
      (s[..p] + [e] + s[p..], p + 1)
  }

  /** The VisualDebug tool's own task and begin-task records of locale `findex`. */
  predicate IsVdbEvent(x: Event, findex: int, vdb: set<int>)
  {
    x.node == findex && (x.Task? || x.BeginTask?) && x.taskId in vdb
  }

  /** The list without the tool's own task records, in the same order. */
  function Filtered(s: seq<Event>, findex: int, vdb: set<int>): (r: seq<Event>)
    ensures |r| <= |s|
    ensures forall x :: x in r ==> x in s && !IsVdbEvent(x, findex, vdb)
    ensures forall x :: x in s && !IsVdbEvent(x, findex, vdb) ==> x in r
    ensures s != [] && !IsVdbEvent(s[0], findex, vdb) ==> r != [] && r[0] == s[0]
  {
    if s == [] then []
    else if IsVdbEvent(s[0], findex, vdb) then Filtered(s[1..], findex, vdb)
    else [s[0]] + Filtered(s[1..], findex, vdb)
  }

  /** Filtering a concatenation filters each part: the kept events keep their relative order. */
  lemma {:induction false} FilteredAppend(a: seq<Event>, b: seq<Event>, findex: int, vdb: set<int>)
    ensures Filtered(a + b, findex, vdb) == Filtered(a, findex, vdb) + Filtered(b, findex, vdb)
    decreases |a|
  {
    if a != [] {
      var ab := a + b;
      assert ab != [] && ab[0] == a[0];
      assert ab[1..] == a[1..] + b;
      FilteredAppend(a[1..], b, findex, vdb);
      var fa, fb := Filtered(a[1..], findex, vdb), Filtered(b, findex, vdb);
      if !IsVdbEvent(a[0], findex, vdb) {
        assert Filtered(ab, findex, vdb) == [a[0]] + (fa + fb);
        assert [a[0]] + (fa + fb) == ([a[0]] + fa) + fb;
      }
    } else {
      assert a + b == b;
    }
  }

  /** Filtering one more event keeps it exactly when it is not one of the tool's records. */
  lemma FilteredSnoc(a: seq<Event>, x: Event, findex: int, vdb: set<int>)
    ensures Filtered(a + [x], findex, vdb)
            == Filtered(a, findex, vdb) + (if IsVdbEvent(x, findex, vdb) then [] else [x])
  {
    FilteredAppend(a, [x], findex, vdb);
    assert [x][1..] == [];
  }

  /** Exactly the tool's records disappear: every other event keeps its number of copies. */
  lemma {:induction false} FilteredCounts(s: seq<Event>, findex: int, vdb: set<int>, x: Event)
    ensures multiset(Filtered(s, findex, vdb))[x] ==
            if IsVdbEvent(x, findex, vdb) then 0 else multiset(s)[x]
    decreases |s|
  {
    if s != [] {
      FilteredCounts(s[1..], findex, vdb, x);
      assert s == [s[0]] + s[1..];
    }
  }
}
