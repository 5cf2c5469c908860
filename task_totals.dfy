/**
 * The task totals of DataModel::LoadData: once the counting pass has filled
 * the task maps, each tag counts its tasks per locale (the main task once, on
 * locale 0), and ALL adds up the tasks of every tag.
 */
module TaskTotals {
  import opened TagStats
  import opened LoadPasses

  /** The task count of locale l of a tag: its task map plus the main task on locale 0. */
  function OwnCount(d: LocaleData, l: int): (v: int)
    ensures v >= 0 && (l == 0 ==> v >= 1)
  {
    |d.tasks| + (if l == 0 then 1 else 0)
  }

  /** The locales of a tag with their task counts filled in. */
  function CountedLocales(ls: seq<LocaleData>): (r: seq<LocaleData>)
    ensures |r| == |ls|
    ensures forall l :: 0 <= l < |ls| ==> r[l] == ls[l].(numTasks := OwnCount(ls[l], l))
  {
    seq(|ls|, l requires 0 <= l < |ls| => ls[l].(numTasks := OwnCount(ls[l], l)))
  }

  /**
   * A tag after the totals: every locale counts its tasks, and maxTasks is the
   * largest of those counts.
   */
  function Totalled(t: TagData): (r: TagData)
    ensures r.locales == CountedLocales(t.locales)
    ensures r == t.(locales := r.locales, maxTasks := r.maxTasks)
    ensures forall l :: 0 <= l < |t.locales| ==> r.locales[l].numTasks <= r.maxTasks
    ensures |t.locales| > 0 ==> r.maxTasks >= 1
  {
    var ls := CountedLocales(t.locales);
    assert |t.locales| > 0 ==> ls[0].numTasks >= 1;
    t.(locales := ls, maxTasks := TasksMax(0, ls))
  }

  /** Tasks of locale l over the tags at indices 1 .. hi-1 (tag numbers TagStart .. hi-3). */
  function TaskSum(ts: seq<TagData>, l: int, hi: int): (v: int)
    requires hi <= |ts| && 0 <= l && forall k :: 0 <= k < |ts| ==> l < |ts[k].locales|
    ensures v >= 0
    decreases hi
  {
    if hi <= 1 then 0 else TaskSum(ts, l, hi - 1) + |ts[hi - 1].locales[l].tasks|
  }

  /** ALL's locales after the totals: the main task on locale 0 plus every tag's tasks. */
  function SummedLocales(a: seq<LocaleData>, ts: seq<TagData>): (r: seq<LocaleData>)
    requires forall k :: 0 <= k < |ts| ==> |a| <= |ts[k].locales|
    ensures |r| == |a|
    ensures forall l :: 0 <= l < |a| ==>
              r[l] == a[l].(numTasks := (if l == 0 then 1 else 0) + TaskSum(ts, l, |ts|))
  {
    seq(|a|, l requires 0 <= l < |a| => a[l].(numTasks := (if l == 0 then 1 else 0) + TaskSum(ts, l, |ts|)))
  }

  /**
   * The ALL tag after the totals.  Its maxTasks is never reset: it is raised
   * to the largest of the locale totals.
   */
  function AllTotalled(all: TagData, ts: seq<TagData>): (r: TagData)
    requires forall k :: 0 <= k < |ts| ==> |all.locales| <= |ts[k].locales|
    ensures r.locales == SummedLocales(all.locales, ts)
    ensures r == all.(locales := r.locales, maxTasks := r.maxTasks)
    ensures all.maxTasks <= r.maxTasks
    ensures forall l :: 0 <= l < |all.locales| ==> r.locales[l].numTasks <= r.maxTasks
  {
    var ls := SummedLocales(all.locales, ts);
    all.(locales := ls, maxTasks := TasksMax(all.maxTasks, ls))
  }

  /** The maximum is one of the values, or the start value. */
  lemma {:induction false} TasksMaxAttained(init: int, ls: seq<LocaleData>)
    ensures TasksMax(init, ls) == init || exists l :: 0 <= l < |ls| && TasksMax(init, ls) == ls[l].numTasks
    decreases |ls|
  {
    if ls != [] {
      var p := ls[..|ls| - 1];
      TasksMaxAttained(init, p);
      if TasksMax(init, ls) != ls[|ls| - 1].numTasks && TasksMax(init, ls) != init {
        var l :| 0 <= l < |p| && TasksMax(init, p) == p[l].numTasks;
        assert ls[l] == p[l];
      }
    }
  }

  /** Each tag's maxTasks is the task count of one of its locales. */
  lemma TotalledMaxAttained(t: TagData)
    requires |t.locales| > 0
    ensures exists l :: 0 <= l < |t.locales| && Totalled(t).maxTasks == Totalled(t).locales[l].numTasks
  {
    var ls := CountedLocales(t.locales);
    TasksMaxAttained(0, ls);
    assert Totalled(t).maxTasks == TasksMax(0, ls) >= 1;
  }

  /** Raising one value raises the maximum to at least it, and to nothing more. */
  lemma {:induction false} TasksMaxRaise(init: int, ls: seq<LocaleData>, l: int, d: LocaleData)
    requires 0 <= l < |ls| && ls[l].numTasks <= d.numTasks
    ensures TasksMax(init, ls[l := d]) == Max(TasksMax(init, ls), d.numTasks)
    decreases |ls|
  {
    var p := ls[..|ls| - 1];
    var q := ls[l := d][..|ls| - 1];
    if l < |ls| - 1 {
      assert q == p[l := d];
      TasksMaxRaise(init, p, l, d);
    } else {
      assert q == p;
    }
  }

  /** When no value exceeds the start value, the maximum is the start value. */
  lemma {:induction false} TasksMaxBelow(init: int, ls: seq<LocaleData>)
    requires forall l :: 0 <= l < |ls| ==> ls[l].numTasks <= init
    ensures TasksMax(init, ls) == init
    decreases |ls|
  {
    if ls != [] {
      TasksMaxBelow(init, ls[..|ls| - 1]);
    }
  }

  /** A tag's locales part-way through the totals: the first l count their tasks. */
  function CountedPrefix(ls: seq<LocaleData>, l: int): (r: seq<LocaleData>)
    ensures |r| == |ls|
  {
    seq(|ls|, j requires 0 <= j < |ls| => if j < l then ls[j].(numTasks := OwnCount(ls[j], j)) else ls[j])
  }

  /** ALL's locales part-way through one tag: the first l have the tag's tasks added. */
  function SumPrefix(a: seq<LocaleData>, ls: seq<LocaleData>, l: int): (r: seq<LocaleData>)
    requires |ls| == |a|
    ensures |r| == |a|
  {
    seq(|a|, j requires 0 <= j < |a| => if j < l then a[j].(numTasks := a[j].numTasks + |ls[j].tasks|) else a[j])
  }

  /** One more locale of a tag counted: the count is set and the running maximum follows it. */
  lemma CountedPrefixNext(ls: seq<LocaleData>, l: nat)
    requires l < |ls|
    ensures var p := CountedPrefix(ls, l);
            CountedPrefix(ls, l + 1) == p[l := p[l].(numTasks := OwnCount(ls[l], l))]
            && TasksMax(0, CountedPrefix(ls, l + 1)[..l + 1]) == Max(TasksMax(0, p[..l]), OwnCount(ls[l], l))
  {
    var p := CountedPrefix(ls, l);
    var q := CountedPrefix(ls, l + 1);
    assert q == p[l := p[l].(numTasks := OwnCount(ls[l], l))];
    assert q[..l + 1][..l] == p[..l];
  }

  /** One more locale of ALL summed. */
  lemma SumPrefixNext(a: seq<LocaleData>, ls: seq<LocaleData>, l: nat)
    requires |ls| == |a| && l < |a|
    ensures var p := SumPrefix(a, ls, l);
            SumPrefix(a, ls, l + 1) == p[l := p[l].(numTasks := p[l].numTasks + |ls[l].tasks|)]
  {
    var p := SumPrefix(a, ls, l);
    assert SumPrefix(a, ls, l + 1) == p[l := p[l].(numTasks := p[l].numTasks + |ls[l].tasks|)];
  }

  /** One locale's task count set, and the tag maximum raised to it. */
  function SetCount(x: TagData, l: int, v: int): (r: TagData)
    requires 0 <= l < |x.locales|
    ensures r.locales == x.locales[l := x.locales[l].(numTasks := v)] && r.maxTasks == Max(x.maxTasks, v)
    ensures r == x.(locales := r.locales, maxTasks := r.maxTasks)
  {
    var y := x.(locales := x.locales[l := x.locales[l].(numTasks := v)]);
    if v > y.maxTasks then y.(maxTasks := v) else y
  }

  /** A tag after its first l locales are counted. */
  function TagPrefix(t: TagData, l: int): (r: TagData)
    requires 0 <= l <= |t.locales|
  {
    var ls := CountedPrefix(t.locales, l);
    t.(locales := ls, maxTasks := TasksMax(0, ls[..l]))
  }

  /** ALL after the first l locales of one tag are added to it, the maximum following them. */
  predicate SumPrefixOk(x: TagData, all: TagData, ls: seq<LocaleData>, l: int, init: int)
    requires |ls| == |all.locales|
  {
    x == all.(locales := SumPrefix(all.locales, ls, l), maxTasks := x.maxTasks)
    && x.maxTasks == TasksMax(init, x.locales)
  }

  /** Counting one more locale of a tag. */
  lemma TagPrefixNext(t: TagData, l: nat)
    requires l < |t.locales|
    ensures SetCount(TagPrefix(t, l), l, OwnCount(t.locales[l], l)) == TagPrefix(t, l + 1)
  {
    CountedPrefixNext(t.locales, l);
  }

  /** Adding one more locale of a tag into ALL. */
  lemma SumPrefixNext2(x: TagData, all: TagData, ls: seq<LocaleData>, l: nat, init: int)
    requires |ls| == |all.locales| && l < |ls| && SumPrefixOk(x, all, ls, l, init)
    ensures SetCount(x, l, x.locales[l].numTasks + |ls[l].tasks|).locales == x.locales[l := x.locales[l].(numTasks := x.locales[l].numTasks + |ls[l].tasks|)]
    ensures SumPrefixOk(SetCount(x, l, x.locales[l].numTasks + |ls[l].tasks|), all, ls, l + 1, init)
  {
    SumPrefixNext(all.locales, ls, l);
    TasksMaxRaise(init, x.locales, l, x.locales[l].(numTasks := x.locales[l].numTasks + |ls[l].tasks|));
  }

  /** ALL's locales before the totals: the main task on locale 0, and the first l others cleared. */
  function ResetPrefix(a: seq<LocaleData>, l: int): (r: seq<LocaleData>)
    ensures |r| == |a|
  {
    seq(|a|, j requires 0 <= j < |a| => if j == 0 then a[j].(numTasks := 1) else if j < l then a[j].(numTasks := 0) else a[j])
  }

  /** ALL's locales once the tags at indices 1 .. k-1 are added. */
  function AllPrefix(a: seq<LocaleData>, ts: seq<TagData>, k: int): (r: seq<LocaleData>)
    requires k <= |ts| && forall i :: 0 <= i < |ts| ==> |a| <= |ts[i].locales|
    ensures |r| == |a|
  {
    seq(|a|, j requires 0 <= j < |a| => a[j].(numTasks := (if j == 0 then 1 else 0) + TaskSum(ts, j, k)))
  }

  /** Clearing one more locale of ALL. */
  lemma ResetPrefixNext(a: seq<LocaleData>, l: nat)
    requires 1 <= l < |a|
    ensures ResetPrefix(a, l + 1) == ResetPrefix(a, l)[l := ResetPrefix(a, l)[l].(numTasks := 0)]
  {
    assert ResetPrefix(a, l + 1) == ResetPrefix(a, l)[l := ResetPrefix(a, l)[l].(numTasks := 0)];
  }

  /** Cleared, ALL counts what no tag has been added to yet. */
  lemma ResetIsStart(a: seq<LocaleData>, ts: seq<TagData>)
    requires 1 <= |ts| && forall i :: 0 <= i < |ts| ==> |a| <= |ts[i].locales|
    ensures ResetPrefix(a, |a|) == AllPrefix(a, ts, 1)
  {
    assert ResetPrefix(a, |a|) == AllPrefix(a, ts, 1);
  }

  /** Adding the tag at index k to ALL. */
  lemma AllPrefixNext(a: seq<LocaleData>, ts: seq<TagData>, k: nat)
    requires 1 <= k < |ts| && forall i :: 0 <= i < |ts| ==> |ts[i].locales| == |a|
    ensures SumPrefix(AllPrefix(a, ts, k), ts[k].locales, |a|) == AllPrefix(a, ts, k + 1)
  {
    assert SumPrefix(AllPrefix(a, ts, k), ts[k].locales, |a|) == AllPrefix(a, ts, k + 1);
  }

  /** ALL once the tags at indices 1 .. k-1 are added, its maximum following its totals. */
  predicate AllSoFar(x: TagData, a0: TagData, ts: seq<TagData>, k: int, init: int)
    requires k <= |ts| && forall i :: 0 <= i < |ts| ==> |a0.locales| <= |ts[i].locales|
  {
    x == a0.(locales := AllPrefix(a0.locales, ts, k), maxTasks := x.maxTasks)
    && x.maxTasks == TasksMax(init, x.locales)
  }

  /** Adding the tag at index k keeps ALL's running totals. */
  lemma AllSoFarNext(x: TagData, x': TagData, a0: TagData, ts: seq<TagData>, k: nat, init: int)
    requires 1 <= k < |ts| && forall i :: 0 <= i < |ts| ==> |ts[i].locales| == |a0.locales|
    requires AllSoFar(x, a0, ts, k, init) && SumPrefixOk(x', x, ts[k].locales, |a0.locales|, init)
    ensures AllSoFar(x', a0, ts, k + 1, init)
  {
    AllPrefixNext(a0.locales, ts, k);
  }

  /** Every tag added, ALL holds the totals. */
  lemma AllSoFarDone(x: TagData, a0: TagData, ts: seq<TagData>)
    requires forall i :: 0 <= i < |ts| ==> |a0.locales| <= |ts[i].locales|
    requires AllSoFar(x, a0, ts, |ts|, a0.maxTasks)
    ensures x == AllTotalled(a0, ts)
  {
    assert AllPrefix(a0.locales, ts, |ts|) == SummedLocales(a0.locales, ts);
  }

  /**
   * The tag table after the totals: ALL holds the sums over every tag, each
   * other tag its own counts.
   */
  function TotalledTable(ts: seq<TagData>): (r: seq<TagData>)
    requires |ts| >= 1 && forall i :: 0 <= i < |ts| ==> |ts[0].locales| <= |ts[i].locales|
    ensures |r| == |ts| && r[0] == AllTotalled(ts[0], ts)
    ensures forall k :: 1 <= k < |ts| ==> r[k] == Totalled(ts[k])
  {
    seq(|ts|, j requires 0 <= j < |ts| => if j == 0 then AllTotalled(ts[0], ts) else Totalled(ts[j]))
  }

  /** The table part-way through the totals: the tags at indices 1 .. k-1 are counted. */
  function TotalledPrefix(ts: seq<TagData>, k: int): (r: seq<TagData>)
    ensures |r| == |ts|
  {
    seq(|ts|, j requires 0 <= j < |ts| => if 1 <= j < k then Totalled(ts[j]) else ts[j])
  }

  lemma TotalledPrefixNext(ts: seq<TagData>, k: nat)
    requires 1 <= k < |ts|
    ensures TotalledPrefix(ts, k + 1) == TotalledPrefix(ts, k)[k := Totalled(ts[k])]
    ensures TotalledPrefix(ts, k)[k] == ts[k]
  {
    assert TotalledPrefix(ts, k + 1) == TotalledPrefix(ts, k)[k := Totalled(ts[k])];
  }

  lemma TotalledPrefixDone(ts: seq<TagData>, all: TagData)
    requires |ts| >= 1 && forall i :: 0 <= i < |ts| ==> |ts[0].locales| <= |ts[i].locales|
    requires all == AllTotalled(ts[0], ts)
    ensures TotalledPrefix(ts, |ts|)[0 := all] == TotalledTable(ts)
  {
    assert TotalledPrefix(ts, |ts|)[0 := all] == TotalledTable(ts);
  }
  /**
   * The totals change task counts and nothing else: every tag keeps its
   * name, its matrix, its task maps and its concurrency counters.
   */
  lemma TotalledKeeps(ts: seq<TagData>, n: nat, b: int)
    requires |ts| >= 1 && AllShaped(ts, n)
    ensures var r := TotalledTable(ts);
            AllShaped(r, n)
            && (forall k :: 0 <= k < |ts| ==> r[k].name == ts[k].name && r[k].comms == ts[k].comms)
            && (forall k :: 0 <= k < |ts| && TagOk(ts[k], n) ==> TagOk(r[k], n))
            && (ConcPattern(ts, n, b) ==> ConcPattern(r, n, b))
  {
    var r := TotalledTable(ts);
    TotalledSame(ts, n);
    assert AllShaped(r, n);
    assert forall k :: 0 <= k < |ts| && TagOk(ts[k], n) ==> TagOk(r[k], n);
    if ConcPattern(ts, n, b) {
      TotalledConc(ts, r, n, b);
    }
  }

  /** Record by record, the totals replace task counts and the tag's task maximum and nothing else. */
  lemma TotalledSame(ts: seq<TagData>, n: nat)
    requires |ts| >= 1 && AllShaped(ts, n)
    ensures var r := TotalledTable(ts);
            forall k :: 0 <= k < |ts| ==>
              |r[k].locales| == n && r[k] == ts[k].(locales := r[k].locales, maxTasks := r[k].maxTasks)
              && forall l :: 0 <= l < n ==> r[k].locales[l] == ts[k].locales[l].(numTasks := r[k].locales[l].numTasks)
  {
    var r := TotalledTable(ts);
    forall k | 0 <= k < |ts|
      ensures |r[k].locales| == n
      ensures r[k] == ts[k].(locales := r[k].locales, maxTasks := r[k].maxTasks)
      ensures forall l :: 0 <= l < n ==> r[k].locales[l] == ts[k].locales[l].(numTasks := r[k].locales[l].numTasks)
    {
    }
  }

  /** A table whose records differ only in task counts and maxima keeps the concurrency pattern. */
  lemma TotalledConc(ts: seq<TagData>, r: seq<TagData>, n: nat, b: int)
    requires ConcPattern(ts, n, b) && |r| == |ts|
    requires forall k :: 0 <= k < |ts| ==>
               |r[k].locales| == n && r[k] == ts[k].(locales := r[k].locales, maxTasks := r[k].maxTasks)
               && forall l :: 0 <= l < n ==> r[k].locales[l] == ts[k].locales[l].(numTasks := r[k].locales[l].numTasks)
    ensures ConcPattern(r, n, b)
  {
  }
}
