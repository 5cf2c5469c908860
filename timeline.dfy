/**
 * The timeline pass of DataModel::LoadData, stated on values: each locale's
 * task timeline, the running and peak concurrency of the tags, the map from
 * tag names to tag numbers, and the charging of communications and forks to
 * the task they ran in (DataModel::getTaskData).
 */
module Timeline {
  import opened Wrappers
  import opened TraceEvent
  import opened TagStats
  import opened LoadPasses

  /** Tag numbers of the two tags every trace has: ALL (index 0) and Start (index 1). */
  const TagALL := -2
  const TagStart := -1

  /** One entry of a locale's timeline: a tag started, or a task began or ended. */
  datatype Entry = TlTag(tagNo: int) | TlBegin(taskId: int) | TlEnd(taskId: int)

  /** What getTaskData finds: the main task, a task in the tag at some index, or nothing. */
  datatype TaskRef = MainTask | InTag(index: int) | Untracked

  /** The first tag index in lo .. hi-1 whose task map on locale l holds task id. */
  function ScanTasks(ts: seq<TagData>, n: nat, lo: int, hi: int, l: int, id: int): (r: TaskRef)
    requires AllShaped(ts, n) && 0 <= l < n && 0 <= lo && hi <= |ts|
    ensures r != MainTask
    ensures r.InTag? ==> lo <= r.index < hi && id in ts[r.index].locales[l].tasks
                         && forall k :: lo <= k < r.index ==> id !in ts[k].locales[l].tasks
    ensures r == Untracked <==> forall k :: lo <= k < hi ==> id !in ts[k].locales[l].tasks
    decreases hi - lo
  {
    if lo >= hi then Untracked
    else if id in ts[lo].locales[l].tasks then InTag(lo)
    else ScanTasks(ts, n, lo + 1, hi, l, id)
  }

  /**
   * getTaskData: task 1 on locale 0 is the main task; otherwise the given tag
   * is looked at first, then every tag from Start on, in order.
   */
  function FindTask(ts: seq<TagData>, n: nat, numTags: int, l: int, id: int, tagNo: int): (r: TaskRef)
    requires AllShaped(ts, n) && 0 <= l < n && 0 <= numTags && numTags + 2 <= |ts|
    requires tagNo == TagALL || TagStart <= tagNo < numTags
    ensures r.InTag? ==> 1 <= r.index < numTags + 2 && id in ts[r.index].locales[l].tasks
  {
    if l == 0 && id == 1 then MainTask
    else if tagNo != TagALL && id in ts[tagNo + 2].locales[l].tasks then InTag(tagNo + 2)
    else ScanTasks(ts, n, 1, numTags + 2, l, id)
  }

  /**
   * The task getTaskData returns is the main task exactly for task 1 on
   * locale 0; any other task found is in the map of a tag from Start on,
   * the given tag when it holds the task and otherwise the first such tag;
   * and nothing is found only when no tag holds the task.
   */
  lemma FindTaskSpec(ts: seq<TagData>, n: nat, numTags: int, l: int, id: int, tagNo: int)
    requires AllShaped(ts, n) && 0 <= l < n && 0 <= numTags && numTags + 2 <= |ts|
    requires tagNo == TagALL || TagStart <= tagNo < numTags
    ensures var r := FindTask(ts, n, numTags, l, id, tagNo);
            (r == MainTask <==> l == 0 && id == 1)
            && (r.InTag? ==> 1 <= r.index < numTags + 2 && id in ts[r.index].locales[l].tasks)
            && (r.InTag? && r.index != tagNo + 2 ==> forall k :: 1 <= k < r.index ==> id !in ts[k].locales[l].tasks)
            && (r == Untracked <==> !(l == 0 && id == 1) && forall k :: 1 <= k < numTags + 2 ==> id !in ts[k].locales[l].tasks)
            && (!(l == 0 && id == 1) && tagNo != TagALL && id in ts[tagNo + 2].locales[l].tasks ==> r == InTag(tagNo + 2))
  {
  }

  /** The state the timeline pass works on. */
  datatype TState = TState(ts: seq<TagData>, tl: seq<seq<Entry>>, names: map<string, int>, unique: bool,
                           main: TaskData, c: int)

  /** A state the pass can work on: n locales, numTags tags plus ALL and Start, one timeline per locale. */
  predicate Fit(st: TState, n: nat, numTags: int)
  {
    n >= 1 && 0 <= numTags && |st.ts| == numTags + 2 && AllShaped(st.ts, n) && |st.tl| == n && -1 <= st.c
  }

  /** Tag t with new running count and peak on locale l and a new tag peak. */
  function SetConc(t: TagData, n: nat, l: int, run: int, peak: int, tagPeak: int): (r: TagData)
    requires Shape(t, n) && 0 <= l < n
    ensures Shape(r, n) && TagFrame(t, r) && r.locales[l].tasks == t.locales[l].tasks
    ensures forall k :: 0 <= k < n && k != l ==> r.locales[k] == t.locales[k]
    ensures TagOk(t, n) ==> TagOk(r, n)
  {
    SetLocale(t, n, l, t.locales[l].(runConc := run, maxConc := peak)).(maxConc := tagPeak)
  }

  /** The counters SetConc leaves. */
  lemma SetConcOf(t: TagData, n: nat, l: int, run: int, peak: int, tagPeak: int)
    requires Shape(t, n) && 0 <= l < n
    ensures ConcOf(SetConc(t, n, l, run, peak, tagPeak)) == (tagPeak, ConcOf(t).1[l := run], ConcOf(t).2[l := peak])
  {
    var r := SetConc(t, n, l, run, peak, tagPeak);
    assert ConcOf(r).1 == ConcOf(t).1[l := run] by {
      forall k | 0 <= k < n ensures ConcOf(r).1[k] == ConcOf(t).1[l := run][k] {
      }
    }
    assert ConcOf(r).2 == ConcOf(t).2[l := peak] by {
      forall k | 0 <= k < n ensures ConcOf(r).2[k] == ConcOf(t).2[l := peak][k] {
      }
    }
  }

  /**
   * A tag record: locale 0's records start the next tag and enter its name
   * (a name seen before marks the tags as not unique).  The tag goes on the
   * locale's timeline, the locale's running count carries over from the
   * previous tag, and its peak restarts there.
   */
  function TagTimeline(st: TState, n: nat, numTags: int, l: int, name: string): (r: TState)
    requires Fit(st, n, numTags) && 0 <= l < n && st.c + 2 < |st.ts| && (l == 0 ==> st.c + 3 < |st.ts|)
    ensures Fit(r, n, numTags) && r.c == st.c + (if l == 0 then 1 else 0)
  {
    var c := if l == 0 then st.c + 1 else st.c;
    var names := if l == 0 && name !in st.names then st.names[name := c] else st.names;
    var unique := st.unique && !(l == 0 && name in st.names);
    var run := st.ts[c + 1].locales[l].runConc;
    var t := st.ts[c + 2];
    var t' := SetConc(t, n, l, run, run, Max(t.maxConc, run));
    st.(ts := st.ts[c + 2 := t'], tl := st.tl[l := st.tl[l] + [TlTag(c)]], names := names, unique := unique, c := c)
  }

  /**
   * A begin-task record of a task the current tag holds: the task goes on the
   * timeline and one more task runs; a new peak raises the locale's peak and
   * ALL's, and, above the tag's peak, the tag's peak and ALL's.
   */
  function BeginTimeline(st: TState, n: nat, numTags: int, l: int, id: int): (r: TState)
    requires Fit(st, n, numTags) && 0 <= l < n && st.c + 2 < |st.ts|
    ensures Fit(r, n, numTags) && r.c == st.c
  {
    var cur := st.c + 2;
    var t := st.ts[cur];
    var d := t.locales[l];
    if id !in d.tasks then st
    else
      var run := d.runConc + 1;
      var tl := st.tl[l := st.tl[l] + [TlBegin(id)]];
      if run <= d.maxConc then
        st.(ts := st.ts[cur := SetConc(t, n, l, run, d.maxConc, t.maxConc)], tl := tl)
      else
        var a := st.ts[0];
        var t' := SetConc(t, n, l, run, run, Max(t.maxConc, run));
        var a' := SetConc(a, n, l, a.locales[l].runConc, Max(a.locales[l].maxConc, run),
                          if run > t.maxConc then Max(a.maxConc, run) else a.maxConc);
        st.(ts := st.ts[cur := t'][0 := a'], tl := tl)
  }

  /**
   * An end-task record whose task began on this locale's timeline: the end goes
   * on the timeline and one task fewer runs in the current tag.  Any other end
   * record changes nothing.
   */
  function EndTimeline(st: TState, n: nat, numTags: int, l: int, id: int): (r: TState)
    requires Fit(st, n, numTags) && 0 <= l < n && st.c + 2 < |st.ts|
    ensures Fit(r, n, numTags) && r.c == st.c
  {
    if TlBegin(id) in st.tl[l] then
      var cur := st.c + 2;
      var t := st.ts[cur];
      st.(ts := st.ts[cur := SetConc(t, n, l, t.locales[l].runConc - 1, t.locales[l].maxConc, t.maxConc)],
          tl := st.tl[l := st.tl[l] + [TlEnd(id)]])
    else st
  }

  /**
   * A communication or fork charged to the task it ran in, as getTaskData
   * finds it on locale l; when no task is found nothing changes.
   */
  function ChargeEvent(st: TState, n: nat, numTags: int, l: int, id: int, ev: Event, op: Transfer, size: int): (r: TState)
    requires Fit(st, n, numTags) && 0 <= l < n
    ensures Fit(r, n, numTags) && r.c == st.c
  {
    match FindTask(st.ts, n, numTags, l, id, TagALL)
    case MainTask => st.(main := Charge(st.main, ev, op, size))
    case InTag(k) =>
      FindTaskSpec(st.ts, n, numTags, l, id, TagALL);
      var d := st.ts[k].locales[l].tasks[id];
      st.(ts := st.ts[k := UpdateTask(st.ts[k], n, l, id, Charge(d, ev, op, size))])
    case Untracked => st
  }

  /**
   * One event of the timeline pass.  A get is charged on its destination
   * locale and a put on its source, counting dataLen bytes; a fork is charged
   * on its own locale and carries no size.
   */
  function TimelineStep(st: TState, n: nat, numTags: int, ev: Event): (r: TState)
    requires Fit(st, n, numTags) && InRange(ev, n) && st.c + 2 < |st.ts| && (IsTopTag(ev) ==> st.c + 3 < |st.ts|)
    ensures Fit(r, n, numTags) && r.c == st.c + (if IsTopTag(ev) then 1 else 0)
  {
    match ev
    case Tag(_, node, _, name, _) => TagTimeline(st, n, numTags, node, name)
    case BeginTask(_, node, id) => BeginTimeline(st, n, numTags, node, id)
    case EndTask(_, node, id) => EndTimeline(st, n, numTags, node, id)
    case Fork(_, node, _, _, _, _, inTask) => ChargeEvent(st, n, numTags, node, inTask, ev, Forked, 0)
    case Comm(_, _, src, dst, _, dataLen, isGet, inTask, _, _) =>
      ChargeEvent(st, n, numTags, if isGet then dst else src, inTask, ev, if isGet then Get else Put, dataLen)
    case _ => st
  }

  /** The events the pass can run through from state st: every locale in range and few enough tags. */
  predicate Runnable(st: TState, n: nat, numTags: int, s: seq<Event>)
  {
    Fit(st, n, numTags) && (forall i :: 0 <= i < |s| ==> InRange(s[i], n)) && st.c + 1 + |TopTags(s)| <= numTags
  }

  /** The pass over the events s, one after the other, from state st. */
  function TimelineFold(st: TState, n: nat, numTags: int, s: seq<Event>): (r: TState)
    requires Runnable(st, n, numTags, s)
    ensures Fit(r, n, numTags) && r.c == st.c + |TopTags(s)|
    decreases |s|
  {
    if s == [] then st
    else
      var p := s[..|s| - 1];
      var m := TimelineFold(st, n, numTags, p);
      TimelineStep(m, n, numTags, s[|s| - 1])
  }

  /**
   * The state the pass starts from: ALL's peak and Start's peak, on locale 0
   * and over all, are one (the main task); no timeline has an entry yet.
   */
  function TimelineStart(ts: seq<TagData>, n: nat, names: map<string, int>, unique: bool, main: TaskData): (r: TState)
    requires n >= 1 && 2 <= |ts| && AllShaped(ts, n)
    ensures AllShaped(r.ts, n) && |r.ts| == |ts| && |r.tl| == n && r.c == TagStart
  {
    var start := SetConc(ts[1], n, 0, ts[1].locales[0].runConc, 1, 1);
    TState(ts[0 := ts[0].(maxConc := 1)][1 := start], seq(n, _ => []), names, unique, main, TagStart)
  }

  /** ALL's counters: it runs nothing itself and each locale's peak is at most ALL's peak. */
  predicate AllBound(a: (int, seq<int>, seq<int>), n: nat)
  {
    |a.1| == n && |a.2| == n && forall l :: 0 <= l < n ==> a.1[l] == 0 && 0 <= a.2[l] <= a.0
  }

  /**
   * Another tag's counters under ALL's: each locale's running count is at
   * most its peak, which is at most the tag's peak and ALL's peak on that
   * locale; the tag's peak is at most ALL's.
   */
  predicate TagBound(c: (int, seq<int>, seq<int>), a: (int, seq<int>, seq<int>), n: nat)
  {
    |c.1| == n && |c.2| == n && |a.2| == n && c.0 <= a.0
    && forall l :: 0 <= l < n ==> c.1[l] <= c.2[l] <= c.0 && c.2[l] <= a.2[l]
  }

  /** The concurrency counters of the whole table: ALL's peaks bound every other tag's. */
  predicate ConcOk(ts: seq<TagData>, n: nat)
  {
    1 <= |ts| && AllBound(ConcOf(ts[0]), n) && forall k :: 1 <= k < |ts| ==> TagBound(ConcOf(ts[k]), ConcOf(ts[0]), n)
  }

  /** A tag's counters on one locale. */
  lemma ConcAt(t: TagData, l: int)
    requires 0 <= l < |t.locales|
    ensures |ConcOf(t).1| == |ConcOf(t).2| == |t.locales| && ConcOf(t).0 == t.maxConc
    ensures ConcOf(t).1[l] == t.locales[l].runConc && ConcOf(t).2[l] == t.locales[l].maxConc
  {
  }

  predicate TagsOk(ts: seq<TagData>, n: nat)
  {
    forall k :: 0 <= k < |ts| ==> TagOk(ts[k], n)
  }

  /** Every end on a timeline follows a begin of the same task on that timeline. */
  predicate Matched(tl: seq<seq<Entry>>)
  {
    forall l, p :: 0 <= l < |tl| && 0 <= p < |tl[l]| && tl[l][p].TlEnd? ==> TlBegin(tl[l][p].taskId) in tl[l][..p]
  }

  /** Tag y is tag x with at most its concurrency counters and the data of its tasks changed. */
  predicate TagFrame(x: TagData, y: TagData)
  {
    y.name == x.name && y.comms == x.comms && y.maxComms == x.maxComms && y.maxSize == x.maxSize
    && y.maxTasks == x.maxTasks && |y.locales| == |x.locales|
    && forall l :: 0 <= l < |x.locales| ==>
         y.locales[l].numTasks == x.locales[l].numTasks && y.locales[l].hasRef == x.locales[l].hasRef
         && y.locales[l].tasks.Keys == x.locales[l].tasks.Keys
  }

  predicate Frame(a: seq<TagData>, b: seq<TagData>)
  {
    |b| == |a| && forall k :: 0 <= k < |a| ==> TagFrame(a[k], b[k])
  }

  lemma FrameTrans(a: seq<TagData>, b: seq<TagData>, c: seq<TagData>)
    requires Frame(a, b) && Frame(b, c)
    ensures Frame(a, c)
  {
  }

  /** The precondition of one step of the pass. */
  predicate Steppable(st: TState, n: nat, numTags: int, ev: Event)
  {
    Fit(st, n, numTags) && InRange(ev, n) && st.c + 2 < |st.ts| && (IsTopTag(ev) ==> st.c + 3 < |st.ts|)
  }

  /** Raising ALL's peaks keeps every other tag under them. */
  lemma TagBoundRaised(c: (int, seq<int>, seq<int>), a: (int, seq<int>, seq<int>), b: (int, seq<int>, seq<int>), n: nat)
    requires TagBound(c, a, n) && |b.2| == n && a.0 <= b.0 && forall l :: 0 <= l < n ==> a.2[l] <= b.2[l]
    ensures TagBound(c, b, n)
  {
  }

  /** A tag record keeps the concurrency bounds: the carried-over count is bounded by ALL's peaks. */
  lemma TagConc(st: TState, n: nat, numTags: int, l: int, name: string)
    requires Fit(st, n, numTags) && 0 <= l < n && st.c + 2 < |st.ts| && (l == 0 ==> st.c + 3 < |st.ts|)
    requires ConcOk(st.ts, n)
    ensures ConcOk(TagTimeline(st, n, numTags, l, name).ts, n)
  {
    var c := if l == 0 then st.c + 1 else st.c;
    var ts := st.ts;
    var run := ts[c + 1].locales[l].runConc;
    var t := ts[c + 2];
    SetConcOf(t, n, l, run, run, Max(t.maxConc, run));
    ConcAt(ts[c + 1], l);
    ConcAt(ts[0], l);
    ConcAt(t, l);
    var a := ConcOf(ts[0]);
    assert run <= a.2[l] <= a.0;
    assert TagBound(ConcOf(t), a, n);
    TagBoundCarry(ConcOf(t), a, n, l, run);
    var t' := SetConc(t, n, l, run, run, Max(t.maxConc, run));
    ConcOkSet(ts, n, c + 2, t');
    assert TagTimeline(st, n, numTags, l, name).ts == ts[c + 2 := t'];
  }

  /** A tag whose count on locale l is set to a count within ALL's peak there stays under ALL. */
  lemma TagBoundCarry(c: (int, seq<int>, seq<int>), a: (int, seq<int>, seq<int>), n: nat, l: int, run: int)
    requires TagBound(c, a, n) && 0 <= l < n && run <= a.2[l] <= a.0
    ensures TagBound((Max(c.0, run), c.1[l := run], c.2[l := run]), a, n)
  {
  }

  /** Replacing a tag other than ALL by one within ALL's bounds keeps the bounds. */
  lemma ConcOkSet(ts: seq<TagData>, n: nat, k: int, t: TagData)
    requires ConcOk(ts, n) && 1 <= k < |ts| && TagBound(ConcOf(t), ConcOf(ts[0]), n)
    ensures ConcOk(ts[k := t], n)
  {
    assert ts[k := t][0] == ts[0];
  }

  /** A begin-task record keeps the concurrency bounds: a new peak is passed on to ALL. */
  lemma BeginConc(st: TState, n: nat, numTags: int, l: int, id: int)
    requires Fit(st, n, numTags) && 0 <= l < n && st.c + 2 < |st.ts|
    requires ConcOk(st.ts, n)
    ensures ConcOk(BeginTimeline(st, n, numTags, l, id).ts, n)
  {
    var cur := st.c + 2;
    var ts := st.ts;
    var t := ts[cur];
    var d := t.locales[l];
    if id in d.tasks {
      var run := d.runConc + 1;
      if run <= d.maxConc {
        BeginConcBelow(ts, n, cur, l, run);
        assert BeginTimeline(st, n, numTags, l, id).ts == ts[cur := SetConc(t, n, l, run, d.maxConc, t.maxConc)];
      } else {
        BeginConcRaise(ts, n, cur, l, run);
        var a := ts[0];
        assert BeginTimeline(st, n, numTags, l, id).ts
            == ts[cur := SetConc(t, n, l, run, run, Max(t.maxConc, run))]
                 [0 := SetConc(a, n, l, a.locales[l].runConc, Max(a.locales[l].maxConc, run),
                               if run > t.maxConc then Max(a.maxConc, run) else a.maxConc)];
      }
    }
  }

  /** A begin-task record below the locale's peak only raises the running count. */
  lemma BeginConcBelow(ts: seq<TagData>, n: nat, cur: int, l: int, run: int)
    requires ConcOk(ts, n) && AllShaped(ts, n) && 1 <= cur < |ts| && 0 <= l < n
    requires run <= ts[cur].locales[l].maxConc
    ensures var t := ts[cur]; ConcOk(ts[cur := SetConc(t, n, l, run, t.locales[l].maxConc, t.maxConc)], n)
  {
    var t := ts[cur];
    ConcAt(t, l);
    SetConcOf(t, n, l, run, t.locales[l].maxConc, t.maxConc);
  }

  /** A begin-task record that sets a new peak on its locale raises ALL's peaks with it. */
  lemma BeginConcRaise(ts: seq<TagData>, n: nat, cur: int, l: int, run: int)
    requires ConcOk(ts, n) && AllShaped(ts, n) && 1 <= cur < |ts| && 0 <= l < n
    requires run > ts[cur].locales[l].maxConc
    ensures var t := ts[cur];
            var a := ts[0];
            var t' := SetConc(t, n, l, run, run, Max(t.maxConc, run));
            var a' := SetConc(a, n, l, a.locales[l].runConc, Max(a.locales[l].maxConc, run),
                              if run > t.maxConc then Max(a.maxConc, run) else a.maxConc);
            ConcOk(ts[cur := t'][0 := a'], n)
  {
    var t := ts[cur];
    var a := ts[0];
    ConcAt(t, l);
    ConcAt(a, l);
    var t' := SetConc(t, n, l, run, run, Max(t.maxConc, run));
    var a' := SetConc(a, n, l, a.locales[l].runConc, Max(a.locales[l].maxConc, run),
                      if run > t.maxConc then Max(a.maxConc, run) else a.maxConc);
    SetConcOf(t, n, l, run, run, Max(t.maxConc, run));
    SetConcOf(a, n, l, a.locales[l].runConc, Max(a.locales[l].maxConc, run),
              if run > t.maxConc then Max(a.maxConc, run) else a.maxConc);
    var ts' := ts[cur := t'][0 := a'];
    assert AllBound(ConcOf(a'), n);
    assert TagBound(ConcOf(t'), ConcOf(a'), n);
    forall k | 1 <= k < |ts| && k != cur
      ensures TagBound(ConcOf(ts'[k]), ConcOf(a'), n)
    {
      TagBoundRaised(ConcOf(ts[k]), ConcOf(a), ConcOf(a'), n);
    }
  }

  lemma EndConc(st: TState, n: nat, numTags: int, l: int, id: int)
    requires Fit(st, n, numTags) && 0 <= l < n && st.c + 2 < |st.ts|
    requires ConcOk(st.ts, n)
    ensures ConcOk(EndTimeline(st, n, numTags, l, id).ts, n)
  {
    var t := st.ts[st.c + 2];
    ConcAt(t, l);
    SetConcOf(t, n, l, t.locales[l].runConc - 1, t.locales[l].maxConc, t.maxConc);
  }

  /**
   * Charging a task touches no concurrency counter, no timeline and no tag
   * field outside the task data, and keeps every counter invariant.
   */
  lemma ChargeFacts(st: TState, n: nat, numTags: int, l: int, id: int, ev: Event, op: Transfer, size: int)
    requires Fit(st, n, numTags) && 0 <= l < n
    ensures var r := ChargeEvent(st, n, numTags, l, id, ev, op, size);
            Frame(st.ts, r.ts) && (forall k :: 0 <= k < |st.ts| ==> ConcOf(r.ts[k]) == ConcOf(st.ts[k]))
            && r.tl == st.tl && r.names == st.names && r.unique == st.unique
            && (TagsOk(st.ts, n) ==> TagsOk(r.ts, n)) && (CellOk(st.main.commSum) ==> CellOk(r.main.commSum))
  {
    var r := ChargeEvent(st, n, numTags, l, id, ev, op, size);
    match FindTask(st.ts, n, numTags, l, id, TagALL)
    case MainTask =>
      assert r == st.(main := Charge(st.main, ev, op, size));
    case InTag(k) =>
      ChargeTagCase(st, n, numTags, l, id, ev, op, size, k);
    case Untracked =>
      assert r == st;
  }

  /** The charge of a task that a tag holds: only that task's data changes. */
  lemma ChargeTagCase(st: TState, n: nat, numTags: int, l: int, id: int, ev: Event, op: Transfer, size: int, k: int)
    requires Fit(st, n, numTags) && 0 <= l < n && FindTask(st.ts, n, numTags, l, id, TagALL) == InTag(k)
    ensures var r := ChargeEvent(st, n, numTags, l, id, ev, op, size);
            Frame(st.ts, r.ts) && (forall j :: 0 <= j < |st.ts| ==> ConcOf(r.ts[j]) == ConcOf(st.ts[j]))
            && r.tl == st.tl && r.names == st.names && r.unique == st.unique
            && (TagsOk(st.ts, n) ==> TagsOk(r.ts, n)) && r.main == st.main
  {
    FindTaskSpec(st.ts, n, numTags, l, id, TagALL);
    var d := st.ts[k].locales[l].tasks[id];
    var t := UpdateTask(st.ts[k], n, l, id, Charge(d, ev, op, size));
    assert ChargeEvent(st, n, numTags, l, id, ev, op, size) == st.(ts := st.ts[k := t]);
    ChargeInTag(st.ts, n, k, l, id, Charge(d, ev, op, size));
  }

  /** New data for a task a tag holds keeps the frame and the counters of every tag. */
  lemma ChargeInTag(ts: seq<TagData>, n: nat, k: int, l: int, id: int, d: TaskData)
    requires AllShaped(ts, n) && 0 <= k < |ts| && 0 <= l < n && id in ts[k].locales[l].tasks
    ensures var ts' := ts[k := UpdateTask(ts[k], n, l, id, d)];
            Frame(ts, ts') && (forall j :: 0 <= j < |ts| ==> ConcOf(ts'[j]) == ConcOf(ts[j]))
            && (TagsOk(ts, n) && CellOk(d.commSum) ==> TagsOk(ts', n))
  {
    var t' := UpdateTask(ts[k], n, l, id, d);
    assert TagFrame(ts[k], t');
  }

  /** Every step keeps the concurrency bounds. */
  lemma StepConc(st: TState, n: nat, numTags: int, ev: Event)
    requires Steppable(st, n, numTags, ev) && ConcOk(st.ts, n)
    ensures ConcOk(TimelineStep(st, n, numTags, ev).ts, n)
  {
    if ev.Tag? || ev.BeginTask? || ev.EndTask? {
      StepConcTask(st, n, numTags, ev);
    } else {
      StepConcCharge(st, n, numTags, ev);
    }
  }

  /** StepConc for the tag and task records. */
  lemma StepConcTask(st: TState, n: nat, numTags: int, ev: Event)
    requires Steppable(st, n, numTags, ev) && ConcOk(st.ts, n) && (ev.Tag? || ev.BeginTask? || ev.EndTask?)
    ensures ConcOk(TimelineStep(st, n, numTags, ev).ts, n)
  {
    match ev
    case Tag(_, node, _, name, _) => TagConc(st, n, numTags, node, name);
    case BeginTask(_, node, id) => BeginConc(st, n, numTags, node, id);
    case EndTask(_, node, id) => EndConc(st, n, numTags, node, id);
  }

  /** StepConc for the fork and communication records, and the records the pass skips. */
  lemma StepConcCharge(st: TState, n: nat, numTags: int, ev: Event)
    requires Steppable(st, n, numTags, ev) && ConcOk(st.ts, n) && !ev.Tag? && !ev.BeginTask? && !ev.EndTask?
    ensures ConcOk(TimelineStep(st, n, numTags, ev).ts, n)
  {
    match ev
    case Fork(_, node, _, _, _, _, inTask) => ChargeFacts(st, n, numTags, node, inTask, ev, Forked, 0);
    case Comm(_, _, src, dst, _, dataLen, isGet, inTask, _, _) =>
      ChargeFacts(st, n, numTags, if isGet then dst else src, inTask, ev, if isGet then Get else Put, dataLen);
    case _ =>
  }

  /** One entry appended to a locale's timeline; an end only after a begin of its task. */
  lemma MatchedSnoc(tl: seq<seq<Entry>>, l: int, e: Entry)
    requires Matched(tl) && 0 <= l < |tl|
    requires e.TlEnd? ==> TlBegin(e.taskId) in tl[l]
    ensures Matched(tl[l := tl[l] + [e]])
  {
    var tl': seq<seq<Entry>> := tl[l := tl[l] + [e]];
    forall j: int, p: int | 0 <= j < |tl'| && 0 <= p < |tl'[j]| && tl'[j][p].TlEnd?
      ensures TlBegin(tl'[j][p].taskId) in tl'[j][..p]
    {
      if j == l && p == |tl[l]| {
        assert tl'[j][..p] == tl[l];
      } else {
        assert tl'[j][..p] == tl[j][..p];
      }
    }
  }

  /** What the timeline pass keeps true at every step. */
  predicate Sound(st: TState, n: nat)
  {
    ConcOk(st.ts, n) && TagsOk(st.ts, n) && CellOk(st.main.commSum) && Matched(st.tl)
  }

  /** The name map and the uniqueness flag after one more record. */
  predicate NamesAfter(st: TState, r: TState, ev: Event)
  {
    r.names == (if IsTopTag(ev) && ev.name !in st.names then st.names[ev.name := r.c] else st.names)
    && r.unique == (st.unique && !(IsTopTag(ev) && ev.name in st.names))
  }

  lemma TagFacts(st: TState, n: nat, numTags: int, l: int, name: string)
    requires Fit(st, n, numTags) && 0 <= l < n && st.c + 2 < |st.ts| && (l == 0 ==> st.c + 3 < |st.ts|)
    ensures var r := TagTimeline(st, n, numTags, l, name);
            Frame(st.ts, r.ts) && (TagsOk(st.ts, n) ==> TagsOk(r.ts, n)) && r.main == st.main
            && (Matched(st.tl) ==> Matched(r.tl))
  {
    var c := if l == 0 then st.c + 1 else st.c;
    var run := st.ts[c + 1].locales[l].runConc;
    var t := st.ts[c + 2];
    var t' := SetConc(t, n, l, run, run, Max(t.maxConc, run));
    var r := TagTimeline(st, n, numTags, l, name);
    assert r.ts == st.ts[c + 2 := t'] && r.tl == st.tl[l := st.tl[l] + [TlTag(c)]] && r.main == st.main;
    ReplaceOne(st.ts, c + 2, t', n);
    if Matched(st.tl) { MatchedSnoc(st.tl, l, TlTag(c)); }
  }

  /** Replacing one tag by a framed version keeps the table framed, and sound if it was. */
  lemma ReplaceOne(ts: seq<TagData>, k: int, t: TagData, n: nat)
    requires 0 <= k < |ts| && TagFrame(ts[k], t) && (TagOk(ts[k], n) ==> TagOk(t, n))
    ensures Frame(ts, ts[k := t]) && (TagsOk(ts, n) ==> TagsOk(ts[k := t], n))
  {
    forall j | 0 <= j < |ts| ensures TagFrame(ts[j], ts[k := t][j]) {
      if j != k {
        assert ts[k := t][j] == ts[j];
      }
    }
  }

  lemma BeginFacts(st: TState, n: nat, numTags: int, l: int, id: int)
    requires Fit(st, n, numTags) && 0 <= l < n && st.c + 2 < |st.ts|
    ensures var r := BeginTimeline(st, n, numTags, l, id);
            Frame(st.ts, r.ts) && (TagsOk(st.ts, n) ==> TagsOk(r.ts, n)) && r.main == st.main
            && (Matched(st.tl) ==> Matched(r.tl)) && r.names == st.names && r.unique == st.unique
  {
    var r := BeginTimeline(st, n, numTags, l, id);
    var cur := st.c + 2;
    var t := st.ts[cur];
    var d := t.locales[l];
    if id in d.tasks {
      if Matched(st.tl) { MatchedSnoc(st.tl, l, TlBegin(id)); }
      var run := d.runConc + 1;
      assert r.tl == st.tl[l := st.tl[l] + [TlBegin(id)]];
      if run <= d.maxConc {
        var t' := SetConc(t, n, l, run, d.maxConc, t.maxConc);
        assert r.ts == st.ts[cur := t'];
        ReplaceOne(st.ts, cur, t', n);
      } else {
        var a := st.ts[0];
        var t' := SetConc(t, n, l, run, run, Max(t.maxConc, run));
        var a' := SetConc(a, n, l, a.locales[l].runConc, Max(a.locales[l].maxConc, run),
                          if run > t.maxConc then Max(a.maxConc, run) else a.maxConc);
        assert r.ts == st.ts[cur := t'][0 := a'];
        ReplaceOne(st.ts, cur, t', n);
        ReplaceOne(st.ts[cur := t'], 0, a', n);
        FrameTrans(st.ts, st.ts[cur := t'], r.ts);
      }
    }
  }

  lemma EndFacts(st: TState, n: nat, numTags: int, l: int, id: int)
    requires Fit(st, n, numTags) && 0 <= l < n && st.c + 2 < |st.ts|
    ensures var r := EndTimeline(st, n, numTags, l, id);
            Frame(st.ts, r.ts) && (TagsOk(st.ts, n) ==> TagsOk(r.ts, n)) && r.main == st.main
            && (Matched(st.tl) ==> Matched(r.tl)) && r.names == st.names && r.unique == st.unique
  {
    if TlBegin(id) in st.tl[l] {
      var cur := st.c + 2;
      var t := st.ts[cur];
      var t' := SetConc(t, n, l, t.locales[l].runConc - 1, t.locales[l].maxConc, t.maxConc);
      assert EndTimeline(st, n, numTags, l, id).ts == st.ts[cur := t'];
      ReplaceOne(st.ts, cur, t', n);
      if Matched(st.tl) {
        MatchedSnoc(st.tl, l, TlEnd(id));
      }
    }
  }

  /** Every step keeps the pass sound and changes only concurrency and task data. */
  lemma StepSound(st: TState, n: nat, numTags: int, ev: Event)
    requires Steppable(st, n, numTags, ev) && Sound(st, n)
    ensures var r := TimelineStep(st, n, numTags, ev); Sound(r, n) && Frame(st.ts, r.ts)
  {
    if ev.Tag? {
      StepSoundTag(st, n, numTags, ev);
    } else if ev.BeginTask? || ev.EndTask? {
      StepSoundTask(st, n, numTags, ev);
    } else {
      StepSoundCharge(st, n, numTags, ev);
    }
  }

  /** StepSound for the tag records. */
  lemma StepSoundTag(st: TState, n: nat, numTags: int, ev: Event)
    requires Steppable(st, n, numTags, ev) && Sound(st, n) && ev.Tag?
    ensures var r := TimelineStep(st, n, numTags, ev); Sound(r, n) && Frame(st.ts, r.ts)
  {
    StepConc(st, n, numTags, ev);
    TagFacts(st, n, numTags, ev.node, ev.name);
  }

  /** StepSound for the task records. */
  lemma StepSoundTask(st: TState, n: nat, numTags: int, ev: Event)
    requires Steppable(st, n, numTags, ev) && Sound(st, n) && (ev.BeginTask? || ev.EndTask?)
    ensures var r := TimelineStep(st, n, numTags, ev); Sound(r, n) && Frame(st.ts, r.ts)
  {
    StepConc(st, n, numTags, ev);
    match ev
    case BeginTask(_, node, id) => BeginFacts(st, n, numTags, node, id);
    case EndTask(_, node, id) => EndFacts(st, n, numTags, node, id);
  }

  /** StepSound for the fork and communication records, and the records the pass skips. */
  lemma StepSoundCharge(st: TState, n: nat, numTags: int, ev: Event)
    requires Steppable(st, n, numTags, ev) && Sound(st, n) && !ev.Tag? && !ev.BeginTask? && !ev.EndTask?
    ensures var r := TimelineStep(st, n, numTags, ev); Sound(r, n) && Frame(st.ts, r.ts)
  {
    StepConc(st, n, numTags, ev);
    match ev
    case Fork(_, node, _, _, _, _, inTask) => ChargeFacts(st, n, numTags, node, inTask, ev, Forked, 0);
    case Comm(_, _, src, dst, _, dataLen, isGet, inTask, _, _) =>
      ChargeFacts(st, n, numTags, if isGet then dst else src, inTask, ev, if isGet then Get else Put, dataLen);
    case _ =>
  }

  /** Only locale 0's tag records enter names, each new name at the tag number it starts. */
  lemma StepNames(st: TState, n: nat, numTags: int, ev: Event)
    requires Steppable(st, n, numTags, ev)
    ensures NamesAfter(st, TimelineStep(st, n, numTags, ev), ev)
  {
    match ev
    case BeginTask(_, node, id) => BeginFacts(st, n, numTags, node, id);
    case EndTask(_, node, id) => EndFacts(st, n, numTags, node, id);
    case Fork(_, node, _, _, _, _, inTask) => ChargeFacts(st, n, numTags, node, inTask, ev, Forked, 0);
    case Comm(_, _, src, dst, _, dataLen, isGet, inTask, _, _) =>
      ChargeFacts(st, n, numTags, if isGet then dst else src, inTask, ev, if isGet then Get else Put, dataLen);
    case _ =>
  }

  /** One more name keeps the names distinct exactly when it is new. */
  lemma DistinctSnoc(ns: seq<string>, x: string)
    ensures Distinct(ns + [x]) <==> Distinct(ns) && x !in ns
  {
    var ns' := ns + [x];
    assert forall i :: 0 <= i < |ns| ==> ns'[i] == ns[i];
    if Distinct(ns) && x !in ns {
      forall i, j | 0 <= i < j < |ns'| ensures ns'[i] != ns'[j] {
        if j == |ns| {
          assert ns[i] in ns;
        }
      }
    }
    if Distinct(ns') {
      forall i | 0 <= i < |ns| ensures ns[i] != x {
        assert ns'[i] != ns'[|ns|];
      }
    }
  }

  /** The whole pass keeps the state sound and changes only concurrency counters and task data. */
  lemma {:induction false} TimelineSound(st: TState, n: nat, numTags: int, s: seq<Event>)
    requires Runnable(st, n, numTags, s) && Sound(st, n)
    ensures var r := TimelineFold(st, n, numTags, s); Sound(r, n) && Frame(st.ts, r.ts)
    decreases |s|
  {
    if s != [] {
      var p := s[..|s| - 1];
      var ev := s[|s| - 1];
      TimelineSound(st, n, numTags, p);
      var m := TimelineFold(st, n, numTags, p);
      StepSound(m, n, numTags, ev);
      FrameTrans(st.ts, m.ts, TimelineStep(m, n, numTags, ev).ts);
    }
  }

  /**
   * Started with an empty name map at tag Start, the pass maps each of
   * locale 0's tag names to the first tag carrying it, and its flag says
   * whether no name repeats.
   */
  lemma {:induction false} TimelineNames(st: TState, n: nat, numTags: int, s: seq<Event>)
    requires Runnable(st, n, numTags, s) && st.names == map[] && st.unique && st.c == TagStart
    ensures var r := TimelineFold(st, n, numTags, s);
            r.names == FirstIndex(TopTags(s)) && r.unique == Distinct(TopTags(s))
    decreases |s|
  {
    if s != [] {
      var p := s[..|s| - 1];
      var ev := s[|s| - 1];
      assert TopTags(s) == TopTags(p) + (if IsTopTag(ev) then [ev.name] else []);
      TimelineNames(st, n, numTags, p);
      var m := TimelineFold(st, n, numTags, p);
      StepNames(m, n, numTags, ev);
      if IsTopTag(ev) {
        FirstIndexSnoc(TopTags(p), ev.name);
        DistinctSnoc(TopTags(p), ev.name);
      } else {
        assert TopTags(s) == TopTags(p);
      }
    }
  }

  /**
   * Right after the count pass ALL and Start count the main task once on
   * locale 0 and no other task is running, so the pass starts sound.
   */
  lemma StartSound(ts: seq<TagData>, n: nat, main: TaskData)
    requires n >= 1 && 2 <= |ts| && AllShaped(ts, n) && ConcPattern(ts, n, 1)
    requires TagsOk(ts, n) && CellOk(main.commSum)
    ensures var r := TimelineStart(ts, n, map[], true, main);
            Sound(r, n) && Frame(ts, r.ts)
  {
    var r := TimelineStart(ts, n, map[], true, main);
    var start := SetConc(ts[1], n, 0, ts[1].locales[0].runConc, 1, 1);
    assert r.ts == ts[0 := ts[0].(maxConc := 1)][1 := start];
    SetConcOf(ts[1], n, 0, ts[1].locales[0].runConc, 1, 1);
    forall l | 0 <= l < n ensures ConcOf(r.ts[0]).1[l] == 0 && 0 <= ConcOf(r.ts[0]).2[l] <= 1 {
      ConcAt(r.ts[0], l);
    }
    assert AllBound(ConcOf(r.ts[0]), n);
    forall k | 1 <= k < |r.ts| ensures TagBound(ConcOf(r.ts[k]), ConcOf(r.ts[0]), n) {
      forall l | 0 <= l < n
        ensures ConcOf(r.ts[k]).1[l] <= ConcOf(r.ts[k]).2[l] <= ConcOf(r.ts[k]).0
        ensures ConcOf(r.ts[k]).2[l] <= ConcOf(r.ts[0]).2[l]
      {
        ConcAt(r.ts[k], l);
        ConcAt(r.ts[0], l);
        ConcAt(ts[k], l);
      }
    }
  }
}
