/**
 * The chplvis trace database: DataModel merges the trace files of all
 * locales into one event list and derives the per-tag statistics from it.
 */
module Chplvis {
  import opened Wrappers
  import opened TraceEvent
  import opened EventOrder
  import opened TagStats
  import opened TraceLines
  import opened TraceFiles
  import opened LoadPasses
  import opened TaskTotals
  import opened Timeline
  import opened UniqueTags

  /** The files LoadData can see: which names are directories, and the trace files by name. */
  datatype FileSystem = FileSystem(dirs: set<string>, files: map<string, TraceFile>)

  /** The list after one locale's file has been merged in and the tool's own records filtered out. */
  function Loaded(s: seq<Event>, h: Header, lines: seq<Line>): (r: (seq<Event>, Reader))
    ensures |r.0| <= |s| + 1 + |lines|
  {
    var (s1, c1) := PlaceStart(s, Start(h.start, h.nid));
    var (rd, es) := ReadAll(StartReader(h.nid, h.vdbTid), lines);
    var (s2, _) := OfferAll(s1, c1, es);
    (Filtered(s2, h.nid, rd.vdbTids), rd)
  }

  /** A merged list always begins with a start event. */
  lemma LoadedStartsWithStart(s: seq<Event>, h: Header, lines: seq<Line>)
    requires s == [] || s[0].Start?
    ensures var r := Loaded(s, h, lines).0; r != [] && r[0].Start?
  {
    var (s1, c1) := PlaceStart(s, Start(h.start, h.nid));
    assert s1[0].Start?;
  }

  /** One step of the filter loop: the kept prefix grows by the event, or the event goes. */
  lemma FilterStep(orig: seq<Event>, j: nat, s: seq<Event>, i: nat)
    requires i < |s| && j <= |orig|
    requires s[i..] == orig[j..]
    ensures j < |orig| && s[i] == orig[j]
    ensures (s[..i] + s[i + 1..])[i..] == orig[j + 1..]
    ensures (s[..i] + s[i + 1..])[..i] == s[..i]
    ensures s[i + 1..] == orig[j + 1..]
    ensures s[..i + 1] == s[..i] + [s[i]]
    ensures orig[..j + 1] == orig[..j] + [orig[j]]
  {
    assert s[i..][0] == orig[j..][0];
    assert s[i..][1..] == orig[j..][1..];
  }

  /**
   * One step of the counting loop on the list: a kept event joins the
   * selected prefix, an erased end record leaves the list.
   */
  lemma CountListStep(orig: seq<Event>, j: nat, keep: seq<bool>, s: seq<Event>, i: nat, kept: bool, n: int)
    requires i < |s| && j < |orig| && |keep| == j
    requires forall t :: 0 <= t < |s| ==> InRange(s[t], n)
    requires s[..i] == Select(orig[..j], keep) && s[i..] == orig[j..]
    requires forall t :: 0 <= t < j && !keep[t] ==> orig[t].EndTask?
    requires kept || orig[j].EndTask?
    ensures var s' := if kept then s else s[..i] + s[i + 1..];
            var i' := if kept then i + 1 else i;
            i' <= |s'| && s'[..i'] == Select(orig[..j + 1], keep + [kept]) && s'[i'..] == orig[j + 1..]
    ensures forall t :: 0 <= t < j + 1 && !(keep + [kept])[t] ==> orig[t].EndTask?
    ensures var s' := if kept then s else s[..i] + s[i + 1..];
            forall t :: 0 <= t < |s'| ==> InRange(s'[t], n)
  {
    FilterStep(orig, j, s, i);
    assert orig[..j + 1][..j] == orig[..j] && (keep + [kept])[..j] == keep;
  }

  /**
   * The state of the counting loop: `keep` flags the first |keep| events of
   * the original list `orig`, the list `s` holds the kept ones before the
   * cursor `i` and the untouched rest after it, and the table `ts` with tag
   * number `c` is what the counting pass has built over the kept events.
   */
  ghost predicate CountLoop(orig: seq<Event>, keep: seq<bool>, s: seq<Event>, i: int,
                            ts: seq<TagData>, n: nat, c: int, numTags: int)
  {
    0 <= i <= |s| && |keep| <= |orig| && s != [] && s[0].Start? && (i == 0 <==> |keep| == 0)
    && s[..i] == Select(orig[..|keep|], keep) && s[i..] == orig[|keep|..]
    && (forall t :: 0 <= t < |keep| && !keep[t] ==> orig[t].EndTask?)
    && (forall t :: 0 <= t < |s| ==> InRange(s[t], n))
    && TopTags(s[..i]) == TopTags(orig[..|keep|]) && |TopTags(orig)| == numTags
    && |ts| == numTags + 2 && CountedTags(ts, n, s[..i], c)
  }

  /** One turn of the counting loop keeps the tag names of the kept prefix. */
  lemma CountTopStep(orig: seq<Event>, j: nat, s: seq<Event>, i: nat, kept: bool)
    requires i < |s| && j < |orig| && s[i..] == orig[j..]
    requires TopTags(s[..i]) == TopTags(orig[..j]) && (kept || orig[j].EndTask?)
    ensures var s' := if kept then s else s[..i] + s[i + 1..];
            var i' := if kept then i + 1 else i;
            i' <= |s'| && TopTags(s'[..i']) == TopTags(orig[..j + 1])
  {
    FilterStep(orig, j, s, i);
    TopTagsStep(orig, j);
    if kept {
      TopTagsStep(s, i);
    } else {
      assert (s[..i] + s[i + 1..])[..i] == s[..i];
    }
  }

  /** Erasing an end record never touches the start event at the head of the list. */
  lemma CountHeadStep(s: seq<Event>, i: nat, kept: bool)
    requires s != [] && s[0].Start? && i < |s| && (kept || s[i].EndTask?)
    ensures var s' := if kept then s else s[..i] + s[i + 1..];
            (!kept ==> i != 0) && s' != [] && s'[0].Start?
  {
    if !kept {
      assert i != 0;
      assert (s[..i] + s[i + 1..])[0] == s[0];
    }
  }

  /** The conjuncts of the counting loop's state, assembled. */
  lemma CountLoopIntro(orig: seq<Event>, keep: seq<bool>, s: seq<Event>, i: int,
                       ts: seq<TagData>, n: nat, c: int, numTags: int)
    requires 0 <= i <= |s| && |keep| <= |orig| && s != [] && s[0].Start? && (i == 0 <==> |keep| == 0)
    requires s[..i] == Select(orig[..|keep|], keep) && s[i..] == orig[|keep|..]
    requires forall t :: 0 <= t < |keep| && !keep[t] ==> orig[t].EndTask?
    requires forall t :: 0 <= t < |s| ==> InRange(s[t], n)
    requires TopTags(s[..i]) == TopTags(orig[..|keep|]) && |TopTags(orig)| == numTags
    requires |ts| == numTags + 2 && CountedTags(ts, n, s[..i], c)
    ensures CountLoop(orig, keep, s, i, ts, n, c, numTags)
  {
  }

  /** One turn of the counting loop keeps its state. */
  /** What the body of the counting loop needs before it counts the next event. */
  lemma CountLoopPre(orig: seq<Event>, keep: seq<bool>, s: seq<Event>, i: int,
                     ts: seq<TagData>, n: nat, c: int, numTags: int)
    requires CountLoop(orig, keep, s, i, ts, n, c, numTags) && i < |s|
    ensures AllShaped(ts, n) && InRange(s[i], n) && 2 <= |ts| && -1 <= c && c + 2 < |ts|
    ensures IsTopTag(s[i]) ==> c + 3 < |ts|
  {
    var j := |keep|;
    FilterStep(orig, j, s, i);
    TopTagsStep(orig, j);
    TopTagsPrefix(orig, j + 1);
    CountStepKeeps(ts, n, s[..i], s[i], c);
  }

  /** One turn of the counting loop keeps CountLoop: a kept event moves the cursor, an erased one never is the first. */
  lemma CountLoopStep(orig: seq<Event>, keep: seq<bool>, s: seq<Event>, i: int,
                      ts: seq<TagData>, n: nat, c: int, numTags: int,
                      ts': seq<TagData>, c': int, kept: bool)
    requires CountLoop(orig, keep, s, i, ts, n, c, numTags) && i < |s|
    requires AllShaped(ts, n) && InRange(s[i], n) && 2 <= |ts| && -1 <= c && c + 2 < |ts|
    requires IsTopTag(s[i]) ==> c + 3 < |ts|
    requires (ts', c', kept) == CountStep(ts, n, s[i], c)
    ensures kept ==> CountLoop(orig, keep + [true], s, i + 1, ts', n, c', numTags)
    ensures !kept ==> i != 0 && CountLoop(orig, keep + [false], s[..i] + s[i + 1..], i, ts', n, c', numTags)
  {
    var j := |keep|;
    var ev := s[i];
    FilterStep(orig, j, s, i);
    TopTagsStep(orig, j);
    TopTagsPrefix(orig, j + 1);
    CountStepKeeps(ts, n, s[..i], ev, c);
    CountListStep(orig, j, keep, s, i, kept, n);
    CountTopStep(orig, j, s, i, kept);
    CountHeadStep(s, i, kept);
    var s' := if kept then s else s[..i] + s[i + 1..];
    var i' := if kept then i + 1 else i;
    assert s'[..i'] == if kept then s[..i] + [ev] else s[..i];
    assert CountedTags(ts', n, s'[..i'], c');
    assert |keep + [kept]| == j + 1;
    CountLoopIntro(orig, keep + [kept], s', i', ts', n, c', numTags);
  }

  /** The trace file of that name, if the file system has one. */
  function FileAt(fs: FileSystem, name: string): (r: Option<TraceFile>)
    ensures r.Some? <==> name in fs.files
    ensures r.Some? ==> r.value == fs.files[name]
  {
    if name in fs.files then Some(fs.files[name]) else None
  }

  /** LoadFile takes locale i's file: it exists, its first line scans, and it was written for n locales by locale i. */
  predicate Accepts(f: Option<TraceFile>, n: int, i: int)
  {
    f.Some? && f.value.header.Some? && f.value.header.value.nodes == n && f.value.header.value.nid == i
  }

  /**
   * The event list and tag count once the files of locales 0 .. i-1 have
   * been merged in order into (s0, nt0), or None when one of them is
   * refused; the run stops at the first refusal.
   */
  function LoadedUpTo(fs: FileSystem, prefix: string, n: int, i: int, s0: seq<Event>, nt0: int): (r: Option<(seq<Event>, int)>)
    requires s0 == [] || s0[0].Start?
    ensures r.Some? <==> AllAccepted(fs, prefix, n, i)
    ensures r.Some? ==> r.value.0 == [] || r.value.0[0].Start?
    ensures r.Some? && i > 0 ==> r.value.0 != []
    decreases i
  {
    if i <= 0 then Some((s0, nt0))
    else
      var prev := LoadedUpTo(fs, prefix, n, i - 1, s0, nt0);
      AllAcceptedNext(fs, prefix, n, i);
      LoadedNext(fs, prefix, n, i - 1, prev)
  }

  /** The locales below i are all accepted when those below i - 1 are and locale i - 1 is. */
  lemma AllAcceptedNext(fs: FileSystem, prefix: string, n: int, i: int)
    requires i > 0
    ensures AllAccepted(fs, prefix, n, i)
            <==> AllAccepted(fs, prefix, n, i - 1) && Accepts(FileAt(fs, LocaleFileName(prefix, i - 1)), n, i - 1)
  {
  }

  /** Every locale below i has a file that LoadFile takes. */
  predicate AllAccepted(fs: FileSystem, prefix: string, n: int, i: int)
  {
    forall j :: 0 <= j < i ==> Accepts(FileAt(fs, LocaleFileName(prefix, j)), n, j)
  }

  /** Locale j's file merged into the run so far, if the run has not failed and the file is accepted. */
  function LoadedNext(fs: FileSystem, prefix: string, n: int, j: nat, prev: Option<(seq<Event>, int)>): (r: Option<(seq<Event>, int)>)
    requires prev.Some? ==> prev.value.0 == [] || prev.value.0[0].Start?
    ensures r.Some? <==> prev.Some? && Accepts(FileAt(fs, LocaleFileName(prefix, j)), n, j)
    ensures r.Some? ==> r.value.0 != [] && r.value.0[0].Start?
  {
    match prev
    case None => None
    case Some((s, nt)) =>
      var f := FileAt(fs, LocaleFileName(prefix, j));
      if Accepts(f, n, j) then
        var h := f.value.header.value;
        var (s', rd) := Loaded(s, h, f.value.lines);
        LoadedStartsWithStart(s, h, f.value.lines);
        Some((s', rd.numTags))
      else None
  }

  /** One more locale: its file is merged in if it is accepted, and otherwise the whole run fails. */
  /** Once the loop over the locales has run out, the run so far is the whole run. */
  lemma LoadedAll(fs: FileSystem, prefix: string, n: int, i: int, nt0: int)
    requires 0 <= i && (i <= n || i == 0) && !(i < n)
    ensures LoadedUpTo(fs, prefix, n, n, [], nt0) == LoadedUpTo(fs, prefix, n, i, [], nt0)
  {
  }

  lemma LoadedUpToNext(fs: FileSystem, prefix: string, n: int, i: nat, nt0: int, s: seq<Event>, nt: int)
    requires LoadedUpTo(fs, prefix, n, i, [], nt0) == Some((s, nt))
    ensures var f := FileAt(fs, LocaleFileName(prefix, i));
            LoadedUpTo(fs, prefix, n, i + 1, [], nt0)
              == if Accepts(f, n, i) then Some((Loaded(s, f.value.header.value, f.value.lines).0,
                                                Loaded(s, f.value.header.value, f.value.lines).1.numTags))
                 else None
    ensures !Accepts(FileAt(fs, LocaleFileName(prefix, i)), n, i) ==> forall k :: k > i ==> LoadedUpTo(fs, prefix, n, k, [], nt0).None?
  {
  }

  /** After the counting pass the records after ALL and Start carry the top-level tag names in order. */
  lemma CountedNames(ts: seq<TagData>, n: nat, s: seq<Event>, numTags: int)
    requires CountedTags(ts, n, s, numTags - 1) && |ts| == numTags + 2
    ensures Names(ts[2..]) == TopTags(s)
  {
    assert forall t :: 0 <= t < numTags ==> Names(ts[2..])[t] == ts[t + 2].name;
  }

  /**
   * The table after the counting pass and the totals: one record per
   * top-level tag after ALL and Start, in list order, ALL's matrix the
   * traffic of the list, every other record's matrix the traffic charged to
   * its tag, the concurrency counters as the main task leaves them, and
   * every record well formed.
   */
  predicate TotalsOk(ts: seq<TagData>, s: seq<Event>, n: int, numTags: int)
  {
    n >= 1 && |ts| == numTags + 2 && Fits(s, n, numTags) && AllShaped(ts, n)
    && Names(ts[2..]) == TopTags(s)
    && ts[0].name == "ALL" && ts[1].name == "Start"
    && (forall a, b :: 0 <= a < n && 0 <= b < n ==> ts[0].comms[a][b] == Traffic(s, a, b))
    && CountedTraffic(ts, n, s)
    && ConcPattern(ts, n, 1) && TagsOk(ts, n)
  }

  /** The totals keep everything the counting pass established about the table. */
  lemma TotalsKeep(ts: seq<TagData>, s: seq<Event>, n: nat, numTags: int)
    requires CountedTags(ts, n, s, numTags - 1) && |ts| == numTags + 2 && Fits(s, n, numTags) && s != []
    ensures TotalsOk(TotalledTable(ts), s, n, numTags)
  {
    CountedNames(ts, n, s, numTags);
    assert TagsOk(ts, n);
    TotalledKeeps(ts, n, 1);
    var r := TotalledTable(ts);
    SameNames(ts, r);
    assert r[0].comms == ts[0].comms;
  }

  /**
   * The tables after the timeline pass: TotalsOk's names and matrices, the
   * concurrency counters bounded by ALL's, every record and the main task
   * well formed, and every timeline end preceded by its begin.
   */
  predicate TablesOk(ts: seq<TagData>, tl: seq<seq<Entry>>, main: TaskData, s: seq<Event>, n: int, numTags: int)
  {
    n >= 1 && 0 <= numTags && |ts| == numTags + 2 && |tl| == n && AllShaped(ts, n)
    && Names(ts[2..]) == TopTags(s)
    && ts[0].name == "ALL" && ts[1].name == "Start"
    && (forall a, b :: 0 <= a < n && 0 <= b < n ==> ts[0].comms[a][b] == Traffic(s, a, b))
    && CountedTraffic(ts, n, s)
    && ConcOk(ts, n) && TagsOk(ts, n) && CellOk(main.commSum) && Matched(tl)
  }

  /** A state after the timeline pass: its tables are TablesOk and its name map indexes each tag name's first tag. */
  predicate TimedOk(st: TState, s: seq<Event>, n: int, numTags: int)
  {
    TablesOk(st.ts, st.tl, st.main, s, n, numTags)
    && st.unique == Distinct(TopTags(s)) && st.names == FirstIndex(TopTags(s))
  }

  /** The timeline pass from the totalled table and an empty name map ends TimedOk. */
  lemma TimelineKeeps(ts: seq<TagData>, s: seq<Event>, n: nat, numTags: int, main: TaskData)
    requires TotalsOk(ts, s, n, numTags) && CellOk(main.commSum)
    ensures var st0 := TimelineStart(ts, n, map[], true, main);
            Runnable(st0, n, numTags, s) && TimedOk(TimelineFold(st0, n, numTags, s), s, n, numTags)
  {
    var st0 := TimelineStart(ts, n, map[], true, main);
    StartSound(ts, n, main);
    var r := TimelineFold(st0, n, numTags, s);
    TimelineSound(st0, n, numTags, s);
    TimelineNames(st0, n, numTags, s);
    FrameTrans(ts, st0.ts, r.ts);
    FrameNames(ts, r.ts);
  }

  /**
   * The tables LoadData leaves: TablesOk, the flag saying whether the tag
   * names are distinct, and the name map over the first tags or, when a name
   * repeats, over the merged unique tags.
   */
  predicate BuiltTables(ts: seq<TagData>, tl: seq<seq<Entry>>, main: TaskData, s: seq<Event>, n: int, numTags: int,
                        unique: bool, names: map<string, int>, us: seq<TagData>)
  {
    TablesOk(ts, tl, main, s, n, numTags)
    && unique == Distinct(TopTags(s))
    && (unique ==> names == FirstIndex(TopTags(s)))
    && (!unique ==> names == UniqueIndex(TopTags(s)) && Merged(us, ts, n))
  }

  /** Distinct tag names: the timeline pass's tables are already the result. */
  lemma TimedBuilt(st: TState, s: seq<Event>, n: int, numTags: int, us: seq<TagData>)
    requires TimedOk(st, s, n, numTags) && st.unique
    ensures BuiltTables(st.ts, st.tl, st.main, s, n, numTags, true, st.names, us)
  {
  }

  /** A repeated tag name: the timeline pass's tables with the merged unique tags and their index. */
  lemma MergedBuilt(st: TState, s: seq<Event>, n: int, numTags: int, names: map<string, int>, us: seq<TagData>)
    requires TimedOk(st, s, n, numTags) && !st.unique
    requires names == UniqueIndex(Names(st.ts[2..])) && us == UniqueTable(st.ts[2..], n)
    ensures BuiltTables(st.ts, st.tl, st.main, s, n, numTags, false, names, us)
  {
    AllShapedDrop(st.ts, n, 2);
  }

  /** The unique-tag table holds one merged record per distinct name of the tags after ALL and Start. */
  predicate Merged(us: seq<TagData>, ts: seq<TagData>, n: int)
  {
    n >= 1 && |ts| >= 2 && AllShaped(ts[2..], n) && us == UniqueTable(ts[2..], n)
  }

  /** Tables whose records carry the same names have the same names after ALL and Start. */
  lemma SameNames(a: seq<TagData>, b: seq<TagData>)
    requires |a| == |b| >= 2 && forall k :: 0 <= k < |a| ==> b[k].name == a[k].name
    ensures Names(b[2..]) == Names(a[2..])
  {
  }

  /** A table that changed only as the timeline pass changes tables keeps its names and ALL's matrix. */
  lemma FrameNames(a: seq<TagData>, b: seq<TagData>)
    requires Frame(a, b) && |a| >= 2
    ensures Names(b[2..]) == Names(a[2..])
    ensures b[0].name == a[0].name && b[1].name == a[1].name && b[0].comms == a[0].comms
  {
    assert TagFrame(a[0], b[0]) && TagFrame(a[1], b[1]);
  }

  class DataModel {
    /** theEvents: the merged event list of all locales. */
    var events: seq<Event>
    var numLocales: int
    var numTags: int
    /** One record per tag, tag number t at index t + 2. */
    var tagList: array<TagData>
    /** taskTimeline: one timeline per locale. */
    var taskTimeline: array<seq<Entry>>
    /** name2tag: the first tag number of each tag name. */
    var name2tag: map<string, int>
    var uniqueTags: bool
    /** The main task (task 1 on locale 0), which no tag holds. */
    var mainTask: TaskData
    /** One record per distinct tag name, built when tag names repeat. */
    var utagList: array<TagData>

    constructor ()
      ensures events == [] && numLocales == 0 && numTags == 0
      ensures fresh(tagList) && tagList.Length == 0 && fresh(taskTimeline) && taskTimeline.Length == 0
      ensures name2tag == map[] && uniqueTags && mainTask == NoTask
      ensures fresh(utagList) && utagList.Length == 0
    {
      events := [];
      numLocales := 0;
      numTags := 0;
      tagList := new TagData[0](_ => EmptyTag(0));
      taskTimeline := new seq<Entry>[0](_ => []);
      name2tag := map[];
      uniqueTags := true;
      mainTask := NoTask;
      utagList := new TagData[0](_ => EmptyTag(0));
    }

    /** The state the timeline pass works on, at tag number c. */
    function State(c: int): TState
      reads this, tagList, taskTimeline
    {
      TState(tagList[..], taskTimeline[..], name2tag, uniqueTags, mainTask, c)
    }

    /**
     * An end-task record is matched with its task: in the current tag, or else
     * in the nearest earlier tag (down to Start) that holds the task.  It
     * reports whether a task took the record.
     */
    method CountEndTask(e: Event, cTagNo: int) returns (found: bool)
      requires numLocales >= 1 && AllShaped(tagList[..], numLocales) && e.EndTask? && 0 <= e.node < numLocales
      requires -1 <= cTagNo && cTagNo + 2 < tagList.Length
      modifies tagList
      ensures var r := CountStep(old(tagList[..]), numLocales, e, cTagNo);
              tagList[..] == r.0 && found == r.2
    {
      var cur := cTagNo + 2;
      ghost var ts := tagList[..];
      EndStepAt(ts, numLocales, e, cTagNo, Holder(ts, cur, e.node, e.taskId));
      var tasks := tagList[cur].locales[e.node].tasks;
      if e.taskId in tasks {
        var d := tasks[e.taskId].(endRec := Some(e), endTagNo := Some(cTagNo));
        tagList[cur] := UpdateTask(tagList[cur], numLocales, e.node, e.taskId, d);
        return true;
      }
      var tryTagNo := cTagNo - 1;
      while tryTagNo > TagALL
        invariant TagStart - 1 <= tryTagNo <= cTagNo - 1
        invariant Holder(ts, cur, e.node, e.taskId) == Holder(ts, tryTagNo + 2, e.node, e.taskId)
        invariant tagList[..] == ts
      {
        var k := tryTagNo + 2;
        tasks := tagList[k].locales[e.node].tasks;
        if e.taskId in tasks {
          var d := tasks[e.taskId].(endRec := Some(e), endTagNo := Some(cTagNo));
          tagList[k] := UpdateTask(tagList[k], numLocales, e.node, e.taskId, d);
          return true;
        }
        tryTagNo := tryTagNo - 1;
      }
      return false;
    }

    /** newList: every event is erased from the list, front first. */
    method NewList()
      modifies this`events
      ensures events == []
    {
      while events != []
        decreases |events|
      {
        events := events[1..];
      }
    }

    /**
     * Insert a file's start event after the start events at the head of the
     * list and return the cursor, which stays on the element after it.
     */
    method InsertStart(e: Event) returns (c: nat)
      requires e.Start?
      modifies this`events
      ensures (events, c) == PlaceStart(old(events), e)
    {
      if events == [] {
        events := [e];
        c := 1;
      } else {
        var p := 0;
        while p < |events| && events[p].Kind() == KStart
          invariant 0 <= p <= |events|
          invariant GroupEnd(events, p, e) == GroupEnd(events, 0, e)
        {
          p := p + 1;
        }
        events := events[..p] + [e] + events[p..];
        c := p + 1;
      }
    }

    /**
     * Merge one event into the list at the cursor `c` and return the new
     * cursor: markers join their group further on, other events go in time
     * order among the non-markers; a marker with no event of its kind ahead
     * is dropped and the cursor moves to the end.
     */
    method InsertEvent(c: nat, e: Event) returns (c': nat)
      requires c <= |events|
      modifies this`events
      ensures (events, c') == Offer(old(events), c, e)
    {
      var i: nat;
      if events == [] {
        i := 0;
      } else if c == |events| {
        i := c;
      } else if e.IsMarker() {
        i := SkipToKind(events, c, e.Kind());
        if i == |events| || events[i].Kind() != e.Kind() {
          assert Place(events, c, e) == Mismatch;
          return |events|;
        }
        i := SkipGroup(events, i, e);
      } else {
        i := SkipEarlier(events, c, e);
      }
      assert Place(events, c, e) == InsertAt(i);
      events := events[..i] + [e] + events[i..];
      c' := i + 1;
    }

    /** The cursor advanced to the next event of kind `k`, or to the end. */
    static method SkipToKind(s: seq<Event>, from: nat, k: Kind) returns (i: nat)
      requires from <= |s|
      ensures i == FirstOfKind(s, from, k)
    {
      i := from;
      while i < |s| && s[i].Kind() != k
        invariant from <= i <= |s|
        invariant FirstOfKind(s, i, k) == FirstOfKind(s, from, k)
      {
        i := i + 1;
      }
    }

    /** The cursor advanced past the events of the group of `e`. */
    static method SkipGroup(s: seq<Event>, from: nat, e: Event) returns (i: nat)
      requires from <= |s|
      ensures i == GroupEnd(s, from, e)
    {
      i := from;
      while i < |s| && SameGroup(s[i], e)
        invariant from <= i <= |s|
        invariant GroupEnd(s, i, e) == GroupEnd(s, from, e)
      {
        i := i + 1;
      }
    }

    /** The cursor advanced past the non-marker events earlier than `e`. */
    static method SkipEarlier(s: seq<Event>, from: nat, e: Event) returns (i: nat)
      requires from <= |s|
      ensures i == TimeSlot(s, from, e)
    {
      i := from;
      while i < |s| && !s[i].IsMarker() && Earlier(s[i].time, e.time)
        invariant from <= i <= |s|
        invariant TimeSlot(s, i, e) == TimeSlot(s, from, e)
      {
        i := i + 1;
      }
    }

    /** Erase the task and begin-task records of locale `findex` that belong to VisualDebug tasks. */
    method FilterVdb(findex: int, vdbTids: set<int>)
      modifies this`events
      ensures events == Filtered(old(events), findex, vdbTids)
    {
      ghost var orig := events;
      ghost var j := 0;
      var i := 0;
      while i < |events|
        invariant 0 <= i <= |events| && 0 <= j <= |orig|
        invariant events[..i] == Filtered(orig[..j], findex, vdbTids)
        invariant events[i..] == orig[j..]
        decreases |events| - i
      {
        var ev := events[i];
        FilterStep(orig, j, events, i);
        FilteredSnoc(orig[..j], ev, findex, vdbTids);
        if IsVdbEvent(ev, findex, vdbTids) {
          events := events[..i] + events[i + 1..];
        } else {
          i := i + 1;
        }
        j := j + 1;
      }
      assert orig[..j] == orig;
    }

    /**
     * One event of the counting pass, with `cTagNo` the current tag number:
     * the table changes as the counting step says, and the method returns the
     * new tag number and whether the event stays in the list.
     */
    method CountEvent(ev: Event, cTagNo: int) returns (c: int, kept: bool)
      requires numLocales >= 1 && 2 <= tagList.Length && AllShaped(tagList[..], numLocales) && InRange(ev, numLocales)
      requires -1 <= cTagNo && cTagNo + 2 < tagList.Length && (IsTopTag(ev) ==> cTagNo + 3 < tagList.Length)
      modifies tagList
      ensures (tagList[..], c, kept) == CountStep(old(tagList[..]), numLocales, ev, cTagNo)
    {
      var cur := cTagNo + 2;
      c, kept := cTagNo, true;
      match ev {
        case Start(_, node) =>
          CountStart(node);
        case Tag(_, _, _, _, _) =>
          c := CountTag(ev, cTagNo);
        case Pause(_, node, _, vdbTid) =>
          CountClose(cur, node, vdbTid);
        case End(_, node, vdbTid) =>
          CountClose(cur, node, vdbTid);
        case Comm(_, _, src, dst, _, _, _, _, _, _) =>
          CountTransfer(cur, src, dst, TransferOf(ev), TransferSize(ev));
        case Fork(_, _, src, dst, _, _, _) =>
          CountTransfer(cur, src, dst, TransferOf(ev), TransferSize(ev));
        case Task(_, node, _, _, _, _) =>
          CountTask(cur, ev);
        case BeginTask(_, node, taskId) =>
          CountBegin(cur, ev);
        case EndTask(_, _, _) =>
          kept := CountEndTask(ev, cTagNo);
      }
    }

    /** A start record: the ALL and Start tags are opened on its locale and the main task runs. */
    method CountStart(node: int)
      requires numLocales >= 1 && 2 <= tagList.Length && AllShaped(tagList[..], numLocales) && 0 <= node < numLocales
      modifies tagList
      ensures var ts := old(tagList[..]);
              tagList[..] == ts[0 := SeedAll(ts[0], numLocales, node)][1 := SeedStart(ts[1], numLocales, node)]
    {
      ghost var ts := tagList[..];
      tagList[0] := SeedAll(tagList[0], numLocales, node);
      tagList[1] := SeedStart(tagList[1], numLocales, node);
      assert tagList[..] == ts[0 := SeedAll(ts[0], numLocales, node)][1 := SeedStart(ts[1], numLocales, node)];
    }

    /**
     * A tag record: locale 0's records start the next tag and name it; the tag
     * and ALL are opened on the record's locale, and the previous tag is
     * closed there.
     */
    method CountTag(e: Event, cTagNo: int) returns (c: int)
      requires numLocales >= 1 && AllShaped(tagList[..], numLocales) && e.Tag? && 0 <= e.node < numLocales
      requires -1 <= cTagNo && cTagNo + 2 < tagList.Length && (e.node == 0 ==> cTagNo + 3 < tagList.Length)
      modifies tagList
      ensures (tagList[..], c) == TagStep(old(tagList[..]), numLocales, e, cTagNo)
    {
      var node := e.node;
      c := cTagNo;
      if node == 0 {
        c := c + 1;
        NameTag(c + 2, e.name);
      }
      SwitchTo(c, node, e.vdbTid);
    }

    /** Locale l moves from tag index c + 1 to c + 2, opening ALL there if it is not open yet. */
    method SwitchTo(c: int, l: int, vdbTid: int)
      requires numLocales >= 1 && AllShaped(tagList[..], numLocales) && 0 <= l < numLocales
      requires -1 <= c && c + 2 < tagList.Length
      modifies tagList
      ensures tagList[..] == SwitchTag(old(tagList[..]), c, numLocales, l, vdbTid)
    {
      OpenTag(c + 2, l);
      if !tagList[0].locales[l].hasRef {
        OpenTag(0, l);
      }
      CloseTag(c + 1, l, vdbTid);
    }

    /** Tag index k takes the name of a tag record. */
    method NameTag(k: int, name: string)
      requires numLocales >= 1 && AllShaped(tagList[..], numLocales) && 0 <= k < tagList.Length
      modifies tagList
      ensures tagList[..] == NameIn(old(tagList[..]), k, name, numLocales)
    {
      tagList[k] := tagList[k].(name := name);
    }

    /** Tag index k is opened on locale l. */
    method OpenTag(k: int, l: int)
      requires numLocales >= 1 && AllShaped(tagList[..], numLocales) && 0 <= k < tagList.Length && 0 <= l < numLocales
      modifies tagList
      ensures tagList[..] == OpenIn(old(tagList[..]), k, numLocales, l)
    {
      tagList[k] := OpenLocale(tagList[k], numLocales, l);
    }

    /** Tag index k is closed on locale l if it is open there. */
    method CloseTag(k: int, l: int, vdbTid: int)
      requires numLocales >= 1 && AllShaped(tagList[..], numLocales) && 0 <= k < tagList.Length && 0 <= l < numLocales
      modifies tagList
      ensures tagList[..] == CloseIn(old(tagList[..]), k, numLocales, l, vdbTid)
    {
      if tagList[k].locales[l].hasRef {
        tagList[k] := CloseLocale(tagList[k], numLocales, l, vdbTid);
      }
    }

    /** A pause or end record closes the current tag and ALL on its locale. */
    method CountClose(cur: int, node: int, vdbTid: int)
      requires numLocales >= 1 && AllShaped(tagList[..], numLocales) && 0 <= node < numLocales && 1 <= cur < tagList.Length
      modifies tagList
      ensures var ts := old(tagList[..]);
              tagList[..] == ts[cur := CloseLocale(ts[cur], numLocales, node, vdbTid)][0 := CloseLocale(ts[0], numLocales, node, vdbTid)]
    {
      ghost var ts := tagList[..];
      tagList[cur] := CloseLocale(tagList[cur], numLocales, node, vdbTid);
      tagList[0] := CloseLocale(tagList[0], numLocales, node, vdbTid);
      assert tagList[..] == ts[cur := CloseLocale(ts[cur], numLocales, node, vdbTid)][0 := CloseLocale(ts[0], numLocales, node, vdbTid)];
    }

    /** A communication or fork is counted in the current tag and in ALL. */
    method CountTransfer(cur: int, src: int, dst: int, op: Transfer, size: int)
      requires numLocales >= 1 && AllShaped(tagList[..], numLocales) && 1 <= cur < tagList.Length
      requires 0 <= src < numLocales && 0 <= dst < numLocales
      modifies tagList
      ensures var ts := old(tagList[..]);
              tagList[..] == ts[cur := RecordTransfer(ts[cur], numLocales, src, dst, op, size)]
                               [0 := RecordTransfer(ts[0], numLocales, src, dst, op, size)]
    {
      ghost var ts := tagList[..];
      tagList[cur] := RecordTransfer(tagList[cur], numLocales, src, dst, op, size);
      tagList[0] := RecordTransfer(tagList[0], numLocales, src, dst, op, size);
      assert tagList[..] == ts[cur := RecordTransfer(ts[cur], numLocales, src, dst, op, size)]
                              [0 := RecordTransfer(ts[0], numLocales, src, dst, op, size)];
    }

    /** A task record enters its task in the current tag. */
    method CountTask(cur: int, e: Event)
      requires numLocales >= 1 && AllShaped(tagList[..], numLocales) && 0 <= cur < tagList.Length
      requires e.Task? && 0 <= e.node < numLocales
      modifies tagList
      ensures tagList[..] == old(tagList[..])[cur := AddTask(old(tagList[cur]), numLocales, e.node, e)]
    {
      tagList[cur] := AddTask(tagList[cur], numLocales, e.node, e);
    }

    /** A begin-task record is attached to its task when the current tag holds the task. */
    method CountBegin(cur: int, e: Event)
      requires numLocales >= 1 && AllShaped(tagList[..], numLocales) && 0 <= cur < tagList.Length
      requires e.BeginTask? && 0 <= e.node < numLocales
      modifies tagList
      ensures var tasks := old(tagList[cur]).locales[e.node].tasks;
              tagList[..] == if e.taskId in tasks
                             then old(tagList[..])[cur := UpdateTask(old(tagList[cur]), numLocales, e.node, e.taskId,
                                                                     tasks[e.taskId].(beginRec := Some(e)))]
                             else old(tagList[..])
    {
      var tasks := tagList[cur].locales[e.node].tasks;
      if e.taskId in tasks {
        tagList[cur] := UpdateTask(tagList[cur], numLocales, e.node, e.taskId, tasks[e.taskId].(beginRec := Some(e)));
      }
    }

    /**
     * The counting pass of LoadData over the merged list: tag, pause and end
     * records open and close tags on their locale, transfers are counted in
     * the current tag and in ALL, tasks are entered in the current tag, and
     * begin and end records are attached to their task.  An end record no
     * task takes is erased from the list.
     */
    method CountPass() returns (ghost keep: seq<bool>)
      requires numLocales >= 1 && tagList.Length == numTags + 2 && events != [] && events[0].Start?
      requires Fits(events, numLocales, numTags)
      requires forall k :: 0 <= k < tagList.Length ==> tagList[k] == FreshTag(numLocales)
      modifies this`events, tagList
      ensures events != [] && events[0].Start? && Fits(events, numLocales, numTags)
      ensures |keep| == |old(events)| && events == Select(old(events), keep)
      ensures forall t :: 0 <= t < |keep| && !keep[t] ==> old(events)[t].EndTask?
      ensures TopTags(events) == TopTags(old(events))
      ensures CountedTags(tagList[..], numLocales, events, numTags - 1)
    {
      ghost var orig := events;
      keep := [];
      var cTagNo := TagStart;
      var i := 0;
      CountedFresh(tagList[..], numLocales);
      while i < |events|
        invariant tagList.Length == numTags + 2
        invariant CountLoop(orig, keep, events, i, tagList[..], numLocales, cTagNo, numTags)
        decreases |events| - i
      {
        var kept;
        i, cTagNo, kept := CountAt(i, cTagNo, orig, keep);
        keep := keep + [kept];
      }
      assert events[..i] == events && orig[..|keep|] == orig;
    }

    /** One turn of the counting loop: event i is counted, and erased when it is a repeated end. */
    method CountAt(i: int, cTagNo: int, ghost orig: seq<Event>, ghost keep: seq<bool>) returns (i': int, c: int, kept: bool)
      requires numLocales >= 1 && tagList.Length == numTags + 2 && i < |events|
      requires CountLoop(orig, keep, events, i, tagList[..], numLocales, cTagNo, numTags)
      modifies this`events, tagList
      ensures tagList.Length == numTags + 2 && |events| - i' < old(|events|) - i
      ensures CountLoop(orig, keep + [kept], events, i', tagList[..], numLocales, c, numTags)
    {
      var ev := events[i];
      ghost var ts, s := tagList[..], events;
      CountLoopPre(orig, keep, s, i, ts, numLocales, cTagNo, numTags);
      c, kept := CountEvent(ev, cTagNo);
      CountLoopStep(orig, keep, s, i, ts, numLocales, cTagNo, numTags, tagList[..], c, kept);
      i' := i;
      if !kept {
        i' := EraseAt(i);
        assert events == s[..i] + s[i + 1..] && i' == i - 1;
      }
      if i' < |events| {
        i' := i' + 1;
      }
    }

    /** The event at i leaves the list, and the cursor steps back to the one before it, if any. */
    method EraseAt(i: int) returns (j: int)
      requires 0 <= i < |events|
      modifies this`events
      ensures events == old(events[..i] + events[i + 1..]) && j == (if i != 0 then i - 1 else i)
    {
      events := events[..i] + events[i + 1..];
      j := i;
      if j != 0 {
        j := j - 1;
      }
    }

    /**
     * The task totals of LoadData: every tag counts the tasks of each locale
     * and the largest count, and ALL adds up the tasks of all tags, the main
     * task counted once.
     */
    method TaskTotals()
      requires numLocales >= 1 && tagList.Length == numTags + 2 && numTags >= 0 && AllShaped(tagList[..], numLocales)
      requires tagList[0].maxTasks >= 1
      modifies tagList
      ensures tagList[..] == TotalledTable(old(tagList[..]))
    {
      var n := numLocales;
      ghost var ts := tagList[..];
      ghost var init := ts[0].maxTasks;
      var all := ResetAll(tagList[0], n);
      ResetIsStart(ts[0].locales, ts);
      TasksMaxBelow(init, all.locales);
      var k := 1;
      while k < tagList.Length
        invariant 1 <= k <= tagList.Length && AllSoFar(all, ts[0], ts, k, init)
        invariant tagList[..] == TotalledPrefix(ts, k)
      {
        all := TotalStep(k, all, ts, init);
        k := k + 1;
      }
      AllSoFarDone(all, ts[0], ts);
      TotalledPrefixDone(ts, all);
      tagList[0] := all;
    }

    /** The tag at index k is counted and added into ALL's running totals. */
    method TotalStep(k: int, all: TagData, ghost ts: seq<TagData>, ghost init: int) returns (all': TagData)
      requires 1 <= k < tagList.Length == |ts| && numLocales >= 1 && AllShaped(ts, numLocales)
      requires tagList[..] == TotalledPrefix(ts, k) && AllSoFar(all, ts[0], ts, k, init)
      modifies tagList
      ensures tagList[..] == TotalledPrefix(ts, k + 1) && AllSoFar(all', ts[0], ts, k + 1, init)
    {
      TotalledPrefixNext(ts, k);
      var t;
      t, all' := TotalTag(tagList[k], all, numLocales, init);
      AllSoFarNext(all, all', ts[0], ts, k, init);
      tagList[k] := t;
    }

    /** Before the totals ALL counts only the main task, on locale 0. */
    static method ResetAll(all: TagData, n: nat) returns (all': TagData)
      requires |all.locales| == n >= 1
      ensures all' == all.(locales := ResetPrefix(all.locales, n))
    {
      all' := all.(locales := all.locales[0 := all.locales[0].(numTasks := 1)]);
      assert all'.locales == ResetPrefix(all.locales, 1);
      var l := 1;
      while l < n
        invariant 1 <= l <= n && all' == all.(locales := ResetPrefix(all.locales, l))
      {
        ResetPrefixNext(all.locales, l);
        all' := all'.(locales := all'.locales[l := all'.locales[l].(numTasks := 0)]);
        l := l + 1;
      }
    }

    /**
     * One tag of the totals: its locales count their tasks and its maxTasks
     * becomes the largest count; ALL's locale totals grow by the tag's tasks
     * and ALL's maxTasks follows them.
     */
    static method TotalTag(t: TagData, all: TagData, n: nat, ghost init: int) returns (t': TagData, all': TagData)
      requires |t.locales| == n && |all.locales| == n && all.maxTasks == TasksMax(init, all.locales)
      ensures t' == Totalled(t)
      ensures SumPrefixOk(all', all, t.locales, n, init)
    {
      t' := t.(maxTasks := 0);
      all' := all;
      var l := 0;
      assert all.locales == SumPrefix(all.locales, t.locales, 0);
      while l < n
        invariant 0 <= l <= n && t' == TagPrefix(t, l) && SumPrefixOk(all', all, t.locales, l, init)
      {
        t', all' := TotalLocale(t, all, init, l, t', all');
        l := l + 1;
      }
      assert CountedPrefix(t.locales, n)[..n] == CountedPrefix(t.locales, n) == CountedLocales(t.locales);
    }

    /** One turn of TotalTag's loop: locale l's own count goes into the tag, and is added to ALL's. */
    static method TotalLocale(t: TagData, all: TagData, ghost init: int, l: int, x: TagData, y: TagData)
      returns (x': TagData, y': TagData)
      requires |t.locales| == |all.locales| && 0 <= l < |t.locales|
      requires x == TagPrefix(t, l) && SumPrefixOk(y, all, t.locales, l, init)
      ensures x' == TagPrefix(t, l + 1) && SumPrefixOk(y', all, t.locales, l + 1, init)
    {
      TagPrefixNext(t, l);
      SumPrefixNext2(y, all, t.locales, l, init);
      assert x.locales[l] == t.locales[l];
      var v := |x.locales[l].tasks| + (if l == 0 then 1 else 0);
      x' := SetCount(x, l, v);
      var w := y.locales[l].numTasks + v - (if l == 0 then 1 else 0);
      y' := SetCount(y, l, w);
    }

    /**
     * The line loop of LoadFile: each body line is read, and the event it
     * gives, if any, is offered to the list from the cursor on.
     */
    method MergeLines(rd0: Reader, lines: seq<Line>, c0: nat) returns (rd: Reader)
      requires c0 <= |events|
      modifies this`events, this`numTags
      ensures var (rd', es) := ReadAll(rd0, lines);
              rd == rd' && events == OfferAll(old(events), c0, es).0 && numTags == rd.numTags
    {
      rd := rd0;
      numTags := rd.numTags;
      var c := c0;
      ghost var es: seq<Event> := [];
      var k := 0;
      while k < |lines|
        invariant 0 <= k <= |lines|
        invariant (rd, es) == ReadAll(rd0, lines[..k])
        invariant (events, c) == OfferAll(old(events), c0, es)
        invariant numTags == rd.numTags
      {
        assert lines[..k + 1][..k] == lines[..k];
        var (rd', e) := Read(rd, lines[k]);
        rd := rd';
        numTags := rd.numTags;
        if e.Some? {
          OfferAllSnoc(old(events), c0, es, e.value);
          c := InsertEvent(c, e.value);
          es := es + [e.value];
        }
        k := k + 1;
      }
      assert lines[..k] == lines;
    }

    /**
     * Merge the trace file of locale `index` into the list.  A missing file, a
     * first line that does not scan, or one written for another number of
     * locales or another locale leaves everything unchanged and fails.
     */
    method LoadFile(file: Option<TraceFile>, index: int) returns (ok: bool)
      requires events == [] || events[0].Start?
      modifies this`events, this`numTags
      ensures ok <==> file.Some? && file.value.header.Some?
                      && file.value.header.value.nodes == numLocales && file.value.header.value.nid == index
      ensures !ok ==> events == old(events) && numTags == old(numTags)
      ensures ok ==> var (s, rd) := Loaded(old(events), file.value.header.value, file.value.lines);
                     events == s && numTags == rd.numTags
      ensures events == [] || events[0].Start?
    {
      if file.None? || file.value.header.None? {
        return false;
      }
      var h := file.value.header.value;
      if h.nodes != numLocales || h.nid != index {
        return false;
      }
      var lines := file.value.lines;
      var c := InsertStart(Start(h.start, h.nid));
      var rd := MergeLines(StartReader(h.nid, h.vdbTid), lines, c);
      FilterVdb(h.nid, rd.vdbTids);
      LoadedStartsWithStart(old(events), h, lines);
      ok := true;
    }

    /**
     * LoadData: the name the user picked is a directory holding the trace
     * files or one of the files itself.  The first file's first line gives
     * the number of locales; then every locale's file is merged into the
     * list, and the tag tables are built from it.  The result is 1 on
     * success and 0 on failure; a locale file that is refused also sets
     * numLocales to -1.
     */
    method LoadData(filename: string, fs: FileSystem) returns (r: int, ghost keep: seq<bool>)
      requires name2tag == map[] && uniqueTags && CellOk(mainTask.commSum)
      modifies this, tagList, taskTimeline
      ensures r == 0 || r == 1
      ensures var m := StripSlash(filename);
              m !in fs.dirs && m !in fs.files ==> r == 0
      ensures var full := FirstFileName(filename, StripSlash(filename) in fs.dirs);
              LocalePrefix(full).None? || !(FileAt(fs, full).Some? && FileAt(fs, full).value.header.Some?) ==> r == 0
      ensures var m := StripSlash(filename);
              var full := FirstFileName(filename, m in fs.dirs);
              var first := FileAt(fs, full);
              (m in fs.dirs || m in fs.files) && LocalePrefix(full).Some? && first.Some? && first.value.header.Some?
              ==> var nl := first.value.header.value.nodes;
                  var loads := LoadedUpTo(fs, LocalePrefix(full).value, nl, nl, [], old(numTags));
                  (loads.None? ==> r == 0 && numLocales == -1)
                  && (loads.Some? ==> (r == 1 <==> nl >= 1 && Fits(loads.value.0, nl, loads.value.1)))
                  && (r == 1 ==> loads.Some? && numLocales == nl && numTags == loads.value.1
                                 && Loads(loads.value.0, keep))
      ensures r == 1 ==> Built()
    {
      keep := [];
      var m := StripSlash(filename);
      if m !in fs.dirs && m !in fs.files {
        return 0, keep;
      }
      var full := FirstFileName(filename, m in fs.dirs);
      var prefix := LocalePrefix(full);
      if prefix.None? {
        return 0, keep;
      }
      NewList();
      var first := FileAt(fs, full);
      if first.None? || first.value.header.None? {
        return 0, keep;
      }
      var nl := first.value.header.value.nodes;
      r, keep := LoadAndBuild(fs, prefix.value, nl);
    }

    /**
     * The tail of LoadData once the number of locales nl is known: every
     * locale's file merged into the empty list, then the tables built.
     */
    method LoadAndBuild(fs: FileSystem, prefix: string, nl: int) returns (r: int, ghost keep: seq<bool>)
      requires events == [] && name2tag == map[] && uniqueTags && CellOk(mainTask.commSum)
      modifies this`events, this`numTags, this`numLocales, this`tagList, this`taskTimeline, this`name2tag,
               this`uniqueTags, this`mainTask, this`utagList
      ensures r == 0 || r == 1
      ensures var loads := LoadedUpTo(fs, prefix, nl, nl, [], old(numTags));
              (loads.None? ==> r == 0 && numLocales == -1)
              && (loads.Some? ==> (r == 1 <==> nl >= 1 && Fits(loads.value.0, nl, loads.value.1)))
              && (r == 1 ==> loads.Some? && numLocales == nl && numTags == loads.value.1 && Loads(loads.value.0, keep))
      ensures r == 1 ==> Built()
    {
      keep := [];
      numLocales := nl;
      var ok := LoadLocales(fs, prefix, nl);
      if !ok {
        numLocales := -1;
        return 0, keep;
      }
      r, keep := BuildIfFits(nl);
    }

    /** The tables built from the merged list, unless it names a locale or tag the header does not allow. */
    method BuildIfFits(nl: int) returns (r: int, ghost keep: seq<bool>)
      requires numLocales == nl && (nl >= 1 ==> events != [] && events[0].Start?)
      requires name2tag == map[] && uniqueTags && CellOk(mainTask.commSum)
      modifies this`events, this`tagList, this`taskTimeline, this`name2tag, this`uniqueTags, this`mainTask, this`utagList
      ensures r == 0 || r == 1
      ensures r == 1 <==> nl >= 1 && Fits(old(events), nl, old(numTags))
      ensures r == 1 ==> numLocales == nl && numTags == old(numTags) && Loads(old(events), keep) && Built()
    {
      keep := [];
      if nl < 1 || !Fits(events, nl, numTags) {
        return 0, keep;
      }
      keep := BuildTables();
      r := 1;
    }

    /** The list once the counting pass has erased the end-task records no task took. */
    ghost predicate Loads(loaded: seq<Event>, keep: seq<bool>)
      reads this
    {
      |keep| == |loaded| && events == Select(loaded, keep)
      && forall t :: 0 <= t < |keep| && !keep[t] ==> loaded[t].EndTask?
    }

    /**
     * The tables LoadData leaves: one record per top-level tag after ALL and
     * Start, in list order, ALL's matrix the traffic of the whole list, the
     * timeline pass's invariants, and, when tag names repeat, one merged
     * record per distinct name with name2tag pointing at it.
     */
    ghost predicate Built()
      reads this, tagList, taskTimeline, utagList
    {
      BuiltTables(tagList[..], taskTimeline[..], mainTask, events, numLocales, numTags, uniqueTags, name2tag, utagList[..])
    }

    /**
     * The tables of LoadData over the merged list: fresh tag records and
     * empty timelines, then the counting pass, the task totals, the timeline
     * pass and, when a tag name repeats, the merge of same-named tags.
     */
    method BuildTables() returns (ghost keep: seq<bool>)
      requires numLocales >= 1 && events != [] && events[0].Start? && Fits(events, numLocales, numTags)
      requires name2tag == map[] && uniqueTags && CellOk(mainTask.commSum)
      modifies this`events, this`tagList, this`taskTimeline, this`name2tag, this`uniqueTags, this`mainTask, this`utagList
      ensures numLocales == old(numLocales) && numTags == old(numTags)
      ensures Loads(old(events), keep) && Built()
    {
      keep := CountTables();
      TimelineTables();
      MergeIfRepeated();
    }

    /** After the timeline pass, the merge of same-named tags when a name repeats. */
    method MergeIfRepeated()
      requires numLocales >= 1 && TimedOk(State(numTags - 1), events, numLocales, numTags)
      modifies this`utagList, this`name2tag
      ensures Built()
    {
      ghost var st := State(numTags - 1);
      if !uniqueTags {
        assert st.ts[2..] == tagList[2..];
        MergeUniqueTags();
        MergedBuilt(st, events, numLocales, numTags, name2tag, utagList[..]);
      } else {
        TimedBuilt(st, events, numLocales, numTags, utagList[..]);
      }
    }

    /** The tables once counted and totalled, before the timeline pass. */
    ghost predicate Counted()
      reads this, tagList, taskTimeline
    {
      TotalsOk(tagList[..], events, numLocales, numTags)
      && taskTimeline.Length == numLocales && forall l :: 0 <= l < numLocales ==> taskTimeline[l] == []
    }

    /** Fresh tag records and empty timelines, then the counting pass and the task totals. */
    method CountTables() returns (ghost keep: seq<bool>)
      requires numLocales >= 1 && events != [] && events[0].Start? && Fits(events, numLocales, numTags)
      modifies this`events, this`tagList, this`taskTimeline
      ensures fresh(tagList) && fresh(taskTimeline)
      ensures Loads(old(events), keep) && Counted()
    {
      keep := CountAndTotal();
      var n := numLocales;
      taskTimeline := new seq<Entry>[n](_ => []);
    }

    /** Fresh tag records, the counting pass over them and then the task totals. */
    method CountAndTotal() returns (ghost keep: seq<bool>)
      requires numLocales >= 1 && events != [] && events[0].Start? && Fits(events, numLocales, numTags)
      modifies this`events, this`tagList
      ensures fresh(tagList)
      ensures Loads(old(events), keep) && TotalsOk(tagList[..], events, numLocales, numTags)
    {
      var n := numLocales;
      tagList := new TagData[numTags + 2](_ => FreshTag(n));
      keep := CountPass();
      ghost var counted := tagList[..];
      TaskTotals();
      TotalsKeep(counted, events, n, numTags);
    }

    /** The timeline pass over the counted tables, from an empty name map. */
    method TimelineTables()
      requires Counted() && name2tag == map[] && uniqueTags && CellOk(mainTask.commSum)
      modifies tagList, taskTimeline, this`name2tag, this`uniqueTags, this`mainTask
      ensures TimedOk(State(numTags - 1), events, numLocales, numTags)
    {
      ghost var tt := tagList[..];
      ghost var main := mainTask;
      var c := TimelinePass();
      TimelineKeeps(tt, events, numLocales, numTags, main);
    }

    /** The files of locales 0 .. nl-1 are merged into the list in order, stopping at the first refused. */
    method LoadLocales(fs: FileSystem, prefix: string, nl: int) returns (ok: bool)
      requires events == [] && numLocales == nl
      modifies this`events, this`numTags
      ensures var loads := LoadedUpTo(fs, prefix, nl, nl, [], old(numTags));
              (ok <==> loads.Some?) && (ok ==> loads.value == (events, numTags))
      ensures ok && nl >= 1 ==> events != [] && events[0].Start?
    {
      ghost var nt0 := numTags;
      var i := 0;
      while i < nl
        invariant 0 <= i && (i <= nl || i == 0)
        invariant LoadedUpTo(fs, prefix, nl, i, [], nt0) == Some((events, numTags))
      {
        var okf := LoadNext(fs, prefix, nl, i, nt0);
        if !okf {
          return false;
        }
        i := i + 1;
      }
      LoadedAll(fs, prefix, nl, i, nt0);
      return true;
    }

    /** Locale i's file is merged in, or the run fails there. */
    method LoadNext(fs: FileSystem, prefix: string, nl: int, i: nat, ghost nt0: int) returns (ok: bool)
      requires numLocales == nl && i < nl && LoadedUpTo(fs, prefix, nl, i, [], nt0) == Some((events, numTags))
      requires events == [] || events[0].Start?
      modifies this`events, this`numTags
      ensures ok ==> LoadedUpTo(fs, prefix, nl, i + 1, [], nt0) == Some((events, numTags))
      ensures !ok ==> LoadedUpTo(fs, prefix, nl, nl, [], nt0).None?
      ensures events == [] || events[0].Start?
    {
      var f := FileAt(fs, LocaleFileName(prefix, i));
      LoadedUpToNext(fs, prefix, nl, i, nt0, events, numTags);
      ok := LoadFile(f, i);
    }

    /**
     * getTaskData: the task with this id on locale l, looked for in the main
     * task, then in tag tagNo, then in every tag from Start on.
     */
    method GetTaskData(l: int, id: int, tagNo: int) returns (r: TaskRef)
      requires numLocales >= 1 && 0 <= numTags && tagList.Length == numTags + 2
      requires AllShaped(tagList[..], numLocales) && 0 <= l < numLocales
      requires tagNo == TagALL || TagStart <= tagNo < numTags
      ensures r == FindTask(tagList[..], numLocales, numTags, l, id, tagNo)
    {
      if l == 0 && id == 1 {
        return MainTask;
      }
      if tagNo != TagALL && id in tagList[tagNo + 2].locales[l].tasks {
        return InTag(tagNo + 2);
      }
      var curTag := TagStart;
      while curTag < numTags
        invariant TagStart <= curTag <= numTags
        invariant ScanTasks(tagList[..], numLocales, curTag + 2, numTags + 2, l, id)
                  == ScanTasks(tagList[..], numLocales, 1, numTags + 2, l, id)
      {
        if id in tagList[curTag + 2].locales[l].tasks {
          return InTag(curTag + 2);
        }
        curTag := curTag + 1;
      }
      return Untracked;
    }

    /** Look backwards along locale l's timeline for the begin of task id. */
    method FindBegin(l: int, id: int) returns (found: bool)
      requires 0 <= l < taskTimeline.Length
      ensures found <==> TlBegin(id) in taskTimeline[l]
    {
      var tl := taskTimeline[l];
      var i := |tl|;
      while i > 0
        invariant 0 <= i <= |tl| && TlBegin(id) !in tl[i..]
      {
        if tl[i - 1].TlBegin? && tl[i - 1].taskId == id {
          return true;
        }
        i := i - 1;
      }
      return false;
    }

    /** One event of the timeline pass, at tag number c; returns the new tag number. */
    method TimelineEvent(ev: Event, c: int) returns (c': int)
      requires numLocales >= 1 && Steppable(State(c), numLocales, numTags, ev)
      modifies tagList, taskTimeline, this`name2tag, this`uniqueTags, this`mainTask
      ensures State(c') == TimelineStep(old(State(c)), numLocales, numTags, ev)
    {
      c' := c;
      match ev {
        case Tag(_, node, _, name, _) =>
          c' := TimelineTag(node, name, c);
        case BeginTask(_, node, id) =>
          TimelineBegin(node, id, c);
        case EndTask(_, node, id) =>
          TimelineEnd(node, id, c);
        case Fork(_, node, _, _, _, _, inTask) =>
          ChargeTask(node, inTask, ev, Forked, 0, c);
        case Comm(_, _, src, dst, _, dataLen, isGet, inTask, _, _) =>
          ChargeTask(if isGet then dst else src, inTask, ev, if isGet then Get else Put, dataLen, c);
        case _ =>
      }
    }

    /**
     * A tag record on locale l: locale 0 moves to the next tag and enters its
     * name; the tag goes on the timeline and takes over the previous tag's
     * running count there.
     */
    method TimelineTag(l: int, name: string, c: int) returns (c': int)
      requires numLocales >= 1 && Fit(State(c), numLocales, numTags) && 0 <= l < numLocales
      requires c + 2 < tagList.Length && (l == 0 ==> c + 3 < tagList.Length)
      modifies tagList, taskTimeline, this`name2tag, this`uniqueTags
      ensures State(c') == TagTimeline(old(State(c)), numLocales, numTags, l, name)
    {
      c' := c;
      if l == 0 {
        c' := c' + 1;
        if name in name2tag {
          uniqueTags := false;
        } else {
          name2tag := name2tag[name := c'];
        }
      }
      EnterTag(l, c');
    }

    /** Tag c enters locale l's timeline and takes over the running count of the tag before it there. */
    method EnterTag(l: int, c: int)
      requires numLocales >= 1 && AllShaped(tagList[..], numLocales) && taskTimeline.Length == numLocales
      requires 0 <= l < numLocales && 0 <= c + 1 && c + 2 < tagList.Length
      modifies tagList, taskTimeline
      ensures var t := old(tagList[c + 2]);
              var run := old(tagList[c + 1].locales[l].runConc);
              tagList[..] == old(tagList[..])[c + 2 := SetConc(t, numLocales, l, run, run, Max(t.maxConc, run))]
      ensures taskTimeline[..] == old(taskTimeline[..])[l := old(taskTimeline[l]) + [TlTag(c)]]
    {
      taskTimeline[l] := taskTimeline[l] + [TlTag(c)];
      var t := tagList[c + 2];
      var run := tagList[c + 1].locales[l].runConc;
      var tagPeak := t.maxConc;
      if run > tagPeak {
        tagPeak := run;
      }
      tagList[c + 2] := SetConc(t, numLocales, l, run, run, tagPeak);
    }

    /**
     * A begin-task record whose task the current tag holds: it goes on the
     * timeline, one more task runs, and a new peak is carried up to the tag
     * and to ALL.
     */
    method TimelineBegin(l: int, id: int, c: int)
      requires numLocales >= 1 && Fit(State(c), numLocales, numTags) && 0 <= l < numLocales && c + 2 < tagList.Length
      modifies tagList, taskTimeline
      ensures State(c) == BeginTimeline(old(State(c)), numLocales, numTags, l, id)
    {
      var cur := c + 2;
      var t := tagList[cur];
      var d := t.locales[l];
      if id in d.tasks {
        taskTimeline[l] := taskTimeline[l] + [TlBegin(id)];
        var run := d.runConc + 1;
        var peak := d.maxConc;
        var tagPeak := t.maxConc;
        if run > peak {
          peak := run;
          var a := tagList[0];
          var allLocPeak := a.locales[l].maxConc;
          if peak > allLocPeak {
            allLocPeak := peak;
          }
          var allPeak := a.maxConc;
          if peak > tagPeak {
            tagPeak := peak;
            if tagPeak > allPeak {
              allPeak := tagPeak;
            }
          }
          tagList[cur] := SetConc(t, numLocales, l, run, peak, tagPeak);
          tagList[0] := SetConc(a, numLocales, l, a.locales[l].runConc, allLocPeak, allPeak);
        } else {
          tagList[cur] := SetConc(t, numLocales, l, run, peak, tagPeak);
        }
      }
    }

    /** An end-task record whose task began on this timeline: the end goes on it and one task fewer runs. */
    method TimelineEnd(l: int, id: int, c: int)
      requires numLocales >= 1 && Fit(State(c), numLocales, numTags) && 0 <= l < numLocales && c + 2 < tagList.Length
      modifies tagList, taskTimeline
      ensures State(c) == EndTimeline(old(State(c)), numLocales, numTags, l, id)
    {
      var found := FindBegin(l, id);
      if found {
        taskTimeline[l] := taskTimeline[l] + [TlEnd(id)];
        var t := tagList[c + 2];
        tagList[c + 2] := SetConc(t, numLocales, l, t.locales[l].runConc - 1, t.locales[l].maxConc, t.maxConc);
      }
    }

    /** A fork or communication is added to the task getTaskData finds for it, if any. */
    method ChargeTask(l: int, id: int, ev: Event, op: Transfer, size: int, c: int)
      requires numLocales >= 1 && Fit(State(c), numLocales, numTags) && 0 <= l < numLocales
      modifies tagList, this`mainTask
      ensures State(c) == ChargeEvent(old(State(c)), numLocales, numTags, l, id, ev, op, size)
    {
      var r := GetTaskData(l, id, TagALL);
      match r {
        case MainTask =>
          mainTask := Charge(mainTask, ev, op, size);
        case InTag(k) =>
          FindTaskSpec(tagList[..], numLocales, numTags, l, id, TagALL);
          var d := tagList[k].locales[l].tasks[id];
          tagList[k] := UpdateTask(tagList[k], numLocales, l, id, Charge(d, ev, op, size));
        case Untracked =>
      }
    }

    /**
     * The timeline pass of LoadData: ALL and Start peak at the main task,
     * then every event of the list is taken in order.
     */
    method TimelinePass() returns (cTagNo: int)
      requires numLocales >= 1 && 0 <= numTags && tagList.Length == numTags + 2 && AllShaped(tagList[..], numLocales)
      requires taskTimeline.Length == numLocales && forall l :: 0 <= l < numLocales ==> taskTimeline[l] == []
      requires Fits(events, numLocales, numTags)
      modifies tagList, taskTimeline, this`name2tag, this`uniqueTags, this`mainTask
      ensures State(cTagNo) == TimelineFold(TimelineStart(old(tagList[..]), numLocales, old(name2tag), old(uniqueTags),
                                                          old(mainTask)), numLocales, numTags, events)
      ensures cTagNo == numTags - 1
    {
      ghost var st0 := TimelineStart(tagList[..], numLocales, name2tag, uniqueTags, mainTask);
      cTagNo := TimelineSeed();
      cTagNo := TimelineLoop(st0, cTagNo);
    }

    /** ALL and Start peak at the main task; the timelines are still empty. */
    method TimelineSeed() returns (cTagNo: int)
      requires numLocales >= 1 && 0 <= numTags && tagList.Length == numTags + 2 && AllShaped(tagList[..], numLocales)
      requires taskTimeline.Length == numLocales && forall l :: 0 <= l < numLocales ==> taskTimeline[l] == []
      modifies tagList
      ensures State(cTagNo) == TimelineStart(old(tagList[..]), numLocales, name2tag, uniqueTags, mainTask)
    {
      tagList[0] := tagList[0].(maxConc := 1);
      var t := tagList[1];
      tagList[1] := SetConc(t, numLocales, 0, t.locales[0].runConc, 1, 1);
      cTagNo := TagStart;
      assert taskTimeline[..] == seq(numLocales, _ => []);
    }

    /** Every event of the list taken in order, from the seeded state st0. */
    method TimelineLoop(ghost st0: TState, c0: int) returns (cTagNo: int)
      requires numLocales >= 1 && Fits(events, numLocales, numTags)
      requires State(c0) == st0 && st0.c == TagStart && Fit(st0, numLocales, numTags)
      modifies tagList, taskTimeline, this`name2tag, this`uniqueTags, this`mainTask
      ensures State(cTagNo) == TimelineFold(st0, numLocales, numTags, events)
    {
      cTagNo := c0;
      var i := 0;
      while i < |events|
        invariant 0 <= i <= |events|
        invariant Runnable(st0, numLocales, numTags, events[..i])
        invariant State(cTagNo) == TimelineFold(st0, numLocales, numTags, events[..i])
      {
        cTagNo := TimelineAt(st0, i, cTagNo);
        i := i + 1;
      }
      assert events[..i] == events;
    }

    /** One round of the timeline loop: the event at position i, after the events before it. */
    method TimelineAt(ghost st0: TState, i: int, c: int) returns (c': int)
      requires numLocales >= 1 && Fits(events, numLocales, numTags) && 0 <= i < |events| && st0.c == TagStart
      requires Runnable(st0, numLocales, numTags, events[..i])
      requires State(c) == TimelineFold(st0, numLocales, numTags, events[..i])
      modifies tagList, taskTimeline, this`name2tag, this`uniqueTags, this`mainTask
      ensures Runnable(st0, numLocales, numTags, events[..i + 1])
      ensures State(c') == TimelineFold(st0, numLocales, numTags, events[..i + 1])
    {
      TopTagsPrefix(events, i + 1);
      assert events[..i + 1][..i] == events[..i];
      c' := TimelineEvent(events[i], c);
    }

    /**
     * The merge of tags that share a name: one record per distinct name is
     * allocated; walking the tags after ALL and Start in order, a name met for
     * the first time takes the next record and name2tag is pointed at it, and
     * every tag is merged into its name's record.
     */
    method MergeUniqueTags()
      requires numLocales >= 1 && 0 <= numTags && tagList.Length == numTags + 2
      requires AllShaped(tagList[..], numLocales) && name2tag == FirstIndex(Names(tagList[2..]))
      modifies this`utagList, this`name2tag
      ensures fresh(utagList)
      ensures utagList[..] == UniqueTable(tagList[2..], numLocales)
      ensures name2tag == UniqueIndex(Names(tagList[2..]))
    {
      AllShapedDrop(tagList[..], numLocales, 2);
      UniquesCount(Names(tagList[2..]));
      var size := |name2tag|;
      var n := numLocales;
      utagList := NewUniqueTable(size, n);
      MergeFoldStart(tagList[2..], n, size, name2tag, utagList[..]);
      MergeLoop(tagList[2..], size, n, 0, 0);
    }

    /** A table of size empty unique tags over n locales. */
    static method NewUniqueTable(size: nat, n: nat) returns (a: array<TagData>)
      ensures fresh(a) && a[..] == seq(size, _ => EmptyTag(n))
    {
      a := new TagData[size](_ => EmptyTag(n));
    }

    /**
     * The merge loop from tag k0 on, with c0 records taken so far: every
     * later tag after ALL and Start, in order, merged into its name's record.
     */
    method MergeLoop(ghost ts: seq<TagData>, ghost size: nat, ghost n: nat, k0: int, c0: int)
      requires n == numLocales >= 1 && 0 <= k0 <= numTags && tagList.Length == numTags + 2 && tagList[2..] == ts
      requires utagList != tagList && AllShaped(ts, n) && size == |Uniques(Names(ts))|
      requires MergeProgress(name2tag, c0, utagList[..]) == MergeFold(ts, n, size, k0)
      modifies utagList, this`name2tag
      ensures utagList[..] == UniqueTable(ts, n)
      ensures name2tag == UniqueIndex(Names(ts))
    {
      var nextUtag := c0;
      var k := k0;
      while k < numTags
        invariant k0 <= k <= numTags
        invariant MergeProgress(name2tag, nextUtag, utagList[..]) == MergeFold(ts, n, size, k)
      {
        assert tagList[k + 2] == ts[k];
        nextUtag := MergeNext(k, nextUtag, ts, size, n);
        k := k + 1;
      }
      MergeFoldExit(ts, n, size, name2tag, nextUtag, utagList[..]);
    }

    /** One turn of the merge loop, against the fold it follows. */
    method MergeNext(k: int, nextUtag: int, ghost ts: seq<TagData>, ghost size: nat, ghost n: nat) returns (nextUtag': int)
      requires n == numLocales >= 1 && 0 <= k < |ts| && k + 2 < tagList.Length && tagList[k + 2] == ts[k] && utagList != tagList
      requires AllShaped(ts, n) && size == |Uniques(Names(ts))|
      requires MergeProgress(name2tag, nextUtag, utagList[..]) == MergeFold(ts, n, size, k)
      modifies utagList, this`name2tag
      ensures MergeProgress(name2tag, nextUtag', utagList[..]) == MergeFold(ts, n, size, k + 1)
    {
      ghost var st := MergeProgress(name2tag, nextUtag, utagList[..]);
      MergeFoldOk(ts, n, size, k, st);
      nextUtag' := MergeStep(k + 2, nextUtag);
    }

    /** The tag at index ix is merged into the record of its name, which a new name first takes. */
    method MergeStep(ix: int, nextUtag: int) returns (nextUtag': int)
      requires 0 <= ix < tagList.Length && utagList != tagList && numLocales >= 1
      requires MergeOk(name2tag, nextUtag, tagList[ix], utagList[..], numLocales)
      modifies utagList, this`name2tag
      ensures name2tag == MergeMap(old(name2tag), nextUtag, tagList[ix].name)
      ensures nextUtag' == MergeCount(old(name2tag), nextUtag, tagList[ix].name)
      ensures utagList[..] == MergeRecords(old(utagList[..]), old(name2tag), nextUtag, tagList[ix], numLocales)
    {
      var tag := tagList[ix];
      nextUtag' := nextUtag;
      var tTag := name2tag[tag.name];
      if tTag >= nextUtag' {
        name2tag := name2tag[tag.name := nextUtag'];
        tTag := nextUtag';
        nextUtag' := nextUtag' + 1;
        utagList[tTag] := utagList[tTag].(name := tag.name);
      }
      var merged := MergeTag(utagList[tTag], tag, numLocales);
      utagList[tTag] := merged;
    }

    /**
     * One tag merged into a unique tag, locale by locale: task counts and
     * matrix cells are added, concurrency peaks take the larger value, and
     * the tag maxima follow each merged value.
     */
    static method MergeTag(a: TagData, b: TagData, n: nat) returns (r: TagData)
      requires Shape(a, n) && Shape(b, n)
      ensures r == MergeInto(a, b, n)
    {
      r := MergeRows(a, b, n);
      MergedRowsDone(a, b, n);
    }

    /** The row loop of MergeTag: every locale of b merged in, in order. */
    static method MergeRows(a: TagData, b: TagData, n: nat) returns (r: TagData)
      requires Shape(a, n) && Shape(b, n)
      ensures r == MergedRows(a, MergeLocales(a.locales, b.locales), MergeCells(a.comms, b.comms, n), n)
    {
      ghost var locs := MergeLocales(a.locales, b.locales);
      ghost var cells := MergeCells(a.comms, b.comms, n);
      r := a;
      MergedRowsStart(a, b, n);
      var il := 0;
      while il < n
        invariant 0 <= il <= n
        invariant r == MergedRows(a, locs, cells, il)
      {
        r := MergeLocaleRow(a, b, n, il, r);
        il := il + 1;
      }
    }

    /** Locale il of tag b merged into the unique tag r: its counts, its peak and its matrix row. */
    static method MergeLocaleRow(ghost a: TagData, b: TagData, n: nat, il: nat, r: TagData) returns (r': TagData)
      requires Shape(a, n) && Shape(b, n) && il < n
      requires r == MergedRows(a, MergeLocales(a.locales, b.locales), MergeCells(a.comms, b.comms, n), il)
      ensures r' == MergedRows(a, MergeLocales(a.locales, b.locales), MergeCells(a.comms, b.comms, n), il + 1)
    {
      ghost var locs := MergeLocales(a.locales, b.locales);
      ghost var cells := MergeCells(a.comms, b.comms, n);
      MergedRowsNext(a, b, n, il);
      MergeCellsRow(a.comms, b.comms, n, il);
      var d := r.locales[il];
      d := d.(numTasks := d.numTasks + b.locales[il].numTasks);
      if d.maxConc < b.locales[il].maxConc {
        d := d.(maxConc := b.locales[il].maxConc);
      }
      assert d == locs[il];
      var maxTasks, maxConc := r.maxTasks, r.maxConc;
      if d.numTasks > maxTasks {
        maxTasks := d.numTasks;
      }
      if d.maxConc > maxConc {
        maxConc := d.maxConc;
      }
      var row, maxComms, maxSize := MergeRow(r.comms[il], b.comms[il], n, r.maxComms, r.maxSize);
      assert row == cells[il];
      r' := r.(locales := r.locales[il := d], comms := r.comms[il := row], maxComms := maxComms, maxSize := maxSize,
               maxTasks := maxTasks, maxConc := maxConc);
    }

    /** One matrix row merged cell by cell, the comms and size maxima following each merged cell. */
    static method MergeRow(row: seq<CommData>, other: seq<CommData>, n: nat, maxComms: int, maxSize: int)
      returns (row': seq<CommData>, maxComms': int, maxSize': int)
      requires |row| == n && |other| == n
      ensures row' == MergeRowOf(row, other)
      ensures maxComms' == RowMax(maxComms, row', false) && maxSize' == RowMax(maxSize, row', true)
    {
      row', maxComms', maxSize' := row, maxComms, maxSize;
      var ic := 0;
      while ic < n
        invariant 0 <= ic <= n && |row'| == n
        invariant forall j :: 0 <= j < ic ==> row'[j] == AddComm(row[j], other[j])
        invariant forall j :: ic <= j < n ==> row'[j] == row[j]
        invariant maxComms' == RowMax(maxComms, row'[..ic], false) && maxSize' == RowMax(maxSize, row'[..ic], true)
      {
        ghost var prev := row';
        var c := AddComm(row'[ic], other[ic]);
        row' := row'[ic := c];
        RowMaxStep(maxComms, row', ic, false);
        RowMaxStep(maxSize, row', ic, true);
        assert row'[..ic] == prev[..ic];
        if c.numComms > maxComms' {
          maxComms' := c.numComms;
        }
        if c.commSize > maxSize' {
          maxSize' := c.commSize;
        }
        ic := ic + 1;
      }
      assert row'[..n] == row';
      assert row' == MergeRowOf(row, other);
    }
  }
}
