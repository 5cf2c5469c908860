/**
 * What the aggregation passes of DataModel::LoadData compute, stated on
 * values: the tag names as locale 0 recorded them, the name-to-tag map the
 * timeline pass builds, the unique tag names, and the merge of the tags that
 * share a name.
 */
module LoadPasses {
  import opened Wrappers
  import opened TraceEvent
  import opened TagStats

  /** Tags are numbered by locale 0's tag records. */
  predicate IsTopTag(e: Event)
  {
    e.Tag? && e.node == 0
  }

  /** The names of locale 0's tag records in list order: tag number t is the t-th. */
  function TopTags(s: seq<Event>): (r: seq<string>)
    ensures |r| <= |s|
  {
    if s == [] then []
    else TopTags(s[..|s| - 1]) + (if IsTopTag(s[|s| - 1]) then [s[|s| - 1].name] else [])
  }

  lemma {:induction false} TopTagsAppend(a: seq<Event>, b: seq<Event>)
    ensures TopTags(a + b) == TopTags(a) + TopTags(b)
    decreases |b|
  {
    if b == [] {
      assert a + b == a;
    } else {
      assert (a + b)[..|a + b| - 1] == a + b[..|b| - 1];
      TopTagsAppend(a, b[..|b| - 1]);
    }
  }

  /** Walking the list one event further adds that event's name when it is a locale-0 tag. */
  lemma TopTagsStep(s: seq<Event>, i: nat)
    requires i < |s|
    ensures TopTags(s[..i + 1]) == TopTags(s[..i]) + (if IsTopTag(s[i]) then [s[i].name] else [])
  {
    assert s[..i + 1][..i] == s[..i];
  }

  /** Erasing an event that is not a locale-0 tag keeps the tag names. */
  lemma TopTagsErase(s: seq<Event>, i: nat)
    requires i < |s| && !IsTopTag(s[i])
    ensures TopTags(s[..i] + s[i + 1..]) == TopTags(s)
  {
    var a, e, b := s[..i], s[i], s[i + 1..];
    assert s == a + [e] + b;
    TopTagsSkipMid(a, e, b);
  }

  /** Dropping a record that is not a top tag from the middle leaves the top tags alone. */
  lemma TopTagsSkipMid(a: seq<Event>, e: Event, b: seq<Event>)
    requires !IsTopTag(e)
    ensures TopTags(a + b) == TopTags(a + [e] + b)
  {
    TopTagsSkip(a, e);
    TopTagsAppend(a, b);
    TopTagsAppend(a + [e], b);
  }

  /** An event that is not a locale-0 tag adds no name. */
  lemma TopTagsSkip(a: seq<Event>, e: Event)
    requires !IsTopTag(e)
    ensures TopTags(a + [e]) == TopTags(a)
  {
    assert (a + [e])[..|a + [e]| - 1] == a;
  }

  /** The names seen so far never outnumber those of the whole list. */
  lemma TopTagsPrefix(s: seq<Event>, i: nat)
    requires i <= |s|
    ensures |TopTags(s[..i])| <= |TopTags(s)|
    ensures TopTags(s[..i]) == TopTags(s)[..|TopTags(s[..i])|]
  {
    TopTagsAppend(s[..i], s[i..]);
    assert s == s[..i] + s[i..];
  }

  /**
   * A list the statistics tables can hold: every locale id names one of the
   * n locales, and locale 0 recorded exactly numTags tags.
   */
  predicate Fits(s: seq<Event>, n: int, numTags: int)
  {
    (forall i :: 0 <= i < |s| ==> InRange(s[i], n))
    && |TopTags(s)| == numTags
  }

  predicate InRange(e: Event, n: int)
  {
    0 <= e.node < n && ((e.Comm? || e.Fork?) ==> 0 <= e.src < n && 0 <= e.dst < n)
  }

  /** The ALL tag when a start record arrives: named, opened on the locale, one running task on locale 0. */
  function SeedAll(t: TagData, n: nat, l: int): (r: TagData)
    requires Shape(t, n) && 0 <= l < n
    ensures Shape(r, n) && r.name == "ALL" && r.locales[l].hasRef && r.locales[0].maxConc == 1
    ensures forall k :: 0 <= k < n ==> r.locales[k].tasks == t.locales[k].tasks
                                       && r.locales[k].runConc == t.locales[k].runConc
    ensures forall k :: 0 < k < n ==> r.locales[k].maxConc == t.locales[k].maxConc
    ensures r.maxConc == t.maxConc && r.maxTasks == t.maxTasks && r.comms == t.comms
    ensures TagOk(t, n) ==> TagOk(r, n)
  {
    var t1 := OpenLocale(t, n, l).(name := "ALL");
    SetLocale(t1, n, 0, t1.locales[0].(maxConc := 1))
  }

  /** The Start tag when a start record arrives: the main task runs on locale 0. */
  function SeedStart(t: TagData, n: nat, l: int): (r: TagData)
    requires Shape(t, n) && 0 <= l < n
    ensures Shape(r, n) && r.name == "Start" && r.locales[l].hasRef
    ensures r.locales[0].runConc == 1 && r.locales[0].maxConc == 1
    ensures forall k :: 0 <= k < n ==> r.locales[k].tasks == t.locales[k].tasks
    ensures forall k :: 0 < k < n ==> r.locales[k].maxConc == t.locales[k].maxConc
                                      && r.locales[k].runConc == t.locales[k].runConc
    ensures r.maxConc == t.maxConc && r.maxTasks == t.maxTasks && r.comms == t.comms
    ensures TagOk(t, n) ==> TagOk(r, n)
  {
    var t1 := OpenLocale(t, n, l).(name := "Start");
    SetLocale(t1, n, 0, t1.locales[0].(runConc := 1, maxConc := 1))
  }

  /** name2tag as the timeline pass leaves it: each name to the first tag number that carries it. */
  function FirstIndex(ns: seq<string>): (m: map<string, int>)
    ensures forall x :: x in m <==> x in ns
    ensures forall x :: x in m ==> 0 <= m[x] < |ns| && ns[m[x]] == x
    ensures forall x, j :: x in m && 0 <= j < m[x] ==> ns[j] != x
  {
    if ns == [] then map[]
    else
      var m := FirstIndex(ns[..|ns| - 1]);
      var x := ns[|ns| - 1];
      assert ns == ns[..|ns| - 1] + [x];
      if x in m then m else m[x := |ns| - 1]
  }

  /** One more name enters the first-index map only when it is new, at its position. */
  lemma FirstIndexSnoc(ns: seq<string>, x: string)
    ensures FirstIndex(ns + [x]) == if x in ns then FirstIndex(ns) else FirstIndex(ns)[x := |ns|]
  {
    var ns' := ns + [x];
    assert ns' != [];
    assert ns'[..|ns'| - 1] == ns;
    assert ns'[|ns'| - 1] == x;
  }

  predicate Distinct(ns: seq<string>)
  {
    forall i, j :: 0 <= i < j < |ns| ==> ns[i] != ns[j]
  }

  /** The distinct names in order of first appearance: the unique tags. */
  function Uniques(ns: seq<string>): (r: seq<string>)
    ensures Distinct(r)
    ensures forall x :: x in r <==> x in ns
    ensures |r| <= |ns|
  {
    if ns == [] then []
    else
      var u := Uniques(ns[..|ns| - 1]);
      var x := ns[|ns| - 1];
      assert ns == ns[..|ns| - 1] + [x];
      if x in u then u else u + [x]
  }

  /** The name map holds one entry per unique name, which is how many unique tags are allocated. */
  lemma {:induction false} UniquesCount(ns: seq<string>)
    ensures |FirstIndex(ns)| == |Uniques(ns)|
    decreases |ns|
  {
    if ns != [] {
      UniquesCount(ns[..|ns| - 1]);
    }
  }

  /** Merging changes nothing exactly when the names are already distinct. */
  lemma {:induction false} UniquesOfDistinct(ns: seq<string>)
    ensures Uniques(ns) == ns <==> Distinct(ns)
    decreases |ns|
  {
    if ns != [] {
      var p := ns[..|ns| - 1];
      UniquesOfDistinct(p);
      if Distinct(ns) {
        assert Distinct(p);
        assert ns[|ns| - 1] !in p;
      }
    }
  }

  /** Position of a name among the unique names. */
  function IndexIn(u: seq<string>, x: string): (i: nat)
    requires x in u
    ensures i < |u| && u[i] == x
  {
    if u[|u| - 1] == x then |u| - 1
    else
      assert u == u[..|u| - 1] + [u[|u| - 1]];
      IndexIn(u[..|u| - 1], x)
  }

  /** The unique names of a longer list extend those of its prefix. */
  lemma {:induction false} UniquesGrow(ns: seq<string>, j: nat)
    requires j <= |ns|
    ensures |Uniques(ns[..j])| <= |Uniques(ns)|
    ensures Uniques(ns[..j]) == Uniques(ns)[..|Uniques(ns[..j])|]
    decreases |ns| - j
  {
    if j < |ns| {
      UniquesGrow(ns, j + 1);
      assert ns[..j + 1][..j] == ns[..j];
    } else {
      assert ns[..j] == ns;
    }
  }

  /** Summed counters of two matrix cells. */
  function AddComm(a: CommData, b: CommData): (r: CommData)
    ensures CellOk(a) && CellOk(b) ==> CellOk(r)
    ensures r.numComms == a.numComms + b.numComms && r.commSize == a.commSize + b.commSize
  {
    CommData(a.numComms + b.numComms, a.numGets + b.numGets, a.numPuts + b.numPuts,
             a.numForks + b.numForks, a.commSize + b.commSize)
  }

  /** Locale data summed: task counts add up and each concurrency peak is the larger one. */
  function MergeLocales(a: seq<LocaleData>, b: seq<LocaleData>): (r: seq<LocaleData>)
    requires |a| == |b|
    ensures |r| == |a|
    ensures forall l :: 0 <= l < |a| ==>
              r[l] == a[l].(numTasks := a[l].numTasks + b[l].numTasks, maxConc := Max(a[l].maxConc, b[l].maxConc))
  {
    seq(|a|, l requires 0 <= l < |a| =>
          a[l].(numTasks := a[l].numTasks + b[l].numTasks, maxConc := Max(a[l].maxConc, b[l].maxConc)))
  }

  /** Communication matrices summed cell by cell. */
  function MergeCells(a: seq<seq<CommData>>, b: seq<seq<CommData>>, n: nat): (r: seq<seq<CommData>>)
    requires |a| == n && |b| == n && forall i :: 0 <= i < n ==> |a[i]| == n && |b[i]| == n
    ensures |r| == n && forall i :: 0 <= i < n ==> |r[i]| == n
    ensures forall i, j :: 0 <= i < n && 0 <= j < n ==> r[i][j] == AddComm(a[i][j], b[i][j])
  {
    seq(n, i requires 0 <= i < n => MergeRowOf(a[i], b[i]))
  }

  /** Row i of the summed matrices is the sum of their rows i. */
  lemma MergeCellsRow(a: seq<seq<CommData>>, b: seq<seq<CommData>>, n: nat, i: int)
    requires |a| == n && |b| == n && forall i :: 0 <= i < n ==> |a[i]| == n && |b[i]| == n
    requires 0 <= i < n
    ensures MergeCells(a, b, n)[i] == MergeRowOf(a[i], b[i])
  {
  }

  /** Two matrix rows summed cell by cell. */
  function MergeRowOf(a: seq<CommData>, b: seq<CommData>): (r: seq<CommData>)
    requires |a| == |b|
    ensures |r| == |a| && forall j :: 0 <= j < |a| ==> r[j] == AddComm(a[j], b[j])
  {
    seq(|a|, j requires 0 <= j < |a| => AddComm(a[j], b[j]))
  }

  /** What maxComms (or, with bySize, maxSize) compares. */
  function Measure(c: CommData, bySize: bool): int
  {
    if bySize then c.commSize else c.numComms
  }

  /** The largest of `init` and the measures of the cells of `row`. */
  function RowMax(init: int, row: seq<CommData>, bySize: bool): (r: int)
    ensures init <= r && forall j :: 0 <= j < |row| ==> Measure(row[j], bySize) <= r
  {
    if row == [] then init else Max(RowMax(init, row[..|row| - 1], bySize), Measure(row[|row| - 1], bySize))
  }

  /** The largest of `init` and the measures of all cells of the matrix. */
  function CellsMax(init: int, rows: seq<seq<CommData>>, bySize: bool): (r: int)
    ensures init <= r
    ensures forall i, j :: 0 <= i < |rows| && 0 <= j < |rows[i]| ==> Measure(rows[i][j], bySize) <= r
  {
    if rows == [] then init else RowMax(CellsMax(init, rows[..|rows| - 1], bySize), rows[|rows| - 1], bySize)
  }

  /** The largest of `init` and the task counts of the locales. */
  function TasksMax(init: int, ls: seq<LocaleData>): (r: int)
    ensures init <= r && forall l :: 0 <= l < |ls| ==> ls[l].numTasks <= r
  {
    if ls == [] then init else Max(TasksMax(init, ls[..|ls| - 1]), ls[|ls| - 1].numTasks)
  }

  /** The largest of `init` and the concurrency peaks of the locales. */
  function ConcMax(init: int, ls: seq<LocaleData>): (r: int)
    ensures init <= r && forall l :: 0 <= l < |ls| ==> ls[l].maxConc <= r
  {
    if ls == [] then init else Max(ConcMax(init, ls[..|ls| - 1]), ls[|ls| - 1].maxConc)
  }

  /**
   * One tag's data added into a unique tag: task counts and matrix cells are
   * summed, concurrency peaks take the larger value, and the tag maxima are
   * raised to the merged values.  Reference and running fields are ignored.
   */
  function MergeInto(a: TagData, b: TagData, n: nat): (r: TagData)
    requires Shape(a, n) && Shape(b, n)
    ensures Shape(r, n) && r.name == a.name
  {
    var locs := MergeLocales(a.locales, b.locales);
    var cells := MergeCells(a.comms, b.comms, n);
    TagData(a.name, locs, cells, CellsMax(a.maxComms, cells, false), CellsMax(a.maxSize, cells, true),
            TasksMax(a.maxTasks, locs), ConcMax(a.maxConc, locs))
  }

  /**
   * The merged tag: task counts and cells are sums, peaks the larger value,
   * and the tag maxima bound the merged values; merging keeps the tag
   * invariants.
   */
  lemma MergeIntoFacts(a: TagData, b: TagData, n: nat)
    requires Shape(a, n) && Shape(b, n)
    ensures var r := MergeInto(a, b, n);
            && (forall l :: 0 <= l < n ==>
                  r.locales[l].numTasks == a.locales[l].numTasks + b.locales[l].numTasks
                  && r.locales[l].maxConc == Max(a.locales[l].maxConc, b.locales[l].maxConc)
                  && r.locales[l].tasks == a.locales[l].tasks)
            && (forall i, j :: 0 <= i < n && 0 <= j < n ==> r.comms[i][j] == AddComm(a.comms[i][j], b.comms[i][j]))
            && a.maxTasks <= r.maxTasks && (forall l :: 0 <= l < n ==> r.locales[l].numTasks <= r.maxTasks)
            && a.maxConc <= r.maxConc && (forall l :: 0 <= l < n ==> r.locales[l].maxConc <= r.maxConc)
            && (TagOk(a, n) && TagOk(b, n) ==> TagOk(r, n))
  {
  }

  predicate AllShaped(ts: seq<TagData>, n: nat)
  {
    forall k :: 0 <= k < |ts| ==> Shape(ts[k], n)
  }

  /** A fresh unique tag for name x. */
  function Named(x: string, n: nat): (r: TagData)
    ensures TagOk(r, n) && r.name == x
  {
    EmptyTag(n).(name := x)
  }

  /** The unique tag for name x: every tag of `ts` named x merged into `acc`, in order. */
  function MergeAll(acc: TagData, ts: seq<TagData>, x: string, n: nat): (r: TagData)
    requires Shape(acc, n) && AllShaped(ts, n)
    ensures Shape(r, n) && r.name == acc.name
    decreases |ts|
  {
    if ts == [] then acc
    else
      var r0 := MergeAll(acc, ts[..|ts| - 1], x, n);
      if ts[|ts| - 1].name == x then MergeInto(r0, ts[|ts| - 1], n) else r0
  }

  /** Number of tasks on locale l over the tags of `ts` named x. */
  function TasksNamed(ts: seq<TagData>, x: string, l: nat): int
    requires forall k :: 0 <= k < |ts| ==> l < |ts[k].locales|
  {
    if ts == [] then 0
    else TasksNamed(ts[..|ts| - 1], x, l)
         + (if ts[|ts| - 1].name == x then ts[|ts| - 1].locales[l].numTasks else 0)
  }

  /** Communications from i to j over the tags of `ts` named x. */
  function CommsNamed(ts: seq<TagData>, x: string, i: nat, j: nat): CommData
    requires forall k :: 0 <= k < |ts| ==> i < |ts[k].comms| && j < |ts[k].comms[i]|
  {
    if ts == [] then NoComms
    else
      var c := CommsNamed(ts[..|ts| - 1], x, i, j);
      if ts[|ts| - 1].name == x then AddComm(c, ts[|ts| - 1].comms[i][j]) else c
  }

  /**
   * A unique tag holds the summed task counts and communication cells of all
   * tags with its name, and at least the concurrency peak of each of them;
   * its counters keep the tag invariants.
   */
  lemma {:induction false} MergedTotals(acc: TagData, ts: seq<TagData>, x: string, n: nat)
    requires TagOk(acc, n) && AllShaped(ts, n) && forall k :: 0 <= k < |ts| ==> TagOk(ts[k], n)
    ensures var r := MergeAll(acc, ts, x, n);
            TagOk(r, n)
            && (forall l :: 0 <= l < n ==> r.locales[l].numTasks == acc.locales[l].numTasks + TasksNamed(ts, x, l))
            && (forall i, j :: 0 <= i < n && 0 <= j < n ==>
                  r.comms[i][j] == AddComm(acc.comms[i][j], CommsNamed(ts, x, i, j)))
            && (forall k, l :: 0 <= k < |ts| && 0 <= l < n && ts[k].name == x ==>
                  ts[k].locales[l].maxConc <= r.locales[l].maxConc)
    decreases |ts|
  {
    if ts != [] {
      var p := ts[..|ts| - 1];
      MergedTotals(acc, p, x, n);
      MergedTasksStep(acc, ts, x, n);
      MergedCommsStep(acc, ts, x, n);
      MergedConcStep(acc, ts, x, n);
    } else {
      forall i, j | 0 <= i < n && 0 <= j < n
        ensures acc.comms[i][j] == AddComm(acc.comms[i][j], NoComms)
      {
      }
    }
  }

  /** The record after one more tag: the previous one, with the tag merged in when it has the name. */
  lemma MergeAllLast(acc: TagData, ts: seq<TagData>, x: string, n: nat)
    requires Shape(acc, n) && AllShaped(ts, n) && ts != []
    ensures var b := ts[|ts| - 1];
            var r0 := MergeAll(acc, ts[..|ts| - 1], x, n);
            MergeAll(acc, ts, x, n) == if b.name == x then MergeInto(r0, b, n) else r0
  {
  }

  /** One more tag keeps the record sound and adds its task counts when it has the name. */
  lemma MergedTasksStep(acc: TagData, ts: seq<TagData>, x: string, n: nat)
    requires Shape(acc, n) && AllShaped(ts, n) && ts != [] && TagOk(ts[|ts| - 1], n)
    requires var r0 := MergeAll(acc, ts[..|ts| - 1], x, n);
             TagOk(r0, n)
             && forall l :: 0 <= l < n ==>
                  r0.locales[l].numTasks == acc.locales[l].numTasks + TasksNamed(ts[..|ts| - 1], x, l)
    ensures var r := MergeAll(acc, ts, x, n);
            TagOk(r, n)
            && forall l :: 0 <= l < n ==> r.locales[l].numTasks == acc.locales[l].numTasks + TasksNamed(ts, x, l)
  {
    var r0 := MergeAll(acc, ts[..|ts| - 1], x, n);
    MergeAllLast(acc, ts, x, n);
    MergeIntoFacts(r0, ts[|ts| - 1], n);
  }

  /** One more tag adds its cells when it has the name. */
  lemma MergedCommsStep(acc: TagData, ts: seq<TagData>, x: string, n: nat)
    requires Shape(acc, n) && AllShaped(ts, n) && ts != []
    requires var r0 := MergeAll(acc, ts[..|ts| - 1], x, n);
             forall i, j :: 0 <= i < n && 0 <= j < n ==>
               r0.comms[i][j] == AddComm(acc.comms[i][j], CommsNamed(ts[..|ts| - 1], x, i, j))
    ensures var r := MergeAll(acc, ts, x, n);
            forall i, j :: 0 <= i < n && 0 <= j < n ==>
              r.comms[i][j] == AddComm(acc.comms[i][j], CommsNamed(ts, x, i, j))
  {
    var p := ts[..|ts| - 1];
    var r0 := MergeAll(acc, p, x, n);
    MergeAllLast(acc, ts, x, n);
    MergeIntoFacts(r0, ts[|ts| - 1], n);
    forall i, j | 0 <= i < n && 0 <= j < n
      ensures MergeAll(acc, ts, x, n).comms[i][j] == AddComm(acc.comms[i][j], CommsNamed(ts, x, i, j))
    {
      CommAssoc(acc.comms[i][j], CommsNamed(p, x, i, j), ts[|ts| - 1].comms[i][j]);
    }
  }

  /** One more tag with the name raises each locale's peak to at least its own. */
  lemma MergedConcStep(acc: TagData, ts: seq<TagData>, x: string, n: nat)
    requires Shape(acc, n) && AllShaped(ts, n) && ts != []
    requires var p := ts[..|ts| - 1];
             var r0 := MergeAll(acc, p, x, n);
             forall k, l :: 0 <= k < |p| && 0 <= l < n && p[k].name == x ==>
               p[k].locales[l].maxConc <= r0.locales[l].maxConc
    ensures var r := MergeAll(acc, ts, x, n);
            forall k, l :: 0 <= k < |ts| && 0 <= l < n && ts[k].name == x ==>
              ts[k].locales[l].maxConc <= r.locales[l].maxConc
  {
    var p := ts[..|ts| - 1];
    var r0 := MergeAll(acc, p, x, n);
    MergeAllLast(acc, ts, x, n);
    MergeIntoFacts(r0, ts[|ts| - 1], n);
    assert forall k :: 0 <= k < |p| ==> ts[k] == p[k];
  }

  lemma CommAssoc(a: CommData, b: CommData, c: CommData)
    ensures AddComm(AddComm(a, b), c) == AddComm(a, AddComm(b, c))
  {
  }

  /** How a communication or fork is counted. */
  function TransferOf(e: Event): Transfer
    requires e.Comm? || e.Fork?
  {
    if e.Fork? then Forked else if e.isGet then Get else Put
  }

  /** The bytes a communication or fork moves, as the tag matrices count them. */
  function TransferSize(e: Event): int
    requires e.Comm? || e.Fork?
  {
    if e.Fork? then e.argSize else e.TotalLen()
  }

  predicate Moves(e: Event, a: int, b: int)
  {
    (e.Comm? || e.Fork?) && e.src == a && e.dst == b
  }

  /** All traffic from locale a to locale b in a list: each transfer counted once, in list order. */
  function Traffic(s: seq<Event>, a: int, b: int): (r: CommData)
    ensures CellOk(r) && 0 <= r.numComms <= |s|
  {
    if s == [] then NoComms
    else
      var c := Traffic(s[..|s| - 1], a, b);
      var e := s[|s| - 1];
      if Moves(e, a, b) then Count(c, TransferOf(e), TransferSize(e)) else c
  }

  /**
   * The traffic from locale a to locale b charged to tag number t: the
   * transfers made while t is the current tag, that is, after exactly t + 1
   * of locale 0's tag records (t == -1 is the Start tag).
   */
  function TagTraffic(s: seq<Event>, t: int, a: int, b: int): CommData
  {
    if s == [] then NoComms
    else
      var init := s[..|s| - 1];
      var c := TagTraffic(init, t, a, b);
      var e := s[|s| - 1];
      if Moves(e, a, b) && |TopTags(init)| - 1 == t then Count(c, TransferOf(e), TransferSize(e)) else c
  }

  /** A tag whose record has not been reached yet has been charged nothing. */
  lemma {:induction false} TagTrafficLater(s: seq<Event>, t: int, a: int, b: int)
    requires t >= |TopTags(s)|
    ensures TagTraffic(s, t, a, b) == NoComms
  {
    if s != [] {
      TopTagsPrefix(s, |s| - 1);
      TagTrafficLater(s[..|s| - 1], t, a, b);
    }
  }

  /** The tag numbers of the first k records after ALL: -1 (the Start tag) to k - 2. */
  function TagNumbers(k: nat): (r: seq<int>)
    ensures |r| == k && forall i :: 0 <= i < k ==> r[i] == i - 1
  {
    seq(k, i => i - 1)
  }

  /** The traffic charged to the given tags, summed cell by cell. */
  function TagsTraffic(s: seq<Event>, tags: seq<int>, a: int, b: int): CommData
  {
    if tags == [] then NoComms
    else AddComm(TagsTraffic(s, tags[..|tags| - 1], a, b), TagTraffic(s, tags[|tags| - 1], a, b))
  }

  /** Two lists charging the same traffic to each of the given tags have the same sum over them. */
  lemma {:induction false} TagsTrafficSame(s: seq<Event>, s': seq<Event>, tags: seq<int>, a: int, b: int)
    requires forall i :: 0 <= i < |tags| ==> TagTraffic(s', tags[i], a, b) == TagTraffic(s, tags[i], a, b)
    ensures TagsTraffic(s', tags, a, b) == TagsTraffic(s, tags, a, b)
  {
    if tags != [] {
      TagsTrafficSame(s, s', tags[..|tags| - 1], a, b);
    }
  }

  /** Counting a transfer in either term of a sum counts it in the sum. */
  lemma CountAdd(x: CommData, y: CommData, op: Transfer, size: int)
    ensures AddComm(x, Count(y, op, size)) == Count(AddComm(x, y), op, size)
    ensures AddComm(Count(x, op, size), y) == Count(AddComm(x, y), op, size)
  {
  }

  /**
   * ALL's traffic is the sum of the traffic charged to the Start tag and to
   * the top-level tags, over any k records after ALL that reach past the
   * last tag: each transfer is charged to exactly one tag.
   */
  lemma {:induction false} TrafficIsTagSum(s: seq<Event>, a: int, b: int, k: nat)
    requires k > |TopTags(s)|
    ensures Traffic(s, a, b) == TagsTraffic(s, TagNumbers(k), a, b)
    decreases |s|
  {
    if s == [] {
      NothingCharged(s, TagNumbers(k), a, b);
    } else {
      var init := s[..|s| - 1];
      TopTagsPrefix(s, |s| - 1);
      TrafficIsTagSum(init, a, b, k);
      if Moves(s[|s| - 1], a, b) {
        SumMoves(s, a, b, k);
      } else {
        forall i | 0 <= i < k ensures TagTraffic(s, TagNumbers(k)[i], a, b) == TagTraffic(init, TagNumbers(k)[i], a, b) {
        }
        TagsTrafficSame(init, s, TagNumbers(k), a, b);
      }
    }
  }

  /** An empty list charges nothing to any tag. */
  lemma {:induction false} NothingCharged(s: seq<Event>, tags: seq<int>, a: int, b: int)
    requires s == []
    ensures TagsTraffic(s, tags, a, b) == NoComms
  {
    if tags != [] {
      NothingCharged(s, tags[..|tags| - 1], a, b);
    }
  }

  /** A last transfer from a to b adds to the sum exactly what it adds to the current tag. */
  lemma {:induction false} SumMoves(s: seq<Event>, a: int, b: int, k: nat)
    requires s != [] && Moves(s[|s| - 1], a, b) && k > |TopTags(s[..|s| - 1])|
    ensures var e := s[|s| - 1];
            TagsTraffic(s, TagNumbers(k), a, b) == Count(TagsTraffic(s[..|s| - 1], TagNumbers(k), a, b), TransferOf(e), TransferSize(e))
  {
    if k == |TopTags(s[..|s| - 1])| + 1 {
      SumMovesAt(s, a, b, k);
    } else {
      SumMoves(s, a, b, k - 1);
      SumMovesPast(s, a, b, k);
    }
  }

  /** The sum up to the current tag, whose term takes the transfer. */
  lemma SumMovesAt(s: seq<Event>, a: int, b: int, k: nat)
    requires s != [] && Moves(s[|s| - 1], a, b) && k == |TopTags(s[..|s| - 1])| + 1
    ensures var e := s[|s| - 1];
            TagsTraffic(s, TagNumbers(k), a, b) == Count(TagsTraffic(s[..|s| - 1], TagNumbers(k), a, b), TransferOf(e), TransferSize(e))
  {
    var init, e := s[..|s| - 1], s[|s| - 1];
    var tags := TagNumbers(k);
    var y := TagTraffic(init, k - 2, a, b);
    forall i | 0 <= i < k - 1 ensures TagTraffic(s, tags[i], a, b) == TagTraffic(init, tags[i], a, b) {
    }
    TagsTrafficSame(init, s, tags[..k - 1], a, b);
    assert TagTraffic(s, k - 2, a, b) == Count(y, TransferOf(e), TransferSize(e));
    CountAdd(TagsTraffic(init, tags[..k - 1], a, b), y, TransferOf(e), TransferSize(e));
  }

  /** One term past the current tag: a term the transfer leaves alone. */
  lemma SumMovesPast(s: seq<Event>, a: int, b: int, k: nat)
    requires s != [] && Moves(s[|s| - 1], a, b) && k > |TopTags(s[..|s| - 1])| + 1
    requires var e := s[|s| - 1];
             TagsTraffic(s, TagNumbers(k - 1), a, b)
             == Count(TagsTraffic(s[..|s| - 1], TagNumbers(k - 1), a, b), TransferOf(e), TransferSize(e))
    ensures var e := s[|s| - 1];
            TagsTraffic(s, TagNumbers(k), a, b) == Count(TagsTraffic(s[..|s| - 1], TagNumbers(k), a, b), TransferOf(e), TransferSize(e))
  {
    var init, e := s[..|s| - 1], s[|s| - 1];
    var tags := TagNumbers(k);
    assert tags[..k - 1] == TagNumbers(k - 1);
    var y := TagTraffic(init, k - 2, a, b);
    assert TagTraffic(s, k - 2, a, b) == y;
    CountAdd(TagsTraffic(init, tags[..k - 1], a, b), y, TransferOf(e), TransferSize(e));
  }

  /** The elements of s whose flag in keep is set, in order. */
  function Select(s: seq<Event>, keep: seq<bool>): (r: seq<Event>)
    requires |keep| == |s|
    ensures |r| <= |s|
  {
    if s == [] then []
    else Select(s[..|s| - 1], keep[..|s| - 1]) + (if keep[|s| - 1] then [s[|s| - 1]] else [])
  }

  /**
   * The concurrency counters after the counting pass: all zero, except that
   * once a start record was counted (b == 1) the main task runs on locale 0
   * in the Start tag and has peaked there and in ALL.
   */
  predicate ConcPattern(ts: seq<TagData>, n: nat, b: int)
  {
    (forall k :: 0 <= k < |ts| ==> |ts[k].locales| == n && ts[k].maxConc == 0)
    && (forall k, l :: 0 <= k < |ts| && 0 <= l < n ==>
          ts[k].locales[l].runConc == (if k == 1 && l == 0 then b else 0)
          && ts[k].locales[l].maxConc == (if k <= 1 && l == 0 then b else 0))
  }

  /** A tag record as LoadData allocates it: the main task is counted on locale 0. */
  function FreshTag(n: nat): (r: TagData)
    requires n >= 1
    ensures TagOk(r, n) && r.maxTasks == 1 && r.locales[0].numTasks == 1 && r.maxConc == 0
    ensures forall l :: 0 <= l < n ==> r.locales[l].runConc == 0 && r.locales[l].maxConc == 0
    ensures forall i, j :: 0 <= i < n && 0 <= j < n ==> r.comms[i][j] == NoComms
  {
    var t := EmptyTag(n);
    var r := t.(locales := [NoLocale.(numTasks := 1)] + seq(n - 1, _ => NoLocale), maxTasks := 1);
    FreshTagOk(t, r, n);
    r
  }

  /** Giving locale 0 of an empty record one task keeps the record sound. */
  lemma FreshTagOk(t: TagData, r: TagData, n: nat)
    requires n >= 1 && t == EmptyTag(n)
    requires r == t.(locales := [NoLocale.(numTasks := 1)] + seq(n - 1, _ => NoLocale), maxTasks := 1)
    ensures TagOk(r, n) && r.locales[0].numTasks == 1 && r.maxConc == 0
    ensures forall l :: 0 <= l < n ==> r.locales[l].runConc == 0 && r.locales[l].maxConc == 0
  {
    var rest := seq(n - 1, _ => NoLocale);
    assert r.comms == t.comms && r.maxComms == t.maxComms && r.maxSize == t.maxSize;
    forall l | 0 <= l < n
      ensures r.locales[l].tasks == map[] && r.locales[l].runConc == 0 && r.locales[l].maxConc == 0
    {
      if l > 0 {
        assert r.locales[l] == rest[l - 1];
      }
    }
    assert Shape(r, n);
  }

  /**
   * The tag that takes an end-task record: the highest tag index in 1..hi
   * whose task map on locale l holds the task, or 0 when none does.
   */
  function Holder(ts: seq<TagData>, hi: int, l: nat, id: int): (k: int)
    requires hi < |ts| && forall j :: 0 <= j < |ts| ==> l < |ts[j].locales|
    ensures 0 <= k <= Max(hi, 0)
    ensures k >= 1 ==> id in ts[k].locales[l].tasks
    ensures forall j :: Max(k, 0) < j <= hi && 1 <= j ==> id !in ts[j].locales[l].tasks
    decreases hi
  {
    if hi < 1 then 0
    else if id in ts[hi].locales[l].tasks then hi
    else Holder(ts, hi - 1, l, id)
  }

  /** A step that keeps every tag's concurrency counters keeps the pattern. */
  lemma ConcPatternKept(a: seq<TagData>, b: seq<TagData>, n: nat, v: int)
    requires ConcPattern(a, n, v) && |a| == |b|
    requires forall k :: 0 <= k < |a| ==> SameConc(a[k], b[k])
    ensures ConcPattern(b, n, v)
  {
    forall k | 0 <= k < |b|
      ensures |b[k].locales| == n && b[k].maxConc == 0
    {
      assert ConcOf(a[k]).0 == ConcOf(b[k]).0 && |ConcOf(a[k]).1| == |ConcOf(b[k]).1|;
    }
    forall k, l | 0 <= k < |b| && 0 <= l < n
      ensures b[k].locales[l].runConc == (if k == 1 && l == 0 then v else 0)
      ensures b[k].locales[l].maxConc == (if k <= 1 && l == 0 then v else 0)
    {
      SameConcAt(a[k], b[k], l);
    }
  }

  /** Counting a start record seeds the pattern. */
  lemma ConcPatternSeeded(a: seq<TagData>, b: seq<TagData>, n: nat, v: int, node: int)
    requires ConcPattern(a, n, v) && (v == 0 || v == 1) && |a| == |b| && 2 <= |a| && 0 <= node < n
    requires forall k :: 0 <= k < |a| ==> Shape(a[k], n)
    requires b[0] == SeedAll(a[0], n, node) && b[1] == SeedStart(a[1], n, node)
    requires forall k :: 2 <= k < |a| ==> b[k] == a[k]
    ensures ConcPattern(b, n, 1)
  {
  }

  /** Every record keeps its counter invariants and still counts the main task as the tag maximum. */
  predicate AllOk(ts: seq<TagData>, n: nat)
  {
    forall k :: 0 <= k < |ts| ==> TagOk(ts[k], n) && ts[k].maxTasks == 1
  }

  /** Table b has table a's shape, soundness, concurrency counters and matrices. */
  predicate Keeps(a: seq<TagData>, b: seq<TagData>, n: nat)
  {
    |b| == |a| && AllShaped(b, n) && (AllOk(a, n) ==> AllOk(b, n))
    && (forall j :: 0 <= j < |a| ==> ConcOf(b[j]) == ConcOf(a[j]) && b[j].comms == a[j].comms)
  }

  lemma KeepsTrans(a: seq<TagData>, b: seq<TagData>, c: seq<TagData>, n: nat)
    requires Keeps(a, b, n) && Keeps(b, c, n)
    ensures Keeps(a, c, n)
  {
  }

  /** Tag k named x. */
  function NameIn(ts: seq<TagData>, k: int, x: string, n: nat): (r: seq<TagData>)
    requires AllShaped(ts, n) && 0 <= k < |ts|
    ensures |r| == |ts| && AllShaped(r, n)
  {
    ts[k := ts[k].(name := x)]
  }

  /** Naming a tag changes its name and nothing else. */
  lemma NameInFacts(ts: seq<TagData>, k: int, x: string, n: nat)
    requires AllShaped(ts, n) && 0 <= k < |ts|
    ensures var r := NameIn(ts, k, x, n);
            Keeps(ts, r, n) && r[k].name == x
            && (forall j :: 0 <= j < |ts| && j != k ==> r[j] == ts[j])
  {
  }

  /** Tag k opened on locale l. */
  function OpenIn(ts: seq<TagData>, k: int, n: nat, l: int): (r: seq<TagData>)
    requires AllShaped(ts, n) && 0 <= k < |ts| && 0 <= l < n
    ensures |r| == |ts| && AllShaped(r, n)
  {
    ts[k := OpenLocale(ts[k], n, l)]
  }

  /** Opening a tag on a locale marks it open there and keeps every counter, name and matrix. */
  lemma OpenInFacts(ts: seq<TagData>, k: int, n: nat, l: int)
    requires AllShaped(ts, n) && 0 <= k < |ts| && 0 <= l < n
    ensures var r := OpenIn(ts, k, n, l);
            Keeps(ts, r, n) && r[k].locales[l].hasRef
            && (forall j :: 0 <= j < |ts| ==> r[j].name == ts[j].name)
            && (forall j :: 0 <= j < |ts| && j != k ==> r[j] == ts[j])
  {
  }

  /** Tag k closed on locale l if it is open there. */
  function CloseIn(ts: seq<TagData>, k: int, n: nat, l: int, vdbTid: int): (r: seq<TagData>)
    requires AllShaped(ts, n) && 0 <= k < |ts| && 0 <= l < n
    ensures |r| == |ts| && AllShaped(r, n)
  {
    if ts[k].locales[l].hasRef then ts[k := CloseLocale(ts[k], n, l, vdbTid)] else ts
  }

  /** Closing a tag on a locale marks it closed there and keeps every counter, name and matrix. */
  lemma CloseInFacts(ts: seq<TagData>, k: int, n: nat, l: int, vdbTid: int)
    requires AllShaped(ts, n) && 0 <= k < |ts| && 0 <= l < n
    ensures var r := CloseIn(ts, k, n, l, vdbTid);
            Keeps(ts, r, n) && !r[k].locales[l].hasRef
            && (forall j :: 0 <= j < |ts| ==> r[j].name == ts[j].name)
            && (forall j :: 0 <= j < |ts| && j != k ==> r[j] == ts[j])
  {
  }

  /**
   * A tag record in the counting pass: locale 0's records start and name the
   * next tag; the tag, and ALL if needed, are opened on the record's locale
   * and the previous tag is closed there.
   */
  function TagStep(ts: seq<TagData>, n: nat, ev: Event, cTagNo: int): (r: (seq<TagData>, int))
    requires AllShaped(ts, n) && ev.Tag? && 0 <= ev.node < n
    requires -1 <= cTagNo && cTagNo + 2 < |ts| && (ev.node == 0 ==> cTagNo + 3 < |ts|)
    ensures |r.0| == |ts| && r.1 == (if ev.node == 0 then cTagNo + 1 else cTagNo)
  {
    var l := ev.node;
    var c := if l == 0 then cTagNo + 1 else cTagNo;
    var t1 := if l == 0 then NameIn(ts, c + 2, ev.name, n) else ts;
    (SwitchTag(t1, c, n, l, ev.vdbTid), c)
  }

  /** Locale l switches from tag c + 1 to tag c + 2: the new tag and ALL opened there, the old tag closed. */
  function SwitchTag(t1: seq<TagData>, c: int, n: nat, l: int, vdbTid: int): (r: seq<TagData>)
    requires AllShaped(t1, n) && 0 <= l < n && -1 <= c && c + 2 < |t1|
    ensures |r| == |t1| && AllShaped(r, n)
  {
    CloseIn(OpensTail(t1, c, n, l), c + 1, n, l, vdbTid)
  }

  /** The switch keeps every counter, name and matrix, and leaves the new tag open and the old one closed. */
  lemma SwitchFacts(t1: seq<TagData>, c: int, n: nat, l: int, vdbTid: int)
    requires AllShaped(t1, n) && 0 <= l < n && -1 <= c && c + 2 < |t1|
    ensures var r := SwitchTag(t1, c, n, l, vdbTid);
            Keeps(t1, r, n) && (forall j :: 0 <= j < |t1| ==> r[j].name == t1[j].name)
            && r[c + 2].locales[l].hasRef && !r[c + 1].locales[l].hasRef
            && (c + 1 != 0 ==> r[0].locales[l].hasRef)
  {
    var t3 := OpensTail(t1, c, n, l);
    OpensKeep(t1, c, n, l);
    CloseInFacts(t3, c + 1, n, l, vdbTid);
    KeepsTrans(t1, t3, CloseIn(t3, c + 1, n, l, vdbTid), n);
  }

  /** A tag record keeps the table sound and every concurrency counter and matrix. */
  lemma TagStepFacts(ts: seq<TagData>, n: nat, ev: Event, cTagNo: int)
    requires AllShaped(ts, n) && ev.Tag? && 0 <= ev.node < n
    requires -1 <= cTagNo && cTagNo + 2 < |ts| && (ev.node == 0 ==> cTagNo + 3 < |ts|)
    ensures Keeps(ts, TagStep(ts, n, ev, cTagNo).0, n)
  {
    var l := ev.node;
    if l == 0 {
      var t1 := NameIn(ts, cTagNo + 3, ev.name, n);
      NameInFacts(ts, cTagNo + 3, ev.name, n);
      SwitchFacts(t1, cTagNo + 1, n, l, ev.vdbTid);
      KeepsTrans(ts, t1, SwitchTag(t1, cTagNo + 1, n, l, ev.vdbTid), n);
    } else {
      SwitchFacts(ts, cTagNo, n, l, ev.vdbTid);
    }
  }

  /** The tag and, unless already open there, ALL opened on locale l. */
  function OpensTail(t1: seq<TagData>, c: int, n: nat, l: int): (r: seq<TagData>)
    requires AllShaped(t1, n) && 0 <= l < n && -1 <= c && c + 2 < |t1|
    ensures |r| == |t1| && AllShaped(r, n)
  {
    var t2 := OpenIn(t1, c + 2, n, l);
    if !t2[0].locales[l].hasRef then OpenIn(t2, 0, n, l) else t2
  }

  lemma OpensKeep(t1: seq<TagData>, c: int, n: nat, l: int)
    requires AllShaped(t1, n) && 0 <= l < n && -1 <= c && c + 2 < |t1|
    ensures var r := OpensTail(t1, c, n, l);
            Keeps(t1, r, n) && r[c + 2].locales[l].hasRef && r[0].locales[l].hasRef
            && (forall j :: 0 <= j < |t1| ==> r[j].name == t1[j].name)
  {
    var t2 := OpenIn(t1, c + 2, n, l);
    OpenInFacts(t1, c + 2, n, l);
    if !t2[0].locales[l].hasRef {
      OpenInFacts(t2, 0, n, l);
      KeepsTrans(t1, t2, OpenIn(t2, 0, n, l), n);
    }
  }

  /** A tag record renames only the new tag of a locale-0 record. */
  lemma TagStepNames(ts: seq<TagData>, n: nat, ev: Event, cTagNo: int)
    requires AllShaped(ts, n) && ev.Tag? && 0 <= ev.node < n
    requires -1 <= cTagNo && cTagNo + 2 < |ts| && (ev.node == 0 ==> cTagNo + 3 < |ts|)
    ensures var r := TagStep(ts, n, ev, cTagNo);
            (ev.node == 0 ==> r.0[r.1 + 2].name == ev.name)
            && (forall j :: 0 <= j < |ts| && (ev.node == 0 ==> j != r.1 + 2) ==> r.0[j].name == ts[j].name)
  {
    var l := ev.node;
    if l == 0 {
      NameInFacts(ts, cTagNo + 3, ev.name, n);
      SwitchFacts(NameIn(ts, cTagNo + 3, ev.name, n), cTagNo + 1, n, l, ev.vdbTid);
    } else {
      SwitchFacts(ts, cTagNo, n, l, ev.vdbTid);
    }
  }

  /** After a tag record the new tag is open on its locale, the previous one closed, and ALL open unless it was the previous one. */
  lemma TagStepOpens(ts: seq<TagData>, n: nat, ev: Event, cTagNo: int)
    requires AllShaped(ts, n) && ev.Tag? && 0 <= ev.node < n
    requires -1 <= cTagNo && cTagNo + 2 < |ts| && (ev.node == 0 ==> cTagNo + 3 < |ts|)
    ensures var (r, c) := TagStep(ts, n, ev, cTagNo);
            r[c + 2].locales[ev.node].hasRef && !r[c + 1].locales[ev.node].hasRef
            && (c + 1 != 0 ==> r[0].locales[ev.node].hasRef)
  {
    var l := ev.node;
    if l == 0 {
      SwitchFacts(NameIn(ts, cTagNo + 3, ev.name, n), cTagNo + 1, n, l, ev.vdbTid);
    } else {
      SwitchFacts(ts, cTagNo, n, l, ev.vdbTid);
    }
  }

  /**
   * One event of the counting pass on the tag table: the new table, the new
   * current tag number, and whether the event stays in the list.
   */
  function CountStep(ts: seq<TagData>, n: nat, ev: Event, cTagNo: int): (r: (seq<TagData>, int, bool))
    requires AllShaped(ts, n) && InRange(ev, n) && 2 <= |ts|
    requires -1 <= cTagNo && cTagNo + 2 < |ts| && (IsTopTag(ev) ==> cTagNo + 3 < |ts|)
    ensures |r.0| == |ts| && r.1 == cTagNo + (if IsTopTag(ev) then 1 else 0)
    ensures r.2 || ev.EndTask?
    ensures !r.2 ==> r.0 == ts
  {
    var cur := cTagNo + 2;
    match ev
    case Start(_, node) => (ts[0 := SeedAll(ts[0], n, node)][1 := SeedStart(ts[1], n, node)], cTagNo, true)
    case Tag(_, _, _, _, _) => var (ts', c) := TagStep(ts, n, ev, cTagNo); (ts', c, true)
    case Pause(_, node, _, vdbTid) =>
      (ts[cur := CloseLocale(ts[cur], n, node, vdbTid)][0 := CloseLocale(ts[0], n, node, vdbTid)], cTagNo, true)
    case End(_, node, vdbTid) =>
      (ts[cur := CloseLocale(ts[cur], n, node, vdbTid)][0 := CloseLocale(ts[0], n, node, vdbTid)], cTagNo, true)
    case Comm(_, _, src, dst, _, _, _, _, _, _) =>
      var op, size := TransferOf(ev), TransferSize(ev);
      (ts[cur := RecordTransfer(ts[cur], n, src, dst, op, size)][0 := RecordTransfer(ts[0], n, src, dst, op, size)], cTagNo, true)
    case Fork(_, _, src, dst, _, _, _) =>
      var op, size := TransferOf(ev), TransferSize(ev);
      (ts[cur := RecordTransfer(ts[cur], n, src, dst, op, size)][0 := RecordTransfer(ts[0], n, src, dst, op, size)], cTagNo, true)
    case Task(_, node, _, _, _, _) => (ts[cur := AddTask(ts[cur], n, node, ev)], cTagNo, true)
    case BeginTask(_, node, taskId) =>
      var tasks := ts[cur].locales[node].tasks;
      if taskId in tasks then
        (ts[cur := UpdateTask(ts[cur], n, node, taskId, tasks[taskId].(beginRec := Some(ev)))], cTagNo, true)
      else (ts, cTagNo, true)
    case EndTask(_, node, taskId) =>
      var h := Holder(ts, cur, node, taskId);
      if h >= 1 then
        var d := ts[h].locales[node].tasks[taskId].(endRec := Some(ev), endTagNo := Some(cTagNo));
        (ts[h := UpdateTask(ts[h], n, node, taskId, d)], cTagNo, true)
      else (ts, cTagNo, false)
  }

  /** The counting pass on an end-task record whose task is held by tag index h, if any. */
  lemma EndStepAt(ts: seq<TagData>, n: nat, ev: Event, cTagNo: int, h: int)
    requires AllShaped(ts, n) && ev.EndTask? && 0 <= ev.node < n && -1 <= cTagNo && cTagNo + 2 < |ts|
    requires h == Holder(ts, cTagNo + 2, ev.node, ev.taskId)
    ensures h >= 1 ==>
              var d := ts[h].locales[ev.node].tasks[ev.taskId].(endRec := Some(ev), endTagNo := Some(cTagNo));
              CountStep(ts, n, ev, cTagNo) == (ts[h := UpdateTask(ts[h], n, ev.node, ev.taskId, d)], cTagNo, true)
    ensures h < 1 ==> CountStep(ts, n, ev, cTagNo) == (ts, cTagNo, false)
  {
  }

  /**
   * What the counting pass has built after the kept events `s`: sound
   * records, tags named after locale 0's tag records, the concurrency
   * pattern, ALL's matrix holding all traffic of `s`, and every other
   * record's matrix the traffic charged to its tag.
   */
  predicate CountedTags(ts: seq<TagData>, n: nat, s: seq<Event>, cTagNo: int)
  {
    CountedSound(ts, n, s, cTagNo) && CountedRecords(ts, n, s, cTagNo) && CountedTraffic(ts, n, s)
  }

  /** Record k after ALL holds the traffic of `s` charged to tag number k - 2. */
  predicate CountedTraffic(ts: seq<TagData>, n: nat, s: seq<Event>)
    requires AllShaped(ts, n)
  {
    forall k, a, b :: 1 <= k < |ts| && 0 <= a < n && 0 <= b < n ==> ts[k].comms[a][b] == TagTraffic(s, k - 2, a, b)
  }

  predicate CountedSound(ts: seq<TagData>, n: nat, s: seq<Event>, cTagNo: int)
  {
    n >= 1 && 2 <= |ts| && AllOk(ts, n)
    && cTagNo + 1 == |TopTags(s)| && -1 <= cTagNo && cTagNo + 2 < |ts|
    && ConcPattern(ts, n, if s == [] then 0 else 1)
  }

  predicate CountedRecords(ts: seq<TagData>, n: nat, s: seq<Event>, cTagNo: int)
    requires CountedSound(ts, n, s, cTagNo)
  {
    (forall t :: 0 <= t <= cTagNo ==> ts[t + 2].name == TopTags(s)[t])
    && (s != [] ==> ts[0].name == "ALL" && ts[1].name == "Start")
    && (forall a, b :: 0 <= a < n && 0 <= b < n ==> ts[0].comms[a][b] == Traffic(s, a, b))
  }

  /** What one step of the counting pass does to the table `ts`, giving `ts'` and tag number c. */
  predicate StepFacts(ts: seq<TagData>, ts': seq<TagData>, n: nat, ev: Event, c: int, v: int)
    requires |ts'| == |ts| && 2 <= |ts| && Shape(ts[0], n)
  {
    StepSound(ts', n, ev, v) && StepRecords(ts, ts', n, ev, c)
  }

  /** The table stays sound and keeps the concurrency pattern, seeded by a start record. */
  predicate StepSound(ts': seq<TagData>, n: nat, ev: Event, v: int)
  {
    AllOk(ts', n) && ConcPattern(ts', n, if ev.Start? then 1 else v)
  }

  /** Names change only where the step names a tag, and ALL's matrix counts exactly the step's transfer. */
  predicate StepRecords(ts: seq<TagData>, ts': seq<TagData>, n: nat, ev: Event, c: int)
    requires |ts'| == |ts| && 2 <= |ts| && Shape(ts[0], n)
  {
    Shape(ts'[0], n)
    && (ev.Start? ==> ts'[0].name == "ALL" && ts'[1].name == "Start")
    && (IsTopTag(ev) ==> 0 <= c + 2 < |ts| && ts'[c + 2].name == ev.name)
    && (forall k :: 0 <= k < |ts| && (k < 2 ==> !ev.Start?) && (IsTopTag(ev) ==> k != c + 2) ==>
          ts'[k].name == ts[k].name)
    && (forall a, b :: 0 <= a < n && 0 <= b < n ==>
          ts'[0].comms[a][b] == if Moves(ev, a, b) then Count(ts[0].comms[a][b], TransferOf(ev), TransferSize(ev))
                                else ts[0].comms[a][b])
  }

  /** The common precondition of the step lemmas. */
  predicate StepReady(ts: seq<TagData>, n: nat, ev: Event, cTagNo: int, v: int)
  {
    AllOk(ts, n) && InRange(ev, n) && 2 <= |ts| && ConcPattern(ts, n, v) && (v == 0 || v == 1)
    && -1 <= cTagNo && cTagNo + 2 < |ts| && (IsTopTag(ev) ==> cTagNo + 3 < |ts|)
  }

  lemma StepStart(ts: seq<TagData>, n: nat, ev: Event, cTagNo: int, v: int)
    requires StepReady(ts, n, ev, cTagNo, v) && ev.Start?
    ensures var r := CountStep(ts, n, ev, cTagNo); StepFacts(ts, r.0, n, ev, r.1, v)
  {
    ConcPatternSeeded(ts, CountStep(ts, n, ev, cTagNo).0, n, v, ev.node);
  }

  lemma StepTag(ts: seq<TagData>, n: nat, ev: Event, cTagNo: int, v: int)
    requires StepReady(ts, n, ev, cTagNo, v) && ev.Tag?
    ensures var r := CountStep(ts, n, ev, cTagNo); StepFacts(ts, r.0, n, ev, r.1, v)
  {
    var (ts', c) := TagStep(ts, n, ev, cTagNo);
    assert CountStep(ts, n, ev, cTagNo) == (ts', c, true);
    TagStepSound(ts, n, ev, cTagNo, v);
    TagStepRecords(ts, n, ev, cTagNo);
  }

  lemma TagStepRecords(ts: seq<TagData>, n: nat, ev: Event, cTagNo: int)
    requires AllShaped(ts, n) && ev.Tag? && 0 <= ev.node < n && 2 <= |ts|
    requires -1 <= cTagNo && cTagNo + 2 < |ts| && (ev.node == 0 ==> cTagNo + 3 < |ts|)
    ensures var (ts', c) := TagStep(ts, n, ev, cTagNo); StepRecords(ts, ts', n, ev, c)
  {
    TagStepFacts(ts, n, ev, cTagNo);
    TagStepNames(ts, n, ev, cTagNo);
  }

  lemma TagStepSound(ts: seq<TagData>, n: nat, ev: Event, cTagNo: int, v: int)
    requires StepReady(ts, n, ev, cTagNo, v) && ev.Tag?
    ensures StepSound(TagStep(ts, n, ev, cTagNo).0, n, ev, v)
  {
    var ts' := TagStep(ts, n, ev, cTagNo).0;
    TagStepFacts(ts, n, ev, cTagNo);
    forall k | 0 <= k < |ts| ensures SameConc(ts[k], ts'[k]) {
    }
    ConcPatternKept(ts, ts', n, v);
  }

  lemma StepClose(ts: seq<TagData>, n: nat, ev: Event, cTagNo: int, v: int)
    requires StepReady(ts, n, ev, cTagNo, v) && (ev.Pause? || ev.End?)
    ensures var r := CountStep(ts, n, ev, cTagNo); StepFacts(ts, r.0, n, ev, r.1, v)
  {
    var cur := cTagNo + 2;
    var t := CloseLocale(ts[cur], n, ev.node, ev.vdbTid);
    var a := CloseLocale(ts[0], n, ev.node, ev.vdbTid);
    assert CountStep(ts, n, ev, cTagNo) == (ts[cur := t][0 := a], cTagNo, true);
    TwoRecordStep(ts, n, ev, cTagNo, v, cur, t, a);
  }

  lemma StepTransfer(ts: seq<TagData>, n: nat, ev: Event, cTagNo: int, v: int)
    requires StepReady(ts, n, ev, cTagNo, v) && (ev.Comm? || ev.Fork?)
    ensures var r := CountStep(ts, n, ev, cTagNo); StepFacts(ts, r.0, n, ev, r.1, v)
  {
    var cur := cTagNo + 2;
    var op, size := TransferOf(ev), TransferSize(ev);
    var t := RecordTransfer(ts[cur], n, ev.src, ev.dst, op, size);
    var a := RecordTransfer(ts[0], n, ev.src, ev.dst, op, size);
    assert CountStep(ts, n, ev, cTagNo) == (ts[cur := t][0 := a], cTagNo, true);
    TwoRecordStep(ts, n, ev, cTagNo, v, cur, t, a);
  }

  /**
   * A step that replaces the current record by t and ALL by a, both sound,
   * with their names and concurrency counters, ALL's matrix counting exactly
   * the step's transfer.
   */
  lemma TwoRecordStep(ts: seq<TagData>, n: nat, ev: Event, c: int, v: int, cur: int, t: TagData, a: TagData)
    requires StepReady(ts, n, ev, c, v) && !ev.Start? && !IsTopTag(ev) && 1 <= cur < |ts|
    requires TagOk(t, n) && t.maxTasks == 1 && SameConc(ts[cur], t) && t.name == ts[cur].name
    requires TagOk(a, n) && a.maxTasks == 1 && SameConc(ts[0], a) && a.name == ts[0].name
    requires forall x, y :: 0 <= x < n && 0 <= y < n ==>
               a.comms[x][y] == if Moves(ev, x, y) then Count(ts[0].comms[x][y], TransferOf(ev), TransferSize(ev))
                                else ts[0].comms[x][y]
    ensures StepFacts(ts, ts[cur := t][0 := a], n, ev, c, v)
  {
    var t1 := ts[cur := t];
    UpdateOne(ts, cur, t, n);
    UpdateOne(t1, 0, a, n);
    var ts' := t1[0 := a];
    assert forall k :: 0 <= k < |ts| ==> SameConc(ts[k], ts'[k]);
    ConcPatternKept(ts, ts', n, v);
  }

  /** Replacing one record by a sound one with the same concurrency counters keeps the table sound. */
  lemma UpdateOne(ts: seq<TagData>, k: nat, t: TagData, n: nat)
    requires AllOk(ts, n) && k < |ts| && TagOk(t, n) && t.maxTasks == 1
    requires SameConc(ts[k], t)
    ensures AllOk(ts[k := t], n)
    ensures forall j :: 0 <= j < |ts| ==> SameConc(ts[j], ts[k := t][j])
    ensures forall j :: 0 <= j < |ts| && j != k ==> ts[k := t][j] == ts[j]
  {
  }

  /** A step that replaces one record after ALL by a sound one with the same name and counters. */
  lemma OneRecordStep(ts: seq<TagData>, n: nat, ev: Event, c: int, v: int, cur: int, t: TagData)
    requires StepReady(ts, n, ev, c, v) && (ev.Task? || ev.BeginTask? || ev.EndTask?)
    requires 1 <= cur < |ts| && TagOk(t, n) && t.maxTasks == 1 && SameConc(ts[cur], t) && t.name == ts[cur].name
    ensures StepFacts(ts, ts[cur := t], n, ev, c, v)
  {
    var ts' := ts[cur := t];
    UpdateOne(ts, cur, t, n);
    ConcPatternKept(ts, ts', n, v);
    assert ts'[0] == ts[0];
    assert StepSound(ts', n, ev, v);
  }

  /** A task record adds its task to the current tag and changes nothing else. */
  lemma CountStepTask(ts: seq<TagData>, n: nat, ev: Event, cTagNo: int)
    requires AllShaped(ts, n) && InRange(ev, n) && 2 <= |ts| && ev.Task?
    requires -1 <= cTagNo && cTagNo + 2 < |ts|
    ensures CountStep(ts, n, ev, cTagNo) == (ts[cTagNo + 2 := AddTask(ts[cTagNo + 2], n, ev.node, ev)], cTagNo, true)
  {
  }

  lemma StepTask(ts: seq<TagData>, n: nat, ev: Event, cTagNo: int, v: int)
    requires StepReady(ts, n, ev, cTagNo, v) && ev.Task?
    ensures var r := CountStep(ts, n, ev, cTagNo); StepFacts(ts, r.0, n, ev, r.1, v)
  {
    var cur := cTagNo + 2;
    var t := AddTask(ts[cur], n, ev.node, ev);
    CountStepTask(ts, n, ev, cTagNo);
    OneRecordStep(ts, n, ev, cTagNo, v, cur, t);
  }

  lemma StepBegin(ts: seq<TagData>, n: nat, ev: Event, cTagNo: int, v: int)
    requires StepReady(ts, n, ev, cTagNo, v) && ev.BeginTask?
    ensures var r := CountStep(ts, n, ev, cTagNo); StepFacts(ts, r.0, n, ev, r.1, v)
  {
    var ts' := CountStep(ts, n, ev, cTagNo).0;
    forall k | 0 <= k < |ts| ensures SameConc(ts[k], ts'[k]) {
    }
    ConcPatternKept(ts, ts', n, v);
  }

  lemma StepEndTask(ts: seq<TagData>, n: nat, ev: Event, cTagNo: int, v: int)
    requires StepReady(ts, n, ev, cTagNo, v) && ev.EndTask?
    ensures var r := CountStep(ts, n, ev, cTagNo); StepFacts(ts, r.0, n, ev, r.1, v)
  {
    var ts' := CountStep(ts, n, ev, cTagNo).0;
    forall k | 0 <= k < |ts| ensures SameConc(ts[k], ts'[k]) {
    }
    ConcPatternKept(ts, ts', n, v);
  }

  lemma CountStepFacts(ts: seq<TagData>, n: nat, ev: Event, cTagNo: int, v: int)
    requires StepReady(ts, n, ev, cTagNo, v)
    ensures var r := CountStep(ts, n, ev, cTagNo); StepFacts(ts, r.0, n, ev, r.1, v)
  {
    if ev.Start? {
      StepStart(ts, n, ev, cTagNo, v);
    } else if ev.Tag? {
      StepTag(ts, n, ev, cTagNo, v);
    } else if ev.Pause? || ev.End? {
      StepClose(ts, n, ev, cTagNo, v);
    } else if ev.Comm? || ev.Fork? {
      StepTransfer(ts, n, ev, cTagNo, v);
    } else if ev.Task? {
      StepTask(ts, n, ev, cTagNo, v);
    } else if ev.BeginTask? {
      StepBegin(ts, n, ev, cTagNo, v);
    } else {
      StepEndTask(ts, n, ev, cTagNo, v);
    }
  }

  /** Tag names still follow locale 0's tag records once the event is kept. */
  lemma KeptNames(ts: seq<TagData>, ts': seq<TagData>, s: seq<Event>, ev: Event, cTagNo: int, c: int)
    requires |ts'| == |ts| && cTagNo + 1 == |TopTags(s)| && -1 <= cTagNo
    requires c == cTagNo + (if IsTopTag(ev) then 1 else 0) && c + 2 < |ts|
    requires forall t :: 0 <= t <= cTagNo ==> ts[t + 2].name == TopTags(s)[t]
    requires IsTopTag(ev) ==> ts'[c + 2].name == ev.name
    requires forall k :: 2 <= k < |ts| && (IsTopTag(ev) ==> k != c + 2) ==> ts'[k].name == ts[k].name
    ensures c + 1 == |TopTags(s + [ev])|
    ensures forall t :: 0 <= t <= c ==> ts'[t + 2].name == TopTags(s + [ev])[t]
  {
    var s' := s + [ev];
    assert s'[..|s'| - 1] == s;
    assert TopTags(s') == TopTags(s) + (if IsTopTag(ev) then [ev.name] else []);
  }

  /** ALL's matrix still holds all traffic once the event is kept. */
  lemma KeptTraffic(m: seq<seq<CommData>>, m': seq<seq<CommData>>, n: nat, s: seq<Event>, ev: Event)
    requires |m| == n && |m'| == n && forall a :: 0 <= a < n ==> |m[a]| == n && |m'[a]| == n
    requires forall a, b :: 0 <= a < n && 0 <= b < n ==> m[a][b] == Traffic(s, a, b)
    requires forall a, b :: 0 <= a < n && 0 <= b < n ==>
               m'[a][b] == if Moves(ev, a, b) then Count(m[a][b], TransferOf(ev), TransferSize(ev)) else m[a][b]
    ensures forall a, b :: 0 <= a < n && 0 <= b < n ==> m'[a][b] == Traffic(s + [ev], a, b)
  {
    assert (s + [ev])[..|s + [ev]| - 1] == s;
  }

  /** One event of the counting pass keeps what the pass has built, over the kept events. */
  lemma CountStepKeeps(ts: seq<TagData>, n: nat, s: seq<Event>, ev: Event, cTagNo: int)
    requires CountedTags(ts, n, s, cTagNo) && InRange(ev, n) && (s == [] ==> ev.Start?)
    requires IsTopTag(ev) ==> cTagNo + 3 < |ts|
    ensures var (ts', c, kept) := CountStep(ts, n, ev, cTagNo);
            CountedTags(ts', n, if kept then s + [ev] else s, c)
  {
    CountStepSound(ts, n, s, ev, cTagNo);
    CountStepRecords(ts, n, s, ev, cTagNo);
    CountStepTraffic(ts, n, s, ev, cTagNo);
  }

  /** The shape half of CountStepKeeps: sizes, tag count and concurrency pattern. */
  lemma CountStepSound(ts: seq<TagData>, n: nat, s: seq<Event>, ev: Event, cTagNo: int)
    requires CountedTags(ts, n, s, cTagNo) && InRange(ev, n) && (s == [] ==> ev.Start?)
    requires IsTopTag(ev) ==> cTagNo + 3 < |ts|
    ensures var (ts', c, kept) := CountStep(ts, n, ev, cTagNo);
            CountedSound(ts', n, if kept then s + [ev] else s, c)
  {
    var (ts', c, kept) := CountStep(ts, n, ev, cTagNo);
    CountStepFacts(ts, n, ev, cTagNo, if s == [] then 0 else 1);
    if kept {
      KeptNames(ts, ts', s, ev, cTagNo, c);
    }
  }

  /** The record half of CountStepKeeps: tag names, the Start and ALL records, and the traffic matrix. */
  lemma CountStepRecords(ts: seq<TagData>, n: nat, s: seq<Event>, ev: Event, cTagNo: int)
    requires CountedTags(ts, n, s, cTagNo) && InRange(ev, n) && (s == [] ==> ev.Start?)
    requires IsTopTag(ev) ==> cTagNo + 3 < |ts|
    requires var (ts', c, kept) := CountStep(ts, n, ev, cTagNo);
             CountedSound(ts', n, if kept then s + [ev] else s, c)
    ensures var (ts', c, kept) := CountStep(ts, n, ev, cTagNo);
            CountedRecords(ts', n, if kept then s + [ev] else s, c)
  {
    var (ts', c, kept) := CountStep(ts, n, ev, cTagNo);
    if kept {
      CountStepFacts(ts, n, ev, cTagNo, if s == [] then 0 else 1);
      RecordsKept(ts, ts', n, s, ev, cTagNo, c);
    }
  }

  /** A kept step on the values it produced: names and traffic follow the grown stream. */
  lemma RecordsKept(ts: seq<TagData>, ts': seq<TagData>, n: nat, s: seq<Event>, ev: Event, cTagNo: int, c: int)
    requires CountedTags(ts, n, s, cTagNo) && (s == [] ==> ev.Start?)
    requires |ts'| == |ts| && c == cTagNo + (if IsTopTag(ev) then 1 else 0)
    requires StepRecords(ts, ts', n, ev, c) && CountedSound(ts', n, s + [ev], c)
    ensures CountedRecords(ts', n, s + [ev], c)
  {
    KeptNames(ts, ts', s, ev, cTagNo, c);
    KeptTraffic(ts[0].comms, ts'[0].comms, n, s, ev);
  }

  /** The cells (a, b) of the records' matrices, summed. */
  function CellSum(rs: seq<TagData>, n: nat, a: int, b: int): CommData
    requires AllShaped(rs, n) && 0 <= a < n && 0 <= b < n
  {
    if rs == [] then NoComms else AddComm(CellSum(rs[..|rs| - 1], n, a, b), rs[|rs| - 1].comms[a][b])
  }

  /** Records whose cells hold the traffic charged to the given tags sum to the traffic of those tags. */
  lemma {:induction false} SumsAgree(rs: seq<TagData>, tags: seq<int>, n: nat, s: seq<Event>, a: int, b: int)
    requires AllShaped(rs, n) && |rs| == |tags| && 0 <= a < n && 0 <= b < n
    requires forall i :: 0 <= i < |rs| ==> rs[i].comms[a][b] == TagTraffic(s, tags[i], a, b)
    ensures CellSum(rs, n, a, b) == TagsTraffic(s, tags, a, b)
  {
    if rs != [] {
      SumsAgree(rs[..|rs| - 1], tags[..|tags| - 1], n, s, a, b);
    }
  }

  /**
   * Every cell of ALL's matrix is the sum of that cell over the Start tag and
   * every top-level tag, once the table has a record per tag.
   */
  lemma AllIsTagSum(ts: seq<TagData>, n: nat, s: seq<Event>, a: int, b: int)
    requires AllShaped(ts, n) && CountedTraffic(ts, n, s) && |ts| == |TopTags(s)| + 2 && 0 <= a < n && 0 <= b < n
    requires ts[0].comms[a][b] == Traffic(s, a, b)
    ensures ts[0].comms[a][b] == CellSum(ts[1..], n, a, b)
  {
    var rs, tags := ts[1..], TagNumbers(|ts| - 1);
    assert forall i :: 0 <= i < |rs| ==> rs[i] == ts[i + 1];
    SumsAgree(rs, tags, n, s, a, b);
    TrafficIsTagSum(s, a, b, |ts| - 1);
  }

  /** Records after ALL: only the current tag's matrix changes, counting exactly the step's transfer. */
  predicate StepComms(ts: seq<TagData>, ts': seq<TagData>, n: nat, ev: Event, c: int)
    requires AllShaped(ts, n) && AllShaped(ts', n) && |ts'| == |ts|
  {
    forall k, a, b :: 1 <= k < |ts| && 0 <= a < n && 0 <= b < n ==>
      ts'[k].comms[a][b] == if k == c + 2 && Moves(ev, a, b) then Count(ts[k].comms[a][b], TransferOf(ev), TransferSize(ev))
                            else ts[k].comms[a][b]
  }

  /** One event of the counting pass moves the matrices after ALL only as StepComms says. */
  lemma CountStepComms(ts: seq<TagData>, n: nat, ev: Event, cTagNo: int)
    requires AllShaped(ts, n) && InRange(ev, n) && 2 <= |ts|
    requires -1 <= cTagNo && cTagNo + 2 < |ts| && (IsTopTag(ev) ==> cTagNo + 3 < |ts|)
    ensures var ts' := CountStep(ts, n, ev, cTagNo).0; AllShaped(ts', n) && StepComms(ts, ts', n, ev, cTagNo)
  {
    if ev.Tag? {
      TagStepFacts(ts, n, ev, cTagNo);
    } else if ev.Comm? || ev.Fork? {
      TransferComms(ts, n, ev, cTagNo);
    } else if ev.EndTask? {
      EndTaskComms(ts, n, ev, cTagNo);
    } else {
      OtherComms(ts, n, ev, cTagNo);
    }
  }

  /** A transfer is counted in the current tag's matrix and no other record's after ALL. */
  lemma TransferComms(ts: seq<TagData>, n: nat, ev: Event, cTagNo: int)
    requires AllShaped(ts, n) && InRange(ev, n) && 2 <= |ts| && (ev.Comm? || ev.Fork?)
    requires -1 <= cTagNo && cTagNo + 2 < |ts|
    ensures var ts' := CountStep(ts, n, ev, cTagNo).0; AllShaped(ts', n) && StepComms(ts, ts', n, ev, cTagNo)
  {
    var cur := cTagNo + 2;
    var op, size := TransferOf(ev), TransferSize(ev);
    var t := RecordTransfer(ts[cur], n, ev.src, ev.dst, op, size);
    var a := RecordTransfer(ts[0], n, ev.src, ev.dst, op, size);
    assert CountStep(ts, n, ev, cTagNo).0 == ts[cur := t][0 := a];
  }

  /** An end-task record touches only task maps. */
  lemma EndTaskComms(ts: seq<TagData>, n: nat, ev: Event, cTagNo: int)
    requires AllShaped(ts, n) && InRange(ev, n) && 2 <= |ts| && ev.EndTask?
    requires -1 <= cTagNo && cTagNo + 2 < |ts|
    ensures var ts' := CountStep(ts, n, ev, cTagNo).0; AllShaped(ts', n) && StepComms(ts, ts', n, ev, cTagNo)
  {
    EndStepAt(ts, n, ev, cTagNo, Holder(ts, cTagNo + 2, ev.node, ev.taskId));
  }

  /** Start, pause, end, task and begin records leave every matrix as it was. */
  lemma OtherComms(ts: seq<TagData>, n: nat, ev: Event, cTagNo: int)
    requires AllShaped(ts, n) && InRange(ev, n) && 2 <= |ts|
    requires ev.Start? || ev.Pause? || ev.End? || ev.Task? || ev.BeginTask?
    requires -1 <= cTagNo && cTagNo + 2 < |ts|
    ensures var ts' := CountStep(ts, n, ev, cTagNo).0;
            AllShaped(ts', n) && forall k :: 0 <= k < |ts| ==> ts'[k].comms == ts[k].comms
  {
  }

  /** The charged traffic still follows the grown list once the event is kept. */
  lemma KeptTagTraffic(ts: seq<TagData>, ts': seq<TagData>, n: nat, s: seq<Event>, ev: Event, cTagNo: int)
    requires AllShaped(ts, n) && AllShaped(ts', n) && |ts'| == |ts| && cTagNo + 1 == |TopTags(s)|
    requires CountedTraffic(ts, n, s) && StepComms(ts, ts', n, ev, cTagNo)
    ensures CountedTraffic(ts', n, s + [ev])
  {
    var s' := s + [ev];
    assert s'[..|s'| - 1] == s;
    forall k, a, b | 1 <= k < |ts| && 0 <= a < n && 0 <= b < n
      ensures ts'[k].comms[a][b] == TagTraffic(s', k - 2, a, b)
    {
      var c := TagTraffic(s, k - 2, a, b);
      assert ts[k].comms[a][b] == c;
      assert TagTraffic(s', k - 2, a, b)
             == if Moves(ev, a, b) && |TopTags(s)| - 1 == k - 2 then Count(c, TransferOf(ev), TransferSize(ev)) else c;
    }
  }

  /** One event of the counting pass keeps every record's matrix the traffic charged to its tag. */
  lemma CountStepTraffic(ts: seq<TagData>, n: nat, s: seq<Event>, ev: Event, cTagNo: int)
    requires CountedTags(ts, n, s, cTagNo) && InRange(ev, n)
    requires IsTopTag(ev) ==> cTagNo + 3 < |ts|
    ensures var (ts', c, kept) := CountStep(ts, n, ev, cTagNo);
            AllShaped(ts', n) && CountedTraffic(ts', n, if kept then s + [ev] else s)
  {
    var (ts', c, kept) := CountStep(ts, n, ev, cTagNo);
    CountStepComms(ts, n, ev, cTagNo);
    if kept {
      KeptTagTraffic(ts, ts', n, s, ev, cTagNo);
    }
  }

  /** A table of fresh records is what the counting pass has built before any event. */
  lemma CountedFresh(ts: seq<TagData>, n: nat)
    requires n >= 1 && 2 <= |ts| && forall k :: 0 <= k < |ts| ==> ts[k] == FreshTag(n)
    ensures CountedTags(ts, n, [], -1)
  {
    assert AllOk(ts, n);
    assert ConcPattern(ts, n, 0) by {
      forall k, l | 0 <= k < |ts| && 0 <= l < n
        ensures ts[k].locales[l].runConc == 0 && ts[k].locales[l].maxConc == 0
      {
        assert ts[k] == FreshTag(n);
      }
    }
    assert CountedSound(ts, n, [], -1);
    forall a, b | 0 <= a < n && 0 <= b < n
      ensures ts[0].comms[a][b] == Traffic([], a, b)
    {
      assert ts[0] == FreshTag(n);
    }
    forall k, a, b | 1 <= k < |ts| && 0 <= a < n && 0 <= b < n
      ensures ts[k].comms[a][b] == TagTraffic([], k - 2, a, b)
    {
      assert ts[k] == FreshTag(n);
    }
  }
}
