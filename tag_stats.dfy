/**
 * The per-tag statistics records of the chplvis trace database (tagData,
 * its per-locale localeData, the commData matrix cells and the per-task
 * taskData) and the record updates that DataModel::LoadData applies to them.
 */
module TagStats {
  import opened Wrappers
  import opened TraceEvent

  function Max(a: int, b: int): int
  {
    if a < b then b else a
  }

  /** Traffic from one locale to another within one tag (or one task). */
  datatype CommData = CommData(numComms: int, numGets: int, numPuts: int, numForks: int, commSize: int)

  const NoComms: CommData := CommData(0, 0, 0, 0, 0)

  /** Every communication is counted as exactly one of get, put or fork. */
  predicate CellOk(c: CommData)
  {
    c.numComms == c.numGets + c.numPuts + c.numForks
  }

  /** What a communication event is counted as. */
  datatype Transfer = Get | Put | Forked

  /** One more communication of kind `op` carrying `size` bytes. */
  function Count(c: CommData, op: Transfer, size: int): (r: CommData)
    ensures r.numComms == c.numComms + 1 && r.commSize == c.commSize + size
    ensures CellOk(r) <==> CellOk(c)
    ensures r.numGets >= c.numGets && r.numPuts >= c.numPuts && r.numForks >= c.numForks
    ensures (r.numGets - c.numGets) + (r.numPuts - c.numPuts) + (r.numForks - c.numForks) == 1
    ensures op == Get <==> r.numGets > c.numGets
    ensures op == Put <==> r.numPuts > c.numPuts
  {
    match op
    case Get => c.(numComms := c.numComms + 1, numGets := c.numGets + 1, commSize := c.commSize + size)
    case Put => c.(numComms := c.numComms + 1, numPuts := c.numPuts + 1, commSize := c.commSize + size)
    case Forked => c.(numComms := c.numComms + 1, numForks := c.numForks + 1, commSize := c.commSize + size)
  }

  /** A task: its creation, begin and end records and the communication it caused. */
  datatype TaskData = TaskData(taskRec: Option<Event>, beginRec: Option<Event>, endRec: Option<Event>,
                               endTagNo: Option<int>, commList: seq<Event>, commSum: CommData)

  /** The record made for a new task event: nothing begun, ended or communicated yet. */
  const NoTask: TaskData := TaskData(None, None, None, None, [], NoComms)

  /** A communication or fork charged to the task it ran in. */
  function Charge(t: TaskData, e: Event, op: Transfer, size: int): (r: TaskData)
    ensures r.commList == t.commList + [e]
    ensures r.commSum == Count(t.commSum, op, size) && r.commSum.numComms == t.commSum.numComms + 1
    ensures CellOk(r.commSum) <==> CellOk(t.commSum)
    ensures r.taskRec == t.taskRec && r.beginRec == t.beginRec && r.endRec == t.endRec
  {
    t.(commList := t.commList + [e], commSum := Count(t.commSum, op, size))
  }

  /**
   * One locale's share of a tag.  `hasRef` stands for a non-zero reference
   * clock time: the tag (or pause) has started on this locale and not been
   * closed yet.
   */
  datatype LocaleData = LocaleData(hasRef: bool, numTasks: int, runConc: int, maxConc: int,
                                   tasks: map<int, TaskData>)

  const NoLocale: LocaleData := LocaleData(false, 0, 0, 0, map[])

  /** One tag: per-locale data, the locale-to-locale matrix and the maxima over them. */
  datatype TagData = TagData(name: string, locales: seq<LocaleData>, comms: seq<seq<CommData>>,
                             maxComms: int, maxSize: int, maxTasks: int, maxConc: int)

  /** The record has one entry per locale and an n-by-n communication matrix. */
  predicate Shape(t: TagData, n: nat)
  {
    |t.locales| == n && |t.comms| == n && forall i :: 0 <= i < n ==> |t.comms[i]| == n
  }

  predicate TasksOk(m: map<int, TaskData>)
  {
    forall id :: id in m ==> CellOk(m[id].commSum)
  }

  /**
   * The counter invariants of a tag: every cell and every task sum counts each
   * communication once, and maxComms and maxSize bound every cell.
   */
  predicate TagOk(t: TagData, n: nat)
  {
    Shape(t, n)
    && (forall i, j :: 0 <= i < n && 0 <= j < n ==>
          CellOk(t.comms[i][j]) && t.comms[i][j].numComms <= t.maxComms
          && t.comms[i][j].commSize <= t.maxSize)
    && (forall l :: 0 <= l < n ==> TasksOk(t.locales[l].tasks))
  }

  /** The concurrency counters of a tag: its peak, and each locale's running count and peak. */
  function ConcOf(t: TagData): (int, seq<int>, seq<int>)
  {
    (t.maxConc, seq(|t.locales|, l requires 0 <= l < |t.locales| => t.locales[l].runConc),
     seq(|t.locales|, l requires 0 <= l < |t.locales| => t.locales[l].maxConc))
  }

  /** The concurrency counters of two versions of a tag agree. */
  predicate SameConc(a: TagData, b: TagData)
  {
    ConcOf(a) == ConcOf(b)
  }

  /** Agreeing counters, locale by locale. */
  lemma SameConcAt(a: TagData, b: TagData, l: int)
    requires SameConc(a, b) && 0 <= l < |a.locales|
    ensures |b.locales| == |a.locales| && a.maxConc == b.maxConc
    ensures a.locales[l].runConc == b.locales[l].runConc && a.locales[l].maxConc == b.locales[l].maxConc
  {
    assert |ConcOf(a).1| == |a.locales| && |ConcOf(b).1| == |b.locales|;
    assert ConcOf(a).1[l] == ConcOf(b).1[l] && ConcOf(a).2[l] == ConcOf(b).2[l];
  }

  /** A freshly allocated tag record for n locales. */
  function EmptyTag(n: nat): (r: TagData)
    ensures TagOk(r, n)
    ensures forall l :: 0 <= l < n ==> r.locales[l].tasks == map[] && !r.locales[l].hasRef
    ensures forall i, j :: 0 <= i < n && 0 <= j < n ==> r.comms[i][j] == NoComms
  {
    TagData("", seq(n, _ => NoLocale), seq(n, _ => seq(n, _ => NoComms)), 0, 0, 0, 0)
  }

  /**
   * A communication or fork from `src` to `dst` counted in a tag: exactly that
   * cell changes, and the tag maxima follow it.
   */
  function RecordTransfer(t: TagData, n: nat, src: int, dst: int, op: Transfer, size: int): (r: TagData)
    requires Shape(t, n) && 0 <= src < n && 0 <= dst < n
    ensures Shape(r, n)
    ensures r.comms[src][dst] == Count(t.comms[src][dst], op, size)
    ensures forall i, j :: 0 <= i < n && 0 <= j < n && (i != src || j != dst) ==> r.comms[i][j] == t.comms[i][j]
    ensures r.maxComms == Max(t.maxComms, r.comms[src][dst].numComms)
    ensures r.maxSize == Max(t.maxSize, r.comms[src][dst].commSize)
    ensures r.locales == t.locales && r.name == t.name && r.maxTasks == t.maxTasks && r.maxConc == t.maxConc
    ensures TagOk(t, n) ==> TagOk(r, n)
    ensures SameConc(t, r)
  {
    var c := Count(t.comms[src][dst], op, size);
    t.(comms := t.comms[src := t.comms[src][dst := c]],
       maxComms := Max(t.maxComms, c.numComms),
       maxSize := Max(t.maxSize, c.commSize))
  }

  /** The tag with locale `l`'s data replaced; everything else is kept. */
  function SetLocale(t: TagData, n: nat, l: int, d: LocaleData): (r: TagData)
    requires Shape(t, n) && 0 <= l < n
    ensures Shape(r, n) && r.locales[l] == d
    ensures forall k :: 0 <= k < n && k != l ==> r.locales[k] == t.locales[k]
    ensures r.comms == t.comms && r.name == t.name && r.maxComms == t.maxComms && r.maxSize == t.maxSize
    ensures r.maxTasks == t.maxTasks && r.maxConc == t.maxConc
    ensures TagOk(t, n) && TasksOk(d.tasks) ==> TagOk(r, n)
    ensures d.runConc == t.locales[l].runConc && d.maxConc == t.locales[l].maxConc ==> SameConc(t, r)
  {
    var r := t.(locales := t.locales[l := d]);
    assert d.runConc == t.locales[l].runConc && d.maxConc == t.locales[l].maxConc ==>
             ConcOf(r).1 == ConcOf(t).1 && ConcOf(r).2 == ConcOf(t).2;
    r
  }

  /**
   * A tag, pause or end record closes the running period of a tag on locale
   * `l`: the reference is cleared and the VisualDebug task that wrote the
   * record is dropped from the tag's task map.
   */
  function CloseLocale(t: TagData, n: nat, l: int, vdbTid: int): (r: TagData)
    requires Shape(t, n) && 0 <= l < n
    ensures Shape(r, n) && !r.locales[l].hasRef
    ensures r.locales[l].tasks.Keys == t.locales[l].tasks.Keys - {vdbTid}
    ensures forall id :: id in r.locales[l].tasks ==> r.locales[l].tasks[id] == t.locales[l].tasks[id]
    ensures forall k :: 0 <= k < n && k != l ==> r.locales[k] == t.locales[k]
    ensures r.comms == t.comms && r.maxComms == t.maxComms && r.maxSize == t.maxSize
    ensures TagOk(t, n) ==> TagOk(r, n)
    ensures SameConc(t, r)
    ensures r.name == t.name && r.maxTasks == t.maxTasks
  {
    var d := t.locales[l];
    SetLocale(t, n, l, d.(hasRef := false, tasks := d.tasks - {vdbTid}))
  }

  /** A tag record opens the tag on locale `l`. */
  function OpenLocale(t: TagData, n: nat, l: int): (r: TagData)
    requires Shape(t, n) && 0 <= l < n
    ensures Shape(r, n) && r.locales[l].hasRef
    ensures r.locales[l].tasks == t.locales[l].tasks
    ensures forall k :: 0 <= k < n && k != l ==> r.locales[k] == t.locales[k]
    ensures r.comms == t.comms && r.maxComms == t.maxComms && r.maxSize == t.maxSize
    ensures TagOk(t, n) ==> TagOk(r, n)
    ensures SameConc(t, r)
    ensures r.name == t.name && r.maxTasks == t.maxTasks
  {
    SetLocale(t, n, l, t.locales[l].(hasRef := true))
  }

  /** A task event: the task is added to locale `l`'s map unless it is already there. */
  function AddTask(t: TagData, n: nat, l: int, e: Event): (r: TagData)
    requires Shape(t, n) && 0 <= l < n && e.Task?
    ensures Shape(r, n)
    ensures r.locales[l].tasks.Keys == t.locales[l].tasks.Keys + {e.taskId}
    ensures e.taskId in t.locales[l].tasks ==> r == t
    ensures e.taskId !in t.locales[l].tasks ==> r.locales[l].tasks[e.taskId].taskRec == Some(e)
    ensures r.comms == t.comms && r.maxComms == t.maxComms && r.maxSize == t.maxSize
    ensures forall id :: id in t.locales[l].tasks ==> r.locales[l].tasks[id] == t.locales[l].tasks[id]
    ensures forall k :: 0 <= k < n && k != l ==> r.locales[k] == t.locales[k]
    ensures TagOk(t, n) ==> TagOk(r, n)
    ensures SameConc(t, r)
    ensures r.name == t.name && r.maxTasks == t.maxTasks
  {
    var d := t.locales[l];
    if e.taskId in d.tasks then t
    else SetLocale(t, n, l, d.(tasks := d.tasks[e.taskId := NoTask.(taskRec := Some(e))]))
  }

  /** A task of locale `l` given new data `d`; a task the map lacks changes nothing. */
  function UpdateTask(t: TagData, n: nat, l: int, id: int, d: TaskData): (r: TagData)
    requires Shape(t, n) && 0 <= l < n
    ensures Shape(r, n)
    ensures r.locales[l].tasks.Keys == t.locales[l].tasks.Keys
    ensures id in t.locales[l].tasks ==> r.locales[l].tasks[id] == d
    ensures id !in t.locales[l].tasks ==> r == t
    ensures forall x :: x in t.locales[l].tasks && x != id ==> r.locales[l].tasks[x] == t.locales[l].tasks[x]
    ensures forall k :: 0 <= k < n && k != l ==> r.locales[k] == t.locales[k]
    ensures r.locales[l].hasRef == t.locales[l].hasRef
    ensures r.comms == t.comms && r.maxComms == t.maxComms && r.maxSize == t.maxSize
    ensures r.locales[l].runConc == t.locales[l].runConc && r.locales[l].maxConc == t.locales[l].maxConc
    ensures r.maxConc == t.maxConc
    ensures TagOk(t, n) && CellOk(d.commSum) ==> TagOk(r, n)
    ensures SameConc(t, r)
    ensures r.name == t.name && r.maxTasks == t.maxTasks
  {
    var ld := t.locales[l];
    if id in ld.tasks then SetLocale(t, n, l, ld.(tasks := ld.tasks[id := d])) else t
  }
}
