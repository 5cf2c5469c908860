/**
 * The body lines of one locale's trace file, already split into their
 * fields, and what DataModel::LoadFile makes of each: possibly one event,
 * and an update of the set of task ids that belong to the VisualDebug tool
 * itself (whose own activity is kept out of the database).
 */
module TraceLines {
  import opened Wrappers
  import opened TraceEvent

  /** The first line of a trace file (its floating-point run stamp is not modelled). */
  datatype Header = Header(verMajor: int, verMinor: int, nodes: int, nid: int, vdbTid: int, start: Time)

  /**
   * A body line, by its leading character.  `lead` and `fourth` are the
   * first and fourth characters of a communication line, `second` the second
   * character of a fork line and `onFlag` the first character of a task's
   * on/local field.  Lines whose fields did not scan are Malformed; a line
   * without a ':' has no time at all.
   */
  datatype Line =
    | NoTime
    | VdbMark(time: Time, nid: int, taskId: int)
    | TaskLine(time: Time, nid: int, taskId: int, parentId: int, onFlag: char, lineNo: int, file: string)
    | CommLine(time: Time, lead: char, fourth: char, nid: int, rnid: int, taskId: int,
               elemSize: int, dataLen: int, lineNo: int, file: string)
    | ForkLine(time: Time, second: char, nid: int, rnid: int, fid: int, argSize: int, vdbTid: int)
    | PauseLine(time: Time, nid: int, vdbTid: int, tagId: int)
    | TagLine(time: Time, nid: int, vdbTid: int, tagId: int, name: string)
    | EndLine(time: Time, nid: int, vdbTid: int)
    | EndTaskLine(time: Time, nid: int, taskId: int)
    | BeginTaskLine(time: Time, nid: int, taskId: int)
    | Malformed(time: Time)
    | Other(time: Time)

  /** A trace file: its first line, when it scanned, and its body. */
  datatype TraceFile = TraceFile(header: Option<Header>, lines: seq<Line>)

  /**
   * What LoadFile remembers while reading one file: the VisualDebug task ids,
   * the locale-0 VisualDebug task (0 when none is marked), and one more than
   * the largest tag id seen.
   */
  datatype Reader = Reader(vdbTids: set<int>, nid0vdbtask: int, numTags: int)

  /** The reader state before the body: the header's task is a VisualDebug task, except on locale 0. */
  function StartReader(findex: int, vdbTid: int): (r: Reader)
    ensures findex != 0 <==> vdbTid in r.vdbTids
    ensures r.numTags == 0 && r.nid0vdbtask == 0
  {
    Reader(if findex != 0 then {vdbTid} else {}, 0, 0)
  }

  /** A 'g' line is a get and a 'p' line a put; 'n' and 's' lines say which at their fourth character. */
  predicate IsGet(lead: char, fourth: char)
  {
    if lead == 'g' then true else if lead == 'p' then false else fourth == 'g'
  }

  /**
   * One body line read: the new reader state and the event it contributes.
   * Communication, fork, begin-task and end-task lines of VisualDebug tasks
   * contribute nothing; a task started by a VisualDebug task becomes one.
   */
  function Read(st: Reader, ln: Line): (r: (Reader, Option<Event>))
    ensures st.vdbTids <= r.0.vdbTids
    ensures st.numTags <= r.0.numTags
    ensures ln.TagLine? ==> ln.tagId < r.0.numTags && r.1 == Some(Tag(ln.time, ln.nid, ln.tagId, ln.name, ln.vdbTid))
    ensures r.0.vdbTids != st.vdbTids ==> ln.VdbMark? || ln.TaskLine?
    ensures (ln.CommLine? || ln.EndTaskLine? || ln.BeginTaskLine?) && ln.taskId in st.vdbTids ==> r.1 == None
    ensures ln.ForkLine? && ln.vdbTid in st.vdbTids ==> r.1 == None
    ensures ln.TaskLine? ==> (r.1 == None <==> (ln.parentId in st.vdbTids
                                                || (ln.nid == 0 && ln.parentId == st.nid0vdbtask)))
    ensures ln.TaskLine? && r.1 == None ==> ln.taskId in r.0.vdbTids
    ensures r.1.Some? ==> !ln.NoTime? && r.1.value.time == ln.time
    ensures r.1.Some? ==> !r.1.value.Start?
  {
    match ln
    case NoTime => (st, None)
    case VdbMark(_, nid, taskId) =>
      if nid == 0 then (st.(nid0vdbtask := taskId), None)
      else (st.(vdbTids := st.vdbTids + {taskId}), None)
    case TaskLine(time, nid, taskId, parentId, onFlag, lineNo, file) =>
      if parentId in st.vdbTids || (nid == 0 && parentId == st.nid0vdbtask) then
        (st.(vdbTids := st.vdbTids + {taskId}), None)
      else (st, Some(Task(time, nid, taskId, onFlag == 'O', lineNo, file)))
    case CommLine(time, lead, fourth, nid, rnid, taskId, elemSize, dataLen, lineNo, file) =>
      if taskId in st.vdbTids then (st, None)
      else if IsGet(lead, fourth) then
        (st, Some(Comm(time, rnid, rnid, nid, elemSize, dataLen, true, taskId, lineNo, file)))
      else (st, Some(Comm(time, nid, nid, rnid, elemSize, dataLen, false, taskId, lineNo, file)))
    case ForkLine(time, second, nid, rnid, _, argSize, vdbTid) =>
      if vdbTid in st.vdbTids then (st, None)
      else (st, Some(Fork(time, nid, nid, rnid, argSize, second == '_', vdbTid)))
    case PauseLine(time, nid, vdbTid, tagId) =>
      (if nid == 0 then st.(nid0vdbtask := 0) else st, Some(Pause(time, nid, tagId, vdbTid)))
    case TagLine(time, nid, vdbTid, tagId, name) =>
      var st1 := if tagId >= st.numTags then st.(numTags := tagId + 1) else st;
      (if nid == 0 then st1.(nid0vdbtask := 0) else st1, Some(Tag(time, nid, tagId, name, vdbTid)))
    case EndLine(time, nid, vdbTid) => (st, Some(End(time, nid, vdbTid)))
    case EndTaskLine(time, nid, taskId) =>
      if taskId in st.vdbTids then (st, None) else (st, Some(EndTask(time, nid, taskId)))
    case BeginTaskLine(time, nid, taskId) =>
      if taskId in st.vdbTids then (st, None) else (st, Some(BeginTask(time, nid, taskId)))
    case Malformed(_) => (st, None)
    case Other(_) => (st, None)
  }

  /** A communication line's event runs from the locale that holds the data to the one that receives it. */
  lemma CommDirection(st: Reader, ln: Line)
    requires ln.CommLine? && Read(st, ln).1.Some?
    ensures var e := Read(st, ln).1.value;
            e.Comm? && e.isGet == IsGet(ln.lead, ln.fourth)
            && (e.isGet ==> e.src == ln.rnid && e.dst == ln.nid)
            && (!e.isGet ==> e.src == ln.nid && e.dst == ln.rnid)
            && e.inTask == ln.taskId
  {
  }

  /** Reading a file's body: the reader state after it and the events, in file order. */
  function ReadAll(st: Reader, ls: seq<Line>): (r: (Reader, seq<Event>))
    ensures st.vdbTids <= r.0.vdbTids && st.numTags <= r.0.numTags
    ensures |r.1| <= |ls|
    ensures forall k :: 0 <= k < |r.1| ==> !r.1[k].Start?
    decreases |ls|
  {
    if ls == [] then (st, [])
    else
      var (st1, es) := ReadAll(st, ls[..|ls| - 1]);
      var (st2, e) := Read(st1, ls[|ls| - 1]);
      (st2, if e.Some? then es + [e.value] else es)
  }

  /** Every tag line of the body raises the tag count above its tag id. */
  lemma {:induction false} TagsCounted(st: Reader, ls: seq<Line>, k: nat)
    requires k < |ls| && ls[k].TagLine?
    ensures ls[k].tagId < ReadAll(st, ls).0.numTags
    decreases |ls|
  {
    if k < |ls| - 1 {
      TagsCounted(st, ls[..|ls| - 1], k);
    }
  }
}
