/**
 * The event records of the chplvis trace database.  Each variant stands for
 * one of the E_* classes that DataModel::LoadFile creates from a trace line.
 */
module TraceEvent {

  /** A trace timestamp: whole seconds and microseconds. */
  datatype Time = Time(sec: int, usec: int)

  /** `a < b` on events: the timestamps are compared seconds first. */
  predicate Earlier(a: Time, b: Time)
  {
    a.sec < b.sec || (a.sec == b.sec && a.usec < b.usec)
  }

  /** The Ekind enumeration.  Its declaration order is the order Ekind values compare in. */
  datatype Kind = KStart | KTag | KPause | KEnd | KTask | KBeginTask | KEndTask | KComm | KFork

  function Rank(k: Kind): (r: nat)
    ensures r <= 3 <==> k in {KStart, KTag, KPause, KEnd}
  {
    match k
    case KStart => 0
    case KTag => 1
    case KPause => 2
    case KEnd => 3
    case KTask => 4
    case KBeginTask => 5
    case KEndTask => 6
    case KComm => 7
    case KFork => 8
  }

  datatype Event =
    | Start(time: Time, node: int)
    | Tag(time: Time, node: int, tagNo: int, name: string, vdbTid: int)
    | Pause(time: Time, node: int, tagId: int, vdbTid: int)
    | End(time: Time, node: int, vdbTid: int)
    | Task(time: Time, node: int, taskId: int, onExecute: bool, lineNo: int, file: string)
    | BeginTask(time: Time, node: int, taskId: int)
    | EndTask(time: Time, node: int, taskId: int)
    | Comm(time: Time, node: int, src: int, dst: int, elemSize: int, dataLen: int,
           isGet: bool, inTask: int, lineNo: int, file: string)
    | Fork(time: Time, node: int, src: int, dst: int, argSize: int, fast: bool, inTask: int)
  {
    function Kind(): Kind
    {
      match this
      case Start(_, _) => KStart
      case Tag(_, _, _, _, _) => KTag
      case Pause(_, _, _, _) => KPause
      case End(_, _, _) => KEnd
      case Task(_, _, _, _, _, _) => KTask
      case BeginTask(_, _, _) => KBeginTask
      case EndTask(_, _, _) => KEndTask
      case Comm(_, _, _, _, _, _, _, _, _, _) => KComm
      case Fork(_, _, _, _, _, _, _) => KFork
    }

    /** Start, tag, pause and end records are the "markers": `Ekind() <= Ev_end`. */
    predicate IsMarker()
    {
      Rank(Kind()) <= Rank(KEnd)
    }

    /** Bytes moved by a communication event, as totalLen() reports them. */
    function TotalLen(): int
      requires Comm?
    {
      elemSize * dataLen
    }
  }
}
