/**
 * The unique-tag table LoadData builds when some tag names repeat: one
 * record per distinct name, in order of first appearance, holding the merged
 * data of every tag with that name, and name2tag remapped to those records.
 */
module UniqueTags {
  import opened TagStats
  import opened LoadPasses

  /** The records after the first j of a well-shaped table are well shaped. */
  lemma AllShapedDrop(ts: seq<TagData>, n: nat, j: nat)
    requires AllShaped(ts, n) && j <= |ts|
    ensures AllShaped(ts[j..], n)
  {
    forall k | 0 <= k < |ts| - j ensures Shape(ts[j..][k], n) {
      assert ts[j..][k] == ts[k + j];
    }
  }

  /** The names of a run of tag records. */
  function Names(ts: seq<TagData>): (r: seq<string>)
    ensures |r| == |ts| && forall k :: 0 <= k < |ts| ==> r[k] == ts[k].name
  {
    seq(|ts|, k requires 0 <= k < |ts| => ts[k].name)
  }

  /**
   * name2tag after the first p tags were merged: a name already met points
   * at its unique record, any other still at the first tag carrying it.
   */
  function Remap(ns: seq<string>, p: nat): (m: map<string, int>)
    requires p <= |ns|
  {
    RemapWith(ns, Uniques(ns[..p]))
  }

  /** The first-index map with the names of u pointed at their positions in u. */
  function RemapWith(ns: seq<string>, u: seq<string>): (m: map<string, int>)
  {
    map x | x in FirstIndex(ns) :: if x in u then IndexIn(u, x) else FirstIndex(ns)[x]
  }

  /** The unique-tag records after the first p tags were merged; `size` records are allocated. */
  function Utags(ts: seq<TagData>, n: nat, p: nat, size: nat): (r: seq<TagData>)
    requires p <= |ts| && AllShaped(ts, n)
    ensures |r| == size && AllShaped(r, n)
  {
    var u := Uniques(Names(ts[..p]));
    seq(size, i requires 0 <= i < size => if i < |u| then MergeAll(Named(u[i], n), ts[..p], u[i], n) else EmptyTag(n))
  }

  /** The finished table: for each distinct name, all tags with that name merged in order. */
  function UniqueTable(ts: seq<TagData>, n: nat): (r: seq<TagData>)
    requires AllShaped(ts, n)
    ensures |r| == |Uniques(Names(ts))| && AllShaped(r, n)
  {
    var u := Uniques(Names(ts));
    seq(|u|, i requires 0 <= i < |u| => MergeAll(Named(u[i], n), ts, u[i], n))
  }

  /** The finished name map: each name to its record in the unique table. */
  function UniqueIndex(ns: seq<string>): (m: map<string, int>)
  {
    map x | x in ns :: IndexIn(Uniques(ns), x)
  }

  /** Tags with other names leave a merge untouched. */
  lemma {:induction false} MergeAllNone(acc: TagData, ts: seq<TagData>, x: string, n: nat)
    requires Shape(acc, n) && AllShaped(ts, n) && forall k :: 0 <= k < |ts| ==> ts[k].name != x
    ensures MergeAll(acc, ts, x, n) == acc
    decreases |ts|
  {
    if ts != [] {
      MergeAllNone(acc, ts[..|ts| - 1], x, n);
    }
  }

  /** Merging one more tag. */
  lemma MergeAllSnoc(acc: TagData, ts: seq<TagData>, x: string, n: nat, p: nat)
    requires Shape(acc, n) && AllShaped(ts, n) && p < |ts|
    ensures MergeAll(acc, ts[..p + 1], x, n)
            == if ts[p].name == x then MergeInto(MergeAll(acc, ts[..p], x, n), ts[p], n) else MergeAll(acc, ts[..p], x, n)
  {
    assert ts[..p + 1][..p] == ts[..p];
  }

  /** The unique names of one more name. */
  lemma UniquesSnoc(ns: seq<string>, p: nat)
    requires p < |ns|
    ensures Uniques(ns[..p + 1]) == if ns[p] in ns[..p] then Uniques(ns[..p]) else Uniques(ns[..p]) + [ns[p]]
  {
    assert ns[..p + 1][..p] == ns[..p];
  }

  /** A name keeps its position when a new name is appended. */
  lemma IndexInSnoc(u: seq<string>, x: string, y: string)
    requires Distinct(u + [x]) && y in u + [x]
    ensures IndexIn(u + [x], y) == if y == x then |u| else IndexIn(u, y)
  {
    var v := u + [x];
    if y != x {
      assert v[..|v| - 1] == u;
    }
  }

  /**
   * The test of the merge loop: the entry for the p-th name is at least the
   * number of unique tags so far exactly when the name was not met before,
   * and it is then the name's own position p.
   */
  lemma RemapTest(ns: seq<string>, p: nat)
    requires p < |ns|
    ensures ns[p] in Remap(ns, p)
    ensures Remap(ns, p)[ns[p]] >= |Uniques(ns[..p])| <==> ns[p] !in ns[..p]
    ensures ns[p] in ns[..p] ==> Remap(ns, p)[ns[p]] == IndexIn(Uniques(ns[..p]), ns[p])
  {
    var x := ns[p];
    var u := Uniques(ns[..p]);
    assert x in FirstIndex(ns);
    if x !in ns[..p] {
      assert FirstIndex(ns)[x] == p;
      assert |u| <= |ns[..p]|;
    }
  }

  /** name2tag after the p-th tag: a new name is pointed at the next unique record. */
  lemma RemapNext(ns: seq<string>, p: nat)
    requires p < |ns|
    ensures Remap(ns, p + 1)
            == if ns[p] in ns[..p] then Remap(ns, p) else Remap(ns, p)[ns[p] := |Uniques(ns[..p])|]
  {
    var x := ns[p];
    var u := Uniques(ns[..p]);
    UniquesSnoc(ns, p);
    if x !in ns[..p] {
      assert Distinct(u + [x]);
      RemapWithSnoc(ns, u, x);
    }
  }

  /** Appending a new name x to u points x at the end of u and moves nothing else. */
  lemma RemapWithSnoc(ns: seq<string>, u: seq<string>, x: string)
    requires Distinct(u + [x]) && x in ns
    ensures RemapWith(ns, u + [x]) == RemapWith(ns, u)[x := |u|]
  {
    var a := RemapWith(ns, u + [x]);
    var b := RemapWith(ns, u)[x := |u|];
    assert x in FirstIndex(ns);
    assert a.Keys == b.Keys;
    forall y | y in a.Keys ensures a[y] == b[y] {
      if y in u + [x] {
        IndexInSnoc(u, x, y);
      }
    }
  }

  /** Where the p-th tag is merged: its name's record, or the next free one for a new name. */
  function Slot(ns: seq<string>, p: nat): nat
    requires p < |ns|
  {
    var u := Uniques(ns[..p]);
    if ns[p] in u then IndexIn(u, ns[p]) else |u|
  }

  /** The record the p-th tag is merged into: a fresh one is first given the tag's name. */
  function Target(ts: seq<TagData>, n: nat, p: nat, size: nat): TagData
    requires p < |ts| && AllShaped(ts, n) && Slot(Names(ts), p) < size
  {
    var ns := Names(ts);
    var t := Utags(ts, n, p, size)[Slot(ns, p)];
    if ns[p] in ns[..p] then t else t.(name := ns[p])
  }

  /**
   * The records after the p-th tag: the record of its name (a fresh one,
   * named, for a new name) has the tag merged in, and no other changes.
   */
  lemma UtagsNext(ts: seq<TagData>, n: nat, p: nat, size: nat)
    requires p < |ts| && AllShaped(ts, n)
    requires |Uniques(Names(ts[..p + 1]))| <= size
    ensures Slot(Names(ts), p) < size
    ensures Utags(ts, n, p + 1, size)
            == Utags(ts, n, p, size)[Slot(Names(ts), p) := MergeInto(Target(ts, n, p, size), ts[p], n)]
  {
    SlotBound(ts, p, size);
    UtagsNextAll(ts, n, p, size);
  }

  lemma SlotBound(ts: seq<TagData>, p: nat, size: nat)
    requires p < |ts| && |Uniques(Names(ts[..p + 1]))| <= size
    ensures Names(ts[..p]) == Names(ts)[..p] && Names(ts[..p + 1]) == Names(ts)[..p + 1]
    ensures Slot(Names(ts), p) < size
  {
    var ns := Names(ts);
    assert Names(ts[..p]) == ns[..p] && Names(ts[..p + 1]) == ns[..p + 1];
    UniquesSnoc(ns, p);
  }

  lemma UtagsNextAll(ts: seq<TagData>, n: nat, p: nat, size: nat)
    requires p < |ts| && AllShaped(ts, n)
    requires |Uniques(Names(ts[..p + 1]))| <= size
    requires Names(ts[..p]) == Names(ts)[..p] && Names(ts[..p + 1]) == Names(ts)[..p + 1]
    requires Slot(Names(ts), p) < size
    ensures Utags(ts, n, p + 1, size)
            == Utags(ts, n, p, size)[Slot(Names(ts), p) := MergeInto(Target(ts, n, p, size), ts[p], n)]
  {
    var old_ := Utags(ts, n, p, size);
    var new_ := Utags(ts, n, p + 1, size);
    var v := MergeInto(Target(ts, n, p, size), ts[p], n);
    var i := Slot(Names(ts), p);
    forall j | 0 <= j < size ensures new_[j] == old_[i := v][j] {
      UtagsNextAt(ts, n, p, size, j);
    }
  }

  lemma UtagsNextAt(ts: seq<TagData>, n: nat, p: nat, size: nat, j: nat)
    requires p < |ts| && AllShaped(ts, n) && j < size
    requires |Uniques(Names(ts[..p + 1]))| <= size
    requires Names(ts[..p]) == Names(ts)[..p] && Names(ts[..p + 1]) == Names(ts)[..p + 1]
    requires Slot(Names(ts), p) < size
    ensures Utags(ts, n, p + 1, size)[j]
            == if j == Slot(Names(ts), p) then MergeInto(Target(ts, n, p, size), ts[p], n) else Utags(ts, n, p, size)[j]
  {
    var ns := Names(ts);
    var u' := Uniques(ns[..p + 1]);
    UniquesSnoc(ns, p);
    if j < |u'| {
      MergeAllSnoc(Named(u'[j], n), ts, u'[j], n, p);
      if j == Slot(ns, p) {
        if ns[p] !in Uniques(ns[..p]) {
          UtagsNextNew(ts, n, p);
        }
      } else {
        UtagsNextOther(ns, p, j);
      }
    }
  }

  /** A new name's record starts fresh, so nothing of earlier tags is in it. */
  lemma UtagsNextNew(ts: seq<TagData>, n: nat, p: nat)
    requires p < |ts| && AllShaped(ts, n) && ts[p].name !in Uniques(Names(ts[..p]))
    ensures MergeAll(Named(ts[p].name, n), ts[..p], ts[p].name, n) == Named(ts[p].name, n)
  {
    var x := ts[p].name;
    forall k | 0 <= k < p ensures ts[..p][k].name != x {
      assert Names(ts[..p])[k] == ts[k].name;
    }
    MergeAllNone(Named(x, n), ts[..p], x, n);
  }

  /** Any other record keeps its name, which differs from the p-th tag's. */
  lemma UtagsNextOther(ns: seq<string>, p: nat, j: nat)
    requires p < |ns| && j < |Uniques(ns[..p + 1])| && j != Slot(ns, p)
    ensures j < |Uniques(ns[..p])|
    ensures Uniques(ns[..p + 1])[j] == Uniques(ns[..p])[j] != ns[p]
  {
    var x := ns[p];
    var u := Uniques(ns[..p]);
    UniquesSnoc(ns, p);
    if x in u {
      assert u[IndexIn(u, x)] == x;
    }
  }

  /** Before any tag is merged, name2tag is the first-index map and every record is empty. */
  lemma RemapStart(ns: seq<string>, ts: seq<TagData>, n: nat, size: nat)
    requires AllShaped(ts, n)
    ensures Remap(ns, 0) == FirstIndex(ns)
    ensures Utags(ts, n, 0, size) == seq(size, _ => EmptyTag(n))
  {
    assert ns[..0] == [];
    assert Names(ts[..0]) == [];
  }

  /** After the last tag, the records and the map are the finished unique table and index. */
  lemma UtagsDone(ts: seq<TagData>, n: nat)
    requires AllShaped(ts, n)
    ensures Utags(ts, n, |ts|, |Uniques(Names(ts))|) == UniqueTable(ts, n)
    ensures Remap(Names(ts), |ts|) == UniqueIndex(Names(ts))
  {
    assert ts[..|ts|] == ts;
    assert Names(ts)[..|ts|] == Names(ts);
  }

  /**
   * The unique table has one record per distinct name and the index points
   * each name, and only the names of the tags, at its record.
   */
  lemma UniqueTableShape(ts: seq<TagData>, n: nat)
    requires AllShaped(ts, n)
    ensures var r := UniqueTable(ts, n);
            var m := UniqueIndex(Names(ts));
            |r| == |m|
            && (forall x :: x in m <==> exists k :: 0 <= k < |ts| && ts[k].name == x)
            && (forall x :: x in m ==> 0 <= m[x] < |r| && r[m[x]].name == x)
  {
    var ns := Names(ts);
    IndexKeys(ns);
    forall x ensures x in ns <==> exists k :: 0 <= k < |ts| && ts[k].name == x {
      if x in ns {
        var k :| 0 <= k < |ns| && ns[k] == x;
        assert ts[k].name == x;
      }
    }
  }

  /** The index has one key per distinct name. */
  lemma IndexKeys(ns: seq<string>)
    ensures |UniqueIndex(ns)| == |Uniques(ns)| && forall x :: x in UniqueIndex(ns) <==> x in ns
  {
    UniquesCount(ns);
    assert UniqueIndex(ns).Keys == FirstIndex(ns).Keys;
  }

  /**
   * The record of name x holds the summed task counts and communications
   * of every tag named x, and keeps the tag invariants.
   */
  lemma UniqueRecordSpec(ts: seq<TagData>, n: nat, x: string)
    requires AllShaped(ts, n) && forall k :: 0 <= k < |ts| ==> TagOk(ts[k], n)
    requires x in Names(ts)
    ensures var r := UniqueTable(ts, n)[UniqueIndex(Names(ts))[x]];
            TagOk(r, n)
            && (forall l :: 0 <= l < n ==> r.locales[l].numTasks == TasksNamed(ts, x, l))
            && (forall i, j :: 0 <= i < n && 0 <= j < n ==> r.comms[i][j] == CommsNamed(ts, x, i, j))
  {
    UniqueRecordIs(ts, n, x);
    forall a, b | 0 <= a < n && 0 <= b < n ensures AddComm(NoComms, CommsNamed(ts, x, a, b)) == CommsNamed(ts, x, a, b) {
      AddNoComms(CommsNamed(ts, x, a, b));
    }
    MergedTotals(Named(x, n), ts, x, n);
  }

  /** The record of name x is every tag named x merged into a fresh record. */
  lemma UniqueRecordIs(ts: seq<TagData>, n: nat, x: string)
    requires AllShaped(ts, n) && x in Names(ts)
    ensures x in UniqueIndex(Names(ts)) && UniqueIndex(Names(ts))[x] < |UniqueTable(ts, n)|
    ensures UniqueTable(ts, n)[UniqueIndex(Names(ts))[x]] == MergeAll(Named(x, n), ts, x, n)
  {
    var u := Uniques(Names(ts));
    var i := IndexIn(u, x);
    assert UniqueIndex(Names(ts))[x] == i;
  }

  /** An empty cell adds nothing. */
  lemma AddNoComms(c: CommData)
    ensures AddComm(NoComms, c) == c
  {
  }

  /**
   * A unique tag part-way through one merge: the first il locales and
   * matrix rows are merged, and the tag maxima cover them.
   */
  function MergedRows(a: TagData, locs: seq<LocaleData>, cells: seq<seq<CommData>>, il: nat): TagData
    requires il <= |locs| == |a.locales| && il <= |cells| == |a.comms|
  {
    a.(locales := locs[..il] + a.locales[il..], comms := cells[..il] + a.comms[il..],
       maxComms := CellsMax(a.maxComms, cells[..il], false), maxSize := CellsMax(a.maxSize, cells[..il], true),
       maxTasks := TasksMax(a.maxTasks, locs[..il]), maxConc := ConcMax(a.maxConc, locs[..il]))
  }

  /** No row merged yet is the unique tag as it was. */
  lemma MergedRowsStart(a: TagData, b: TagData, n: nat)
    requires Shape(a, n) && Shape(b, n)
    ensures MergedRows(a, MergeLocales(a.locales, b.locales), MergeCells(a.comms, b.comms, n), 0) == a
  {
    var locs := MergeLocales(a.locales, b.locales);
    var cells := MergeCells(a.comms, b.comms, n);
    assert locs[..0] + a.locales[0..] == a.locales;
    assert cells[..0] + a.comms[0..] == a.comms;
  }

  /** All rows merged is the merge. */
  lemma MergedRowsDone(a: TagData, b: TagData, n: nat)
    requires Shape(a, n) && Shape(b, n)
    ensures MergedRows(a, MergeLocales(a.locales, b.locales), MergeCells(a.comms, b.comms, n), n) == MergeInto(a, b, n)
  {
    var locs := MergeLocales(a.locales, b.locales);
    var cells := MergeCells(a.comms, b.comms, n);
    assert locs[..n] + a.locales[n..] == locs && locs[..n] == locs;
    assert cells[..n] + a.comms[n..] == cells && cells[..n] == cells;
  }

  /** The maxima over one more locale or row. */
  lemma MaxSteps(a: TagData, locs: seq<LocaleData>, cells: seq<seq<CommData>>, il: nat)
    requires il < |locs| && il < |cells|
    ensures TasksMax(a.maxTasks, locs[..il + 1]) == Max(TasksMax(a.maxTasks, locs[..il]), locs[il].numTasks)
    ensures ConcMax(a.maxConc, locs[..il + 1]) == Max(ConcMax(a.maxConc, locs[..il]), locs[il].maxConc)
    ensures CellsMax(a.maxComms, cells[..il + 1], false) == RowMax(CellsMax(a.maxComms, cells[..il], false), cells[il], false)
    ensures CellsMax(a.maxSize, cells[..il + 1], true) == RowMax(CellsMax(a.maxSize, cells[..il], true), cells[il], true)
  {
    assert locs[..il + 1][..il] == locs[..il];
    assert cells[..il + 1][..il] == cells[..il];
  }

  /** The row maximum over one more cell. */
  lemma RowMaxStep(init: int, row: seq<CommData>, ic: nat, bySize: bool)
    requires ic < |row|
    ensures RowMax(init, row[..ic + 1], bySize) == Max(RowMax(init, row[..ic], bySize), Measure(row[ic], bySize))
  {
    assert row[..ic + 1][..ic] == row[..ic];
  }

  /** Merging row il: its locale and matrix row are replaced and the maxima take them in. */
  lemma MergedRowsNext(a: TagData, b: TagData, n: nat, il: nat)
    requires Shape(a, n) && Shape(b, n) && il < n
    ensures var locs := MergeLocales(a.locales, b.locales);
            var cells := MergeCells(a.comms, b.comms, n);
            var m := MergedRows(a, locs, cells, il);
            m.locales[il] == a.locales[il] && m.comms[il] == a.comms[il]
            && MergedRows(a, locs, cells, il + 1)
               == m.(locales := m.locales[il := locs[il]], comms := m.comms[il := cells[il]],
                     maxComms := RowMax(m.maxComms, cells[il], false), maxSize := RowMax(m.maxSize, cells[il], true),
                     maxTasks := Max(m.maxTasks, locs[il].numTasks), maxConc := Max(m.maxConc, locs[il].maxConc))
  {
    var locs := MergeLocales(a.locales, b.locales);
    var cells := MergeCells(a.comms, b.comms, n);
    MaxSteps(a, locs, cells, il);
    SpliceNext(locs, a.locales, il);
    SpliceNext(cells, a.comms, il);
  }

  /** The first il + 1 elements of x before the rest of y: one more element of x replaces y's. */
  lemma SpliceNext<T>(x: seq<T>, y: seq<T>, il: nat)
    requires |x| == |y| && il < |x|
    ensures (x[..il] + y[il..])[il] == y[il]
    ensures x[..il + 1] + y[il + 1..] == (x[..il] + y[il..])[il := x[il]]
  {
  }

  /**
   * One step of the merge loop on values, given name2tag m, the count k of
   * records taken and the tag b: the record b goes to is the one its name
   * points at, or record k when the entry is at least k (a name not met yet).
   */
  predicate MergeOk(m: map<string, int>, k: int, b: TagData, us: seq<TagData>, n: nat)
  {
    b.name in m && Shape(b, n) && AllShaped(us, n)
    && (if m[b.name] >= k then 0 <= k < |us| else 0 <= m[b.name] < |us|)
  }

  function MergeSlot(m: map<string, int>, k: int, x: string): int
    requires x in m
  {
    if m[x] >= k then k else m[x]
  }

  /** name2tag after the step: a new name is pointed at record k. */
  function MergeMap(m: map<string, int>, k: int, x: string): map<string, int>
    requires x in m
  {
    if m[x] >= k then m[x := k] else m
  }

  /** The count of records taken after the step. */
  function MergeCount(m: map<string, int>, k: int, x: string): int
    requires x in m
  {
    if m[x] >= k then k + 1 else k
  }

  /** The records after the step: a new record first takes b's name, then b is merged in. */
  function MergeRecords(us: seq<TagData>, m: map<string, int>, k: int, b: TagData, n: nat): (r: seq<TagData>)
    requires MergeOk(m, k, b, us, n)
    ensures |r| == |us|
  {
    var i := MergeSlot(m, k, b.name);
    var t := if m[b.name] >= k then us[i].(name := b.name) else us[i];
    us[i := MergeInto(t, b, n)]
  }

  /**
   * The loop step takes the state after p tags to the state after p + 1:
   * name2tag, the count of unique records and the records themselves.
   */
  lemma MergeStepSpec(ts: seq<TagData>, n: nat, p: nat, size: nat,
                      m: map<string, int>, k: int, us: seq<TagData>, b: TagData)
    requires p < |ts| && AllShaped(ts, n) && size == |Uniques(Names(ts))| && b == ts[p]
    requires m == Remap(Names(ts), p) && k == |Uniques(Names(ts)[..p])| && us == Utags(ts, n, p, size)
    ensures MergeOk(m, k, b, us, n)
    ensures MergeMap(m, k, b.name) == Remap(Names(ts), p + 1)
    ensures MergeCount(m, k, b.name) == |Uniques(Names(ts)[..p + 1])|
    ensures MergeRecords(us, m, k, b, n) == Utags(ts, n, p + 1, size)
  {
    var ns := Names(ts);
    MergeStepNames(ns, p);
    assert ns[p] == b.name;
    UniquesGrow(ns, p + 1);
    MergeStepRecords(ts, n, p, size, m, k, us, b);
  }

  /** The record side of one step: the chosen record, renamed if new, gets the tag merged in. */
  lemma MergeStepRecords(ts: seq<TagData>, n: nat, p: nat, size: nat,
                         m: map<string, int>, k: int, us: seq<TagData>, b: TagData)
    requires p < |ts| && AllShaped(ts, n) && size == |Uniques(Names(ts))| && b == ts[p]
    requires m == Remap(Names(ts), p) && k == |Uniques(Names(ts)[..p])| && us == Utags(ts, n, p, size)
    requires b.name in m && (m[b.name] >= k <==> b.name !in Names(ts)[..p])
    requires MergeSlot(m, k, b.name) == Slot(Names(ts), p) && |Uniques(Names(ts)[..p + 1])| <= size
    requires MergeOk(m, k, b, us, n)
    ensures MergeRecords(us, m, k, b, n) == Utags(ts, n, p + 1, size)
  {
    NamesTake(ts, p + 1);
    UtagsNext(ts, n, p, size);
    MergeTargetIs(ts, n, p, size, m, k, us, b);
    MergeRecordsAt(us, m, k, b, n);
  }

  /** The names of a prefix are the prefix of the names. */
  lemma NamesTake(ts: seq<TagData>, p: nat)
    requires p <= |ts|
    ensures Names(ts[..p]) == Names(ts)[..p]
  {
  }

  /** The step's records: the chosen record, renamed when its name is new, with the tag merged in. */
  lemma MergeRecordsAt(us: seq<TagData>, m: map<string, int>, k: int, b: TagData, n: nat)
    requires MergeOk(m, k, b, us, n)
    ensures var i := MergeSlot(m, k, b.name);
            MergeRecords(us, m, k, b, n)
              == us[i := MergeInto(if m[b.name] >= k then us[i].(name := b.name) else us[i], b, n)]
  {
  }

  /** The record the step merges into is the target record of the p-th tag. */
  lemma MergeTargetIs(ts: seq<TagData>, n: nat, p: nat, size: nat,
                      m: map<string, int>, k: int, us: seq<TagData>, b: TagData)
    requires p < |ts| && AllShaped(ts, n) && b == ts[p] && Slot(Names(ts), p) < size
    requires k == |Uniques(Names(ts)[..p])| && us == Utags(ts, n, p, size)
    requires b.name in m && (m[b.name] >= k <==> b.name !in Names(ts)[..p])
    requires MergeSlot(m, k, b.name) == Slot(Names(ts), p)
    ensures var i := MergeSlot(m, k, b.name);
            (if m[b.name] >= k then us[i].(name := b.name) else us[i]) == Target(ts, n, p, size)
  {
    assert b.name == Names(ts)[p];
  }

  /** The name side of one step: the slot, the new name2tag and the new count. */
  lemma MergeStepNames(ns: seq<string>, p: nat)
    requires p < |ns|
    ensures var m := Remap(ns, p);
            var k := |Uniques(ns[..p])|;
            && ns[p] in m
            && (m[ns[p]] >= k <==> ns[p] !in ns[..p])
            && (m[ns[p]] >= k ==> k < |Uniques(ns[..p + 1])|)
            && MergeSlot(m, k, ns[p]) == Slot(ns, p)
            && MergeMap(m, k, ns[p]) == Remap(ns, p + 1)
            && MergeCount(m, k, ns[p]) == |Uniques(ns[..p + 1])|
  {
    RemapTest(ns, p);
    UniquesSnoc(ns, p);
    RemapNext(ns, p);
  }


  /** The state of the merge loop: name2tag, the count of records taken and the records. */
  datatype MergeProgress = MergeProgress(index: map<string, int>, count: int, records: seq<TagData>)

  /**
   * The merge loop on values, after the first p tags: it starts from the
   * first-index map and `size` empty records and takes one step per tag.
   */
  function MergeFold(ts: seq<TagData>, n: nat, size: nat, p: nat): MergeProgress
    requires p <= |ts|
    decreases p
  {
    if p == 0 then MergeProgress(FirstIndex(Names(ts)), 0, seq(size, _ => EmptyTag(n)))
    else
      var s := MergeFold(ts, n, size, p - 1);
      var b := ts[p - 1];
      if MergeOk(s.index, s.count, b, s.records, n) then
        MergeProgress(MergeMap(s.index, s.count, b.name), MergeCount(s.index, s.count, b.name),
                      MergeRecords(s.records, s.index, s.count, b, n))
      else s
  }

  /** The loop starts from the first-index map, no record taken and `size` empty records. */
  lemma MergeFoldStart(ts: seq<TagData>, n: nat, size: nat, m: map<string, int>, us: seq<TagData>)
    requires m == FirstIndex(Names(ts)) && us == seq(size, _ => EmptyTag(n))
    ensures MergeProgress(m, 0, us) == MergeFold(ts, n, size, 0)
  {
  }

  /** A loop state equal to the fold over all the tags is the unique table and index. */
  lemma MergeFoldExit(ts: seq<TagData>, n: nat, size: nat, m: map<string, int>, c: int, us: seq<TagData>)
    requires AllShaped(ts, n) && size == |Uniques(Names(ts))|
    requires MergeProgress(m, c, us) == MergeFold(ts, n, size, |ts|)
    ensures us == UniqueTable(ts, n) && m == UniqueIndex(Names(ts))
  {
    MergeFoldDone(ts, n, size);
  }

  /** Before any tag the loop holds the declarative state for the empty prefix. */
  lemma MergeFoldZero(ts: seq<TagData>, n: nat, size: nat)
    requires AllShaped(ts, n) && size == |Uniques(Names(ts))|
    ensures MergeFold(ts, n, size, 0)
            == MergeProgress(Remap(Names(ts), 0), |Uniques(Names(ts)[..0])|, Utags(ts, n, 0, size))
  {
    RemapStart(Names(ts), ts, n, size);
    assert Names(ts)[..0] == [];
  }

  /** One more tag takes the declarative state after p tags to the one after p + 1. */
  lemma MergeFoldNext(ts: seq<TagData>, n: nat, size: nat, p: nat)
    requires p < |ts| && AllShaped(ts, n) && size == |Uniques(Names(ts))|
    requires MergeFold(ts, n, size, p)
             == MergeProgress(Remap(Names(ts), p), |Uniques(Names(ts)[..p])|, Utags(ts, n, p, size))
    ensures MergeFold(ts, n, size, p + 1)
            == MergeProgress(Remap(Names(ts), p + 1), |Uniques(Names(ts)[..p + 1])|, Utags(ts, n, p + 1, size))
  {
    var s := MergeFold(ts, n, size, p);
    var b := ts[p];
    MergeStepSpec(ts, n, p, size, s.index, s.count, s.records, b);
    assert MergeFold(ts, n, size, p + 1)
           == MergeProgress(MergeMap(s.index, s.count, b.name), MergeCount(s.index, s.count, b.name),
                            MergeRecords(s.records, s.index, s.count, b, n));
  }

  /**
   * After p tags the loop holds exactly the declarative state: name2tag
   * remapped for the names met so far, one record per unique name met, and
   * each record the merge of its name's tags so far.
   */
  lemma {:induction false} MergeFoldIs(ts: seq<TagData>, n: nat, size: nat, p: nat)
    requires p <= |ts| && AllShaped(ts, n) && size == |Uniques(Names(ts))|
    ensures MergeFold(ts, n, size, p)
            == MergeProgress(Remap(Names(ts), p), |Uniques(Names(ts)[..p])|, Utags(ts, n, p, size))
    decreases p
  {
    if p == 0 {
      MergeFoldZero(ts, n, size);
    } else {
      MergeFoldIs(ts, n, size, p - 1);
      MergeFoldNext(ts, n, size, p - 1);
    }
  }

  /** Every step of the loop finds its tag's record in range. */
  lemma MergeFoldOk(ts: seq<TagData>, n: nat, size: nat, p: nat, s: MergeProgress)
    requires p < |ts| && AllShaped(ts, n) && size == |Uniques(Names(ts))|
    requires s == MergeFold(ts, n, size, p)
    ensures MergeOk(s.index, s.count, ts[p], s.records, n)
  {
    MergeFoldIs(ts, n, size, p);
    MergeStepSpec(ts, n, p, size, s.index, s.count, s.records, ts[p]);
  }

  /** After the last tag the loop holds the unique index and the unique table. */
  lemma MergeFoldDone(ts: seq<TagData>, n: nat, size: nat)
    requires AllShaped(ts, n) && size == |Uniques(Names(ts))|
    ensures MergeFold(ts, n, size, |ts|).index == UniqueIndex(Names(ts))
    ensures MergeFold(ts, n, size, |ts|).records == UniqueTable(ts, n)
  {
    MergeFoldIs(ts, n, size, |ts|);
    UtagsDone(ts, n);
    assert Names(ts)[..|ts|] == Names(ts);
  }
}
