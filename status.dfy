/**
 * The progress registry of nut_impl/status.py: a slot list of transfer
 * trackers, slot allocation that reuses the first closed slot, the
 * tracker operations, the "any open" and "where does a line go" queries,
 * and one tick of the background sampler.
 *
 * The module-level globals lst, jsonData and threadRun are the fields of
 * one Registry object. The tqdm progress bar is reduced to the arguments
 * it was built with; each tqdm call that may raise is a boolean
 * parameter saying whether it succeeded. Clock readings
 * (time.process_time) are integer parameters.
 */
module Progress {
  import opened Wrappers

  /**
   * What the tqdm bar was constructed with: its total, slot, unit and
   * label. The fixed display options (unit_scale, leave, ascii) are not kept.
   */
  datatype Bar = Bar(total: Option<int>, position: nat, unit: string, desc: Option<string>)

  /** The value of a tracker's fields at one moment. */
  datatype Tracker = Tracker(
    position: nat,
    size: Option<int>,
    i: int,
    a: int,
    id: Option<string>,
    ats: int,
    timestamp: int,
    desc: Option<string>,
    tqdm: Option<Bar>)
  {
    /** Open exactly while size is not None. */
    predicate IsOpen(): (b: bool)
      ensures b <==> size != None
    {
      size.Some?
    }
  }

  /** One progress tracker. Its slot position never changes. */
  class Status {
    const position: nat
    var size: Option<int>
    var i: int
    var a: int
    var id: Option<string>
    var ats: int
    var timestamp: int
    var desc: Option<string>
    var tqdm: Option<Bar>

    function Value(): Tracker
      reads this
    {
      Tracker(position, size, i, a, id, ats, timestamp, desc, tqdm)
    }

    /** isOpen(): whether size is not None. */
    predicate IsOpen(): (b: bool)
      reads this
      ensures b <==> size != None
    {
      Value().IsOpen()
    }

    /**
     * A new tracker: nothing counted yet, no id, both clock fields set to
     * now, and a bar built for its slot. A size of None makes it closed
     * from the start.
     */
    constructor (size: Option<int>, position: nat, desc: Option<string>, unit: string, now: int)
      ensures Value() == Tracker(position, size, 0, 0, None, now, now, desc, Some(Bar(size, position, unit, desc)))
    {
      this.position := position;
      this.size := size;
      i, a := 0, 0;
      id := None;
      ats, timestamp := now, now;
      this.desc := desc;
      tqdm := Some(Bar(size, position, unit, desc));
    }

    /**
     * add(v): an open tracker counts v in both its total and its
     * since-last-sample counter; a failing bar update is swallowed. A
     * closed tracker ignores the call.
     */
    method Add(v: int, barOk: bool)
      modifies this
      ensures old(IsOpen()) ==> Value() == old(Value()).(i := old(i) + v, a := old(a) + v)
      ensures !old(IsOpen()) ==> Value() == old(Value())
    {
      if IsOpen() {
        i := i + v;
        a := a + v;
      }
    }

    /** update(v) is add(v). */
    method Update(v: int, barOk: bool)
      modifies this
      ensures old(IsOpen()) ==> Value() == old(Value()).(i := old(i) + v, a := old(a) + v)
      ensures !old(IsOpen()) ==> Value() == old(Value())
    {
      Add(v, barOk);
    }

    /**
     * close(): an open tracker drops its bar (a failing bar close is
     * swallowed) and is tombstoned with size None. On a closed tracker
     * it does nothing, so a second call changes nothing.
     */
    method Close(barOk: bool)
      modifies this
      ensures !IsOpen()
      ensures old(IsOpen()) ==> Value() == old(Value()).(size := None, tqdm := None)
      ensures !old(IsOpen()) ==> Value() == old(Value())
    {
      if IsOpen() {
        tqdm := None;
        size := None;
      }
    }

    /**
     * setDescription(desc): the label is always stored. On an open tracker
     * the bar is relabelled, and if that fails the tracker is closed.
     */
    method SetDescription(d: Option<string>, refresh: bool, barOk: bool)
      modifies this
      ensures desc == d
      ensures old(IsOpen()) && !barOk ==> Value() == old(Value()).(desc := d, size := None, tqdm := None)
      ensures !(old(IsOpen()) && !barOk) ==> Value() == old(Value()).(desc := d)
    {
      desc := d;
      if IsOpen() {
        if !barOk {
          Close(true);
        }
      }
    }

    /**
     * The sampler's work on one tracker: an open tracker whose speed can be
     * computed yields its record and has its counter reset and its sample
     * time set to now; otherwise nothing happens.
     */
    method Sample(now: int) returns (record: Option<Record>)
      modifies this
      ensures Value() == AfterTick(old(Value()), now)
      ensures Sampled(old(Value()), now) ==> record == Some(RecordOf(old(Value()), now))
      ensures !Sampled(old(Value()), now) ==> record == None
    {
      if IsOpen() && now != ats {
        record := Some(RecordOf(Value(), now));
        a := 0;
        ats := now;
      } else {
        record := None;
      }
    }
  }

  /** The values of a list of trackers, slot by slot. */
  function Values(ss: seq<Status>): (ts: seq<Tracker>)
    reads ss
    ensures |ts| == |ss|
    ensures forall k :: 0 <= k < |ss| ==> ts[k] == ss[k].Value()
  {
    if ss == [] then [] else [ss[0].Value()] + Values(ss[1..])
  }

  /** The slot create picks: the lowest closed one, or a new slot at the end. */
  function FirstClosed(ts: seq<Tracker>): (k: nat)
    ensures k <= |ts|
    ensures k < |ts| ==> !ts[k].IsOpen()
    ensures forall j :: 0 <= j < k ==> ts[j].IsOpen()
  {
    if ts == [] then 0
    else if !ts[0].IsOpen() then 0
    else 1 + FirstClosed(ts[1..])
  }

  /**
   * Closing the tracker in slot k makes the next create pick k, unless a
   * lower slot was already free.
   */
  lemma {:induction false} FirstClosedAfterClose(ts: seq<Tracker>, k: nat, closed: Tracker)
    requires k < |ts| && !closed.IsOpen()
    ensures FirstClosed(ts[k := closed]) == if FirstClosed(ts) <= k then FirstClosed(ts) else k
  {
    if k > 0 && ts[0].IsOpen() {
      assert ts[k := closed][1..] == ts[1..][k - 1 := closed];
      FirstClosedAfterClose(ts[1..], k - 1, closed);
    }
  }

  /** One entry of the sampler's report. */
  datatype Record = Record(
    description: Option<string>,
    i: int,
    size: int,
    elapsed: int,
    sampled: int,
    interval: int,
    id: Option<string>)

  /**
   * A tick at clock now samples an open tracker unless computing its speed
   * a / (now - ats) divides by zero; that ZeroDivisionError is swallowed
   * and the tracker is skipped for this tick.
   */
  predicate Sampled(t: Tracker, now: int): (b: bool)
    ensures b ==> t.IsOpen()
  {
    t.IsOpen() && now != t.ats
  }

  /** The record of a sampled tracker; the speed is reported as its numerator a and denominator now - ats. */
  function RecordOf(t: Tracker, now: int): (r: Record)
    requires t.IsOpen()
    ensures Sampled(t, now) ==> r.interval != 0
    ensures r.interval == 0 <==> now == t.ats
  {
    Record(t.desc, t.i, t.size.value, now - t.timestamp, t.a, now - t.ats, t.id)
  }

  /** The report one tick builds: a record per sampled tracker, in slot order. */
  function Snapshot(ts: seq<Tracker>, now: int): (r: seq<Record>)
    ensures |r| <= |ts|
  {
    if ts == [] then []
    else (if Sampled(ts[0], now) then [RecordOf(ts[0], now)] else []) + Snapshot(ts[1..], now)
  }

  /** A tracker after the tick: a sampled one has its counter reset and its sample time moved to now. */
  function AfterTick(t: Tracker, now: int): (r: Tracker)
    ensures r.IsOpen() == t.IsOpen()
    ensures r.position == t.position && r.size == t.size && r.i == t.i && r.id == t.id
    ensures r.timestamp == t.timestamp && r.desc == t.desc && r.tqdm == t.tqdm
    ensures Sampled(t, now) ==> r.a == 0 && r.ats == now
    ensures !Sampled(t, now) ==> r == t
  {
    if Sampled(t, now) then t.(a := 0, ats := now) else t
  }

  /**
   * A second tick at the same clock changes nothing: after a tick every
   * open tracker has ats == now, so none of them is sampled again.
   */
  lemma AfterTickSettles(t: Tracker, now: int)
    ensures !Sampled(AfterTick(t, now), now)
    ensures AfterTick(AfterTick(t, now), now) == AfterTick(t, now)
  {
  }

  /**
   * The report is built slot by slot: the report of two runs of slots is
   * the report of the first followed by that of the second. With the
   * one-slot case below, this says the report holds one record per
   * sampled tracker, in slot order, and nothing else.
   */
  lemma {:induction false} SnapshotAppend(xs: seq<Tracker>, ys: seq<Tracker>, now: int)
    ensures Snapshot(xs + ys, now) == Snapshot(xs, now) + Snapshot(ys, now)
  {
    if xs == [] {
      assert xs + ys == ys;
    } else {
      var head := if Sampled(xs[0], now) then [RecordOf(xs[0], now)] else [];
      assert (xs + ys)[0] == xs[0];
      assert (xs + ys)[1..] == xs[1..] + ys;
      SnapshotAppend(xs[1..], ys, now);
      assert (head + Snapshot(xs[1..], now)) + Snapshot(ys, now) == head + (Snapshot(xs[1..], now) + Snapshot(ys, now));
    }
  }

  /** The report of the first k + 1 slots: that of the first k, then slot k's record if it is sampled. */
  lemma ReportStep(ts: seq<Tracker>, k: nat, now: int)
    requires k < |ts|
    ensures Sampled(ts[k], now) ==> Snapshot(ts[..k + 1], now) == Snapshot(ts[..k], now) + [RecordOf(ts[k], now)]
    ensures !Sampled(ts[k], now) ==> Snapshot(ts[..k + 1], now) == Snapshot(ts[..k], now)
  {
    assert ts[..k + 1] == ts[..k] + [ts[k]];
    SnapshotAppend(ts[..k], [ts[k]], now);
    SnapshotOfOne(ts[k], now);
    if !Sampled(ts[k], now) {
      assert Snapshot(ts[..k], now) + [] == Snapshot(ts[..k], now);
    }
  }

  /** A single slot contributes its tracker's record when it is sampled, and nothing otherwise. */
  lemma SnapshotOfOne(t: Tracker, now: int)
    ensures Sampled(t, now) ==> Snapshot([t], now) == [RecordOf(t, now)]
    ensures !Sampled(t, now) ==> Snapshot([t], now) == []
  {
    assert [t][1..] == [];
  }

  /** No more records than open trackers. */
  lemma {:induction false} SnapshotBound(ts: seq<Tracker>, now: int)
    ensures |Snapshot(ts, now)| <= CountOpen(ts)
  {
    if ts != [] {
      SnapshotBound(ts[1..], now);
    }
  }

  /** When the clock has moved on for every open tracker, every open tracker gets a record. */
  lemma {:induction false} SnapshotCoversOpen(ts: seq<Tracker>, now: int)
    requires forall k :: 0 <= k < |ts| && ts[k].IsOpen() ==> ts[k].ats != now
    ensures |Snapshot(ts, now)| == CountOpen(ts)
  {
    if ts != [] {
      SnapshotCoversOpen(ts[1..], now);
    }
  }

  /** A tick over a registry with no open tracker reports nothing. */
  lemma {:induction false} SnapshotOfClosed(ts: seq<Tracker>, now: int)
    requires forall k :: 0 <= k < |ts| ==> !ts[k].IsOpen()
    ensures Snapshot(ts, now) == []
  {
    if ts != [] {
      SnapshotOfClosed(ts[1..], now);
    }
  }

  function CountOpen(ts: seq<Tracker>): (n: nat)
    ensures n <= |ts|
  {
    if ts == [] then 0 else (if ts[0].IsOpen() then 1 else 0) + CountOpen(ts[1..])
  }

  /** Where print_ sends a line: through the bar of the tracker in a slot, or to plain output. */
  datatype Output = ViaBar(slot: nat) | Plain

  /**
   * The registry: the slot list, the latest report and the sampler's run
   * flag. Every tracker sits in the slot its position names, so no
   * tracker is in two slots.
   */
  class Registry {
    var lst: seq<Status>
    var jsonData: seq<Record>
    var threadRun: bool

    ghost predicate Valid()
      reads this
    {
      forall k :: 0 <= k < |lst| ==> lst[k].position == k
    }

    function Trackers(): seq<Tracker>
      reads this, lst
    {
      Values(lst)
    }

    constructor ()
      ensures Valid() && lst == [] && jsonData == [] && threadRun
    {
      lst, jsonData, threadRun := [], [], true;
    }

    /**
     * create: scan for the lowest closed slot and put a new tracker there,
     * or append it when every tracker is open. The new tracker's position
     * is its slot; every other slot keeps its tracker.
     */
    method Create(size: Option<int>, desc: Option<string>, unit: string, now: int) returns (s: Status)
      requires Valid()
      modifies this`lst
      ensures Valid() && fresh(s)
      ensures s.position == FirstClosed(old(Trackers()))
      ensures s.Value() == Tracker(s.position, size, 0, 0, None, now, now, desc, Some(Bar(size, s.position, unit, desc)))
      ensures s.position < |old(lst)| ==> lst == old(lst)[s.position := s]
      ensures s.position == |old(lst)| ==> lst == old(lst) + [s]
    {
      var position := |lst|;
      var k := 0;
      while k < |lst|
        invariant 0 <= k <= |lst|
        invariant forall j :: 0 <= j < k ==> lst[j].IsOpen()
        invariant position == |lst|
      {
        if !lst[k].IsOpen() {
          position := k;
          break;
        }
        k := k + 1;
      }
      s := new Status(size, position, desc, unit, now);
      if position >= |lst| {
        lst := lst + [s];
      } else {
        lst := lst[position := s];
      }
    }

    /** isActive(): whether some slot holds an open tracker. */
    method IsActive() returns (b: bool)
      ensures b <==> exists k :: 0 <= k < |lst| && lst[k].IsOpen()
    {
      var k := 0;
      while k < |lst|
        invariant 0 <= k <= |lst|
        invariant forall j :: 0 <= j < k ==> !lst[j].IsOpen()
      {
        if lst[k].IsOpen() {
          return true;
        }
        k := k + 1;
      }
      return false;
    }

    /**
     * print_(line): the line goes through the bar of the first open
     * tracker whose bar write succeeds (barOk(k) for slot k); a failing
     * write moves on to the next open tracker, and when none takes it the
     * line goes to plain output.
     */
    method PrintTarget(line: string, barOk: nat -> bool) returns (out: Output)
      ensures out.ViaBar? ==> out.slot < |lst| && lst[out.slot].IsOpen() && barOk(out.slot)
      ensures forall k :: 0 <= k < |lst| && lst[k].IsOpen() && barOk(k) ==> out.ViaBar? && out.slot <= k
    {
      var k := 0;
      while k < |lst|
        invariant 0 <= k <= |lst|
        invariant forall j :: 0 <= j < k ==> !(lst[j].IsOpen() && barOk(j))
      {
        if lst[k].IsOpen() && barOk(k) {
          return ViaBar(k);
        }
        k := k + 1;
      }
      return Plain;
    }

    /** data(): the latest report. */
    function Data(): (r: seq<Record>)
      reads this
      ensures r == jsonData
    {
      jsonData
    }

    /**
     * One sampler tick at clock now: the report is rebuilt from the
     * sampled trackers in slot order, and each sampled tracker has its
     * counter reset and its sample time set to now. Closed trackers are
     * neither reported nor touched.
     */
    method Tick(now: int)
      requires Valid()
      modifies this`jsonData, lst
      ensures Valid()
      ensures jsonData == Snapshot(old(Trackers()), now)
      ensures forall k :: 0 <= k < |lst| ==> lst[k].Value() == AfterTick(old(lst[k].Value()), now)
    {
      var ss := lst;
      ghost var before := Values(ss);
      jsonData := [];
      var k := 0;
      while k < |ss|
        invariant 0 <= k <= |ss| == |before|
        invariant lst == ss
        invariant jsonData == Snapshot(before[..k], now)
        invariant forall j :: 0 <= j < k ==> ss[j].Value() == AfterTick(before[j], now)
        invariant forall j :: k <= j < |ss| ==> ss[j].Value() == before[j]
      {
        var t := ss[k];
        ghost var value := t.Value();
        assert value == before[k];
        ReportStep(before, k, now);
        label Before:
        var record := t.Sample(now);
        forall j | 0 <= j < |ss| && j != k
          ensures ss[j].Value() == old@Before(ss[j].Value())
        {
          assert ss[j].position == j;
        }
        if record.Some? {
          jsonData := jsonData + [record.value];
        }
        k := k + 1;
      }
      assert before[..k] == before;
    }

    /** start(): set the run flag; the sampler thread itself is not modelled. */
    method Start()
      modifies this`threadRun
      ensures threadRun
    {
      threadRun := true;
    }

    /** close(): clear the run flag, which the sampler loop checks before each tick. */
    method Close()
      modifies this`threadRun
      ensures !threadRun
    {
      threadRun := false;
    }
  }
}
