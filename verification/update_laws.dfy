/**
 * Laws of the update pass. Every line of /proc/stat that `Update` acts on
 * writes one place of the snapshot, and which place and what value depend on
 * the line alone; so a pass is a replay of the writes its lines decode to,
 * the last write to a place wins, places no line writes keep their values,
 * and reading the same file twice gives the same snapshot as reading it once.
 */
module UpdateLaws {
  import opened Wrappers
  import opened Text
  import opened Scanning
  import opened Loads
  import opened Cpu

  /** A place of the snapshot a line can write. */
  datatype Target = PackageSlot | CoreSlot(id: nat) | CounterSlot(counter: Counter)

  /** The write a non-fatal line performs. */
  datatype Write = PackageWrite(load: Load) | CoreWrite(id: nat, load: Load) | CounterWrite(counter: Counter, value: int)

  /** What can be read at one place: a load slot (nil or a load) or a counter. */
  datatype Observation = LoadSlot(slot: Option<Load>) | Count(value: int)

  function TargetOf(w: Write): Target {
    match w
    case PackageWrite(_) => PackageSlot
    case CoreWrite(id, _) => CoreSlot(id)
    case CounterWrite(k, _) => CounterSlot(k)
  }

  function Written(w: Write): Observation {
    match w
    case PackageWrite(l) => LoadSlot(Some(l))
    case CoreWrite(_, l) => LoadSlot(Some(l))
    case CounterWrite(_, v) => Count(v)
  }

  /** Reading a place; a core beyond the end of the slice reads as nil. */
  function Observe(c: Snapshot, t: Target): Observation {
    match t
    case PackageSlot => LoadSlot(c.package)
    case CoreSlot(id) => LoadSlot(if id < |c.cores| then c.cores[id] else None)
    case CounterSlot(k) => Count(Get(c, k))
  }

  /** The core-slice length after a write to a slice of length `n`. */
  function Grow(n: nat, w: Write): nat {
    if w.CoreWrite? && n <= w.id then w.id + 1 else n
  }

  /**
   * Performing one write: it changes what its own place reads to the written
   * value, leaves every other place as it was, and grows the core slice only
   * as far as the written core.
   */
  function Perform(c: Snapshot, w: Write): (r: Snapshot)
    requires Wf(c)
    ensures Wf(r) && |r.cores| == Grow(|c.cores|, w)
    ensures forall t :: Observe(r, t) == if t == TargetOf(w) then Written(w) else Observe(c, t)
  {
    match w
    case PackageWrite(l) => StoreRecord(c, CpuRecord(None, l))
    case CoreWrite(id, l) => StoreRecord(c, CpuRecord(Some(id), l))
    case CounterWrite(k, v) => With(c, k, v)
  }

  /** Two well-formed snapshots that agree on the slice length and at every place are equal. */
  lemma {:induction false} SnapshotExt(a: Snapshot, b: Snapshot)
    requires Wf(a) && Wf(b) && |a.cores| == |b.cores|
    requires forall t :: Observe(a, t) == Observe(b, t)
    ensures a == b
  {
    assert Observe(a, PackageSlot) == Observe(b, PackageSlot);
    forall i | 0 <= i < |a.cores| ensures a.cores[i] == b.cores[i] {
      assert Observe(a, CoreSlot(i)) == Observe(b, CoreSlot(i));
    }
    forall k ensures Get(a, k) == Get(b, k) {
      assert Observe(a, CounterSlot(k)) == Observe(b, CounterSlot(k));
    }
    assert Get(a, Interrupts) == Get(b, Interrupts);
    assert Get(a, ContextSwitches) == Get(b, ContextSwitches);
    assert Get(a, BootTime) == Get(b, BootTime);
    assert Get(a, Processes) == Get(b, Processes);
    assert Get(a, ProcessesRunning) == Get(b, ProcessesRunning);
    assert Get(a, ProcessesBlocked) == Get(b, ProcessesBlocked);
  }

  /**
   * The write a line stands for, read from the line alone: `None` for a line
   * the switch ignores and for a fatal line.
   */
  function Decode(line: string): (r: Option<Write>)
    ensures Fatal(line) ==> r.None?
    ensures r.Some? && r.value.CounterWrite? ==> HasPrefix(line, Key(r.value.counter))
    ensures r.Some? && !r.value.CounterWrite? ==> HasPrefix(line, "cpu")
  {
    match Classify(line)
    case CpuLine =>
      (match ParseCpuLine(line)
       case Ok(CpuRecord(None, l)) => Some(PackageWrite(l))
       case Ok(CpuRecord(Some(id), l)) => Some(CoreWrite(id, l))
       case Err(_) => None)
    case CounterLine(k) =>
      (match ScanKeyed(line, Key(k))
       case Some(v) => Some(CounterWrite(k, v))
       case None => None)
    case OtherLine => None
  }

  /** The error `Update` returns on a fatal line. */
  function FatalError(line: string): Error
    requires Fatal(line)
  {
    match Classify(line)
    case CpuLine => ParseCpuLine(line).error
    case CounterLine(k) => MalformedCounter(k)
  }

  /**
   * One iteration of the loop is the decoded write: a fatal line stops the
   * pass with its error, any other line performs its write or nothing.
   */
  lemma {:induction false} StepIsDecodedWrite(c: Snapshot, line: string)
    requires Wf(c)
    ensures Fatal(line) ==> Step(c, line) == Stop(FatalError(line))
    ensures !Fatal(line) ==> Step(c, line) == Next(if Decode(line).Some? then Perform(c, Decode(line).value) else c)
  {
  }

  /** The writes a sequence of (non-fatal) lines decodes to, in order. */
  function Writes(lines: seq<string>): seq<Write> {
    if lines == [] then []
    else match Decode(lines[0])
      case None => Writes(lines[1..])
      case Some(w) => [w] + Writes(lines[1..])
  }

  /** Performing writes in order. */
  function Replay(c: Snapshot, ws: seq<Write>): (r: Snapshot)
    requires Wf(c)
    ensures Wf(r)
    decreases |ws|
  {
    if ws == [] then c else Replay(Perform(c, ws[0]), ws[1..])
  }

  /** The value of the last write to `t` in `ws`, if any. */
  function LastWrite(ws: seq<Write>, t: Target): Option<Observation> {
    if ws == [] then None
    else match LastWrite(ws[1..], t)
      case Some(o) => Some(o)
      case None => if TargetOf(ws[0]) == t then Some(Written(ws[0])) else None
  }

  /** The core-slice length after a replay from a slice of length `n`. */
  function CoresLen(n: nat, ws: seq<Write>): nat
    decreases |ws|
  {
    if ws == [] then n else CoresLen(Grow(n, ws[0]), ws[1..])
  }

  /**
   * Last write wins and nothing else changes: after a replay, a place reads
   * the value of the last write to it, or what it read before when no write
   * targets it; the slice grows exactly as `CoresLen` says.
   */
  lemma {:induction false} ReplayObserve(c: Snapshot, ws: seq<Write>, t: Target)
    requires Wf(c)
    ensures |Replay(c, ws).cores| == CoresLen(|c.cores|, ws)
    ensures Observe(Replay(c, ws), t) == if LastWrite(ws, t).Some? then LastWrite(ws, t).value else Observe(c, t)
    decreases |ws|
  {
    if ws != [] {
      ReplayObserve(Perform(c, ws[0]), ws[1..], t);
    }
  }

  /** The slice length after a replay covers every core written. */
  lemma {:induction false} CoresLenCovers(n: nat, ws: seq<Write>)
    ensures CoresLen(n, ws) >= n
    ensures forall i :: 0 <= i < |ws| && ws[i].CoreWrite? ==> ws[i].id < CoresLen(n, ws)
    decreases |ws|
  {
    if ws != [] {
      CoresLenCovers(Grow(n, ws[0]), ws[1..]);
      forall i | 1 <= i < |ws| && ws[i].CoreWrite? ensures ws[i].id < CoresLen(n, ws) {
        assert ws[i] == ws[1..][i - 1];
      }
    }
  }

  /** A slice already covering every written core does not grow. */
  lemma {:induction false} CoresLenStable(n: nat, ws: seq<Write>)
    requires forall i :: 0 <= i < |ws| && ws[i].CoreWrite? ==> ws[i].id < n
    ensures CoresLen(n, ws) == n
    decreases |ws|
  {
    if ws != [] {
      assert forall i :: 0 <= i < |ws[1..]| ==> ws[1..][i] == ws[i + 1];
      CoresLenStable(Grow(n, ws[0]), ws[1..]);
    }
  }

  /** Replaying the same writes twice is replaying them once. */
  lemma {:induction false} ReplayIdempotent(c: Snapshot, ws: seq<Write>)
    requires Wf(c)
    ensures Replay(Replay(c, ws), ws) == Replay(c, ws)
  {
    var a := Replay(c, ws);
    var b := Replay(a, ws);
    forall t ensures Observe(b, t) == Observe(a, t) {
      ReplayObserve(c, ws, t);
      ReplayObserve(a, ws, t);
    }
    ReplayObserve(c, ws, PackageSlot);
    ReplayObserve(a, ws, PackageSlot);
    CoresLenCovers(|c.cores|, ws);
    CoresLenStable(|a.cores|, ws);
    SnapshotExt(b, a);
  }

  /** Index of the first element satisfying `p`, or the length when none does. */
  function FirstWhere<T>(xs: seq<T>, p: T -> bool): (k: nat)
    ensures k <= |xs|
    ensures k < |xs| ==> p(xs[k])
    decreases |xs|
  {
    if xs == [] then 0
    else if p(xs[0]) then 0
    else
      var k := 1 + FirstWhere(xs[1..], p);
      assert k < |xs| ==> xs[k] == xs[1..][k - 1];
      k
  }

  /** No element before the first one satisfying `p` satisfies it. */
  lemma {:induction false} BeforeFirstWhere<T>(xs: seq<T>, p: T -> bool, i: nat)
    requires i < FirstWhere(xs, p)
    ensures !p(xs[i])
    decreases |xs|
  {
    if i > 0 {
      BeforeFirstWhere(xs[1..], p, i - 1);
    }
  }

  lemma {:induction false} FirstWhereCons<T>(xs: seq<T>, p: T -> bool)
    requires xs != [] && !p(xs[0])
    ensures FirstWhere(xs, p) == FirstWhere(xs[1..], p) + 1
  {
  }

  /** Index of the first fatal line, or the number of lines when none is. */
  function FirstFatal(lines: seq<string>): (k: nat)
    ensures k <= |lines|
    ensures k < |lines| ==> Fatal(lines[k])
  {
    FirstWhere(lines, Fatal)
  }

  /** No line before the first fatal one is fatal. */
  lemma {:induction false} BeforeFirstFatal(lines: seq<string>, i: nat)
    requires i < FirstFatal(lines)
    ensures !Fatal(lines[i])
  {
    BeforeFirstWhere(lines, Fatal, i);
  }

  /**
   * An update pass replays the writes of the lines before the first fatal
   * one and returns that line's error, or nil when no line is fatal.
   */
  lemma {:induction false} UpdateIsReplay(c: Snapshot, lines: seq<string>)
    requires Wf(c)
    ensures Update(c, lines).state == Replay(c, Writes(lines[..FirstFatal(lines)]))
    ensures Update(c, lines).error ==
              if FirstFatal(lines) == |lines| then None else Some(FatalError(lines[FirstFatal(lines)]))
    decreases |lines|
  {
    if lines != [] {
      StepIsDecodedWrite(c, lines[0]);
      if !Fatal(lines[0]) {
        var c' := if Decode(lines[0]).Some? then Perform(c, Decode(lines[0]).value) else c;
        UpdateIsReplay(c', lines[1..]);
        ReplayCons(c, lines, c', Update(c', lines[1..]).state);
        FatalErrorCons(lines, Update(c', lines[1..]).error);
      }
    }
  }

  /** The induction step of `UpdateIsReplay` for the snapshot: a non-fatal first line adds its write in front. */
  lemma {:induction false} ReplayCons(c: Snapshot, lines: seq<string>, c': Snapshot, st: Snapshot)
    requires Wf(c) && lines != [] && !Fatal(lines[0])
    requires c' == if Decode(lines[0]).Some? then Perform(c, Decode(lines[0]).value) else c
    requires st == Replay(c', Writes(lines[1..][..FirstFatal(lines[1..])]))
    ensures st == Replay(c, Writes(lines[..FirstFatal(lines)]))
  {
    FirstFatalCons(lines);
    ReplayWritesCons(c, lines, c', FirstFatal(lines[1..]), FirstFatal(lines));
  }

  /** The induction step of `UpdateIsReplay` for the error: a non-fatal first line does not change it. */
  lemma {:induction false} FatalErrorCons(lines: seq<string>, e: Option<Error>)
    requires lines != [] && !Fatal(lines[0])
    requires e == if FirstFatal(lines[1..]) == |lines[1..]| then None else Some(FatalError(lines[1..][FirstFatal(lines[1..])]))
    ensures e == if FirstFatal(lines) == |lines| then None else Some(FatalError(lines[FirstFatal(lines)]))
  {
    var k := FirstFatal(lines[1..]);
    FirstFatalCons(lines);
    if k < |lines[1..]| {
      assert lines[1..][k] == lines[k + 1];
    }
  }

  lemma {:induction false} FirstFatalCons(lines: seq<string>)
    requires lines != [] && !Fatal(lines[0])
    ensures FirstFatal(lines) == FirstFatal(lines[1..]) + 1
  {
    FirstWhereCons(lines, Fatal);
  }


  /** Replaying the writes of the first `m + 1` lines is performing the first line's write, then the rest. */
  lemma {:induction false} ReplayWritesCons(c: Snapshot, lines: seq<string>, c': Snapshot, m: nat, n: nat)
    requires Wf(c) && lines != [] && n == m + 1 <= |lines|
    requires c' == if Decode(lines[0]).Some? then Perform(c, Decode(lines[0]).value) else c
    ensures Replay(c, Writes(lines[..n])) == Replay(c', Writes(lines[1..][..m]))
  {
    var p := lines[..n];
    assert p[1..] == lines[1..][..m];
    assert p[0] == lines[0];
    var ws := Writes(lines[1..][..m]);
    match Decode(lines[0])
    case None =>
    case Some(w) =>
      assert Writes(p) == [w] + ws;
      assert ([w] + ws)[1..] == ws;
  }

  /**
   * What a pass leaves at each place: the value of the last write to it
   * among the lines before the first fatal one, or what it held before.
   */
  lemma {:induction false} UpdateObserve(c: Snapshot, lines: seq<string>, t: Target)
    requires Wf(c)
    ensures Observe(Update(c, lines).state, t) ==
              var ws := Writes(lines[..FirstFatal(lines)]);
              if LastWrite(ws, t).Some? then LastWrite(ws, t).value else Observe(c, t)
  {
    UpdateIsReplay(c, lines);
    ReplayObserve(c, Writes(lines[..FirstFatal(lines)]), t);
  }

  /**
   * Whether a pass fails, and with which error, depends on the lines alone,
   * not on the snapshot it starts from.
   */
  lemma {:induction false} UpdateErrorStateFree(c: Snapshot, d: Snapshot, lines: seq<string>)
    requires Wf(c) && Wf(d)
    ensures Update(c, lines).error == Update(d, lines).error
  {
    UpdateIsReplay(c, lines);
    UpdateIsReplay(d, lines);
  }

  /**
   * Reading the same file contents twice leaves the snapshot and the error as
   * reading them once: a second pass rewrites every place with the value it
   * already holds and never grows the slice again.
   */
  lemma {:induction false} UpdateIdempotent(c: Snapshot, lines: seq<string>)
    requires Wf(c)
    ensures Update(Update(c, lines).state, lines) == Update(c, lines)
  {
    var a := Update(c, lines).state;
    UpdateIsReplay(c, lines);
    UpdateIsReplay(a, lines);
    ReplayIdempotent(c, Writes(lines[..FirstFatal(lines)]));
  }

  /** A `cpu` line in the kernel's layout stores its record, trailing counters and all. */
  lemma {:induction false} StepFormatted(c: Snapshot, rec: CpuRecord, gap: nat, extra: seq<int>)
    requires Wf(c) && gap >= 1
    ensures Step(c, FormatCpuLine(rec, gap, extra)) == Next(StoreRecord(c, rec))
  {
    ParseFormatCpuLine(rec, gap, extra);
    FormatCpuLinePrefix(rec, gap, extra);
  }

  /**
   * A counter line as the kernel writes it (`key value`, for `intr` followed
   * by the per-interrupt counts) sets that counter and nothing else.
   */
  lemma {:induction false} StepCounterFormatted(c: Snapshot, k: Counter, v: int, more: string)
    requires Wf(c)
    requires more == [] || !IsDigit(more[0])
    ensures Step(c, Key(k) + " " + FormatInt(v) + more) == Next(With(c, k, v))
  {
    var line := Key(k) + " " + FormatInt(v) + more;
    ScanKeyedFormat(Key(k), v, more);
    assert line[..|Key(k)|] == Key(k);
    PrefixesExclusive(line, k, k);
  }

  /** A pass over two lines that both go through performs the two steps in order. */
  lemma {:induction false} UpdateTwoLines(c: Snapshot, a: string, b: string, c1: Snapshot, c2: Snapshot)
    requires Wf(c) && Wf(c1)
    requires Step(c, a) == Next(c1) && Step(c1, b) == Next(c2)
    ensures Update(c, [a, b]) == UpdateResult(c2, None)
  {
    assert [a, b][1..] == [b];
    assert Update(c2, []) == UpdateResult(c2, None);
    assert Update(c1, [b]) == UpdateResult(c2, None);
  }

  /**
   * Cores listed out of order: `cpu12` then `cpu3` on a fresh snapshot grows
   * the slice to thirteen entries at the first line, stores core 3 in place
   * at the second, and leaves the eleven other entries nil.
   */
  lemma {:induction false} OutOfOrderCores(l12: Load, l3: Load)
    ensures var r := Update(New(), [FormatCpuLine(CpuRecord(Some(12), l12), 1, []), FormatCpuLine(CpuRecord(Some(3), l3), 1, [])]);
            r.error == None && |r.state.cores| == 13 && r.state.cores[12] == Some(l12) && r.state.cores[3] == Some(l3) &&
            forall i :: 0 <= i < 13 && i != 3 && i != 12 ==> r.state.cores[i] == None
  {
    var line12 := FormatCpuLine(CpuRecord(Some(12), l12), 1, []);
    var line3 := FormatCpuLine(CpuRecord(Some(3), l3), 1, []);
    var c1 := StoreRecord(New(), CpuRecord(Some(12), l12));
    var c2 := StoreRecord(c1, CpuRecord(Some(3), l3));
    StepFormatted(New(), CpuRecord(Some(12), l12), 1, []);
    StepFormatted(c1, CpuRecord(Some(3), l3), 1, []);
    UpdateTwoLines(New(), line12, line3, c1, c2);
  }
}
