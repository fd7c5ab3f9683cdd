/**
 * The `CPU` snapshot of internal/cpu/cpu.go and its `Update` pass over the
 * lines of /proc/stat. The file is taken as the sequence of its lines; the
 * in-place mutation of the Go struct becomes a function from the old
 * snapshot to the new one.
 */
module Cpu {
  import opened Wrappers
  import opened Text
  import opened Scanning
  import opened Loads

  /** The scalar counters of a snapshot, in the order the update switch tests their keys. */
  datatype Counter = Interrupts | ContextSwitches | BootTime | Processes | ProcessesRunning | ProcessesBlocked

  /** The line prefix of each counter, which is also the literal of its `Sscanf` format. */
  function Key(k: Counter): string {
    match k
    case Interrupts => "intr"
    case ContextSwitches => "ctxt"
    case BootTime => "btime"
    case Processes => "processes"
    case ProcessesRunning => "procs_running"
    case ProcessesBlocked => "procs_blocked"
  }

  /** Go's zero `time.Time` (January 1 of year 1, UTC) in Unix seconds: `BootTime` before any `btime` line. */
  const ZeroTimeUnix: int := -62135596800

  /**
   * The `CPU` struct without its file handle. `cores` and `coresCap` are the
   * length and the capacity of the `Cores` slice; `None` is a nil `*Load`.
   * `bootTime` is the `btime` value in Unix seconds.
   */
  datatype Snapshot = Snapshot(
    package: Option<Load>,
    cores: seq<Option<Load>>,
    coresCap: nat,
    interrupts: int,
    contextSwitches: int,
    bootTime: int,
    processes: int,
    processesRunning: int,
    processesBlocked: int)

  /**
   * The invariant the core-slice growth relies on: the slice is always as
   * long as its capacity. `New` creates it with `make(..., 0)` and growth uses
   * `make(..., id+1)`, so the capacity test guards every write.
   */
  predicate Wf(c: Snapshot) {
    |c.cores| == c.coresCap
  }

  /** `New` without the file: no package load, an empty core slice, zero counters. */
  function New(): (c: Snapshot)
    ensures Wf(c)
    ensures c.package == None && c.cores == [] && c.bootTime == ZeroTimeUnix
    ensures forall k :: k != BootTime ==> Get(c, k) == 0
  {
    Snapshot(None, [], 0, 0, 0, ZeroTimeUnix, 0, 0, 0)
  }

  function Get(c: Snapshot, k: Counter): int {
    match k
    case Interrupts => c.interrupts
    case ContextSwitches => c.contextSwitches
    case BootTime => c.bootTime
    case Processes => c.processes
    case ProcessesRunning => c.processesRunning
    case ProcessesBlocked => c.processesBlocked
  }

  /** The snapshot with counter `k` overwritten by `v` and nothing else changed. */
  function With(c: Snapshot, k: Counter, v: int): (r: Snapshot)
    ensures Get(r, k) == v
    ensures forall k' :: k' != k ==> Get(r, k') == Get(c, k')
    ensures r.package == c.package && r.cores == c.cores && r.coresCap == c.coresCap
  {
    match k
    case Interrupts => c.(interrupts := v)
    case ContextSwitches => c.(contextSwitches := v)
    case BootTime => c.(bootTime := v)
    case Processes => c.(processes := v)
    case ProcessesRunning => c.(processesRunning := v)
    case ProcessesBlocked => c.(processesBlocked := v)
  }

  /** Two prefixes of one line agree wherever both are defined. */
  lemma {:induction false} PrefixesAgree(line: string, a: string, b: string)
    ensures HasPrefix(line, a) && HasPrefix(line, b) ==> forall i :: 0 <= i < |a| && i < |b| ==> a[i] == b[i]
  {
    if HasPrefix(line, a) && HasPrefix(line, b) {
      forall i | 0 <= i < |a| && i < |b| ensures a[i] == b[i] {
        assert a[i] == line[..|a|][i] && b[i] == line[..|b|][i];
      }
    }
  }

  /** Any two distinct keys differ at some position both have, and none starts with `cp`. */
  lemma {:induction false} KeysDiffer(k1: Counter, k2: Counter)
    ensures k1 != k2 ==> exists i :: 0 <= i < |Key(k1)| && i < |Key(k2)| && Key(k1)[i] != Key(k2)[i]
    ensures Key(k1)[0] != 'c' || Key(k1)[1] != 'p'
  {
    if k1 != k2 {
      var i := if Key(k1)[0] != Key(k2)[0] then 0 else if Key(k1)[4] != Key(k2)[4] then 4 else 6;
      assert Key(k1)[i] != Key(k2)[i];
    }
  }

  /**
   * No line starts with two of the seven prefixes the update switch tests, so
   * testing them in the switch's order picks the same case as any other order
   * (in particular, the same as a longest-match rule).
   */
  lemma {:induction false} PrefixesExclusive(line: string, k1: Counter, k2: Counter)
    ensures HasPrefix(line, Key(k1)) && HasPrefix(line, Key(k2)) ==> k1 == k2
    ensures HasPrefix(line, Key(k1)) ==> !HasPrefix(line, "cpu")
  {
    PrefixesAgree(line, Key(k1), Key(k2));
    PrefixesAgree(line, Key(k1), "cpu");
    KeysDiffer(k1, k2);
  }

  /** The case of the update switch a line falls into. */
  datatype LineKind = CpuLine | CounterLine(counter: Counter) | OtherLine

  /**
   * The `switch` of `Update`: the first of `cpu`, `intr`, `ctxt`, `btime`,
   * `processes`, `procs_running`, `procs_blocked` that prefixes the line.
   */
  function Classify(line: string): (kind: LineKind)
    ensures kind == CpuLine <==> HasPrefix(line, "cpu")
    ensures forall k :: kind == CounterLine(k) <==> HasPrefix(line, Key(k))
    ensures kind == OtherLine <==> !HasPrefix(line, "cpu") && forall k :: !HasPrefix(line, Key(k))
  {
    forall k1, k2 ensures HasPrefix(line, Key(k1)) && HasPrefix(line, Key(k2)) ==> k1 == k2
                  ensures HasPrefix(line, Key(k1)) ==> !HasPrefix(line, "cpu") {
      PrefixesExclusive(line, k1, k2);
    }
    if HasPrefix(line, "cpu") then CpuLine
    else if HasPrefix(line, "intr") then CounterLine(Interrupts)
    else if HasPrefix(line, "ctxt") then CounterLine(ContextSwitches)
    else if HasPrefix(line, "btime") then CounterLine(BootTime)
    else if HasPrefix(line, "processes") then CounterLine(Processes)
    else if HasPrefix(line, "procs_running") then CounterLine(ProcessesRunning)
    else if HasPrefix(line, "procs_blocked") then CounterLine(ProcessesBlocked)
    else OtherLine
  }

  /** The errors `Update` can see: `errNoMatch`, and the `Sscanf` failures of the load and counter formats. */
  datatype Error = NoMatch | MalformedLoad | MalformedCounter(counter: Counter)

  /** What a `cpu` line carries: the core number (none for the package line) and the load. */
  datatype CpuRecord = CpuRecord(core: Option<nat>, load: Load)

  /**
   * The parsing half of `readCPULine`: find `cpu([0-9]*)`, remove every
   * occurrence of the whole match from the line, scan the load from what is
   * left, and read the digit group (if any) as the core number.
   */
  function ParseCpuLine(s: string): (r: Result<CpuRecord, Error>)
    ensures r == Err(NoMatch) <==> !Occurs(s, "cpu")
    ensures r.Err? ==> r.error == NoMatch || r.error == MalformedLoad
    ensures HasPrefix(s, "cpu") ==> r != Err(NoMatch)
  {
    assert HasPrefix(s, "cpu") ==> OccursAt(s, "cpu", 0);
    match FindCpuPrefix(s)
    case None => Err(NoMatch)
    case Some(m) =>
      match Loads.Scan(RemoveAll(s, m.whole))
      case None => Err(MalformedLoad)
      case Some(load) =>
        Ok(CpuRecord(if m.id == [] then None else Some(DigitsValue(m.id)), load))
  }

  /** The digits after `cpu` in a line's tag: none for the package, the core number otherwise. */
  function TagDigits(core: Option<nat>): (d: string)
    ensures AllDigits(d)
    ensures d == [] <==> core.None?
  {
    match core
    case None => ""
    case Some(n) => NatDigits(n)
  }

  /** `n` spaces. */
  function Spaces(n: nat): string {
    if n == 0 then "" else " " + Spaces(n - 1)
  }

  /** The counters a line carries after the seventh, each led by a space. */
  function Trailer(extra: seq<int>): (t: string)
    ensures t == [] || t[0] == ' '
  {
    if extra == [] then "" else " " + JoinInts(extra, "")
  }

  /**
   * A `cpu` line as the kernel writes it: `cpu`, the core number if any,
   * `gap` spaces (two after the package tag, one after a core tag), the
   * seven counters the parser reads, then the `extra` counters (`steal`,
   * `guest`, `guest_nice` on a current kernel).
   */
  function FormatCpuLine(rec: CpuRecord, gap: nat, extra: seq<int>): string
    requires gap >= 1
  {
    "cpu" + TagDigits(rec.core) + (Spaces(gap) + Loads.Format(rec.load, Trailer(extra)))
  }

  lemma {:induction false} FormatCpuLinePrefix(rec: CpuRecord, gap: nat, extra: seq<int>)
    requires gap >= 1
    ensures HasPrefix(FormatCpuLine(rec, gap, extra), "cpu")
  {
    Slices3("cpu", TagDigits(rec.core), Spaces(gap) + Loads.Format(rec.load, Trailer(extra)));
  }

  /** Text made only of spaces, minus signs and digits. */
  predicate Numeric(s: string) {
    forall i :: 0 <= i < |s| ==> s[i] == ' ' || s[i] == '-' || IsDigit(s[i])
  }

  lemma {:induction false} NumericConcat(a: string, b: string)
    requires Numeric(a) && Numeric(b)
    ensures Numeric(a + b)
  {
    forall i | 0 <= i < |a + b|
      ensures (a + b)[i] == ' ' || (a + b)[i] == '-' || IsDigit((a + b)[i])
    {
      if i < |a| {
        assert (a + b)[i] == a[i];
      } else {
        assert (a + b)[i] == b[i - |a|];
      }
    }
  }

  lemma {:induction false} FormatIntNumeric(v: int)
    ensures Numeric(FormatInt(v))
  {
    if v < 0 {
      NumericConcat("-", NatDigits(-v));
    }
  }

  lemma {:induction false} JoinNumeric(vs: seq<int>, rest: string)
    requires |vs| >= 1 && Numeric(rest)
    ensures Numeric(JoinInts(vs, rest))
    decreases |vs|
  {
    FormatIntNumeric(vs[0]);
    if |vs| == 1 {
      NumericConcat(FormatInt(vs[0]), rest);
    } else {
      JoinNumeric(vs[1..], rest);
      NumericConcat(" ", JoinInts(vs[1..], rest));
      NumericConcat(FormatInt(vs[0]), " " + JoinInts(vs[1..], rest));
    }
  }

  lemma {:induction false} SpacesNumeric(n: nat)
    ensures Numeric(Spaces(n))
  {
    if n > 0 {
      SpacesNumeric(n - 1);
      NumericConcat(" ", Spaces(n - 1));
    }
  }

  /** The counters after a tag hold no `c`, so no tag can occur in them. */
  lemma {:induction false} NoTagInCounters(l: Load, gap: nat, extra: seq<int>, tag: string)
    requires |tag| > 0 && tag[0] == 'c'
    ensures !Occurs(Spaces(gap) + Loads.Format(l, Trailer(extra)), tag)
  {
    if extra != [] {
      JoinNumeric(extra, "");
      NumericConcat(" ", JoinInts(extra, ""));
    }
    JoinNumeric(Fields(l), Trailer(extra));
    SpacesNumeric(gap);
    NumericConcat(Spaces(gap), Loads.Format(l, Trailer(extra)));
    NoOccurrenceWithoutHead(Spaces(gap) + Loads.Format(l, Trailer(extra)), tag);
  }

  /**
   * Round trip: a `cpu` line in the kernel's layout parses back to its
   * record, whatever the run of spaces after the tag and however many
   * counters follow the seventh; the package line (no digits after `cpu`) is
   * told apart from the core lines.
   */
  lemma {:induction false} ParseFormatCpuLine(rec: CpuRecord, gap: nat, extra: seq<int>)
    requires gap >= 1
    ensures ParseCpuLine(FormatCpuLine(rec, gap, extra)) == Ok(rec)
  {
    var d := TagDigits(rec.core);
    var counters := Loads.Format(rec.load, Trailer(extra));
    var body := Spaces(gap) + counters;
    assert body[0] == ' ';
    FindCpuTagged(d, body);
    assert ("cpu" + d)[0] == 'c';
    NoTagInCounters(rec.load, gap, extra, "cpu" + d);
    RemoveLeading("cpu" + d, body);
    SkipSpacesScan(gap, counters);
    ScanFormat(rec.load, Trailer(extra));
    if rec.core.Some? {
      NatDigitsValue(rec.core.value);
    }
  }

  /**
   * What `readCPULine` accepts, in terms of words: for a line that starts with
   * `cpu` and a digit group `d`, and does not repeat that tag later, the parse
   * succeeds exactly when the first seven blank-separated words after the tag
   * are integers (the seventh needing only an integer prefix), the load holds
   * their values, and the core number is `d` read in decimal (none when `d`
   * is empty).
   */
  lemma {:induction false} ParseCpuLineWords(s: string)
    requires HasPrefix(s, "cpu")
    requires !Occurs(s[3 + DigitRun(s[3..])..], s[..3 + DigitRun(s[3..])])
    ensures ParseCpuLine(s).Ok? <==> ScansAsWords(Words(s[3 + DigitRun(s[3..])..]), Width)
    ensures ParseCpuLine(s).Ok? ==>
              Fields(ParseCpuLine(s).value.load) == WordValues(Words(s[3 + DigitRun(s[3..])..]), Width)
    ensures ParseCpuLine(s).Ok? ==>
              ParseCpuLine(s).value.core == if DigitRun(s[3..]) == 0 then None else Some(DigitsValue(s[3..3 + DigitRun(s[3..])]))
  {
    var n := DigitRun(s[3..]);
    var tag := s[..3 + n];
    var rest := s[3 + n..];
    FindCpuPrefixAtStart(s);
    assert s == tag + rest;
    RemoveLeading(tag, rest);
    assert s[3..3 + n] == s[3..][..n];
  }

  lemma {:induction false} SpacesCons(n: nat, s: string)
    requires n > 0
    ensures Spaces(n) + s == " " + (Spaces(n - 1) + s)
  {
    assert Spaces(n) == " " + Spaces(n - 1);
  }

  /** The blanks `%d` skips include any run of spaces. */
  lemma {:induction false} SkipBlanksSpaces(n: nat, s: string)
    ensures SkipBlanks(Spaces(n) + s) == SkipBlanks(s)
  {
    if n > 0 {
      SpacesCons(n, s);
      assert (" " + (Spaces(n - 1) + s))[1..] == Spaces(n - 1) + s;
      SkipBlanksSpaces(n - 1, s);
    } else {
      assert Spaces(n) + s == s;
    }
  }

  /** Scans that agree on the first integer agree on all of them. */
  lemma {:induction false} ScanIntsFirst(a: string, b: string, m: nat)
    requires m >= 1
    requires ScanInt(a) == ScanInt(b)
    ensures ScanInts(a, m) == ScanInts(b, m)
  {
  }

  /** Leading spaces do not change what `Load.Scan` reads. */
  lemma {:induction false} SkipSpacesScan(n: nat, s: string)
    ensures Loads.Scan(Spaces(n) + s) == Loads.Scan(s)
  {
    SkipBlanksSpaces(n, s);
    assert ScanInt(Spaces(n) + s) == ScanInt(s);
    ScanIntsFirst(Spaces(n) + s, s, 7);
  }

  /**
   * The growth and store of `readCPULine`: when the capacity is below `id+1`
   * the slice is replaced by one of exactly `id+1` entries holding the old
   * ones at their indexes and nil elsewhere; then entry `id` is overwritten.
   * `Wf` makes the capacity test also a length test, so the store is in bounds.
   */
  function StoreCore(c: Snapshot, id: nat, load: Load): (r: Snapshot)
    requires Wf(c)
    ensures Wf(r)
    ensures |r.cores| == if |c.cores| <= id then id + 1 else |c.cores|
    ensures r.cores[id] == Some(load)
    ensures forall i :: 0 <= i < |c.cores| && i != id ==> r.cores[i] == c.cores[i]
    ensures forall i :: |c.cores| <= i < |r.cores| && i != id ==> r.cores[i] == None
    ensures r.package == c.package && forall k :: Get(r, k) == Get(c, k)
  {
    var cores := if c.coresCap < id + 1 then c.cores + seq(id + 1 - |c.cores|, _ => None) else c.cores;
    var cap := if c.coresCap < id + 1 then id + 1 else c.coresCap;
    c.(cores := cores[id := Some(load)], coresCap := cap)
  }

  /**
   * The storing half of `readCPULine`: a record without a core number
   * replaces `Package`, one with core number `N` is stored in `Cores[N]`.
   */
  function StoreRecord(c: Snapshot, rec: CpuRecord): (r: Snapshot)
    requires Wf(c)
    ensures Wf(r) && |r.cores| >= |c.cores| && forall k :: Get(r, k) == Get(c, k)
    ensures rec.core.None? ==> r.package == Some(rec.load) && r.cores == c.cores
    ensures rec.core.Some? ==> rec.core.value < |r.cores|
    ensures rec.core.Some? ==> r.package == c.package && r.cores[rec.core.value] == Some(rec.load)
    ensures rec.core.Some? ==> |r.cores| == if |c.cores| <= rec.core.value then rec.core.value + 1 else |c.cores|
    ensures rec.core.Some? ==> forall i :: 0 <= i < |c.cores| && i != rec.core.value ==> r.cores[i] == c.cores[i]
    ensures rec.core.Some? ==> forall i :: |c.cores| <= i < |r.cores| && i != rec.core.value ==> r.cores[i] == None
  {
    match rec.core
    case None => c.(package := Some(rec.load))
    case Some(id) => StoreCore(c, id, rec.load)
  }

  /**
   * `readCPULine`: parse the line, then store what it carries. On an error
   * nothing is stored.
   */
  function ReadCpuLine(c: Snapshot, s: string): (r: Result<Snapshot, Error>)
    requires Wf(c)
    ensures r.Err? ==> r.error == NoMatch || r.error == MalformedLoad
    ensures r == Err(NoMatch) <==> !Occurs(s, "cpu")
    ensures r.Ok? ==> Wf(r.value) && |r.value.cores| >= |c.cores| && forall k :: Get(r.value, k) == Get(c, k)
    ensures r.Ok? ==> r.value.package == c.package || r.value.cores == c.cores
  {
    match ParseCpuLine(s)
    case Err(e) => Err(e)
    case Ok(rec) => Ok(StoreRecord(c, rec))
  }

  /**
   * `readCPULine` in terms of the line's words: for a line that starts with
   * `cpu` and a digit group `d`, and does not repeat that tag later, the call
   * succeeds exactly when the first seven words after the tag scan. Then the
   * load made of their values is stored as the package (`d` empty) or as core
   * `d` read in decimal, and every other load and every counter keeps its
   * value. On failure the error is a malformed load and nothing is stored.
   */
  lemma {:induction false} ReadCpuLineWords(c: Snapshot, s: string)
    requires Wf(c)
    requires HasPrefix(s, "cpu")
    requires !Occurs(s[3 + DigitRun(s[3..])..], s[..3 + DigitRun(s[3..])])
    ensures var r := ReadCpuLine(c, s);
            r.Ok? <==> ScansAsWords(Words(s[3 + DigitRun(s[3..])..]), Width)
    ensures var r := ReadCpuLine(c, s);
            r.Err? ==> r.error == MalformedLoad
    ensures var r := ReadCpuLine(c, s); var ws := Words(s[3 + DigitRun(s[3..])..]);
            r.Ok? && DigitRun(s[3..]) == 0 ==>
              |WordValues(ws, Width)| == Width && r.value.package == Some(FromFields(WordValues(ws, Width))) && r.value.cores == c.cores
    ensures var r := ReadCpuLine(c, s); var ws := Words(s[3 + DigitRun(s[3..])..]);
            var id := DigitsValue(s[3..3 + DigitRun(s[3..])]);
            r.Ok? && DigitRun(s[3..]) > 0 ==>
              |WordValues(ws, Width)| == Width && id < |r.value.cores| && r.value.cores[id] == Some(FromFields(WordValues(ws, Width)))
              && r.value.package == c.package
              && forall i :: 0 <= i < |c.cores| && i != id ==> r.value.cores[i] == c.cores[i]
    ensures var r := ReadCpuLine(c, s);
            r.Ok? ==> forall k :: Get(r.value, k) == Get(c, k)
  {
    ParseCpuLineWords(s);
    var p := ParseCpuLine(s);
    if p.Ok? {
      FieldsInjective(p.value.load, FromFields(Fields(p.value.load)));
    }
  }

  /**
   * The lines on which `Update` returns an error: a `cpu` line whose load does
   * not scan, or a counter line whose value does not scan. Whether a line is
   * fatal depends on the line alone, never on the snapshot.
   */
  predicate Fatal(line: string) {
    match Classify(line)
    case CpuLine => ParseCpuLine(line).Err?
    case CounterLine(k) => ScanKeyed(line, Key(k)).None?
    case OtherLine => false
  }

  /** The outcome of one iteration of the update loop. */
  datatype StepResult = Next(state: Snapshot) | Stop(error: Error)

  /**
   * One iteration of the loop in `Update`: dispatch on the line's prefix,
   * `continue` past `errNoMatch`, return any other error.
   */
  function Step(c: Snapshot, line: string): (r: StepResult)
    requires Wf(c)
    ensures r.Stop? <==> Fatal(line)
    ensures r.Stop? ==> r.error != NoMatch
    ensures r.Next? ==> Wf(r.state) && |r.state.cores| >= |c.cores|
    ensures r.Next? && !HasPrefix(line, "cpu") ==> r.state.package == c.package && r.state.cores == c.cores
    ensures r.Next? ==> forall k :: !HasPrefix(line, Key(k)) ==> Get(r.state, k) == Get(c, k)
  {
    match Classify(line)
    case CpuLine =>
      (match ReadCpuLine(c, line)
       case Ok(c') => Next(c')
       case Err(NoMatch) => Next(c)
       case Err(e) => Stop(e))
    case CounterLine(k) =>
      (match ScanKeyed(line, Key(k))
       case Some(v) => Next(With(c, k, v))
       case None => Stop(MalformedCounter(k)))
    case OtherLine => Next(c)
  }

  /** The snapshot after an update pass and the error it returned (`None` for nil). */
  datatype UpdateResult = UpdateResult(state: Snapshot, error: Option<Error>)

  /**
   * `Update` over the lines of the file: apply each line in order and stop at
   * the first fatal one, keeping what the earlier lines stored.
   */
  function Update(c: Snapshot, lines: seq<string>): (r: UpdateResult)
    requires Wf(c)
    ensures Wf(r.state)
    ensures |r.state.cores| >= |c.cores|
    ensures r.error.None? <==> forall i :: 0 <= i < |lines| ==> !Fatal(lines[i])
    ensures r.error != Some(NoMatch)
    decreases |lines|
  {
    if lines == [] then UpdateResult(c, None)
    else
      match Step(c, lines[0])
      case Stop(e) => UpdateResult(c, Some(e))
      case Next(c') =>
        var r := Update(c', lines[1..]);
        assert forall i :: 1 <= i < |lines| ==> lines[i] == lines[1..][i - 1];
        r
  }
}
