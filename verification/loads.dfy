/** The per-CPU load record of internal/cpu/cpu.go and its `Scan` method. */
module Loads {
  import opened Wrappers
  import opened Text
  import opened Scanning

  /** The seven cumulative tick counters of one `cpu` or `cpuN` line. */
  datatype Load = Load(
    user: int,
    nice: int,
    system: int,
    idle: int,
    ioWait: int,
    interrupts: int,
    softInterrupts: int)

  /** The counters in the order a /proc/stat line lists them. */
  function Fields(l: Load): (vs: seq<int>)
    ensures |vs| == 7
  {
    [l.user, l.nice, l.system, l.idle, l.ioWait, l.interrupts, l.softInterrupts]
  }

  /** The record whose counters, in line order, are `vs`. */
  function FromFields(vs: seq<int>): (l: Load)
    requires |vs| == 7
    ensures Fields(l) == vs
  {
    Load(vs[0], vs[1], vs[2], vs[3], vs[4], vs[5], vs[6])
  }

  /** Two records with the same counters in the same order are the same record. */
  lemma {:induction false} FieldsInjective(a: Load, b: Load)
    requires Fields(a) == Fields(b)
    ensures a == b
  {
    assert Fields(a)[0] == Fields(b)[0] && Fields(a)[1] == Fields(b)[1] && Fields(a)[2] == Fields(b)[2];
    assert Fields(a)[3] == Fields(b)[3] && Fields(a)[4] == Fields(b)[4];
    assert Fields(a)[5] == Fields(b)[5] && Fields(a)[6] == Fields(b)[6];
  }

  /** The number of counters `Load.Scan` reads. */
  const Width: nat := 7

  /**
   * `Load.Scan`: `fmt.Sscanf(s, "%d %d %d %d %d %d %d", ...)` into a fresh
   * record. It succeeds exactly when the first six words of `s` are integer
   * tokens and the seventh starts with one; the fields then hold those seven
   * values in line order, and anything after the seventh value is ignored.
   */
  function Scan(s: string): (r: Option<Load>)
    ensures r.Some? <==> ScansAsWords(Words(s), Width)
    ensures r.Some? ==> Fields(r.value) == WordValues(Words(s), Width)
  {
    ScanIntsWords(s, Width);
    match ScanInts(s, 7)
    case None => None
    case Some(vs) => Some(FromFields(vs))
  }

  /**
   * The seven counters as the kernel prints them, decimal values separated
   * by single spaces, followed by the text `rest` (on a current kernel, the
   * further counters `steal`, `guest` and `guest_nice`).
   */
  function Format(l: Load, rest: string): string {
    JoinInts(Fields(l), rest)
  }

  /**
   * Round trip: `Scan` reads back every record `Format` writes, whatever
   * follows the seventh counter as long as it does not continue its digits.
   */
  lemma {:induction false} ScanFormat(l: Load, rest: string)
    requires rest == [] || !IsDigit(rest[0])
    ensures Scan(Format(l, rest)) == Some(l)
  {
    ScanIntsJoin(Fields(l), rest);
    FieldsInjective(FromFields(Fields(l)), l);
  }
}
