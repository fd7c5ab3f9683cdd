# ptop `/proc/stat` parser, modelled in Dafny

This project models the CPU statistics core of ptop (`internal/cpu/cpu.go`):
the `Load` record and its `Scan` method, the `CPU` snapshot, `New`, the
`Update` pass over the lines of `/proc/stat` and `readCPULine`, which finds the
`cpu([0-9]*)` tag, cuts it out of the line, scans the seven load counters and
stores them as the package load or in the core slice, growing the slice when
the core number does not fit.

The Go program mutates a struct in place while it reads a file. The model is
pure: a `Snapshot` value goes in, a new one comes out, and the file is the
sequence of its lines. The library calls the parser depends on are modelled
explicitly, with their edge cases:

- `fmt.Sscanf` for the formats the parser uses (`Scanning`). A space in the
  format needs at least one blank in the input, or the end of the input, and
  then swallows every further blank. `%d` skips blanks and reads an optional
  sign and one or more decimal digits. Input after the last verb is ignored.
  A newline counts as a non-blank, so the scan fails on it as Go's does.
- `regexp.FindStringSubmatch` for `cpu([0-9]*)`: the leftmost `cpu` with a
  greedy digit group (`Text.FindCpuPrefix`).
- `strings.ReplaceAll(s, match, "")` (`Text.RemoveAll`) and `strconv.Atoi`
  on a digit string (`Text.DigitsValue`).
- The core slice's length and capacity (`Snapshot.cores`, `coresCap`). The
  invariant `Wf` says they are equal, which is what makes the capacity test
  at line 219 also a bounds test for the store at line 225.

Each operation is paired with a reference it is proved against:

- Scanning is proved against a blank-separated word view of the line
  (`Scanning.Words`).
- Parsing is proved to invert the kernel's formatting (`Loads.Format`,
  `Cpu.FormatCpuLine`). The formatter covers the kernel's layout: two
  spaces after the package tag `cpu`, one after a core tag, and the
  counters after the seventh (`steal`, `guest`, `guest_nice`), which the
  parser ignores.
- The update pass is proved equal to a replay of per-line writes
  (`UpdateLaws.Decode`, `Replay`). From that follow last-write-wins,
  "nothing else changes", the partial update on a fatal line, independence
  of the error from the starting snapshot, and idempotence.

Three points about what the code does, which the model follows:

- **Dispatch.** The switch in `Update` takes the first prefix that matches,
  in the order `cpu`, `intr`, `ctxt`, `btime`, `processes`,
  `procs_running`, `procs_blocked`. A longest-prefix rule would pick the
  same case, because `Cpu.PrefixesExclusive` shows that no line has two of
  these prefixes.
- **Bad `cpu` lines.** The `errNoMatch` branch at lines 100-102 suggests
  that an unrecognisable `cpu` line was meant to be skipped. That branch is
  dead: `errNoMatch` only comes from a line with no `cpu` in it, and every
  line that reaches `readCPULine` starts with `cpu`. So a `cpu` line whose
  load does not scan ends the pass with an error. `Cpu.ParseCpuLine`,
  `Cpu.Step` and `Cpu.Update` state this.
- **Load lines.** Tokens after the seventh counter are ignored. The seventh
  only needs to start with an integer (`7abc` reads as 7), because `Sscanf`
  stops after its last verb.

## Model

| member | source | states |
|---|---|---|
| Text.FindCpuPrefix | internal/cpu/cpu.go:178-183 | no match exactly when the line has no `cpu`; otherwise the match is `cpu` plus a digit group, sits at the leftmost `cpu`, and is not followed by a further digit (the group is greedy) |
| Text.FindCpuTagged | internal/cpu/cpu.go:178 | a line `cpu` + digits + a text not starting with a digit matches exactly that tag, with the digits as the group |
| Text.RemoveAll | internal/cpu/cpu.go:189 | removing every occurrence never lengthens the text and is the identity on a text without an occurrence |
| Text.RemoveLeading | internal/cpu/cpu.go:189 | cutting the tag out of tag + body gives back the body when the body does not contain the tag again |
| Text.NatDigitsValue | internal/cpu/cpu.go:208 | reading a rendered natural number back with `Atoi` gives the number |
| Scanning.ScanInt | internal/cpu/cpu.go:35-39 | one `%d` consumes input and stops where no further digit follows |
| Scanning.ScanIntFormat | internal/cpu/cpu.go:35-39 | `%d` reads back any rendered integer, negative ones included, and leaves the text after it unread |
| Scanning.ScanIntsWords | internal/cpu/cpu.go:35-39 | scanning `n` integers succeeds exactly when the first `n - 1` words are integer tokens and the `n`-th starts with one, and returns those words' values in order |
| Scanning.ScanIntsJoin | internal/cpu/cpu.go:35-39 | scanning `n` integers out of their space-separated rendering returns exactly them, whatever non-digit text follows |
| Scanning.ScanKeyedWords | internal/cpu/cpu.go:106-166 | a `key %d` scan succeeds exactly when the line starts with the key, a blank or the end follows it, and the first word after it starts with an integer token, whose value is the result |
| Scanning.ScanKeyedFormat | internal/cpu/cpu.go:106-166 | a `key %d` scan reads back the value of a `key value` line, whatever follows the value when it does not continue its digits |
| Loads.Scan | internal/cpu/cpu.go:34-45 | `Load.Scan` succeeds exactly when the first seven words allow seven `%d`s (six integer words and a seventh that starts with an integer), and the fields are those words' values in line order; later words are ignored |
| Loads.ScanFormat | internal/cpu/cpu.go:34-45 | `Load.Scan` reads back every load rendered as seven space-separated counters, whatever follows the seventh when it does not continue its digits (such as further counters) |
| Loads.FromFields | internal/cpu/cpu.go:23-31 | the seven counters fill the record's fields in the order user, nice, system, idle, iowait, irq, softirq |
| Cpu.New | internal/cpu/cpu.go:62-73 | a new snapshot has no package load, an empty core slice of capacity 0, the zero boot time and every other counter at 0 |
| Cpu.With | internal/cpu/cpu.go:106-166 | a counter line sets its own counter and no other field |
| Cpu.PrefixesExclusive | internal/cpu/cpu.go:96-167 | no line starts with two different counter keys, nor with a counter key and `cpu` |
| Cpu.Classify | internal/cpu/cpu.go:96-167 | a line is a `cpu` line exactly when it starts with `cpu`, a counter line for `k` exactly when it starts with `k`'s key, and ignored exactly when it starts with none of them |
| Cpu.ParseCpuLine | internal/cpu/cpu.go:178-211 | `errNoMatch` exactly when the line has no `cpu`, never for a line starting with `cpu`; the only other error is a load that does not scan |
| Cpu.ParseFormatCpuLine | internal/cpu/cpu.go:178-211 | a `cpu` line in the kernel's layout, with any run of spaces after the tag (two on the package line) and any counters after the seventh, parses back to its record, so the package line and core lines are told apart |
| Cpu.ParseCpuLineWords | internal/cpu/cpu.go:178-211 | a `cpu` line whose tag is not repeated parses exactly when the first seven words after the tag scan; the load holds their values and the core number is the tag's digits in decimal |
| Cpu.StoreCore | internal/cpu/cpu.go:219-225 | storing core `id` grows the slice to exactly `id + 1` when it is too short and otherwise keeps its length; entry `id` holds the load, earlier entries keep their loads, new entries are nil, the rest of the snapshot is unchanged |
| Cpu.StoreRecord | internal/cpu/cpu.go:202-225 | a record without a core number replaces the package load; a record with one is stored at that index, the slice growing to exactly index + 1 when too short, with the other entries kept and new ones nil; counters are unchanged |
| Cpu.ReadCpuLine | internal/cpu/cpu.go:173-228 | `readCPULine` fails only with `errNoMatch` or a malformed load, with `errNoMatch` exactly when the line has no `cpu`; on success the invariant holds, the slice does not shrink, every counter is unchanged and at most one of the package and the core slice changes |
| Cpu.ReadCpuLineWords | internal/cpu/cpu.go:173-228 | for a `cpu` line whose tag is not repeated, `readCPULine` succeeds exactly when the first seven words after the tag scan; it then stores the load made of their values as the package (no digits) or as the core the digits name, leaving every other load and every counter as it was; otherwise it fails with a malformed load and stores nothing |
| Cpu.Step | internal/cpu/cpu.go:94-167 | one loop iteration stops exactly on a fatal line and never with `errNoMatch`; otherwise it keeps the invariant, never shrinks the slice, leaves loads alone on non-`cpu` lines and leaves every counter whose key the line lacks |
| Cpu.Update | internal/cpu/cpu.go:83-171 | the pass returns nil exactly when no line is fatal, never returns `errNoMatch`, keeps the invariant and never shrinks the slice |
| UpdateLaws.Perform | internal/cpu/cpu.go:202-225 | a write changes what its own place reads to the written value and leaves every other place as it was |
| UpdateLaws.StepIsDecodedWrite | internal/cpu/cpu.go:96-167 | a fatal line stops with its error; any other line performs the write decoded from the line alone, or nothing |
| UpdateLaws.BeforeFirstFatal | internal/cpu/cpu.go:94-105 | every line before the first fatal one is non-fatal |
| UpdateLaws.ReplayObserve | internal/cpu/cpu.go:94-170 | after a series of writes each place reads the last value written to it, or its old value when nothing was written to it |
| UpdateLaws.UpdateIsReplay | internal/cpu/cpu.go:94-170 | the pass performs the writes of the lines before the first fatal line, in order, and returns that line's error, or nil when no line is fatal |
| UpdateLaws.UpdateObserve | internal/cpu/cpu.go:94-170 | after a pass each place holds the last value written before the first fatal line, or its previous value, so a fatal line leaves later fields at the previous cycle's values |
| UpdateLaws.UpdateErrorStateFree | internal/cpu/cpu.go:96-167 | whether a pass fails, and with which error, depends on the lines and not on the starting snapshot |
| UpdateLaws.UpdateIdempotent | internal/cpu/cpu.go:83-171 | running a pass again on the same lines leaves the snapshot and the error as they are |
| UpdateLaws.StepFormatted | internal/cpu/cpu.go:97-105 | a `cpu` line in the kernel's layout, trailing counters included, stores its record |
| UpdateLaws.StepCounterFormatted | internal/cpu/cpu.go:106-166 | a `key value` line, followed by anything that does not continue the value's digits (such as the per-interrupt counts of `intr`), sets that counter to the value |
| UpdateLaws.OutOfOrderCores | internal/cpu/cpu.go:219-225 | `cpu12` then `cpu3` on a new snapshot gives 13 entries, with cores 12 and 3 stored and all other entries nil |

## Left out

- Opening, seeking and closing `/proc/stat` (`New` at lines 63-66, `Close`, the `Seek` at line 86): file I/O. The model starts from the file's contents and leaves out the file handle.
- Line splitting by `bufio.Scanner` (lines 91-95): the file is given as its sequence of lines. `Update` never calls `sc.Err()`: a line longer than the scanner's 64 KiB token limit, or a read error, ends the loop at line 94 and `Update` returns nil at line 170 with the later lines unread. The model's lines are the lines the scanner yields, so `Cpu.Update`'s "nil exactly when no line is fatal" covers those lines only.
- `time.Unix` (line 139): `BootTime` is kept as Unix seconds; the zero `time.Time` is `ZeroTimeUnix`.
- 64-bit range: the counters are unbounded integers. The overflow errors of `Sscanf` and `strconv.Atoi` are not modelled, so the `Atoi` error branch (lines 209-211) cannot be reached in the model.
- Cpu.StoreCore: core numbers are unbounded naturals, and the slice grows for every one of them. In Go, a tag such as `cpu9223372036854775807` passes `Atoi`, `id+1` wraps to a negative number, the test at line 219 is false and the store at line 225 panics out of range; an id too large to allocate makes the `make` at line 220 panic. Neither crash is modelled.
- `CPU.String` (lines 232-239): formatting for display only.
- Text.RemoveAll: the contract does not say which occurrences are removed; the left-to-right behaviour is the function's definition, and the property the parser needs is `Text.RemoveLeading`.
- Scanning.ScanInt: the contract states only how far the scan reaches; its value is characterised by `Scanning.ScanIntFormat` and `Scanning.ScanIntsWords`.
- `main.go` and the OS-name lookup: outside the CPU statistics core.
