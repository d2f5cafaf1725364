# czmil_list: control logic of a CZMIL file lister

`czmil_list [-n RECORD_NUMBER] [-t] FILE` opens one CZMIL point (`.cpf`) or
waveform (`.cwf`) file through the CZMIL library. It then reads a range of its
records in ascending order and dumps each one to standard error. With `-n N`
it visits only record N. With `-t` it runs a read-only timing test over the
first 100000 records. All of the program is in `main.c`; this project models
its decision logic:

- **Options** (`options.dfy`): the `getopt` loop. `ParseOptions` is the
  loop, and `LastRecNum` is its reference definition ("the last `-n` whose
  argument parsed wins").
- **Dispatch** (`dispatch.dfy`): the file kind comes from a `strstr`
  substring test. `.cwf` is tested before `.cpf`. `Contains` is the
  left-to-right scan, and `HasSubstring` is the positional definition it is
  proved equal to.
- **Planner** (`planner.dfy`): `Plan` computes the half-open range
  `[start, end)` from `rec_num`, `timing` and the open file's
  `number_of_records`, or it fails.
- **Traversal** (`traversal.dfy`): `Traverse` is the `for` loop over the
  range. It reads each index, dumps unless timing, and stops at the first
  failed read. `Steps` and `FirstFail` are its specification.
- **Driver** (`driver.dfy`): `Run` is `main` put together, and `RunSpec` is
  its specification. A run ends with an `Outcome` (`Ok`, `UsageError`,
  `OpenError`, `InsufficientData` or `ReadError(k)`). It also returns a
  trace of the open, read, dump and close calls it made into the CZMIL
  library (`Open`, `Read`, `Dump`, `Close`), each tagged with the file kind.

The CZMIL library is abstracted as a `Store`. For each kind, the store says
whether the open call succeeds, what `number_of_records` the header reports,
and the set of indices whose read call fails.

The model follows the code. In places the code does not do what the program's
own messages suggest: the usage text says only that "The t and n options are
exclusive" (main.c:58), and the "not enough data" message speaks of the "ten
second timing test" (main.c:156). What the code actually does:

- The "not enough data" check (main.c:154) is not guarded by `timing`. A run
  without a non-negative `-n` therefore fails on any file with fewer than
  100000 records, even a plain listing (`SmallFileNeverListed`,
  `SmallFileScenario`).
- A read failure ends the process with `exit(-1)` inside the loop
  (main.c:197-211). The file is then never closed (`ReadFailureAborts`).
- A negative `-n` counts as "not given" (main.c:134). So `-n -5 -t` is a
  timing run, not an exclusivity conflict.
- `-n` with `-t` is noticed only after the file was opened successfully
  (main.c:134-136). An open failure takes precedence, and the file opened for
  the conflicting run is not closed.

## Model

| member | source | states |
|---|---|---|
| Options.LastRecNum | main.c:81-97 | the final `rec_num` is either its initial -1 or the value of some `-n` whose argument parsed |
| Options.NoRecordNumberKeepsUnset | main.c:85-87 | with no `-n` whose argument parsed, `rec_num` stays -1 |
| Options.LastRecordNumberWins | main.c:85-87 | a repeated `-n` keeps the value of the last one that parsed; a later `-n` whose argument did not parse changes nothing |
| Options.ParseOptions | main.c:81-97 | the loop fails (usage) exactly when some option is unrecognised; otherwise `rec_num` is the last parsed `-n` and `timing` is true exactly when `-t` occurs (it is only ever set to true) |
| Dispatch.ContainsIff | main.c:108-117 | the `strstr` scan finds the pattern exactly when it occurs at some position of the path |
| Dispatch.ClassifySpec | main.c:108-128 | `.cwf` anywhere selects Waveform even when `.cpf` also occurs; otherwise `.cpf` anywhere selects Point; a path with neither is rejected |
| Dispatch.WaveformAnywhere | main.c:108-116 | the test is not suffix based: `.cwf` in the middle of a path selects Waveform |
| Dispatch.PointAnywhere | main.c:117-124 | `.cpf` anywhere in a path without `.cwf` selects Point, whatever follows it |
| Dispatch.PlainStem | main.c:108-124 | for a file name stem without dots, the suffix `.cpf` or `.cwf` decides the kind |
| Planner.Plan | main.c:134-161 | a conflict exactly when `rec_num >= 0` with `timing`; "not enough data" exactly when `rec_num < 0` and fewer than 100000 records, timing or not; a planned range starts at 0 or above and holds exactly 1 or at least 100000 indices; with `timing` it is exactly `[0, 100000)` |
| Planner.SingleRecordIgnoresCount | main.c:134-140 | `-n K` plans exactly `[K, K+1)` whatever the record count: no bounds check |
| Planner.WholeFile | main.c:141-161 | without `-n` or `-t`, a file of at least 100000 records is planned whole, `[0, number_of_records)` |
| Planner.NegativeRecordNumberWithTiming | main.c:134-160 | a negative `-n` with `-t` plans the timing window `[0, 100000)`, not a conflict |
| Planner.SmallFileNeverListed | main.c:154-158 | without a non-negative `-n`, fewer than 100000 records fails with or without `-t` |
| Traversal.SpanAt | main.c:193 | the visited indices `start, start+1, ...` are the j-th = start + j, so strictly ascending |
| Traversal.FirstFail | main.c:193-211 | the index where the loop stops is the least failing index of the range; no index before it fails, and if there is none, no index of the range fails |
| Traversal.StepFilters | main.c:195-214 | one successful iteration reads its index, dumps it unless timing, and only touches the opened kind |
| Traversal.StepsReads | main.c:193-211 | the loop reads every index of the range in ascending order up to and including the first failing one, and none after it |
| Traversal.StepsDumps | main.c:193-215 | the loop dumps each successfully read index once, in order, unless timing, when it dumps nothing; the failing index is never dumped |
| Traversal.StepsShape | main.c:193-215 | the loop only reads and dumps the opened kind and never closes the file |
| Traversal.LastReadFails | main.c:197-211 | after a read failure the loop makes no further call: its last call is the failing read |
| Traversal.CompletedTrace | main.c:193-224 | with no read failure: open, every index read, dumped unless timing, then exactly one close of the opened kind, last |
| Traversal.AbortedTrace | main.c:193-215 | with a first failure at k: indices before k read and dumped unless timing, k read but not dumped, no close |
| Traversal.Traverse | main.c:193-215 | the loop returns the first failing index of the range, if any, and makes exactly the calls `Steps` describes |
| Driver.Run | main.c:64-241 | `main` step by step yields exactly the outcome and library calls of `RunSpec` |
| Driver.UsageBeforeOpen | main.c:52-128 | an unknown option, a missing operand or a path with neither extension is a usage error with status -1 before any library call, and these are the only runs that make no call |
| Driver.OutcomeCases | main.c:81-161 | error precedence: a usage error exactly when resolution fails or, after a successful open, `-n >= 0` meets `-t`; an open error exactly when the open fails; "not enough data" exactly when opened, `rec_num < 0` and fewer than 100000 records; a run that reaches the loop with `-t` has `rec_num < 0` |
| Driver.ResolveSingleOperand | main.c:100-128 | with no unknown option, the single operand's kind, the last `-n` and the presence of `-t` form the run configuration |
| Driver.CompletedRun | main.c:193-240 | a planned range with no failing read ends with status 0: every index read in ascending order, dumped unless timing, the first call opens and the last closes the opened kind exactly once |
| Driver.ReadFailureAborts | main.c:193-215 | the first failing read at k ends the run with status -1: indices up to k read, k not dumped, the last call is that read, and no close |
| Driver.SmallFileScenario | main.c:141-158 | a plain listing of a 50-record point file fails with "not enough data" right after the open |
| Driver.TimingScenario | main.c:141-224 | `-t` on a 200000-record waveform file reads records 0..99999, dumps none and closes the waveform file |
| Driver.NegativeRecordNumberScenario | main.c:134-161 | `-n -5 -t` runs the timing test instead of failing as a conflict |
| Driver.ConflictScenario | main.c:108-136 | `-n 3 -t` on a point file is an open error if the open fails, else a usage error after the open |
| Driver.OutOfRangeRecordScenario | main.c:134-211 | `-n 500` on a 10-record file is not rejected up front: record 500 is read and its failure ends the run |
| Driver.RepeatedRecordNumberScenario | main.c:85-139 | `-n 2147483647 -n 0` lists record 0 only: the last `-n` wins and only the final `rec_num` is incremented |
| Driver.MaxRecordNumberWithTimingScenario | main.c:108-136 | `-n 2147483647 -t` is an open error or a usage error after the open; `rec_num + 1` is never reached |
| Driver.ReadFailureScenario | main.c:193-215 | a read failure at index 37 of a whole-file listing reads 0..37, dumps 0..36 and never closes |

## Left out

- The CZMIL library itself (open, read, dump, `czmil_perror`, close, header structs) is foreign code. It is modelled as a `Store`: per kind, open success, `number_of_records` and the set of failing read indices. No record format is parsed.
- `getopt` and the `sscanf("%d")` of the `-n` argument are abstracted into option tokens. `RecordNumber(None)` stands for an argument in which `sscanf` matched no integer; it leaves `rec_num` unchanged. `Unknown` covers both an unrecognised option and `-n` without an argument. Argument permutation is abstracted into the separate operand list; only the first operand is used and any further operands are ignored, as in `main.c`.
- All `fprintf` output is left out: the version banner, the "File :" line, the usage text, the "not enough data" message and the dumps' formatting. The trace records library calls only; the `Outcome` says which message ended the run.
- Overflow and buffer limits are preconditions, not modelled undefined behaviour. `NoOverflow` (required by `RunSpec` and the lemmas) asks only that the final `rec_num` is not `INT32_MAX` when `rec_num + 1` is reached: after a successful open without `-t`. `Run` also requires `PathFits`: the path contains no NUL and its bytes, with the terminating NUL, fit the 512-byte `file` buffer of the `strcpy`.
- Paths are Unicode text whose bytes are taken to be their UTF-8 encoding (`Utf8Length`). Command-line arguments that are not valid UTF-8 are not modelled. For UTF-8 paths the character-level substring test agrees with `strstr` on bytes, because the ASCII bytes of ".cwf" and ".cpf" never occur inside a multi-byte character.
- The `czmil_perror` calls (main.c:112, 121, 199, 209) are not in the trace; the `Outcome` (`OpenError`, `ReadError`) marks where they happen.
- The `number_of_records` header field is taken as the `int32_t` value it becomes when assigned to `end`; the header field's own type is not part of this model.
- The commented-out `czmil_read_cwf_record_array` test block (main.c:164-190) is dead code and is not modelled.
- The `fmod` linker workaround (main.c:237) is floating point with no effect on behaviour.
- Comparing the `char c` result of `getopt` with `EOF` depends on the platform's `char` signedness; the model assumes the loop ends when the options are exhausted.
- Run-to-run determinism (same arguments, same store, same output) is not stated as a lemma: it holds trivially because `RunSpec` is a function.
