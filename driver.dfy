/**
 * The `main` of czmil_list (main.c:64-241) put together: options, file-kind
 * dispatch, open, range planning, the read/dump loop and close.
 *
 * Every fatal exit of the program (`usage`, `czmil_perror` + `exit(-1)`,
 * the "not enough data" message) ends the run with the matching Outcome;
 * the trace holds the open, read, dump and close calls made until then.
 */
module Driver {
  import opened CInt
  import opened Wrappers
  import opened Options
  import opened Dispatch
  import opened Planner
  import opened Traversal

  /** The command line after `getopt`: the options in order and the remaining operands. */
  datatype Args = Args(opts: seq<OptToken>, positionals: seq<string>)

  /** What the CZMIL library reports for one kind of file at the given path. */
  datatype FileView = FileView(openOk: bool, numberOfRecords: int32, readFails: set<int>)

  /** The library as seen through the point-file calls and the waveform-file calls. */
  datatype Store = Store(cpf: FileView, cwf: FileView) {
    function View(kind: Kind): FileView {
      match kind
      case Point => cpf
      case Waveform => cwf
    }
  }

  datatype Outcome =
    | Ok                 // return (0)
    | UsageError         // usage (): exit (-1)
    | OpenError          // open failed: exit (-1)
    | InsufficientData   // fewer than 100000 records: exit (-1)
    | ReadError(k: int)  // read of record k failed: exit (-1)

  datatype Report = Report(outcome: Outcome, trace: seq<Event>)

  /** The process exit status of an outcome. */
  function ExitStatus(o: Outcome): int {
    if o.Ok? then 0 else -1
  }

  /** The bytes of one character in the UTF-8 encoding of a path. */
  function CharBytes(c: char): nat {
    if c as int < 0x80 then 1
    else if c as int < 0x800 then 2
    else if c as int < 0x1_0000 then 3
    else 4
  }

  /** The number of bytes `strcpy` copies for a path, before the terminating NUL. */
  function Utf8Length(s: string): nat {
    if |s| == 0 then 0 else CharBytes(s[0]) + Utf8Length(s[1..])
  }

  /** A path that can be an argv string and that `strcpy` can copy, with its NUL, into `file[512]` (main.c:105). */
  predicate PathFits(path: string) {
    '\0' !in path && Utf8Length(path) < 512
  }

  /** The run configuration resolved before anything is opened. */
  datatype Config = Config(path: string, kind: Kind, recNum: int32, timing: bool)

  /**
   * Options, then the mandatory operand, then the kind: each failure is a
   * usage error before the file is opened (None).
   */
  function Resolve(args: Args): Option<Config> {
    if Unknown in args.opts || args.positionals == [] then None
    else
      var path := args.positionals[0];
      match Classify(path)
      case None => None
      case Some(kind) => Some(Config(path, kind, LastRecNum(args.opts), Timing in args.opts))
  }

  /**
   * `rec_num + 1` (main.c:139) is computed only after a successful open
   * without `-t`; there the final `rec_num` must not be INT32_MAX.
   */
  predicate NoOverflow(args: Args, store: Store) {
    Resolve(args).Some? && store.View(Resolve(args).value.kind).openOk && !Resolve(args).value.timing
    ==> Resolve(args).value.recNum < INT32_MAX
  }

  /** What `main` demands of its command line: no overflow, and an operand that fits `file`. */
  predicate ArgsFit(args: Args, store: Store) {
    NoOverflow(args, store) && (args.positionals != [] ==> PathFits(args.positionals[0]))
  }

  /** The whole run as a function of the command line and the store. */
  function RunSpec(args: Args, store: Store): Report
    requires NoOverflow(args, store)
  {
    match Resolve(args)
    case None => Report(UsageError, [])
    case Some(cfg) =>
      var view := store.View(cfg.kind);
      if !view.openOk then Report(OpenError, [Open(cfg.kind)])
      else
        match Plan(cfg.recNum, cfg.timing, view.numberOfRecords)
        case ExclusiveOptions => Report(UsageError, [Open(cfg.kind)])
        case NotEnoughData => Report(InsufficientData, [Open(cfg.kind)])
        case Range(start, end) =>
          var steps := [Open(cfg.kind)] + Steps(cfg.kind, cfg.timing, view.readFails, start, end);
          match FirstFail(view.readFails, start, end)
          case Some(k) => Report(ReadError(k), steps)
          case None => Report(Ok, steps + [Close(cfg.kind)])
  }

  /** `main`, step by step. */
  method Run(args: Args, store: Store) returns (outcome: Outcome, trace: seq<Event>)
    requires ArgsFit(args, store)
    ensures Report(outcome, trace) == RunSpec(args, store)
  {
    var settings := ParseOptions(args.opts);
    if settings.None? {
      return UsageError, [];
    }
    if |args.positionals| == 0 {
      return UsageError, [];
    }
    var file := args.positionals[0];
    var kind: Kind;
    if Contains(file, CWF) {
      kind := Waveform;
    } else if Contains(file, CPF) {
      kind := Point;
    } else {
      return UsageError, [];
    }
    var view := store.View(kind);
    trace := [Open(kind)];
    if !view.openOk {
      return OpenError, trace;
    }
    var recNum, timing := settings.value.recNum, settings.value.timing;
    var start, end;
    match Plan(recNum, timing, view.numberOfRecords) {
      case ExclusiveOptions =>
        return UsageError, trace;
      case NotEnoughData =>
        return InsufficientData, trace;
      case Range(s, e) =>
        start, end := s, e;
    }
    var failedAt, steps := Traverse(kind, timing, view.readFails, start, end);
    trace := trace + steps;
    if failedAt.Some? {
      return ReadError(failedAt.value), trace;
    }
    trace := trace + [Close(kind)];
    outcome := Ok;
  }

  /** The file was classified and the kind-specific open succeeded. */
  predicate Opened(args: Args, store: Store) {
    Resolve(args).Some? && store.View(Resolve(args).value.kind).openOk
  }

  /**
   * A usage problem found before the open (unknown option, missing operand,
   * path with neither ".cwf" nor ".cpf") ends the run with status -1 before
   * any library call; it is the only way a run makes no call at all.
   */
  lemma UsageBeforeOpen(args: Args, store: Store)
    requires NoOverflow(args, store)
    ensures RunSpec(args, store).trace == [] <==>
      Unknown in args.opts || args.positionals == []
      || (!HasSubstring(args.positionals[0], CWF) && !HasSubstring(args.positionals[0], CPF))
    ensures RunSpec(args, store).trace == [] ==>
      RunSpec(args, store).outcome == UsageError && ExitStatus(RunSpec(args, store).outcome) == -1
  {
    if args.positionals != [] {
      ClassifySpec(args.positionals[0]);
    }
  }

  /**
   * Error precedence: usage problems found before the open come first,
   * then a failed open; `-n` (non-negative) with `-t` is noticed only after
   * a successful open, and a negative `-n` with `-t` is no conflict; the
   * record-count check applies whether or not `-t` was given.
   */
  lemma OutcomeCases(args: Args, store: Store)
    requires NoOverflow(args, store)
    ensures RunSpec(args, store).outcome == UsageError <==>
      Resolve(args).None? || (Opened(args, store) && 0 <= Resolve(args).value.recNum && Resolve(args).value.timing)
    ensures RunSpec(args, store).outcome == OpenError <==> Resolve(args).Some? && !Opened(args, store)
    ensures RunSpec(args, store).outcome == InsufficientData <==>
      Opened(args, store) && Resolve(args).value.recNum < 0
      && store.View(Resolve(args).value.kind).numberOfRecords < TIMING_RECORDS
    ensures RunSpec(args, store).outcome.Ok? || RunSpec(args, store).outcome.ReadError? ==>
      Opened(args, store) && Resolve(args).value.timing ==> Resolve(args).value.recNum < 0
  {
  }

  /**
   * A run with no read failure in its planned range reads every index of
   * the range in ascending order, dumps each of them unless timing, and
   * then closes the file once, with the close call of the opened kind.
   */
  lemma CompletedRun(args: Args, store: Store, cfg: Config, start: int, end: int)
    requires NoOverflow(args, store) && Resolve(args) == Some(cfg) && store.View(cfg.kind).openOk
    requires Plan(cfg.recNum, cfg.timing, store.View(cfg.kind).numberOfRecords) == Range(start, end)
    requires forall j :: start <= j < end ==> j !in store.View(cfg.kind).readFails
    ensures RunSpec(args, store).outcome == Ok && ExitStatus(RunSpec(args, store).outcome) == 0
    ensures Reads(RunSpec(args, store).trace) == Span(start, end)
    ensures Dumps(RunSpec(args, store).trace) == if cfg.timing then [] else Span(start, end)
    ensures Closes(RunSpec(args, store).trace) == [cfg.kind]
    ensures RunSpec(args, store).trace[0] == Open(cfg.kind)
    ensures RunSpec(args, store).trace[|RunSpec(args, store).trace| - 1] == Close(cfg.kind)
    ensures forall e :: e in RunSpec(args, store).trace ==> e.kind == cfg.kind
  {
    var view := store.View(cfg.kind);
    var steps := Steps(cfg.kind, cfg.timing, view.readFails, start, end);
    assert FirstFail(view.readFails, start, end) == None;
    assert RunSpec(args, store) == Report(Ok, [Open(cfg.kind)] + steps + [Close(cfg.kind)]);
    CompletedTrace(cfg.kind, cfg.timing, view.readFails, start, end);
  }

  /**
   * The first read failure, at index k, ends the run with status -1: every
   * index before k was read (and dumped unless timing), k was read but not
   * dumped, nothing after k was read, and the file is never closed.
   */
  lemma ReadFailureAborts(args: Args, store: Store, cfg: Config, start: int, end: int, k: int)
    requires NoOverflow(args, store) && Resolve(args) == Some(cfg) && store.View(cfg.kind).openOk
    requires Plan(cfg.recNum, cfg.timing, store.View(cfg.kind).numberOfRecords) == Range(start, end)
    requires start <= k < end && k in store.View(cfg.kind).readFails
    requires forall j :: start <= j < k ==> j !in store.View(cfg.kind).readFails
    ensures RunSpec(args, store).outcome == ReadError(k) && ExitStatus(RunSpec(args, store).outcome) == -1
    ensures Reads(RunSpec(args, store).trace) == Span(start, k + 1)
    ensures Dumps(RunSpec(args, store).trace) == if cfg.timing then [] else Span(start, k)
    ensures Closes(RunSpec(args, store).trace) == []
    ensures RunSpec(args, store).trace[|RunSpec(args, store).trace| - 1] == Read(cfg.kind, k)
  {
    var view := store.View(cfg.kind);
    var steps := Steps(cfg.kind, cfg.timing, view.readFails, start, end);
    assert FirstFail(view.readFails, start, end) == Some(k);
    assert RunSpec(args, store) == Report(ReadError(k), [Open(cfg.kind)] + steps);
    AbortedTrace(cfg.kind, cfg.timing, view.readFails, start, end, k);
  }

  /** A command line with a single operand that names a kind resolves to that kind. */
  lemma ResolveSingleOperand(opts: seq<OptToken>, path: string, kind: Kind)
    requires Unknown !in opts && Classify(path) == Some(kind)
    ensures Resolve(Args(opts, [path])) == Some(Config(path, kind, LastRecNum(opts), Timing in opts))
  {
  }

  /**
   * A point file of 50 records cannot be listed, even without `-t`: the
   * record-count check ignores `timing`.
   */
  lemma SmallFileScenario(stem: string, store: Store)
    requires '.' !in stem
    requires store.cpf.openOk && store.cpf.numberOfRecords == 50
    ensures RunSpec(Args([], [stem + CPF]), store) == Report(InsufficientData, [Open(Point)])
  {
    PlainStem(stem);
    ResolveSingleOperand([], stem + CPF, Point);
    assert Plan(UNSET, false, 50) == NotEnoughData;
  }

  /** `-t` on a 200000-record waveform file reads records 0 .. 99999, dumps none and closes. */
  lemma TimingScenario(stem: string, store: Store)
    requires '.' !in stem
    requires store.cwf == FileView(true, 200000, {})
    ensures var rep := RunSpec(Args([Timing], [stem + CWF]), store);
      rep.outcome == Ok && Reads(rep.trace) == Span(0, 100000) && Dumps(rep.trace) == []
      && Closes(rep.trace) == [Waveform]
  {
    var opts := [Timing];
    PlainStem(stem);
    NoRecordNumberKeepsUnset(opts);
    ResolveSingleOperand(opts, stem + CWF, Waveform);
    var cfg := Config(stem + CWF, Waveform, UNSET, true);
    CompletedRun(Args(opts, [stem + CWF]), store, cfg, 0, 100000);
  }

  /** `-n -5 -t` is no conflict: the negative record number counts as not given. */
  lemma NegativeRecordNumberScenario(stem: string, store: Store)
    requires '.' !in stem
    requires store.cwf == FileView(true, 200000, {})
    ensures var rep := RunSpec(Args([RecordNumber(Some(-5)), Timing], [stem + CWF]), store);
      rep.outcome == Ok && Reads(rep.trace) == Span(0, 100000) && Dumps(rep.trace) == []
  {
    var opts := [RecordNumber(Some(-5)), Timing];
    PlainStem(stem);
    LastRecordNumberWins(opts, 0);
    ResolveSingleOperand(opts, stem + CWF, Waveform);
    var cfg := Config(stem + CWF, Waveform, -5, true);
    CompletedRun(Args(opts, [stem + CWF]), store, cfg, 0, 100000);
  }

  /** `-n 3 -t` is a usage error, but only once the file has been opened. */
  lemma ConflictScenario(stem: string, store: Store)
    requires '.' !in stem
    ensures RunSpec(Args([RecordNumber(Some(3)), Timing], [stem + CPF]), store) ==
      if store.cpf.openOk then Report(UsageError, [Open(Point)]) else Report(OpenError, [Open(Point)])
  {
    var opts := [RecordNumber(Some(3)), Timing];
    PlainStem(stem);
    LastRecordNumberWins(opts, 0);
    ResolveSingleOperand(opts, stem + CPF, Point);
    assert Plan(3, true, store.cpf.numberOfRecords) == ExclusiveOptions;
  }

  /**
   * `-n 500` on a 10-record point file is not rejected up front: record 500
   * is read, and the failure of that read ends the run.
   */
  lemma OutOfRangeRecordScenario(stem: string, store: Store)
    requires '.' !in stem
    requires store.cpf.openOk && store.cpf.numberOfRecords == 10 && 500 in store.cpf.readFails
    ensures RunSpec(Args([RecordNumber(Some(500))], [stem + CPF]), store) ==
      Report(ReadError(500), [Open(Point), Read(Point, 500)])
  {
    var opts := [RecordNumber(Some(500))];
    PlainStem(stem);
    LastRecordNumberWins(opts, 0);
    ResolveSingleOperand(opts, stem + CPF, Point);
    assert Plan(500, false, 10) == Range(500, 501);
    assert FirstFail(store.cpf.readFails, 500, 501) == Some(500);
    assert Steps(Point, false, store.cpf.readFails, 500, 501) == [Read(Point, 500)];
  }

  /** A read failure at index 37 of a whole-file listing stops there, without closing. */
  lemma ReadFailureScenario(stem: string, store: Store)
    requires '.' !in stem
    requires store.cpf == FileView(true, 150000, {37})
    ensures var rep := RunSpec(Args([], [stem + CPF]), store);
      rep.outcome == ReadError(37) && Reads(rep.trace) == Span(0, 38) && Dumps(rep.trace) == Span(0, 37)
      && Closes(rep.trace) == []
  {
    var opts: seq<OptToken> := [];
    PlainStem(stem);
    ResolveSingleOperand(opts, stem + CPF, Point);
    var cfg := Config(stem + CPF, Point, UNSET, false);
    ReadFailureAborts(Args(opts, [stem + CPF]), store, cfg, 0, 150000, 37);
  }

  /**
   * `-n 2147483647 -n 0` lists record 0: only the final `rec_num` is ever
   * incremented, so an earlier INT32_MAX does no harm.
   */
  lemma RepeatedRecordNumberScenario(stem: string, store: Store)
    requires '.' !in stem
    requires store.cpf.openOk && 0 !in store.cpf.readFails
    ensures var rep := RunSpec(Args([RecordNumber(Some(INT32_MAX)), RecordNumber(Some(0))], [stem + CPF]), store);
      rep.outcome == Ok && Reads(rep.trace) == [0] && Dumps(rep.trace) == [0] && Closes(rep.trace) == [Point]
  {
    var opts := [RecordNumber(Some(INT32_MAX)), RecordNumber(Some(0))];
    PlainStem(stem);
    LastRecordNumberWins(opts, 1);
    ResolveSingleOperand(opts, stem + CPF, Point);
    var cfg := Config(stem + CPF, Point, 0, false);
    CompletedRun(Args(opts, [stem + CPF]), store, cfg, 0, 1);
  }

  /** `-n 2147483647 -t` is an open error or a usage error; `rec_num + 1` is never reached. */
  lemma MaxRecordNumberWithTimingScenario(stem: string, store: Store)
    requires '.' !in stem
    ensures RunSpec(Args([RecordNumber(Some(INT32_MAX)), Timing], [stem + CPF]), store) ==
      if store.cpf.openOk then Report(UsageError, [Open(Point)]) else Report(OpenError, [Open(Point)])
  {
    var opts := [RecordNumber(Some(INT32_MAX)), Timing];
    PlainStem(stem);
    LastRecordNumberWins(opts, 0);
    ResolveSingleOperand(opts, stem + CPF, Point);
  }
}
