/**
 * The read/dump loop (main.c:193-215). The CZMIL library is an abstract
 * store: a read of index i fails exactly when i is in `readFails`, and the
 * calls the loop makes are recorded as events.
 */
module Traversal {
  import opened Wrappers
  import opened Dispatch

  /** A call into the CZMIL library, for the kind of file that was opened. */
  datatype Event =
    | Open(kind: Kind)              // czmil_open_cpf_file / czmil_open_cwf_file
    | Read(kind: Kind, index: int)  // czmil_read_cpf_record / czmil_read_cwf_record
    | Dump(kind: Kind, index: int)  // czmil_dump_cpf_record / czmil_dump_cwf_record
    | Close(kind: Kind)             // czmil_close_cpf_file / czmil_close_cwf_file

  /** The ascending indices a, a + 1, ..., b - 1. */
  function Span(a: int, b: int): seq<int>
    decreases b - a
  {
    if b <= a then [] else [a] + Span(a + 1, b)
  }

  /** Span(a, b) holds b - a indices, the j-th being a + j: strictly ascending. */
  lemma {:induction false} SpanAt(a: int, b: int)
    ensures |Span(a, b)| == if a < b then b - a else 0
    ensures forall j :: 0 <= j < |Span(a, b)| ==> Span(a, b)[j] == a + j
    decreases b - a
  {
    if a < b {
      SpanAt(a + 1, b);
    }
  }

  /** The first index in [i, end) whose read fails, if any. */
  function FirstFail(readFails: set<int>, i: int, end: int): (r: Option<int>)
    ensures r.None? ==> forall j :: i <= j < end ==> j !in readFails
    ensures r.Some? ==> i <= r.value < end && r.value in readFails
    ensures r.Some? ==> forall j :: i <= j < r.value ==> j !in readFails
    decreases end - i
  {
    if end <= i then None
    else if i in readFails then Some(i)
    else FirstFail(readFails, i + 1, end)
  }

  /** The calls for one successfully read index: the read, then the dump unless timing. */
  function Step(kind: Kind, timing: bool, i: int): seq<Event> {
    [Read(kind, i)] + (if timing then [] else [Dump(kind, i)])
  }

  /**
   * The calls the loop makes from index i on: read i; on failure stop;
   * otherwise dump i unless timing, and go on with i + 1.
   */
  function Steps(kind: Kind, timing: bool, readFails: set<int>, i: int, end: int): seq<Event>
    decreases end - i
  {
    if end <= i then []
    else if i in readFails then [Read(kind, i)]
    else Step(kind, timing, i) + Steps(kind, timing, readFails, i + 1, end)
  }

  /** The indices read, in call order. */
  function Reads(t: seq<Event>): seq<int> {
    if |t| == 0 then [] else (if t[0].Read? then [t[0].index] else []) + Reads(t[1..])
  }

  /** The indices dumped, in call order. */
  function Dumps(t: seq<Event>): seq<int> {
    if |t| == 0 then [] else (if t[0].Dump? then [t[0].index] else []) + Dumps(t[1..])
  }

  /** The kinds of the close calls, in call order. */
  function Closes(t: seq<Event>): seq<Kind> {
    if |t| == 0 then [] else (if t[0].Close? then [t[0].kind] else []) + Closes(t[1..])
  }

  lemma {:induction false} ReadsAppend(a: seq<Event>, b: seq<Event>)
    ensures Reads(a + b) == Reads(a) + Reads(b)
  {
    if a == [] {
      assert a + b == b;
    } else {
      assert (a + b)[0] == a[0];
      assert (a + b)[1..] == a[1..] + b;
      ReadsAppend(a[1..], b);
    }
  }

  lemma {:induction false} DumpsAppend(a: seq<Event>, b: seq<Event>)
    ensures Dumps(a + b) == Dumps(a) + Dumps(b)
  {
    if a == [] {
      assert a + b == b;
    } else {
      assert (a + b)[0] == a[0];
      assert (a + b)[1..] == a[1..] + b;
      DumpsAppend(a[1..], b);
    }
  }

  lemma {:induction false} ClosesAppend(a: seq<Event>, b: seq<Event>)
    ensures Closes(a + b) == Closes(a) + Closes(b)
  {
    if a == [] {
      assert a + b == b;
    } else {
      assert (a + b)[0] == a[0];
      assert (a + b)[1..] == a[1..] + b;
      ClosesAppend(a[1..], b);
    }
  }

  /** The three filters distribute over concatenation. */
  lemma FiltersAppend(a: seq<Event>, b: seq<Event>)
    ensures Reads(a + b) == Reads(a) + Reads(b)
    ensures Dumps(a + b) == Dumps(a) + Dumps(b)
    ensures Closes(a + b) == Closes(a) + Closes(b)
  {
    ReadsAppend(a, b);
    DumpsAppend(a, b);
    ClosesAppend(a, b);
  }

  /** The filters of single calls. */
  lemma FiltersOfOne(e: Event)
    ensures Reads([e]) == if e.Read? then [e.index] else []
    ensures Dumps([e]) == if e.Dump? then [e.index] else []
    ensures Closes([e]) == if e.Close? then [e.kind] else []
  {
    assert [e][1..] == [];
  }

  /** One step reads i, dumps i unless timing, and closes nothing. */
  lemma StepFilters(kind: Kind, timing: bool, i: int)
    ensures Reads(Step(kind, timing, i)) == [i]
    ensures Dumps(Step(kind, timing, i)) == if timing then [] else [i]
    ensures Closes(Step(kind, timing, i)) == []
    ensures forall e :: e in Step(kind, timing, i) ==> (e.Read? || e.Dump?) && e.kind == kind
  {
    FiltersOfOne(Read(kind, i));
    FiltersOfOne(Dump(kind, i));
    FiltersAppend([Read(kind, i)], if timing then [] else [Dump(kind, i)]);
  }

  /** One past the last index the loop reads from i on. */
  function ReadStop(readFails: set<int>, i: int, end: int): int {
    match FirstFail(readFails, i, end)
    case None => end
    case Some(k) => k + 1
  }

  /** One past the last index the loop dumps from i on, when not timing. */
  function DumpStop(readFails: set<int>, i: int, end: int): int {
    match FirstFail(readFails, i, end)
    case None => end
    case Some(k) => k
  }

  /**
   * From index i the loop reads every index up to and including the first
   * failing one, or up to end when none fails.
   */
  lemma {:induction false} StepsReads(kind: Kind, timing: bool, readFails: set<int>, i: int, end: int)
    ensures Reads(Steps(kind, timing, readFails, i, end)) == Span(i, ReadStop(readFails, i, end))
    decreases end - i
  {
    if end <= i {
    } else if i in readFails {
      FiltersOfOne(Read(kind, i));
    } else {
      StepsReads(kind, timing, readFails, i + 1, end);
      StepFilters(kind, timing, i);
      ReadsAppend(Step(kind, timing, i), Steps(kind, timing, readFails, i + 1, end));
    }
  }

  /**
   * The loop dumps every index it read successfully, in order, unless
   * timing, when it dumps nothing; the failing index is never dumped.
   */
  lemma {:induction false} StepsDumps(kind: Kind, timing: bool, readFails: set<int>, i: int, end: int)
    ensures Dumps(Steps(kind, timing, readFails, i, end)) == if timing then [] else Span(i, DumpStop(readFails, i, end))
    decreases end - i
  {
    if end <= i {
    } else if i in readFails {
      FiltersOfOne(Read(kind, i));
    } else {
      StepsDumps(kind, timing, readFails, i + 1, end);
      StepFilters(kind, timing, i);
      DumpsAppend(Step(kind, timing, i), Steps(kind, timing, readFails, i + 1, end));
    }
  }

  /** The loop only reads and dumps the opened kind; it never closes the file. */
  lemma {:induction false} StepsShape(kind: Kind, timing: bool, readFails: set<int>, i: int, end: int)
    ensures Closes(Steps(kind, timing, readFails, i, end)) == []
    ensures forall e :: e in Steps(kind, timing, readFails, i, end) ==> (e.Read? || e.Dump?) && e.kind == kind
    decreases end - i
  {
    if end <= i {
    } else if i in readFails {
      FiltersOfOne(Read(kind, i));
    } else {
      StepsShape(kind, timing, readFails, i + 1, end);
      StepFilters(kind, timing, i);
      ClosesAppend(Step(kind, timing, i), Steps(kind, timing, readFails, i + 1, end));
    }
  }

  /**
   * A run whose loop meets no read failure: opened, every index of the
   * range read in order, dumped unless timing, then closed with the
   * opened kind's close call, exactly once.
   */
  lemma CompletedTrace(kind: Kind, timing: bool, readFails: set<int>, start: int, end: int)
    requires FirstFail(readFails, start, end).None?
    ensures var t := [Open(kind)] + Steps(kind, timing, readFails, start, end) + [Close(kind)];
      Reads(t) == Span(start, end) && Dumps(t) == (if timing then [] else Span(start, end))
      && Closes(t) == [kind] && t[0] == Open(kind) && t[|t| - 1] == Close(kind)
      && forall e :: e in t ==> e.kind == kind
  {
    var steps := Steps(kind, timing, readFails, start, end);
    StepsReads(kind, timing, readFails, start, end);
    StepsDumps(kind, timing, readFails, start, end);
    StepsShape(kind, timing, readFails, start, end);
    FiltersAppend([Open(kind)], steps);
    FiltersAppend([Open(kind)] + steps, [Close(kind)]);
  }

  /**
   * A run whose loop meets its first read failure at k: every index before
   * k read and dumped unless timing, k read but not dumped, and no close.
   */
  lemma AbortedTrace(kind: Kind, timing: bool, readFails: set<int>, start: int, end: int, k: int)
    requires FirstFail(readFails, start, end) == Some(k)
    ensures var t := [Open(kind)] + Steps(kind, timing, readFails, start, end);
      Reads(t) == Span(start, k + 1) && Dumps(t) == (if timing then [] else Span(start, k))
      && Closes(t) == [] && t[|t| - 1] == Read(kind, k)
  {
    var steps := Steps(kind, timing, readFails, start, end);
    StepsReads(kind, timing, readFails, start, end);
    StepsDumps(kind, timing, readFails, start, end);
    StepsShape(kind, timing, readFails, start, end);
    FiltersAppend([Open(kind)], steps);
    LastReadFails(kind, timing, readFails, start, end);
  }

  /** When some read fails, the loop's last call is the failing read. */
  lemma {:induction false} LastReadFails(kind: Kind, timing: bool, readFails: set<int>, i: int, end: int)
    requires FirstFail(readFails, i, end).Some?
    ensures var s := Steps(kind, timing, readFails, i, end);
      s != [] && s[|s| - 1] == Read(kind, FirstFail(readFails, i, end).value)
    decreases end - i
  {
    if i !in readFails {
      LastReadFails(kind, timing, readFails, i + 1, end);
    }
  }

  /**
   * The loop itself: visits start, start + 1, ... in order and stops at
   * the first read failure, which it returns.
   */
  method Traverse(kind: Kind, timing: bool, readFails: set<int>, start: int, end: int)
    returns (failedAt: Option<int>, trace: seq<Event>)
    ensures failedAt == FirstFail(readFails, start, end)
    ensures trace == Steps(kind, timing, readFails, start, end)
  {
    trace := [];
    var i := start;
    while i < end
      invariant start <= i && (i <= end || i == start)
      invariant trace + Steps(kind, timing, readFails, i, end) == Steps(kind, timing, readFails, start, end)
      invariant FirstFail(readFails, i, end) == FirstFail(readFails, start, end)
      decreases end - i
    {
      if i in readFails {
        trace := trace + [Read(kind, i)];
        return Some(i), trace;
      }
      trace := trace + Step(kind, timing, i);
      i := i + 1;
    }
    assert trace + [] == trace;
    failedAt := None;
  }
}
