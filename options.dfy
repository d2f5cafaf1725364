/**
 * The option loop of czmil_list (main.c:81-102).
 *
 * `getopt` with the option string "n:t" and the `sscanf("%d")` of the `-n`
 * argument are abstracted away: the loop sees a sequence of already
 * tokenised options.
 */
module Options {
  import opened CInt
  import opened Wrappers

  /** One option as `getopt` delivers it. */
  datatype OptToken =
    | RecordNumber(parsed: Option<int32>)  // `-n ARG`; None when `sscanf` matched no integer in ARG
    | Timing                               // `-t`
    | Unknown                              // any other option, or `-n` with no argument

  /** The two variables the option loop writes. */
  datatype Settings = Settings(recNum: int32, timing: bool)

  /** The value `rec_num` starts with: "no record selected". */
  const UNSET: int32 := -1

  /** True of a token that assigns `rec_num`. */
  predicate SetsRecNum(t: OptToken) {
    t.RecordNumber? && t.parsed.Some?
  }

  /**
   * Reference definition of the final `rec_num`: the value of the LAST `-n`
   * whose argument parsed, read from the back of the token list, or UNSET.
   */
  function LastRecNum(opts: seq<OptToken>): (r: int32)
    ensures r == UNSET || exists k :: 0 <= k < |opts| && SetsRecNum(opts[k]) && opts[k].parsed.value == r
  {
    if opts == [] then UNSET
    else if SetsRecNum(opts[|opts| - 1]) then opts[|opts| - 1].parsed.value
    else
      var r := LastRecNum(opts[..|opts| - 1]);
      assert forall k :: 0 <= k < |opts| - 1 ==> opts[..|opts| - 1][k] == opts[k];
      r
  }

  /** With no `-n` whose argument parsed, `rec_num` keeps its initial value. */
  lemma {:induction false} NoRecordNumberKeepsUnset(opts: seq<OptToken>)
    requires forall k :: 0 <= k < |opts| ==> !SetsRecNum(opts[k])
    ensures LastRecNum(opts) == UNSET
  {
    if opts != [] {
      NoRecordNumberKeepsUnset(opts[..|opts| - 1]);
    }
  }

  /** A repeated `-n` keeps the value of the last one that parsed. */
  lemma {:induction false} LastRecordNumberWins(opts: seq<OptToken>, k: nat)
    requires k < |opts| && SetsRecNum(opts[k])
    requires forall j :: k < j < |opts| ==> !SetsRecNum(opts[j])
    ensures LastRecNum(opts) == opts[k].parsed.value
  {
    if k < |opts| - 1 {
      LastRecordNumberWins(opts[..|opts| - 1], k);
    }
  }

  /**
   * The option loop. An unrecognised option stops it with a usage error
   * (None); otherwise `-n` overwrites `rec_num` and `-t` sets `timing`.
   */
  method ParseOptions(opts: seq<OptToken>) returns (r: Option<Settings>)
    ensures r.None? <==> Unknown in opts
    ensures r.Some? ==> r.value.recNum == LastRecNum(opts)
    ensures r.Some? ==> (r.value.timing <==> Timing in opts)
  {
    var recNum: int32 := UNSET;
    var timing := false;
    var i := 0;
    while i < |opts|
      invariant 0 <= i <= |opts|
      invariant Unknown !in opts[..i]
      invariant recNum == LastRecNum(opts[..i])
      invariant timing <==> Timing in opts[..i]
    {
      assert opts[..i + 1] == opts[..i] + [opts[i]];
      assert opts[..i + 1][..i] == opts[..i];
      match opts[i] {
        case RecordNumber(parsed) =>
          if parsed.Some? {
            recNum := parsed.value;
          }
        case Timing =>
          timing := true;
        case Unknown =>
          return None;
      }
      i := i + 1;
    }
    assert opts[..i] == opts;
    r := Some(Settings(recNum, timing));
  }
}
