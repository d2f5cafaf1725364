/**
 * File-kind dispatch (main.c:108-128): the kind of the file is chosen by
 * looking for ".cwf" and then ".cpf" ANYWHERE in the path, as `strstr` does.
 */
module Dispatch {
  import opened Wrappers

  /** The two CZMIL record files: point (.cpf) and waveform (.cwf). */
  datatype Kind = Point | Waveform

  const CWF: string := ".cwf"
  const CPF: string := ".cpf"

  /** `strstr(s, pat) != NULL`: try every start position from the left. */
  predicate Contains(s: string, pat: string)
    decreases |s|
  {
    pat <= s || (s != [] && Contains(s[1..], pat))
  }

  /** `pat` occurs in `s` starting at index `i`. */
  predicate OccursAt(s: string, pat: string, i: int) {
    0 <= i && i + |pat| <= |s| && s[i..i + |pat|] == pat
  }

  /** Reference notion of a substring: some position where `pat` occurs. */
  ghost predicate HasSubstring(s: string, pat: string) {
    exists i :: OccursAt(s, pat, i)
  }

  /** The left-to-right scan finds `pat` exactly when it occurs somewhere. */
  lemma {:induction false} ContainsIff(s: string, pat: string)
    ensures Contains(s, pat) <==> HasSubstring(s, pat)
    decreases |s|
  {
    if pat <= s {
      assert OccursAt(s, pat, 0);
    }
    if s != [] {
      ContainsIff(s[1..], pat);
      if HasSubstring(s[1..], pat) {
        var i :| OccursAt(s[1..], pat, i);
        assert s[i + 1..i + 1 + |pat|] == s[1..][i..i + |pat|];
        assert OccursAt(s, pat, i + 1);
      }
      if HasSubstring(s, pat) && !(pat <= s) {
        var i :| OccursAt(s, pat, i);
        assert i != 0;
        assert s[1..][i - 1..i - 1 + |pat|] == s[i..i + |pat|];
        assert OccursAt(s[1..], pat, i - 1);
      }
    } else if HasSubstring(s, pat) {
      var i :| OccursAt(s, pat, i);
      assert pat == [];
    }
  }

  /** The kind a path selects, or None when the path names neither kind (a usage error). */
  function Classify(path: string): Option<Kind> {
    if Contains(path, CWF) then Some(Waveform)
    else if Contains(path, CPF) then Some(Point)
    else None
  }

  /**
   * ".cwf" anywhere wins, even if ".cpf" also occurs; otherwise ".cpf"
   * anywhere selects Point; anything else is rejected.
   */
  lemma ClassifySpec(path: string)
    ensures Classify(path) == Some(Waveform) <==> HasSubstring(path, CWF)
    ensures Classify(path) == Some(Point) <==> !HasSubstring(path, CWF) && HasSubstring(path, CPF)
    ensures Classify(path) == None <==> !HasSubstring(path, CWF) && !HasSubstring(path, CPF)
  {
    ContainsIff(path, CWF);
    ContainsIff(path, CPF);
  }

  /** The test is not suffix based: ".cwf" in the middle of a path selects Waveform. */
  lemma WaveformAnywhere(before: string, after: string)
    ensures Classify(before + CWF + after) == Some(Waveform)
  {
    var path := before + CWF + after;
    assert OccursAt(path, CWF, |before|);
    ClassifySpec(path);
  }

  /** ".cpf" anywhere selects Point when ".cwf" occurs nowhere, whatever follows it. */
  lemma PointAnywhere(before: string, after: string)
    requires !HasSubstring(before + CPF + after, CWF)
    ensures Classify(before + CPF + after) == Some(Point)
  {
    var path := before + CPF + after;
    assert OccursAt(path, CPF, |before|);
    ClassifySpec(path);
  }

  /** The scan skips over a prefix that cannot start the pattern. */
  lemma {:induction false} SkipPrefix(stem: string, tail: string, pat: string)
    requires pat != [] && pat[0] !in stem
    ensures Contains(stem + tail, pat) == Contains(tail, pat)
  {
    if stem == [] {
      assert stem + tail == tail;
    } else {
      assert (stem + tail)[0] == stem[0] != pat[0];
      assert (stem + tail)[1..] == stem[1..] + tail;
      SkipPrefix(stem[1..], tail, pat);
    }
  }

  /** For a file name stem without dots, the suffix decides the kind. */
  lemma PlainStem(stem: string)
    requires '.' !in stem
    ensures Classify(stem + CPF) == Some(Point)
    ensures Classify(stem + CWF) == Some(Waveform)
  {
    WaveformAnywhere(stem, "");
    assert stem + CWF + "" == stem + CWF;
    SkipPrefix(stem, CPF, CWF);
    SkipPrefix(stem, CPF, CPF);
    assert CPF <= CPF;
    assert !Contains(CPF[4..], CWF);
    assert !Contains(CPF[3..], CWF);
    assert !Contains(CPF[2..], CWF);
    assert !Contains(CPF[1..], CWF);
    assert CWF[2] != CPF[2];
    assert !Contains(CPF, CWF);
  }
}
