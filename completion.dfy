/**
 * The completion engine the prompt drives (`ShellPathAutocomplete`), seen only
 * through the operations the prompt calls on it: an input path, the current
 * candidates, an optional selected candidate and an optional common prefix.
 * How candidates and the common prefix are computed from the input path is
 * the engine's business; here it is the function `complete` passed to Refresh.
 */
module Completion {
  import opened Wrappers

  /** One proposed path: its display name, the path it stands for, and whether it is a directory. */
  datatype Candidate = Candidate(name: string, path: string, isDirectory: bool)

  /** What the engine finds for an input path: the candidates and, when they share one, their common path. */
  datatype Listing = Listing(candidates: seq<Candidate>, common: Option<string>)

  datatype Engine = Engine(inputPath: string, candidates: seq<Candidate>, selected: Option<nat>, common: Option<string>)
  {
    /** A selection always designates one of the current candidates. */
    predicate Valid()
    {
      selected.Some? ==> selected.value < |candidates|
    }

    predicate HasSelectedPath()
    {
      selected.Some?
    }

    predicate HasCommonPotentialPath()
    {
      common.Some?
    }

    function SelectedPath(): (c: Candidate)
      requires Valid() && HasSelectedPath()
      ensures c in candidates
    {
      candidates[selected.value]
    }

    /** `setInputPath`: a new input path drops the selection; the candidates wait for the next refresh. */
    function SetInputPath(p: string): (e: Engine)
      ensures e.Valid() && e.inputPath == p && !e.HasSelectedPath()
      ensures e.candidates == candidates && e.common == common
    {
      Engine(p, candidates, None, common)
    }

    /** `refresh`: candidates and common path are recomputed from the input path; a selection that is still in range is kept. */
    function Refresh(complete: string -> Listing): (e: Engine)
      ensures e.Valid() && e.inputPath == inputPath
      ensures e.candidates == complete(inputPath).candidates && e.common == complete(inputPath).common
      ensures e.selected == (if selected.Some? && selected.value < |e.candidates| then selected else None)
    {
      var found := complete(inputPath);
      var keep := selected.Some? && selected.value < |found.candidates|;
      Engine(inputPath, found.candidates, if keep then selected else None, found.common)
    }

    /**
     * `selectNextPotentialPath(forward)`: moves the selection one candidate on
     * (or back), wrapping around; with no selection yet it lands on the first
     * (or last) candidate.
     */
    function SelectNext(forward: bool): (e: Engine)
      requires Valid()
      ensures e.Valid() && e.inputPath == inputPath && e.candidates == candidates && e.common == common
      ensures e.HasSelectedPath() <==> |candidates| > 0
      ensures e.selected == NextIndex(selected, |candidates|, forward)
    {
      this.(selected := NextIndex(selected, |candidates|, forward))
    }

    /** `resetSelectPotentialPath`: drops the selection and nothing else. */
    function ResetSelect(): (e: Engine)
      ensures e.Valid() && !e.HasSelectedPath()
      ensures e.inputPath == inputPath && e.candidates == candidates && e.common == common
    {
      this.(selected := None)
    }
  }

  function NextIndex(selected: Option<nat>, n: nat, forward: bool): (r: Option<nat>)
    requires selected.Some? ==> selected.value < n
    ensures r.Some? <==> n > 0
    ensures r.Some? ==> r.value < n
  {
    if n == 0 then None
    else match selected
      case None => Some(if forward then 0 else n - 1)
      case Some(i) => Some(if forward then (i + 1) % n else (i - 1) % n)
  }

  /** The engine after `k` presses of the cycling key in one direction. */
  function Cycled(e: Engine, forward: bool, k: nat): (c: Engine)
    requires e.Valid()
    ensures c.Valid() && c.inputPath == e.inputPath && c.candidates == e.candidates && c.common == e.common
  {
    if k == 0 then e else Cycled(e, forward, k - 1).SelectNext(forward)
  }

  lemma MulAtLeast(x: int, n: int)
    requires x >= 1 && n > 0
    ensures x * n >= n
  {
  }

  /** The remainder is the one `r` in `[0, n)` with `a == q * n + r`. */
  lemma ModUnique(a: int, n: int, q: int, r: int)
    requires n > 0 && 0 <= r < n && a == q * n + r
    ensures a % n == r
  {
    var q0, r0 := a / n, a % n;
    assert (q - q0) * n == r0 - r;
    if q > q0 {
      MulAtLeast(q - q0, n);
    } else if q < q0 {
      MulAtLeast(q0 - q, n);
    }
  }

  lemma StepMod(a: int, n: int, forward: bool)
    requires n > 0
    ensures forward ==> (a % n + 1) % n == (a + 1) % n
    ensures !forward ==> (a % n - 1) % n == (a - 1) % n
  {
    var q, r := a / n, a % n;
    if forward {
      if r + 1 < n {
        ModUnique(r + 1, n, 0, r + 1);
        ModUnique(a + 1, n, q, r + 1);
      } else {
        ModUnique(r + 1, n, 1, 0);
        ModUnique(a + 1, n, q + 1, 0);
      }
    } else {
      if r >= 1 {
        ModUnique(r - 1, n, 0, r - 1);
        ModUnique(a - 1, n, q, r - 1);
      } else {
        ModUnique(r - 1, n, -1, n - 1);
        ModUnique(a - 1, n, q - 1, n - 1);
      }
    }
  }

  /** Starting from candidate `i`, `k` presses land on candidate `i + k` (or `i - k`) modulo the number of candidates. */
  lemma {:induction false} CycledIndex(e: Engine, forward: bool, k: nat)
    requires e.Valid() && e.HasSelectedPath()
    ensures var n := |e.candidates|;
            var i := e.selected.value;
            Cycled(e, forward, k).selected == Some(if forward then (i + k) % n else (i - k) % n)
  {
    var n := |e.candidates|;
    var i := e.selected.value;
    if k == 0 {
      ModUnique(i, n, 0, i);
    } else {
      CycledIndex(e, forward, k - 1);
      if forward {
        StepMod(i + (k - 1), n, true);
      } else {
        StepMod(i - (k - 1), n, false);
      }
    }
  }

  /**
   * The refresh that each Tab press runs before cycling finds the same
   * candidates again (the input path has not moved), so it leaves a cycled
   * engine as it is.
   */
  lemma RefreshAfterCycle(e: Engine, complete: string -> Listing, forward: bool, k: nat)
    ensures var r := e.Refresh(complete);
            Cycled(r, forward, k).Refresh(complete) == Cycled(r, forward, k)
  {
  }

  /** As many presses as there are candidates bring the selection back to where it started. */
  lemma CycleReturns(e: Engine, forward: bool)
    requires e.Valid() && e.HasSelectedPath()
    ensures Cycled(e, forward, |e.candidates|) == e
  {
    var n := |e.candidates|;
    var i := e.selected.value;
    CycledIndex(e, forward, n);
    ModUnique(i + n, n, 1, i);
    ModUnique(i - n, n, -1, i);
  }

  /** Forward cycling reaches every candidate within fewer presses than there are candidates. */
  lemma CycleVisitsAll(e: Engine, j: nat)
    requires e.Valid() && e.HasSelectedPath() && j < |e.candidates|
    ensures var k := (j - e.selected.value) % |e.candidates|;
            k < |e.candidates| && Cycled(e, true, k).selected == Some(j)
  {
    var n := |e.candidates|;
    var i := e.selected.value;
    var k := (j - i) % n;
    CycledIndex(e, true, k);
    var q := (j - i) / n;
    assert j - i == q * n + k;
    assert (-q) * n == -(q * n);
    assert i + k == (-q) * n + j;
    ModUnique(i + k, n, -q, j);
  }
}
