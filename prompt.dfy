/**
 * The path prompt: a controller that turns key presses, line submissions and
 * SIGINT into updates of its own state, of the readline line buffer and cursor,
 * and of the completion engine it owns.
 */
module Prompt {
  import opened Wrappers
  import opened Window
  import opened Listeners
  import opened Completion

  const TAB_KEY := "tab"
  const ENTER_KEY := "return"
  /** Number of candidates shown beneath the prompt. */
  const RANGE_SIZE := 5

  /** A keypress as readline reports it; a missing name is any string other than the two above. */
  datatype Key = Key(name: string, ctrl: bool, shift: bool)

  /** What a validator answers: `true`, or anything else, which is shown as the error. */
  datatype Verdict = Accepted | Rejected(message: string)

  /**
   * JavaScript's `length` of a string: its number of UTF-16 code units, two for
   * a character outside the Basic Multilingual Plane and one for any other.
   */
  function Utf16Length(s: string): (n: nat)
    ensures |s| <= n <= 2 * |s|
    ensures (forall i | 0 <= i < |s| :: s[i] as int <= 0xFFFF) ==> n == |s|
  {
    if s == [] then 0
    else Utf16Length(s[..|s| - 1]) + (if s[|s| - 1] as int > 0xFFFF then 2 else 1)
  }

  /** `null` or the filtered path in single mode; the filtered paths in entry order in multi mode. */
  datatype Answer = Single(value: Option<string>) | Multi(values: seq<string>)

  class PathPrompt {
    const multi: bool
    /** The SIGINT listeners found on the readline interface when the prompt was created. */
    const originalSigint: seq<Listener>

    var cancelCount: nat
    var selectionActive: bool
    var answer: Answer
    /** `rl.line` and `rl.cursor`. */
    var line: string
    var cursor: int
    var shell: Engine
    /** The listener lists of the readline interface. */
    var registry: Registry
    /** The value handed to the host's completion callback, once it has been called. */
    var delivered: Option<Answer>

    ghost predicate Valid()
      reads this
    {
      && shell.Valid()
      && (multi <==> answer.Multi?)
      && CancelHandler !in originalSigint
    }

    /**
     * Creating the prompt records and removes every SIGINT listener; the answer
     * starts as an empty list in multi mode and as `null` otherwise.
     */
    constructor (multi: bool, cwd: string, rl: Registry, line: string, cursor: int)
      requires CancelHandler !in rl.sigint && SubmitHandler !in rl.line && KeyPressHandler !in rl.keypress
      ensures Valid()
      ensures this.multi == multi && originalSigint == rl.sigint
      ensures registry == rl.(sigint := [])
      ensures cancelCount == 0 && !selectionActive && delivered == None
      ensures answer == if multi then Multi([]) else Single(None)
      ensures shell == Engine(cwd, [], None, None)
      ensures this.line == line && this.cursor == cursor
    {
      this.multi := multi;
      originalSigint := rl.sigint;
      cancelCount := 0;
      answer := if multi then Multi([]) else Single(None);
      shell := Engine(cwd, [], None, None);
      selectionActive := false;
      registry := rl.(sigint := []);
      delivered := None;
      this.line := line;
      this.cursor := cursor;
    }

    /** `_run`: the prompt's handlers for `line`, SIGINT and `keypress` are registered. */
    method Run()
      requires Valid()
      modifies this
      ensures Valid()
      ensures registry == Attach(old(registry))
      ensures cancelCount == old(cancelCount) && selectionActive == old(selectionActive)
      ensures answer == old(answer) && shell == old(shell) && line == old(line) && cursor == old(cursor)
      ensures delivered == old(delivered)
    {
      registry := Attach(registry);
    }

    /** `resetCursor`: the cursor goes one past the end of the input path, counted in UTF-16 code units. */
    method ResetCursor()
      modifies this`cursor
      ensures cursor == Utf16Length(shell.inputPath) + 1
    {
      cursor := Utf16Length(shell.inputPath) + 1;
    }

    /**
     * `onKeyPress`. A Ctrl key changes nothing. Any other key clears `cancelCount`;
     * Tab completes the common path, opens the candidate list or moves the
     * selection; Enter accepts the selected candidate (and does nothing more
     * when there is none); any other key hands the typed line to the engine.
     */
    method OnKeyPress(key: Key, complete: string -> Listing)
      requires Valid()
      modifies this
      ensures Valid()
      ensures answer == old(answer) && registry == old(registry) && delivered == old(delivered)
      ensures key.ctrl ==>
        && cancelCount == old(cancelCount) && selectionActive == old(selectionActive)
        && shell == old(shell) && line == old(line) && cursor == old(cursor)
      ensures !key.ctrl ==> cancelCount == 0
      ensures !key.ctrl && key.name == TAB_KEY ==>
        var refreshed := old(shell).Refresh(complete);
        && (refreshed.HasCommonPotentialPath() ==>
              shell == refreshed.SetInputPath(refreshed.common.value) && !selectionActive)
        && (!refreshed.HasCommonPotentialPath() && !old(selectionActive) ==>
              shell == refreshed && selectionActive)
        && (!refreshed.HasCommonPotentialPath() && old(selectionActive) ==>
              shell == refreshed.SelectNext(!key.shift) && selectionActive)
        && cursor == Utf16Length(shell.inputPath) + 1
      ensures !key.ctrl && key.name == ENTER_KEY && old(shell).HasSelectedPath() ==>
        && shell == old(shell).SetInputPath(old(shell).SelectedPath().path)
        && !selectionActive && cursor == Utf16Length(shell.inputPath) + 1
      ensures !key.ctrl && key.name == ENTER_KEY && !old(shell).HasSelectedPath() ==>
        && shell == old(shell) && selectionActive == old(selectionActive)
        && line == old(line) && cursor == old(cursor)
      ensures !key.ctrl && key.name != TAB_KEY && key.name != ENTER_KEY ==>
        && shell == old(shell).SetInputPath(old(line))
        && !selectionActive && cursor == old(cursor)
      ensures !key.ctrl && !(key.name == ENTER_KEY && !old(shell).HasSelectedPath()) ==>
        line == shell.inputPath
    {
      if key.ctrl {
        return;
      }
      cancelCount := 0;
      if key.name == TAB_KEY {
        shell := shell.Refresh(complete);
        if shell.HasCommonPotentialPath() {
          selectionActive := false;
          shell := shell.SetInputPath(shell.common.value);
        } else if !selectionActive {
          selectionActive := true;
        } else {
          shell := shell.SelectNext(!key.shift);
        }
        ResetCursor();
      } else if key.name == ENTER_KEY {
        if !shell.HasSelectedPath() {
          return;
        }
        shell := shell.SetInputPath(shell.SelectedPath().path);
        selectionActive := false;
        ResetCursor();
      } else {
        selectionActive := false;
        shell := shell.SetInputPath(line);
      }
      line := shell.inputPath;
    }

    /** `onError`: the line is put back to the input path and the cursor to its end; nothing else changes. */
    method OnError(error: string)
      modifies this
      ensures line == shell.inputPath && cursor == Utf16Length(shell.inputPath) + 1
      ensures shell == old(shell) && selectionActive == old(selectionActive) && cancelCount == old(cancelCount)
      ensures answer == old(answer) && registry == old(registry) && delivered == old(delivered)
    {
      line := shell.inputPath;
      ResetCursor();
    }

    /** `cleanup`: the recorded SIGINT listeners come back and the prompt's own handlers go. */
    method Cleanup()
      modifies this
      ensures registry == Detach(old(registry), originalSigint)
      ensures cancelCount == old(cancelCount) && selectionActive == old(selectionActive)
      ensures answer == old(answer) && shell == old(shell) && line == old(line) && cursor == old(cursor)
      ensures delivered == old(delivered)
    {
      registry := Detach(registry, originalSigint);
    }

    /** `onFinish`: cleans up and hands the answer to the host. */
    method OnFinish()
      modifies this
      ensures registry == Detach(old(registry), originalSigint)
      ensures delivered == Some(answer)
      ensures cancelCount == old(cancelCount) && selectionActive == old(selectionActive)
      ensures answer == old(answer) && shell == old(shell) && line == old(line) && cursor == old(cursor)
    {
      Cleanup();
      delivered := Some(answer);
    }

    /**
     * `onSuccess`: in multi mode the filtered path is appended to the answer and
     * the engine and selection start afresh for the next entry; in single mode it
     * becomes the answer and the prompt finishes.
     */
    method OnSuccess(value: string, filter: string -> string)
      requires Valid()
      modifies this
      ensures Valid()
      ensures cancelCount == old(cancelCount) && line == old(line) && cursor == old(cursor)
      ensures multi ==>
        && answer == Multi(old(answer).values + [filter(value)])
        && shell == old(shell).SetInputPath("").ResetSelect() && !selectionActive
        && registry == old(registry) && delivered == old(delivered)
      ensures !multi ==>
        && answer == Single(Some(filter(value))) && delivered == Some(answer)
        && registry == Detach(old(registry), originalSigint)
        && shell == old(shell) && selectionActive == old(selectionActive)
    {
      var filtered := filter(value);
      if multi {
        shell := shell.SetInputPath("");
        shell := shell.ResetSelect();
        selectionActive := false;
        answer := Multi(answer.values + [filtered]);
      } else {
        answer := Single(Some(filtered));
        OnFinish();
      }
    }

    /**
     * `onSubmit`: ignored while a candidate is selected. Otherwise `cancelCount`
     * is cleared and the resolved input path is validated: a rejection keeps the
     * input path and puts the line back to it, an acceptance goes to OnSuccess.
     */
    method OnSubmit(resolve: string -> string, validate: string -> Verdict, filter: string -> string)
      requires Valid()
      modifies this
      ensures Valid()
      ensures old(shell).HasSelectedPath() ==>
        && cancelCount == old(cancelCount) && selectionActive == old(selectionActive)
        && answer == old(answer) && shell == old(shell) && line == old(line) && cursor == old(cursor)
        && registry == old(registry) && delivered == old(delivered)
      ensures !old(shell).HasSelectedPath() ==> cancelCount == 0
      ensures !old(shell).HasSelectedPath() && validate(resolve(old(shell).inputPath)).Rejected? ==>
        && shell == old(shell) && line == old(shell).inputPath && cursor == Utf16Length(line) + 1
        && selectionActive == old(selectionActive) && answer == old(answer)
        && registry == old(registry) && delivered == old(delivered)
      ensures !old(shell).HasSelectedPath() && validate(resolve(old(shell).inputPath)).Accepted? && multi ==>
        && answer == Multi(old(answer).values + [filter(resolve(old(shell).inputPath))])
        && shell == old(shell).SetInputPath("").ResetSelect() && !selectionActive
        && line == old(line) && cursor == old(cursor)
        && registry == old(registry) && delivered == old(delivered)
      ensures !old(shell).HasSelectedPath() && validate(resolve(old(shell).inputPath)).Accepted? && !multi ==>
        && answer == Single(Some(filter(resolve(old(shell).inputPath))))
        && delivered == Some(answer)
        && registry == Detach(old(registry), originalSigint)
        && shell == old(shell) && selectionActive == old(selectionActive)
        && line == old(line) && cursor == old(cursor)
    {
      if shell.HasSelectedPath() {
        return;
      }
      cancelCount := 0;
      var input := resolve(shell.inputPath);
      var isValid := validate(input);
      if isValid.Accepted? {
        OnSuccess(input, filter);
      } else {
        OnError(isValid.message);
      }
    }

    /**
     * `onCancel` (SIGINT), three cases in order: a selected candidate is
     * deselected; else, in multi mode before a failed attempt, the collected
     * answer is validated and either finishes the prompt or bumps `cancelCount`;
     * else the prompt cleans up and the signal goes to the recorded listeners,
     * which are returned.
     */
    method OnCancel(validateMulti: seq<string> -> Verdict) returns (forwarded: seq<Listener>)
      requires Valid()
      modifies this
      ensures Valid()
      ensures answer == old(answer)
      ensures old(shell).HasSelectedPath() ==>
        && forwarded == [] && !selectionActive && shell == old(shell).ResetSelect()
        && cancelCount == old(cancelCount) && line == old(line) && cursor == old(cursor)
        && registry == old(registry) && delivered == old(delivered)
      ensures !old(shell).HasSelectedPath() && multi && old(cancelCount) < 1 ==>
        && forwarded == [] && shell == old(shell) && selectionActive == old(selectionActive)
        && (validateMulti(old(answer).values).Accepted? ==>
              && delivered == Some(answer) && registry == Detach(old(registry), originalSigint)
              && cancelCount == old(cancelCount) && line == old(line) && cursor == old(cursor))
        && (validateMulti(old(answer).values).Rejected? ==>
              && cancelCount == old(cancelCount) + 1 && line == shell.inputPath && cursor == Utf16Length(line) + 1
              && registry == old(registry) && delivered == old(delivered))
      ensures !old(shell).HasSelectedPath() && !(multi && old(cancelCount) < 1) ==>
        && forwarded == originalSigint && registry == Detach(old(registry), originalSigint)
        && shell == old(shell) && selectionActive == old(selectionActive) && cancelCount == old(cancelCount)
        && line == old(line) && cursor == old(cursor) && delivered == old(delivered)
    {
      forwarded := [];
      if shell.HasSelectedPath() {
        selectionActive := false;
        shell := shell.ResetSelect();
      } else if multi && cancelCount < 1 {
        var isValid := validateMulti(answer.values);
        if isValid.Accepted? {
          OnFinish();
        } else {
          cancelCount := cancelCount + 1;
          OnError(isValid.message);
        }
      } else {
        Cleanup();
        forwarded := originalSigint;
      }
    }

    /**
     * `renderBottom`'s window: nothing unless the candidate list is open; then
     * `RANGE_SIZE` candidates (or all of them, if fewer) around the selected one,
     * which is among them.
     */
    function Bottom(): (w: seq<Candidate>)
      requires Valid()
      reads this
      ensures !selectionActive ==> w == []
      ensures selectionActive ==> |w| == Min(RANGE_SIZE, |shell.candidates|)
      ensures selectionActive && shell.HasSelectedPath() ==> shell.SelectedPath() in w
    {
      if !selectionActive then []
      else
        var index := if shell.HasSelectedPath() then shell.selected.value else -1;
        Slice(shell.candidates, index, RANGE_SIZE)
    }
  }

  /**
   * Two interrupts in multi mode with nothing selected and a collected answer
   * the end-of-list validator keeps rejecting: the first is consumed and counted,
   * the second cleans up and is passed on to the recorded SIGINT listeners.
   */
  method SecondInterruptAborts(p: PathPrompt, validateMulti: seq<string> -> Verdict)
    returns (first: seq<Listener>, second: seq<Listener>)
    requires p.Valid() && p.multi && !p.shell.HasSelectedPath() && p.cancelCount == 0
    requires validateMulti(p.answer.values).Rejected?
    modifies p
    ensures first == [] && second == p.originalSigint
    ensures p.cancelCount == 1 && p.answer == old(p.answer) && p.delivered == old(p.delivered)
    ensures p.registry == Detach(old(p.registry), p.originalSigint)
  {
    first := p.OnCancel(validateMulti);
    second := p.OnCancel(validateMulti);
  }

  /**
   * `k` Tab presses with the candidate list open and no common path: the
   * first refreshes the engine, and every press moves the selection one step
   * (backward with Shift), so the engine is the refreshed one cycled `k` times.
   */
  method TabPresses(p: PathPrompt, complete: string -> Listing, shift: bool, k: nat)
    requires p.Valid() && p.selectionActive && complete(p.shell.inputPath).common.None?
    modifies p
    ensures p.Valid() && p.selectionActive && p.cancelCount == (if k == 0 then old(p.cancelCount) else 0)
    ensures p.shell == (if k == 0 then old(p.shell) else Cycled(old(p.shell).Refresh(complete), !shift, k))
    ensures p.answer == old(p.answer) && p.registry == old(p.registry) && p.delivered == old(p.delivered)
  {
    ghost var refreshed := p.shell.Refresh(complete);
    var i := 0;
    while i < k
      invariant 0 <= i <= k
      invariant p.Valid() && p.selectionActive
      invariant p.cancelCount == (if i == 0 then old(p.cancelCount) else 0)
      invariant p.shell == (if i == 0 then old(p.shell) else Cycled(refreshed, !shift, i))
      invariant p.answer == old(p.answer) && p.registry == old(p.registry) && p.delivered == old(p.delivered)
    {
      if i > 0 {
        RefreshAfterCycle(old(p.shell), complete, !shift, i);
      }
      p.OnKeyPress(Key(TAB_KEY, false, shift), complete);
      i := i + 1;
    }
  }

  /**
   * A single-mode prompt that runs and has its first submission accepted hands
   * over the filtered path and leaves the readline listener lists exactly as it
   * found them, with none of its own handlers registered.
   */
  method AcceptedAnswerDetaches(cwd: string, rl: Registry, line: string, cursor: int,
                                resolve: string -> string, validate: string -> Verdict, filter: string -> string)
    returns (p: PathPrompt)
    requires CancelHandler !in rl.sigint && SubmitHandler !in rl.line && KeyPressHandler !in rl.keypress
    requires validate(resolve(cwd)).Accepted?
    ensures p.delivered == Some(Single(Some(filter(resolve(cwd)))))
    ensures p.registry == rl
    ensures CancelHandler !in p.registry.sigint && SubmitHandler !in p.registry.line
    ensures KeyPressHandler !in p.registry.keypress
  {
    p := new PathPrompt(false, cwd, rl, line, cursor);
    p.Run();
    p.OnSubmit(resolve, validate, filter);
    RunThenCleanupRestores(rl);
  }

  /**
   * A single-mode prompt that runs and is interrupted with nothing selected
   * passes the signal to the listeners it recorded and leaves the readline
   * listener lists exactly as it found them.
   */
  method InterruptDetaches(cwd: string, rl: Registry, line: string, cursor: int,
                           validateMulti: seq<string> -> Verdict)
    returns (p: PathPrompt, forwarded: seq<Listener>)
    requires CancelHandler !in rl.sigint && SubmitHandler !in rl.line && KeyPressHandler !in rl.keypress
    ensures forwarded == rl.sigint && p.delivered == None
    ensures p.registry == rl
    ensures CancelHandler !in p.registry.sigint && SubmitHandler !in p.registry.line
    ensures KeyPressHandler !in p.registry.keypress
  {
    p := new PathPrompt(false, cwd, rl, line, cursor);
    p.Run();
    forwarded := p.OnCancel(validateMulti);
    RunThenCleanupRestores(rl);
  }
}
