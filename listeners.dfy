/**
 * The listener lists of the readline interface that the prompt takes over:
 * SIGINT, `line` and `keypress`. A list is kept in registration order.
 */
module Listeners {

  /** The prompt's three bound handlers, or a listener that belongs to someone else. */
  datatype Listener = SubmitHandler | CancelHandler | KeyPressHandler | Foreign(id: nat)

  datatype Registry = Registry(sigint: seq<Listener>, line: seq<Listener>, keypress: seq<Listener>)

  function Count<T(==)>(s: seq<T>, x: T): (n: nat)
    ensures n == 0 <==> x !in s
  {
    if s == [] then 0 else Count(s[..|s| - 1], x) + (if s[|s| - 1] == x then 1 else 0)
  }

  /**
   * `removeListener`: takes out the most recently added occurrence of `x`, and
   * leaves the list alone when `x` is not in it.
   */
  function RemoveLast<T(==)>(s: seq<T>, x: T): (r: seq<T>)
    ensures x !in s ==> r == s
    ensures x in s ==> |r| == |s| - 1 && multiset(r) == multiset(s) - multiset{x}
  {
    if s == [] then []
    else
      var init := s[..|s| - 1];
      assert s == init + [s[|s| - 1]];
      if s[|s| - 1] == x then init else RemoveLast(init, x) + [s[|s| - 1]]
  }

  /**
   * The occurrence `RemoveLast` takes out is the last one, and the other
   * listeners keep their order: the result is the list cut at the position `i`
   * of the last `x`.
   */
  lemma {:induction false} RemoveLastCutsAtLast<T>(s: seq<T>, x: T, i: nat)
    requires i < |s| && s[i] == x && x !in s[i + 1..]
    ensures RemoveLast(s, x) == s[..i] + s[i + 1..]
  {
    var init := s[..|s| - 1];
    assert s == init + [s[|s| - 1]];
    if i < |s| - 1 {
      assert s[|s| - 1] in s[i + 1..];
      assert init[i + 1..] == s[i + 1..|s| - 1];
      RemoveLastCutsAtLast(init, x, i);
      assert s[i + 1..] == init[i + 1..] + [s[|s| - 1]];
    }
  }

  /** Removing `x` from a list that has other listeners appended after its last `x` removes it from the front part. */
  lemma {:induction false} RemoveLastBeforeTail<T>(s: seq<T>, t: seq<T>, x: T)
    requires x !in t
    ensures RemoveLast(s + t, x) == RemoveLast(s, x) + t
  {
    if t == [] {
      assert s + t == s;
    } else {
      var u := t[..|t| - 1];
      assert t == u + [t[|t| - 1]];
      assert s + t == (s + u) + [t[|t| - 1]];
      RemoveLastBeforeTail(s, u, x);
    }
  }

  /** After `removeListener` a listener that was registered at most once is gone. */
  lemma {:induction false} RemoveLastOfSingle<T>(s: seq<T>, x: T)
    requires Count(s, x) <= 1
    ensures x !in RemoveLast(s, x)
  {
    if s != [] && s[|s| - 1] != x {
      var init := s[..|s| - 1];
      assert s == init + [s[|s| - 1]];
      RemoveLastOfSingle(init, x);
    }
  }

  /** `_run`: the three handlers are added at the end of their lists. */
  function Attach(r: Registry): (a: Registry)
    ensures RemoveLast(a.sigint, CancelHandler) == r.sigint
    ensures RemoveLast(a.line, SubmitHandler) == r.line
    ensures RemoveLast(a.keypress, KeyPressHandler) == r.keypress
  {
    Registry(r.sigint + [CancelHandler], r.line + [SubmitHandler], r.keypress + [KeyPressHandler])
  }

  /**
   * `cleanup`: every recorded SIGINT listener is added back, then each of the
   * prompt's three handlers is removed once.
   */
  function Detach(r: Registry, original: seq<Listener>): (d: Registry)
    ensures CancelHandler !in original && Count(r.sigint, CancelHandler) <= 1 ==>
              CancelHandler !in d.sigint && d.sigint == RemoveLast(r.sigint, CancelHandler) + original
    ensures Count(r.line, SubmitHandler) <= 1 ==> SubmitHandler !in d.line
    ensures Count(r.keypress, KeyPressHandler) <= 1 ==> KeyPressHandler !in d.keypress
  {
    var d := Registry(RemoveLast(r.sigint + original, CancelHandler),
                      RemoveLast(r.line, SubmitHandler),
                      RemoveLast(r.keypress, KeyPressHandler));
    DetachRemovesSingles(r, original);
    d
  }

  lemma DetachRemovesSingles(r: Registry, original: seq<Listener>)
    ensures CancelHandler !in original && Count(r.sigint, CancelHandler) <= 1 ==>
              RemoveLast(r.sigint + original, CancelHandler) == RemoveLast(r.sigint, CancelHandler) + original &&
              CancelHandler !in RemoveLast(r.sigint, CancelHandler)
    ensures Count(r.line, SubmitHandler) <= 1 ==> SubmitHandler !in RemoveLast(r.line, SubmitHandler)
    ensures Count(r.keypress, KeyPressHandler) <= 1 ==> KeyPressHandler !in RemoveLast(r.keypress, KeyPressHandler)
  {
    if Count(r.line, SubmitHandler) <= 1 {
      RemoveLastOfSingle(r.line, SubmitHandler);
    }
    if Count(r.keypress, KeyPressHandler) <= 1 {
      RemoveLastOfSingle(r.keypress, KeyPressHandler);
    }
    if CancelHandler !in original && Count(r.sigint, CancelHandler) <= 1 {
      RemoveLastBeforeTail(r.sigint, original, CancelHandler);
      RemoveLastOfSingle(r.sigint, CancelHandler);
    }
  }

  /**
   * Taking over SIGINT (all its listeners removed and recorded), running and
   * then cleaning up gives back exactly the recorded SIGINT listeners and the
   * `line` and `keypress` lists as they were before the prompt ran.
   */
  lemma RunThenCleanupRestores(before: Registry)
    requires CancelHandler !in before.sigint
    ensures Detach(Attach(before.(sigint := [])), before.sigint) == before
  {
    RemoveLastBeforeTail([CancelHandler], before.sigint, CancelHandler);
  }

  /**
   * `cleanup` is not idempotent: a second call finds none of the prompt's
   * handlers left to remove and adds the recorded SIGINT listeners once more.
   */
  lemma {:induction false} CleanupTwiceDuplicates(r: Registry, original: seq<Listener>)
    requires CancelHandler !in original
    requires Count(r.sigint, CancelHandler) <= 1
    requires Count(r.line, SubmitHandler) <= 1 && Count(r.keypress, KeyPressHandler) <= 1
    ensures var once := Detach(r, original);
            Detach(once, original) == once.(sigint := once.sigint + original)
  {
    var once := Detach(r, original);
    assert CancelHandler !in once.sigint + original;
  }
}
