/** The pure decisions of warp.js's execution layer: how `update` and
    `query` normalise their arguments and choose where to run, and which
    actions the `done` finaliser of a transaction takes. */
module WarpCalls {
  import opened JsValues

  /** The value of parameter `i` of a call made with `arguments`: a
      parameter the caller did not pass is `undefined`. */
  function Arg(arguments: seq<JsValue>, i: nat): JsValue {
    if i < |arguments| then arguments[i] else Undefined
  }

  /** The four parameters of `update(sql, params, tx, callback)` and
      `query(sql, params, tx, callback)` after normalisation. */
  datatype Call = Call(sql: JsValue, params: JsValue, tx: JsValue, callback: JsValue)

  /** Argument normalisation by `arguments.length`: with three arguments
      the third is the callback and `params` falls back to `[]` when falsy;
      with two the second is the callback and `params` is `[]`; any other
      count leaves the parameters as passed. */
  function NormalizeArgs(arguments: seq<JsValue>): (c: Call)
    ensures c.sql == Arg(arguments, 0)
    ensures 2 <= |arguments| <= 4 ==> c.callback == arguments[|arguments| - 1]
    ensures 2 <= |arguments| <= 3 ==> c.tx == Null && Truthy(c.params)
    ensures |arguments| == 3 && Truthy(arguments[1]) ==> c.params == arguments[1]
    ensures |arguments| == 3 && !Truthy(arguments[1]) ==> c.params == Arr([])
    ensures |arguments| == 2 ==> c.params == Arr([])
    ensures !(2 <= |arguments| <= 3) ==>
      c == Call(Arg(arguments, 0), Arg(arguments, 1), Arg(arguments, 2), Arg(arguments, 3))
  {
    var sql, params, tx, callback := Arg(arguments, 0), Arg(arguments, 1), Arg(arguments, 2), Arg(arguments, 3);
    if |arguments| == 3 then
      Call(sql, Or(params, Arr([])), Null, tx)
    else if |arguments| == 2 then
      Call(sql, Arr([]), Null, params)
    else
      Call(sql, params, tx, callback)
  }

  /** The short forms abbreviate the explicit four-argument call: leaving
      out `params` and `tx` means `[]` and `null`, and leaving out `tx`
      alone means `null` with a falsy `params` read as `[]`. */
  lemma NormalizeArgsShortForms(sql: JsValue, params: JsValue, callback: JsValue)
    ensures NormalizeArgs([sql, callback]) == NormalizeArgs([sql, Arr([]), Null, callback])
    ensures NormalizeArgs([sql, params, callback]) == NormalizeArgs([sql, Or(params, Arr([])), Null, callback])
  {
  }

  /** Where a normalised call runs: on the transaction's own connection, or
      on a connection taken from the pool. */
  datatype Route = OnTransaction | FromPool

  function RouteOf(c: Call): Route {
    if Truthy(c.tx) then OnTransaction else FromPool
  }

  /** A call with fewer than four arguments never runs in a transaction;
      with four it does exactly when `tx` is truthy. So the three-argument
      `query(sql, tx, callback)` of the usage comment at warp.js:135 takes
      `tx` as its `params` and runs on a pool connection, outside the
      transaction. */
  lemma RouteByArity(arguments: seq<JsValue>)
    ensures 2 <= |arguments| <= 3 ==> RouteOf(NormalizeArgs(arguments)) == FromPool
    ensures |arguments| == 4 ==> (RouteOf(NormalizeArgs(arguments)) == OnTransaction <==> Truthy(arguments[2]))
  {
  }

  /** What happens on the transaction's connection, and the final call of
      the caller's `fn`, in order. */
  datatype TxEvent = Rollback | Commit | Release | Finish(err: JsValue)

  /** `t` ends with the one and only call of `fn`. */
  predicate FinishesOnce(t: seq<TxEvent>) {
    && |t| >= 1
    && t[|t| - 1].Finish?
    && forall i :: 0 <= i < |t| - 1 ==> !t[i].Finish?
  }

  /** The error `fn` receives. */
  function Reported(t: seq<TxEvent>): JsValue
    requires FinishesOnce(t)
  {
    t[|t| - 1].err
  }

  /** `done(err, fn)` as written: `err` is the caller's error, `commitErr`
      the error the driver's commit reports. The rollback callback ignores
      its own error, so a failing rollback changes nothing here. */
  function Done(err: JsValue, commitErr: JsValue): (t: seq<TxEvent>)
    ensures FinishesOnce(t)
    ensures Truthy(err) ==> Commit !in t && Rollback in t && Reported(t) == err
    ensures !Truthy(err) ==> t[0] == Commit
    ensures !Truthy(err) && Truthy(commitErr) ==> Rollback in t && Reported(t) == commitErr
    ensures !Truthy(err) && !Truthy(commitErr) ==> Rollback !in t && Reported(t) == Null
    ensures Truthy(Reported(t)) <==> Rollback in t
    ensures !Truthy(Reported(t)) ==> Reported(t) == Null && Commit in t
    ensures forall i, j :: 0 <= i < j < |t| ==> t[i] != t[j]
  {
    if Truthy(err) then [Rollback, Finish(err)]
    else if Truthy(commitErr) then [Commit, Rollback, Finish(commitErr)]
    else [Commit, Finish(Null)]
  }

  /** The connection checked out by `transaction` is never given back to
      the pool by `done`, whatever the outcome. */
  lemma DoneNeverReleases(err: JsValue, commitErr: JsValue)
    ensures Release !in Done(err, commitErr)
  {
  }

  /** `t` with every `Release` dropped. */
  function WithoutRelease(t: seq<TxEvent>): seq<TxEvent>
    decreases |t|
  {
    if |t| == 0 then []
    else (if t[0] == Release then [] else [t[0]]) + WithoutRelease(t[1..])
  }

  /** `done` with the connection released back to the pool once, after the
      rollback or commit has finished and before `fn` is called. */
  function DoneReleasing(err: JsValue, commitErr: JsValue): (t: seq<TxEvent>)
    ensures FinishesOnce(t)
    ensures |t| >= 2 && t[|t| - 2] == Release
    ensures forall i :: 0 <= i < |t| && i != |t| - 2 ==> t[i] != Release
    ensures WithoutRelease(t) == Done(err, commitErr)
    ensures forall i, j :: 0 <= i < j < |t| ==> t[i] != t[j]
  {
    var d := Done(err, commitErr);
    var t := d[..|d| - 1] + [Release, d[|d| - 1]];
    WithoutReleaseKeeps(d[..|d| - 1], d[|d| - 1]);
    assert d[..|d| - 1] + [d[|d| - 1]] == d;
    t
  }

  lemma {:induction false} WithoutReleaseKeeps(p: seq<TxEvent>, last: TxEvent)
    requires Release !in p
    requires last != Release
    ensures WithoutRelease(p + [Release, last]) == p + [last]
    decreases |p|
  {
    if |p| == 0 {
      assert p + [Release, last] == [Release, last];
      assert [Release, last][1..] == [last];
      assert [last][1..] == [];
      assert WithoutRelease([last]) == [last];
    } else {
      assert (p + [Release, last])[1..] == p[1..] + [Release, last];
      WithoutReleaseKeeps(p[1..], last);
    }
  }
}
