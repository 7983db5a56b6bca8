/** The `async_hooks` polyfill of the edge bundle: constant hook stubs and an
    `AsyncLocalStorage` whose single `store` field is set and restored around
    callbacks. A callback is described by what it does with the same storage,
    as a `Script`, so that nested calls can be followed, and `run` and
    `exit` hand back what their callback returns. */
module AsyncHooks {
  import opened Common

  /** `executionAsyncId()` */
  function ExecutionAsyncId(): (r: int)
    ensures r == 0
  {
    0
  }

  /** `triggerAsyncId()` */
  function TriggerAsyncId(): (r: int)
    ensures r == 0
  {
    0
  }

  /** `executionAsyncResource()` returns `null`, modelled as `None`. */
  function ExecutionAsyncResource<R>(): (r: Option<R>)
    ensures r.None?
  {
    None
  }

  /** What a callback does with the storage, step by step: read it, call
      `enterWith`, `run` or `exit` (whose own callback is `body`), throw, or
      return (`undefined` for `Done`, a value of type `R` for `Return`). */
  datatype Script<T, R> =
    | Done
    | Return(value: R)
    | Throw
    | Read(next: Script<T, R>)
    | Enter(s: T, next: Script<T, R>)
    | Run(s: T, body: Script<T, R>, next: Script<T, R>)
    | Exit(body: Script<T, R>, next: Script<T, R>)

  /** The store at the end, whether the script threw, what each read saw, and
      what the script returned (`None` for `undefined` or a throw). */
  datatype Trace<T, R> = Trace(store: Option<T>, threw: bool, seen: seq<Option<T>>, result: Option<R>)

  /** The behaviour of a script run from `store`. `run` clears the store when
      its callback ends, `exit` restores the previous one, and either way a
      throw propagates. */
  function Follow<T, R>(store: Option<T>, script: Script<T, R>): Trace<T, R>
    decreases script
  {
    match script
    case Done => Trace(store, false, [], None)
    case Return(v) => Trace(store, false, [], Some(v))
    case Throw => Trace(store, true, [], None)
    case Read(next) =>
      var t := Follow(store, next);
      Trace(t.store, t.threw, [store] + t.seen, t.result)
    case Enter(s, next) => Follow(Some(s), next)
    case Run(s, body, next) =>
      var b := Follow(Some(s), body);
      if b.threw then Trace(None, true, b.seen, None)
      else
        var t := Follow(None, next);
        Trace(t.store, t.threw, b.seen + t.seen, t.result)
    case Exit(body, next) =>
      var b := Follow(None, body);
      if b.threw then Trace(store, true, b.seen, None)
      else
        var t := Follow(store, next);
        Trace(t.store, t.threw, b.seen + t.seen, t.result)
  }

  /** The values a script stores. */
  function Stored<T, R>(script: Script<T, R>): set<T> {
    match script
    case Done => {}
    case Return(_) => {}
    case Throw => {}
    case Read(next) => Stored(next)
    case Enter(s, next) => {s} + Stored(next)
    case Run(s, body, next) => {s} + Stored(body) + Stored(next)
    case Exit(body, next) => Stored(body) + Stored(next)
  }

  /** A script that never sets the store itself: only reads and `exit`s. */
  predicate OnlyReadsAndExits<T, R>(script: Script<T, R>) {
    match script
    case Done => true
    case Return(_) => true
    case Throw => true
    case Read(next) => OnlyReadsAndExits(next)
    case Enter(_, _) => false
    case Run(_, _, _) => false
    case Exit(body, next) => OnlyReadsAndExits(next)
  }

  /** Every value a read sees is the starting store, `undefined`, or a value
      the script itself stored; and so is the final store. */
  lemma {:induction false} ReadsSeeOnlyStoredValues<T, R>(store: Option<T>, script: Script<T, R>)
    ensures var t := Follow(store, script);
            forall i :: 0 <= i < |t.seen| ==> t.seen[i] == store || t.seen[i].None? || t.seen[i].value in Stored(script)
    ensures var t := Follow(store, script);
            t.store == store || t.store.None? || t.store.value in Stored(script)
    decreases script
  {
    match script
    case Done =>
    case Return(_) =>
    case Throw =>
    case Read(next) =>
      ReadsSeeOnlyStoredValues(store, next);
    case Enter(s, next) =>
      ReadsSeeOnlyStoredValues(Some(s), next);
    case Run(s, body, next) =>
      ReadsSeeOnlyStoredValues(Some(s), body);
      ReadsSeeOnlyStoredValues(None, next);
    case Exit(body, next) =>
      ReadsSeeOnlyStoredValues(None, body);
      ReadsSeeOnlyStoredValues(store, next);
  }

  /** A callback that only reads and calls `exit` hands the store back as it
      found it. */
  lemma {:induction false} ExitsRestoreStore<T, R>(store: Option<T>, script: Script<T, R>)
    requires OnlyReadsAndExits(script)
    ensures Follow(store, script).store == store
    decreases script
  {
    match script
    case Done =>
    case Return(_) =>
    case Throw =>
    case Read(next) =>
      ExitsRestoreStore(store, next);
    case Exit(body, next) =>
      ExitsRestoreStore(store, next);
  }

  /** Inside `run(s, ...)` a first read sees `s`; once `run` has ended the
      store is `undefined`, not what it was before. */
  lemma RunSetsThenClears<T, R>(store: Option<T>, s: T, rest: Script<T, R>)
    ensures var t := Follow(store, Run(s, Read(rest), Done));
            |t.seen| > 0 && t.seen[0] == Some(s)
    ensures !Follow(Some(s), rest).threw ==>
              Follow(store, Run(s, rest, Read(Done))).seen == Follow(Some(s), rest).seen + [None]
    ensures Follow(store, Run(s, rest, Done)).store == None
  {
    assert Follow(Some(s), Read(rest)).seen[0] == Some(s);
    assert Follow<T, R>(None, Read(Done)).seen == [None];
  }

  /** A nested `run` clears the outer one's store: reading after the inner
      `run` returns sees `undefined`. */
  lemma NestedRunClearsOuterStore<T, R>(outer: T, inner: T)
    ensures Follow<T, R>(None, Run(outer, Run(inner, Read(Done), Read(Done)), Done)).seen == [Some(inner), None]
  {
    assert Follow<T, R>(Some(inner), Read(Done)) == Trace(Some(inner), false, [Some(inner)], None);
    assert Follow<T, R>(None, Read(Done)) == Trace(None, false, [None], None);
    assert Follow<T, R>(Some(outer), Run(inner, Read(Done), Read(Done))).seen == [Some(inner), None];
  }

  /** Inside `exit` the store is `undefined`; after it, even when its callback
      threw, the previous store is back. */
  lemma ExitHidesThenRestores<T, R>(store: Option<T>, body: Script<T, R>)
    ensures var t := Follow(store, Exit(Read(body), Done));
            |t.seen| > 0 && t.seen[0] == None
    ensures Follow(store, Exit(body, Done)).store == store
  {
    assert Follow(None, Read(body)).seen[0] == None;
  }

  /** `AsyncLocalStorage` */
  class AsyncLocalStorage<T> {
    var store: Option<T>

    constructor ()
      ensures store == None
    {
      store := None;
    }

    /** `getStore()` */
    function GetStore(): Option<T>
      reads this
    {
      store
    }

    /** `enterWith(s)` */
    method EnterWith(s: T)
      modifies this
      ensures store == Some(s)
    {
      store := Some(s);
    }

    /** `run(s, callback)`: the store is `s` while the callback runs and
        `undefined` afterwards, whether or not it threw; what the callback
        returns is returned. */
    method Run<R>(s: T, callback: Script<T, R>) returns (threw: bool, seen: seq<Option<T>>, result: Option<R>)
      modifies this
      ensures store == None
      ensures threw == Follow(Some(s), callback).threw && seen == Follow(Some(s), callback).seen
      ensures result == Follow(Some(s), callback).result
      decreases callback, 1
    {
      store := Some(s);
      threw, seen, result := Perform(callback);
      store := None;
    }

    /** `exit(callback)`: the store is `undefined` while the callback runs and
        the previous store afterwards, whether or not it threw; what the
        callback returns is returned. */
    method Exit<R>(callback: Script<T, R>) returns (threw: bool, seen: seq<Option<T>>, result: Option<R>)
      modifies this
      ensures store == old(store)
      ensures threw == Follow(None, callback).threw && seen == Follow(None, callback).seen
      ensures result == Follow(None, callback).result
      decreases callback, 1
    {
      var previousStore := store;
      store := None;
      threw, seen, result := Perform(callback);
      store := previousStore;
    }

    /** Carry out a callback's steps on this storage. */
    method Perform<R>(script: Script<T, R>) returns (threw: bool, seen: seq<Option<T>>, result: Option<R>)
      modifies this
      ensures Trace(store, threw, seen, result) == Follow(old(store), script)
      decreases script, 0
    {
      match script {
        case Done =>
          threw, seen, result := false, [], None;
        case Return(v) =>
          threw, seen, result := false, [], Some(v);
        case Throw =>
          threw, seen, result := true, [], None;
        case Read(next) =>
          var now := GetStore();
          var rest;
          threw, rest, result := Perform(next);
          seen := [now] + rest;
        case Enter(s, next) =>
          EnterWith(s);
          threw, seen, result := Perform(next);
        case Run(s, body, next) =>
          var inner;
          threw, inner, result := Run(s, body);
          if threw {
            seen, result := inner, None;
          } else {
            var rest;
            threw, rest, result := Perform(next);
            seen := inner + rest;
          }
        case Exit(body, next) =>
          var inner;
          threw, inner, result := Exit(body);
          if threw {
            seen, result := inner, None;
          } else {
            var rest;
            threw, rest, result := Perform(next);
            seen := inner + rest;
          }
      }
    }
  }
}
