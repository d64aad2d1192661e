/** The namespace-keyed property store (`InfinispanDataStoreComponent`).

    The Infinispan cache is a map from qualified names to entries. The JNDI
    lookup of the cache container and the cache calls themselves are
    replaced by a `Fault` parameter saying which of them throws on a call.
    Every asynchronous answer is recorded in the sequence of results handed
    to the caller's handler, and an exception that escapes the call is
    recorded separately, so "the handler ran exactly once" is a statement
    about the length of that sequence. The caller's handler is a `Handler`
    parameter saying what it throws on each call: a handler that throws
    from inside a `try` is called again by the `catch` with its own
    exception. */
module DataStore {
  import opened Common

  const DefaultCacheContainer := "java:jboss/infinispan/container/apiman-gateway"
  const DefaultCache := "data-store"

  /** The JNDI name of the cache container and the cache to use. */
  datatype StoreConfig = StoreConfig(cacheContainer: string, cacheName: string)

  /** `javax.xml.namespace.QName`: equal when namespace and local part are. */
  datatype QName = QName(namespace: string, localPart: string)

  /** A stored value and the lifespan it was stored with, if any. */
  datatype Entry<V> = Entry(value: V, lifespanSecs: Option<int>)

  type Cache<V> = map<QName, Entry<V>>

  /** Which call into the environment throws during one operation. */
  datatype Fault =
    | NoFault
    | /** `getCache()`: the JNDI lookup throws `NamingException` (only while the cache is not yet resolved) */
      LookupFails(message: string)
    | /** `cache.containsKey` throws */
      ContainsFails(error: Throwable)
    | /** `cache.get`, `cache.put` or `cache.remove` throws */
      AccessFails(error: Throwable)

  /** The caller's result handler, as far as these operations can observe
      it: the exception, if any, it throws on its first and on its second
      call. No operation calls it more than twice. */
  datatype Handler = Handler(first: Option<Throwable>, second: Option<Throwable>)

  /** A handler that never throws. */
  const Quiet := Handler(None, None)

  /** What the handler throws on the last of `calls` calls. */
  function LastThrown(h: Handler, calls: nat): Option<Throwable> {
    if calls == 0 then None else if calls == 1 then h.first else h.second
  }

  /** What an operation with a handler leaves behind: the cache, the results
      delivered to the handler, and the exception thrown to the caller, if any. */
  datatype Call<V, T> = Call(cache: Cache<V>, delivered: seq<AsyncResult<T>>, thrown: Option<Throwable>)

  /** `getCache()` failing: the `NamingException` wrapped in a `RuntimeException`. */
  function LookupError(message: string): Throwable {
    RuntimeWrapper(OtherThrowable("javax.naming.NamingException", message))
  }

  /** The exception `fault` raises before or at the cache access. */
  function FaultError(fault: Fault): Throwable
    requires !fault.NoFault?
  {
    match fault
    case LookupFails(m) => LookupError(m)
    case ContainsFails(e) => e
    case AccessFails(e) => e
  }

  /** `handler.handle(result)` outside any `try`: what the handler throws
      escapes to the caller. The `catch` blocks call the handler this way. */
  function HandleUnguarded<V, T>(cache: Cache<V>, h: Handler, result: AsyncResult<T>): Call<V, T> {
    Call(cache, [result], h.first)
  }

  /** `handler.handle(result)` as the last statement of a `try` whose
      `catch (Exception e)` passes `e` to the handler: a handler that throws
      is called a second time with its own exception. */
  function HandleGuarded<V, T>(cache: Cache<V>, h: Handler, result: AsyncResult<T>): Call<V, T> {
    match h.first
    case None => Call(cache, [result], None)
    case Some(e) => Call(cache, [result, Failure(e)], h.second)
  }

  // ---------------------------------------------------------------------
  // Constructors
  // ---------------------------------------------------------------------

  /** The no-argument constructor. */
  function DefaultConfig(): StoreConfig {
    StoreConfig(DefaultCacheContainer, DefaultCache)
  }

  /** The constructor taking a configuration map. */
  function Configure(config: map<string, string>): (c: StoreConfig)
    ensures "cache-container" !in config ==> c.cacheContainer == DefaultConfig().cacheContainer
    ensures "cache" !in config ==> c.cacheName == DefaultConfig().cacheName
  {
    StoreConfig(
      if "cache-container" in config then config["cache-container"] else DefaultCacheContainer,
      if "cache" in config then config["cache"] else DefaultCache)
  }

  /** An empty configuration gives the same store as the no-argument constructor. */
  lemma EmptyConfigIsDefault()
    ensures Configure(map[]) == DefaultConfig()
    ensures DefaultConfig().cacheContainer == "java:jboss/infinispan/container/apiman-gateway"
    ensures DefaultConfig().cacheName == "data-store"
  {
  }

  /** Each key overrides its own default only: the container depends on
      `cache-container` alone and the cache name on `cache` alone. */
  lemma ConfigKeysAreIndependent(a: map<string, string>, b: map<string, string>)
    ensures ("cache-container" in a <==> "cache-container" in b) &&
            ("cache-container" in a ==> a["cache-container"] == b["cache-container"])
            ==> Configure(a).cacheContainer == Configure(b).cacheContainer
    ensures ("cache" in a <==> "cache" in b) && ("cache" in a ==> a["cache"] == b["cache"])
            ==> Configure(a).cacheName == Configure(b).cacheName
    ensures "cache-container" in a ==> Configure(a).cacheContainer == a["cache-container"]
    ensures "cache" in a ==> Configure(a).cacheName == a["cache"]
  {
  }

  // ---------------------------------------------------------------------
  // Operations
  // ---------------------------------------------------------------------

  /** `hasProperty`: a synchronous answer, so a failing lookup or
      `containsKey` is thrown to the caller. */
  function HasProperty<V>(cache: Cache<V>, namespace: string, name: string, fault: Fault): (r: Result<bool, Throwable>)
    ensures r.Ok? <==> fault.NoFault? || fault.AccessFails?
    ensures r.Ok? ==> (r.value <==> QName(namespace, name) in cache)
  {
    match fault
    case LookupFails(m) => Err(LookupError(m))
    case ContainsFails(e) => Err(e)
    case _ => Ok(QName(namespace, name) in cache)
  }

  /** `getProperty` as written: `getCache().containsKey(qname)` runs outside
      the `try`, so a failing lookup or `containsKey` escapes to the caller
      and the handler is never called. The `get` and its answer sit in a
      `try`; the default value is answered outside it. */
  function GetPropertyAsWritten<V>(cache: Cache<V>, namespace: string, name: string, default: V, fault: Fault,
                                   h: Handler): (r: Call<V, V>)
    ensures r.cache == cache && |r.delivered| <= 2
    ensures |r.delivered| == 0 <==> fault.LookupFails? || fault.ContainsFails?
    ensures |r.delivered| == 0 ==> r.thrown == Some(FaultError(fault))
    ensures |r.delivered| > 0 ==> r.thrown == LastThrown(h, |r.delivered|)
    ensures |r.delivered| > 0 ==> (r.delivered[0].IsError() <==> fault.AccessFails? && QName(namespace, name) in cache)
    ensures |r.delivered| == 2 <==> fault.NoFault? && QName(namespace, name) in cache && h.first.Some?
    ensures |r.delivered| == 2 ==> r.delivered[1] == Failure(h.first.value)
  {
    var key := QName(namespace, name);
    match fault
    case LookupFails(m) => Call(cache, [], Some(LookupError(m)))
    case ContainsFails(e) => Call(cache, [], Some(e))
    case AccessFails(e) =>
      if key in cache then HandleUnguarded(cache, h, Failure(e)) else HandleUnguarded(cache, h, Success(default))
    case NoFault =>
      if key in cache then HandleGuarded(cache, h, Success(cache[key].value))
      else HandleUnguarded(cache, h, Success(default))
  }

  /** `getProperty` as the component contract means it: the whole body is
      one `try`, as in `setProperty` and `clearProperty`, so every failure
      of the backing store reaches the handler as an error result and only
      the handler's own exception can escape. */
  function GetProperty<V>(cache: Cache<V>, namespace: string, name: string, default: V, fault: Fault, h: Handler)
    : (r: Call<V, V>)
    ensures r.cache == cache && 1 <= |r.delivered| <= 2
    ensures r.delivered[0].IsError() <==>
      fault.LookupFails? || fault.ContainsFails? || (fault.AccessFails? && QName(namespace, name) in cache)
    ensures r.delivered[0].IsError() ==> r.delivered[0].error == FaultError(fault)
    ensures |r.delivered| == 2 <==> !r.delivered[0].IsError() && h.first.Some?
    ensures |r.delivered| == 2 ==> r.delivered[1] == Failure(h.first.value)
    ensures r.thrown == LastThrown(h, |r.delivered|)
  {
    var key := QName(namespace, name);
    match fault
    case LookupFails(m) => HandleUnguarded(cache, h, Failure(LookupError(m)))
    case ContainsFails(e) => HandleUnguarded(cache, h, Failure(e))
    case AccessFails(e) =>
      if key in cache then HandleUnguarded(cache, h, Failure(e)) else HandleGuarded(cache, h, Success(default))
    case NoFault =>
      if key in cache then HandleGuarded(cache, h, Success(cache[key].value))
      else HandleGuarded(cache, h, Success(default))
  }

  /** The five-argument `setProperty`: `put` with or without a lifespan; the
      handler receives the previous value, or null when there was none. */
  function SetPropertyWithExpiry<V>(cache: Cache<V>, namespace: string, name: string, value: V,
                                    expiration: Option<int>, fault: Fault, h: Handler): (r: Call<V, Option<V>>)
    ensures 1 <= |r.delivered| <= 2
    ensures r.delivered[0].IsError() <==> fault.LookupFails? || fault.AccessFails?
    ensures r.delivered[0].IsError() ==> r.delivered[0].error == FaultError(fault) && r.cache == cache
    ensures |r.delivered| == 2 <==> !r.delivered[0].IsError() && h.first.Some?
    ensures |r.delivered| == 2 ==> r.delivered[1] == Failure(h.first.value)
    ensures r.thrown == LastThrown(h, |r.delivered|)
  {
    var key := QName(namespace, name);
    match fault
    case LookupFails(m) => HandleUnguarded(cache, h, Failure(LookupError(m)))
    case AccessFails(e) => HandleUnguarded(cache, h, Failure(e))
    case _ =>
      var previous := if key in cache then Some(cache[key].value) else None;
      HandleGuarded(cache[key := Entry(value, expiration)], h, Success(previous))
  }

  /** The four-argument `setProperty`: delegates with a null expiration. */
  function SetProperty<V>(cache: Cache<V>, namespace: string, name: string, value: V, fault: Fault, h: Handler)
    : (r: Call<V, Option<V>>)
    ensures r == SetPropertyWithExpiry(cache, namespace, name, value, None, fault, h)
  {
    SetPropertyWithExpiry(cache, namespace, name, value, None, fault, h)
  }

  /** `clearProperty`: `remove`, handing the handler the removed value or null. */
  function ClearProperty<V>(cache: Cache<V>, namespace: string, name: string, fault: Fault, h: Handler)
    : (r: Call<V, Option<V>>)
    ensures 1 <= |r.delivered| <= 2
    ensures r.delivered[0].IsError() <==> fault.LookupFails? || fault.AccessFails?
    ensures r.delivered[0].IsError() ==> r.delivered[0].error == FaultError(fault) && r.cache == cache
    ensures |r.delivered| == 2 <==> !r.delivered[0].IsError() && h.first.Some?
    ensures |r.delivered| == 2 ==> r.delivered[1] == Failure(h.first.value)
    ensures r.thrown == LastThrown(h, |r.delivered|)
  {
    var key := QName(namespace, name);
    match fault
    case LookupFails(m) => HandleUnguarded(cache, h, Failure(LookupError(m)))
    case AccessFails(e) => HandleUnguarded(cache, h, Failure(e))
    case _ =>
      var previous := if key in cache then Some(cache[key].value) else None;
      HandleGuarded(cache - {key}, h, Success(previous))
  }

  // ---------------------------------------------------------------------
  // Properties of single operations
  // ---------------------------------------------------------------------

  /** Keys with the same name in different namespaces are distinct: a write
      in one namespace is invisible to `hasProperty` in another. */
  lemma NamespacesAreDistinct<V>(cache: Cache<V>, ns1: string, ns2: string, name: string, v: V, exp: Option<int>,
                                 h: Handler)
    requires ns1 != ns2
    ensures var after := SetPropertyWithExpiry(cache, ns1, name, v, exp, NoFault, h).cache;
      HasProperty(after, ns2, name, NoFault) == HasProperty(cache, ns2, name, NoFault)
  {
  }

  /** `getProperty` first answers the stored value for a present key and
      the default only for an absent one, whatever the handler does. */
  lemma GetDeliversStoredOrDefault<V>(cache: Cache<V>, ns: string, name: string, default: V, h: Handler)
    ensures var r := GetProperty(cache, ns, name, default, NoFault, h);
      && (HasProperty(cache, ns, name, NoFault) == Ok(true) ==>
            r.delivered[0] == Success(cache[QName(ns, name)].value))
      && (HasProperty(cache, ns, name, NoFault) == Ok(false) ==> r.delivered[0] == Success(default))
  {
  }

  /** `setProperty` first answers the previous value (null when absent), and
      a later `getProperty` yields the new value. */
  lemma SetThenGet<V>(cache: Cache<V>, ns: string, name: string, v: V, exp: Option<int>, default: V,
                      h: Handler, h': Handler)
    ensures var s := SetPropertyWithExpiry(cache, ns, name, v, exp, NoFault, h);
      && s.delivered[0] == Success(if QName(ns, name) in cache then Some(cache[QName(ns, name)].value) else None)
      && GetProperty(s.cache, ns, name, default, NoFault, h').delivered[0] == Success(v)
      && HasProperty(s.cache, ns, name, NoFault) == Ok(true)
  {
  }

  /** `setProperty` leaves every other key as it was. */
  lemma SetKeepsOtherKeys<V>(cache: Cache<V>, ns: string, name: string, v: V, exp: Option<int>, h: Handler, k: QName)
    requires k != QName(ns, name)
    ensures var after := SetPropertyWithExpiry(cache, ns, name, v, exp, NoFault, h).cache;
      (k in after <==> k in cache) && (k in cache ==> after[k] == cache[k])
  {
  }

  /** `clearProperty` first answers the removed value; afterwards the key is
      absent, `getProperty` falls back to the default, and other keys are
      unchanged. */
  lemma ClearRemoves<V>(cache: Cache<V>, ns: string, name: string, default: V, h: Handler, h': Handler)
    ensures var c := ClearProperty(cache, ns, name, NoFault, h);
      && c.delivered[0] == Success(if QName(ns, name) in cache then Some(cache[QName(ns, name)].value) else None)
      && HasProperty(c.cache, ns, name, NoFault) == Ok(false)
      && GetProperty(c.cache, ns, name, default, NoFault, h').delivered[0] == Success(default)
      && forall k :: k != QName(ns, name) ==> (k in c.cache <==> k in cache) && (k in cache ==> c.cache[k] == cache[k])
  {
  }

  /** A failing cache or lookup during `getProperty`, `setProperty` or
      `clearProperty` changes nothing and reaches the handler as an error;
      only what the handler itself throws on that answer escapes. */
  lemma FailuresAreDelivered<V>(cache: Cache<V>, ns: string, name: string, v: V, exp: Option<int>, fault: Fault,
                                h: Handler)
    requires fault.LookupFails? || fault.AccessFails?
    ensures SetPropertyWithExpiry(cache, ns, name, v, exp, fault, h) == Call(cache, [Failure(FaultError(fault))], h.first)
    ensures ClearProperty(cache, ns, name, fault, h) == Call(cache, [Failure(FaultError(fault))], h.first)
    ensures fault.LookupFails? || QName(ns, name) in cache ==>
      GetProperty(cache, ns, name, v, fault, h) == Call(cache, [Failure(FaultError(fault))], h.first)
  {
  }

  /** With a handler that never throws, `setProperty`, `clearProperty` and
      the corrected `getProperty` answer exactly once and throw nothing,
      and `getProperty` as written either answers once or throws. */
  lemma QuietHandlerAnswersOnce<V>(cache: Cache<V>, ns: string, name: string, v: V, exp: Option<int>, fault: Fault)
    ensures var s := SetPropertyWithExpiry(cache, ns, name, v, exp, fault, Quiet); |s.delivered| == 1 && s.thrown.None?
    ensures var c := ClearProperty(cache, ns, name, fault, Quiet); |c.delivered| == 1 && c.thrown.None?
    ensures var g := GetProperty(cache, ns, name, v, fault, Quiet); |g.delivered| == 1 && g.thrown.None?
    ensures var g := GetPropertyAsWritten(cache, ns, name, v, fault, Quiet);
      |g.delivered| + (if g.thrown.Some? then 1 else 0) == 1
  {
  }

  /** A handler that throws on a successful answer is called a second time,
      by the `catch`, with its own exception; the write has happened all the
      same, and what the handler throws on that second call escapes. */
  lemma ThrowingHandlerIsCalledTwice<V>(cache: Cache<V>, ns: string, name: string, v: V, e: Throwable,
                                        again: Option<Throwable>)
    ensures var s := SetProperty(cache, ns, name, v, NoFault, Handler(Some(e), again));
      && |s.delivered| == 2 && s.delivered[1] == Failure(e) && s.thrown == again
      && s.cache == SetProperty(cache, ns, name, v, NoFault, Quiet).cache
    ensures var c := ClearProperty(cache, ns, name, NoFault, Handler(Some(e), again));
      && |c.delivered| == 2 && c.delivered[1] == Failure(e) && c.thrown == again
      && c.cache == ClearProperty(cache, ns, name, NoFault, Quiet).cache
  {
  }

  /** As written, `getProperty` answers the default outside the `try`: a
      handler that throws on it is not called again and its exception
      escapes after it has already answered. A stored value is answered
      inside the `try` and gets the second call. */
  lemma GetPropertyHandlerFailureByBranch<V>(cache: Cache<V>, ns: string, name: string, default: V, e: Throwable,
                                             again: Option<Throwable>)
    ensures QName(ns, name) !in cache ==>
      GetPropertyAsWritten(cache, ns, name, default, NoFault, Handler(Some(e), again)) ==
      Call(cache, [Success(default)], Some(e))
    ensures QName(ns, name) in cache ==>
      GetPropertyAsWritten(cache, ns, name, default, NoFault, Handler(Some(e), again)) ==
      Call(cache, [Success(cache[QName(ns, name)].value), Failure(e)], again)
  {
  }

  /** The defect of `getProperty` as written: with an unbound cache
      container the `NamingException` escapes to the caller and the handler
      never runs, while `setProperty` under the same failure delivers it. */
  lemma GetPropertyLookupFailureEscapes<V>(cache: Cache<V>, ns: string, name: string, v: V, h: Handler)
    ensures var f := LookupFails("java:jboss/infinispan/container/apiman-gateway not bound");
      && GetPropertyAsWritten(cache, ns, name, v, f, h).delivered == []
      && GetPropertyAsWritten(cache, ns, name, v, f, h).thrown == Some(FaultError(f))
      && SetProperty(cache, ns, name, v, f, h).delivered == [Failure(FaultError(f))]
      && GetProperty(cache, ns, name, v, f, h).delivered == [Failure(FaultError(f))]
  {
  }

  /** The correction changes nothing when `containsKey` can be reached,
      except that a handler throwing on the default answer is now called
      again by the `catch` instead of throwing to the caller. */
  lemma GetPropertyAgreesWithoutLookupFailure<V>(cache: Cache<V>, ns: string, name: string, v: V, fault: Fault,
                                                 h: Handler)
    requires fault.NoFault? || fault.AccessFails?
    ensures QName(ns, name) in cache || h.first.None? ==>
      GetProperty(cache, ns, name, v, fault, h) == GetPropertyAsWritten(cache, ns, name, v, fault, h)
    ensures QName(ns, name) !in cache && h.first.Some? ==>
      GetProperty(cache, ns, name, v, fault, h).delivered ==
      GetPropertyAsWritten(cache, ns, name, v, fault, h).delivered + [Failure(h.first.value)]
  {
  }

  // ---------------------------------------------------------------------
  // Sequences of writes
  // ---------------------------------------------------------------------

  /** A successful `setProperty` or `clearProperty` call. */
  datatype Write<V> = Put(key: QName, value: V, expiration: Option<int>) | Remove(key: QName)

  /** The cache after one successful write. */
  function ApplyWrite<V>(cache: Cache<V>, w: Write<V>): Cache<V> {
    match w
    case Put(k, v, exp) => SetPropertyWithExpiry(cache, k.namespace, k.localPart, v, exp, NoFault, Quiet).cache
    case Remove(k) => ClearProperty(cache, k.namespace, k.localPart, NoFault, Quiet).cache
  }

  /** The cache after a sequence of successful writes, in order. */
  function Replay<V>(cache: Cache<V>, ws: seq<Write<V>>): Cache<V>
    decreases |ws|
  {
    if |ws| == 0 then cache else ApplyWrite(Replay(cache, ws[..|ws| - 1]), ws[|ws| - 1])
  }

  /** A write to one key leaves every other key as it was. */
  lemma ApplyWriteKeepsOtherKeys<V>(cache: Cache<V>, w: Write<V>, k: QName)
    requires w.key != k
    ensures (k in ApplyWrite(cache, w) <==> k in cache) && (k in cache ==> ApplyWrite(cache, w)[k] == cache[k])
  {
  }

  /** Writes that never touch a key leave it as it was. */
  lemma {:induction false} ReplayKeepsUntouchedKey<V>(cache: Cache<V>, ws: seq<Write<V>>, k: QName)
    requires forall j :: 0 <= j < |ws| ==> ws[j].key != k
    ensures k in Replay(cache, ws) <==> k in cache
    ensures k in cache ==> Replay(cache, ws)[k] == cache[k]
    decreases |ws|
  {
    if |ws| > 0 {
      var init := ws[..|ws| - 1];
      assert forall j :: 0 <= j < |init| ==> init[j] == ws[j];
      ReplayKeepsUntouchedKey(cache, init, k);
      ApplyWriteKeepsOtherKeys(Replay(cache, init), ws[|ws| - 1], k);
    }
  }

  /** Last write wins: a key ends as the last write that touched it left it. */
  lemma {:induction false} ReplayLastWriteWins<V>(cache: Cache<V>, ws: seq<Write<V>>, k: QName, i: nat)
    requires i < |ws| && ws[i].key == k
    requires forall j :: i < j < |ws| ==> ws[j].key != k
    ensures ws[i].Put? ==> k in Replay(cache, ws) && Replay(cache, ws)[k] == Entry(ws[i].value, ws[i].expiration)
    ensures ws[i].Remove? ==> k !in Replay(cache, ws)
    decreases |ws|
  {
    var init := ws[..|ws| - 1];
    if i < |ws| - 1 {
      assert init[i] == ws[i];
      assert forall j :: i < j < |init| ==> init[j] == ws[j];
      ReplayLastWriteWins(cache, init, k, i);
      ApplyWriteKeepsOtherKeys(Replay(cache, init), ws[|ws| - 1], k);
    }
  }
}
