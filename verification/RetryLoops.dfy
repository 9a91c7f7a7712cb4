/** The buffered and the streaming retry loop, each proved to run the retry protocol.
    The OpenAI handler's two loops are the same code without a default provider and
    without request-body stripping. */
module RetryLoops {
  import opened Options
  import opened Peek
  import opened RetryProtocol

  /** retryContext: what one request remembers across its attempts. */
  class RetryContext {
    var excludedProviders: set<string>
    var excludedKeys: set<string>
    var attemptCount: nat
    // The category of the last classified error; nothing in the loops assigns it.
    var lastZaiTransient: Option<bool>
    var lastProviderName: string
    var lastKeyID: string
    var triedProviders: seq<string>
    var triedKeys: seq<string>
    ghost var attempts: seq<Attempt>

    ghost predicate Valid()
      reads this
    {
      && attemptCount == |attempts| == |triedKeys|
      && (forall i :: 0 <= i < |attempts| ==> triedKeys[i] == attempts[i].Key())
      && lastZaiTransient == None
    }

    ghost function View(): State
      reads this
    {
      State(excludedProviders, excludedKeys, attempts)
    }

    constructor ()
      ensures Valid() && View() == START
    {
      excludedProviders, excludedKeys, attemptCount := {}, {}, 0;
      lastZaiTransient, lastProviderName, lastKeyID := None, "", "";
      triedProviders, triedKeys, attempts := [], [], [];
    }

    method CanRetryNow(cfg: RetryConfig) returns (ok: bool)
      requires Valid()
      ensures ok <==> |attempts| < if cfg.maxTotalAttempts <= 0 then 5 else cfg.maxTotalAttempts
    {
      ok := attemptCount < cfg.MaxTotalAttempts();
    }

    method RecordAttempt(providerName: string, keyID: string, ghost a: Attempt)
      requires Valid() && a.provider == providerName && a.keyID == keyID
      modifies this
      ensures Valid() && View() == old(View()).(attempts := old(attempts) + [a])
      ensures triedProviders == old(triedProviders) + if providerName in old(triedProviders) then [] else [providerName]
    {
      attemptCount := attemptCount + 1;
      lastProviderName, lastKeyID := providerName, keyID;
      var found, i := false, 0;
      while i < |triedProviders|
        invariant 0 <= i <= |triedProviders|
        invariant !found && providerName !in triedProviders[..i]
      {
        if triedProviders[i] == providerName {
          found := true;
          break;
        }
        i := i + 1;
      }
      if !found {
        triedProviders := triedProviders + [providerName];
      }
      triedKeys := triedKeys + [JoinKey(providerName, keyID)];
      attempts := attempts + [a];
    }

    method DoExcludeProvider(name: string)
      requires Valid()
      modifies this
      ensures Valid() && View() == ExcludeProvider(old(View()), name)
    {
      excludedProviders := excludedProviders + {name};
    }

    method DoExcludeKey(providerName: string, keyID: string)
      requires Valid()
      modifies this
      ensures Valid() && View() == ExcludeKey(old(View()), providerName, keyID)
    {
      excludedKeys := excludedKeys + {JoinKey(providerName, keyID)};
    }

    method IsTransient429() returns (transient: bool)
      ensures transient <==> lastZaiTransient == None || lastZaiTransient.value
    {
      if lastZaiTransient.Some? {
        return lastZaiTransient.value;
      }
      return true;
    }

    /** Up to three draws from the pool, skipping excluded keys. */
    method SelectKeyFromPoolExcluding(env: Env, providerName: string, r: nat, k: nat) returns (key: Option<string>)
      requires Valid()
      ensures key == DrawKey(env, View(), providerName, r, k, 0)
    {
      var draw := 0;
      while draw < 3
        invariant 0 <= draw <= 3
        invariant DrawKey(env, View(), providerName, r, k, draw) == DrawKey(env, View(), providerName, r, k, 0)
      {
        var kid := env.getKey(r, k, draw);
        if kid.None? {
          return None;
        }
        if JoinKey(providerName, kid.value) !in excludedKeys {
          return kid;
        }
        draw := draw + 1;
      }
      return None;
    }
  }

  /** httptest.ResponseRecorder after a backend has answered into it. */
  datatype Recorder = Recorder(code: int, body: string)

  function Recorded(script: seq<Action>): Recorder {
    Recorder(StatusOf(script), BodyOf(script))
  }

  method FlushRecorder(recorder: Recorder, writer: ClientWriter)
    modifies writer
    ensures writer.statuses == old(writer.statuses) + [recorder.code]
    ensures writer.body == old(writer.body) + recorder.body
  {
    writer.WriteHeader(recorder.code);
    writer.Write(recorder.body);
  }

  method WriteError(writer: ClientWriter, code: int, text: string)
    modifies writer
    ensures writer.statuses == old(writer.statuses) + [code]
    ensures writer.body == old(writer.body) + text
  {
    writer.WriteHeader(code);
    writer.Write(text);
  }

  /** The flow a level has reached, told from whether it ended the request. */
  ghost function FlowOf(rc: RetryContext, finished: bool): Flow
    reads rc
  {
    if finished then Finished(rc.View(), LastAttempt) else Next(rc.View())
  }

  ghost predicate RecordsLast(attempts: seq<Attempt>, last: Option<Recorder>) {
    last == if attempts == [] then None else Some(Recorded(attempts[|attempts| - 1].script))
  }

  ghost predicate Untouched(writer: ClientWriter, statuses: seq<int>, body: string)
    reads writer
  {
    writer.statuses == statuses && writer.body == body
  }

  /** Asks the backend once and records the attempt. */
  method Ask(env: Env, rc: RetryContext, r: nat, k: nat, provider: string, keyID: string, pooled: bool)
    returns (script: seq<Action>)
    requires rc.Valid()
    modifies rc
    ensures rc.Valid() && rc.View() == Record(env, old(rc.View()), r, k, provider, keyID, pooled)
    ensures rc.attempts != [] && LastOf(rc.View()).script == script && |rc.attempts| == |old(rc.attempts)| + 1
  {
    script := env.backend(rc.attemptCount, provider, keyID, Sent(env, r));
    ghost var next := Record(env, rc.View(), r, k, provider, keyID, pooled);
    rc.RecordAttempt(provider, keyID, next.attempts[|next.attempts| - 1]);
  }

  // ----- Buffered ---------------------------------------------------------------------------

  method BufferedSameKey(env: Env, rc: RetryContext, writer: ClientWriter, last: Option<Recorder>,
                         r: nat, k: nat, provider: string, keyID: string, pooled: bool)
    returns (last': Option<Recorder>, finished: bool)
    requires rc.Valid() && RecordsLast(rc.attempts, last)
    modifies rc, writer
    ensures rc.Valid() && RecordsLast(rc.attempts, last')
    ensures SameKeyLevel(env, old(rc.View()), r, k, provider, keyID, pooled, 0) == FlowOf(rc, finished)
    ensures !finished ==> Untouched(writer, old(writer.statuses), old(writer.body))
    ensures finished ==> last'.Some? && writer.statuses == old(writer.statuses) + [last'.value.code]
    ensures finished ==> writer.body == old(writer.body) + last'.value.body
  {
    hide StatusOf, BodyOf, Record;
    last' := last;
    var s := 0;
    while s <= env.cfg.SameKeyRetries()
      invariant s <= env.cfg.SameKeyRetries() + 1
      invariant rc.Valid() && RecordsLast(rc.attempts, last') && Untouched(writer, old(writer.statuses), old(writer.body))
      invariant SameKeyLevel(env, old(rc.View()), r, k, provider, keyID, pooled, 0)
                == SameKeyLevel(env, rc.View(), r, k, provider, keyID, pooled, s)
    {
      var ok := rc.CanRetryNow(env.cfg);
      if !ok {
        break;
      }
      var script := Ask(env, rc, r, k, provider, keyID, pooled);
      var recorder := Recorded(script);
      last' := Some(recorder);
      if !IsRetryableStatusCode(recorder.code) {
        FlushRecorder(recorder, writer);
        return last', true;
      }
      if recorder.code == 403 {
        return last', false;
      }
      var transient := rc.IsTransient429();
      if !transient {
        break;
      }
      s := s + 1;
    }
    return last', false;
  }

  method BufferedKeys(env: Env, rc: RetryContext, writer: ClientWriter, last: Option<Recorder>,
                      r: nat, provider: string, pooled: bool)
    returns (last': Option<Recorder>, finished: bool)
    requires rc.Valid() && RecordsLast(rc.attempts, last)
    modifies rc, writer
    ensures rc.Valid() && RecordsLast(rc.attempts, last')
    ensures KeyLevel(env, old(rc.View()), r, provider, pooled, 0) == FlowOf(rc, finished)
    ensures !finished ==> Untouched(writer, old(writer.statuses), old(writer.body))
    ensures finished ==> last'.Some? && writer.statuses == old(writer.statuses) + [last'.value.code]
    ensures finished ==> writer.body == old(writer.body) + last'.value.body
  {
    hide SameKeyLevel, DrawKey, StatusOf, BodyOf;
    last' := last;
    var k := 0;
    while k <= env.cfg.KeyRetries()
      invariant k <= env.cfg.KeyRetries() + 1
      invariant rc.Valid() && RecordsLast(rc.attempts, last') && Untouched(writer, old(writer.statuses), old(writer.body))
      invariant KeyLevel(env, old(rc.View()), r, provider, pooled, 0) == KeyLevel(env, rc.View(), r, provider, pooled, k)
    {
      var key := Some("default");
      if pooled {
        key := rc.SelectKeyFromPoolExcluding(env, provider, r, k);
        if key.None? {
          return last', false;
        }
      }
      last', finished := BufferedSameKey(env, rc, writer, last', r, k, provider, key.value, pooled);
      if finished {
        return;
      }
      rc.DoExcludeKey(provider, key.value);
      var ok := rc.CanRetryNow(env.cfg);
      if !ok {
        return last', false;
      }
      k := k + 1;
    }
    return last', false;
  }

  /** serveWithRetry: the client gets exactly the delivery the protocol prescribes. */
  method ServeWithRetry(env: Env, writer: ClientWriter) returns (rc: RetryContext)
    requires WellBehaved(env)
    modifies writer
    ensures fresh(rc) && rc.View() == Run(env).st
    ensures writer.statuses == old(writer.statuses) + BufferedDelivery(env).statuses
    ensures writer.body == old(writer.body) + BufferedDelivery(env).body
  {
    hide KeyLevel, SelectProvider, StatusOf, BodyOf;
    rc := new RetryContext();
    var last: Option<Recorder> := None;
    var r := 0;
    while r <= env.cfg.ProviderRetries()
      invariant r <= env.cfg.ProviderRetries() + 1
      invariant rc.Valid() && RecordsLast(rc.attempts, last) && Untouched(writer, old(writer.statuses), old(writer.body))
      invariant Run(env) == ProviderLevel(env, rc.View(), r)
    {
      var selected := SelectProvider(env, State(rc.excludedProviders, rc.excludedKeys, []), r);
      SelectIgnoresOthers(env, rc.View(), rc.excludedKeys, [], r);
      if selected.None? {
        BufferedGiveUp(env, rc, writer, last, SelectionFailed);
        return;
      }
      var info := env.proxy(r, selected.value);
      if info.ProxyError? {
        BufferedGiveUp(env, rc, writer, last, ProxyFailed);
        return;
      }
      var finished;
      last, finished := BufferedKeys(env, rc, writer, last, r, selected.value, info.Pooled?);
      if finished {
        return;
      }
      rc.DoExcludeProvider(selected.value);
      var ok := rc.CanRetryNow(env.cfg);
      if !ok {
        break;
      }
      r := r + 1;
    }
    BufferedGiveUp(env, rc, writer, last, NothingTried);
  }

  /** The last buffered answer, or an error of the relay's own. */
  method BufferedGiveUp(env: Env, rc: RetryContext, writer: ClientWriter, last: Option<Recorder>, why: LocalFailure)
    requires WellBehaved(env)
    requires RecordsLast(rc.attempts, last) && Run(env) == GiveUp(rc.View(), why)
    modifies writer
    ensures writer.statuses == old(writer.statuses) + BufferedDelivery(env).statuses
    ensures writer.body == old(writer.body) + BufferedDelivery(env).body
  {
    hide ProviderLevel, StatusOf, BodyOf;
    if last.Some? {
      FlushRecorder(last.value, writer);
      return;
    }
    WriteError(writer, why.Code(), env.errorBody(false, why));
  }

  // ----- Streaming --------------------------------------------------------------------------

  /** The held answer is the last attempt's, and the client has not seen any of it. */
  ghost predicate HoldsLast(attempts: seq<Attempt>, writer: ClientWriter, last: PeekWriter?)
    reads writer, last
  {
    if attempts == [] then last == null
    else
      last != null && Holds(writer, last, attempts[|attempts| - 1].script)
  }

  ghost predicate Holds(writer: ClientWriter, pw: PeekWriter, script: seq<Action>)
    reads writer, pw
  {
    && pw.client == writer && pw.Valid() && !pw.committed
    && pw.actions == script != []
    && pw.statusesBefore == writer.statuses && pw.bodyBefore == writer.body
  }

  /** What a finished streaming attempt leaves with the client. */
  ghost predicate Forwarded(statuses: seq<int>, body: string, writer: ClientWriter, script: seq<Action>)
    reads writer
  {
    if script == [] then writer.statuses == statuses && writer.body == body
    else writer.statuses == statuses + [StatusOf(script)] && writer.body == body + BodyOf(script)
  }

  /** One attempt through a new peek writer: it ends the request unless the answer is
      retryable, and then the client has seen nothing. */
  method StreamAttempt(writer: ClientWriter, script: seq<Action>) returns (pw: PeekWriter, ended: bool)
    modifies writer
    ensures fresh(pw)
    ensures ended <==> script == [] || script[0].Write? || (script[0].code != 429 && script[0].code != 403)
    ensures ended <==> !IsRetryableStatusCode(StatusOf(script))
    ensures ended ==> Forwarded(old(writer.statuses), old(writer.body), writer, script)
    ensures !ended ==> Holds(writer, pw, script) && Untouched(writer, old(writer.statuses), old(writer.body))
    ensures !ended ==> pw.statusCode == StatusOf(script)
  {
    hide BodyOf;
    pw := new PeekWriter(writer);
    pw.Serve(script);
    if pw.committed {
      return pw, true;
    }
    if !pw.is429 {
      pw.FlushBuffered429();
      return pw, true;
    }
    return pw, false;
  }

  method StreamingSameKey(env: Env, rc: RetryContext, writer: ClientWriter, last: PeekWriter?,
                          r: nat, k: nat, provider: string, keyID: string, pooled: bool)
    returns (last': PeekWriter?, finished: bool)
    requires rc.Valid() && HoldsLast(rc.attempts, writer, last)
    modifies rc, writer
    ensures rc.Valid()
    ensures SameKeyLevel(env, old(rc.View()), r, k, provider, keyID, pooled, 0) == FlowOf(rc, finished)
    ensures !finished ==> Untouched(writer, old(writer.statuses), old(writer.body))
    ensures !finished ==> HoldsLast(rc.attempts, writer, last') && (last' == last || fresh(last'))
    ensures finished ==> rc.attempts != [] && Forwarded(old(writer.statuses), old(writer.body), writer, LastOf(rc.View()).script)
  {
    hide BodyOf, StatusOf, Holds, Forwarded, Record;
    last' := last;
    var s := 0;
    while s <= env.cfg.SameKeyRetries()
      invariant s <= env.cfg.SameKeyRetries() + 1
      invariant rc.Valid() && HoldsLast(rc.attempts, writer, last') && Untouched(writer, old(writer.statuses), old(writer.body))
      invariant last' == last || fresh(last')
      invariant SameKeyLevel(env, old(rc.View()), r, k, provider, keyID, pooled, 0)
                == SameKeyLevel(env, rc.View(), r, k, provider, keyID, pooled, s)
    {
      var ok := rc.CanRetryNow(env.cfg);
      if !ok {
        break;
      }
      var script := Ask(env, rc, r, k, provider, keyID, pooled);
      var pw, ended := StreamAttempt(writer, script);
      if ended {
        return last', true;
      }
      last' := pw;
      if pw.statusCode == 403 {
        return last', false;
      }
      var transient := rc.IsTransient429();
      if !transient {
        break;
      }
      s := s + 1;
    }
    return last', false;
  }

  method StreamingKeys(env: Env, rc: RetryContext, writer: ClientWriter, last: PeekWriter?,
                       r: nat, provider: string, pooled: bool)
    returns (last': PeekWriter?, finished: bool)
    requires rc.Valid() && HoldsLast(rc.attempts, writer, last)
    modifies rc, writer
    ensures rc.Valid()
    ensures KeyLevel(env, old(rc.View()), r, provider, pooled, 0) == FlowOf(rc, finished)
    ensures !finished ==> Untouched(writer, old(writer.statuses), old(writer.body))
    ensures !finished ==> HoldsLast(rc.attempts, writer, last') && (last' == last || fresh(last'))
    ensures finished ==> rc.attempts != [] && Forwarded(old(writer.statuses), old(writer.body), writer, LastOf(rc.View()).script)
  {
    hide SameKeyLevel, DrawKey, StatusOf, BodyOf, Holds, Forwarded;
    last' := last;
    var k := 0;
    while k <= env.cfg.KeyRetries()
      invariant k <= env.cfg.KeyRetries() + 1
      invariant rc.Valid() && HoldsLast(rc.attempts, writer, last') && Untouched(writer, old(writer.statuses), old(writer.body))
      invariant last' == last || fresh(last')
      invariant KeyLevel(env, old(rc.View()), r, provider, pooled, 0) == KeyLevel(env, rc.View(), r, provider, pooled, k)
    {
      var key := Some("default");
      if pooled {
        key := rc.SelectKeyFromPoolExcluding(env, provider, r, k);
        if key.None? {
          return last', false;
        }
      }
      last', finished := StreamingSameKey(env, rc, writer, last', r, k, provider, key.value, pooled);
      if finished {
        return;
      }
      rc.DoExcludeKey(provider, key.value);
      var ok := rc.CanRetryNow(env.cfg);
      if !ok {
        return last', false;
      }
      k := k + 1;
    }
    return last', false;
  }

  /** serveStreamingWithRetry: the same attempts, forwarded as they stream. */
  method ServeStreamingWithRetry(env: Env, writer: ClientWriter) returns (rc: RetryContext)
    requires WellBehaved(env)
    modifies writer
    ensures fresh(rc) && rc.View() == Run(env).st
    ensures writer.statuses == old(writer.statuses) + StreamingDelivery(env).statuses
    ensures writer.body == old(writer.body) + StreamingDelivery(env).body
  {
    hide KeyLevel, SelectProvider, StatusOf, BodyOf, Holds;
    rc := new RetryContext();
    var last: PeekWriter? := null;
    var r := 0;
    while r <= env.cfg.ProviderRetries()
      invariant r <= env.cfg.ProviderRetries() + 1
      invariant rc.Valid() && HoldsLast(rc.attempts, writer, last) && Untouched(writer, old(writer.statuses), old(writer.body))
      invariant last == null || fresh(last)
      invariant Run(env) == ProviderLevel(env, rc.View(), r)
    {
      var selected := SelectProvider(env, State(rc.excludedProviders, rc.excludedKeys, []), r);
      SelectIgnoresOthers(env, rc.View(), rc.excludedKeys, [], r);
      if selected.None? {
        StreamingGiveUp(env, rc, writer, last, SelectionFailed);
        return;
      }
      var info := env.proxy(r, selected.value);
      if info.ProxyError? {
        StreamingGiveUp(env, rc, writer, last, ProxyFailed);
        return;
      }
      var finished;
      last, finished := StreamingKeys(env, rc, writer, last, r, selected.value, info.Pooled?);
      if finished {
        return;
      }
      rc.DoExcludeProvider(selected.value);
      var ok := rc.CanRetryNow(env.cfg);
      if !ok {
        break;
      }
      r := r + 1;
    }
    StreamingGiveUp(env, rc, writer, last, NothingTried);
  }

  method StreamingGiveUp(env: Env, rc: RetryContext, writer: ClientWriter, last: PeekWriter?, why: LocalFailure)
    requires WellBehaved(env)
    requires HoldsLast(rc.attempts, writer, last) && Run(env) == GiveUp(rc.View(), why)
    modifies writer, last
    ensures writer.statuses == old(writer.statuses) + StreamingDelivery(env).statuses
    ensures writer.body == old(writer.body) + StreamingDelivery(env).body
  {
    hide ProviderLevel, BodyOf;
    if last != null {
      last.FlushBuffered429();
      return;
    }
    WriteError(writer, why.Code(), env.errorBody(true, why));
  }

  /** One request through either loop, up to what net/http sends when the handler returns. Once an
      attempt was made, the client cannot tell which loop it was. */
  method ServeRequest(env: Env, writer: ClientWriter, streaming: bool) returns (rc: RetryContext)
    requires WellBehaved(env) && writer.statuses == [] && writer.body == ""
    modifies writer
    ensures fresh(rc) && rc.View() == Run(env).st
    ensures |writer.statuses| == 1
    ensures rc.attempts != [] ==> Delivery(writer.statuses, writer.body) == BufferedDelivery(env)
  {
    hide Run, StatusOf, BodyOf;
    StreamingRefinesBuffered(env);
    if streaming {
      rc := ServeStreamingWithRetry(env, writer);
    } else {
      rc := ServeWithRetry(env, writer);
    }
    assert "" + writer.body == writer.body;
    writer.Finish();
  }
}
