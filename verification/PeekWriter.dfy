/** The writer that holds back retryable answers and lets every other one through. */
module Peek {

  /** What a backend does with its response writer. Status codes outside 100..999 make
      net/http panic and do not occur. */
  type StatusCode = c: int | 100 <= c <= 999 witness 200
  datatype Action = WriteHeader(code: StatusCode) | Write(data: string)

  predicate IsRetryableStatusCode(code: int) {
    code == 429 || code == 403
  }

  /** The status a run of actions settles on: the first action decides, an early write
      standing for 200, and later headers are ignored. */
  function StatusOf(actions: seq<Action>): StatusCode {
    if actions == [] then 200
    else match actions[0]
         case WriteHeader(code) => code
         case Write(_) => 200
  }

  function BodyOf(actions: seq<Action>): string {
    if actions == [] then ""
    else BodyOf(actions[..|actions|-1]) +
         match actions[|actions|-1]
         case WriteHeader(_) => ""
         case Write(data) => data
  }

  /** Whether the client may see these actions as they happen. */
  predicate PassesThrough(actions: seq<Action>) {
    actions != [] && !IsRetryableStatusCode(StatusOf(actions))
  }

  /** The client's connection: status lines sent, and body bytes sent. */
  class ClientWriter {
    var statuses: seq<int>
    var body: string

    constructor ()
      ensures statuses == [] && body == ""
    {
      statuses, body := [], "";
    }

    method WriteHeader(code: int)
      modifies this`statuses
      ensures statuses == old(statuses) + [code]
    {
      statuses := statuses + [code];
    }

    method Write(data: string)
      modifies this`body
      ensures body == old(body) + data
    {
      body := body + data;
    }

    /** The handler has returned: without a status line, net/http sends 200. */
    method Finish()
      modifies this`statuses
      ensures statuses == if old(statuses) == [] then [200] else old(statuses)
    {
      if statuses == [] {
        statuses := [200];
      }
    }
  }

  class PeekWriter {
    const client: ClientWriter
    var body: string
    var statusCode: int
    var committed: bool
    var wroteHeader: bool
    var is429: bool
    // Every action received, and what the client had before this writer existed.
    ghost var actions: seq<Action>
    ghost const statusesBefore: seq<int>
    ghost const bodyBefore: string

    /** Once committed, the client has exactly one status line and exactly the bytes
        written; before, it has nothing and the bytes are held. */
    ghost predicate Valid()
      reads this, client
    {
      if committed then
        && actions != []
        && client.statuses == statusesBefore + [StatusOf(actions)]
        && client.body == bodyBefore + BodyOf(actions)
      else
        && !PassesThrough(actions)
        && body == BodyOf(actions)
        && (wroteHeader <==> actions != [])
        && (is429 <==> actions != [])
        && statusCode == (if actions == [] then 0 else StatusOf(actions))
        && client.statuses == statusesBefore
        && client.body == bodyBefore
    }

    constructor (client: ClientWriter)
      ensures Valid() && this.client == client && actions == [] && !committed
      ensures statusesBefore == client.statuses && bodyBefore == client.body
    {
      this.client := client;
      body, statusCode, committed, wroteHeader, is429 := "", 0, false, false, false;
      actions, statusesBefore, bodyBefore := [], client.statuses, client.body;
    }

    method WriteHeader(code: StatusCode)
      requires Valid()
      modifies this, client
      ensures Valid() && actions == old(actions) + [Action.WriteHeader(code)]
      ensures committed <==> old(committed) || (old(actions) == [] && code != 429 && code != 403)
      ensures client.statuses == old(client.statuses) + if committed && !old(committed) then [code] else []
      ensures client.body == old(client.body)
    {
      BodySnoc(actions, Action.WriteHeader(code));
      StatusSnoc(actions, Action.WriteHeader(code));
      actions := actions + [Action.WriteHeader(code)];
      if wroteHeader {
        return;
      }
      wroteHeader := true;
      statusCode := code;
      if IsRetryableStatusCode(code) {
        is429 := true;
        return;
      }
      Commit();
    }

    method Write(data: string)
      requires Valid()
      modifies this, client
      ensures Valid() && actions == old(actions) + [Action.Write(data)]
      ensures committed <==> old(committed) || old(actions) == []
      ensures client.statuses == old(client.statuses) + if committed && !old(committed) then [200] else []
      ensures client.body == old(client.body) + if committed then data else ""
    {
      BodySnoc(actions, Action.Write(data));
      StatusSnoc(actions, Action.Write(data));
      actions := actions + [Action.Write(data)];
      if committed {
        client.Write(data);
        return;
      }
      if statusCode == 0 {
        statusCode := 200;
        Commit();
        client.Write(data);
        return;
      }
      body := body + data;
    }

    /** Sends what is held, once. */
    method Commit()
      modifies this`body, this`committed, client
      ensures committed
      ensures old(committed) ==> body == old(body) && client.statuses == old(client.statuses) && client.body == old(client.body)
      ensures !old(committed) ==>
                && client.statuses == old(client.statuses) + [if statusCode == 0 then 200 else statusCode]
                && client.body == old(client.body) + old(body)
    {
      if committed {
        return;
      }
      var code := if statusCode == 0 then 200 else statusCode;
      client.WriteHeader(code);
      if |body| > 0 {
        client.Write(body);
        body := "";
      }
      committed := true;
    }

    /** Hands the held answer to the client when all retries are spent. */
    method FlushBuffered429()
      requires Valid()
      modifies this, client
      ensures Valid() && actions == old(actions)
      ensures committed <==> actions != []
    {
      if committed || !is429 {
        return;
      }
      Commit();
    }

    /** The reverse proxy playing a backend's answer into this writer. */
    method Serve(script: seq<Action>)
      requires Valid() && actions == [] && !committed
      modifies this, client
      ensures Valid() && actions == script
      ensures committed <==> script != [] && (script[0].Write? || (script[0].code != 429 && script[0].code != 403))
    {
      var i := 0;
      while i < |script|
        invariant 0 <= i <= |script|
        invariant Valid() && actions == script[..i]
        invariant committed <==> PassesThrough(script[..i])
      {
        assert script[..i + 1] == script[..i] + [script[i]];
        match script[i] {
          case WriteHeader(code) => WriteHeader(code);
          case Write(data) => Write(data);
        }
        if i > 0 {
          StatusSnoc(script[..i], script[i]);
        }
        i := i + 1;
      }
      assert script[..|script|] == script;
    }
  }

  lemma BodySnoc(actions: seq<Action>, a: Action)
    ensures BodyOf(actions + [a]) == BodyOf(actions) + (if a.Write? then a.data else "")
  {
    assert (actions + [a])[..|actions|] == actions;
  }

  lemma StatusSnoc(actions: seq<Action>, a: Action)
    ensures actions != [] ==> StatusOf(actions + [a]) == StatusOf(actions)
    ensures actions != [] ==> PassesThrough(actions + [a]) == PassesThrough(actions)
  {
  }
}
