/**
 * The `/board` message board of main.ts: one HTTP handler that either forwards a
 * request to the page renderer or reads/updates a single message held in a
 * key/value store under the key `["current_message"]`.
 *
 * `Handle` is the specification: given the request, whether a store handle was
 * opened at start-up and the store's current entries, it gives the response and
 * the store operations the handler performs. `BoardServer.Serve` is the handler
 * itself, updating the store in place, and is proved to follow `Handle`.
 */
module Board {
  import opened Wrappers
  import JsString

  type Key = seq<string>

  /** The one store slot the board uses. */
  const MessageKey: Key := ["current_message"]

  const BoardPath := "/board"
  const NoStoreBody := "KVなし"
  const DefaultMessage := "メッセージはありません"

  /** Plain text, and no cache may keep it (RFC 9111 sections 5.2.2.2, 5.2.2.4,
      5.2.2.5 for Cache-Control; 5.4 Pragma; 5.3 Expires). */
  const ReadHeaders: seq<(string, string)> := [
    ("Content-Type", "text/plain; charset=utf-8"),
    ("Cache-Control", "no-cache, no-store, must-revalidate"),
    ("Pragma", "no-cache"),
    ("Expires", "0")
  ]

  /** The parts of an incoming request the handler looks at: the URL's origin and
      path, the method (`verb`), and the first `txt` query value if there is one. */
  datatype Request = Request(origin: string, path: string, verb: string, txt: Option<string>)

  datatype Response =
    | Forwarded(request: Request)                          // handed unchanged to the page renderer
    | Text(body: string, headers: seq<(string, string)>)   // 200 with a plain-text body
    | Redirect(status: nat, location: string)              // RFC 9110 section 15.4.3, Location header
    | Diagnostic(body: string)                             // 200 with the bare diagnostic body

  datatype StoreOp = Get(key: Key) | Set(key: Key, value: string)

  /** What one request does: its response and the store operations, in order. */
  datatype Step = Step(response: Response, ops: seq<StoreOp>)

  function Lookup(entries: map<Key, string>, key: Key): Option<string>
  {
    if key in entries then Some(entries[key]) else None
  }

  /** The store after performing `ops` on `entries`; a `Get` changes nothing. */
  function Apply(entries: map<Key, string>, ops: seq<StoreOp>): map<Key, string>
    decreases |ops|
  {
    if ops == [] then entries
    else
      var next := match ops[0]
        case Get(_) => entries
        case Set(k, v) => entries[k := v];
      Apply(next, ops[1..])
  }

  /** The handler of main.ts as a function of the request, of whether a store handle
      exists and of the store's entries. Every operation it performs is on
      `MessageKey`, and it performs at most one. */
  function Handle(req: Request, kvOpen: bool, entries: map<Key, string>): (s: Step)
    ensures |s.ops| <= 1
    ensures forall op :: op in s.ops ==> op.key == MessageKey
  {
    if req.path != BoardPath then
      Step(Forwarded(req), [])
    else if !kvOpen then
      Step(Diagnostic(NoStoreBody), [])
    else if req.txt.Some? && req.verb == "GET" then
      var trimmed := JsString.Trim(req.txt.value);
      Step(Redirect(302, req.origin + BoardPath), if trimmed != [] then [Set(MessageKey, trimmed)] else [])
    else
      Step(Text(Lookup(entries, MessageKey).GetOr(DefaultMessage), ReadHeaders), [Get(MessageKey)])
  }

  /** The store invariant the handler keeps: a stored message is non-empty and has
      no whitespace at either end. */
  predicate WellFormed(entries: map<Key, string>)
  {
    MessageKey in entries ==> entries[MessageKey] != [] && JsString.Trimmed(entries[MessageKey])
  }

  /** The request is one that writes: `GET /board` with a `txt` that is not blank,
      while a store handle exists. */
  predicate Writes(req: Request, kvOpen: bool)
  {
    && req.path == BoardPath && kvOpen && req.verb == "GET"
    && req.txt.Some? && JsString.Trim(req.txt.value) != []
  }

  // ---- One request ----

  /** Any path other than exactly `/board` is forwarded as it is and the store is
      neither read nor written. */
  lemma OtherPathsForwarded(req: Request, kvOpen: bool, entries: map<Key, string>)
    requires req.path != BoardPath
    ensures Handle(req, kvOpen, entries).response == Forwarded(req)
    ensures Handle(req, kvOpen, entries).ops == []
  {
  }

  /** Without a store handle, `/board` answers the fixed diagnostic text for every
      method and query, and no store operation happens. */
  lemma NoStoreShortCircuits(req: Request, entries: map<Key, string>)
    requires req.path == BoardPath
    ensures Handle(req, false, entries) == Step(Diagnostic(NoStoreBody), [])
  {
  }

  /** A `GET /board` with `txt` present always redirects with 302 to the board's own
      URL, and the store afterwards holds `trim(txt)` when that is not empty and is
      unchanged when it is (`txt=""` and whitespace-only values included). */
  lemma UpdateRedirectsAndWritesTrimmed(req: Request, entries: map<Key, string>)
    requires req.path == BoardPath && req.verb == "GET" && req.txt.Some?
    ensures Handle(req, true, entries).response == Redirect(302, req.origin + "/board")
    ensures var after := Apply(entries, Handle(req, true, entries).ops);
      if JsString.Trim(req.txt.value) != [] then after == entries[MessageKey := JsString.Trim(req.txt.value)]
      else after == entries
  {
  }

  /** A whitespace-only `txt` is a no-op write: the store keeps its previous value. */
  lemma BlankUpdateKeepsMessage(req: Request, entries: map<Key, string>)
    requires req.path == BoardPath && req.verb == "GET" && req.txt.Some?
    requires forall k :: 0 <= k < |req.txt.value| ==> JsString.IsWhitespace(req.txt.value[k])
    ensures Apply(entries, Handle(req, true, entries).ops) == entries
  {
    JsString.TrimEmptyIff(req.txt.value);
  }

  /** Any other `/board` request with a store handle, including one with `txt` but a
      method other than GET, is a read: it answers the stored message, or the default
      text when there is none, with the no-cache headers, and leaves the store as it was. */
  lemma ReadAnswersStoredOrDefault(req: Request, entries: map<Key, string>)
    requires req.path == BoardPath && !(req.txt.Some? && req.verb == "GET")
    ensures Handle(req, true, entries).response ==
      Text(if MessageKey in entries then entries[MessageKey] else DefaultMessage, ReadHeaders)
    ensures Apply(entries, Handle(req, true, entries).ops) == entries
  {
  }

  /** While the invariant holds, a read never answers an empty body: it is either the
      stored (non-empty) message or the default text. */
  lemma WellFormedReadIsNeverEmpty(req: Request, entries: map<Key, string>)
    requires WellFormed(entries)
    requires req.path == BoardPath && !(req.txt.Some? && req.verb == "GET")
    ensures Handle(req, true, entries).response.Text?
    ensures Handle(req, true, entries).response.body != []
  {
  }

  /** Only a writing request changes the store, and then only the message slot,
      which it sets to the trimmed `txt`. */
  lemma StepChangesOnlyMessage(req: Request, kvOpen: bool, entries: map<Key, string>)
    ensures var after := Apply(entries, Handle(req, kvOpen, entries).ops);
      if Writes(req, kvOpen) then after == entries[MessageKey := JsString.Trim(req.txt.value)]
      else after == entries
  {
    var ops := Handle(req, kvOpen, entries).ops;
    if Writes(req, kvOpen) {
      assert ops == [Set(MessageKey, JsString.Trim(req.txt.value))];
    } else {
      assert forall op :: op in ops ==> op.Get?;
    }
  }

  /** Every request keeps the store invariant. */
  lemma StepPreservesWellFormed(req: Request, kvOpen: bool, entries: map<Key, string>)
    requires WellFormed(entries)
    ensures WellFormed(Apply(entries, Handle(req, kvOpen, entries).ops))
  {
  }

  // ---- Sequences of requests ----

  /** The store after serving `reqs` one after the other. */
  function Run(reqs: seq<Request>, kvOpen: bool, entries: map<Key, string>): map<Key, string>
  {
    if reqs == [] then entries
    else Run(reqs[1..], kvOpen, Apply(entries, Handle(reqs[0], kvOpen, entries).ops))
  }

  /** The trimmed `txt` of the last writing request in `reqs`, if there is one. */
  function LastWrite(reqs: seq<Request>, kvOpen: bool): Option<string>
  {
    if reqs == [] then None
    else if Writes(reqs[|reqs| - 1], kvOpen) then Some(JsString.Trim(reqs[|reqs| - 1].txt.value))
    else LastWrite(reqs[..|reqs| - 1], kvOpen)
  }

  /** Last write wins: after any sequence of requests the message slot holds the
      trimmed text of the last writing request, or what it held before when none
      wrote; every other key is untouched. */
  lemma {:induction false} RunLastWriteWins(reqs: seq<Request>, kvOpen: bool, entries: map<Key, string>)
    ensures var after := Run(reqs, kvOpen, entries);
      && Lookup(after, MessageKey) == (if LastWrite(reqs, kvOpen).Some? then LastWrite(reqs, kvOpen) else Lookup(entries, MessageKey))
      && forall k :: k != MessageKey ==> Lookup(after, k) == Lookup(entries, k)
  {
    if reqs != [] {
      var init, last := reqs[..|reqs| - 1], reqs[|reqs| - 1];
      RunSnoc(init, last, kvOpen, entries);
      assert reqs == init + [last];
      RunLastWriteWins(init, kvOpen, entries);
      StepChangesOnlyMessage(last, kvOpen, Run(init, kvOpen, entries));
    }
  }

  /** Serving `init` and then `last` is serving `init + [last]`. */
  lemma {:induction false} RunSnoc(init: seq<Request>, last: Request, kvOpen: bool, entries: map<Key, string>)
    ensures var mid := Run(init, kvOpen, entries);
      Run(init + [last], kvOpen, entries) == Apply(mid, Handle(last, kvOpen, mid).ops)
  {
    if init != [] {
      var next := Apply(entries, Handle(init[0], kvOpen, entries).ops);
      assert (init + [last])[1..] == init[1..] + [last];
      RunSnoc(init[1..], last, kvOpen, next);
    }
  }

  /** Any sequence of requests keeps the store invariant. */
  lemma {:induction false} RunPreservesWellFormed(reqs: seq<Request>, kvOpen: bool, entries: map<Key, string>)
    requires WellFormed(entries)
    ensures WellFormed(Run(reqs, kvOpen, entries))
  {
    if reqs != [] {
      StepPreservesWellFormed(reqs[0], kvOpen, entries);
      RunPreservesWellFormed(reqs[1..], kvOpen, Apply(entries, Handle(reqs[0], kvOpen, entries).ops));
    }
  }

  /** Write then read: after `GET /board?txt=S` with S not blank, a read answers trim(S). */
  lemma WriteThenRead(write: Request, read: Request, entries: map<Key, string>)
    requires Writes(write, true)
    requires read.path == BoardPath && read.txt.None?
    ensures var after := Apply(entries, Handle(write, true, entries).ops);
      Handle(read, true, after).response == Text(JsString.Trim(write.txt.value), ReadHeaders)
  {
  }

  // ---- The handler, updating the store in place ----

  class BoardServer {
    /** Whether `Deno.openKv` was available at start-up (`kv` is not null). */
    const kvOpen: bool
    /** The key/value store's entries. */
    var entries: map<Key, string>

    ghost predicate Valid()
      reads this
    {
      WellFormed(entries)
    }

    constructor (kvOpen: bool, entries: map<Key, string>)
      requires WellFormed(entries)
      ensures Valid() && this.kvOpen == kvOpen && this.entries == entries
    {
      this.kvOpen := kvOpen;
      this.entries := entries;
    }

    /** `handler(req)`: answers the request and performs its store operations. */
    method Serve(req: Request) returns (resp: Response)
      requires Valid()
      modifies this
      ensures Valid()
      ensures resp == Handle(req, kvOpen, old(entries)).response
      ensures entries == Apply(old(entries), Handle(req, kvOpen, old(entries)).ops)
    {
      if req.path != BoardPath {
        return Forwarded(req);
      }
      if !kvOpen {
        return Diagnostic(NoStoreBody);
      }
      if req.txt.Some? && req.verb == "GET" {
        var trimmed := JsString.Trim(req.txt.value);
        if trimmed != [] {
          entries := entries[MessageKey := trimmed];
        }
        return Redirect(302, req.origin + BoardPath);
      }
      var current := if MessageKey in entries then Some(entries[MessageKey]) else None;
      return Text(current.GetOr(DefaultMessage), ReadHeaders);
    }
  }
}
