/** The extension's background worker (public/background.js): the URL
    prefix filter, the two 10-entry histories, the pending-request table fed
    by debugger events, the connected panels and the debugger bookkeeping.
    Every callback of a `chrome.*` call is an explicit method that may run
    once for each outstanding call; every message sent to a panel port is
    appended to `outbox`. */
module Background {
  import opened Base

  const MaxItems: nat := 10
  /** Pending requests older than this many milliseconds are dropped. */
  const StaleAfter: int := 60000

  // ============================================================ values

  /** `shouldIgnoreUrl`'s prefixes. */
  const IgnoredPrefixes: seq<string> := ["chrome-extension://", "chrome://", "moz-extension://", "data:", "blob:"]

  /** `shouldIgnoreUrl`: an empty URL, and URLs of the browser, of
      extensions and of inline data, are ignored. */
  function ShouldIgnoreUrl(url: Option<string>): (ignore: bool)
    ensures ignore <==> !Truthy(url) || exists p | p in IgnoredPrefixes :: StartsWith(url.value, p)
  {
    if !Truthy(url) then true
    else if StartsWith(url.value, "chrome-extension://") then true
    else if StartsWith(url.value, "chrome://") then true
    else if StartsWith(url.value, "moz-extension://") then true
    else if StartsWith(url.value, "data:") then true
    else if StartsWith(url.value, "blob:") then true
    else false
  }

  /** `parts.join(sep)`. */
  function Join(parts: seq<string>, sep: string): string {
    if parts == [] then ""
    else if |parts| == 1 then parts[0]
    else parts[0] + sep + Join(parts[1..], sep)
  }

  /** Text found in one part is found in the joined text. */
  lemma {:induction false} JoinContainsPart(parts: seq<string>, sep: string, i: nat, sub: string)
    requires i < |parts| && Contains(parts[i], sub)
    ensures Contains(Join(parts, sep), sub)
  {
    if |parts| == 1 {
    } else if i == 0 {
      ContainsExtended(parts[0], sub, "", sep + Join(parts[1..], sep));
      assert "" + parts[0] + (sep + Join(parts[1..], sep)) == Join(parts, sep);
    } else {
      JoinContainsPart(parts[1..], sep, i - 1, sub);
      ContainsExtended(Join(parts[1..], sep), sub, parts[0] + sep, "");
      assert parts[0] + sep + Join(parts[1..], sep) + "" == Join(parts, sep);
    }
  }

  /** A console message relayed by the content script. */
  datatype ConsoleRecord = ConsoleRecord(level: string, payload: Option<seq<string>>, timestamp: string)

  /** The relayed message mentions extension code: `(payload || []).join(' ')`
      contains `chrome-extension://`. */
  predicate ExtensionNoise(rec: ConsoleRecord) {
    var parts := if rec.payload.Some? then rec.payload.value else [];
    Contains(Join(parts, " "), "chrome-extension://")
  }

  /** One payload part naming extension code is enough to drop a message. */
  lemma NoiseFromAnyPart(rec: ConsoleRecord, i: nat)
    requires rec.payload.Some? && i < |rec.payload.value|
    requires Contains(rec.payload.value[i], "chrome-extension://")
    ensures ExtensionNoise(rec)
  {
    JoinContainsPart(rec.payload.value, " ", i, "chrome-extension://");
  }

  /** A `pendingRequests` entry; `timestamp` is the ISO time of the request
      as milliseconds. */
  datatype Pending = Pending(url: string, httpMethod: string, payload: Option<string>,
                             timestamp: int, tabId: nat,
                             statusCode: Option<int>, mimeType: Option<string>)

  /** A finished request as stored and broadcast. */
  datatype NetworkRecord = NetworkRecord(url: string, httpMethod: string, statusCode: int,
                                         payload: Option<string>, response: Option<string>,
                                         timestamp: int)

  /** The answer of `Network.getResponseBody`. */
  datatype BodyResponse = BodyResponse(body: string, base64Encoded: bool)

  function ResponseText(response: Option<BodyResponse>, atob: string -> string): (text: Option<string>)
    ensures response.None? ==> text.None?
    ensures response.Some? && !response.value.base64Encoded ==> text == Some(response.value.body)
  {
    if response.None? then None
    else if response.value.base64Encoded then Some(atob(response.value.body))
    else Some(response.value.body)
  }

  /** The record built in the body callback; a missing or zero status is 0. */
  function NetworkRecordOf(info: Pending, response: Option<string>): (r: NetworkRecord)
    ensures r.url == info.url && r.httpMethod == info.httpMethod && r.payload == info.payload
    ensures r.response == response && r.timestamp == info.timestamp
    ensures r.statusCode == (if info.statusCode.Some? then info.statusCode.value else 0)
  {
    NetworkRecord(info.url, info.httpMethod,
                  if info.statusCode.Some? && info.statusCode.value != 0 then info.statusCode.value else 0,
                  info.payload, response, info.timestamp)
  }

  /** The debugger events the listener reacts to. */
  datatype DebuggerEvent =
    | RequestWillBeSent(requestId: string, url: Option<string>, httpMethod: string,
                        postData: Option<string>, resourceType: string)
    | ResponseReceived(requestId: string, status: int, mimeType: string)
    | LoadingFinished(requestId: string)
    | OtherEvent

  /** The entry `requestWillBeSent` records, if any. */
  function Recorded(ev: DebuggerEvent, tabId: nat, now: int): (p: Option<Pending>)
    requires ev.RequestWillBeSent?
    ensures p.Some? <==> !ShouldIgnoreUrl(ev.url) && ev.resourceType in {"XHR", "Fetch"}
    ensures p.Some? ==> p.value.url == ev.url.value && p.value.timestamp == now && p.value.tabId == tabId
                        && p.value.statusCode.None? && p.value.mimeType.None?
                        && p.value.payload == (if Truthy(ev.postData) then ev.postData else None)
  {
    if ShouldIgnoreUrl(ev.url) then None
    else if ev.resourceType != "XHR" && ev.resourceType != "Fetch" then None
    else Some(Pending(ev.url.value, ev.httpMethod, if Truthy(ev.postData) then ev.postData else None,
                      now, tabId, None, None))
  }

  predicate Stale(p: Pending, now: int) {
    now - p.timestamp > StaleAfter
  }

  /** The table after the periodic cleanup: exactly the entries that are
      not stale remain. */
  function WithoutStale(pending: map<string, Pending>, now: int): (r: map<string, Pending>)
    ensures forall k :: k in r <==> k in pending && !Stale(pending[k], now)
    ensures forall k :: k in r ==> r[k] == pending[k]
  {
    map k | k in pending && !Stale(pending[k], now) :: pending[k]
  }

  /** Deleting the key spelt like a tab id leaves every request whose id
      contains a `.` in place: tab removal does not clean up such requests. */
  lemma TabKeyMissesDottedIds(pending: map<string, Pending>, tabId: nat)
    requires forall k :: k in pending ==> '.' in k
    ensures pending - {NatToString(tabId)} == pending
  {
    var key := NatToString(tabId);
    forall i | 0 <= i < |key| ensures key[i] != '.' {
      assert IsDigit(key[i]);
    }
    assert key !in pending;
  }

  // ========================================================= panel ports

  type PortId = nat

  /** A connected port: its identity and its `name`. */
  datatype Port = Port(id: PortId, name: string)

  /** A message from a panel on its port. */
  datatype PortMessage = PortMessage(name: string, tabId: Option<string>)

  /** The messages sent to panels. */
  datatype Outgoing =
    | ConsoleOut(rec: ConsoleRecord)
    | NetworkOut(req: NetworkRecord)
    | AllData(logs: seq<ConsoleRecord>, requests: seq<NetworkRecord>)

  datatype Delivery = Delivery(port: PortId, msg: Outgoing)

  /** `Object.keys(connections)` lists each key once, and exactly the keys
      of the table. */
  predicate KeysMatch(keys: seq<string>, conns: map<string, PortId>) {
    && (forall i, j :: 0 <= i < j < |keys| ==> keys[i] != keys[j])
    && (forall k :: k in keys ==> k in conns)
    && (forall k :: k in conns ==> k in keys)
  }

  /** `broadcast`: one delivery per connection, in key order. */
  function BroadcastTo(keys: seq<string>, conns: map<string, PortId>, msg: Outgoing): (out: seq<Delivery>)
    requires forall k :: k in keys ==> k in conns
    ensures |out| == |keys|
    ensures forall i :: 0 <= i < |keys| ==> out[i] == Delivery(conns[keys[i]], msg)
  {
    seq(|keys|, i requires 0 <= i < |keys| => Delivery(conns[keys[i]], msg))
  }

  /** The position of the first key, from `from` on, whose port is `port`. */
  function FirstKeyFor(keys: seq<string>, conns: map<string, PortId>, port: PortId, from: nat): (i: Option<nat>)
    requires from <= |keys|
    requires forall k :: k in keys ==> k in conns
    ensures i.Some? ==> && from <= i.value < |keys| && conns[keys[i.value]] == port
                        && forall j :: from <= j < i.value ==> conns[keys[j]] != port
    ensures i.None? ==> forall j :: from <= j < |keys| ==> conns[keys[j]] != port
    decreases |keys| - from
  {
    if from == |keys| then None
    else if conns[keys[from]] == port then Some(from)
    else FirstKeyFor(keys, conns, port, from + 1)
  }

  /** One outstanding `chrome.debugger.getResponseBody` call and what its
      callback captured. */
  datatype BodyFetch = BodyFetch(requestId: string, tabId: nat, info: Pending)

  // ============================================================== state

  class BackgroundState {
    var consoleLogs: seq<ConsoleRecord>
    var networkRequests: seq<NetworkRecord>
    /** `connections`, with its keys in enumeration order. */
    var connectionKeys: seq<string>
    var connections: map<string, PortId>
    /** `debuggedTabs`, keyed by the tab id's property-name text. */
    var debuggedTabs: set<string>
    var attachesInFlight: seq<string>
    var detachesInFlight: seq<string>
    var pendingRequests: map<string, Pending>
    var bodyFetches: seq<BodyFetch>
    var outbox: seq<Delivery>

    /** The histories are bounded, the connection keys are consistent,
        ignored URLs never reach the request table or the network history,
        and extension noise never reaches the console history. */
    predicate Valid()
      reads this
    {
      && |consoleLogs| <= MaxItems
      && |networkRequests| <= MaxItems
      && KeysMatch(connectionKeys, connections)
      && (forall k :: k in pendingRequests ==> !ShouldIgnoreUrl(Some(pendingRequests[k].url)))
      && (forall f :: f in bodyFetches ==> !ShouldIgnoreUrl(Some(f.info.url)))
      && (forall r :: r in networkRequests ==> !ShouldIgnoreUrl(Some(r.url)))
      && (forall c :: c in consoleLogs ==> !ExtensionNoise(c))
    }

    constructor ()
      ensures Valid()
      ensures consoleLogs == [] && networkRequests == [] && connectionKeys == [] && connections == map[]
      ensures debuggedTabs == {} && attachesInFlight == [] && detachesInFlight == []
      ensures pendingRequests == map[] && bodyFetches == [] && outbox == []
    {
      consoleLogs, networkRequests := [], [];
      connectionKeys, connections := [], map[];
      debuggedTabs, attachesInFlight, detachesInFlight := {}, [], [];
      pendingRequests, bodyFetches := map[], [];
      outbox := [];
    }

    method Broadcast(msg: Outgoing)
      requires KeysMatch(connectionKeys, connections)
      modifies this
      ensures connectionKeys == old(connectionKeys) && connections == old(connections)
      ensures outbox == old(outbox) + BroadcastTo(connectionKeys, connections, msg)
      ensures consoleLogs == old(consoleLogs) && networkRequests == old(networkRequests)
      ensures debuggedTabs == old(debuggedTabs) && attachesInFlight == old(attachesInFlight)
      ensures detachesInFlight == old(detachesInFlight)
      ensures pendingRequests == old(pendingRequests) && bodyFetches == old(bodyFetches)
    {
      outbox := outbox + BroadcastTo(connectionKeys, connections, msg);
    }

    /** `attachDebugger`: a tab already attached is left alone; otherwise an
        attach call is issued. */
    method AttachDebugger(tabKey: string)
      modifies this
      ensures attachesInFlight == old(attachesInFlight) + (if tabKey in old(debuggedTabs) then [] else [tabKey])
      ensures consoleLogs == old(consoleLogs) && networkRequests == old(networkRequests)
      ensures connectionKeys == old(connectionKeys) && connections == old(connections)
      ensures debuggedTabs == old(debuggedTabs) && detachesInFlight == old(detachesInFlight)
      ensures pendingRequests == old(pendingRequests) && bodyFetches == old(bodyFetches)
      ensures outbox == old(outbox)
    {
      if tabKey in debuggedTabs {
        return;
      }
      attachesInFlight := attachesInFlight + [tabKey];
    }

    /** The callback of the attach call at position `k`: on success the tab
        is marked as debugged. */
    method AttachCompleted(k: nat, failed: bool)
      requires k < |attachesInFlight|
      modifies this
      ensures debuggedTabs == if failed then old(debuggedTabs) else old(debuggedTabs) + {old(attachesInFlight)[k]}
      ensures attachesInFlight == old(attachesInFlight)[..k] + old(attachesInFlight)[k + 1..]
      ensures consoleLogs == old(consoleLogs) && networkRequests == old(networkRequests)
      ensures connectionKeys == old(connectionKeys) && connections == old(connections)
      ensures detachesInFlight == old(detachesInFlight)
      ensures pendingRequests == old(pendingRequests) && bodyFetches == old(bodyFetches)
      ensures outbox == old(outbox)
    {
      var tabKey := attachesInFlight[k];
      attachesInFlight := attachesInFlight[..k] + attachesInFlight[k + 1..];
      if failed {
        return;
      }
      debuggedTabs := debuggedTabs + {tabKey};
    }

    /** `detachDebugger`: only an attached tab gets a detach call. */
    method DetachDebugger(tabKey: string)
      modifies this
      ensures detachesInFlight == old(detachesInFlight) + (if tabKey in old(debuggedTabs) then [tabKey] else [])
      ensures consoleLogs == old(consoleLogs) && networkRequests == old(networkRequests)
      ensures connectionKeys == old(connectionKeys) && connections == old(connections)
      ensures debuggedTabs == old(debuggedTabs) && attachesInFlight == old(attachesInFlight)
      ensures pendingRequests == old(pendingRequests) && bodyFetches == old(bodyFetches)
      ensures outbox == old(outbox)
    {
      if tabKey !in debuggedTabs {
        return;
      }
      detachesInFlight := detachesInFlight + [tabKey];
    }

    /** The callback of the detach call at position `k`. */
    method DetachCompleted(k: nat)
      requires k < |detachesInFlight|
      modifies this
      ensures debuggedTabs == old(debuggedTabs) - {old(detachesInFlight)[k]}
      ensures detachesInFlight == old(detachesInFlight)[..k] + old(detachesInFlight)[k + 1..]
      ensures consoleLogs == old(consoleLogs) && networkRequests == old(networkRequests)
      ensures connectionKeys == old(connectionKeys) && connections == old(connections)
      ensures attachesInFlight == old(attachesInFlight)
      ensures pendingRequests == old(pendingRequests) && bodyFetches == old(bodyFetches)
      ensures outbox == old(outbox)
    {
      var tabKey := detachesInFlight[k];
      detachesInFlight := detachesInFlight[..k] + detachesInFlight[k + 1..];
      debuggedTabs := debuggedTabs - {tabKey};
    }

    /** The debugger event listener for an event from tab `tabId` at `now`. */
    method OnDebuggerEvent(tabId: nat, ev: DebuggerEvent, now: int)
      requires Valid()
      modifies this
      ensures Valid()
      ensures ev.RequestWillBeSent? ==>
                && bodyFetches == old(bodyFetches)
                && pendingRequests == (var p := Recorded(ev, tabId, now);
                                       if p.None? then old(pendingRequests)
                                       else old(pendingRequests)[ev.requestId := p.value])
      ensures ev.ResponseReceived? ==>
                && bodyFetches == old(bodyFetches)
                && pendingRequests == (if ev.requestId !in old(pendingRequests) then old(pendingRequests)
                                       else old(pendingRequests)[ev.requestId :=
                                              old(pendingRequests)[ev.requestId].(statusCode := Some(ev.status),
                                                                                  mimeType := Some(ev.mimeType))])
      ensures ev.LoadingFinished? ==>
                && pendingRequests == old(pendingRequests)
                && bodyFetches == old(bodyFetches) +
                     (if ev.requestId in old(pendingRequests)
                      then [BodyFetch(ev.requestId, tabId, old(pendingRequests)[ev.requestId])] else [])
      ensures ev.OtherEvent? ==> pendingRequests == old(pendingRequests) && bodyFetches == old(bodyFetches)
      ensures consoleLogs == old(consoleLogs) && networkRequests == old(networkRequests)
      ensures connectionKeys == old(connectionKeys) && connections == old(connections)
      ensures debuggedTabs == old(debuggedTabs) && attachesInFlight == old(attachesInFlight)
      ensures detachesInFlight == old(detachesInFlight) && outbox == old(outbox)
    {
      match ev
      case RequestWillBeSent(requestId, url, httpMethod, postData, resourceType) =>
        if ShouldIgnoreUrl(url) {
          return;
        }
        if resourceType != "XHR" && resourceType != "Fetch" {
          return;
        }
        var payload := if Truthy(postData) then postData else None;
        pendingRequests := pendingRequests[requestId := Pending(url.value, httpMethod, payload, now, tabId, None, None)];
      case ResponseReceived(requestId, status, mimeType) =>
        if requestId !in pendingRequests {
          return;
        }
        var reqInfo := pendingRequests[requestId];
        pendingRequests := pendingRequests[requestId := reqInfo.(statusCode := Some(status), mimeType := Some(mimeType))];
      case LoadingFinished(requestId) =>
        if requestId !in pendingRequests {
          return;
        }
        bodyFetches := bodyFetches + [BodyFetch(requestId, tabId, pendingRequests[requestId])];
      case OtherEvent =>
    }

    /** The callback of the body fetch at position `k`: the request is
        recorded in the bounded history, broadcast, and dropped from the
        pending table. */
    method BodyArrived(k: nat, response: Option<BodyResponse>, atob: string -> string)
      requires Valid() && k < |bodyFetches|
      modifies this
      ensures Valid()
      ensures var f := old(bodyFetches)[k];
              var rec := NetworkRecordOf(f.info, ResponseText(response, atob));
              && networkRequests == LastN(old(networkRequests) + [rec], MaxItems)
              && outbox == old(outbox) + BroadcastTo(connectionKeys, connections, NetworkOut(rec))
              && pendingRequests == old(pendingRequests) - {f.requestId}
      ensures bodyFetches == old(bodyFetches)[..k] + old(bodyFetches)[k + 1..]
      ensures consoleLogs == old(consoleLogs)
      ensures connectionKeys == old(connectionKeys) && connections == old(connections)
      ensures debuggedTabs == old(debuggedTabs) && attachesInFlight == old(attachesInFlight)
      ensures detachesInFlight == old(detachesInFlight)
    {
      var f := bodyFetches[k];
      var rec := NetworkRecordOf(f.info, ResponseText(response, atob));
      assert f in bodyFetches;
      PushShiftKeepsLatest(networkRequests, rec, MaxItems);
      networkRequests := networkRequests + [rec];
      if |networkRequests| > MaxItems {
        networkRequests := networkRequests[1..];
      }
      Broadcast(NetworkOut(rec));
      pendingRequests := pendingRequests - {f.requestId};
      bodyFetches := bodyFetches[..k] + bodyFetches[k + 1..];
    }

    /** The tab-removal listener: the tab is detached, and the pending
        entry whose key is the tab id's text is deleted. */
    method TabRemoved(tabId: nat)
      requires Valid()
      modifies this
      ensures Valid()
      ensures detachesInFlight == old(detachesInFlight) + (if NatToString(tabId) in old(debuggedTabs) then [NatToString(tabId)] else [])
      ensures pendingRequests == old(pendingRequests) - {NatToString(tabId)}
      ensures consoleLogs == old(consoleLogs) && networkRequests == old(networkRequests)
      ensures connectionKeys == old(connectionKeys) && connections == old(connections)
      ensures debuggedTabs == old(debuggedTabs) && attachesInFlight == old(attachesInFlight)
      ensures bodyFetches == old(bodyFetches) && outbox == old(outbox)
    {
      DetachDebugger(NatToString(tabId));
      pendingRequests := pendingRequests - {NatToString(tabId)};
    }

    /** A message from a panel: `init` registers the port under the tab id
        (or the port name) and attaches to a real tab, `attachDebugger`
        attaches, and `getAll` replies with both histories. */
    method OnPortMessage(port: Port, msg: PortMessage)
      requires Valid()
      modifies this
      ensures Valid()
      ensures msg.name == "init" ==>
                var key := OrElse(msg.tabId, port.name);
                && connections == old(connections)[key := port.id]
                && connectionKeys == old(connectionKeys) + (if key in old(connections) then [] else [key])
                && attachesInFlight == old(attachesInFlight) +
                     (if Truthy(msg.tabId) && msg.tabId.value != "popup" && msg.tabId.value !in old(debuggedTabs)
                      then [msg.tabId.value] else [])
                && outbox == old(outbox)
      ensures msg.name == "attachDebugger" ==>
                && connections == old(connections) && connectionKeys == old(connectionKeys)
                && attachesInFlight == old(attachesInFlight) +
                     (if Truthy(msg.tabId) && msg.tabId.value !in old(debuggedTabs) then [msg.tabId.value] else [])
                && outbox == old(outbox)
      ensures msg.name == "getAll" ==>
                && connections == old(connections) && connectionKeys == old(connectionKeys)
                && attachesInFlight == old(attachesInFlight)
                && outbox == old(outbox) + [Delivery(port.id, AllData(consoleLogs, networkRequests))]
      ensures msg.name !in {"init", "attachDebugger", "getAll"} ==>
                && connections == old(connections) && connectionKeys == old(connectionKeys)
                && attachesInFlight == old(attachesInFlight) && outbox == old(outbox)
      ensures consoleLogs == old(consoleLogs) && networkRequests == old(networkRequests)
      ensures debuggedTabs == old(debuggedTabs) && detachesInFlight == old(detachesInFlight)
      ensures pendingRequests == old(pendingRequests) && bodyFetches == old(bodyFetches)
    {
      if msg.name == "init" {
        var key := OrElse(msg.tabId, port.name);
        if key !in connections {
          connectionKeys := connectionKeys + [key];
        }
        connections := connections[key := port.id];
        if Truthy(msg.tabId) && msg.tabId.value != "popup" {
          AttachDebugger(msg.tabId.value);
        }
      }
      if msg.name == "attachDebugger" && Truthy(msg.tabId) {
        AttachDebugger(msg.tabId.value);
      }
      if msg.name == "getAll" {
        outbox := outbox + [Delivery(port.id, AllData(consoleLogs, networkRequests))];
      }
    }

    /** The disconnect listener: the first key, in enumeration order, that
        maps to the port is removed; every other connection stays. */
    method OnDisconnect(port: PortId)
      requires Valid()
      modifies this
      ensures Valid()
      ensures var i := FirstKeyFor(old(connectionKeys), old(connections), port, 0);
              if i.None? then connectionKeys == old(connectionKeys) && connections == old(connections)
              else && connectionKeys == old(connectionKeys)[..i.value] + old(connectionKeys)[i.value + 1..]
                   && connections == old(connections) - {old(connectionKeys)[i.value]}
      ensures consoleLogs == old(consoleLogs) && networkRequests == old(networkRequests)
      ensures debuggedTabs == old(debuggedTabs) && attachesInFlight == old(attachesInFlight)
      ensures detachesInFlight == old(detachesInFlight)
      ensures pendingRequests == old(pendingRequests) && bodyFetches == old(bodyFetches)
      ensures outbox == old(outbox)
    {
      var keys := connectionKeys;
      var i := 0;
      while i < |keys|
        invariant 0 <= i <= |keys|
        invariant keys == connectionKeys == old(connectionKeys) && connections == old(connections)
        invariant FirstKeyFor(keys, connections, port, 0) == FirstKeyFor(keys, connections, port, i)
      {
        if connections[keys[i]] == port {
          RemoveKeyKeepsMatch(keys, connections, i);
          connections := connections - {keys[i]};
          connectionKeys := keys[..i] + keys[i + 1..];
          return;
        }
        i := i + 1;
      }
    }

    /** The console-message listener: a `console` message that is not
        extension noise is stored in the bounded history and broadcast. */
    method OnRuntimeMessage(kind: string, rec: ConsoleRecord)
      requires Valid()
      modifies this
      ensures Valid()
      ensures if kind == "console" && !ExtensionNoise(rec) then
                && consoleLogs == LastN(old(consoleLogs) + [rec], MaxItems)
                && outbox == old(outbox) + BroadcastTo(connectionKeys, connections, ConsoleOut(rec))
              else consoleLogs == old(consoleLogs) && outbox == old(outbox)
      ensures networkRequests == old(networkRequests)
      ensures connectionKeys == old(connectionKeys) && connections == old(connections)
      ensures debuggedTabs == old(debuggedTabs) && attachesInFlight == old(attachesInFlight)
      ensures detachesInFlight == old(detachesInFlight)
      ensures pendingRequests == old(pendingRequests) && bodyFetches == old(bodyFetches)
    {
      if kind != "console" {
        return;
      }
      var parts := if rec.payload.Some? then rec.payload.value else [];
      if Contains(Join(parts, " "), "chrome-extension://") {
        return;
      }
      assert !ExtensionNoise(rec);
      var logs := consoleLogs + [rec];
      PushShiftKeepsLatest(consoleLogs, rec, MaxItems);
      assert forall c :: c in logs ==> !ExtensionNoise(c);
      if |logs| > MaxItems {
        logs := logs[1..];
      }
      consoleLogs := logs;
      Broadcast(ConsoleOut(rec));
    }

    /** The periodic cleanup at `now`: one pass over the keys deleting the
        stale entries. */
    method CleanupStale(now: int)
      requires Valid()
      modifies this
      ensures Valid()
      ensures pendingRequests == WithoutStale(old(pendingRequests), now)
      ensures consoleLogs == old(consoleLogs) && networkRequests == old(networkRequests)
      ensures connectionKeys == old(connectionKeys) && connections == old(connections)
      ensures debuggedTabs == old(debuggedTabs) && attachesInFlight == old(attachesInFlight)
      ensures detachesInFlight == old(detachesInFlight)
      ensures bodyFetches == old(bodyFetches) && outbox == old(outbox)
    {
      var pending := pendingRequests;
      var todo := pending.Keys;
      while todo != {}
        invariant todo <= pendingRequests.Keys
        invariant pending == map k | k in pendingRequests && (k in todo || !Stale(pendingRequests[k], now)) :: pendingRequests[k]
        decreases |todo|
      {
        var key :| key in todo;
        if Stale(pending[key], now) {
          pending := pending - {key};
        }
        todo := todo - {key};
      }
      pendingRequests := pending;
    }
  }

  /** Removing the key at `i` keeps the key list and the table consistent. */
  lemma RemoveKeyKeepsMatch(keys: seq<string>, conns: map<string, PortId>, i: nat)
    requires KeysMatch(keys, conns) && i < |keys|
    ensures KeysMatch(keys[..i] + keys[i + 1..], conns - {keys[i]})
  {
    var rest := keys[..i] + keys[i + 1..];
    forall k | k in rest ensures k != keys[i] {
      var j :| 0 <= j < |rest| && rest[j] == k;
      if j < i {
        assert rest[j] == keys[j];
      } else {
        assert rest[j] == keys[j + 1];
      }
    }
    forall k | k in conns - {keys[i]} ensures k in rest {
      assert k in keys;
      var j :| 0 <= j < |keys| && keys[j] == k;
      if j < i {
        assert rest[j] == k;
      } else {
        assert rest[j - 1] == k;
      }
    }
    forall a, b | 0 <= a < b < |rest| ensures rest[a] != rest[b] {
      var a' := if a < i then a else a + 1;
      var b' := if b < i then b else b + 1;
      assert rest[a] == keys[a'] && rest[b] == keys[b'];
    }
  }
}
