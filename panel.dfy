/** The message reducer of the side panel (src/App.jsx): it keeps the last
    100 console messages and the last 100 network messages received from
    the background worker, and `allData` replaces both lists. */
module Panel {
  import opened Base

  const MaxKept: nat := 100

  /** A message on the panel's port. Console messages carry a `level`,
      network messages a `method` and a `statusCode`, and `allData`
      carries both lists. */
  datatype Msg = Msg(
    kind: string,
    level: Option<string>,
    httpMethod: Option<string>,
    statusCode: Option<int>,
    logs: Option<seq<Msg>>,
    requests: Option<seq<Msg>>)

  /** The panel's `logs` and `requests` state. */
  datatype View = View(logs: seq<Msg>, requests: seq<Msg>)

  predicate IsConsole(m: Msg) { m.kind == "console" }
  predicate IsNetwork(m: Msg) { m.kind == "network" }

  /** `messageListener`. */
  function Receive(v: View, msg: Msg): (w: View)
    ensures msg.kind == "console" ==>
              && w.requests == v.requests
              && SuffixOf(w.logs, v.logs + [msg])
              && |w.logs| == Min(|v.logs| + 1, MaxKept)
              && w.logs[|w.logs| - 1] == msg
    ensures msg.kind == "network" ==>
              && w.logs == v.logs
              && SuffixOf(w.requests, v.requests + [msg])
              && |w.requests| == Min(|v.requests| + 1, MaxKept)
              && w.requests[|w.requests| - 1] == msg
    ensures msg.kind == "allData" ==>
              && w.logs == (if msg.logs.Some? then msg.logs.value else [])
              && w.requests == (if msg.requests.Some? then msg.requests.value else [])
    ensures msg.kind !in {"console", "network", "allData"} ==> w == v
  {
    if msg.kind == "console" then v.(logs := LastN(v.logs + [msg], MaxKept))
    else if msg.kind == "network" then v.(requests := LastN(v.requests + [msg], MaxKept))
    else if msg.kind == "allData" then
      View(if msg.logs.Some? then msg.logs.value else [],
           if msg.requests.Some? then msg.requests.value else [])
    else v
  }

  /** The view after a series of messages. */
  function ReceiveAll(v: View, msgs: seq<Msg>): View
    decreases msgs
  {
    if msgs == [] then v else ReceiveAll(Receive(v, msgs[0]), msgs[1..])
  }

  /** One message, then more: the last 100 logs do not depend on when the
      list was trimmed. */
  lemma LogsStep(v: View, m: Msg, t: seq<Msg>)
    requires |v.logs| <= MaxKept && m.kind != "allData"
    ensures LastN(Receive(v, m).logs + t, MaxKept) == LastN(v.logs + ((if IsConsole(m) then [m] else []) + t), MaxKept)
  {
    if IsConsole(m) {
      LastNOfLastN(v.logs + [m], t, MaxKept);
      assert v.logs + [m] + t == v.logs + ([m] + t);
    } else {
      assert [] + t == t;
    }
  }

  lemma RequestsStep(v: View, m: Msg, t: seq<Msg>)
    requires |v.requests| <= MaxKept && m.kind != "allData"
    ensures LastN(Receive(v, m).requests + t, MaxKept) == LastN(v.requests + ((if IsNetwork(m) then [m] else []) + t), MaxKept)
  {
    if IsNetwork(m) {
      LastNOfLastN(v.requests + [m], t, MaxKept);
      assert v.requests + [m] + t == v.requests + ([m] + t);
    } else {
      assert [] + t == t;
    }
  }

  /** Without `allData`, the panel shows exactly the latest 100 console
      messages of everything it has held or received. */
  lemma {:induction false} ReceiveAllKeepsLatestLogs(v: View, msgs: seq<Msg>)
    requires |v.logs| <= MaxKept
    requires forall m :: m in msgs ==> m.kind != "allData"
    ensures ReceiveAll(v, msgs).logs == LastN(v.logs + Filter(msgs, IsConsole), MaxKept)
    decreases msgs
  {
    if msgs == [] {
      assert v.logs + [] == v.logs;
    } else {
      var m, rest := msgs[0], msgs[1..];
      assert m in msgs;
      assert forall x :: x in rest ==> x in msgs;
      var w := Receive(v, m);
      assert ReceiveAll(v, msgs) == ReceiveAll(w, rest);
      assert Filter(msgs, IsConsole) == (if IsConsole(m) then [m] else []) + Filter(rest, IsConsole);
      ReceiveAllKeepsLatestLogs(w, rest);
      LogsStep(v, m, Filter(rest, IsConsole));
    }
  }

  /** Without `allData`, the panel shows exactly the latest 100 network
      messages of everything it has held or received. */
  lemma {:induction false} ReceiveAllKeepsLatestRequests(v: View, msgs: seq<Msg>)
    requires |v.requests| <= MaxKept
    requires forall m :: m in msgs ==> m.kind != "allData"
    ensures ReceiveAll(v, msgs).requests == LastN(v.requests + Filter(msgs, IsNetwork), MaxKept)
    decreases msgs
  {
    if msgs == [] {
      assert v.requests + [] == v.requests;
    } else {
      var m, rest := msgs[0], msgs[1..];
      assert m in msgs;
      assert forall x :: x in rest ==> x in msgs;
      var w := Receive(v, m);
      assert ReceiveAll(v, msgs) == ReceiveAll(w, rest);
      assert Filter(msgs, IsNetwork) == (if IsNetwork(m) then [m] else []) + Filter(rest, IsNetwork);
      ReceiveAllKeepsLatestRequests(w, rest);
      RequestsStep(v, m, Filter(rest, IsNetwork));
    }
  }
}

/** The `{ key: bool }` filter objects of the console and network tabs. */
module FilterFlags {
  type Flags = map<string, bool>

  /** `filters[key]` used as a condition: an absent key is falsy. */
  predicate IsOn(flags: Flags, key: string) {
    key in flags && flags[key]
  }

  /** `toggleFilter` of both tabs, `{ ...prev, [key]: !prev[key] }`: one key flips (an absent key turns
      on) and every other key keeps its value. */
  function Toggle(flags: Flags, key: string): (r: Flags)
    ensures r.Keys == flags.Keys + {key}
    ensures IsOn(r, key) <==> !IsOn(flags, key)
    ensures forall k :: k in flags && k != key ==> r[k] == flags[k]
  {
    flags[key := !IsOn(flags, key)]
  }

  /** Toggling a listed key twice restores the filters. */
  lemma ToggleTwice(flags: Flags, key: string)
    requires key in flags
    ensures Toggle(Toggle(flags, key), key) == flags
  {
  }
}

/** The console tab (src/components/ConsoleTab.jsx). */
module ConsoleTab {
  import opened Base
  import opened FilterFlags
  import Panel

  const Shown: nat := 5

  /** Only `log` is on at first. */
  const InitialFilters: Flags := map["log" := true, "info" := false, "warn" := false, "error" := false]

  /** The key `l.level` looks up: an absent level is the key "undefined". */
  function LevelKey(level: Option<string>): string {
    if level.Some? then level.value else "undefined"
  }

  /** The properties every object literal inherits from `Object.prototype`.
      Each holds a truthy value (a function, or the prototype itself). */
  const InheritedNames: set<string> :=
    {"constructor", "toString", "toLocaleString", "valueOf", "hasOwnProperty",
     "isPrototypeOf", "propertyIsEnumerable", "__proto__", "__defineGetter__",
     "__defineSetter__", "__lookupGetter__", "__lookupSetter__"}

  /** `filters[key]` used as a condition on a plain object: an own key gives
      its flag; an absent key is falsy unless the prototype supplies it. */
  predicate Shows(filters: Flags, key: string) {
    if key in filters then filters[key] else key in InheritedNames
  }

  predicate LevelOn(filters: Flags, m: Panel.Msg) {
    Shows(filters, LevelKey(m.level))
  }

  /** `filteredLogs`: the last five logs whose level is switched on. */
  function FilteredLogs(logs: seq<Panel.Msg>, filters: Flags): (shown: seq<Panel.Msg>)
    ensures |shown| <= Shown
    ensures forall m :: m in shown ==> m in logs && Shows(filters, LevelKey(m.level))
    ensures SuffixOf(shown, Filter(logs, m => LevelOn(filters, m)))
    ensures |shown| == Min(CountIf(logs, m => LevelOn(filters, m)), Shown)
  {
    var kept := Filter(logs, m => LevelOn(filters, m));
    FilterLength(logs, m => LevelOn(filters, m));
    var shown := LastN(kept, Shown);
    assert forall m :: m in shown ==> m in kept by {
      assert kept == kept[..|kept| - |shown|] + shown;
    }
    shown
  }

  /** At first `log` messages are shown, and so are messages whose level
      names an inherited property; every other level is hidden, including
      a missing one. */
  lemma InitiallyOnlyLog(level: Option<string>)
    ensures Shows(InitialFilters, LevelKey(level))
            <==> level == Some("log") || (level.Some? && level.value in InheritedNames)
  {
    if level.None? {
      assert LevelKey(level) == "undefined";
      assert "undefined" !in InheritedNames;
    }
  }

  /** Toggling a listed level changes whether that level is shown and
      nothing else. */
  lemma ToggleFlipsOneLevel(filters: Flags, key: string, level: string)
    requires key in filters
    ensures Shows(Toggle(filters, key), level) <==> (if level == key then !Shows(filters, level) else Shows(filters, level))
  {
  }
}

/** The network tab (src/components/NetworkTab.jsx). */
module NetworkTab {
  import opened Base
  import opened FilterFlags
  import Panel

  const Shown: nat := 5

  const InitialFilters: Flags := map["get" := true, "post" := true, "put" := true, "delete" := true]

  /** `getStatusClass`: no class for a missing or zero status, then by range. */
  function GetStatusClass(statusCode: Option<int>): (c: string)
    ensures c == "" <==> statusCode.None? || statusCode.value == 0
    ensures c == "success" <==> statusCode.Some? && 200 <= statusCode.value < 300
    ensures c == "error" <==> statusCode.Some? && statusCode.value >= 400
    ensures c == "warning" <==> statusCode.Some? && statusCode.value != 0
                                && (statusCode.value < 200 || 300 <= statusCode.value < 400)
  {
    if statusCode.None? || statusCode.value == 0 then ""
    else if statusCode.value >= 200 && statusCode.value < 300 then "success"
    else if statusCode.value >= 400 then "error"
    else "warning"
  }

  /** `(req.method || 'GET').toLowerCase()`. */
  function MethodKey(httpMethod: Option<string>): string {
    Lower(OrElse(httpMethod, "GET"))
  }

  /** `filters[method] !== false`: a request is hidden only by a key that is
      explicitly off; methods without a key always pass. */
  predicate MethodKept(filters: Flags, req: Panel.Msg) {
    var key := MethodKey(req.httpMethod);
    !(key in filters && !filters[key])
  }

  function FilteredRequests(requests: seq<Panel.Msg>, filters: Flags): (kept: seq<Panel.Msg>)
    ensures forall r :: r in kept ==> r in requests && MethodKept(filters, r)
    ensures forall r :: r in requests && MethodKept(filters, r) ==> r in kept
    ensures |kept| == CountIf(requests, r => MethodKept(filters, r))
  {
    var kept := Filter(requests, r => MethodKept(filters, r));
    FilterLength(requests, r => MethodKept(filters, r));
    forall r | r in requests && MethodKept(filters, r) ensures r in kept {
      FilterKeeps(requests, r => MethodKept(filters, r), r);
    }
    kept
  }

  /** The filter works piecewise, so the kept requests stay in their
      original order. */
  lemma FilteredRequestsConcat(a: seq<Panel.Msg>, b: seq<Panel.Msg>, filters: Flags)
    ensures FilteredRequests(a + b, filters) == FilteredRequests(a, filters) + FilteredRequests(b, filters)
  {
    FilterConcat(a, b, r => MethodKept(filters, r));
  }

  /** `recentRequests`: the last five of the filtered requests, in order. */
  function RecentRequests(requests: seq<Panel.Msg>, filters: Flags): (recent: seq<Panel.Msg>)
    ensures |recent| == Min(|FilteredRequests(requests, filters)|, Shown)
    ensures SuffixOf(recent, FilteredRequests(requests, filters))
    ensures forall r :: r in recent ==> r in requests && MethodKept(filters, r)
  {
    var kept := FilteredRequests(requests, filters);
    var recent := LastN(kept, Shown);
    assert forall r :: r in recent ==> r in kept by {
      assert kept == kept[..|kept| - |recent|] + recent;
    }
    recent
  }

  /** With the initial filters nothing is hidden. */
  lemma InitialFiltersHideNothing(requests: seq<Panel.Msg>)
    ensures FilteredRequests(requests, InitialFilters) == requests
  {
    FilterAll(requests, r => MethodKept(InitialFilters, r));
  }

  /** Switching one method off hides exactly the requests of that method
      among those shown before. */
  lemma ToggleOffHidesOneMethod(requests: seq<Panel.Msg>, filters: Flags, httpMethod: string, r: Panel.Msg)
    requires httpMethod in filters && filters[httpMethod]
    requires r in requests
    ensures r in FilteredRequests(requests, Toggle(filters, httpMethod))
            <==> r in FilteredRequests(requests, filters) && MethodKey(r.httpMethod) != httpMethod
  {
  }
}

/** The stash tab (src/components/StashTab.jsx): the saved clipboard history. */
module StashTab {
  import opened Base

  const PreviewLength: nat := 200

  datatype StashItem = StashItem(id: int, content: string)

  /** `formatContent`: long content is cut to 200 characters and marked. */
  function FormatContent(content: string): (r: string)
    ensures |content| <= PreviewLength ==> r == content
    ensures |content| > PreviewLength ==>
              && |r| == PreviewLength + 3
              && StartsWith(content, r[..PreviewLength])
              && r[PreviewLength..] == "..."
  {
    if |content| > PreviewLength then content[..PreviewLength] + "..." else content
  }

  predicate Keeps(id: int, item: StashItem) { item.id != id }

  /** `deleteItem`: every item with the id goes, every other item stays. */
  function DeleteItem(history: seq<StashItem>, id: int): (r: seq<StashItem>)
    ensures forall x :: x in r ==> x in history && x.id != id
    ensures forall x :: x in history && x.id != id ==> x in r
  {
    var r := Filter(history, item => Keeps(id, item));
    forall x | x in history && x.id != id ensures x in r {
      FilterKeeps(history, item => Keeps(id, item), x);
    }
    r
  }

  /** Deleting keeps the relative order of the items that stay. */
  lemma DeleteKeepsOrder(a: seq<StashItem>, b: seq<StashItem>, id: int)
    ensures DeleteItem(a + b, id) == DeleteItem(a, id) + DeleteItem(b, id)
  {
    FilterConcat(a, b, item => Keeps(id, item));
  }

  /** `clearAll`. */
  function ClearAll(history: seq<StashItem>): (r: seq<StashItem>)
    ensures forall x :: x !in r
  {
    []
  }

  function Ids(history: seq<StashItem>): seq<int> {
    seq(|history|, i requires 0 <= i < |history| => history[i].id)
  }

  /** Deleting the given ids one after the other. */
  function DeleteAll(history: seq<StashItem>, ids: seq<int>): seq<StashItem>
    decreases ids
  {
    if ids == [] then history else DeleteAll(DeleteItem(history, ids[0]), ids[1..])
  }

  lemma {:induction false} DeleteAllRemoves(history: seq<StashItem>, ids: seq<int>)
    ensures forall x :: x in DeleteAll(history, ids) ==> x in history && x.id !in ids
    decreases ids
  {
    if ids != [] {
      DeleteAllRemoves(DeleteItem(history, ids[0]), ids[1..]);
    }
  }

  /** Deleting every item by its id leaves nothing, as `clearAll` does. */
  lemma DeletingEveryIdClears(history: seq<StashItem>)
    ensures forall x :: x in DeleteAll(history, Ids(history)) <==> x in ClearAll(history)
  {
    DeleteAllRemoves(history, Ids(history));
    forall i | 0 <= i < |history| ensures history[i].id in Ids(history) {
      assert Ids(history)[i] == history[i].id;
    }
  }
}
