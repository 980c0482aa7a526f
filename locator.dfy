/** The element locator injected into the page (public/locator-inject.js):
    the source-path clean-up and IDE link generation, component naming, the
    walk up the React fiber chain that finds a component's source location,
    the `throttle` closure, and the activation state driven by the Alt key
    and by settings messages. DOM overlay drawing is not modelled. */
module Locator {
  import opened Base

  // ============================================================ paths

  predicate EndsWith(s: string, suffix: string) {
    |suffix| <= |s| && s[|s| - |suffix|..] == suffix
  }

  /** `s.replace(/^p/, '')` for a literal prefix `p`. */
  function StripPrefix(s: string, p: string): (r: string)
    ensures EndsWith(s, r)
    ensures StartsWith(s, p) ==> p + r == s
    ensures !StartsWith(s, p) ==> r == s
  {
    if StartsWith(s, p) then s[|p|..] else s
  }

  /** Removes a leading `webpack://` and the host name that follows it, up
      to (not including) the first slash. */
  function StripWebpackHost(s: string): (r: string)
    ensures EndsWith(s, r)
    ensures !StartsWith(s, "webpack://") ==> r == s
    ensures StartsWith(s, "webpack://") ==> r == [] || r[0] == '/'
    ensures StartsWith(s, "webpack://") ==> |r| <= |s| - 10 && '/' !in s[10..|s| - |r|]
  {
    if StartsWith(s, "webpack://") then
      var rest := s[10..];
      var host := BeforeFirst(rest, '/');
      assert s[|s| - |rest[|host|..]|..] == rest[|host|..];
      assert s[10..|s| - |rest[|host|..]|] == host;
      rest[|host|..]
    else s
  }

  /** `resolveFilePath`: absent or empty names resolve to nothing; otherwise
      a leading `webpack://<host>`, then a leading `webpack-internal:///`,
      then a leading `./` are removed, in that order. */
  function ResolveFilePath(fileName: Option<string>): (r: Option<string>)
    ensures r.None? <==> !Truthy(fileName)
    ensures r.Some? ==> EndsWith(fileName.value, r.value)
    ensures (&& r.Some? && !StartsWith(fileName.value, "webpack://")
             && !StartsWith(fileName.value, "webpack-internal:///")
             && !StartsWith(fileName.value, "./")) ==> r.value == fileName.value
    ensures Truthy(fileName) ==>
              r == Some(StripPrefix(StripPrefix(StripWebpackHost(fileName.value), "webpack-internal:///"), "./"))
  {
    if !Truthy(fileName) then None
    else
      var a := StripWebpackHost(fileName.value);
      var b := StripPrefix(a, "webpack-internal:///");
      var c := StripPrefix(b, "./");
      EndsWithTrans(fileName.value, a, b);
      EndsWithTrans(fileName.value, b, c);
      Some(c)
  }

  lemma EndsWithTrans(a: string, b: string, c: string)
    requires EndsWith(a, b) && EndsWith(b, c)
    ensures EndsWith(a, c)
  {
    assert a[|a| - |c|..] == b[|b| - |c|..];
  }

  /** `webpack-internal:///` is removed before `./`, so both go. */
  lemma ResolveInternalThenDot(rest: string)
    ensures ResolveFilePath(Some("webpack-internal:///" + "./" + rest)) == Some(rest)
  {
    var s := "webpack-internal:///" + "./" + rest;
    assert s[7] == '-';
    assert !StartsWith(s, "webpack://");
    assert StripWebpackHost(s) == s;
    assert s[..20] == "webpack-internal:///";
    var b := s[20..];
    assert b == "./" + rest;
    assert StripPrefix(s, "webpack-internal:///") == b;
    assert b[..2] == "./" && b[2..] == rest;
    assert StripPrefix(b, "./") == rest;
  }

  /** Each prefix is looked for once, in a fixed order: a `./` in front of a
      webpack URL is the only prefix removed. */
  lemma ResolveDotBeforeWebpack(rest: string)
    ensures ResolveFilePath(Some("./" + "webpack://" + rest)) == Some("webpack://" + rest)
  {
    var s := "./" + "webpack://" + rest;
    assert s[0] == '.';
    assert !StartsWith(s, "webpack://");
    assert StripWebpackHost(s) == s;
    assert !StartsWith(s, "webpack-internal:///");
    assert StripPrefix(s, "webpack-internal:///") == s;
    assert s[..2] == "./";
    assert s[2..] == "webpack://" + rest;
    assert StripPrefix(s, "./") == "webpack://" + rest;
  }

  /** The usual webpack source name: `webpack://`, a host without slashes,
      then an absolute path. Exactly the host part goes and the path is
      kept whole, since a path starting with `/` carries neither of the
      other two prefixes. */
  lemma ResolveWebpackSource(host: string, path: string)
    requires '/' !in host && path != [] && path[0] == '/'
    ensures ResolveFilePath(Some("webpack://" + host + path)) == Some(path)
  {
    var s := "webpack://" + host + path;
    assert s[..10] == "webpack://";
    var a := StripWebpackHost(s);
    var t := s[10..];
    assert t == host + path;
    assert t[..|t| - |a|] == s[10..|s| - |a|];
    assert t[|t| - |a|..] == a;
    CutAtFirstSlash(t, host, path, a);
    assert !StartsWith(a, "webpack-internal:///");
    assert !StartsWith(a, "./");
  }

  /** A slash-free front followed by a suffix that is empty or starts with
      `/` splits `host + path` exactly at the end of `host`. */
  lemma CutAtFirstSlash(t: string, host: string, path: string, a: string)
    requires t == host + path && '/' !in host && path != [] && path[0] == '/'
    requires |a| <= |t| && t[|t| - |a|..] == a && '/' !in t[..|t| - |a|]
    requires a == [] || a[0] == '/'
    ensures a == path
  {
    var k := |t| - |a|;
    assert forall m :: 0 <= m < k ==> t[m] == t[..k][m];
    assert forall m :: 0 <= m < |host| ==> t[m] == host[m];
    assert t[|host|] == '/';
    assert |a| > 0 ==> a[0] == t[k];
    assert k == |host|;
  }

  // ====================================================== IDE links

  datatype Ide = VSCode | Cursor | Windsurf | Idea | Antigravity

  /** `ideSchemes[preferredIDE] || ideSchemes.vscode`. */
  function IdeNamed(name: string): (ide: Ide)
    ensures name !in {"cursor", "windsurf", "idea", "antigravity"} ==> ide == VSCode
  {
    match name
    case "cursor" => Cursor
    case "windsurf" => Windsurf
    case "idea" => Idea
    case "antigravity" => Antigravity
    case _ => VSCode
  }

  /** The link for one editor. */
  function SchemeUrl(ide: Ide, file: string, line: string, col: string): string {
    match ide
    case VSCode => "vscode://file/" + file + ":" + line + ":" + col
    case Cursor => "cursor://file/" + file + ":" + line + ":" + col
    case Windsurf => "windsurf://file/" + file + ":" + line + ":" + col
    case Idea => "idea://open?file=" + file + "&line=" + line + "&column=" + col
    case Antigravity => "antigravity://file/" + file + ":" + line + ":" + col
  }

  /** A located source: a file position, or only a component name (`isRSC`). */
  datatype SourceInfo = SourceInfo(
    fileName: Option<string>,
    lineNumber: Option<nat>,
    columnNumber: Option<nat>,
    componentName: string,
    isRSC: bool)

  /** A number in a template literal; `null` prints as "null". */
  function NumberText(n: Option<nat>): string {
    if n.Some? then NatToString(n.value) else "null"
  }

  /** `generateIDEUrl`. */
  function GenerateIdeUrl(source: SourceInfo, preferredIde: string): (url: Option<string>)
    ensures source.isRSC || !Truthy(source.fileName) ==> url.None?
    ensures !source.isRSC && Truthy(source.fileName) ==>
              var path := ResolveFilePath(source.fileName).value;
              var col := if source.columnNumber.Some? then source.columnNumber.value else 0;
              url == if path == "" then None
                     else Some(SchemeUrl(IdeNamed(preferredIde), path, NumberText(source.lineNumber), NatToString(col)))
  {
    if source.isRSC || !Truthy(source.fileName) then None
    else
      var absolutePath := ResolveFilePath(source.fileName);
      if !Truthy(absolutePath) then None
      else
        var col := if source.columnNumber.Some? then source.columnNumber.value else 0;
        Some(SchemeUrl(IdeNamed(preferredIde), absolutePath.value, NumberText(source.lineNumber), NatToString(col)))
  }

  lemma LinkTextShape(scheme: string, path: string, line: string)
    ensures var u := scheme + path + ":" + line + ":" + "0";
            && StartsWith(u, scheme)
            && u[|scheme|..|scheme| + |path|] == path
            && EndsWith(u, ":" + line + ":0")
  {
    var u := scheme + path + ":" + line + ":" + "0";
    var tail := ":" + line + ":0";
    assert u == scheme + path + tail;
    assert u[..|scheme|] == scheme;
    assert u[|scheme|..|scheme| + |path|] == path;
    assert u[|u| - |tail|..] == tail;
  }

  /** A VS Code link carries the resolved path right after the scheme and
      ends with the line and the column, the column defaulting to 0. */
  lemma VscodeLinkShape(source: SourceInfo, preferredIde: string)
    requires !source.isRSC && Truthy(source.fileName) && source.columnNumber.None?
    requires ResolveFilePath(source.fileName).value != ""
    requires IdeNamed(preferredIde) == VSCode
    ensures var path := ResolveFilePath(source.fileName).value;
            var url := GenerateIdeUrl(source, preferredIde);
            && url.Some?
            && StartsWith(url.value, "vscode://file/")
            && url.value[14..14 + |path|] == path
            && EndsWith(url.value, ":" + NumberText(source.lineNumber) + ":0")
  {
    var path := ResolveFilePath(source.fileName).value;
    var line := NumberText(source.lineNumber);
    assert NatToString(0) == "0";
    assert GenerateIdeUrl(source, preferredIde) == Some("vscode://file/" + path + ":" + line + ":" + "0");
    LinkTextShape("vscode://file/", path, line);
  }

  // ================================================= fibers and names

  /** The `type` of a fiber: none, an HTML tag name, a function or class
      component (with its `displayName` and `name`), or another primitive. */
  datatype FiberType =
    | Untyped
    | HostTag(tag: string)
    | Component(displayName: Option<string>, name: Option<string>)
    | OtherPrimitive

  datatype DebugSource = DebugSource(fileName: string, lineNumber: nat, columnNumber: Option<nat>)

  /** One fiber; `ret` and `owner` are the indices of the `return` and
      `_debugOwner` fibers in the arena. */
  datatype Fiber = Fiber(kind: FiberType, debugSource: Option<DebugSource>, ret: Option<nat>, owner: Option<nat>)

  /** `getDisplayName`. */
  function GetDisplayName(fiber: Option<Fiber>): (name: string)
    ensures name != ""
    ensures fiber.None? || fiber.value.kind.Untyped? ==> name == "Unknown"
    ensures fiber.Some? && fiber.value.kind.HostTag? ==>
              name == (if fiber.value.kind.tag == "" then "Unknown" else fiber.value.kind.tag)
    ensures fiber.Some? && fiber.value.kind.Component? ==>
              var k := fiber.value.kind;
              name == (if Truthy(k.displayName) then k.displayName.value
                       else if Truthy(k.name) then k.name.value else "Anonymous")
  {
    if fiber.None? then "Unknown"
    else match fiber.value.kind
      case Untyped => "Unknown"
      case HostTag(tag) => if tag == "" then "Unknown" else tag
      case Component(displayName, name) => OrElse(displayName, OrElse(name, "Anonymous"))
      case OtherPrimitive => "Anonymous"
  }

  /** `isReactComponent`: the type is a function or an object. */
  predicate IsReactComponent(f: Fiber) {
    f.kind.Component?
  }

  predicate LinkBelow(link: Option<nat>, i: int) {
    link.Some? ==> link.value < i
  }

  /** Every link points to a fiber placed earlier in the arena, so the
      chains are finite (the page's fiber tree has no cycles). */
  predicate WellFormed(tree: seq<Fiber>) {
    forall i | 0 <= i < |tree| :: LinkBelow(tree[i].ret, i) && LinkBelow(tree[i].owner, i)
  }

  predicate InTree(tree: seq<Fiber>, cur: Option<nat>) {
    cur.Some? ==> cur.value < |tree|
  }

  function Rank(cur: Option<nat>): nat {
    if cur.None? then 0 else cur.value + 1
  }

  /** The next fiber up: `return`, falling back to `_debugOwner` when allowed. */
  function Up(tree: seq<Fiber>, i: nat, viaOwner: bool): (next: Option<nat>)
    requires WellFormed(tree) && i < |tree|
    ensures Rank(next) < Rank(Some(i)) && InTree(tree, next)
  {
    if tree[i].ret.Some? then tree[i].ret
    else if viaOwner then tree[i].owner
    else None
  }

  /** The fibers a walk visits, from `cur` to the end of the chain. */
  function Walk(tree: seq<Fiber>, cur: Option<nat>, viaOwner: bool): (path: seq<nat>)
    requires WellFormed(tree) && InTree(tree, cur)
    ensures forall k :: 0 <= k < |path| ==> path[k] < |tree|
    ensures cur.Some? ==> |path| > 0 && path[0] == cur.value
    decreases Rank(cur)
  {
    if cur.None? then [] else [cur.value] + Walk(tree, Up(tree, cur.value, viaOwner), viaOwner)
  }

  /** The first fiber on the walk that `pick` accepts. */
  function FirstOnWalk(tree: seq<Fiber>, cur: Option<nat>, viaOwner: bool, pick: Fiber -> bool): (found: Option<nat>)
    requires WellFormed(tree) && InTree(tree, cur)
    ensures InTree(tree, found)
    ensures found.Some? ==> pick(tree[found.value])
    decreases Rank(cur)
  {
    if cur.None? then None
    else if pick(tree[cur.value]) then cur
    else FirstOnWalk(tree, Up(tree, cur.value, viaOwner), viaOwner, pick)
  }

  /** No fiber on `path` is accepted. */
  predicate NonePicked(tree: seq<Fiber>, path: seq<nat>, pick: Fiber -> bool) {
    forall k :: 0 <= k < |path| ==> path[k] < |tree| && !pick(tree[path[k]])
  }

  /** Position `k` of `path` holds the first accepted fiber. */
  predicate FirstPickedAt(tree: seq<Fiber>, path: seq<nat>, pick: Fiber -> bool, k: int) {
    && 0 <= k < |path| && path[k] < |tree| && pick(tree[path[k]])
    && forall j :: 0 <= j < k ==> path[j] < |tree| && !pick(tree[path[j]])
  }

  /** The search finds the first accepted fiber of the walk, or reports
      that the walk has none. */
  lemma {:induction false} FirstOnWalkIsFirst(tree: seq<Fiber>, cur: Option<nat>, viaOwner: bool, pick: Fiber -> bool)
    requires WellFormed(tree) && InTree(tree, cur)
    ensures FirstOnWalk(tree, cur, viaOwner, pick).None? ==> NonePicked(tree, Walk(tree, cur, viaOwner), pick)
    ensures FirstOnWalk(tree, cur, viaOwner, pick).Some? ==>
              exists k :: && FirstPickedAt(tree, Walk(tree, cur, viaOwner), pick, k)
                          && Walk(tree, cur, viaOwner)[k] == FirstOnWalk(tree, cur, viaOwner, pick).value
    decreases Rank(cur)
  {
    if cur.None? {
      return;
    }
    var next := Up(tree, cur.value, viaOwner);
    var rest := Walk(tree, next, viaOwner);
    var path := Walk(tree, cur, viaOwner);
    assert path == [cur.value] + rest;
    if pick(tree[cur.value]) {
      assert FirstPickedAt(tree, path, pick, 0);
    } else {
      FirstOnWalkIsFirst(tree, next, viaOwner, pick);
      var found := FirstOnWalk(tree, next, viaOwner, pick);
      assert FirstOnWalk(tree, cur, viaOwner, pick) == found;
      if found.None? {
        ConsKeepsNone(tree, cur.value, rest, pick);
      } else {
        var k :| FirstPickedAt(tree, rest, pick, k) && rest[k] == found.value;
        ConsKeepsFirst(tree, cur.value, rest, pick, k);
      }
    }
  }

  lemma ConsKeepsNone(tree: seq<Fiber>, x: nat, rest: seq<nat>, pick: Fiber -> bool)
    requires x < |tree| && !pick(tree[x]) && NonePicked(tree, rest, pick)
    ensures NonePicked(tree, [x] + rest, pick)
  {
    var path := [x] + rest;
    forall k | 0 <= k < |path| ensures path[k] < |tree| && !pick(tree[path[k]]) {
      if k > 0 {
        assert path[k] == rest[k - 1];
      }
    }
  }

  /** A fiber that is not accepted, put in front of a path, moves the first
      accepted position one place back. */
  lemma ConsKeepsFirst(tree: seq<Fiber>, x: nat, rest: seq<nat>, pick: Fiber -> bool, k: int)
    requires x < |tree| && !pick(tree[x]) && FirstPickedAt(tree, rest, pick, k)
    ensures FirstPickedAt(tree, [x] + rest, pick, k + 1) && ([x] + rest)[k + 1] == rest[k]
  {
    var path := [x] + rest;
    forall j | 0 <= j < k + 1 ensures path[j] < |tree| && !pick(tree[path[j]]) {
      if j > 0 {
        assert path[j] == rest[j - 1];
      }
    }
  }

  /** A component that carries `_debugSource`. */
  predicate HasSource(f: Fiber) {
    IsReactComponent(f) && f.debugSource.Some?
  }

  /** A component whose name says something. */
  predicate HasUsefulName(f: Fiber) {
    var name := GetDisplayName(Some(f));
    IsReactComponent(f) && name != "" && name != "Unknown" && name != "Anonymous"
  }

  function SourceOf(f: Fiber): SourceInfo
    requires f.debugSource.Some?
  {
    var ds := f.debugSource.value;
    SourceInfo(Some(ds.fileName), Some(ds.lineNumber),
               Some(if ds.columnNumber.Some? then ds.columnNumber.value else 0),
               GetDisplayName(Some(f)), false)
  }

  function NameOnly(f: Fiber): SourceInfo {
    SourceInfo(None, None, None, GetDisplayName(Some(f)), true)
  }

  /** What `getSourceFromFiber` returns for the fiber at `start`. */
  function SourceFromFiber(tree: seq<Fiber>, start: nat): Option<SourceInfo>
    requires WellFormed(tree) && start < |tree|
  {
    match FirstOnWalk(tree, Some(start), true, HasSource)
    case Some(i) => Some(SourceOf(tree[i]))
    case None =>
      match FirstOnWalk(tree, Some(start), false, HasUsefulName)
      case Some(i) => Some(NameOnly(tree[i]))
      case None => None
  }

  /** The first pass: the located source is that of the first component
      with `_debugSource` on the `return`/`_debugOwner` walk, with its
      column defaulting to 0. */
  lemma SourceFromFirstPass(tree: seq<Fiber>, start: nat)
    requires WellFormed(tree) && start < |tree|
    requires exists k :: 0 <= k < |Walk(tree, Some(start), true)| && HasSource(tree[Walk(tree, Some(start), true)[k]])
    ensures var path := Walk(tree, Some(start), true);
            exists k :: && 0 <= k < |path| && HasSource(tree[path[k]])
                        && (forall j :: 0 <= j < k ==> !HasSource(tree[path[j]]))
                        && SourceFromFiber(tree, start) == Some(SourceOf(tree[path[k]]))
    ensures var s := SourceFromFiber(tree, start).value;
            !s.isRSC && s.fileName.Some? && s.lineNumber.Some? && s.columnNumber.Some?
  {
    FirstOnWalkIsFirst(tree, Some(start), true, HasSource);
  }

  /** The fallback: with no `_debugSource` anywhere on the first walk, the
      result names the first usefully named component up the `return`
      chain, without a position, or is absent. */
  lemma SourceFromFallback(tree: seq<Fiber>, start: nat)
    requires WellFormed(tree) && start < |tree|
    requires forall k :: 0 <= k < |Walk(tree, Some(start), true)| ==> !HasSource(tree[Walk(tree, Some(start), true)[k]])
    ensures var path := Walk(tree, Some(start), false);
            match SourceFromFiber(tree, start)
            case None => forall k :: 0 <= k < |path| ==> !HasUsefulName(tree[path[k]])
            case Some(s) => && s.isRSC && s.fileName.None? && s.lineNumber.None? && s.columnNumber.None?
                            && exists k :: && 0 <= k < |path| && HasUsefulName(tree[path[k]])
                                           && (forall j :: 0 <= j < k ==> !HasUsefulName(tree[path[j]]))
                                           && s.componentName == GetDisplayName(Some(tree[path[k]]))
  {
    FirstOnWalkIsFirst(tree, Some(start), true, HasSource);
    FirstOnWalkIsFirst(tree, Some(start), false, HasUsefulName);
  }

  /** `getSourceFromFiber`: two walks with a mutable cursor. */
  method GetSourceFromFiber(tree: seq<Fiber>, start: nat) returns (r: Option<SourceInfo>)
    requires WellFormed(tree) && start < |tree|
    ensures r == SourceFromFiber(tree, start)
  {
    var current: Option<nat> := Some(start);
    while current.Some?
      invariant InTree(tree, current)
      invariant FirstOnWalk(tree, Some(start), true, HasSource) == FirstOnWalk(tree, current, true, HasSource)
      decreases Rank(current)
    {
      var f := tree[current.value];
      if IsReactComponent(f) {
        if f.debugSource.Some? {
          return Some(SourceOf(f));
        }
      }
      current := if f.ret.Some? then f.ret else f.owner;
    }
    current := Some(start);
    while current.Some?
      invariant InTree(tree, current)
      invariant FirstOnWalk(tree, Some(start), false, HasUsefulName) == FirstOnWalk(tree, current, false, HasUsefulName)
      decreases Rank(current)
    {
      var f := tree[current.value];
      if IsReactComponent(f) {
        var name := GetDisplayName(Some(f));
        if name != "" && name != "Unknown" && name != "Anonymous" {
          return Some(SourceInfo(None, None, None, name, true));
        }
      }
      current := f.ret;
    }
    return None;
  }

  // ========================================================= throttle

  /** The closure returned by `throttle(fn, delay)`: `lastCall` is its
      captured variable; `calls` records when `fn` actually ran. */
  class Throttled {
    const delay: int
    var lastCall: int
    ghost var calls: seq<int>

    /** `lastCall` is the instant of the latest run (0 before any), and runs
        are at least `delay` apart, the first one `delay` after 0. */
    ghost predicate Valid()
      reads this
    {
      && lastCall == (if calls == [] then 0 else calls[|calls| - 1])
      && forall i :: 0 <= i < |calls| ==> calls[i] - (if i == 0 then 0 else calls[i - 1]) >= delay
    }

    constructor (delay: int)
      ensures Valid() && this.delay == delay && lastCall == 0 && calls == []
    {
      this.delay := delay;
      lastCall := 0;
      calls := [];
    }

    /** One call of the throttled function at `now`; `called` tells
        whether the wrapped function ran. */
    method Invoke(now: int) returns (called: bool)
      requires Valid()
      modifies this
      ensures Valid()
      ensures called <==> now - old(lastCall) >= delay
      ensures lastCall == (if called then now else old(lastCall))
      ensures calls == (if called then old(calls) + [now] else old(calls))
    {
      called := now - lastCall >= delay;
      if called {
        lastCall := now;
        calls := calls + [now];
      }
    }
  }

  // ================================================ activation state

  /** The payload of a `message` event, as far as the settings listener reads it. */
  datatype SettingsData = SettingsData(source: Option<string>, kind: Option<string>,
                                       ide: Option<string>, enabled: Option<bool>)

  /** A `message` event: whether it came from this window, and its data. */
  datatype WindowMessage = WindowMessage(fromThisWindow: bool, data: Option<SettingsData>)

  predicate IsSettings(msg: WindowMessage) {
    && msg.fromThisWindow
    && msg.data.Some?
    && msg.data.value.source == Some("taillog-locator-settings")
    && msg.data.value.kind == Some("settings")
  }

  /** The module-level flags of the locator. */
  class LocatorState {
    var isLocatorActive: bool
    var isEnabled: bool
    var preferredIde: string

    /** The locator is only ever active while it is enabled. */
    predicate Valid()
      reads this
    {
      isLocatorActive ==> isEnabled
    }

    constructor ()
      ensures Valid() && !isLocatorActive && isEnabled && preferredIde == "vscode"
    {
      isLocatorActive := false;
      isEnabled := true;
      preferredIde := "vscode";
    }

    /** `handleKeyDown`: Alt activates an enabled locator. */
    method HandleKeyDown(altKey: bool)
      requires Valid()
      modifies this
      ensures Valid()
      ensures isLocatorActive <==> old(isLocatorActive) || (altKey && old(isEnabled))
      ensures isEnabled == old(isEnabled) && preferredIde == old(preferredIde)
    {
      if altKey && !isLocatorActive && isEnabled {
        isLocatorActive := true;
      }
    }

    /** `handleKeyUp`: releasing Alt deactivates. */
    method HandleKeyUp(altKey: bool)
      requires Valid()
      modifies this
      ensures Valid()
      ensures isLocatorActive <==> old(isLocatorActive) && altKey
      ensures isEnabled == old(isEnabled) && preferredIde == old(preferredIde)
    {
      if !altKey && isLocatorActive {
        isLocatorActive := false;
      }
    }

    /** The settings listener: other messages change nothing; a settings
        message sets the editor (default "vscode") and the enabled flag
        (anything but an explicit `false` enables), and disabling deactivates. */
    method OnWindowMessage(msg: WindowMessage)
      requires Valid()
      modifies this
      ensures Valid()
      ensures !IsSettings(msg) ==>
                isLocatorActive == old(isLocatorActive) && isEnabled == old(isEnabled)
                && preferredIde == old(preferredIde)
      ensures IsSettings(msg) ==>
                && preferredIde == OrElse(msg.data.value.ide, "vscode")
                && (isEnabled <==> msg.data.value.enabled != Some(false))
                && (isLocatorActive <==> old(isLocatorActive) && isEnabled)
    {
      if !msg.fromThisWindow {
        return;
      }
      if msg.data.None? || msg.data.value.source != Some("taillog-locator-settings") {
        return;
      }
      var data := msg.data.value;
      if data.kind == Some("settings") {
        preferredIde := OrElse(data.ide, "vscode");
        isEnabled := data.enabled != Some(false);
        if !isEnabled {
          isLocatorActive := false;
        }
      }
    }
  }
}
