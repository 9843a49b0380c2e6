/** The loader of tmuxgen (tmuxgen/loader.py): from the parsed document to
    a `Config`, or the first error met. The environment and home-directory
    expansion `_expand_env` depends on the process environment; it is the
    parameter `expand`, about which nothing is assumed. */
module Loader {

  import opened Wrappers
  import opened Tree
  import opened Models
  import opened Paths

  /** The ways loading fails. Every one aborts the whole load. */
  datatype LoadError =
    | SessionNotATable          // `[session]` is truthy but not a table: `s.get` fails
    | MissingSessionFields      // "[session.name] and [session.default_dir] are required"
    | NoWindows                 // "At least one [[windows]] entry is required"
    | WindowsNotAnArray         // `windows` is truthy but not an array: iterating it fails
    | WindowNotATable           // a `[[windows]]` entry is not a table: `w.get` fails
    | WindowMissingName         // "Each window needs a `name`"
    | ActionsNotAnArray         // `actions` is truthy but not an array
    | ActionNotATable           // an action is not a table: `raw.get` fails
    | KeysSeqNotAnArray         // "keys action requires an array `seq`"
    | UnknownActionType(tag: Option<Node>)  // "Unknown action type: {t}"

  datatype Result<+T> = Ok(value: T) | Err(error: LoadError)

  // -----------------------------------------------------------------------
  // Input shape. The source coerces some values with `str()` and `int()` and
  // passes others to `_expand_env`; the model takes those values to be of
  // the type the schema gives them.

  predicate StrIfTruthy(v: Option<Node>) {
    IsTruthy(v) ==> v.value.Str?
  }

  predicate ActionShape(a: Node) {
    a.Table? ==>
      var t := Get(a.fields, "type");
      && (t == Some(Str("send")) ==> "text" in a.fields ==> a.fields["text"].Str?)
      && (t == Some(Str("keys")) ==> "seq" in a.fields && a.fields["seq"].Arr? ==>
            forall i :: 0 <= i < |a.fields["seq"].items| ==> a.fields["seq"].items[i].Str?)
      && (t == Some(Str("sleep")) ==> "ms" in a.fields ==> a.fields["ms"].Int?)
  }

  predicate WindowShape(w: Node) {
    w.Table? ==>
      && StrIfTruthy(Get(w.fields, "name"))
      && StrIfTruthy(Get(w.fields, "dir"))
      && ("actions" in w.fields && w.fields["actions"].Arr? ==>
            forall i :: 0 <= i < |w.fields["actions"].items| ==> ActionShape(w.fields["actions"].items[i]))
  }

  predicate SessionShape(s: Node) {
    s.Table? ==>
      && StrIfTruthy(Get(s.fields, "name"))
      && StrIfTruthy(Get(s.fields, "default_dir"))
      && StrIfTruthy(Get(s.fields, "focus_window"))
  }

  predicate EnvShape(e: Option<Node>) {
    IsTruthy(e) ==> e.value.Table? && forall k :: k in e.value.fields ==> e.value.fields[k].Str?
  }

  predicate WellShaped(doc: map<string, Node>) {
    && ("session" in doc ==> SessionShape(doc["session"]))
    && EnvShape(Get(doc, "env"))
    && ("windows" in doc && doc["windows"].Arr? ==>
          forall i :: 0 <= i < |doc["windows"].items| ==> WindowShape(doc["windows"].items[i]))
  }

  // -----------------------------------------------------------------------
  // _normalize_dir

  /** A window's working directory: absent, empty or `.` means the expanded
      base; an expanded absolute path is kept; a relative one is joined onto
      the expanded base and normalised. */
  function NormalizeDir(expand: string -> string, path: Option<string>, base: string): string {
    if path == None || path == Some("") || path == Some(".") then expand(base)
    else
      var p := expand(path.value);
      if IsAbs(p) then p else NormPath(JoinPath(expand(base), p))
  }

  // -----------------------------------------------------------------------
  // _parse_action

  function TextOf(fields: map<string, Node>): string
    requires "text" in fields ==> fields["text"].Str?
  {
    if "text" in fields then fields["text"].s else ""
  }

  function MsOf(fields: map<string, Node>): int
    requires "ms" in fields ==> fields["ms"].Int?
  {
    if "ms" in fields then fields["ms"].i else 50
  }

  function StrItems(items: seq<Node>): (r: seq<string>)
    requires forall i :: 0 <= i < |items| ==> items[i].Str?
    ensures |r| == |items| && forall i :: 0 <= i < |items| ==> items[i] == Str(r[i])
  {
    seq(|items|, i requires 0 <= i < |items| => items[i].s)
  }

  /** One action table to an `Action`, dispatching on its `type` tag. */
  function ParseAction(raw: Node): Result<Action>
    requires ActionShape(raw)
  {
    if !raw.Table? then Err(ActionNotATable)
    else
      var f := raw.fields;
      var t := Get(f, "type");
      if t == Some(Str("send")) then
        Ok(SendAction(TextOf(f), Truthy(GetOr(f, "enter", Bool(true)))))
      else if t == Some(Str("keys")) then
        var keys := Or(Get(f, "seq"), Arr([]));
        if !keys.Arr? then Err(KeysSeqNotAnArray)
        else Ok(KeysAction(StrItems(keys.items), Truthy(GetOr(f, "enter", Bool(false)))))
      else if t == Some(Str("sleep")) then
        Ok(SleepAction(MsOf(f)))
      else Err(UnknownActionType(t))
  }

  // -----------------------------------------------------------------------
  // Parsing a sequence element by element, stopping at the first error.

  /** `[parse(x) for x in xs]` where `parse` may raise: the parsed elements in
      order, or the error of the first element that fails. */
  function ParseAll<X, T>(xs: seq<X>, parse: X --> Result<T>): (r: Result<seq<T>>)
    requires forall i :: 0 <= i < |xs| ==> parse.requires(xs[i])
    ensures r.Ok? <==> forall i :: 0 <= i < |xs| ==> parse(xs[i]).Ok?
    ensures r.Ok? ==> |r.value| == |xs| && forall i :: 0 <= i < |xs| ==> parse(xs[i]) == Ok(r.value[i])
    ensures r.Err? ==> exists i :: 0 <= i < |xs| && parse(xs[i]) == Err(r.error)
                                && forall j :: 0 <= j < i ==> parse(xs[j]).Ok?
    decreases |xs|
  {
    if xs == [] then Ok([])
    else
      var init := xs[..|xs| - 1];
      assert forall i :: 0 <= i < |init| ==> init[i] == xs[i];
      match ParseAll(init, parse)
      case Err(e) => Err(e)
      case Ok(ts) =>
        match parse(xs[|xs| - 1])
        case Err(e) => Err(e)
        case Ok(t) => Ok(ts + [t])
  }

  /** The first element that fails decides the error. */
  lemma ParseAllFirstError<X, T>(xs: seq<X>, parse: X --> Result<T>, i: nat)
    requires forall k :: 0 <= k < |xs| ==> parse.requires(xs[k])
    requires i < |xs| && parse(xs[i]).Err?
    requires forall j :: 0 <= j < i ==> parse(xs[j]).Ok?
    ensures ParseAll(xs, parse) == Err(parse(xs[i]).error)
  {
    var r := ParseAll(xs, parse);
    var i' :| 0 <= i' < |xs| && parse(xs[i']) == Err(r.error)
              && forall j :: 0 <= j < i' ==> parse(xs[j]).Ok?;
    assert i' == i;
  }

  // -----------------------------------------------------------------------
  // One `[[windows]]` entry, before its directory is resolved.

  /** The raw `dir` of a window as `_normalize_dir` sees it: any falsy value
      behaves as `None`. */
  function RawDir(v: Option<Node>): (r: Option<string>)
    requires StrIfTruthy(v)
    ensures IsTruthy(v) ==> r == Some(v.value.s)
    ensures !IsTruthy(v) ==> r == None || r == Some("")
  {
    match v
    case Some(Str(s)) => Some(s)
    case _ => None
  }

  function ParseWindow(w: Node): Result<Window>
    requires WindowShape(w)
  {
    if !w.Table? then Err(WindowNotATable)
    else
      var f := w.fields;
      var name := Get(f, "name");
      if !IsTruthy(name) then Err(WindowMissingName)
      else
        var acts := Or(Get(f, "actions"), Arr([]));
        if !acts.Arr? then Err(ActionsNotAnArray)
        else
          match ParseAll(acts.items, ParseAction)
          case Err(e) => Err(e)
          case Ok(actions) => Ok(Window(name.value.s, RawDir(Get(f, "dir")), actions))
  }

  /** A parsed window with its directory resolved against the base. */
  function Resolve(expand: string -> string, w: Window, base: string): Window {
    w.(dir := Some(NormalizeDir(expand, w.dir, base)))
  }

  /** Every parsed window resolved against the same base, in order. */
  function ResolveAll(expand: string -> string, parsed: seq<Window>, base: string): seq<Window> {
    seq(|parsed|, k requires 0 <= k < |parsed| => Resolve(expand, parsed[k], base))
  }

  // -----------------------------------------------------------------------
  // load_config, from the parsed document on.

  function SessionNode(doc: map<string, Node>): Node {
    Or(Get(doc, "session"), Table(map[]))
  }

  function WindowsNode(doc: map<string, Node>): Node {
    Or(Get(doc, "windows"), Arr([]))
  }

  /** `data.get("env") or {}`, its values being strings. */
  function EnvOf(doc: map<string, Node>): (env: map<string, string>)
    requires EnvShape(Get(doc, "env"))
  {
    if IsTruthy(Get(doc, "env")) then
      var t := doc["env"].fields;
      map k | k in t :: t[k].s
    else map[]
  }

  /** The whole load as one function: the specification `LoadConfig` is
      proved against. */
  function Load(doc: map<string, Node>, expand: string -> string): Result<Config>
    requires WellShaped(doc)
  {
    var s := SessionNode(doc);
    if !s.Table? then Err(SessionNotATable)
    else
      var name := Get(s.fields, "name");
      var defaultDir := Get(s.fields, "default_dir");
      if !IsTruthy(name) || !IsTruthy(defaultDir) then Err(MissingSessionFields)
      else
        var ws := WindowsNode(doc);
        if !Truthy(ws) then Err(NoWindows)
        else if !ws.Arr? then Err(WindowsNotAnArray)
        else
          match ParseAll(ws.items, ParseWindow)
          case Err(e) => Err(e)
          case Ok(parsed) =>
            var base := defaultDir.value.s;
            var session := Session(
              name.value.s,
              expand(base),
              Truthy(GetOr(s.fields, "attach", Bool(true))),
              if IsTruthy(Get(s.fields, "focus_window")) then Some(s.fields["focus_window"].s) else None);
            Ok(Config(session, EnvOf(doc), ResolveAll(expand, parsed, base)))
  }

  /** `load_config`: builds the windows one by one, stopping at the first
      error, then resolves every window's directory in a second pass, and
      finally expands the session's own base directory. */
  method LoadConfig(doc: map<string, Node>, expand: string -> string) returns (r: Result<Config>)
    requires WellShaped(doc)
    ensures r == Load(doc, expand)
  {
    var s := SessionNode(doc);
    if !s.Table? {
      return Err(SessionNotATable);
    }
    var name := Get(s.fields, "name");
    var defaultDir := Get(s.fields, "default_dir");
    if !IsTruthy(name) || !IsTruthy(defaultDir) {
      return Err(MissingSessionFields);
    }
    var session := Session(
      name.value.s,
      defaultDir.value.s,
      Truthy(GetOr(s.fields, "attach", Bool(true))),
      if IsTruthy(Get(s.fields, "focus_window")) then Some(s.fields["focus_window"].s) else None);

    var env := EnvOf(doc);

    var windowsRaw := WindowsNode(doc);
    if !Truthy(windowsRaw) {
      return Err(NoWindows);
    }
    if !windowsRaw.Arr? {
      return Err(WindowsNotAnArray);
    }
    var parsed := BuildWindows(windowsRaw.items);
    if parsed.Err? {
      return Err(parsed.error);
    }
    // Resolve dirs relative to the session's (unexpanded) base directory.
    var windows := ResolveDirs(expand, parsed.value, session.defaultDir);

    assert parsed == ParseAll(windowsRaw.items, ParseWindow);
    assert env == EnvOf(doc);
    session := session.(defaultDir := expand(session.defaultDir));
    return Ok(Config(session, env, windows));
  }

  /** `load_config`'s first loop: append each parsed window, stopping at the
      first entry that fails. */
  method BuildWindows(items: seq<Node>) returns (r: Result<seq<Window>>)
    requires forall k :: 0 <= k < |items| ==> WindowShape(items[k])
    ensures r == ParseAll(items, ParseWindow)
  {
    var windows: seq<Window> := [];
    var i := 0;
    while i < |items|
      invariant 0 <= i <= |items|
      invariant |windows| == i
      invariant forall k :: 0 <= k < i ==> ParseWindow(items[k]) == Ok(windows[k])
    {
      var w := ParseWindow(items[i]);
      if w.Err? {
        ParseAllFirstError(items, ParseWindow, i);
        return Err(w.error);
      }
      windows := windows + [w.value];
      i := i + 1;
    }
    ghost var all := ParseAll(items, ParseWindow);
    assert all.Ok?;
    assert all.value == windows;
    return Ok(windows);
  }

  /** `load_config`'s second loop: overwrite each window's directory with its
      resolved form, window by window. */
  method ResolveDirs(expand: string -> string, parsed: seq<Window>, base: string) returns (windows: seq<Window>)
    ensures windows == ResolveAll(expand, parsed, base)
  {
    windows := parsed;
    var j := 0;
    while j < |windows|
      invariant 0 <= j <= |windows| == |parsed|
      invariant forall k :: 0 <= k < j ==> windows[k] == Resolve(expand, parsed[k], base)
      invariant forall k :: j <= k < |windows| ==> windows[k] == parsed[k]
    {
      windows := windows[j := windows[j].(dir := Some(NormalizeDir(expand, windows[j].dir, base)))];
      j := j + 1;
    }
  }
}
