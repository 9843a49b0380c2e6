/** What the loader guarantees: how directories resolve, the action
    defaults, which documents fail and with which error, and what a
    successfully loaded `Config` holds. */
module LoaderProperties {

  import opened Wrappers
  import opened Tree
  import opened Models
  import opened Paths
  import opened Loader

  // -----------------------------------------------------------------------
  // _normalize_dir

  /** An absent, empty or `.` directory is the expanded base, whatever else. */
  lemma NormalizeDirDefault(expand: string -> string, path: Option<string>, base: string)
    requires path == None || path == Some("") || path == Some(".")
    ensures NormalizeDir(expand, path, base) == expand(base)
  {
  }

  /** A directory that expands to an absolute path is that path; the base
      plays no part. */
  lemma NormalizeDirAbsolute(expand: string -> string, p: string, base: string, otherBase: string)
    requires p != "" && p != "." && IsAbs(expand(p))
    ensures NormalizeDir(expand, Some(p), base) == expand(p)
    ensures NormalizeDir(expand, Some(p), base) == NormalizeDir(expand, Some(p), otherBase)
  {
  }

  /** A directory that expands to a relative path is joined onto the
      expanded base and normalised; the result is already normal, and it is a
      clean absolute path when the expanded base is absolute. */
  lemma NormalizeDirRelative(expand: string -> string, p: string, base: string)
    requires p != "" && p != "." && !IsAbs(expand(p))
    ensures NormalizeDir(expand, Some(p), base) == NormPath(JoinPath(expand(base), expand(p)))
    ensures NormPath(NormalizeDir(expand, Some(p), base)) == NormalizeDir(expand, Some(p), base)
    ensures IsAbs(expand(base)) ==> IsCleanAbsolute(NormalizeDir(expand, Some(p), base))
  {
    var joined := JoinPath(expand(base), expand(p));
    NormPathIdempotent(joined);
    if IsAbs(expand(base)) {
      NormPathCleanAbsolute(joined);
    }
  }

  /** Whatever the window's directory, it resolves to an absolute path as
      soon as the expanded base is absolute. */
  lemma ResolvedDirIsAbsolute(expand: string -> string, path: Option<string>, base: string)
    requires IsAbs(expand(base))
    ensures IsAbs(NormalizeDir(expand, path, base))
  {
    if path != None && path != Some("") && path != Some(".") && !IsAbs(expand(path.value)) {
      NormPathCleanAbsolute(JoinPath(expand(base), expand(path.value)));
    }
  }

  // -----------------------------------------------------------------------
  // _parse_action

  /** `send`: `text` defaults to the empty string and `enter` to true, the
      dataclass defaults of `SendAction`. */
  lemma ParseSend(f: map<string, Node>)
    requires Get(f, "type") == Some(Str("send")) && ("text" in f ==> f["text"].Str?)
    ensures ParseAction(Table(f)) == Ok(SendAction(
              if "text" in f then f["text"].s else SendAction().text,
              if "enter" in f then Truthy(f["enter"]) else SendAction().enter))
  {
  }

  /** `keys`: a missing or falsy `seq` is empty, a truthy non-array `seq` is
      an error, otherwise the keys are kept one for one and in order;
      `enter` defaults to false, the dataclass default of `KeysAction`. */
  lemma ParseKeys(f: map<string, Node>)
    requires Get(f, "type") == Some(Str("keys")) && ActionShape(Table(f))
    ensures var enter := if "enter" in f then Truthy(f["enter"]) else KeysAction().enter;
      && (!IsTruthy(Get(f, "seq")) ==> ParseAction(Table(f)) == Ok(KeysAction(KeysAction().keys, enter)))
      && (IsTruthy(Get(f, "seq")) && !f["seq"].Arr? ==> ParseAction(Table(f)) == Err(KeysSeqNotAnArray))
      && (IsTruthy(Get(f, "seq")) && f["seq"].Arr? ==>
            && ParseAction(Table(f)).Ok?
            && ParseAction(Table(f)).value.KeysAction?
            && ParseAction(Table(f)).value.enter == enter
            && |ParseAction(Table(f)).value.keys| == |f["seq"].items|
            && forall i :: 0 <= i < |f["seq"].items| ==> f["seq"].items[i] == Str(ParseAction(Table(f)).value.keys[i]))
  {
  }

  /** `sleep`: `ms` defaults to 50, the dataclass default of `SleepAction`. */
  lemma ParseSleep(f: map<string, Node>)
    requires Get(f, "type") == Some(Str("sleep")) && ("ms" in f ==> f["ms"].Int?)
    ensures ParseAction(Table(f)) == Ok(SleepAction(if "ms" in f then f["ms"].i else SleepAction().ms))
  {
  }

  /** Any other tag, a missing one included, is an unknown action type. */
  lemma ParseUnknown(f: map<string, Node>)
    requires Get(f, "type") !in {Some(Str("send")), Some(Str("keys")), Some(Str("sleep"))}
    ensures ParseAction(Table(f)) == Err(UnknownActionType(Get(f, "type")))
  {
  }

  /** A parsed action is of the variant its tag names. */
  lemma ParseActionTag(raw: Node)
    requires ActionShape(raw) && ParseAction(raw).Ok?
    ensures raw.Table? && Get(raw.fields, "type") == Some(Str(ParseAction(raw).value.Type()))
  {
  }

  /** The table a document would hold for an action. */
  function ActionTable(a: Action): (t: Node)
    ensures t.Table? && Get(t.fields, "type") == Some(Str(a.Type()))
  {
    match a
    case SendAction(text, enter) => Table(map["type" := Str("send"), "text" := Str(text), "enter" := Bool(enter)])
    case KeysAction(keys, enter) =>
      Table(map["type" := Str("keys"), "seq" := Arr(seq(|keys|, i requires 0 <= i < |keys| => Str(keys[i]))), "enter" := Bool(enter)])
    case SleepAction(ms) => Table(map["type" := Str("sleep"), "ms" := Int(ms)])
  }

  /** Every action can be written in a document: parsing its table gives it
      back. */
  lemma ParseActionTable(a: Action)
    ensures ActionShape(ActionTable(a)) && ParseAction(ActionTable(a)) == Ok(a)
  {
    match a
    case SendAction(text, enter) =>
    case KeysAction(keys, enter) =>
      var f := ActionTable(a).fields;
      var items := f["seq"].items;
      assert |items| == |keys|;
      if keys == [] {
        assert !IsTruthy(Get(f, "seq"));
      } else {
        assert Or(Get(f, "seq"), Arr([])) == f["seq"];
        assert StrItems(items) == keys;
      }
    case SleepAction(ms) =>
  }

  // -----------------------------------------------------------------------
  // load_config

  predicate SessionFieldsPresent(doc: map<string, Node>) {
    var s := SessionNode(doc);
    s.Table? && IsTruthy(Get(s.fields, "name")) && IsTruthy(Get(s.fields, "default_dir"))
  }

  /** The checks before any window is looked at, in the order they apply. */
  lemma LoadSessionAndWindowsChecks(doc: map<string, Node>, expand: string -> string)
    requires WellShaped(doc)
    ensures !SessionNode(doc).Table? ==> Load(doc, expand) == Err(SessionNotATable)
    ensures SessionNode(doc).Table? && !SessionFieldsPresent(doc) ==>
              Load(doc, expand) == Err(MissingSessionFields)
    ensures SessionFieldsPresent(doc) && !Truthy(WindowsNode(doc)) ==> Load(doc, expand) == Err(NoWindows)
    ensures SessionFieldsPresent(doc) && Truthy(WindowsNode(doc)) && !WindowsNode(doc).Arr? ==>
              Load(doc, expand) == Err(WindowsNotAnArray)
  {
  }

  /** Loading fails if and only if one of the checks fails. */
  lemma LoadOkIff(doc: map<string, Node>, expand: string -> string)
    requires WellShaped(doc)
    ensures Load(doc, expand).Ok? <==>
      && SessionFieldsPresent(doc)
      && WindowsNode(doc).Arr? && |WindowsNode(doc).items| >= 1
      && forall i :: 0 <= i < |WindowsNode(doc).items| ==> ParseWindow(WindowsNode(doc).items[i]).Ok?
  {
  }

  /** A window entry without a truthy name fails. */
  lemma ParseWindowWithoutName(f: map<string, Node>)
    requires WindowShape(Table(f)) && !IsTruthy(Get(f, "name"))
    ensures ParseWindow(Table(f)) == Err(WindowMissingName)
  {
  }

  /** Errors are not accumulated: the first window entry that fails decides
      the error, whatever the later ones hold. */
  lemma LoadFirstWindowError(doc: map<string, Node>, expand: string -> string, i: nat)
    requires WellShaped(doc) && SessionFieldsPresent(doc) && WindowsNode(doc).Arr?
    requires i < |WindowsNode(doc).items| && ParseWindow(WindowsNode(doc).items[i]).Err?
    requires forall j :: 0 <= j < i ==> ParseWindow(WindowsNode(doc).items[j]).Ok?
    ensures Load(doc, expand) == Err(ParseWindow(WindowsNode(doc).items[i]).error)
  {
    ParseAllFirstError(WindowsNode(doc).items, ParseWindow, i);
  }

  /** A loaded window: the entry's name, its directory resolved against the
      raw session base, and its actions parsed one for one and in order. */
  predicate WindowLoadedFrom(expand: string -> string, raw: Node, base: string, w: Window)
    requires WindowShape(raw)
  {
    && raw.Table?
    && IsTruthy(Get(raw.fields, "name"))
    && w.name == raw.fields["name"].s
    && w.dir == Some(NormalizeDir(expand, RawDir(Get(raw.fields, "dir")), base))
    && var acts := Or(Get(raw.fields, "actions"), Arr([]));
       && acts.Arr?
       && |w.actions| == |acts.items|
       && forall j :: 0 <= j < |acts.items| ==> ParseAction(acts.items[j]) == Ok(w.actions[j])
  }

  /** What a successful load holds. */
  lemma LoadOk(doc: map<string, Node>, expand: string -> string)
    requires WellShaped(doc) && Load(doc, expand).Ok?
    ensures SessionFieldsPresent(doc) && WindowsNode(doc).Arr?
    ensures var c := Load(doc, expand).value;
            var f := SessionNode(doc).fields;
            var items := WindowsNode(doc).items;
      && c.session.name == f["name"].s
      && c.session.defaultDir == expand(f["default_dir"].s)
      && c.session.attach == (if "attach" in f then Truthy(f["attach"]) else Session("", "").attach)
      && c.session.focusWindow == (if IsTruthy(Get(f, "focus_window")) then Some(f["focus_window"].s) else None)
      && c.env == EnvOf(doc)
      && 1 <= |c.windows| == |items|
      && forall i :: 0 <= i < |items| ==> WindowLoadedFrom(expand, items[i], f["default_dir"].s, c.windows[i])
  {
    var f := SessionNode(doc).fields;
    var items := WindowsNode(doc).items;
    var parsed := ParseAll(items, ParseWindow).value;
    var c := Load(doc, expand).value;
    forall i | 0 <= i < |items|
      ensures WindowLoadedFrom(expand, items[i], f["default_dir"].s, c.windows[i])
    {
      assert ParseWindow(items[i]) == Ok(parsed[i]);
    }
  }

  /** `env` is passed through: the same keys with the same string values. */
  lemma LoadEnv(doc: map<string, Node>, expand: string -> string)
    requires WellShaped(doc) && Load(doc, expand).Ok?
    ensures var env := Load(doc, expand).value.env;
      && (IsTruthy(Get(doc, "env")) ==>
            && env.Keys == doc["env"].fields.Keys
            && forall k :: k in env ==> doc["env"].fields[k] == Str(env[k]))
      && (!IsTruthy(Get(doc, "env")) ==> env == map[])
  {
    if IsTruthy(Get(doc, "env")) {
      var t := doc["env"].fields;
      assert EnvOf(doc).Keys == t.Keys;
    }
  }

  /** The state the renderer relies on: at least one window, and the session
      base and every window directory absolute. */
  predicate Resolved(c: Config) {
    && |c.windows| >= 1
    && IsAbs(c.session.defaultDir)
    && forall i :: 0 <= i < |c.windows| ==> c.windows[i].dir.Some? && IsAbs(c.windows[i].dir.value)
  }

  /** A successful load with an absolute expanded base gives a resolved
      configuration. */
  lemma LoadResolved(doc: map<string, Node>, expand: string -> string)
    requires WellShaped(doc) && Load(doc, expand).Ok?
    requires IsAbs(expand(SessionNode(doc).fields["default_dir"].s))
    ensures Resolved(Load(doc, expand).value)
  {
    var base := SessionNode(doc).fields["default_dir"].s;
    var parsed := ParseAll(WindowsNode(doc).items, ParseWindow).value;
    var c := Load(doc, expand).value;
    forall i | 0 <= i < |c.windows|
      ensures c.windows[i].dir.Some? && IsAbs(c.windows[i].dir.value)
    {
      ResolvedDirIsAbsolute(expand, parsed[i].dir, base);
    }
  }

  /** A document with only the required fields loads into the dataclass
      defaults: attach, no focus window, no environment, no actions, and the
      window in the base directory. */
  lemma LoadMinimal(name: string, dir: string, windowName: string, expand: string -> string)
    requires name != "" && dir != "" && windowName != ""
    ensures var doc := map[
              "session" := Table(map["name" := Str(name), "default_dir" := Str(dir)]),
              "windows" := Arr([Table(map["name" := Str(windowName)])])];
      && WellShaped(doc)
      && Load(doc, expand) == Ok(Config(
           Session(name, expand(dir)),
           windows := [Window(windowName, Some(expand(dir)))]))
  {
    var s := map["name" := Str(name), "default_dir" := Str(dir)];
    var w := map["name" := Str(windowName)];
    var doc := map["session" := Table(s), "windows" := Arr([Table(w)])];
    assert SessionNode(doc) == Table(s);
    assert WindowsNode(doc) == Arr([Table(w)]);
    assert ParseWindow(Table(w)) == Ok(Window(windowName, None, []));
    var parsed := Window(windowName, None, []);
    assert [Table(w)][..0] == [];
    assert ParseAll([Table(w)], ParseWindow) == Ok([] + [parsed]);
    assert ResolveAll(expand, [parsed], dir) == [Window(windowName, Some(expand(dir)))];
    assert EnvOf(doc) == map[];
    assert "attach" !in s && "focus_window" !in s;
    var c := Load(doc, expand);
    assert c.Ok?;
    assert c.value.session == Session(name, expand(dir));
    assert c.value.windows == [Window(windowName, Some(expand(dir)))];
  }
}
