/** The configuration model of tmuxgen (tmuxgen/models.py): the three kinds of
    pane action, windows, the session and the root configuration. The Python
    dataclasses' field defaults are the constructors' default arguments here. */
module Models {

  import opened Wrappers

  /** `SendAction | KeysAction | SleepAction`. The Python classes carry a
      `type` field fixed to a literal; here the variant is the tag and
      `Type()` gives the literal back. */
  datatype Action =
    | SendAction(text: string := "", enter: bool := true)
    | KeysAction(keys: seq<string> := [], enter: bool := false)
    | SleepAction(ms: int := 50)
  {
    /** The `type` literal of the variant; each variant has its own. */
    function Type(): (t: string)
      ensures t == "send" <==> SendAction?
      ensures t == "keys" <==> KeysAction?
      ensures t == "sleep" <==> SleepAction?
      ensures t in {"send", "keys", "sleep"}
    {
      match this
      case SendAction(_, _) => "send"
      case KeysAction(_, _) => "keys"
      case SleepAction(_) => "sleep"
    }
  }

  /** A window: its name, its working directory (absent until the loader
      resolves it) and its actions in order. */
  datatype Window = Window(name: string, dir: Option<string> := None, actions: seq<Action> := [])

  datatype Session = Session(
    name: string,
    defaultDir: string,
    attach: bool := true,
    focusWindow: Option<string> := None)

  /** The root aggregate. The model itself allows an empty window list; the
      rule that there is at least one window belongs to the loader. */
  datatype Config = Config(session: Session, env: map<string, string> := map[], windows: seq<Window> := [])

  /** The defaults of every dataclass field that has one. */
  lemma DataclassDefaults(name: string, dir: string, s: Session)
    ensures SendAction().text == "" && SendAction().enter
    ensures KeysAction().keys == [] && !KeysAction().enter
    ensures SleepAction().ms == 50
    ensures Window(name).dir == None && Window(name).actions == []
    ensures Session(name, dir).attach && Session(name, dir).focusWindow == None
    ensures Config(s).env == map[] && Config(s).windows == []
  {
  }
}
