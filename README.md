# tmuxgen loader and configuration model, in Dafny

tmuxgen turns a TOML description of a tmux session into a Bash script that
rebuilds the session: its windows, their working directories, and the text and
keys typed into each window. This project models the part that reads the
already-parsed document and builds the validated configuration. That part is
`load_config` and its helpers in `tmuxgen/loader.py`, plus the dataclasses in
`tmuxgen/models.py`.

- `wrappers.dfy` (`Wrappers`): `Option`, standing in for Python's `None`.
- `tree.dfy` (`Tree`): the parsed document, a tree of strings, integers,
  booleans, arrays and tables. Also Python's truthiness (`Truthy`),
  `dict.get` and `x or default`.
- `models.dfy` (`Models`): `SendAction`, `KeysAction` and `SleepAction` as the
  three variants of `Action`, plus `Window`, `Session` and `Config`. The
  dataclass field defaults are the constructors' default arguments.
- `paths.dfy` (`Paths`): the POSIX `os.path.isabs`, the two-argument
  `os.path.join` and `os.path.normpath`. `normpath` works on the list of
  `/`-separated segments and keeps POSIX's rule that exactly two leading
  slashes are preserved.
- `loader.dfy` (`Loader`): `_normalize_dir` (`NormalizeDir`), `_parse_action`
  (`ParseAction`), one window entry (`ParseWindow`), the specification function
  `Load`, and the method `LoadConfig`. `LoadConfig` runs the two loops of
  `load_config` (`BuildWindows`, `ResolveDirs`) and is proved equal to `Load`.
  `_expand_env` reads the process environment and the home directory. It is the
  parameter `expand: string -> string`, and nothing is assumed about it.
- `loader_properties.dfy` (`LoaderProperties`): lemmas about what the loader
  guarantees.

Errors are values of `Loader.LoadError`, one constructor per way the source
raises. Every error aborts the load, and the first one met wins.

The model follows what the code does, including where it accepts more than the
documented TOML schema:
- A `keys` action with a missing or falsy `seq` gets an empty key list, although
  the schema lists `seq` as a required field.
- `ms` may be any integer, negative included, although the schema describes it
  as a non-negative delay.
- The session's `default_dir` is only expanded, never normalised. A window
  whose `dir` is absent, empty or `.` gets that expanded, unnormalised base.
  When the expanded base is absolute, every window directory is absolute
  (`LoaderProperties.LoadResolved`). A window whose `dir` expands to an
  absolute path keeps it whatever the base (`LoaderProperties.NormalizeDirAbsolute`).
  With a relative base, a window whose `dir` is absent, empty, `.` or expands
  to a relative path comes out relative. The loader does not check that the
  base is absolute.
- A falsy `[session]`, `windows` or `actions` value is replaced by `{}` or
  `[]`. A falsy `[session]` then fails with `MissingSessionFields` and a falsy
  `windows` with `NoWindows`. A falsy `actions` gives a window with no actions.
- A truthy `[session]`, `windows` or `actions` value of the wrong kind, and a
  window entry or action that is not a table, make the source fail with an
  `AttributeError` or `TypeError`. The model has an error constructor for
  each of these.

## Model

| member | source | states |
|---|---|---|
| `Models.Action.Type` | tmuxgen/models.py:6-25 | The `type` literal of each variant is its own: "send" exactly for `SendAction`, "keys" exactly for `KeysAction`, "sleep" exactly for `SleepAction`. No other tag exists. |
| `Models.DataclassDefaults` | tmuxgen/models.py:9-44 | Field defaults: `text=""`, `enter=True` for send; `seq=[]`, `enter=False` for keys; `ms=50`; window `dir=None` with no actions; session `attach=True`, `focus_window=None`; config with empty `env` and an empty window list, which the model allows. |
| `Paths.JoinPath` | tmuxgen/loader.py:26 | `os.path.join(a, b)`: an absolute `b` wins. An empty `a` gives `b`. Otherwise exactly one `/` separates them: when `a` does not end with `/`, the segments of the result are those of `a` followed by those of `b`; when it does, the empty segment after `a`'s trailing `/` is replaced by `b`'s segments. The result is absolute when `a` is. |
| `Paths.NormPathIdempotent` | tmuxgen/loader.py:26 | Normalising a normalised path changes nothing. |
| `Paths.NormPathCleanAbsolute` | tmuxgen/loader.py:26 | Normalising an absolute path gives an absolute path with at most two leading slashes, no `.` or `..` segment, and no empty segment after the root. |
| `LoaderProperties.NormalizeDirDefault` | tmuxgen/loader.py:21-22 | An absent, empty or `.` directory resolves to the expanded base, whatever else holds. |
| `LoaderProperties.NormalizeDirAbsolute` | tmuxgen/loader.py:23-25 | A directory whose expansion is absolute resolves to that expansion unchanged. Two different bases give the same result. |
| `LoaderProperties.NormalizeDirRelative` | tmuxgen/loader.py:26 | A directory whose expansion is relative resolves to the normalised join of the expanded base and the expansion. The result is already normal. It is a clean absolute path when the expanded base is absolute. |
| `LoaderProperties.ResolvedDirIsAbsolute` | tmuxgen/loader.py:20-26 | For every directory value, the resolved directory is absolute whenever the expanded base is absolute. |
| `Loader.RawDir` | tmuxgen/loader.py:21 | A truthy `dir` is passed on as its string. A falsy one is passed on either as no directory (missing, or a falsy non-string) or as the empty string (`dir = ""`, which the source stores as is); both reach `_normalize_dir`'s default branch. |
| `LoaderProperties.ParseSend` | tmuxgen/loader.py:30-31 | `send` gives a `SendAction`. `text` defaults to the empty string and `enter` to true (the dataclass defaults). A given `enter` counts by its truthiness. |
| `LoaderProperties.ParseKeys` | tmuxgen/loader.py:32-36 | `keys` with a missing or falsy `seq` has no keys. A truthy non-array `seq` is a `KeysSeqNotAnArray` error. Otherwise there is one key per element, in order. `enter` defaults to false. |
| `LoaderProperties.ParseSleep` | tmuxgen/loader.py:37-38 | `sleep` gives a `SleepAction` with the given `ms`, 50 by default. |
| `LoaderProperties.ParseUnknown` | tmuxgen/loader.py:39 | Any other tag, a missing one included, is an `UnknownActionType` error that carries the tag. |
| `LoaderProperties.ParseActionTag` | tmuxgen/loader.py:28-39 | A successfully parsed action is the variant whose `type` literal is the table's tag. |
| `LoaderProperties.ParseActionTable` | tmuxgen/loader.py:28-39 | Every action can be written as an action table, and parsing that table gives the same action back. |
| `Loader.ParseAll` | tmuxgen/loader.py:64-69 | Parsing a list element by element succeeds exactly when every element parses. Then it yields one result per element, in order. Otherwise it yields the error of the first element that fails. |
| `Loader.ParseAllFirstError` | tmuxgen/loader.py:64-69 | When element `i` is the first that fails, the whole list fails with element `i`'s error, whatever follows it. |
| `Loader.BuildWindows` | tmuxgen/loader.py:64-70 | The append loop over the window entries, which stops at the first failing entry, returns exactly `ParseAll` of the entries. |
| `Loader.ResolveDirs` | tmuxgen/loader.py:72-75 | The second loop, which overwrites each window's directory in turn, leaves every window resolved against the raw base and nothing else changed. |
| `Loader.LoadConfig` | tmuxgen/loader.py:45-80 | The imperative `load_config` returns exactly what the specification `Load` gives, error or configuration. |
| `LoaderProperties.LoadSessionAndWindowsChecks` | tmuxgen/loader.py:45-62 | The checks in order. A truthy non-table session fails first. A missing or falsy `name` or `default_dir` fails with `MissingSessionFields`. Then absent or empty windows fail with `NoWindows`, and a truthy non-array fails with `WindowsNotAnArray`. |
| `LoaderProperties.LoadOkIff` | tmuxgen/loader.py:45-70 | Loading succeeds if and only if the session fields are present, `windows` is a non-empty array, and every window entry parses. |
| `LoaderProperties.ParseWindowWithoutName` | tmuxgen/loader.py:66-68 | A window table without a truthy `name` is a `WindowMissingName` error. |
| `LoaderProperties.LoadFirstWindowError` | tmuxgen/loader.py:64-70 | Errors are not accumulated: after the session checks pass, the first failing window entry decides the load's error. |
| `LoaderProperties.LoadOk` | tmuxgen/loader.py:51-80 | On success: the session name is kept and its base is expanded. `attach` defaults to true and an empty `focus_window` is none. `env` is as given. There is at least one window, with as many windows as entries and in order. Each window keeps its entry's name. Its directory is `NormalizeDir` of its raw `dir` against the raw base. Its actions come one per table, in order. |
| `LoaderProperties.LoadEnv` | tmuxgen/loader.py:58 | A truthy `env` table comes through with the same keys and the same string values. Otherwise `env` is empty. |
| `LoaderProperties.LoadResolved` | tmuxgen/loader.py:72-78 | With an absolute expanded base, a loaded configuration has at least one window, an absolute session base, and an absolute directory in every window. |
| `LoaderProperties.LoadMinimal` | tmuxgen/loader.py:51-70 | A document with only the required fields loads into the dataclass defaults. `attach` is true, there is no focus window, `env` is empty, there are no actions, and the window's directory is the expanded base. |

## Left out

- Reading and parsing the TOML file (tmuxgen/loader.py:42-43) is left out. The model starts from the parsed document, and TOML floats and date-times are not among its node kinds.
- `_expand_env` (tmuxgen/loader.py:16-18) depends on the process environment and the home directory. It is the parameter `expand`, with no assumed properties.
- Loader.LoadConfig: requires `WellShaped(doc)`. This replaces the `str()` and `int()` coercions of off-type values (tmuxgen/loader.py:31, 36, 38) and the passing of non-string values to `_expand_env`. Names, directories and `focus_window` are taken to be strings when truthy. `env` is a table of strings. `text` and the elements of `seq` are strings. `ms` is an integer. `bool()` needs no such requirement: it is modelled exactly as truthiness.
- Loader.ParseAction: requires `ActionShape(raw)`, for the same coercions.
- Loader.Load: requires `WellShaped(doc)`, for the same coercions.
- The error message texts are not modelled. Each error is a `LoadError` constructor, and an unknown tag is carried as its node rather than its `str()` rendering.
- The in-place updates of `w.dir` (tmuxgen/loader.py:75) and `session.default_dir` (tmuxgen/loader.py:78) become value updates of the window sequence and the session record. This loses nothing, because every window object is freshly built and no other reference to it exists.
- Between the two loops, a falsy non-string `dir` is held as no directory. `_normalize_dir` treats both the same way.
- The `seq` field of `KeysAction` is called `keys`, because `seq` is a Dafny keyword.
- LoaderProperties.LoadResolved: holds only when the expanded session base is absolute. The loader neither checks nor absolutises a relative `default_dir`.
- The Bash renderer (`renderers/bash.py`) is not part of this model. Its source is not among the repository files modelled, so its quoting and command order are not modelled either.
- tmuxgen/cli.py (argument parsing, output file, chmod) and tmuxgen/utils.py (`die`) are process I/O and are left out.
