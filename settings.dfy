/** The user settings file: one `key: value` line per setting, where the words
    None, True and False stand for Python's sentinels. The file lives in the
    package's supporting files; here it is the `file` field of a store object,
    absent until it is first written. */
module Settings {
  import opened Wrappers
  import opened Text
  import opened Dicts

  const AIRFOIL_DATABASE := "airfoil_database"
  const PROPELLER_DATABASE := "propeller_database"

  /** A setting's value: text, or one of the three sentinel words. */
  datatype Setting = Path(path: string) | NoneWord | TrueWord | FalseWord

  /** `'{}'.format(val)` */
  function Render(v: Setting): string
  {
    match v
    case Path(p) => p
    case NoneWord => "None"
    case TrueWord => "True"
    case FalseWord => "False"
  }

  predicate IsSentinelWord(s: string) { s == "None" || s == "True" || s == "False" }

  /** The value read back from the text after `': '`. */
  function ReadValue(val: string): Setting
  {
    if val == "None" then NoneWord
    else if val == "True" then TrueWord
    else if val == "False" then FalseWord
    else Path(val)
  }

  /** Writing a value and reading it back gives it again, except for a path
      that is spelled like a sentinel word; reading and writing text always
      gives the text again. */
  lemma RenderRead(v: Setting, s: string)
    ensures ReadValue(Render(v)) == v <==> !(v.Path? && IsSentinelWord(v.path))
    ensures Render(ReadValue(s)) == s
  {
  }

  // ------------------------------------------------------------ reading

  /** The lines of the file that hold settings. */
  function SettingLines(text: string): seq<string>
  {
    NonBlank(Split(Strip(text), "\n"))
  }

  /** `key, val = line.split(': ', 1)`, which fails when there is no `': '`. */
  function ParseSettingLine(line: string): (r: Result<(string, Setting)>)
    ensures r.Fail? <==> !Contains(line, ": ")
    ensures r.Fail? ==> r.exc == ValueError
    ensures r.Ok? ==> line == r.value.0 + ": " + Render(r.value.1) && !Contains(r.value.0, ": ")
  {
    var parts := SplitOnce(line, ": ");
    if |parts| == 1 then Fail(ValueError)
    else
      RenderRead(Path(""), parts[1]);
      Ok((parts[0], ReadValue(parts[1])))
  }

  /** The settings read from `lines` on top of `acc`: a later line for the
      same key replaces the value in place. */
  function ParseSettingsFrom(acc: Dict<string, Setting>, lines: seq<string>): Result<Dict<string, Setting>>
    decreases |lines|
  {
    if |lines| == 0 then Ok(acc)
    else
      match ParseSettingLine(lines[0])
      case Fail(e) => Fail(e)
      case Ok((k, v)) => ParseSettingsFrom(Put(acc, k, v), lines[1..])
  }

  /** The dictionary `_get_user_settings` returns for the file text. */
  function ParseSettings(text: string): (r: Result<Dict<string, Setting>>)
    ensures r.Fail? ==> r.exc == ValueError
    ensures r.Ok? ==> NoDupKeys(r.value) && |r.value| <= |SettingLines(text)|
  {
    SettingsFromKeys([], SettingLines(text));
    ParseSettingsFrom([], SettingLines(text))
  }

  /** Reading on top of `acc` adds at most one key per line, never a key
      twice, and fails only with ValueError. */
  lemma {:induction false} SettingsFromKeys(acc: Dict<string, Setting>, lines: seq<string>)
    ensures var r := ParseSettingsFrom(acc, lines);
      && (r.Fail? ==> r.exc == ValueError)
      && (r.Ok? ==> |r.value| <= |acc| + |lines| && (NoDupKeys(acc) ==> NoDupKeys(r.value)))
    decreases |lines|
  {
    if |lines| > 0 {
      match ParseSettingLine(lines[0])
      case Fail(_) =>
      case Ok((k, v)) =>
        PutNoDup(acc, k, v);
        SettingsFromKeys(Put(acc, k, v), lines[1..]);
    }
  }

  /** `_get_user_settings` on the text of the file. */
  method ReadSettings(text: string) returns (r: Result<Dict<string, Setting>>)
    ensures r == ParseSettings(text)
  {
    var lines := SettingLines(text);
    var settings: Dict<string, Setting> := [];
    var i := 0;
    while i < |lines|
      invariant 0 <= i <= |lines|
      invariant ParseSettings(text) == ParseSettingsFrom(settings, lines[i..])
    {
      assert lines[i..][1..] == lines[i + 1..];
      var line := ParseSettingLine(lines[i]);
      if line.Fail? {
        return Fail(line.exc);
      }
      var (key, val) := line.value;
      settings := Put(settings, key, val);
      i := i + 1;
    }
    return Ok(settings);
  }

  // ------------------------------------------------------------ writing

  /** The line `_save_settings` writes for one setting. */
  function SavedLine(key: string, v: Setting): string
  {
    key + ": " + Render(v) + "\n"
  }

  /** The value saved for `key`: the new one, else the saved one, else the default. */
  function Chosen(key: string, newSett: Dict<string, Setting>, oldSett: Dict<string, Setting>,
                  default: Setting): (v: Setting)
    ensures HasKey(newSett, key) ==> Some(v) == Get(newSett, key)
    ensures !HasKey(newSett, key) && HasKey(oldSett, key) ==> Some(v) == Get(oldSett, key)
    ensures !HasKey(newSett, key) && !HasKey(oldSett, key) ==> v == default
  {
    match Get(newSett, key)
    case Some(v) => v
    case None =>
      match Get(oldSett, key)
      case Some(v) => v
      case None => default
  }

  /** The file text written for the defaults' keys, in the defaults' order. */
  function SavedText(defaults: Dict<string, Setting>, newSett: Dict<string, Setting>,
                     oldSett: Dict<string, Setting>): (r: string)
    ensures r == "" <==> |defaults| == 0
  {
    if |defaults| == 0 then ""
    else
      var (key, default) := defaults[|defaults| - 1];
      SavedText(defaults[..|defaults| - 1], newSett, oldSett)
        + SavedLine(key, Chosen(key, newSett, oldSett, default))
  }

  /** The writing loop of `_save_settings`: one line per default key, holding
      the new value, else the saved value, else the default. */
  method WriteSettings(defaults: Dict<string, Setting>, newSett: Dict<string, Setting>,
                       oldSett: Dict<string, Setting>) returns (out: string)
    ensures out == SavedText(defaults, newSett, oldSett)
  {
    out := "";
    var i := 0;
    while i < |defaults|
      invariant 0 <= i <= |defaults|
      invariant out == SavedText(defaults[..i], newSett, oldSett)
    {
      var (key, default) := defaults[i];
      var val: Setting;
      if HasKey(newSett, key) {
        val := Get(newSett, key).value;
      } else if HasKey(oldSett, key) {
        val := Get(oldSett, key).value;
      } else {
        val := default;
      }
      out := out + SavedLine(key, val);
      assert defaults[..i + 1][..i] == defaults[..i];
      i := i + 1;
    }
    assert defaults[..i] == defaults;
  }

  /** The package defaults, in the order they are written. */
  function Defaults(foilDb: string, propDb: string): Dict<string, Setting>
  {
    [(AIRFOIL_DATABASE, Path(foilDb)), (PROPELLER_DATABASE, Path(propDb))]
  }

  /** The settings file text holds exactly one line per default key. */
  lemma SavedTextLines(foilDb: string, propDb: string, newSett: Dict<string, Setting>,
                       oldSett: Dict<string, Setting>)
    ensures SavedText(Defaults(foilDb, propDb), newSett, oldSett)
         == SavedLine(AIRFOIL_DATABASE, Chosen(AIRFOIL_DATABASE, newSett, oldSett, Path(foilDb)))
          + SavedLine(PROPELLER_DATABASE, Chosen(PROPELLER_DATABASE, newSett, oldSett, Path(propDb)))
  {
    var d := Defaults(foilDb, propDb);
    var a := SavedLine(AIRFOIL_DATABASE, Chosen(AIRFOIL_DATABASE, newSett, oldSett, Path(foilDb)));
    var b := SavedLine(PROPELLER_DATABASE, Chosen(PROPELLER_DATABASE, newSett, oldSett, Path(propDb)));
    assert d[..1][..0] == [];
    assert d[..1] == [d[0]];
    assert d[..2] == d;
    assert SavedText(d[..1], newSett, oldSett) == "" + a == a;
    assert SavedText(d, newSett, oldSett) == a + b;
  }

  // ------------------------------------------------------------ round trip

  /** A value that reads back as itself from a line of its own. */
  predicate Clean(v: Setting)
  {
    Excludes(Render(v), '\n') && !(v.Path? && IsSentinelWord(v.path))
  }

  /** A value that also survives the stripping of the file's end. */
  predicate CleanLast(v: Setting)
  {
    Clean(v) && |Render(v)| > 0 && !IsSpace(Render(v)[|Render(v)| - 1])
  }

  lemma StripFinalNewline(x: string)
    requires |x| > 0 && !IsSpace(x[0]) && !IsSpace(x[|x| - 1])
    ensures Strip(x + "\n") == x
  {
    var s := x + "\n";
    LeadCountExact(s, IsSpace, 0);
    assert s[..|s| - 1] == x;
    assert TrailCount(x, IsSpace) == 0;
    assert TrailCount(s, IsSpace) == 1;
  }

  /** A setting line splits at the end of its key. */
  lemma ParseSavedLine(key: string, v: Setting)
    requires Excludes(key, ':') && Clean(v)
    ensures ParseSettingLine(key + ": " + Render(v)) == Ok((key, v))
  {
    var line := key + ": " + Render(v);
    FirstOccurrenceAfter(key, ": ", Render(v));
    assert line[..|key|] == key;
    assert line[|key| + 2..] == Render(v);
    assert SplitOnce(line, ": ") == [key, Render(v)];
  }

  lemma KeyLineChars(key: string, v: Setting)
    requires |key| > 0 && !IsSpace(key[0]) && Excludes(key, '\n') && Clean(v)
    ensures Excludes(key + ": " + Render(v), '\n')
    ensures Strip(key + ": " + Render(v)) != ""
  {
    var line := key + ": " + Render(v);
    forall i | 0 <= i < |line| ensures line[i] != '\n' {
      if i >= |key| + 2 { assert line[i] == Render(v)[i - |key| - 2]; }
      else if i < |key| { assert line[i] == key[i]; }
    }
    assert line[0] == key[0];
    assert LeadCount(line, IsSpace) == 0;
  }

  /** Two setting lines written one after the other are the file's two lines. */
  lemma TwoSettingLines(l1: string, l2: string)
    requires Excludes(l1, '\n') && Excludes(l2, '\n')
    requires |l1| > 0 && !IsSpace(l1[0]) && |l2| > 0 && !IsSpace(l2[|l2| - 1])
    requires Strip(l1) != "" && Strip(l2) != ""
    ensures SettingLines(l1 + "\n" + l2 + "\n") == [l1, l2]
  {
    StripTwoLines(l1, l2);
    SplitTwoLines(l1, l2);
    NonBlankTwo(l1, l2);
  }

  lemma StripTwoLines(l1: string, l2: string)
    requires |l1| > 0 && !IsSpace(l1[0]) && |l2| > 0 && !IsSpace(l2[|l2| - 1])
    ensures Strip(l1 + "\n" + l2 + "\n") == l1 + "\n" + l2
  {
    var body := l1 + "\n" + l2;
    assert body[0] == l1[0];
    assert body[|body| - 1] == l2[|l2| - 1];
    StripFinalNewline(body);
  }

  lemma SplitTwoLines(l1: string, l2: string)
    requires Excludes(l1, '\n') && Excludes(l2, '\n')
    ensures Split(l1 + "\n" + l2, "\n") == [l1, l2]
  {
    assert Join([l1, l2], "\n") == l1 + "\n" + l2;
    SplitJoin([l1, l2], "\n");
  }

  lemma NonBlankTwo(l1: string, l2: string)
    requires Strip(l1) != "" && Strip(l2) != ""
    ensures NonBlank([l1, l2]) == [l1, l2]
  {
    assert [l1, l2][1..] == [l2];
    assert [l2][1..] == [];
  }

  /** Reading two setting lines with different keys gives both settings in order. */
  lemma ParseTwoLines(l1: string, l2: string, k1: string, v1: Setting, k2: string, v2: Setting)
    requires k1 != k2
    requires ParseSettingLine(l1) == Ok((k1, v1)) && ParseSettingLine(l2) == Ok((k2, v2))
    ensures ParseSettingsFrom([], [l1, l2]) == Ok([(k1, v1), (k2, v2)])
  {
    var d0: Dict<string, Setting> := [];
    var d1 := Put(d0, k1, v1);
    var d2 := Put(d1, k2, v2);
    assert d1 == [(k1, v1)];
    assert !HasKey(d1, k2);
    assert d2 == [(k1, v1), (k2, v2)];
    assert ParseSettingsFrom(d2, []) == Ok(d2);
    assert [l2][1..] == [];
    assert ParseSettingsFrom(d1, [l2]) == ParseSettingsFrom(d2, []);
    assert [l1, l2][1..] == [l2];
    assert ParseSettingsFrom(d0, [l1, l2]) == ParseSettingsFrom(d1, [l2]);
  }

  /** The two keys are plain words. */
  lemma KeyChars(key: string)
    requires key == AIRFOIL_DATABASE || key == PROPELLER_DATABASE
    ensures |key| > 0 && !IsSpace(key[0]) && Excludes(key, ':') && Excludes(key, '\n')
  {
    forall i | 0 <= i < |key| ensures 'a' <= key[i] <= 'z' || key[i] == '_' {
    }
  }

  /** Saving two clean values and reading the file back gives exactly those
      values under the two keys, in order. */
  lemma SaveReadRoundTrip(v1: Setting, v2: Setting)
    requires Clean(v1) && CleanLast(v2)
    ensures ParseSettings(SavedLine(AIRFOIL_DATABASE, v1) + SavedLine(PROPELLER_DATABASE, v2))
         == Ok([(AIRFOIL_DATABASE, v1), (PROPELLER_DATABASE, v2)])
  {
    var l1 := AIRFOIL_DATABASE + ": " + Render(v1);
    var l2 := PROPELLER_DATABASE + ": " + Render(v2);
    var text := SavedLine(AIRFOIL_DATABASE, v1) + SavedLine(PROPELLER_DATABASE, v2);
    KeyChars(AIRFOIL_DATABASE);
    KeyChars(PROPELLER_DATABASE);
    assert SettingLines(text) == [l1, l2] by {
      assert text == l1 + "\n" + l2 + "\n";
      KeyLineChars(AIRFOIL_DATABASE, v1);
      KeyLineChars(PROPELLER_DATABASE, v2);
      assert l1[0] == 'a';
      assert l2[|l2| - 1] == Render(v2)[|Render(v2)| - 1];
      TwoSettingLines(l1, l2);
    }
    assert ParseSettingsFrom([], [l1, l2]) == Ok([(AIRFOIL_DATABASE, v1), (PROPELLER_DATABASE, v2)]) by {
      ParseSavedLine(AIRFOIL_DATABASE, v1);
      ParseSavedLine(PROPELLER_DATABASE, v2);
      ParseTwoLines(l1, l2, AIRFOIL_DATABASE, v1, PROPELLER_DATABASE, v2);
    }
  }

  /** After `set_airfoil_database(path)` the file reads back with the new path
      and with the propeller database as it was saved before (or its default). */
  lemma SetAirfoilReadBack(path: string, oldSett: Dict<string, Setting>, foilDb: string, propDb: string)
    requires Clean(Path(path))
    requires CleanLast(Chosen(PROPELLER_DATABASE, [], oldSett, Path(propDb)))
    ensures ParseSettings(SavedText(Defaults(foilDb, propDb), [(AIRFOIL_DATABASE, Path(path))], oldSett))
         == Ok([(AIRFOIL_DATABASE, Path(path)),
                (PROPELLER_DATABASE, Chosen(PROPELLER_DATABASE, [], oldSett, Path(propDb)))])
  {
    var newSett := [(AIRFOIL_DATABASE, Path(path))];
    SavedTextLines(foilDb, propDb, newSett, oldSett);
    assert Get(newSett, AIRFOIL_DATABASE) == Some(Path(path));
    assert !HasKey(newSett, PROPELLER_DATABASE);
    var none: Dict<string, Setting> := [];
    assert !HasKey(none, PROPELLER_DATABASE);
    SaveReadRoundTrip(Path(path), Chosen(PROPELLER_DATABASE, [], oldSett, Path(propDb)));
  }

  /** After `set_propeller_database(path)` the file reads back with the new path
      and with the airfoil database as it was saved before (or its default). */
  lemma SetPropellerReadBack(path: string, oldSett: Dict<string, Setting>, foilDb: string, propDb: string)
    requires CleanLast(Path(path))
    requires Clean(Chosen(AIRFOIL_DATABASE, [], oldSett, Path(foilDb)))
    ensures ParseSettings(SavedText(Defaults(foilDb, propDb), [(PROPELLER_DATABASE, Path(path))], oldSett))
         == Ok([(AIRFOIL_DATABASE, Chosen(AIRFOIL_DATABASE, [], oldSett, Path(foilDb))),
                (PROPELLER_DATABASE, Path(path))])
  {
    var newSett := [(PROPELLER_DATABASE, Path(path))];
    SavedTextLines(foilDb, propDb, newSett, oldSett);
    assert Get(newSett, PROPELLER_DATABASE) == Some(Path(path));
    assert !HasKey(newSett, AIRFOIL_DATABASE);
    var none: Dict<string, Setting> := [];
    assert !HasKey(none, AIRFOIL_DATABASE);
    SaveReadRoundTrip(Chosen(AIRFOIL_DATABASE, [], oldSett, Path(foilDb)), Path(path));
  }

  // ------------------------------------------------------------ the store

  /** The settings file and the two package default paths. */
  class SettingsStore {
    var file: Option<string>
    const foilDb: string
    const propDb: string

    constructor (file0: Option<string>, foilDb0: string, propDb0: string)
      ensures file == file0 && foilDb == foilDb0 && propDb == propDb0
    {
      file := file0;
      foilDb := foilDb0;
      propDb := propDb0;
    }

    /** What reading the settings file gives now. */
    function Current(): Result<Dict<string, Setting>>
      reads this
    {
      match file
      case None => Fail(FileNotFoundError)
      case Some(t) => ParseSettings(t)
    }

    /** `_get_user_settings()` */
    method GetUserSettings() returns (r: Result<Dict<string, Setting>>)
      ensures r == Current()
    {
      if file.None? {
        return Fail(FileNotFoundError);
      }
      r := ReadSettings(file.value);
    }

    /** `_save_settings(new_sett)`: reads the old file if there is one (which
        may fail before anything is written), then rewrites it. */
    method SaveSettings(newSett: Dict<string, Setting>) returns (r: Result<()>)
      modifies this
      ensures old(file).Some? && old(Current()).Fail? ==>
        r == Fail(old(Current()).exc) && file == old(file)
      ensures old(file).None? || old(Current()).Ok? ==> r == Ok(())
      ensures old(file).None? ==> file == Some(SavedText(Defaults(foilDb, propDb), newSett, []))
      ensures old(file).Some? && old(Current()).Ok? ==>
        file == Some(SavedText(Defaults(foilDb, propDb), newSett, old(Current()).value))
    {
      var oldSett: Dict<string, Setting> := [];
      if file.Some? {
        var read := GetUserSettings();
        if read.Fail? {
          return Fail(read.exc);
        }
        oldSett := read.value;
      }
      var out := WriteSettings(Defaults(foilDb, propDb), newSett, oldSett);
      file := Some(out);
      return Ok(());
    }

    /** `set_airfoil_database(path)` */
    method SetAirfoilDatabase(path: string) returns (r: Result<()>)
      modifies this
      ensures r.Ok? ==> file == Some(SavedText(Defaults(foilDb, propDb), [(AIRFOIL_DATABASE, Path(path))],
                                               if old(Current()).Ok? then old(Current()).value else []))
      ensures r.Fail? ==> file == old(file)
      ensures r.Ok? <==> old(file).None? || old(Current()).Ok?
    {
      r := SaveSettings([(AIRFOIL_DATABASE, Path(path))]);
    }

    /** `set_propeller_database(path)` */
    method SetPropellerDatabase(path: string) returns (r: Result<()>)
      modifies this
      ensures r.Ok? ==> file == Some(SavedText(Defaults(foilDb, propDb), [(PROPELLER_DATABASE, Path(path))],
                                               if old(Current()).Ok? then old(Current()).value else []))
      ensures r.Fail? ==> file == old(file)
      ensures r.Ok? <==> old(file).None? || old(Current()).Ok?
    {
      r := SaveSettings([(PROPELLER_DATABASE, Path(path))]);
    }
  }

  /** `get_setting(s)` on what reading the settings file gives: an unknown key
      is an error (whose message never names the key, since its format string
      has no placeholder). */
  function GetSetting(current: Result<Dict<string, Setting>>, s: string): (r: Result<Setting>)
    ensures current.Fail? ==> r == Fail(current.exc)
    ensures current.Ok? && !HasKey(current.value, s) ==>
      r == Fail(PdtError("\"\" is not a known PDT setting"))
    ensures current.Ok? && HasKey(current.value, s) ==> r.Ok? && Some(r.value) == Get(current.value, s)
  {
    match current
    case Fail(e) => Fail(e)
    case Ok(settings) =>
      match Get(settings, s)
      case None => Fail(PdtError("\"\" is not a known PDT setting"))
      case Some(v) => Ok(v)
  }

  // ------------------------------------------------------------ database folders

  /** `os.path.isdir` on a setting's value. A None value is a type error; the
      booleans name file descriptors, never a folder. */
  function IsDirSetting(v: Setting, isDir: string -> bool): Result<bool>
  {
    match v
    case Path(p) => Ok(isDir(p))
    case NoneWord => Fail(TypeError)
    case _ => Ok(false)
  }

  /** `get_prop_db` / `get_foil_db` on the settings read: the user's folder if it
      exists, else the default folder if it exists, else an error. */
  function DatabaseFolder(settings: Dict<string, Setting>, key: string, default: string,
                          what: string, isDir: string -> bool): (r: Result<string>)
    ensures !HasKey(settings, key) ==> r == Fail(KeyError)
    ensures HasKey(settings, key) && Get(settings, key).value.Path? && isDir(Get(settings, key).value.path) ==>
      r == Ok(Get(settings, key).value.path)
    ensures HasKey(settings, key) && IsDirSetting(Get(settings, key).value, isDir) == Ok(false) ==>
      r == (if isDir(default) then Ok(default) else Fail(PdtError(NotFoundMessage(what, Render(Get(settings, key).value), default))))
    ensures HasKey(settings, key) && Get(settings, key).value.NoneWord? ==> r == Fail(TypeError)
  {
    match Get(settings, key)
    case None => Fail(KeyError)
    case Some(usr) =>
      match IsDirSetting(usr, isDir)
      case Fail(e) => Fail(e)
      case Ok(true) => Ok(usr.path)
      case Ok(false) =>
        if isDir(default) then Ok(default)
        else Fail(PdtError(NotFoundMessage(what, Render(usr), default)))
  }

  function NotFoundMessage(what: string, usr: string, default: string): string
  {
    "Cannot find either " + what + " database option (user-set = \"" + usr + "\", default = \"" + default + "\")"
  }

  /** `get_prop_db()` */
  function GetPropDb(current: Result<Dict<string, Setting>>, propDb: string, isDir: string -> bool): (r: Result<string>)
    ensures current.Fail? ==> r == Fail(current.exc)
    ensures r.Ok? ==> isDir(r.value)
  {
    match current
    case Fail(e) => Fail(e)
    case Ok(s) => DatabaseFolder(s, PROPELLER_DATABASE, propDb, "propeller", isDir)
  }

  /** `get_foil_db()` */
  function GetFoilDb(current: Result<Dict<string, Setting>>, foilDb: string, isDir: string -> bool): (r: Result<string>)
    ensures current.Fail? ==> r == Fail(current.exc)
    ensures r.Ok? ==> isDir(r.value)
  {
    match current
    case Fail(e) => Fail(e)
    case Ok(s) => DatabaseFolder(s, AIRFOIL_DATABASE, foilDb, "airfoil", isDir)
  }

  /** A database folder, when one is found, is one that exists. */
  lemma FoundFolderExists(current: Result<Dict<string, Setting>>, propDb: string, foilDb: string,
                          isDir: string -> bool)
    ensures GetPropDb(current, propDb, isDir).Ok? ==> isDir(GetPropDb(current, propDb, isDir).value)
    ensures GetFoilDb(current, foilDb, isDir).Ok? ==> isDir(GetFoilDb(current, foilDb, isDir).value)
  {
  }
}
