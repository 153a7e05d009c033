/**
 * Named Nextflow configuration files of liteflow (liteflow/utils/workflow/config.py over
 * the `configs` table of liteflow/models.py). A config is a row of the table plus a file
 * in the configs directory; the table is kept in query order (the order `.first()` sees),
 * the directory is a map from file name to content. File digests are an opaque function
 * of the content; times are given by the caller.
 */
module Configs {

  import opened Wrappers
  import opened Strings
  import opened Tables

  /** A row of `configs`; its dictionary form has exactly these columns. */
  datatype ConfigRow = ConfigRow(
    id: int, name: string, filename: string, isDefault: bool, createdAt: int, updatedAt: int)

  /** The table and the configs directory. */
  datatype Store = Store(rows: seq<ConfigRow>, files: map<string, string>)

  datatype ConfigError =
    | NotFound(filename: string)          // FileNotFoundError
    | AlreadyExists(filename: string)     // ValueError of create_config
    | DefaultDiffers                      // RuntimeError of enforce_default_config
    | UniqueViolation(filename: string)   // the database refusing a second row for a filename

  const Suffix: string := ".config"
  const DefaultFilename: string := "default.config"

  /** The file name a config is stored under: `.config` is appended when it is missing. */
  function Normalize(filename: string): (f: string)
    ensures EndsWith(f, Suffix)
    ensures EndsWith(filename, Suffix) <==> f == filename
    ensures !EndsWith(filename, Suffix) ==> f == filename + Suffix
  {
    if EndsWith(filename, Suffix) then filename
    else
      assert (filename + Suffix)[|filename + Suffix| - |Suffix|..] == Suffix;
      filename + Suffix
  }

  /** Normalising twice is normalising once. */
  lemma NormalizeIdempotent(filename: string)
    ensures Normalize(Normalize(filename)) == Normalize(filename)
  {
  }

  /** Two names that differ only by the suffix are stored under the same file. */
  lemma NormalizeMerges(stem: string)
    requires !EndsWith(stem, Suffix)
    ensures Normalize(stem) == Normalize(stem + Suffix)
  {
    assert (stem + Suffix)[|stem + Suffix| - |Suffix|..] == Suffix;
  }

  /** `Config.filename` is unique. */
  ghost predicate UniqueFilenames(rows: seq<ConfigRow>)
  {
    forall i, j :: 0 <= i < |rows| && 0 <= j < |rows| && rows[i].filename == rows[j].filename ==> i == j
  }

  /** `Config.id` is the primary key. */
  ghost predicate UniqueIds(rows: seq<ConfigRow>)
  {
    forall i, j :: 0 <= i < |rows| && 0 <= j < |rows| && rows[i].id == rows[j].id ==> i == j
  }

  ghost predicate Valid(st: Store)
  {
    UniqueFilenames(st.rows) && UniqueIds(st.rows)
  }

  /** `filter_by(filename=f).first()`: the position of the first row with that file name. */
  function Find(rows: seq<ConfigRow>, filename: string): (r: Option<nat>)
    ensures r.None? <==> forall i :: 0 <= i < |rows| ==> rows[i].filename != filename
    ensures r.Some? ==> r.value < |rows| && rows[r.value].filename == filename
    ensures r.Some? ==> forall i :: 0 <= i < r.value ==> rows[i].filename != filename
  {
    if |rows| == 0 then None
    else if rows[0].filename == filename then Some(0)
    else
      match Find(rows[1..], filename)
      case None => None
      case Some(i) => Some(i + 1)
  }

  /** The primary key of a config row. */
  function RowId(row: ConfigRow): int
  {
    row.id
  }

  /** `Config._create(name, filename, is_default)`, with the row's id and creation time. */
  function NewRow(id: int, name: string, filename: string, isDefault: bool, now: int): (row: ConfigRow)
    ensures row.name == name && row.filename == filename && row.isDefault == isDefault
    ensures row.createdAt == now && row.updatedAt == now && row.id == id
  {
    ConfigRow(id, name, filename, isDefault, now, now)
  }

  /** Adding a row and committing: the database refuses a file name already in the table. */
  function Insert(rows: seq<ConfigRow>, name: string, filename: string, isDefault: bool, now: int)
    : (r: Result<seq<ConfigRow>, ConfigError>)
    ensures r.Err? <==> Find(rows, filename).Some?
    ensures r.Ok? ==> r.value == rows + [NewRow(NextId(rows, RowId), name, filename, isDefault, now)]
  {
    if Find(rows, filename).Some? then Err(UniqueViolation(filename))
    else Ok(rows + [NewRow(NextId(rows, RowId), name, filename, isDefault, now)])
  }

  /** `get_config(filename)`: the row with that exact file name. */
  function Lookup(st: Store, filename: string): (r: Result<ConfigRow, ConfigError>)
    ensures r.Ok? <==> exists i :: 0 <= i < |st.rows| && st.rows[i].filename == filename
    ensures r.Ok? ==> r.value in st.rows && r.value.filename == filename
    ensures r.Err? ==> r.error == NotFound(filename)
  {
    match Find(st.rows, filename)
    case None => Err(NotFound(filename))
    case Some(i) => Ok(st.rows[i])
  }

  /**
   * `create_config(name, filename)`: the name is normalised, a name in use is refused, an
   * empty file is written and a non-default row added.
   */
  function Created(st: Store, name: string, filename: string, now: int)
    : (r: Result<(ConfigRow, Store), ConfigError>)
    ensures r.Err? <==> Lookup(st, Normalize(filename)).Ok?
    ensures r.Err? ==> r.error == AlreadyExists(Normalize(filename))
  {
    var f := Normalize(filename);
    if Find(st.rows, f).Some? then Err(AlreadyExists(f))
    else
      var row := NewRow(NextId(st.rows, RowId), name, f, false, now);
      Ok((row, Store(st.rows + [row], st.files[Normalize(f) := ""])))
  }

  /** `update_config(filename, content)`: the row is looked up by the name as given. */
  function Updated(st: Store, filename: string, content: string, now: int): (r: Result<Store, ConfigError>)
    ensures r.Err? <==> Lookup(st, filename).Err?
  {
    match Find(st.rows, filename)
    case None => Err(NotFound(filename))
    case Some(i) =>
      Ok(Store(st.rows[i := st.rows[i].(updatedAt := now)], st.files[Normalize(filename) := content]))
  }

  /** `delete_config(filename)`: the file goes if there is one, the row always. */
  function Deleted(st: Store, filename: string): (r: Result<Store, ConfigError>)
    ensures r.Err? <==> Lookup(st, filename).Err?
  {
    match Find(st.rows, filename)
    case None => Err(NotFound(filename))
    case Some(i) => Ok(Store(RemoveAt(st.rows, i), st.files - {Normalize(filename)}))
  }

  /**
   * `Config.set_default(id)`: one bulk update clears every default row, a second marks the
   * row with that id; each refreshes `updated_at` on the rows it touches.
   */
  function ClearDefaults(rows: seq<ConfigRow>, now: int): (r: seq<ConfigRow>)
    ensures |r| == |rows|
    ensures forall i :: 0 <= i < |rows| ==> !r[i].isDefault
    ensures forall i :: 0 <= i < |rows| ==> r[i].(isDefault := rows[i].isDefault, updatedAt := rows[i].updatedAt) == rows[i]
  {
    seq(|rows|, i requires 0 <= i < |rows| =>
      if rows[i].isDefault then rows[i].(isDefault := false, updatedAt := now) else rows[i])
  }

  function MarkDefault(rows: seq<ConfigRow>, id: int, now: int): (r: seq<ConfigRow>)
    ensures |r| == |rows|
    ensures forall i :: 0 <= i < |rows| ==> r[i].isDefault == (rows[i].id == id || rows[i].isDefault)
    ensures forall i :: 0 <= i < |rows| ==> r[i].(isDefault := rows[i].isDefault, updatedAt := rows[i].updatedAt) == rows[i]
  {
    seq(|rows|, i requires 0 <= i < |rows| =>
      if rows[i].id == id then rows[i].(isDefault := true, updatedAt := now) else rows[i])
  }

  function SetDefaultRows(rows: seq<ConfigRow>, id: int, now: int): seq<ConfigRow>
  {
    MarkDefault(ClearDefaults(rows, now), id, now)
  }

  /** After `Config.set_default(id)` the default rows are exactly those with that id. */
  lemma SetDefaultRowsExact(rows: seq<ConfigRow>, id: int, now: int)
    ensures |SetDefaultRows(rows, id, now)| == |rows|
    ensures forall i :: 0 <= i < |rows| ==> (SetDefaultRows(rows, id, now)[i].isDefault <==> rows[i].id == id)
    ensures forall i :: 0 <= i < |rows| ==> SetDefaultRows(rows, id, now)[i].filename == rows[i].filename
    ensures forall i :: 0 <= i < |rows| ==> SetDefaultRows(rows, id, now)[i].id == rows[i].id
  {
    var cleared := ClearDefaults(rows, now);
    forall i | 0 <= i < |rows|
      ensures SetDefaultRows(rows, id, now)[i].filename == rows[i].filename
      ensures SetDefaultRows(rows, id, now)[i].id == rows[i].id
    {
      assert cleared[i].filename == rows[i].filename && cleared[i].id == rows[i].id;
    }
  }

  /** With an id no row has, `Config.set_default` leaves no default at all. */
  lemma SetDefaultUnknownIdClears(rows: seq<ConfigRow>, id: int, now: int)
    requires forall i :: 0 <= i < |rows| ==> rows[i].id != id
    ensures forall i :: 0 <= i < |rows| ==> !SetDefaultRows(rows, id, now)[i].isDefault
  {
    SetDefaultRowsExact(rows, id, now);
  }

  /** `set_default(filename)`: the row is looked up by the name as given. */
  function WithDefault(st: Store, filename: string, now: int): (r: Result<Store, ConfigError>)
    ensures r.Err? <==> Lookup(st, filename).Err?
    ensures r.Ok? ==> r.value.files == st.files
  {
    match Find(st.rows, filename)
    case None => Err(NotFound(filename))
    case Some(i) => Ok(st.(rows := SetDefaultRows(st.rows, st.rows[i].id, now)))
  }

  /** `Config.get_default()`: the first row marked default, if any. */
  function DefaultRow(rows: seq<ConfigRow>): (r: Option<ConfigRow>)
    ensures r.None? <==> forall i :: 0 <= i < |rows| ==> !rows[i].isDefault
    ensures r.Some? ==> r.value in rows && r.value.isDefault
  {
    if |rows| == 0 then None
    else if rows[0].isDefault then Some(rows[0])
    else DefaultRow(rows[1..])
  }

  /** `check_default_config(enforced)`: whether `default.config` exists and, if so, whether it matches. */
  function CheckDefault(st: Store, enforced: string, digest: string -> string): (r: (bool, Option<bool>))
    ensures r.0 <==> DefaultFilename in st.files
    ensures r.0 ==> r.1 == Some(digest(st.files[DefaultFilename]) == digest(enforced))
    ensures !r.0 ==> r.1.None?
  {
    if DefaultFilename !in st.files then (false, None)
    else (true, Some(digest(st.files[DefaultFilename]) == digest(enforced)))
  }

  /**
   * `enforce_default_config(enforced)`: the store afterwards, and the error raised if any.
   * An existing `default.config` with another digest is an error and nothing changes; a
   * missing one is copied in and then registered as a default row (the other rows keep their
   * flags), and when the database refuses that row the copied file stays; a matching one
   * leaves everything as it is.
   */
  function Enforce(st: Store, enforced: string, digest: string -> string, now: int)
    : (r: (Store, Option<ConfigError>))
    ensures r.1 == Some(DefaultDiffers) ==> r.0 == st
    ensures r.1 != Some(DefaultDiffers) ==> DefaultFilename in r.0.files
    ensures r.0.rows == st.rows || (r.1.None? && |r.0.rows| == |st.rows| + 1 && r.0.rows[..|st.rows|] == st.rows)
  {
    var (exists_, matches) := CheckDefault(st, enforced, digest);
    if exists_ && matches != Some(true) then (st, Some(DefaultDiffers))
    else if !exists_ then
      var copied := st.(files := st.files[DefaultFilename := enforced]);
      match Insert(st.rows, "Default Configuration", DefaultFilename, true, now)
      case Err(e) => (copied, Some(e))
      case Ok(rows) => (copied.(rows := rows), None)
    else (st, None)
  }

  /** The three outcomes of enforcing a default, plus the database refusing a duplicate row. */
  lemma EnforceCases(st: Store, enforced: string, digest: string -> string, now: int)
    ensures DefaultFilename in st.files && digest(st.files[DefaultFilename]) != digest(enforced)
      ==> Enforce(st, enforced, digest, now) == (st, Some(DefaultDiffers))
    ensures DefaultFilename in st.files && digest(st.files[DefaultFilename]) == digest(enforced)
      ==> Enforce(st, enforced, digest, now) == (st, None)
    ensures DefaultFilename !in st.files && Lookup(st, DefaultFilename).Err? ==>
      && Enforce(st, enforced, digest, now).1.None?
      && Enforce(st, enforced, digest, now).0.files == st.files[DefaultFilename := enforced]
      && Lookup(Enforce(st, enforced, digest, now).0, DefaultFilename).Ok?
      && Lookup(Enforce(st, enforced, digest, now).0, DefaultFilename).value.isDefault
    ensures DefaultFilename !in st.files && Lookup(st, DefaultFilename).Ok?
      ==> Enforce(st, enforced, digest, now)
          == (st.(files := st.files[DefaultFilename := enforced]), Some(UniqueViolation(DefaultFilename)))
  {
    if DefaultFilename !in st.files && Lookup(st, DefaultFilename).Err? {
      var rows := st.rows + [NewRow(NextId(st.rows, RowId), "Default Configuration", DefaultFilename, true, now)];
      assert Find(rows, DefaultFilename) == Some(|st.rows|) by {
        FindAppend(st.rows, NewRow(NextId(st.rows, RowId), "Default Configuration", DefaultFilename, true, now));
      }
    }
  }

  /**
   * A `default.config` row left without its file makes the first enforcement fail after the
   * copy; the copied file stays, so the next enforcement of the same content finds it
   * matching and succeeds without changing anything.
   */
  lemma LeftoverRowRecovers(st: Store, enforced: string, digest: string -> string, now: int, later: int)
    requires DefaultFilename !in st.files && Lookup(st, DefaultFilename).Ok?
    ensures Enforce(st, enforced, digest, now).1 == Some(UniqueViolation(DefaultFilename))
    ensures var st' := Enforce(st, enforced, digest, now).0;
      Enforce(st', enforced, digest, later) == (st', None)
  {
    EnforceCases(st, enforced, digest, now);
    var st' := Enforce(st, enforced, digest, now).0;
    assert DefaultFilename in st'.files && st'.files[DefaultFilename] == enforced;
  }

  lemma {:induction false} FindAppend(rows: seq<ConfigRow>, row: ConfigRow)
    requires Find(rows, row.filename).None?
    ensures Find(rows + [row], row.filename) == Some(|rows|)
  {
    if |rows| > 0 {
      assert (rows + [row])[1..] == rows[1..] + [row];
      FindAppend(rows[1..], row);
    } else {
      assert rows + [row] == [row];
    }
  }

  /**
   * Enforcing a default does not clear the other default flags: a store whose only row is
   * already the default and that has no `default.config` ends up with two default rows.
   */
  lemma EnforceKeepsOtherDefault(digest: string -> string)
    ensures var st := Store([ConfigRow(1, "Mine", "mine.config", true, 0, 0)], map["mine.config" := ""]);
      && Enforce(st, "", digest, 5).1.None?
      && |Enforce(st, "", digest, 5).0.rows| == 2
      && Enforce(st, "", digest, 5).0.rows[0].isDefault
      && Enforce(st, "", digest, 5).0.rows[1].isDefault
  {
    var st := Store([ConfigRow(1, "Mine", "mine.config", true, 0, 0)], map["mine.config" := ""]);
    assert st.rows[0].filename != DefaultFilename;
    assert Find(st.rows, DefaultFilename).None?;
  }

  /**
   * `ConfigManager(app, at_app_creation)`: the store afterwards and the error raised if any;
   * the default is enforced only at creation, when configured and present.
   */
  function Startup(st: Store, atAppCreation: bool, setting: string, enforced: Option<string>,
                   digest: string -> string, now: int): (r: (Store, Option<ConfigError>))
    ensures !(atAppCreation && setting != "" && enforced.Some?) ==> r == (st, None)
    ensures atAppCreation && setting != "" && enforced.Some? ==> r == Enforce(st, enforced.value, digest, now)
  {
    if atAppCreation && setting != "" && enforced.Some? then Enforce(st, enforced.value, digest, now)
    else (st, None)
  }

  /** `has_enforced_default`: the setting is not empty. */
  function HasEnforcedDefault(setting: string): bool
  {
    setting != ""
  }

  lemma {:induction false} FindUnique(rows: seq<ConfigRow>, i: nat)
    requires UniqueFilenames(rows) && i < |rows|
    ensures Find(rows, rows[i].filename) == Some(i)
  {
  }

  /**
   * A created config can be read back under its normalised name: a non-default row with
   * the given name and an empty file; every other row and file is as before.
   */
  lemma CreateThenGet(st: Store, name: string, filename: string, now: int)
    requires Valid(st)
    requires Created(st, name, filename, now).Ok?
    ensures var (row, st') := Created(st, name, filename, now).value;
      && Lookup(st', Normalize(filename)) == Ok(row)
      && row.name == name && row.filename == Normalize(filename) && !row.isDefault
      && st'.files[Normalize(filename)] == ""
      && st'.rows[..|st.rows|] == st.rows
      && (forall f :: f != Normalize(filename) && f in st.files ==> f in st'.files && st'.files[f] == st.files[f])
      && Valid(st')
  {
    var f := Normalize(filename);
    var row := NewRow(NextId(st.rows, RowId), name, f, false, now);
    var st' := Store(st.rows + [row], st.files[Normalize(f) := ""]);
    assert Created(st, name, filename, now).value == (row, st');
    FindAppend(st.rows, row);
    assert st'.rows[..|st.rows|] == st.rows;
    AppendKeepsValid(st.rows, row);
  }

  /** A row with a new file name and an id above all others keeps the keys unique. */
  lemma AppendKeepsValid(rows: seq<ConfigRow>, row: ConfigRow)
    requires UniqueFilenames(rows) && UniqueIds(rows)
    requires forall i :: 0 <= i < |rows| ==> rows[i].filename != row.filename && rows[i].id < row.id
    ensures UniqueFilenames(rows + [row]) && UniqueIds(rows + [row])
  {
    var rows' := rows + [row];
    assert forall i :: 0 <= i < |rows| ==> rows'[i] == rows[i];
  }

  /** Creating a config whose normalised name is taken fails, whatever the name. */
  lemma CreateDuplicateFails(st: Store, name: string, filename: string, now: int)
    requires Lookup(st, Normalize(filename)).Ok?
    ensures Created(st, name, filename, now) == Err(AlreadyExists(Normalize(filename)))
  {
  }

  /**
   * Updating a config replaces its file's content and its `updated_at`; every other row,
   * and every other file, is unchanged.
   */
  lemma UpdateEffect(st: Store, filename: string, content: string, now: int)
    requires Valid(st)
    requires Updated(st, filename, content, now).Ok?
    ensures var st' := Updated(st, filename, content, now).value;
      && st'.files[Normalize(filename)] == content
      && (forall f :: f != Normalize(filename) ==> (f in st'.files <==> f in st.files))
      && (forall f :: f != Normalize(filename) && f in st.files ==> st'.files[f] == st.files[f])
      && |st'.rows| == |st.rows|
      && (forall i :: 0 <= i < |st.rows| && st.rows[i].filename != filename ==> st'.rows[i] == st.rows[i])
      && Lookup(st', filename).Ok? && Lookup(st', filename).value.updatedAt == now
      && Valid(st')
  {
    var i := Find(st.rows, filename).value;
    var st' := Updated(st, filename, content, now).value;
    assert st'.rows[i].filename == filename;
    FindUnique(st'.rows, i);
  }

  lemma RemoveAtKeepsOthers(rows: seq<ConfigRow>, i: nat)
    requires i < |rows|
    ensures forall k :: 0 <= k < |rows| && k != i ==> rows[k] in RemoveAt(rows, i)
  {
    var r := RemoveAt(rows, i);
    forall k | 0 <= k < |rows| && k != i
      ensures rows[k] in r
    {
      if k < i {
        assert r[k] == rows[k];
      } else {
        assert r[k - 1] == rows[k];
      }
    }
  }

  lemma RemoveAtUnique(rows: seq<ConfigRow>, i: nat)
    requires i < |rows| && UniqueFilenames(rows) && UniqueIds(rows)
    ensures UniqueFilenames(RemoveAt(rows, i)) && UniqueIds(RemoveAt(rows, i))
  {
    var r := RemoveAt(rows, i);
    assert forall a :: 0 <= a < |r| ==> r[a] == rows[if a < i then a else a + 1];
  }

  /** Deleting a config removes its row and its file, and nothing else. */
  lemma DeleteEffect(st: Store, filename: string)
    requires Valid(st)
    requires Deleted(st, filename).Ok?
    ensures var st' := Deleted(st, filename).value;
      && Lookup(st', filename).Err?
      && Normalize(filename) !in st'.files
      && |st'.rows| == |st.rows| - 1
      && (forall row :: row in st.rows && row.filename != filename ==> row in st'.rows)
      && (forall f :: f != Normalize(filename) && f in st.files ==> f in st'.files && st'.files[f] == st.files[f])
      && Valid(st')
  {
    var i := Find(st.rows, filename).value;
    var rows' := RemoveAt(st.rows, i);
    assert Deleted(st, filename).value.rows == rows';
    RemoveAtKeepsOthers(st.rows, i);
    RemoveAtUnique(st.rows, i);
    forall j | 0 <= j < |rows'|
      ensures rows'[j].filename != filename
    {
      if j >= i {
        assert rows'[j] == st.rows[j + 1];
      }
    }
  }

  /**
   * Making a config the default leaves exactly one default row, that config's, and
   * `get_default` returns it.
   */
  lemma SetDefaultExactlyOne(st: Store, filename: string, now: int)
    requires Valid(st)
    requires WithDefault(st, filename, now).Ok?
    ensures var st' := WithDefault(st, filename, now).value;
      && (forall i :: 0 <= i < |st'.rows| ==> (st'.rows[i].isDefault <==> st'.rows[i].filename == filename))
      && DefaultRow(st'.rows).Some? && DefaultRow(st'.rows).value.filename == filename
      && Valid(st')
  {
    var k := Find(st.rows, filename).value;
    var id := st.rows[k].id;
    SetDefaultRowsExact(st.rows, id, now);
    var st' := WithDefault(st, filename, now).value;
    forall i | 0 <= i < |st'.rows|
      ensures st'.rows[i].isDefault <==> st'.rows[i].filename == filename
    {
      assert st.rows[i].id == id <==> i == k;
    }
    assert st'.rows[k].isDefault;
  }

  /** Registering the enforced default keeps the table's keys unique. */
  lemma EnforceKeepsValid(st: Store, enforced: string, digest: string -> string, now: int)
    requires Valid(st)
    ensures Valid(Enforce(st, enforced, digest, now).0)
  {
    if DefaultFilename !in st.files && Find(st.rows, DefaultFilename).None? {
      var row := NewRow(NextId(st.rows, RowId), "Default Configuration", DefaultFilename, true, now);
      var rows := st.rows + [row];
      assert Enforce(st, enforced, digest, now).0.rows == rows;
      AppendKeepsValid(st.rows, row);
    }
  }

  /** The first row marked default is the one `get_default` returns. */
  lemma {:induction false} GetDefaultFirst(rows: seq<ConfigRow>, i: nat)
    requires i < |rows| && rows[i].isDefault
    requires forall j :: 0 <= j < i ==> !rows[j].isDefault
    ensures DefaultRow(rows) == Some(rows[i])
  {
    if i > 0 {
      GetDefaultFirst(rows[1..], i - 1);
    }
  }

  /**
   * `ConfigManager`: the `configs` table and directory, and the `DEFAULT_CONFIG` setting
   * (empty when unset).
   */
  class ConfigManager {
    var rows: seq<ConfigRow>
    var files: map<string, string>
    const defaultSetting: string

    function State(): Store
      reads this
    {
      Store(rows, files)
    }

    constructor(st: Store, defaultSetting: string)
      ensures State() == st && this.defaultSetting == defaultSetting
    {
      rows := st.rows;
      files := st.files;
      this.defaultSetting := defaultSetting;
    }

    /**
     * `ConfigManager(app, at_app_creation)`: at app creation, with the setting given and its
     * file present, the default is enforced; an error aborts the start-up. `after` is the
     * table and directory the start-up leaves, whether or not it raised.
     */
    static method Open(st: Store, defaultSetting: string, atAppCreation: bool, enforced: Option<string>,
                       digest: string -> string, now: int)
      returns (r: Result<ConfigManager, ConfigError>, after: Store)
      ensures var (st', e) := Startup(st, atAppCreation, defaultSetting, enforced, digest, now);
        && after == st'
        && (r.Ok? <==> e.None?)
        && (r.Err? ==> e == Some(r.error))
        && (r.Ok? ==> fresh(r.value) && r.value.defaultSetting == defaultSetting && r.value.State() == st')
    {
      var m := new ConfigManager(st, defaultSetting);
      if atAppCreation && defaultSetting != "" && enforced.Some? {
        var e := m.EnforceDefaultConfig(enforced.value, digest, now);
        after := m.State();
        if e.Some? {
          return Err(e.value), after;
        }
      }
      r, after := Ok(m), m.State();
    }

    /** `has_enforced_default`. */
    function HasEnforcedDefault(): (b: bool)
      ensures b <==> defaultSetting != ""
    {
      defaultSetting != ""
    }

    /** `get_config_path(filename)`: the file a config name is stored under. */
    method GetConfigPath(filename: string) returns (path: string)
      ensures EndsWith(path, Suffix)
      ensures path == Normalize(filename)
    {
      path := filename;
      if !EndsWith(filename, Suffix) {
        path := path + Suffix;
      }
    }

    /** `list_configs`: every row, in table order. */
    method ListConfigs() returns (r: seq<ConfigRow>)
      ensures r == rows
    {
      r := rows;
    }

    /** `get_config(filename)`. */
    method GetConfig(filename: string) returns (r: Result<ConfigRow, ConfigError>)
      ensures r == Lookup(State(), filename)
    {
      var i := Find(rows, filename);
      if i.None? {
        return Err(NotFound(filename));
      }
      r := Ok(rows[i.value]);
    }

    /** `create_config(name, filename)`: on a taken name nothing is written. */
    method CreateConfig(name: string, filename: string, now: int) returns (r: Result<ConfigRow, ConfigError>)
      modifies this
      ensures var expected := Created(old(State()), name, filename, now);
        && (r.Ok? <==> expected.Ok?)
        && (r.Ok? ==> r.value == expected.value.0 && State() == expected.value.1)
        && (r.Err? ==> r.error == expected.error && State() == old(State()))
    {
      var f := filename;
      if !EndsWith(f, Suffix) {
        f := f + Suffix;
      }
      if Find(rows, f).Some? {
        return Err(AlreadyExists(f));
      }
      var path := GetConfigPath(f);
      files := files[path := ""];
      var row := NewRow(NextId(rows, RowId), name, f, false, now);
      rows := rows + [row];
      r := Ok(row);
    }

    /** `update_config(filename, content)`. */
    method UpdateConfig(filename: string, content: string, now: int) returns (r: Option<ConfigError>)
      modifies this
      ensures var expected := Updated(old(State()), filename, content, now);
        && (r.None? <==> expected.Ok?)
        && (r.None? ==> State() == expected.value)
        && (r.Some? ==> r.value == expected.error && State() == old(State()))
    {
      var i := Find(rows, filename);
      if i.None? {
        return Some(NotFound(filename));
      }
      var path := GetConfigPath(filename);
      files := files[path := content];
      rows := rows[i.value := rows[i.value].(updatedAt := now)];
      r := None;
    }

    /** `delete_config(filename)`. */
    method DeleteConfig(filename: string) returns (r: Option<ConfigError>)
      modifies this
      ensures var expected := Deleted(old(State()), filename);
        && (r.None? <==> expected.Ok?)
        && (r.None? ==> State() == expected.value)
        && (r.Some? ==> r.value == expected.error && State() == old(State()))
    {
      var i := Find(rows, filename);
      if i.None? {
        return Some(NotFound(filename));
      }
      var path := GetConfigPath(filename);
      if path in files {
        files := files - {path};
      }
      rows := RemoveAt(rows, i.value);
      r := None;
    }

    /**
     * `Config.set_default(id)`: the first bulk update clears every default flag, the second
     * sets the flag on the rows with that id.
     */
    method SetDefaultById(id: int, now: int)
      modifies this
      ensures rows == SetDefaultRows(old(rows), id, now)
      ensures files == old(files)
    {
      var cleared: seq<ConfigRow> := [];
      var i := 0;
      while i < |rows|
        invariant 0 <= i <= |rows|
        invariant cleared == ClearDefaults(rows, now)[..i]
      {
        var row := rows[i];
        if row.isDefault {
          row := row.(isDefault := false, updatedAt := now);
        }
        cleared := cleared + [row];
        i := i + 1;
      }
      var marked: seq<ConfigRow> := [];
      i := 0;
      while i < |cleared|
        invariant 0 <= i <= |cleared|
        invariant marked == MarkDefault(cleared, id, now)[..i]
      {
        var row := cleared[i];
        if row.id == id {
          row := row.(isDefault := true, updatedAt := now);
        }
        marked := marked + [row];
        i := i + 1;
      }
      rows := marked;
    }

    /** `set_default(filename)`. */
    method SetDefault(filename: string, now: int) returns (r: Option<ConfigError>)
      modifies this
      ensures var expected := WithDefault(old(State()), filename, now);
        && (r.None? <==> expected.Ok?)
        && (r.None? ==> State() == expected.value)
        && (r.Some? ==> r.value == expected.error && State() == old(State()))
    {
      var i := Find(rows, filename);
      if i.None? {
        return Some(NotFound(filename));
      }
      SetDefaultById(rows[i.value].id, now);
      r := None;
    }

    /** `get_default()`: the first default row, found by a scan of the table. */
    method GetDefault() returns (r: Option<ConfigRow>)
      ensures r == DefaultRow(rows)
    {
      var i := 0;
      while i < |rows|
        invariant 0 <= i <= |rows|
        invariant forall j :: 0 <= j < i ==> !rows[j].isDefault
      {
        if rows[i].isDefault {
          GetDefaultFirst(rows, i);
          return Some(rows[i]);
        }
        i := i + 1;
      }
      r := None;
    }

    /** `check_default_config(enforced)`. */
    method CheckDefaultConfig(enforced: string, digest: string -> string) returns (exists_: bool, matches: Option<bool>)
      ensures (exists_, matches) == CheckDefault(State(), enforced, digest)
    {
      if DefaultFilename !in files {
        return false, None;
      }
      exists_, matches := true, Some(digest(files[DefaultFilename]) == digest(enforced));
    }

    /** `enforce_default_config(enforced)`. */
    method EnforceDefaultConfig(enforced: string, digest: string -> string, now: int) returns (r: Option<ConfigError>)
      modifies this
      ensures (State(), r) == Enforce(old(State()), enforced, digest, now)
    {
      var exists_, matches := CheckDefaultConfig(enforced, digest);
      if exists_ && matches != Some(true) {
        return Some(DefaultDiffers);
      } else if !exists_ {
        files := files[DefaultFilename := enforced];
        if Find(rows, DefaultFilename).Some? {
          return Some(UniqueViolation(DefaultFilename));
        }
        rows := rows + [NewRow(NextId(rows, RowId), "Default Configuration", DefaultFilename, true, now)];
      }
      r := None;
    }
  }
}
