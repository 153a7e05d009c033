/**
 * The two `StorageManager`s (liteflow/utils/storage/manager.py and
 * nfui/utils/storage/manager.py): the declared storage backends become backend objects by
 * their `type`, each with a copy of its settings that also holds its name; backends are
 * looked up by name and listed as `{name, type, description}` in declaration order. The two
 * differ only in the type of the file-system backend: `local` in liteflow, `server` in nfui.
 */
module StorageManagers {

  import opened Wrappers

  /** A backend's settings; every value is taken as a string. */
  type Settings = map<string, string>

  /** A declaration: a name and its settings, in the declaring mapping's order. */
  type Declaration = (string, Settings)

  datatype App = Liteflow | Nfui

  datatype BackendKind = LocalFile | ServerFile | S3File

  /** A backend object: its class and the settings it was made with. */
  datatype Backend = Backend(kind: BackendKind, settings: Settings)

  /** The `KeyError`s: a declaration without `type`, a lookup of an unknown name. */
  datatype StorageError = MissingType(name: string) | UnknownBackend(name: string)

  /** One row of `list_backends()`. */
  datatype BackendInfo = BackendInfo(name: string, kind: string, description: string)

  /** `BaseFile.description`: the `description` setting, or the empty string. */
  function Description(s: Settings): string
  {
    if "description" in s then s["description"] else ""
  }

  /** Which backend class a declared type makes, if any; other types are dropped. */
  function Dispatch(app: App, fileType: string): (k: Option<BackendKind>)
    ensures fileType == "s3" ==> k == Some(S3File)
    ensures app == Liteflow ==> (k.Some? <==> fileType in {"local", "s3"}) && k != Some(ServerFile)
    ensures app == Nfui ==> (k.Some? <==> fileType in {"server", "s3"}) && k != Some(LocalFile)
  {
    if fileType == "s3" then Some(S3File)
    else if app == Liteflow && fileType == "local" then Some(LocalFile)
    else if app == Nfui && fileType == "server" then Some(ServerFile)
    else None
  }

  /** The declaring mapping is a dictionary: its names are distinct. */
  predicate DistinctNames(decls: seq<Declaration>)
  {
    forall i, j :: 0 <= i < j < |decls| ==> decls[i].0 != decls[j].0
  }

  predicate Accepted(app: App, d: Declaration)
  {
    "type" in d.1 && Dispatch(app, d.1["type"]).Some?
  }

  /** Every backend keeps a `type` and carries its own name as `name`. */
  predicate SelfNamed(pairs: seq<(string, Backend)>)
  {
    forall i :: 0 <= i < |pairs| ==>
      "type" in pairs[i].1.settings && "name" in pairs[i].1.settings && pairs[i].1.settings["name"] == pairs[i].0
  }

  /**
   * The constructor's loop: the backends, as (name, backend) pairs in the order they were
   * added, or the `KeyError` of the first declaration without a `type`. Each backend keeps
   * its declared `type` and carries its own name as `name`, at most one per declaration.
   */
  function Built(app: App, decls: seq<Declaration>): (r: Result<seq<(string, Backend)>, StorageError>)
    ensures r.Ok? ==> |r.value| <= |decls| && SelfNamed(r.value)
  {
    if |decls| == 0 then Ok([])
    else
      match Built(app, decls[..|decls| - 1])
      case Err(e) => Err(e)
      case Ok(rest) =>
        var (name, s) := decls[|decls| - 1];
        if "type" !in s then Err(MissingType(name))
        else match Dispatch(app, s["type"])
          case None => Ok(rest)
          case Some(k) => Ok(rest + [(name, Backend(k, s["name" := name]))])
  }

  function Names(pairs: seq<(string, Backend)>): (r: seq<string>)
    ensures |r| == |pairs| && forall i :: 0 <= i < |pairs| ==> r[i] == pairs[i].0
  {
    seq(|pairs|, i requires 0 <= i < |pairs| => pairs[i].0)
  }

  /** The `backends` dictionary the pairs make. */
  function ToMap(pairs: seq<(string, Backend)>): (m: map<string, Backend>)
    ensures m.Keys == set i | 0 <= i < |pairs| :: pairs[i].0
  {
    if |pairs| == 0 then map[]
    else
      var init := pairs[..|pairs| - 1];
      var m := ToMap(init);
      assert forall i :: 0 <= i < |init| ==> init[i] == pairs[i];
      m[pairs[|pairs| - 1].0 := pairs[|pairs| - 1].1]
  }

  /**
   * `list_backends()` over the pairs: one entry per backend, in order, under the backend's
   * name, with its declared type and its description, empty when unset.
   */
  function Listing(pairs: seq<(string, Backend)>): (r: seq<BackendInfo>)
    requires forall i :: 0 <= i < |pairs| ==> "type" in pairs[i].1.settings
    ensures |r| == |pairs|
  {
    seq(|pairs|, i requires 0 <= i < |pairs| =>
      BackendInfo(pairs[i].0, pairs[i].1.settings["type"], Description(pairs[i].1.settings)))
  }

  /** The declarations that become backends, in their order. */
  function AcceptedDecls(app: App, decls: seq<Declaration>): (r: seq<Declaration>)
    ensures forall d :: d in r <==> d in decls && Accepted(app, d)
    ensures forall i :: 0 <= i < |r| ==> Accepted(app, r[i])
  {
    if |decls| == 0 then []
    else
      var rest := AcceptedDecls(app, decls[..|decls| - 1]);
      var d := decls[|decls| - 1];
      assert decls == decls[..|decls| - 1] + [d];
      if Accepted(app, d) then rest + [d] else rest
  }

  /** A failure in some prefix of the declarations is the constructor's failure. */
  lemma {:induction false} ErrExtends(app: App, decls: seq<Declaration>, i: nat)
    requires i <= |decls| && Built(app, decls[..i]).Err?
    ensures Built(app, decls) == Built(app, decls[..i])
  {
    if i < |decls| {
      var init := decls[..|decls| - 1];
      assert init[..i] == decls[..i];
      ErrExtends(app, init, i);
    } else {
      assert decls[..i] == decls;
    }
  }

  /** The constructor fails exactly when some declaration has no `type`. */
  lemma {:induction false} BuiltFailsIffMissingType(app: App, decls: seq<Declaration>)
    ensures Built(app, decls).Err? <==> exists i :: 0 <= i < |decls| && "type" !in decls[i].1
  {
    if |decls| > 0 {
      var init := decls[..|decls| - 1];
      BuiltFailsIffMissingType(app, init);
      assert forall i :: 0 <= i < |init| ==> init[i] == decls[i];
      if Built(app, init).Err? {
        var i :| 0 <= i < |init| && "type" !in init[i].1;
        assert "type" !in decls[i].1;
      }
    }
  }

  /**
   * The backends are the accepted declarations, in their order, each of the class its type
   * selects and with the declared settings plus its own name; the rest are dropped.
   */
  lemma {:induction false} BuiltFromAccepted(app: App, decls: seq<Declaration>)
    requires Built(app, decls).Ok?
    ensures var pairs := Built(app, decls).value;
      var acc := AcceptedDecls(app, decls);
      && |pairs| == |acc|
      && forall i :: 0 <= i < |pairs| ==>
           && pairs[i].0 == acc[i].0
           && pairs[i].1 == Backend(Dispatch(app, acc[i].1["type"]).value, acc[i].1["name" := acc[i].0])
  {
    if |decls| > 0 {
      BuiltFromAccepted(app, decls[..|decls| - 1]);
    }
  }

  /** A backend's settings are its declaration's, except that `name` now holds its name. */
  lemma SettingsCopied(app: App, decls: seq<Declaration>)
    requires Built(app, decls).Ok?
    ensures var pairs := Built(app, decls).value;
      && |pairs| == |AcceptedDecls(app, decls)|
      && forall i :: 0 <= i < |pairs| ==>
        && "name" in pairs[i].1.settings && "type" in pairs[i].1.settings
        && pairs[i].1.settings["name"] == pairs[i].0
        && pairs[i].1.settings - {"name"} == AcceptedDecls(app, decls)[i].1 - {"name"}
        && pairs[i].1.settings["type"] == AcceptedDecls(app, decls)[i].1["type"]
  {
    BuiltFromAccepted(app, decls);
  }

  /**
   * `list_backends()` of a manager made from the declarations: one row per accepted
   * declaration, in declaration order, with its declared type and description.
   */
  lemma ListingFromDecls(app: App, decls: seq<Declaration>)
    requires Built(app, decls).Ok?
    ensures var pairs := Built(app, decls).value;
      var acc := AcceptedDecls(app, decls);
      && (forall i :: 0 <= i < |pairs| ==> "type" in pairs[i].1.settings)
      && Listing(pairs) == seq(|acc|, i requires 0 <= i < |acc| =>
           BackendInfo(acc[i].0, acc[i].1["type"], Description(acc[i].1)))
  {
    BuiltFromAccepted(app, decls);
    var pairs := Built(app, decls).value;
    var acc := AcceptedDecls(app, decls);
    forall i | 0 <= i < |pairs|
      ensures Description(pairs[i].1.settings) == Description(acc[i].1)
    {
      assert acc[i] in acc;
    }
  }

  /** With distinct declared names, a name has a backend exactly when its declaration is accepted. */
  lemma LookupFromDecls(app: App, decls: seq<Declaration>, name: string)
    requires DistinctNames(decls) && Built(app, decls).Ok?
    ensures var m := ToMap(Built(app, decls).value);
      && (name in m <==> exists i :: 0 <= i < |decls| && decls[i].0 == name && Accepted(app, decls[i]))
      && forall i :: 0 <= i < |decls| && decls[i].0 == name && Accepted(app, decls[i]) ==>
           m[name] == Backend(Dispatch(app, decls[i].1["type"]).value, decls[i].1["name" := name])
  {
    var pairs := Built(app, decls).value;
    var acc := AcceptedDecls(app, decls);
    BuiltFromAccepted(app, decls);
    PairsDistinct(app, decls);
    forall i | 0 <= i < |decls| && decls[i].0 == name && Accepted(app, decls[i])
      ensures name in ToMap(pairs)
      ensures ToMap(pairs)[name] == Backend(Dispatch(app, decls[i].1["type"]).value, decls[i].1["name" := name])
    {
      assert decls[i] in acc;
      var j :| 0 <= j < |acc| && acc[j] == decls[i];
      LastWins(pairs, j);
      var k :| j <= k < |pairs| && pairs[k].0 == pairs[j].0 && ToMap(pairs)[pairs[j].0] == pairs[k].1;
      assert k == j;
    }
    if name in ToMap(pairs) {
      var j :| 0 <= j < |pairs| && pairs[j].0 == name;
      assert acc[j] in acc;
      var i :| 0 <= i < |decls| && decls[i] == acc[j];
      assert decls[i].0 == name && Accepted(app, decls[i]);
    }
  }

  /**
   * The two managers disagree on the file-system backend: liteflow drops a `server`
   * declaration and nfui drops a `local` one.
   */
  lemma FileSystemTypesDiffer()
    ensures var decls := [("files", map["type" := "server"])];
      Built(Liteflow, decls) == Ok([]) && Built(Nfui, decls).Ok? && |Built(Nfui, decls).value| == 1
    ensures var decls := [("files", map["type" := "local"])];
      Built(Nfui, decls) == Ok([]) && Built(Liteflow, decls).Ok? && |Built(Liteflow, decls).value| == 1
  {
    var d1 := [("files", map["type" := "server"])];
    assert d1[..0] == [];
    var d2 := [("files", map["type" := "local"])];
    assert d2[..0] == [];
  }

  /** `StorageManager`: the backends dictionary, as its key order and its mapping. */
  class StorageManager {
    const app: App
    var order: seq<string>
    var backends: map<string, Backend>

    ghost predicate Valid()
      reads this
    {
      forall i :: 0 <= i < |order| ==> order[i] in backends && "type" in backends[order[i]].settings
    }

    constructor(app: App)
      ensures this.app == app && order == [] && backends == map[]
    {
      this.app := app;
      order := [];
      backends := map[];
    }

    /** `StorageManager(config)`: each declaration in turn, the accepted ones added. */
    static method Create(app: App, decls: seq<Declaration>) returns (r: Result<StorageManager, StorageError>)
      ensures r.Ok? <==> Built(app, decls).Ok?
      ensures r.Err? ==> r == Err(Built(app, decls).error)
      ensures r.Ok? ==> && fresh(r.value) && r.value.app == app && r.value.Valid()
                        && r.value.order == Names(Built(app, decls).value)
                        && r.value.backends == ToMap(Built(app, decls).value)
    {
      var m := new StorageManager(app);
      var i := 0;
      while i < |decls|
        invariant 0 <= i <= |decls|
        invariant Built(app, decls[..i]).Ok?
        invariant m.order == Names(Built(app, decls[..i]).value)
        invariant m.backends == ToMap(Built(app, decls[..i]).value)
        invariant m.app == app
      {
        ghost var rest := Built(app, decls[..i]).value;
        var (name, settings) := decls[i];
        if "type" !in settings {
          assert decls[..i + 1][..i] == decls[..i];
          ErrExtends(app, decls, i + 1);
          return Err(MissingType(name));
        }
        BuiltStep(app, decls, i);
        var copy := settings["name" := name];
        if settings["type"] == "s3" {
          m.order := m.order + [name];
          m.backends := m.backends[name := Backend(S3File, copy)];
          AddPair(rest, name, Backend(S3File, copy));
        } else if app == Liteflow && settings["type"] == "local" {
          m.order := m.order + [name];
          m.backends := m.backends[name := Backend(LocalFile, copy)];
          AddPair(rest, name, Backend(LocalFile, copy));
        } else if app == Nfui && settings["type"] == "server" {
          m.order := m.order + [name];
          m.backends := m.backends[name := Backend(ServerFile, copy)];
          AddPair(rest, name, Backend(ServerFile, copy));
        }
        i := i + 1;
      }
      assert decls[..i] == decls;
      ValidFromPairs(m.order, m.backends, Built(app, decls).value);
      r := Ok(m);
    }

    /** `get_backend(name)`: a `KeyError` for an unknown name. */
    function GetBackend(name: string): (r: Result<Backend, StorageError>)
      reads this
      ensures r.Ok? <==> name in backends
      ensures r.Ok? ==> r.value == backends[name]
      ensures r.Err? ==> r.error == UnknownBackend(name)
    {
      if name in backends then Ok(backends[name]) else Err(UnknownBackend(name))
    }

    /** `list_backends()`: one row per backend in the dictionary's order. */
    function ListBackends(): (r: seq<BackendInfo>)
      reads this
      requires Valid()
      ensures |r| == |order|
      ensures forall i :: 0 <= i < |r| ==> r[i].name == order[i] && r[i].kind == backends[order[i]].settings["type"]
    {
      seq(|order|, i requires 0 <= i < |order| && Valid() reads this =>
        BackendInfo(order[i], backends[order[i]].settings["type"], Description(backends[order[i]].settings)))
    }
  }

  /** One more declaration with a `type` adds its backend, if its type selects one. */
  lemma BuiltStep(app: App, decls: seq<Declaration>, i: nat)
    requires i < |decls| && Built(app, decls[..i]).Ok? && "type" in decls[i].1
    ensures var (name, s) := decls[i];
      Built(app, decls[..i + 1]) == match Dispatch(app, s["type"])
        case None => Built(app, decls[..i])
        case Some(k) => Ok(Built(app, decls[..i]).value + [(name, Backend(k, s["name" := name]))])
  {
    assert decls[..i + 1][..i] == decls[..i];
  }

  /** One more pair adds its name at the end of the order and sets it in the mapping. */
  lemma AddPair(pairs: seq<(string, Backend)>, name: string, b: Backend)
    ensures Names(pairs + [(name, b)]) == Names(pairs) + [name]
    ensures ToMap(pairs + [(name, b)]) == ToMap(pairs)[name := b]
  {
    assert (pairs + [(name, b)])[..|pairs|] == pairs;
  }

  /** The order and mapping a list of pairs makes are a valid manager state. */
  lemma ValidFromPairs(order: seq<string>, backends: map<string, Backend>, pairs: seq<(string, Backend)>)
    requires order == Names(pairs) && backends == ToMap(pairs)
    requires forall k :: 0 <= k < |pairs| ==> "type" in pairs[k].1.settings
    ensures forall i :: 0 <= i < |order| ==> order[i] in backends && "type" in backends[order[i]].settings
  {
    forall i | 0 <= i < |order|
      ensures order[i] in backends && "type" in backends[order[i]].settings
    {
      assert order[i] == pairs[i].0;
      LastWins(pairs, i);
    }
  }

  /** Distinct declared names give distinct backend names. */
  lemma {:induction false} AcceptedDistinct(app: App, decls: seq<Declaration>)
    requires DistinctNames(decls)
    ensures DistinctNames(AcceptedDecls(app, decls))
  {
    if |decls| > 0 {
      var init := decls[..|decls| - 1];
      AcceptedDistinct(app, init);
      var d := decls[|decls| - 1];
      forall e | e in AcceptedDecls(app, init)
        ensures e.0 != d.0
      {
        var k :| 0 <= k < |init| && init[k] == e;
        assert decls[k] == e;
      }
    }
  }

  /** The backends of distinct declarations have distinct names. */
  lemma PairsDistinct(app: App, decls: seq<Declaration>)
    requires DistinctNames(decls) && Built(app, decls).Ok?
    ensures var pairs := Built(app, decls).value;
      forall i, j :: 0 <= i < j < |pairs| ==> pairs[i].0 != pairs[j].0
  {
    BuiltFromAccepted(app, decls);
    AcceptedDistinct(app, decls);
  }

  /** A manager holding pairs with distinct names lists exactly those pairs. */
  lemma ListBackendsOfPairs(m: StorageManager, pairs: seq<(string, Backend)>)
    requires m.order == Names(pairs) && m.backends == ToMap(pairs)
    requires forall k :: 0 <= k < |pairs| ==> "type" in pairs[k].1.settings
    requires forall i, j :: 0 <= i < j < |pairs| ==> pairs[i].0 != pairs[j].0
    ensures m.Valid() && m.ListBackends() == Listing(pairs)
  {
    ValidFromPairs(m.order, m.backends, pairs);
    forall i | 0 <= i < |pairs|
      ensures m.backends[m.order[i]] == pairs[i].1
    {
      LastWins(pairs, i);
      var k :| i <= k < |pairs| && pairs[k].0 == pairs[i].0 && ToMap(pairs)[pairs[i].0] == pairs[k].1;
      assert k == i;
    }
  }

  /**
   * `list_backends()` of the manager `Create` makes from a dictionary of declarations: one
   * row per accepted declaration, in declaration order, with its declared type and description.
   */
  lemma ManagerListsAccepted(app: App, decls: seq<Declaration>, m: StorageManager)
    requires DistinctNames(decls) && Built(app, decls).Ok?
    requires m.order == Names(Built(app, decls).value) && m.backends == ToMap(Built(app, decls).value)
    ensures m.Valid()
    ensures var acc := AcceptedDecls(app, decls);
      m.ListBackends() == seq(|acc|, i requires 0 <= i < |acc| =>
        BackendInfo(acc[i].0, acc[i].1["type"], Description(acc[i].1)))
  {
    var pairs := Built(app, decls).value;
    PairsDistinct(app, decls);
    ListingFromDecls(app, decls);
    ListBackendsOfPairs(m, pairs);
  }

  /** A name's backend in the mapping is the one of its last pair. */
  lemma {:induction false} LastWins(pairs: seq<(string, Backend)>, i: int)
    requires 0 <= i < |pairs|
    ensures pairs[i].0 in ToMap(pairs)
    ensures exists k :: i <= k < |pairs| && pairs[k].0 == pairs[i].0 && ToMap(pairs)[pairs[i].0] == pairs[k].1
  {
    var last := |pairs| - 1;
    if i < last && pairs[last].0 != pairs[i].0 {
      var init := pairs[..last];
      LastWins(init, i);
      var k :| i <= k < |init| && init[k].0 == init[i].0 && ToMap(init)[init[i].0] == init[k].1;
      assert pairs[k] == init[k];
    } else {
      assert pairs[last].0 == pairs[i].0 || i == last;
    }
  }
}
