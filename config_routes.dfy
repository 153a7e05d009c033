/**
 * The request handlers of liteflow/routes/configs.py as guard chains in front of the
 * config registry of the Configs module: which requests may change the registry, and the
 * status and message of every answer. `DEFAULT_CONFIG` is the setting string (empty when
 * unset); the `X-Requested-With` header is optional.
 */
module ConfigRoutes {

  import opened Wrappers
  import opened Configs

  const Ajax: string := "XMLHttpRequest"

  datatype HttpMethod = Get | Post

  datatype Response =
    | Json(status: int, message: string)                          // `jsonify(...)`, with its status
    | CreatedJson(message: string, config: ConfigRow)             // the create success answer
    | ConfigsPage(configs: seq<ConfigRow>, defaultConfig: Option<ConfigRow>, canChangeDefault: bool)
    | EditPage(filename: string, content: string)
    | RedirectToConfigs(flash: string)

  /**
   * `str(e)` of the errors the registry raises: a missing or duplicate config is named in
   * its message, where it can be read back.
   */
  function ErrorText(e: ConfigError): (text: string)
    ensures e.NotFound? ==> |text| == |e.filename| + 17 && text[7..|text| - 10] == e.filename
    ensures e.AlreadyExists? ==> |text| == |e.filename| + 36 && text[21..|text| - 15] == e.filename
  {
    match e
    case NotFound(f) =>
      Enclosed("Config ", f, " not found");
      "Config " + f + " not found"
    case AlreadyExists(f) =>
      Enclosed("Config with filename ", f, " already exists");
      "Config with filename " + f + " already exists"
    case DefaultDiffers => "Existing default.config differs from enforced default config!"
    case UniqueViolation(f) => "UNIQUE constraint failed: configs.filename"
  }

  /** A text put between a prefix and a suffix is read back from between them. */
  lemma Enclosed(prefix: string, f: string, suffix: string)
    ensures var t := prefix + f + suffix;
      |t| == |prefix| + |f| + |suffix| && t[|prefix|..|t| - |suffix|] == f
  {
    var t := prefix + f + suffix;
    assert t[|prefix|..|t| - |suffix|] == f;
  }

  predicate IsAjax(requestedWith: Option<string>)
  {
    requestedWith == Some(Ajax)
  }

  const InvalidRequest: Response := Json(400, "Invalid request")
  const NotFoundReply: Response := Json(404, "Configuration not found!")

  /**
   * `POST /configs`: creates a config. Only an AJAX request the registry accepts is answered
   * with the new row, and only then does the store change, to the registry's result.
   */
  function CreatePost(st: Store, requestedWith: Option<string>, name: string, filename: string, now: int)
    : (r: (Response, Store))
    ensures r.0.CreatedJson? <==> IsAjax(requestedWith) && Created(st, name, filename, now).Ok?
    ensures r.0.CreatedJson? ==> (r.0.config, r.1) == Created(st, name, filename, now).value
    ensures !r.0.CreatedJson? ==> r.0.Json? && r.0.status == 400 && r.1 == st
  {
    if !IsAjax(requestedWith) then (InvalidRequest, st)
    else
      match Created(st, name, filename, now)
      case Err(e) => (Json(400, ErrorText(e)), st)
      case Ok((row, st')) =>
        (CreatedJson("Configuration for '" + filename + "' created successfully!", row), st')
  }

  /** `GET /configs`: the list, the default and whether the default may be changed. */
  function ConfigsGet(st: Store, defaultSetting: string): (r: Response)
    ensures r.ConfigsPage? && r.configs == st.rows && r.defaultConfig == DefaultRow(st.rows)
    ensures r.canChangeDefault <==> defaultSetting == ""
  {
    ConfigsPage(st.rows, DefaultRow(st.rows), !HasEnforcedDefault(defaultSetting))
  }

  /** `POST /configs/set_default/<filename>`. */
  function SetDefaultPost(st: Store, defaultSetting: string, requestedWith: Option<string>,
                          filename: string, now: int): (r: (Response, Store))
    ensures r.0.Json?
    ensures r.0.status == 200 <==>
      IsAjax(requestedWith) && !HasEnforcedDefault(defaultSetting) && Lookup(st, filename).Ok?
    ensures r.0.status == 200 ==> r.1 == WithDefault(st, filename, now).value
    ensures r.0.status != 200 ==> r.1 == st
  {
    if !IsAjax(requestedWith) then (InvalidRequest, st)
    else if HasEnforcedDefault(defaultSetting) then
      (Json(400, "Default config is enforced by system configuration!"), st)
    else
      match WithDefault(st, filename, now)
      case Err(_) => (NotFoundReply, st)
      case Ok(st') => (Json(200, "Default configuration updated!"), st')
  }

  /**
   * `/configs/edit/<filename>`: the config is looked up before the header is checked; a GET
   * reads the file, and a missing row or file sends the browser back to the list.
   */
  function EditRequest(st: Store, verb: HttpMethod, requestedWith: Option<string>,
                       filename: string, content: string, now: int): (r: (Response, Store))
    ensures r.0 == Json(200, "Configuration saved!") <==>
      verb == Post && IsAjax(requestedWith) && Lookup(st, filename).Ok?
    ensures r.0 == Json(200, "Configuration saved!") ==> r.1 == Updated(st, filename, content, now).value
    ensures r.0 != Json(200, "Configuration saved!") ==> r.1 == st
    ensures r.0.EditPage? <==> verb.Get? && Lookup(st, filename).Ok? && Normalize(filename) in st.files
    ensures r.0.EditPage? ==> r.0.content == st.files[Normalize(filename)]
  {
    match Lookup(st, filename)
    case Err(_) =>
      if verb == Post then (NotFoundReply, st) else (RedirectToConfigs("Configuration not found!"), st)
    case Ok(_) =>
      if verb == Post then
        if !IsAjax(requestedWith) then (InvalidRequest, st)
        else
          match Updated(st, filename, content, now)
          case Err(_) => (NotFoundReply, st)
          case Ok(st') => (Json(200, "Configuration saved!"), st')
      else if Normalize(filename) in st.files then (EditPage(filename, st.files[Normalize(filename)]), st)
      else (RedirectToConfigs("Configuration not found!"), st)
  }

  /**
   * `POST /configs/delete/<filename>`: only an AJAX request for an existing config that is
   * not the default succeeds, and only then does the store change, to the registry's result.
   */
  function DeletePost(st: Store, requestedWith: Option<string>, filename: string): (r: (Response, Store))
    ensures r.0.Json?
    ensures r.0.status == 200 <==>
      IsAjax(requestedWith) && Lookup(st, filename).Ok? && !Lookup(st, filename).value.isDefault
    ensures r.0.status == 200 ==> r.1 == Deleted(st, filename).value
    ensures r.0.status != 200 ==> r.1 == st
  {
    if !IsAjax(requestedWith) then (InvalidRequest, st)
    else
      match Lookup(st, filename)
      case Err(_) => (NotFoundReply, st)
      case Ok(config) =>
        if config.isDefault then (Json(400, "Cannot delete the default configuration!"), st)
        else
          match Deleted(st, filename)
          case Err(_) => (NotFoundReply, st)
          case Ok(st') => (Json(200, "Configuration deleted!"), st')
  }

  /**
   * Without the AJAX header every POST is answered 400 and changes nothing; the edit POST
   * checks the config first, so an unknown config is answered 404 there.
   */
  lemma NonAjaxPostsRejected(st: Store, defaultSetting: string, requestedWith: Option<string>,
                             name: string, filename: string, content: string, now: int)
    requires !IsAjax(requestedWith)
    ensures CreatePost(st, requestedWith, name, filename, now) == (Json(400, "Invalid request"), st)
    ensures SetDefaultPost(st, defaultSetting, requestedWith, filename, now) == (Json(400, "Invalid request"), st)
    ensures DeletePost(st, requestedWith, filename) == (Json(400, "Invalid request"), st)
    ensures Lookup(st, filename).Ok? ==>
      EditRequest(st, Post, requestedWith, filename, content, now) == (Json(400, "Invalid request"), st)
    ensures Lookup(st, filename).Err? ==>
      EditRequest(st, Post, requestedWith, filename, content, now) == (Json(404, "Configuration not found!"), st)
  {
  }

  /** While a default is enforced, set-default is refused and changes nothing. */
  lemma EnforcedDefaultIsFixed(st: Store, defaultSetting: string, filename: string, now: int)
    requires defaultSetting != ""
    ensures SetDefaultPost(st, defaultSetting, Some(Ajax), filename, now)
         == (Json(400, "Default config is enforced by system configuration!"), st)
  {
  }

  /** The default config cannot be deleted: the answer is 400 and its row and file remain. */
  lemma DefaultNotDeletable(st: Store, filename: string)
    requires Lookup(st, filename).Ok? && Lookup(st, filename).value.isDefault
    ensures DeletePost(st, Some(Ajax), filename) == (Json(400, "Cannot delete the default configuration!"), st)
  {
  }

  /** An unknown config is answered 404 by set-default, edit-POST and delete, with nothing changed. */
  lemma UnknownConfigNotFound(st: Store, requestedWith: Option<string>, filename: string, content: string, now: int)
    requires Lookup(st, filename).Err?
    ensures SetDefaultPost(st, "", Some(Ajax), filename, now) == (Json(404, "Configuration not found!"), st)
    ensures EditRequest(st, Post, requestedWith, filename, content, now) == (Json(404, "Configuration not found!"), st)
    ensures DeletePost(st, Some(Ajax), filename) == (Json(404, "Configuration not found!"), st)
    ensures EditRequest(st, Get, requestedWith, filename, content, now) == (RedirectToConfigs("Configuration not found!"), st)
  {
  }

  /** A duplicate create is answered 400 with the registry's message and changes nothing. */
  lemma DuplicateCreateRejected(st: Store, name: string, filename: string, now: int)
    requires Lookup(st, Normalize(filename)).Ok?
    ensures CreatePost(st, Some(Ajax), name, filename, now)
         == (Json(400, "Config with filename " + Normalize(filename) + " already exists"), st)
  {
  }

  /**
   * The accepted requests do what the registry does: create, set-default, edit and delete
   * leave the store the registry's operation produces.
   */
  lemma AcceptedRequestsApply(st: Store, name: string, filename: string, content: string, now: int)
    ensures Created(st, name, filename, now).Ok? ==>
      CreatePost(st, Some(Ajax), name, filename, now).1 == Created(st, name, filename, now).value.1
    ensures WithDefault(st, filename, now).Ok? ==>
      SetDefaultPost(st, "", Some(Ajax), filename, now) == (Json(200, "Default configuration updated!"), WithDefault(st, filename, now).value)
    ensures Updated(st, filename, content, now).Ok? ==>
      EditRequest(st, Post, Some(Ajax), filename, content, now) == (Json(200, "Configuration saved!"), Updated(st, filename, content, now).value)
    ensures Deleted(st, filename).Ok? && !Lookup(st, filename).value.isDefault ==>
      DeletePost(st, Some(Ajax), filename) == (Json(200, "Configuration deleted!"), Deleted(st, filename).value)
  {
  }

  /**
   * Whatever is asked, the registry never loses its default through these handlers: a store
   * with a default still has one after any delete request.
   */
  lemma DeleteKeepsDefault(st: Store, requestedWith: Option<string>, filename: string)
    requires Valid(st)
    requires DefaultRow(st.rows).Some?
    ensures DefaultRow(DeletePost(st, requestedWith, filename).1.rows).Some?
  {
    var st' := DeletePost(st, requestedWith, filename).1;
    if st' != st {
      var d := DefaultRow(st.rows).value;
      DeleteEffect(st, filename);
      assert d.filename != filename;
      assert d in st'.rows;
    }
  }
}
