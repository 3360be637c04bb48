/** `ClusterInfoOperator.update`: dump the cluster-info config map, find the
    HAProxy configuration text at `data.haproxy` of its JSON document, patch
    it, write the new document and replace the config map. The two
    `kubectl` calls and the file reads and writes are outside the model:
    their outcomes are parameters, and the steps taken are returned as a
    trace of actions. */
module ClusterInfo {
  import opened PyStr
  import opened Patcher
  import PatcherProps

  /** A JSON document as `json.load` returns it (numbers are integers
      here). */
  datatype Json =
    | JNull
    | JBool(b: bool)
    | JNum(n: int)
    | JStr(s: string)
    | JArr(items: seq<Json>)
    | JObj(fields: map<string, Json>)

  datatype Option<T> = None | Some(value: T)

  /** What `update` can raise on its own: the "Cannot find haproxy config
      item" exception, Python's `TypeError` from `in` or `[]` on a value
      that does not support them, and `AttributeError` from calling
      `splitlines` on a value that is not a string. */
  datatype Failure = MissingHaproxyItem | TypeError | AttributeError

  datatype Result<T> = Ok(value: T) | Err(failure: Failure)

  /** How a call of `update` ends: it returns a boolean or raises. */
  datatype Outcome = Returned(ok: bool) | Raised(failure: Failure)

  /** The external steps `update` takes, in order. */
  datatype Action = Dump | WriteNew(config: Json) | Replace

  /** `key not in c` followed, when the key is there, by `c[key]`: `None`
      when the key is absent; a dictionary yields its value; a list or a
      string that holds the key cannot be indexed by a string; other values
      do not support `in`. */
  function Lookup(key: string, c: Json): (r: Result<Option<Json>>)
    ensures (r.Ok? && r.value.Some?) <==> (c.JObj? && key in c.fields)
    ensures r.Ok? && r.value.Some? ==> r.value.value == c.fields[key]
    ensures r.Err? ==> r.failure == TypeError
    ensures r.Err? <==>
      c.JNull? || c.JBool? || c.JNum? || (c.JArr? && JStr(key) in c.items) || (c.JStr? && Contains(c.s, key))
  {
    match c
    case JObj(fields) => Ok(if key in fields then Some(fields[key]) else None)
    case JArr(items) => if JStr(key) in items then Err(TypeError) else Ok(None)
    case JStr(s) => if Contains(s, key) then Err(TypeError) else Ok(None)
    case _ => Err(TypeError)
  }

  /** The current HAProxy text of a loaded document, or the failure
      `update` raises while looking for it. */
  function HaproxyText(config: Json): (r: Result<string>)
    ensures r.Ok? <==>
      config.JObj? && "data" in config.fields && config.fields["data"].JObj? &&
      "haproxy" in config.fields["data"].fields && config.fields["data"].fields["haproxy"].JStr?
    ensures r.Ok? ==> r.value == config.fields["data"].fields["haproxy"].s
    ensures config.JObj? && "data" !in config.fields ==> r == Err(MissingHaproxyItem)
    ensures (config.JObj? && "data" in config.fields && config.fields["data"].JObj? &&
             "haproxy" !in config.fields["data"].fields) ==> r == Err(MissingHaproxyItem)
    ensures (config.JObj? && "data" in config.fields && config.fields["data"].JObj? &&
             "haproxy" in config.fields["data"].fields && !config.fields["data"].fields["haproxy"].JStr?)
      ==> r == Err(AttributeError)
    ensures config.JNull? || config.JBool? || config.JNum? ==> r == Err(TypeError)
  {
    match Lookup("data", config)
    case Err(f) => Err(f)
    case Ok(None) => Err(MissingHaproxyItem)
    case Ok(Some(data)) =>
      match Lookup("haproxy", data)
      case Err(f) => Err(f)
      case Ok(None) => Err(MissingHaproxyItem)
      case Ok(Some(h)) => if h.JStr? then Ok(h.s) else Err(AttributeError)
  }

  /** `config_data['data']['haproxy'] = text`: only that entry changes. */
  function SetHaproxy(config: Json, text: string): (r: Json)
    requires config.JObj? && "data" in config.fields && config.fields["data"].JObj?
    ensures r.JObj? && r.fields.Keys == config.fields.Keys
    ensures forall k | k in config.fields && k != "data" :: r.fields[k] == config.fields[k]
    ensures r.fields["data"].JObj?
    ensures r.fields["data"].fields.Keys == config.fields["data"].fields.Keys + {"haproxy"}
    ensures r.fields["data"].fields["haproxy"] == JStr(text)
    ensures forall k | k in config.fields["data"].fields && k != "haproxy" ::
      r.fields["data"].fields[k] == config.fields["data"].fields[k]
    ensures HaproxyText(r) == Ok(text)
  {
    var data := config.fields["data"].fields;
    JObj(config.fields["data" := JObj(data["haproxy" := JStr(text)])])
  }

  /** `ClusterInfoOperator.update`. `dumpOk` and `replaceOk` are what the
      two `kubectl` calls report, and `loaded` is what `get_json_data`
      returns (`None` when the dumped file cannot be opened). It fails fast:
      a failed dump returns `False` before anything else; a missing or
      ill-typed `data.haproxy` raises before anything is written; otherwise
      the new document, which differs from the loaded one only in
      `data.haproxy`, is written and the result is the replace's. */
  method Update(namespace: string, frontIp: string, frontPort: int, backendIp: string,
                backendPort: int, addressType: string,
                dumpOk: bool, loaded: Option<Json>, replaceOk: bool)
    returns (outcome: Outcome, actions: seq<Action>)
    ensures !dumpOk ==> outcome == Returned(false) && actions == [Dump]
    ensures dumpOk && loaded.None? ==> outcome == Raised(TypeError) && actions == [Dump]
    ensures dumpOk && loaded.Some? && HaproxyText(loaded.value).Err? ==>
      outcome == Raised(HaproxyText(loaded.value).failure) && actions == [Dump]
    ensures dumpOk && loaded.Some? && HaproxyText(loaded.value).Ok? ==>
      var rule := Rule(namespace, frontIp, frontPort, backendIp, backendPort, addressType);
      outcome == Returned(replaceOk) &&
      actions == [Dump, WriteNew(SetHaproxy(loaded.value, Patch(HaproxyText(loaded.value).value, rule))), Replace]
  {
    actions := [Dump];
    if !dumpOk {
      return Returned(false), actions;
    }
    if loaded.None? {
      // `'data' not in None`
      return Raised(TypeError), actions;
    }
    var configData := loaded.value;
    var current := HaproxyText(configData);
    if current.Err? {
      return Raised(current.failure), actions;
    }
    var newContent := UpdateHaproxyData(namespace, current.value, frontIp, frontPort,
                                        backendIp, backendPort, addressType);
    configData := SetHaproxy(configData, newContent);
    actions := actions + [WriteNew(configData)];
    actions := actions + [Replace];
    outcome := Returned(replaceOk);
  }

  /** Writing the same text a second time changes nothing. */
  lemma SetHaproxyTwice(config: Json, text: string)
    requires config.JObj? && "data" in config.fields && config.fields["data"].JObj?
    ensures SetHaproxy(SetHaproxy(config, text), text) == SetHaproxy(config, text)
  {
    var w := SetHaproxy(config, text);
    var w2 := SetHaproxy(w, text);
    assert w2.fields["data"] == w.fields["data"];
    assert w2.fields == w.fields;
  }

  /** Running `update` twice with the same arguments on a document that
      the first run wrote leaves `data.haproxy` as the first run wrote it. */
  lemma UpdateSettles(config: Json, r: Rule)
    requires HaproxyText(config).Ok? && PatcherProps.WellFormedRule(r)
    ensures var w := SetHaproxy(config, Patch(HaproxyText(config).value, r));
      SetHaproxy(w, Patch(HaproxyText(w).value, r)) == w
  {
    var text := Patch(HaproxyText(config).value, r);
    var w := SetHaproxy(config, text);
    assert HaproxyText(w) == Ok(text);
    PatcherProps.Idempotent(HaproxyText(config).value, r);
    SetHaproxyTwice(config, text);
  }
}
