/** The backend configuration registry: the list of saved backends, the
    active backend's id, and the model selection that depends on it. */
module Configs {
  import opened Wrappers
  import opened Text
  import opened Lists

  /** One saved backend. `selectedModel` caches the last model chosen for it. */
  datatype BackendConfig = BackendConfig(
    id: string,
    name: string,
    host: string,
    port: string,
    contextTurns: int,
    description: string,
    selectedModel: Option<string>)

  /** The validated contents of the configuration form. */
  datatype ConfigFields = ConfigFields(
    name: string, host: string, port: string, contextTurns: int, description: string)

  /** Context turns used when the form's turns field is left empty. */
  const DefaultContextTurns: int := 10

  predicate HasId(id: string, c: BackendConfig) {
    c.id == id
  }

  /** No two saved backends share an id. */
  predicate UniqueIds(cs: seq<BackendConfig>) {
    forall i, j :: 0 <= i < j < |cs| ==> cs[i].id != cs[j].id
  }

  function IndexOfId(cs: seq<BackendConfig>, id: string): (r: Option<nat>)
    ensures r.Some? ==> r.value < |cs| && cs[r.value].id == id
    ensures r.None? <==> forall j :: 0 <= j < |cs| ==> cs[j].id != id
  {
    FindIndex(cs, c => HasId(id, c))
  }

  /** `getActiveConfig`: the first backend whose id is the active id; nothing
      when no id is active or no backend carries it. */
  function FindConfig(cs: seq<BackendConfig>, activeId: Option<string>): (r: Option<BackendConfig>)
    ensures r.Some? ==> activeId.Some? && r.value in cs && r.value.id == activeId.value
    ensures r.None? <==> activeId.None? || forall j :: 0 <= j < |cs| ==> cs[j].id != activeId.value
    ensures r.Some? && UniqueIds(cs) ==>
              forall j :: 0 <= j < |cs| && cs[j].id == activeId.value ==> cs[j] == r.value
  {
    if activeId.None? then None
    else match IndexOfId(cs, activeId.value)
      case None => None
      case Some(i) => Some(cs[i])
  }

  /** The save handler's validation: name, host and port are trimmed and must
      not be blank; the description is trimmed; an empty turns field means 10. */
  function ReadConfigForm(name: string, host: string, port: string, turns: Option<int>,
                          description: string): (r: Option<ConfigFields>)
    ensures r.None? <==> IsBlank(name) || IsBlank(host) || IsBlank(port)
    ensures r.Some? ==>
              && r.value.name != [] && IsTrimmed(r.value.name) && r.value.name == Trim(name)
              && r.value.host != [] && IsTrimmed(r.value.host) && r.value.host == Trim(host)
              && r.value.port != [] && IsTrimmed(r.value.port) && r.value.port == Trim(port)
              && r.value.description == Trim(description)
              && r.value.contextTurns == (if turns.None? then DefaultContextTurns else turns.value)
  {
    if IsBlank(name) || IsBlank(host) || IsBlank(port) then None
    else Some(ConfigFields(Trim(name), Trim(host), Trim(port), turns.GetOr(DefaultContextTurns),
                           Trim(description)))
  }

  /** An existing backend edited in place: its id and cached model are kept. */
  function Edited(c: BackendConfig, f: ConfigFields): (r: BackendConfig)
    ensures r.id == c.id && r.selectedModel == c.selectedModel
    ensures r.name == f.name && r.host == f.host && r.port == f.port
    ensures r.contextTurns == f.contextTurns && r.description == f.description
  {
    c.(name := f.name, host := f.host, port := f.port, contextTurns := f.contextTurns,
       description := f.description)
  }

  /** A new backend has no cached model yet. */
  function NewConfig(id: string, f: ConfigFields): BackendConfig {
    BackendConfig(id, f.name, f.host, f.port, f.contextTurns, f.description, None)
  }

  /** `configs.filter(c => c.id !== id)`. */
  function WithoutId(cs: seq<BackendConfig>, id: string): seq<BackendConfig> {
    Filter(cs, c => !HasId(id, c))
  }

  /** Deleting by id removes exactly the backend with that id, keeps the order
      of the others, and leaves no backend with that id behind. */
  lemma WithoutIdRemovesOne(cs: seq<BackendConfig>, id: string, i: nat)
    requires UniqueIds(cs) && IndexOfId(cs, id) == Some(i)
    ensures WithoutId(cs, id) == RemoveAt(cs, i)
    ensures UniqueIds(WithoutId(cs, id))
    ensures IndexOfId(WithoutId(cs, id), id) == None
  {
    FilterSingleOut(cs, c => !HasId(id, c), i);
  }

  /** Removing a backend keeps ids unique. */
  lemma RemoveAtKeepsUnique(cs: seq<BackendConfig>, i: nat)
    requires UniqueIds(cs) && i < |cs|
    ensures UniqueIds(RemoveAt(cs, i))
  {
    var r := RemoveAt(cs, i);
    forall a, b | 0 <= a < b < |r| ensures r[a].id != r[b].id {
      var a' := if a < i then a else a + 1;
      var b' := if b < i then b else b + 1;
      assert r[a] == cs[a'] && r[b] == cs[b'];
    }
  }

  /** The backend list after a successful save: an edit rewrites the selected
      backend (an unknown id changes nothing), a create appends a new one. */
  function SavedConfigs(cs: seq<BackendConfig>, f: ConfigFields, selectedId: string,
                        newId: string): seq<BackendConfig>
  {
    if selectedId != [] then
      match IndexOfId(cs, selectedId)
      case None => cs
      case Some(i) => cs[i := Edited(cs[i], f)]
    else cs + [NewConfig(newId, f)]
  }

  /** The active id after a successful save: a create into an empty registry
      activates the new backend; nothing else changes the active id. */
  function SavedActive(cs: seq<BackendConfig>, activeId: Option<string>, selectedId: string,
                       newId: string): Option<string>
  {
    if selectedId == [] && cs == [] then Some(newId) else activeId
  }

  /** What a successful save promises: an edit keeps the number of backends and
      the active id and changes only the selected backend's fields; a create adds
      exactly one backend, found under its new id, that is active if and only if
      it is the only backend. Ids stay unique when the new id is fresh. */
  lemma SaveSpec(cs: seq<BackendConfig>, activeId: Option<string>, f: ConfigFields,
                 selectedId: string, newId: string)
    requires UniqueIds(cs)
    requires selectedId == [] ==> IndexOfId(cs, newId) == None
    ensures var r := SavedConfigs(cs, f, selectedId, newId);
            var a := SavedActive(cs, activeId, selectedId, newId);
            && UniqueIds(r)
            && (selectedId != [] ==>
                  |r| == |cs| && a == activeId &&
                  forall j :: 0 <= j < |cs| ==>
                    r[j].id == cs[j].id && (cs[j].id != selectedId ==> r[j] == cs[j]) &&
                    (cs[j].id == selectedId ==> r[j] == Edited(cs[j], f)))
            && (selectedId == [] ==>
                  |r| == |cs| + 1 && r[..|cs|] == cs && FindConfig(r, Some(newId)) == Some(NewConfig(newId, f)) &&
                  r[|cs|].contextTurns == f.contextTurns &&
                  (a == Some(newId) <==> |r| == 1 || activeId == Some(newId)))
  {
    if selectedId != [] {
      match IndexOfId(cs, selectedId)
      case None =>
      case Some(i) => EditKeepsUnique(cs, i, f);
    } else {
      AppendFreshKeepsUnique(cs, NewConfig(newId, f));
    }
  }

  /** Appending a backend whose id is new keeps ids unique, and it is then found by its id. */
  lemma AppendFreshKeepsUnique(cs: seq<BackendConfig>, c: BackendConfig)
    requires UniqueIds(cs) && IndexOfId(cs, c.id) == None
    ensures UniqueIds(cs + [c])
    ensures FindConfig(cs + [c], Some(c.id)) == Some(c)
  {
    var s := cs + [c];
    assert s[|cs|] == c;
    assert forall j :: 0 <= j < |cs| ==> s[j] == cs[j];
    assert IndexOfId(s, c.id) == Some(|cs|);
  }

  /** Editing a backend in place keeps every id, so ids stay unique. */
  lemma EditKeepsUnique(cs: seq<BackendConfig>, i: nat, f: ConfigFields)
    requires UniqueIds(cs) && i < |cs|
    ensures UniqueIds(cs[i := Edited(cs[i], f)])
  {
    var r := cs[i := Edited(cs[i], f)];
    assert forall j :: 0 <= j < |r| ==> r[j].id == cs[j].id;
  }

  /** `config.selectedModel = model` on the active backend; without one, nothing changes. */
  function WithActiveModel(cs: seq<BackendConfig>, activeId: Option<string>, model: string): seq<BackendConfig> {
    if activeId.None? then cs
    else match IndexOfId(cs, activeId.value)
      case None => cs
      case Some(i) => cs[i := cs[i].(selectedModel := Some(model))]
  }

  /** Writing the model into the active backend keeps ids unique and the
      length, leaves every other backend as it was, and the active backend
      afterwards is the old one with that model cached. */
  lemma ActiveModelSpec(cs: seq<BackendConfig>, activeId: Option<string>, model: string)
    requires UniqueIds(cs)
    ensures var r := WithActiveModel(cs, activeId, model);
            && UniqueIds(r) && |r| == |cs|
            && (forall j :: 0 <= j < |r| && (activeId.None? || cs[j].id != activeId.value) ==> r[j] == cs[j])
            && FindConfig(r, activeId) ==
                 (if FindConfig(cs, activeId).None? then None
                  else Some(FindConfig(cs, activeId).value.(selectedModel := Some(model))))
  {
    var r := WithActiveModel(cs, activeId, model);
    assert forall j :: 0 <= j < |r| ==> r[j].id == cs[j].id;
    if activeId.Some? && IndexOfId(cs, activeId.value).Some? {
      var i := IndexOfId(cs, activeId.value).value;
      assert IndexOfId(r, activeId.value) == Some(i) by {
        assert forall j :: 0 <= j < i ==> r[j].id == cs[j].id;
      }
    }
  }

  class ConfigRegistry {
    var configs: seq<BackendConfig>
    var activeId: Option<string>
    var selectedModel: Option<string>
    var availableModels: seq<string>
    /** The model the selector last settled on; a change away from it may start a new conversation. */
    var previousModel: Option<string>

    ghost predicate Valid()
      reads this
    {
      UniqueIds(configs)
    }

    /** The registry before anything is saved. */
    constructor ()
      ensures Valid()
      ensures configs == [] && activeId == None && selectedModel == None && availableModels == []
      ensures previousModel == None
    {
      configs, activeId, selectedModel, availableModels, previousModel := [], None, None, [], None;
    }

    function ActiveConfig(): (r: Option<BackendConfig>)
      reads this
      ensures r.Some? ==> r.value in configs && activeId == Some(r.value.id)
      ensures r.None? <==> activeId.None? || forall j :: 0 <= j < |configs| ==> configs[j].id != activeId.value
    {
      FindConfig(configs, activeId)
    }

    /** The Set Active button: an empty selection does nothing, otherwise the
        selected id becomes the active one. Setting it twice is setting it once. */
    method SetActive(selectedId: string)
      modifies this
      ensures configs == old(configs) && selectedModel == old(selectedModel)
      ensures availableModels == old(availableModels) && previousModel == old(previousModel)
      ensures activeId == if selectedId == [] then old(activeId) else Some(selectedId)
    {
      if selectedId == [] {
        return;
      }
      activeId := Some(selectedId);
    }

    /** The model selector, once a change goes ahead: the model becomes the
        selected and the previous one, and is cached on the active backend. */
    method SelectModel(model: string)
      requires Valid()
      modifies this
      ensures Valid()
      ensures selectedModel == Some(model) && previousModel == Some(model)
      ensures configs == WithActiveModel(old(configs), activeId, model)
      ensures activeId == old(activeId) && availableModels == old(availableModels)
    {
      ActiveModelSpec(configs, activeId, model);
      selectedModel := Some(model);
      previousModel := Some(model);
      configs := WithActiveModel(configs, activeId, model);
    }

    /** The Save button. `selectedId` is the dropdown's value (empty for a new
        backend) and `newId` the id `generateId` produced. Blank required fields
        change nothing. An edit rewrites the selected backend in place; a create
        appends and becomes active exactly when it is the only backend.
        `refetch` says whether the model list is fetched again afterwards. */
    method Save(name: string, host: string, port: string, turns: Option<int>, description: string,
                selectedId: string, newId: string) returns (saved: bool, refetch: bool)
      requires Valid()
      requires selectedId == [] ==> IndexOfId(configs, newId) == None
      modifies this
      ensures Valid()
      ensures saved <==> ReadConfigForm(name, host, port, turns, description).Some?
      ensures selectedModel == old(selectedModel) && availableModels == old(availableModels)
      ensures previousModel == old(previousModel)
      ensures !saved ==> configs == old(configs) && activeId == old(activeId) && !refetch
      ensures saved ==>
                var f := ReadConfigForm(name, host, port, turns, description).value;
                && configs == SavedConfigs(old(configs), f, selectedId, newId)
                && activeId == SavedActive(old(configs), old(activeId), selectedId, newId)
                && refetch == (activeId == Some(selectedId) || |configs| == 1)
    {
      var form := ReadConfigForm(name, host, port, turns, description);
      if form.None? {
        return false, false;
      }
      var f := form.value;
      if selectedId != [] {
        var found := IndexOfId(configs, selectedId);
        if found.Some? {
          var i := found.value;
          EditKeepsUnique(configs, i, f);
          configs := configs[i := Edited(configs[i], f)];
        }
      } else {
        AppendFreshKeepsUnique(configs, NewConfig(newId, f));
        configs := configs + [NewConfig(newId, f)];
        if |configs| == 1 {
          activeId := Some(newId);
        }
      }
      saved := true;
      refetch := activeId == Some(selectedId) || |configs| == 1;
    }

    /** The Delete button, with the confirmation accepted. An empty selection or
        an unknown id does nothing. Otherwise exactly that backend is removed;
        when it was the active one, the active id, the model list and the
        selected model are cleared. */
    method Delete(selectedId: string)
      requires Valid()
      modifies this
      ensures Valid() && previousModel == old(previousModel)
      ensures selectedId == [] || IndexOfId(old(configs), selectedId).None? ==>
                configs == old(configs) && activeId == old(activeId) &&
                selectedModel == old(selectedModel) && availableModels == old(availableModels)
      ensures selectedId != [] && IndexOfId(old(configs), selectedId).Some? ==>
                && configs == RemoveAt(old(configs), IndexOfId(old(configs), selectedId).value)
                && IndexOfId(configs, selectedId) == None
                && (old(activeId) == Some(selectedId) ==>
                      activeId == None && selectedModel == None && availableModels == [])
                && (old(activeId) != Some(selectedId) ==>
                      activeId == old(activeId) && selectedModel == old(selectedModel) &&
                      availableModels == old(availableModels))
    {
      if selectedId == [] {
        return;
      }
      var found := IndexOfId(configs, selectedId);
      if found.None? {
        return;
      }
      WithoutIdRemovesOne(configs, selectedId, found.value);
      configs := WithoutId(configs, selectedId);
      if activeId == Some(selectedId) {
        activeId := None;
        availableModels := [];
        selectedModel := None;
      }
    }
  }
}
