/**
 * app/core/model_loader.py: the process-wide embedding model, loaded from the first candidate
 * directory that exists. The filesystem test and SentenceTransformer loading are input
 * functions; the global is a field of a holder object.
 */
module ModelLoader {

  import opened Wrappers

  /** A loaded SentenceTransformer, identified by the directory it came from. */
  datatype Model = Model(path: string)

  /** The candidate directories, in the order they are tried. */
  const CandidatePaths := ["models/text2vec-base-chinese", "/app/models/text2vec-base-chinese", "./models/text2vec-base-chinese"]

  /** The position of the first path that exists, if any. */
  function FirstPresent(paths: seq<string>, present: string -> bool): (r: Option<nat>)
    ensures r.Some? ==> r.value < |paths| && present(paths[r.value])
    ensures r.Some? ==> forall j :: 0 <= j < r.value ==> !present(paths[j])
    ensures r.None? <==> forall j :: 0 <= j < |paths| ==> !present(paths[j])
  {
    if paths == [] then None
    else if present(paths[0]) then Some(0)
    else
      var rest := FirstPresent(paths[1..], present);
      assert forall j :: 1 <= j < |paths| ==> paths[j] == paths[1..][j - 1];
      if rest.None? then None else Some(rest.value + 1)
  }

  /** The global after load_model_on_startup: the model from the selected directory, or the
      old value when no directory exists or loading raises. */
  function AfterStartup(current: Option<Model>, present: string -> bool, load: string -> Result<Model, string>)
    : Option<Model>
  {
    match FirstPresent(CandidatePaths, present)
    case None => current
    case Some(i) => if load(CandidatePaths[i]).Ok? then Some(load(CandidatePaths[i]).value) else current
  }

  /** The global after get_embedding_model: a load is tried only when the global is None. */
  function AfterGet(current: Option<Model>, present: string -> bool, load: string -> Result<Model, string>)
    : Option<Model>
  {
    if current.None? then AfterStartup(current, present, load) else current
  }

  /** Once a model is held, asking again returns it, whatever the filesystem and loader do;
      while none is held, the model comes from the first existing candidate that loads. */
  lemma AfterGetCases(current: Option<Model>, present: string -> bool, load: string -> Result<Model, string>)
    ensures current.Some? ==> AfterGet(current, present, load) == current
    ensures var r := AfterGet(current, present, load);
      current.None? && r.Some? ==>
        exists i :: 0 <= i < |CandidatePaths| && present(CandidatePaths[i]) && load(CandidatePaths[i]) == Ok(r.value)
          && forall j :: 0 <= j < i ==> !present(CandidatePaths[j])
    ensures (forall j :: 0 <= j < |CandidatePaths| ==> !present(CandidatePaths[j])) ==> AfterGet(current, present, load) == current
    ensures var r := AfterGet(current, present, load);
      r.Some? ==> AfterGet(r, present, load) == r
  {
    var r := AfterGet(current, present, load);
    if current.None? && r.Some? {
      var i := FirstPresent(CandidatePaths, present).value;
      assert present(CandidatePaths[i]) && load(CandidatePaths[i]) == Ok(r.value);
    }
  }

  /** The holder of global_embedding_model. */
  class ModelHolder {
    var model: Option<Model>
    /** How many times SentenceTransformer was called. */
    ghost var loadAttempts: nat

    constructor ()
      ensures model == None && loadAttempts == 0
    {
      model := None;
      loadAttempts := 0;
    }

    /** load_model_on_startup(): checks candidates in order up to the first that exists
        (returned as the paths checked), then tries to load it. */
    method LoadModelOnStartup(present: string -> bool, load: string -> Result<Model, string>)
      returns (checked: seq<string>)
      modifies this
      ensures model == AfterStartup(old(model), present, load)
      ensures var first := FirstPresent(CandidatePaths, present);
        checked == CandidatePaths[..if first.Some? then first.value + 1 else |CandidatePaths|]
      ensures loadAttempts == old(loadAttempts) + (if FirstPresent(CandidatePaths, present).Some? then 1 else 0)
    {
      var paths := CandidatePaths;
      var selected: Option<nat> := None;
      checked := [];
      for i := 0 to |paths|
        invariant checked == paths[..i]
        invariant forall j :: 0 <= j < i ==> !present(paths[j])
      {
        checked := checked + [paths[i]];
        if present(paths[i]) {
          selected := Some(i);
          break;
        }
      }
      assert selected == FirstPresent(paths, present);
      if selected.None? {
        return;
      }
      loadAttempts := loadAttempts + 1;
      var loaded := load(paths[selected.value]);
      if loaded.Ok? {
        model := Some(loaded.value);
      }
    }

    /** get_embedding_model(): loads only while nothing is held, then returns the global,
        which may still be None. */
    method GetEmbeddingModel(present: string -> bool, load: string -> Result<Model, string>)
      returns (m: Option<Model>)
      modifies this
      ensures m == model == AfterGet(old(model), present, load)
      ensures old(model).Some? ==> loadAttempts == old(loadAttempts)
    {
      if model.None? {
        var _ := LoadModelOnStartup(present, load);
      }
      m := model;
    }
  }
}
