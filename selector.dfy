/**
 * The model drop-down (`ModelSelector`): the fetched `models`, the
 * `isLoading` flag and the `error` notice, updated by one directory query.
 */
module Selector {
  import opened Wrappers
  import opened Ollama

  /** The notice shown when the directory query fails. */
  const LoadError: string := "Failed to load models. Is Ollama running?"

  /**
   * The `onModelChange` call after a successful query: the first model's name,
   * made only when models came back and nothing is selected yet.
   */
  function DefaultSelection(fetched: seq<OllamaModel>, selectedModel: string): (r: Option<string>)
    ensures r.Some? <==> |fetched| > 0 && selectedModel == ""
    ensures r.Some? ==> r.value == fetched[0].name
  {
    if |fetched| > 0 && selectedModel == "" then Some(fetched[0].name) else None
  }

  class ModelSelector {
    var models: seq<OllamaModel>
    var isLoading: bool
    var error: Option<string>

    constructor ()
      ensures models == [] && isLoading && error == None
    {
      models := [];
      isLoading := true;
      error := None;
    }

    /** The drop-down's `disabled={isLoading || models.length === 0}`. */
    predicate Disabled()
      reads this
    {
      isLoading || |models| == 0
    }

    /**
     * `getModels`, given what the query returned and the current selection;
     * returns the selection passed to `onModelChange`, if any.
     */
    method GetModels(response: DirectoryResponse, selectedModel: string) returns (selection: Option<string>)
      modifies this`models, this`isLoading, this`error
      ensures !isLoading
      ensures FetchAvailableModels(response).Ok? ==>
                models == FetchAvailableModels(response).value && error == None &&
                selection == DefaultSelection(models, selectedModel)
      ensures FetchAvailableModels(response).Err? ==>
                models == old(models) && error == Some(LoadError) && selection == None
      ensures Disabled() <==> |models| == 0
    {
      isLoading := true;
      selection := None;
      var fetched := FetchAvailableModels(response);
      match fetched {
        case Ok(available) =>
          models := available;
          if |available| > 0 && selectedModel == "" {
            selection := Some(available[0].name);
          }
          error := None;
        case Err(_) =>
          // the failure is logged
          error := Some(LoadError);
      }
      isLoading := false;
    }
  }
}
