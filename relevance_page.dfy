/**
 * The relevance page: it lists the files still to be evaluated, keeps the
 * API key and the model in local storage, and checks the selection and the
 * key before it asks the backend to evaluate a file.
 */
module RelevancePage {
  import opened Text
  import opened Wrappers
  import opened CsvUtils
  import opened Helpers

  /** A file that has been through the evaluation, by its header or by its name. */
  predicate IsEvaluated(f: FileInfo)
  {
    f.hasEvaluation || f.isEvaluated
  }

  /** `fileList.filter(file => !file.has_evaluation && !file.is_evaluated)`. */
  function UnevaluatedFiles(fileList: seq<FileInfo>): (r: seq<FileInfo>)
    ensures |r| <= |fileList|
    ensures forall f :: f in r <==> f in fileList && !IsEvaluated(f)
  {
    if fileList == [] then []
    else
      var init, last := fileList[..|fileList| - 1], fileList[|fileList| - 1];
      assert fileList == init + [last];
      UnevaluatedFiles(init) + (if !last.hasEvaluation && !last.isEvaluated then [last] else [])
  }

  const DefaultModel: string := "gpt-3.5-turbo"
  const ApiKeyStorageKey: string := "openai_api_key"
  const ModelStorageKey: string := "ai_model"

  const LoadFailedAlert: Alert := Alert(true, "error", "파일 목록을 불러오는 중 오류가 발생했습니다.")
  const ApiKeySavedAlert: Alert := Alert(true, "success", "API 키가 저장되었습니다.")
  const NoFileAlert: Alert := Alert(true, "error", "평가할 파일을 선택해주세요.")
  const NoApiKeyAlert: Alert := Alert(true, "error", "OpenAI API 키를 입력해주세요.")

  class RelevancePageState {
    var files: seq<FileInfo>
    var selectedFile: string
    var apiKey: string
    var model: string
    var loading: bool
    var alert: Alert
    /** The browser's local storage. */
    var storage: map<string, Stored>
    /** The evaluation requests sent: `(file path, API key, model)`. */
    var requests: seq<(string, string, string)>

    /**
     * What the page keeps true: only files still to be evaluated are
     * offered, and every request went out with a file and a key.
     */
    predicate Valid()
      reads this
    {
      && (forall f :: f in files ==> !IsEvaluated(f))
      && (forall i :: 0 <= i < |requests| ==> requests[i].0 != "" && requests[i].1 != "")
    }

    constructor(storage: map<string, Stored>)
      ensures Valid()
      ensures this.storage == storage && files == [] && selectedFile == "" && apiKey == ""
      ensures model == DefaultModel && !loading && !alert.open && requests == []
    {
      this.storage := storage;
      files := [];
      selectedFile := "";
      apiKey := "";
      model := DefaultModel;
      loading := false;
      alert := Alert(false, "info", "");
      requests := [];
    }

    /**
     * `loadFiles` with the answer of the file listing: `None` when the
     * request failed.
     */
    method LoadFiles(fileList: Option<seq<FileInfo>>)
      requires Valid()
      modifies this
      ensures Valid()
      ensures fileList.None? ==> alert == LoadFailedAlert && unchanged(this`files)
      ensures fileList.Some? ==> files == UnevaluatedFiles(fileList.value) && unchanged(this`alert)
      ensures unchanged(this`selectedFile, this`apiKey, this`model)
      ensures unchanged(this`storage, this`requests, this`loading)
    {
      match fileList {
        case None =>
          alert := LoadFailedAlert;
        case Some(list) =>
          var unevaluatedFiles := UnevaluatedFiles(list);
          files := unevaluatedFiles;
      }
    }

    /** `handleSaveApiKey`: the key is kept only when it is not blank, and kept as typed. */
    method HandleSaveApiKey()
      modifies this
      ensures unchanged(this`apiKey, this`model, this`selectedFile)
      ensures unchanged(this`files, this`requests, this`loading)
      ensures JsTrim(apiKey) == "" ==> unchanged(this`storage, this`alert)
      ensures JsTrim(apiKey) != "" ==>
                storage == old(storage)[ApiKeyStorageKey := StoredText(apiKey)] && alert == ApiKeySavedAlert
    {
      var trimmed := JsTrim(apiKey);
      if trimmed != "" {
        storage := storage[ApiKeyStorageKey := StoredText(apiKey)];
        alert := ApiKeySavedAlert;
      }
    }

    /** `handleModelChange`: the chosen model is used and remembered. */
    method HandleModelChange(selectedModel: string)
      modifies this
      ensures model == selectedModel && storage == old(storage)[ModelStorageKey := StoredText(selectedModel)]
      ensures unchanged(this`apiKey, this`selectedFile, this`alert)
      ensures unchanged(this`files, this`requests, this`loading)
    {
      model := selectedModel;
      storage := storage[ModelStorageKey := StoredText(selectedModel)];
    }

    /**
     * The checks and the request of `handleEvaluate`; what is done with the
     * answer is not modelled.
     */
    method HandleEvaluate()
      requires Valid()
      modifies this
      ensures Valid()
      ensures old(selectedFile) == "" ==> alert == NoFileAlert && unchanged(this`requests, this`loading)
      ensures old(selectedFile) != "" && old(apiKey) == "" ==>
                alert == NoApiKeyAlert && unchanged(this`requests, this`loading)
      ensures old(selectedFile) != "" && old(apiKey) != "" ==>
                loading && requests == old(requests) + [(old(selectedFile), old(apiKey), old(model))] && unchanged(this`alert)
      ensures unchanged(this`selectedFile, this`apiKey, this`model)
      ensures unchanged(this`files, this`storage)
    {
      if selectedFile == "" {
        alert := NoFileAlert;
        return;
      }
      if apiKey == "" {
        alert := NoApiKeyAlert;
        return;
      }
      loading := true;
      requests := requests + [(selectedFile, apiKey, model)];
    }
  }
}
