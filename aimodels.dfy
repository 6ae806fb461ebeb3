/** The AI-models hook: which models list to show for a provider, from the
    provider's model listing or from a fixed fallback list. The HTTP request is
    outside the model: `FetchModels` returns the URL it would request and is given
    the reply as an input, reduced to the strings the code extracts from it. */
module AiModels {
  import opened Wrappers
  import opened Seqs
  import opened Text
  import opened Sorting

  datatype Provider = OpenAI | Gemini | Ollama

  /** The fixed lists used before, instead of, and after a failed listing. */
  function FallbackModels(p: Provider): (r: seq<string>)
    ensures |r| > 0
  {
    match p
    case OpenAI => ["gpt-4o-mini", "gpt-4o", "gpt-4-turbo", "gpt-3.5-turbo"]
    case Gemini => ["gemini-2.0-flash", "gemini-2.0-flash-lite", "gemini-2.5-pro-preview-06-05"]
    case Ollama => ["llama3", "mistral", "codellama"]
  }

  /** The optional settings fields (`None` for a missing one). */
  datatype AISettings = AISettings(openaiApiKey: Option<string>, geminiApiKey: Option<string>, ollamaUrl: Option<string>)

  /** The reply to the listing request: an OK response with the list of ids (OpenAI)
      or names (Gemini, Ollama) its body holds, a response that is not OK, or an
      error thrown on the way (network, timeout, a body that does not parse),
      carrying its message. */
  datatype Reply = Listed(names: seq<string>) | NotOk | Failed(message: string)

  /** A setting that is present and not empty (JavaScript truthiness of a string). */
  predicate Given(s: Option<string>) {
    s.Some? && s.value != ""
  }

  const OllamaDefault: string := "http://localhost:11434"

  /** `settings.ollamaUrl || 'http://localhost:11434'`. */
  function OllamaBase(settings: AISettings): (base: string)
    ensures Given(settings.ollamaUrl) ==> base == settings.ollamaUrl.value
    ensures !Given(settings.ollamaUrl) ==> base == OllamaDefault
  {
    if Given(settings.ollamaUrl) then settings.ollamaUrl.value else OllamaDefault
  }

  /** The URL `fetchModels` requests, or `None` when it makes no request. */
  function RequestUrl(provider: Provider, settings: AISettings): (url: Option<string>)
    ensures url.None? <==> ((provider == OpenAI && !Given(settings.openaiApiKey))
                            || (provider == Gemini && !Given(settings.geminiApiKey)))
  {
    match provider
    case Ollama => Some(OllamaBase(settings) + "/api/tags")
    case OpenAI =>
      if Given(settings.openaiApiKey) then Some("https://api.openai.com/v1/models") else None
    case Gemini =>
      if Given(settings.geminiApiKey)
      then Some("https://generativelanguage.googleapis.com/v1beta/models?key=" + settings.geminiApiKey.value)
      else None
  }

  /** The message of the error thrown for a response that is not OK. */
  function NotOkMessage(p: Provider): string {
    match p
    case Ollama => "Failed to reach Ollama"
    case OpenAI => "Failed to fetch OpenAI models"
    case Gemini => "Failed to fetch Gemini models"
  }

  /** `names.length ? names : fallback`. */
  function OrFallback(names: seq<string>, p: Provider): (r: seq<string>)
    ensures |r| > 0
    ensures names != [] ==> r == names
    ensures names == [] ==> r == FallbackModels(p)
  {
    if |names| > 0 then names else FallbackModels(p)
  }

  function IsGpt(id: string): bool {
    StartsWith(id, "gpt-")
  }

  function IsGemini(id: string): bool {
    StartsWith(id, "gemini-")
  }

  /** `n.replace('models/', '')` for every name. */
  function StripModels(names: seq<string>): (r: seq<string>)
    ensures |r| == |names|
    ensures forall i :: 0 <= i < |names| ==> r[i] == RemoveFirst(names[i], "models/")
  {
    seq(|names|, i requires 0 <= i < |names| => RemoveFirst(names[i], "models/"))
  }

  /** The models list shown for an OK listing. */
  function ListedModels(p: Provider, names: seq<string>): seq<string> {
    match p
    case Ollama => OrFallback(names, Ollama)
    case OpenAI => OrFallback(Sort(Filter(names, IsGpt), LexLe), OpenAI)
    case Gemini => OrFallback(Sort(Filter(StripModels(names), IsGemini), LexLe), Gemini)
  }

  /** The default string order is a total preorder. */
  lemma LexLeOrder()
    ensures TotalPreorder(LexLe)
  {
    forall a, b ensures LexLe(a, b) || LexLe(b, a) {
      LexLeTotal(a, b);
    }
    forall a, b, c | LexLe(a, b) && LexLe(b, c) ensures LexLe(a, c) {
      LexLeTrans(a, b, c);
    }
  }

  /** Keeping the ids that pass `keep` and sorting them: the shown models are
      sorted and are exactly the qualifying ids, each as often as it was listed;
      when none qualifies the fallback list is shown. */
  lemma SortedSelection(p: Provider, ids: seq<string>, keep: string -> bool)
    ensures var r := OrFallback(Sort(Filter(ids, keep), LexLe), p);
            (Filter(ids, keep) == [] ==> r == FallbackModels(p))
            && (Filter(ids, keep) != [] ==>
                  SortedBy(r, LexLe) && multiset(r) == multiset(Filter(ids, keep))
                  && (forall x :: x in r <==> x in ids && keep(x)))
  {
    var sel := Filter(ids, keep);
    FilterSpec(ids, keep);
    LexLeOrder();
    SortSpec(sel, LexLe);
    if sel != [] {
      var r := Sort(sel, LexLe);
      assert |r| > 0;
      forall x ensures x in r <==> x in sel {
        assert x in r <==> x in multiset(r);
        assert x in sel <==> x in multiset(sel);
      }
    }
  }

  /** The OpenAI list: the listed ids that start with `gpt-`, sorted; or the
      fallback when there are none. */
  lemma OpenAIListed(ids: seq<string>)
    ensures var r := ListedModels(OpenAI, ids);
            (forall i :: 0 <= i < |ids| ==> !IsGpt(ids[i])) ==> r == FallbackModels(OpenAI)
    ensures var r := ListedModels(OpenAI, ids);
            (exists i :: 0 <= i < |ids| && IsGpt(ids[i])) ==>
              SortedBy(r, LexLe) && (forall x :: x in r <==> x in ids && StartsWith(x, "gpt-"))
              && multiset(r) == multiset(Filter(ids, IsGpt))
  {
    SortedSelection(OpenAI, ids, IsGpt);
    FilterEmpty(ids, IsGpt);
  }

  /** The stripped names are exactly the listed names with their first `models/` removed. */
  lemma StripModelsMembers(names: seq<string>, x: string)
    ensures x in StripModels(names) <==> exists n :: n in names && x == RemoveFirst(n, "models/")
  {
    var stripped := StripModels(names);
    if x in stripped {
      var i :| 0 <= i < |stripped| && stripped[i] == x;
      assert names[i] in names;
    }
    if exists n :: n in names && x == RemoveFirst(n, "models/") {
      var n :| n in names && x == RemoveFirst(n, "models/");
      var i :| 0 <= i < |names| && names[i] == n;
      assert stripped[i] == x;
    }
  }

  /** The Gemini list: the names with their first `models/` removed, those that then
      start with `gemini-`, sorted; or the fallback when there are none. */
  lemma GeminiListed(names: seq<string>)
    ensures var stripped := StripModels(names);
            (forall i :: 0 <= i < |stripped| ==> !IsGemini(stripped[i])) ==> ListedModels(Gemini, names) == FallbackModels(Gemini)
    ensures var stripped := StripModels(names);
            var r := ListedModels(Gemini, names);
            (exists i :: 0 <= i < |stripped| && IsGemini(stripped[i])) ==>
              SortedBy(r, LexLe) && (forall x :: x in r <==> x in stripped && StartsWith(x, "gemini-"))
              && multiset(r) == multiset(Filter(stripped, IsGemini))
  {
    var stripped := StripModels(names);
    SortedSelection(Gemini, stripped, IsGemini);
    FilterEmpty(stripped, IsGemini);
  }

  /** What one run of `fetchModels` leaves: the models list and the error. */
  datatype Outcome = Outcome(models: seq<string>, error: Option<string>)

  /** The result of `fetchModels` for a provider, its settings, and the reply its
      request got (unused when no request is made). */
  function Fetched(p: Provider, settings: AISettings, reply: Reply): (o: Outcome)
    ensures |o.models| > 0
    ensures RequestUrl(p, settings).None? ==> o == Outcome(FallbackModels(p), None)
    ensures RequestUrl(p, settings).Some? && reply.Listed? ==> o == Outcome(ListedModels(p, reply.names), None)
    ensures RequestUrl(p, settings).Some? && reply.NotOk? ==> o == Outcome(FallbackModels(p), Some(NotOkMessage(p)))
    ensures RequestUrl(p, settings).Some? && reply.Failed? ==> o == Outcome(FallbackModels(p), Some(reply.message))
    ensures o.error.None? <==> RequestUrl(p, settings).None? || reply.Listed?
  {
    if RequestUrl(p, settings).None? then Outcome(FallbackModels(p), None)
    else match reply
      case Listed(names) => Outcome(ListedModels(p, names), None)
      case NotOk => Outcome(FallbackModels(p), Some(NotOkMessage(p)))
      case Failed(message) => Outcome(FallbackModels(p), Some(message))
  }

  /** The hook's state for one provider and its settings. */
  class ModelsHook {
    const provider: Provider
    const settings: AISettings
    var models: seq<string>
    var loading: bool
    var error: Option<string>

    /** The initial state: the provider's fallback list, not loading, no error. */
    constructor (p: Provider, s: AISettings)
      ensures provider == p && settings == s
      ensures models == FallbackModels(p) && !loading && error.None?
    {
      provider := p;
      settings := s;
      models := FallbackModels(p);
      loading := false;
      error := None;
    }

    /** `fetchModels()`: returns the URL requested (`None` when there is none) and
        takes the request's reply as an input. */
    method FetchModels(reply: Reply) returns (url: Option<string>)
      modifies this
      ensures url == RequestUrl(provider, settings)
      ensures Outcome(models, error) == Fetched(provider, settings, reply)
      ensures !loading
    {
      error := None;
      loading := true;
      url := RequestUrl(provider, settings);
      if url.None? {
        models := FallbackModels(provider);
        loading := false;
        return;
      }
      match reply {
        case Listed(names) =>
          models := ListedModels(provider, names);
        case NotOk =>
          error := Some(NotOkMessage(provider));
          models := FallbackModels(provider);
        case Failed(message) =>
          error := Some(message);
          models := FallbackModels(provider);
      }
      loading := false;
    }
  }
}
