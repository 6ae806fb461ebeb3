/** The logic of the snippets page: the list filter (project, language and text
    search) and the mapping between a snippet's nullable `projectId` and the
    dialog's project selector, whose "no project" entry has the value `'none'`. */
module Snippets {
  import opened Wrappers
  import opened Seqs
  import opened Json
  import opened Text
  import opened Types
  import opened Clock
  import opened Store

  /** Whether a snippet is listed for the two selectors and the search text. */
  predicate SnippetMatches(s: Snippet, filterProject: string, filterLang: string, search: string) {
    (filterProject == "all" || s.projectId == Some(filterProject))
    && (filterLang == "all" || LanguageName(s.language) == filterLang)
    && SearchHits(search, s.title, s.code)
  }

  function FilterSnippets(snippets: seq<Snippet>, filterProject: string, filterLang: string, search: string): seq<Snippet> {
    Filter(snippets, (s: Snippet) => SnippetMatches(s, filterProject, filterLang, search))
  }

  /** A snippet is listed iff it passes the project selector (`'all'`, or its own
      project; a snippet without one passes only `'all'`), the language selector,
      and the search; the list keeps the stored order; and with both selectors on
      `'all'` and no search text every snippet is listed. */
  lemma FilterSnippetsSpec(snippets: seq<Snippet>, filterProject: string, filterLang: string, search: string)
    ensures forall s :: s in FilterSnippets(snippets, filterProject, filterLang, search) <==>
              s in snippets
              && (filterProject == "all" || (s.projectId.Some? && s.projectId.value == filterProject))
              && (filterLang == "all" || ParseLanguage(filterLang) == Some(s.language))
              && SearchHits(search, s.title, s.code)
    ensures IsSubsequence(FilterSnippets(snippets, filterProject, filterLang, search), snippets)
    ensures filterProject == "all" && filterLang == "all" && search == [] ==>
              FilterSnippets(snippets, filterProject, filterLang, search) == snippets
    ensures forall s: Snippet :: SnippetMatches(s, filterProject, filterLang, search) ==>
              multiset(FilterSnippets(snippets, filterProject, filterLang, search))[s] == multiset(snippets)[s]
  {
    var keep := (s: Snippet) => SnippetMatches(s, filterProject, filterLang, search);
    FilterSpec(snippets, keep);
    forall s | keep(s)
      ensures multiset(FilterSnippets(snippets, filterProject, filterLang, search))[s] == multiset(snippets)[s]
    {
      FilterKeepsCount(snippets, keep, s);
    }
    forall s: Snippet ensures LanguageName(s.language) == filterLang <==> ParseLanguage(filterLang) == Some(s.language) {
      LanguageNames(s.language, filterLang);
    }
    if filterProject == "all" && filterLang == "all" && search == [] {
      forall i | 0 <= i < |snippets| ensures keep(snippets[i]) {
        SearchHitsSpec(search, snippets[i].title, snippets[i].code);
      }
      FilterAll(snippets, keep);
    }
  }

  /** The selector value `openEdit` shows for a snippet's `projectId`: the id, or
      `'none'` for a missing (null or empty) one. */
  function FormProjectValue(pid: Option<string>): string {
    if pid.Some? && pid.value != "" then pid.value else "none"
  }

  /** The `projectId` that `handleSave` stores for a selector value. */
  function SaveProjectId(v: string): (pid: Option<string>)
    ensures pid.None? <==> v == "none"
    ensures pid.Some? ==> pid.value == v
  {
    if v == "none" then None else Some(v)
  }

  /** Opening a snippet for editing and saving it unchanged keeps its `projectId`
      exactly when that is null or an id other than `''` and `'none'`; an empty id
      becomes null, and so does the id `'none'`. */
  lemma ProjectIdRoundTrip(pid: Option<string>)
    ensures SaveProjectId(FormProjectValue(pid)) == pid <==> pid.None? || (pid.value != "" && pid.value != "none")
    ensures pid.Some? && (pid.value == "" || pid.value == "none") ==> SaveProjectId(FormProjectValue(pid)) == None
  {
  }

  /** The dialog's form fields. */
  datatype SnippetForm = SnippetForm(title: string, code: string, language: SnippetLanguage, projectId: string)

  /** `openCreate`: empty text, BASH, and no project. */
  function OpenCreate(): SnippetForm {
    SnippetForm("", "", BASH, "none")
  }

  /** `openEdit`: the dialog opens on the snippet's stored title, code and language
      and on its project, shown as `'none'` when it has none. What the dialog would
      send agrees with the stored record field by field, `projectId` included, unless
      the stored id is `''` or `'none'`, which the dialog turns into null. */
  function OpenEdit(s: Snippet): (f: SnippetForm)
    ensures s.projectId.None? || (s.projectId.value != "" && s.projectId.value != "none") ==>
              forall k :: k in SnippetPayload(f) ==> k in SnippetRecord(s) && SnippetPayload(f)[k] == SnippetRecord(s)[k]
    ensures !(s.projectId.None? || (s.projectId.value != "" && s.projectId.value != "none")) ==>
              SnippetPayload(f)["projectId"] == Null
  {
    ProjectIdRoundTrip(s.projectId);
    var f := SnippetForm(s.title, s.code, s.language, FormProjectValue(s.projectId));
    assert SnippetPayload(f)["title"] == SnippetRecord(s)["title"];
    f
  }

  /** Saving the create dialog with only a title typed sends nothing exactly when the
      title is blank, and otherwise creates a snippet of that title with empty code,
      language BASH and no project. */
  lemma OpenCreateSave(title: string)
    ensures var c := SnippetSave(None, OpenCreate().(title := title));
            (c.NoCall? <==> Blank(title))
            && (!Blank(title) ==>
                  c.CreateCall? && c.data["title"] == Str(title) && c.data["code"] == Str("")
                  && c.data["language"] == Str("BASH") && c.data["projectId"] == Null)
  {
    var f := SnippetForm(title, "", BASH, "none");
    assert OpenCreate().(title := title) == f;
    CreatePayload(f);
  }

  /** The payload of a form whose selector shows no project. */
  lemma CreatePayload(f: SnippetForm)
    requires f.projectId == "none"
    ensures var p := SnippetPayload(f);
            p["title"] == Str(f.title) && p["code"] == Str(f.code)
            && p["language"] == Str(LanguageName(f.language)) && p["projectId"] == Null
  {
  }

  /** `{ title, code, language, projectId: pid }`. */
  function SnippetPayload(f: SnippetForm): (r: Record)
    ensures r.Keys == {"title", "code", "language", "projectId"}
    ensures r["projectId"] == Nullable(SaveProjectId(f.projectId))
  {
    map["title" := Str(f.title), "code" := Str(f.code), "language" := Str(LanguageName(f.language)),
        "projectId" := Nullable(SaveProjectId(f.projectId))]
  }

  /** What saving the dialog sends: nothing for a blank title, otherwise an update
      of the edited snippet or a create. */
  function SnippetSave(editing: Option<Snippet>, f: SnippetForm): (c: Call)
    ensures c.NoCall? <==> Blank(f.title)
    ensures c.UpdateCall? ==> editing.Some? && c.id == editing.value.id && c.patch == SnippetPayload(f)
    ensures c.CreateCall? ==> editing.None? && c.data == SnippetPayload(f)
  {
    TrimEmpty(f.title);
    if Trim(f.title) == [] then NoCall
    else match editing
      case Some(s) => UpdateCall(s.id, SnippetPayload(f))
      case None => CreateCall(SnippetPayload(f))
  }

  /** Saving an edited snippet unchanged sends back exactly its own title, code,
      language and (for a null or ordinary id) project, so merging the patch into
      the stored snippet changes nothing but `updatedAt`. */
  lemma UnchangedEditSave(s: Snippet, now: nat)
    requires !Blank(s.title)
    requires s.projectId.None? || (s.projectId.value != "" && s.projectId.value != "none")
    ensures var c := SnippetSave(Some(s), OpenEdit(s));
            c.UpdateCall? && c.id == s.id
            && Merge(SnippetRecord(s), c.patch, now) == SnippetRecord(s)["updatedAt" := Str(Stamp(now))]
  {
    ProjectIdRoundTrip(s.projectId);
    var p := SnippetPayload(OpenEdit(s));
    var r := SnippetRecord(s);
    assert p["title"] == r["title"] && p["code"] == r["code"] && p["language"] == r["language"];
    assert p["projectId"] == r["projectId"];
    MergeAgreeing(r, p, now);
  }
}
