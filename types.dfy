/** The record shapes of the application: projects, documents, snippets and
    media items, and how each is laid out as a stored JSON record. */
module Types {
  import opened Wrappers
  import opened Json

  datatype SnippetLanguage = YAML | BASH | PYTHON

  /** The string a language is stored as. */
  function LanguageName(l: SnippetLanguage): string {
    match l
    case YAML => "YAML"
    case BASH => "BASH"
    case PYTHON => "PYTHON"
  }

  /** The language a stored string names, if any. */
  function ParseLanguage(s: string): (r: Option<SnippetLanguage>)
    ensures r.Some? <==> s == "YAML" || s == "BASH" || s == "PYTHON"
  {
    if s == "YAML" then Some(YAML)
    else if s == "BASH" then Some(BASH)
    else if s == "PYTHON" then Some(PYTHON)
    else None
  }

  /** The three names are exactly the languages: a string parses to `l` iff it is
      `l`'s name, so the names are pairwise different. */
  lemma LanguageNames(l: SnippetLanguage, s: string)
    ensures ParseLanguage(s) == Some(l) <==> s == LanguageName(l)
  {
  }

  datatype Project = Project(id: string, name: string, description: string, color: string,
                             createdAt: string, updatedAt: string)

  datatype Document = Document(id: string, title: string, content: string, projectId: Option<string>,
                               createdAt: string, updatedAt: string)

  datatype Snippet = Snippet(id: string, title: string, language: SnippetLanguage, code: string,
                             projectId: Option<string>, createdAt: string, updatedAt: string)

  /** `mediaType` is the field stored under the key `type`. */
  datatype MediaItem = MediaItem(id: string, title: string, url: string, mediaType: string,
                                 projectId: Option<string>, createdAt: string)

  /** `string | null` as a JSON value. */
  function Nullable(o: Option<string>): Value {
    match o
    case None => Null
    case Some(s) => Str(s)
  }

  /** The inverse of `Nullable`, for values of either shape. */
  function AsNullable(v: Value): Option<Option<string>> {
    match v
    case Null => Some(None)
    case Str(s) => Some(Some(s))
    case _ => None
  }

  /** The string stored under `k`, when there is one. */
  function StrField(r: Record, k: string): Option<string> {
    if k in r && r[k].Str? then Some(r[k].s) else None
  }

  function ProjectRecord(p: Project): (r: Record)
    ensures r.Keys == {"id", "name", "description", "color", "createdAt", "updatedAt"}
    ensures IdIs(r, p.id) && "projectId" !in r
  {
    map["id" := Str(p.id), "name" := Str(p.name), "description" := Str(p.description),
        "color" := Str(p.color), "createdAt" := Str(p.createdAt), "updatedAt" := Str(p.updatedAt)]
  }

  function ProjectOf(r: Record): Option<Project> {
    var id := StrField(r, "id");
    var name := StrField(r, "name");
    var description := StrField(r, "description");
    var color := StrField(r, "color");
    var createdAt := StrField(r, "createdAt");
    var updatedAt := StrField(r, "updatedAt");
    if id.Some? && name.Some? && description.Some? && color.Some? && createdAt.Some? && updatedAt.Some?
    then Some(Project(id.value, name.value, description.value, color.value, createdAt.value, updatedAt.value))
    else None
  }

  /** A project read back from its record is the same project. */
  lemma ProjectRoundTrip(p: Project)
    ensures ProjectOf(ProjectRecord(p)) == Some(p)
  {
  }

  function DocumentRecord(d: Document): (r: Record)
    ensures r.Keys == {"id", "title", "content", "projectId", "createdAt", "updatedAt"}
    ensures IdIs(r, d.id)
    ensures r["projectId"] == Null <==> d.projectId.None?
    ensures forall pid :: ProjectIdIs(r, pid) <==> d.projectId == Some(pid)
  {
    map["id" := Str(d.id), "title" := Str(d.title), "content" := Str(d.content),
        "projectId" := Nullable(d.projectId), "createdAt" := Str(d.createdAt), "updatedAt" := Str(d.updatedAt)]
  }

  function DocumentOf(r: Record): Option<Document> {
    var id := StrField(r, "id");
    var title := StrField(r, "title");
    var content := StrField(r, "content");
    var pid := if "projectId" in r then AsNullable(r["projectId"]) else None;
    var createdAt := StrField(r, "createdAt");
    var updatedAt := StrField(r, "updatedAt");
    if id.Some? && title.Some? && content.Some? && pid.Some? && createdAt.Some? && updatedAt.Some?
    then Some(Document(id.value, title.value, content.value, pid.value, createdAt.value, updatedAt.value))
    else None
  }

  /** A document read back from its record is the same document. */
  lemma DocumentRoundTrip(d: Document)
    ensures DocumentOf(DocumentRecord(d)) == Some(d)
  {
  }

  function SnippetRecord(s: Snippet): (r: Record)
    ensures r.Keys == {"id", "title", "language", "code", "projectId", "createdAt", "updatedAt"}
    ensures IdIs(r, s.id)
    ensures r["projectId"] == Null <==> s.projectId.None?
    ensures forall pid :: ProjectIdIs(r, pid) <==> s.projectId == Some(pid)
  {
    map["id" := Str(s.id), "title" := Str(s.title), "language" := Str(LanguageName(s.language)),
        "code" := Str(s.code), "projectId" := Nullable(s.projectId), "createdAt" := Str(s.createdAt),
        "updatedAt" := Str(s.updatedAt)]
  }

  function SnippetOf(r: Record): Option<Snippet> {
    var id := StrField(r, "id");
    var title := StrField(r, "title");
    var lang := StrField(r, "language");
    var language := if lang.Some? then ParseLanguage(lang.value) else None;
    var code := StrField(r, "code");
    var pid := if "projectId" in r then AsNullable(r["projectId"]) else None;
    var createdAt := StrField(r, "createdAt");
    var updatedAt := StrField(r, "updatedAt");
    if id.Some? && title.Some? && language.Some? && code.Some? && pid.Some? && createdAt.Some? && updatedAt.Some?
    then Some(Snippet(id.value, title.value, language.value, code.value, pid.value, createdAt.value, updatedAt.value))
    else None
  }

  /** A snippet read back from its record is the same snippet. */
  lemma SnippetRoundTrip(s: Snippet)
    ensures SnippetOf(SnippetRecord(s)) == Some(s)
  {
    LanguageNames(s.language, LanguageName(s.language));
  }

  function MediaRecord(m: MediaItem): (r: Record)
    ensures r.Keys == {"id", "title", "url", "type", "projectId", "createdAt"}
    ensures IdIs(r, m.id) && "updatedAt" !in r
    ensures r["projectId"] == Null <==> m.projectId.None?
    ensures forall pid :: ProjectIdIs(r, pid) <==> m.projectId == Some(pid)
  {
    map["id" := Str(m.id), "title" := Str(m.title), "url" := Str(m.url), "type" := Str(m.mediaType),
        "projectId" := Nullable(m.projectId), "createdAt" := Str(m.createdAt)]
  }

  function MediaOf(r: Record): Option<MediaItem> {
    var id := StrField(r, "id");
    var title := StrField(r, "title");
    var url := StrField(r, "url");
    var mediaType := StrField(r, "type");
    var pid := if "projectId" in r then AsNullable(r["projectId"]) else None;
    var createdAt := StrField(r, "createdAt");
    if id.Some? && title.Some? && url.Some? && mediaType.Some? && pid.Some? && createdAt.Some?
    then Some(MediaItem(id.value, title.value, url.value, mediaType.value, pid.value, createdAt.value))
    else None
  }

  /** A media item read back from its record is the same item. */
  lemma MediaRoundTrip(m: MediaItem)
    ensures MediaOf(MediaRecord(m)) == Some(m)
  {
  }
}
