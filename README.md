# Labyrinth, modelled in Dafny

Labyrinth is a personal workspace: projects, documents, code snippets, media
items and tasks, kept either in the browser's local storage or by a small
Express server that stores one JSON file per collection. This project models its
core in Dafny:

- the client collection store (`src/lib/store.ts`): one local-storage entry per
  collection, read and rewritten as a whole by every `getAll`, `getById`,
  `getByProject`, `create`, `update` and `delete`, including the cascade that
  unlinks documents, snippets and media when their project is deleted;
- the server's collection handlers (`server.js`): collection validation and the
  GET, POST, PUT and DELETE handlers over the collection files, including the
  project-delete cascade that also hard-deletes the project's tasks;
- the memoised API health probe (`src/lib/api.ts`);
- the logic of the pages: the projects, snippets and tasks lists and dialogs,
  the dashboard, the settings page's export, import and clear, the
  attach-context selection, the AI-models hook and the sidebar highlighting;
- the record shapes of `src/lib/types.ts` and how each is stored as a JSON record.

A record is a `map<string, Value>` over a small JSON value type, and the object
spread `{...a, ...b}` is the map union `a + b`. A storage cell (a local-storage
entry or a collection file) is what `JSON.parse` makes of its text: a JSON value
or a parse failure. Writing a collection and reading it back gives the same
records (`Json.ReadEncode`), and every store operation is proved against what a
later read returns.

Things outside the program are inputs. Clock readings are natural numbers,
rendered by `Clock.Stamp` and read back by `Clock.TimeOf`. A new id comes from
`Json.FreshId`, which stands for `crypto.randomUUID()` and is proved different
from every id already in the collection. HTTP outcomes (the health probe, the
model listing) are datatypes passed in. The answer to the clear dialog's
`confirm` is a boolean. The imported backup is what `JSON.parse` made of the
file: a value, or `None` when it threw.

The module layout follows the program. `Json`, `Tables`, `Seqs`, `Text`,
`Sorting`, `Clock` and `Wrappers` are the shared building blocks. `Store`,
`Server` and `Api` model the three library files. `Types` models the record
types. `Projects`, `Snippets`, `Tasks`, `Dashboard`, `Settings`, `Attach`,
`AiModels` and `Sidebar` model one page, component or hook each.

Where the code and its documentation differ, the model follows the code. Three
cases matter:

- The client's media store has no `getById` and no `update`, and the project
  store has no `getByProject`. The model's `Store.GetById`, `Store.Update` and
  `Store.GetByProject` therefore exclude those kinds.
- Deleting a project on the client unlinks its documents, snippets and media but
  touches no tasks: the client store has no task collection. The server
  hard-deletes the project's tasks.
- POST on the server stamps `createdAt` and `updatedAt` from a single clock
  reading. The client's `create` reads the clock twice.

## Model

| member | source | states |
|---|---|---|
| Json.Read | src/lib/store.ts:10-17 | a missing entry, and one that does not parse, reads as no records; a non-empty read is exactly the array the entry holds |
| Json.ReadEncode | src/lib/store.ts:19-21 | a collection written with `set` reads back as the same records, and no other entry's read changes |
| Json.FreshId | src/lib/store.ts:23-25 | the generated id is carried by no record already in the collection |
| Clock.Stamp | src/lib/store.ts:33 | a rendered time (`toISOString`) is non-empty text of digits |
| Clock.TimeOf | src/pages/Dashboard.tsx:25 | `getTime` gives the not-a-time value -1 exactly for an empty string or one holding a non-digit, and otherwise a time |
| Clock.TimeOfStamp | src/pages/Dashboard.tsx:25 | reading back a rendered time gives that time, so the dashboard orders by the stored clock readings |
| Clock.StampInjective | src/lib/store.ts:33 | two different times never render to the same stamp |
| Store.KeyInjective | src/lib/store.ts:3-8 | the four storage keys are pairwise distinct |
| Store.LocalStorage.SetItem | src/lib/store.ts:20 | `setItem` replaces exactly that key's entry |
| Store.LocalStorage.RemoveItem | src/pages/SettingsPage.tsx:49-52 | `removeItem` removes exactly that key |
| Store.Set | src/lib/store.ts:19-21 | the whole array is serialised into the collection's entry and nothing else changes |
| Store.Get | src/lib/store.ts:10-17 | `get` of a missing or unparseable entry is `[]`, and a non-empty result is exactly what the entry holds |
| Store.GetAll | src/lib/store.ts:29 | `getAll` of a collection whose entry is missing is `[]`, and a non-empty result is exactly what its entry holds |
| Store.GetById | src/lib/store.ts:30 | `find` gives nothing exactly when no record has the id, and otherwise the first stored record with that id |
| Store.GetByProject | src/lib/store.ts:59 | `getByProject` lists exactly the collection's records of that project, in stored order and as often as stored |
| Tables.FindIndex | src/lib/store.ts:40 | `findIndex` is -1 exactly when no record has the id, and otherwise the first position holding one |
| Tables.FindById | src/lib/store.ts:58 | `find` returns the first record with the id, or nothing exactly when none has it |
| Tables.ByProjectSpec | src/lib/store.ts:59 | `getByProject` lists exactly the project's records in stored order and as often as stored, and the tasks filter of the server cascade exactly the others, likewise; the two sizes sum to the collection's |
| Tables.Stamped | src/lib/store.ts:33 | a created record keeps every data field except `id`, `createdAt` and `updatedAt`, carries the given id and stamps, and has no other keys |
| Store.Create | src/lib/store.ts:31-37 | `create` appends the stamped record with a fresh id to the collection's entry and returns it |
| Store.CreateAppends | src/lib/store.ts:60-66 | after a create the collection reads as the old one plus the new record; the id is unused before; a media item gets no `updatedAt` of its own (line 111); other collections read unchanged |
| Store.Merge | src/lib/store.ts:42 | the merged record takes the patch's fields over the old ones, keeps the omitted ones, and always gets the current `updatedAt` |
| Store.MergeAgreeing | src/lib/store.ts:71 | a patch that repeats a record's own fields changes only its `updatedAt` |
| Store.Update | src/lib/store.ts:38-45 | an unknown id returns nothing and writes nothing; otherwise the first record with the id is merged in place, the array written back and the merged record returned |
| Store.UpdateInPlace | src/lib/store.ts:92-99 | after an update only the first record with the id has changed; the collection keeps its length and every other position |
| Store.Delete | src/lib/store.ts:46-52 | delete rewrites the collection without the id; for projects it also rewrites documents, snippets and media with the project unlinked |
| Store.DeleteRemoves | src/lib/store.ts:75-77 | deleting a document, snippet or media item keeps exactly the records without the id, in order and as often as before, and leaves every other entry alone |
| Store.ProjectDeletedReads | src/lib/store.ts:47-51 | after a project delete each of the four collections reads as its filter or its unlink |
| Store.ProjectDeleteCascade | src/lib/store.ts:49-51 | after a project delete no project has the id, and no document, snippet or media item refers to it; none of them is removed, others are unchanged, and every other key is untouched |
| Tables.WithoutIdSpec | src/lib/store.ts:47 | removal by id drops exactly the records with the id, keeps the rest in order and as often as they occurred, and shortens the list iff some record had the id |
| Tables.Unlink | src/lib/store.ts:49 | `map` keeps the length; afterwards no record points at the project; an unlinked record differs only in having a null `projectId`; all other records are unchanged |
| Server.DataDir.ReadCollection | server.js:39-46 | a missing collection file, and one that does not parse, reads as `[]` |
| Server.DataDir.WriteCollection | server.js:48-51 | `writeCollection` replaces exactly that collection's file |
| Server.ValidateCollection | server.js:53-58 | a collection name is accepted exactly when it is one of `projects`, `documents`, `snippets`, `media` and `tasks` |
| Server.HandleGet | server.js:66-68 | an invalid name answers 400 with the allow-list message; a valid one answers 200 with the whole collection file's records serialised, and that body reads back as the collection |
| Server.NewItemSpec | server.js:74-79 | a POSTed item has the generated id even when the body gave one, `createdAt` now, and `updatedAt` now except in `media`; every other body field is kept |
| Server.HandlePost | server.js:71-83 | an invalid name answers 400 and writes nothing; otherwise the new item is appended, written, and returned with status 201 |
| Server.PutItem | server.js:90 | the updated item takes the body over the old fields, keeps the omitted ones, has the path's id even if the body gave another, and has `updatedAt` now |
| Server.HandlePut | server.js:86-93 | an invalid name gives 400, an unknown id 404, and neither writes; otherwise the first item with the id is replaced in place and returned with 200 |
| Server.PutInPlace | server.js:87-91 | after a PUT the collection keeps its length and every position but the updated one, and other files read unchanged |
| Server.HandleDelete | server.js:96-118 | an invalid name gives 400; an id no item has gives 404 with no write; otherwise the collection is rewritten without the id, followed for a project by the cascade over `documents`, `snippets`, `media` and `tasks` |
| Server.ProjectDeletedReads | server.js:105-115 | after the cascade each of the five files reads as its filter or its unlink |
| Server.ProjectDeleteCascade | server.js:105-115 | after deleting a project, no project has the id; documents, snippets and media referring to it are unlinked and none removed; exactly that project's tasks are removed and the rest kept in order and as often as before |
| Server.OtherDeleteIsLocal | server.js:100-102 | deleting from any other collection rewrites that file only |
| Api.HealthMemo.CheckApiHealth | src/lib/api.ts:14-28 | the check leaves the memo as `Checked` says and answers what it leaves; afterwards `isApiAvailable()` is known and equals the answer |
| Api.Checked | src/lib/api.ts:15-26 | after a check the availability is always known |
| Api.HealthMemo.IsApiAvailable | src/lib/api.ts:35-37 | once `isApiAvailable()` is set, every further check answers it and keeps the memo; while it is `null`, the next check answers whether its probe gave a parsed OK response |
| Api.HealthMemo.GetHealthData | src/lib/api.ts:39-41 | `getHealthData()` is the health data the next check answers whenever a result is cached or its probe gives no parsed body |
| Api.CachedIgnoresProbe | src/lib/api.ts:15 | once cached, the result is returned and kept whatever the probe would answer |
| Api.ProbeRecorded | src/lib/api.ts:16-26 | an unset memo records a parsed OK probe as available with its body, and anything else as unavailable with the health data kept |
| Api.CheckIdempotent | src/lib/api.ts:11-28 | checking twice changes nothing the first check did not and answers the same |
| Api.HealthMemo.ResetApiCheck | src/lib/api.ts:30-33 | a reset clears both memo fields |
| Api.ResetReprobes | src/lib/api.ts:30-33 | after a reset the next answer is the new probe's |
| Types.ParseLanguage | src/lib/types.ts:1 | a stored language string is valid exactly when it is one of `YAML`, `BASH` and `PYTHON` |
| Types.LanguageNames | src/lib/types.ts:1 | a string parses to a language iff it is that language's name |
| Types.ProjectRecord | src/lib/types.ts:3-10 | a project is stored with exactly its six fields and no `projectId` |
| Types.DocumentRecord | src/lib/types.ts:12-19 | a document is stored with its six fields; its `projectId` is null iff it has none, and equals a project's id iff it belongs to that project |
| Types.SnippetRecord | src/lib/types.ts:21-29 | the same for a snippet's seven fields |
| Types.MediaRecord | src/lib/types.ts:31-38 | a media item is stored with its six fields, the kind under the key `type`, and no `updatedAt` |
| Types.ProjectRoundTrip | src/lib/types.ts:3-10 | a project read back from its record is the same project |
| Types.DocumentRoundTrip | src/lib/types.ts:12-19 | a document read back from its record is the same document |
| Types.SnippetRoundTrip | src/lib/types.ts:21-29 | a snippet read back from its record is the same snippet |
| Types.MediaRoundTrip | src/lib/types.ts:31-38 | a media item read back from its record is the same item |
| Text.SearchHitsSpec | src/pages/ProjectsPage.tsx:46-49 | an empty search lists everything; otherwise an item is listed iff the lower-cased search text occurs in one of the two lower-cased fields; the case of the search text does not matter |
| Text.TrimEmpty | src/pages/ProjectsPage.tsx:30 | the guard `!s.trim()` holds exactly for a string of white space only |
| Text.RemoveFirst | src/hooks/use-ai-models.ts:57 | `replace('models/', '')` removes the first occurrence and leaves a string without one unchanged |
| Text.IndexOf | src/hooks/use-ai-models.ts:57 | the position `replace` cuts at is the first occurrence of the pattern, or -1 iff there is none |
| Sorting.SortSpec | src/hooks/use-ai-models.ts:45 | the sort result is ordered by the comparison and is a permutation of its input |
| Projects.FilterProjectsSpec | src/pages/ProjectsPage.tsx:46-49 | a project is listed iff the search hits its name or description, as often as stored; an empty search lists all; the stored order is kept |
| Projects.OpenCreate | src/pages/ProjectsPage.tsx:26 | a new project's colour starts as the first palette colour |
| Projects.OpenEdit | src/pages/ProjectsPage.tsx:27 | the edit dialog opens on the project's stored fields: each field it would send equals the stored record's |
| Projects.ProjectPayload | src/pages/ProjectsPage.tsx:32-34 | a save sends exactly name, description and colour |
| Projects.ProjectSave | src/pages/ProjectsPage.tsx:29-38 | nothing is sent iff the name is blank; otherwise an update of the edited project, or a create |
| Projects.MergePayload | src/pages/ProjectsPage.tsx:32 | merging the dialog's payload into a stored project gives that project with the form's name, description and colour and a fresh `updatedAt` |
| Projects.EditSave | src/pages/ProjectsPage.tsx:29-32 | an edit save sends an update of that project whose merge keeps its id and `createdAt` and takes the form's fields |
| Projects.UnchangedEditSave | src/pages/ProjectsPage.tsx:27-32 | saving an unchanged edit refreshes only the project's `updatedAt` |
| Snippets.FilterSnippetsSpec | src/pages/SnippetsPage.tsx:61-66 | a snippet is listed iff it passes the project selector (one without a project passes only `all`), the language selector and the search, as often as stored; the stored order is kept; with no filters everything is listed |
| Snippets.OpenCreateSave | src/pages/SnippetsPage.tsx:40-47 | saving the create dialog with only a title typed sends nothing iff the title is blank, and otherwise creates a snippet with that title, empty code, language `BASH` and a null `projectId` |
| Snippets.OpenEdit | src/pages/SnippetsPage.tsx:42 | the edit dialog opens on the snippet's stored fields: each field it would send equals the stored record's, except that a stored project id `''` or `none` would be sent as null |
| Snippets.SaveProjectId | src/pages/SnippetsPage.tsx:46 | the selector value `none` saves as null, any other value as itself |
| Snippets.ProjectIdRoundTrip | src/pages/SnippetsPage.tsx:42-46 | opening and saving unchanged keeps the `projectId` iff it is null or an id other than `''` and `none`; those two become null |
| Snippets.SnippetPayload | src/pages/SnippetsPage.tsx:47-48 | a save sends exactly title, code, language and the mapped `projectId` |
| Snippets.SnippetSave | src/pages/SnippetsPage.tsx:44-51 | nothing is sent iff the title is blank; otherwise an update of the edited snippet, or a create |
| Snippets.UnchangedEditSave | src/pages/SnippetsPage.tsx:42-47 | saving an unchanged edit of a snippet with an ordinary project id changes only its `updatedAt` |
| Tasks.NextStatus | src/pages/TasksPage.tsx:63 | a status click always changes the status |
| Tasks.CyclePeriod | src/pages/TasksPage.tsx:62-66 | three clicks, or any multiple of three, bring a task back to its status; one or two more never do |
| Tasks.CycleCall | src/pages/TasksPage.tsx:64 | a status click sends an update of that task holding only its next status |
| Tasks.FilterTasksSpec | src/pages/TasksPage.tsx:68 | the `all` filter shows every task; any other shows exactly that project's tasks in order and as often as stored |
| Tasks.Group | src/pages/TasksPage.tsx:69-70 | the one-pass grouping puts into each column exactly the shown tasks of its status, in order |
| Tasks.GroupingPartition | src/pages/TasksPage.tsx:69-70 | the columns partition the shown tasks: membership by status, order kept, sizes and multisets summing to the shown list |
| Tasks.TaskPayload | src/pages/TasksPage.tsx:54-55 | a save sends exactly title, description, status, priority and project id |
| Tasks.TaskSave | src/pages/TasksPage.tsx:52-58 | nothing is sent iff the title is blank or no project is chosen; otherwise an update of the edited task, or a create |
| Tasks.OpenEdit | src/pages/TasksPage.tsx:46-50 | the edit dialog opens on the task's own title, description, status, priority and project, and can be saved iff the title is not blank and the project id not empty |
| Tasks.UnchangedEditSave | src/pages/TasksPage.tsx:46-54 | saving an unchanged edit sends the task's own fields, and sends nothing iff its title is blank or its project id empty |
| Tasks.OpenCreateGuard | src/pages/TasksPage.tsx:41-45 | with no projects the create dialog can never save; with projects, a non-blank title creates a task of the first project |
| Attach.IsSelectedSpec | src/components/AttachContextDialog.tsx:29-30 | `isSelected` holds iff some entry has that type and id |
| Attach.ToggleNegates | src/components/AttachContextDialog.tsx:32-38 | a toggle flips whether the pair is selected |
| Attach.ToggleSpec | src/components/AttachContextDialog.tsx:32-38 | toggling an unselected pair appends exactly its entry; toggling a selected one removes all its entries, keeps the rest in order and shortens the list |
| Attach.ToggleTwice | src/components/AttachContextDialog.tsx:32-38 | toggling an unselected pair twice restores the selection |
| Attach.ToggleKeepsOthers | src/components/AttachContextDialog.tsx:34-36 | a toggle keeps the number of entries for every other pair |
| Dashboard.RecentProjectsSpec | src/pages/Dashboard.tsx:25 | the list holds min(5, n) projects, newest first, all drawn from the projects; every left-out project is no newer than any listed one; with at most five it holds them all |
| Dashboard.DocumentCountSpec | src/pages/Dashboard.tsx:69 | a project's count is the number of documents assigned to it |
| Dashboard.StatsAfterCreate | src/pages/Dashboard.tsx:18-23 | each card counts its stored collection, and a create raises only its own card, by one |
| Dashboard.Loading | src/pages/Dashboard.tsx:16 | the page is loading iff some flag is `true` |
| Settings.ExportPayload | src/pages/SettingsPage.tsx:7-14 | the backup holds the four collections as read, the export time, and nothing else (no tasks) |
| Settings.Import | src/pages/SettingsPage.tsx:32-40 | importing writes the entries `Imported` says and nothing else |
| Settings.ImportSpec | src/pages/SettingsPage.tsx:33-38 | an entry is overwritten iff the backup has a truthy field of that name, and then with it; no other key changes; a null backup changes nothing |
| Settings.ImportParseFailure | src/pages/SettingsPage.tsx:40 | a file that does not parse changes nothing |
| Settings.ExportImport | src/pages/SettingsPage.tsx:7-38 | importing an export gives every collection back as it was read |
| Settings.Clear | src/pages/SettingsPage.tsx:47-55 | a confirmed clear removes the four collection entries; a declined one changes nothing |
| Settings.ClearedSpec | src/pages/SettingsPage.tsx:49-52 | after a clear every collection reads as empty and every other key keeps its entry |
| AiModels.FallbackModels | src/hooks/use-ai-models.ts:11-15 | every provider has a non-empty fallback list |
| AiModels.ModelsHook.constructor | src/hooks/use-ai-models.ts:18-20 | the hook starts with the provider's fallback list, not loading, no error |
| AiModels.OllamaBase | src/hooks/use-ai-models.ts:27 | the Ollama base is the configured URL when it is non-empty, and the default otherwise |
| AiModels.RequestUrl | src/hooks/use-ai-models.ts:26-53 | no request is made iff the provider is OpenAI or Gemini and its key is missing or empty |
| AiModels.OrFallback | src/hooks/use-ai-models.ts:32 | an empty listing is replaced by the fallback list, and a non-empty one is kept |
| AiModels.StripModels | src/hooks/use-ai-models.ts:57 | each Gemini name has its first `models/` removed |
| AiModels.StripModelsMembers | src/hooks/use-ai-models.ts:57 | the stripped names are exactly the listed names, each with its first `models/` removed |
| AiModels.SortedSelection | src/hooks/use-ai-models.ts:42-46 | the shown list is sorted and holds exactly the qualifying ids as often as listed, or is the fallback when none qualifies |
| AiModels.OpenAIListed | src/hooks/use-ai-models.ts:42-46 | the OpenAI list is the `gpt-` ids sorted, or the fallback when there are none |
| AiModels.GeminiListed | src/hooks/use-ai-models.ts:56-60 | the Gemini list is the stripped names that start with `gemini-`, sorted, or the fallback when there are none |
| AiModels.Fetched | src/hooks/use-ai-models.ts:22-68 | without a request the fallback list and no error; a listing gives `ListedModels` of it and no error; a non-OK reply gives the fallback and the provider's message; a thrown error gives the fallback and its message; there is an error iff a request was made and did not list |
| AiModels.ModelsHook.FetchModels | src/hooks/use-ai-models.ts:22-68 | a fetch requests the URL `RequestUrl` gives, leaves the models and error `Fetched` gives, and ends not loading |
| Sidebar.TargetsDoNotNest | src/components/AppSidebar.tsx:5-13 | no navigation target except the root is a prefix of another |
| Sidebar.AtMostOneActive | src/components/AppSidebar.tsx:29 | for any path at most one item is highlighted |
| Sidebar.DetailActivatesProjects | src/components/AppSidebar.tsx:29 | a project's detail page highlights the Projects item and only that one |

## Left out

- JSON values stored in a cell that are not arrays of objects read as `[]`. The source would hand such a value to its callers unchanged.
- `Json.Value`: numbers are integers. A fractional number, and the truthiness of one such as 0.5 in `Settings.ImportField`, are not modelled.
- `toISOString` is modelled by `Clock.Stamp`, which writes decimal digits. Only its round trip with `new Date(s).getTime()` is modelled, not the ISO-8601 format.
- `Clock.TimeOf` gives -1 for a string that is not a time, where JavaScript gives `NaN`. A sort comparator that returns `NaN` is therefore not modelled.
- The copy `[...projects]` before the sort is not modelled as such: the model sorts a sequence value, so the page's own list cannot be reordered.
- Writes never fail in the model. `Store.LocalStorage.SetItem` (src/lib/store.ts:20) and `Server.DataDir.WriteCollection` (server.js:48-51) always succeed, and so every write of `Store.Set`, `Store.Create`, `Store.Update`, `Store.Delete`, `Settings.Import`, `Server.HandlePost`, `Server.HandlePut` and `Server.HandleDelete` does. A `setItem` that throws (a full quota) and a `writeFileSync` that throws are not modelled. The results of such a throw are not modelled either: an import left partial by the `catch` of src/pages/SettingsPage.tsx:33-40, a project delete cascade stopped after its first write (server.js:102-116, src/lib/store.ts:47-51), and the server error reply. `Store.ProjectDeleteCascade`, `Server.ProjectDeleteCascade` and `Settings.ImportSpec` state what holds when every write succeeds.
- `Dashboard.RecentProjectsSpec`: does not state the order among projects with equal times, which the stable `sort` keeps.
- `Text.LowerChar` lower-cases ASCII letters only. Full Unicode case mapping is out of reach without tables.
- The default `sort` order is by Unicode scalar value here. JavaScript compares UTF-16 code units, and the two differ for characters outside the Basic Multilingual Plane.
- `crypto.randomUUID()` is the deterministic fresh-id oracle `Json.FreshId`. Randomness is outside the model.
- Asynchrony is not modelled: the `await`s, `useEffect`, `useCallback` and React state scheduling. Each handler is one atomic step.
- Concurrent requests to the server are not modelled. The server's read-modify-write of a file is one atomic step.
- Modal and network I/O is outside the model. This covers `window.location.reload`, `alert`, the file picker, `FileReader`, the blob download, the clipboard and `navigate`.
- The backup file name is not modelled.
- The server's start-up is not modelled: directory creation, the initial empty files, CORS, the body-size limit, static file serving and `listen`.
- The `/api/health` route (server.js:61-63) is not modelled. Only the client's memo of its answer is.
- The fetch wrappers `apiGetAll`, `apiCreate`, `apiUpdate` and `apiDelete` (src/lib/api.ts:44-73) are not modelled. Each is one HTTP call to a server handler that `Server` models, plus a throw on a non-OK status.
- The tasks page reads and writes through a task store that `src/lib/store.ts` does not define. The tasks are therefore a parameter, and the page's writes are modelled as `Store.Call` values, not as store operations.
- The pages also call the project store asynchronously (`.then`), unlike the synchronous store module. The model gives the pages the records directly.
- `Dashboard.Loading` takes possibly-undefined flags. `src/hooks/use-store.ts` returns no `loading`, so every flag may be `undefined`.
- `grouped[t.status]?.push(t)` skips tasks whose status is none of the three. A `Task` of the model always has one of them, so that case cannot arise.
- Request bodies that are not JSON objects (arrays, primitives) are not modelled. A body is a record.
- The JSON shape of the model listing reply (`data.models || []`, `m.name`, `m.id`) is not modelled. The reply is given as the list of names it yields, `Reply.Listed(names)`.
- `AiModels.ModelsHook.FetchModels` takes the reply as a parameter even when no request is made. In that case the reply is ignored.
- `src/pages/ProjectDetail.tsx` and `src/pages/DocumentsPage.tsx` repeat the store calls and filters modelled here. They are not modelled separately.
