# Legal-Solutions core, modelled in Dafny

A model of the client-side pages and server routes of a legal-practice application:

- the deadline (término) page and its route, with their day counts, urgency tiers,
  filters, ordering and counters;
- the hearing calendar (agenda) and the route for hearings of the coming week;
- the notes (tareas) editor;
- the search filters of the case and client lists;
- the writing (escritos) section and its local files;
- the browser-local store: four object stores, with export and import;
- the document upload and document list of a case, and the server's document route;
- the assistant's chat route.

Each source file is one module. The helper modules are:

- `Wrappers`: `Option`, and JavaScript truthiness for optional strings;
- `Seqs`: `Array.filter`, a stable sort by an integer key, and `take`;
- `Text`: prefix and substring tests, Latin-1 case mapping, whitespace trimming, decimal
  rendering, `padStart(2, '0')`, and `split(sep).pop()` / `split(sep)[0]`;
- `Calendar`: instants in milliseconds of local wall-clock time, and the proleptic
  Gregorian day arithmetic of ECMAScript `MakeDay`;
- `Base64`: the RFC 4648 section 4 alphabet with padding;
- `FileSize`: the unit choice shared by `formatSize` and `formatFileSize`.

How the model is built:

- Pages and components are classes. Their fields are the React state, and each handler
  is a method that states the new state.
- Server routes are functions from the table and the request to the table afterwards and
  the response.
- Database queries (`findMany`, `count`) are `Filter`, then `SortBy`, then `Take`, over
  the table as a sequence.
- IndexedDB stores are maps from id to record.
- `TerminosApi.UpdateEstado` and `TerminosApi.Delete` model the PUT and DELETE handlers of
  `src/app/api/terminos/[id]/route.ts` (lines 33-67), for the requests the término page sends.
- Anything a handler receives from outside is a parameter: the current instant, a
  generated id, a prompt's answer, a model reply, or whether a write failed.
- Reloads are modelled as written after the request they follow. The término handlers
  (`TerminosView.ClickCheckbox`, `TerminosView.DeleteTermino`) call `loadTerminos()` without
  awaiting it, and their methods include that reload as a sequential last step.
  `DocumentListView.HandleDelete` awaits its reload and includes it likewise.
  `NotasEditor.SaveNota` also calls `loadNotas()` without awaiting it, but its method leaves
  the reload to the next `LoadNotas` call. `AgendaView.NextMonth` and `AgendaView.PrevMonth`
  leave the effect's refetch to the next `LoadHearings` call. So `notas == old(notas)` in
  `SaveNota` describes the state before the reload, not a list that is never refreshed.

## Model

| member | source | states |
|---|---|---|
| TerminosPage.DiasRestantes | src/app/terminos/page.tsx:41-48 | the days left is the due date's calendar day minus today's, both taken at midnight |
| TerminosPage.DiasRestantesByCalendarDay | src/app/terminos/page.tsx:41-48 | the count is 0 at every hour of today, 1 at every hour of tomorrow, and negative for any instant before today's midnight |
| TerminosPage.UrgenciaColor | src/app/terminos/page.tsx:50-56 | 'cumplido' is always green; otherwise overdue or at most 1 day is red, 2 to 3 days is amber, and later is neutral |
| TerminosPage.EtiquetaTono | src/app/terminos/page.tsx:193 | the label is red exactly when the término is overdue or has at most 1 day left, and amber exactly when it has 2 or 3 days left; the colour ignores 'cumplido' |
| TerminosPage.CardFollowsTier | src/app/terminos/page.tsx:168-194 | `Etiqueta`, `getUrgenciaColor` and the badge of one card: for a pending or fulfilled término, the card colour, the label and the VENCIDO badge are those of its tier: fulfilled, overdue, critical, upcoming or normal |
| TerminosPage.OtherEstadoLabel | src/app/terminos/page.tsx:170-194 | `Etiqueta` outside the two known states: a past término in some other state gets no VENCIDO badge and reads 'Vence en -n días' |
| TerminosPage.ViewsPartition | src/app/terminos/page.tsx:90-99 | `Filtered`, the filter of each view: a pending or fulfilled término is in exactly one of the 'pendiente', 'vencido' and 'cumplido' views, and always in 'todos'; a fulfilled one is never 'vencido' |
| TerminosPage.ViewSizes | src/app/terminos/page.tsx:90-99 | the three view sizes add up to the number of pending and fulfilled términos, and 'todos' shows everything |
| TerminosPage.SortedViewSpec | src/app/terminos/page.tsx:101 | `Filtered` then the sort: the shown list is a permutation of the filtered list, in non-decreasing days left, and términos with equal days keep their order |
| TerminosPage.EarlierTodayDisagreement | src/app/terminos/page.tsx:90-99 | a pending término due earlier today is overdue for the server's counter but not in the page's 'vencido' view |
| TerminosPage.Submit | src/app/terminos/page.tsx:233-241 | the form is posted unchanged exactly when title, case and due date are filled in; otherwise the first missing one's alert is shown |
| TerminosPage.DefaultFormCreates | src/app/terminos/page.tsx:229-239 | a form with its defaults creates a pending 'procesal' término with a 3-day alert and the reminder on, keeping case, title and date; a blank description or blank notes are stored as null |
| TerminosPage.MarcarCumplidoOneWay | src/app/terminos/page.tsx:75-82 | marking fulfilled changes no other row, keeps fulfilled rows fulfilled, is idempotent, and never raises the pending count |
| TerminosPage.TerminosView.constructor | src/app/terminos/page.tsx:59-62 | the page opens empty, loading, with zero counters and the 'pendiente' filter |
| TerminosPage.TerminosView.LoadTerminos | src/app/terminos/page.tsx:67-73 | the list and the counters become the route's answer to `?limit=100` over the stored rows; the filter is kept |
| TerminosPage.TerminosView.SetFilter | src/app/terminos/page.tsx:149 | only the filter changes |
| TerminosPage.TerminosView.ClickCheckbox | src/app/terminos/page.tsx:175-176 | on a fulfilled card nothing happens; otherwise the row is set to 'cumplido' in the store and the page reloads |
| TerminosPage.TerminosView.DeleteTermino | src/app/terminos/page.tsx:84-88 | a confirmed delete removes the row and reloads; without confirmation nothing changes |
| TerminosApi.ListRowsSpec | src/app/api/terminos/route.ts:10-38 | `ListRows`, the `findMany` of the GET: the listing holds the smaller of the limit (50 by default) and the number of matching rows, all matching the `where` object, in ascending due order; no matching row left out is due before a listed one, and no row is listed more often than the selection holds it |
| TerminosApi.ProximosOverridesEstado | src/app/api/terminos/route.ts:16-22 | `BuildWhere`, the `where` object: with `proximos=n` every listed row is pending and due within n days of now, and the `estado` parameter does not change the list |
| TerminosApi.EstadoFilter | src/app/api/terminos/route.ts:12-13 | `BuildWhere` and the filter it drives: a non-empty estado keeps exactly the rows in that state; an absent or empty one keeps all rows |
| TerminosApi.StatsChain | src/app/api/terminos/route.ts:45-61 | `ComputeStats`, the three counts over all rows: overdue counts at most as many as due within three days, which counts at most as many as pending |
| TerminosApi.OrNull | src/app/api/terminos/route.ts:80-86 | a missing or empty field becomes null; any other value is kept as given |
| TerminosApi.Create | src/app/api/terminos/route.ts:76-88 | the new row is pending; it takes the body's tipo or 'procesal', its diasAlerta or 3 when that is missing or 0, and the reminder unless it is false; an empty description or empty notes become null |
| TerminosApi.UpdateEstado | src/app/terminos/page.tsx:75-81 | the PUT of `{ estado }` to one término: the row with that id takes the new estado, and every other row and field is unchanged |
| TerminosApi.Delete | src/app/terminos/page.tsx:86 | the DELETE of one término: exactly the rows with a different id remain, each as often as before and in the same order |
| Agenda.DayZeroIsLastOfMonth | src/app/agenda/page.tsx:54 | the only valid date that day 0 of the next month falls on is the last day of this month, so `getDate()` gives the month's length |
| Agenda.TwoDigits | src/app/agenda/page.tsx:63 | a padded month or day is two decimal digits whose value is the number |
| Agenda.DayKeyIsIso | src/app/agenda/page.tsx:63 | `DayKey`, the `dateStr` of a day: the day key is YYYY-MM-DD with a 4-digit year and the month and day as two digits |
| Agenda.DayKeyInjective | src/app/agenda/page.tsx:127 | in four-digit years, different dates give different day keys |
| Agenda.HearingsForDaySpec | src/app/agenda/page.tsx:62-65 | `HearingsForDay`, the `getHearingsForDay` filter: exactly the hearings whose date text starts with the day's key, in loading order; in a four-digit year no hearing is listed under two different days |
| Agenda.SelectedHearings | src/app/agenda/page.tsx:76 | with no selected date, or an empty one, the list is empty; otherwise it holds exactly the hearings whose date starts with it |
| Agenda.NextMonthOf | src/app/agenda/page.tsx:68 | the month after, rolling December into January of the next year |
| Agenda.PrevMonthOf | src/app/agenda/page.tsx:67 | the month before, rolling January into December of the previous year |
| Agenda.MonthSteppingInverse | src/app/agenda/page.tsx:67-68 | stepping forward then back, or back then forward, returns to the same month |
| Agenda.IsTodayIffSameDay | src/app/agenda/page.tsx:70-74 | a day is marked today exactly when year, month and day are today's |
| Agenda.SubmitHearing | src/app/agenda/page.tsx:222-231 | the form is posted unchanged exactly when it has a case and a date; otherwise the alert 'Caso y fecha requeridos' is shown |
| Agenda.AgendaView.constructor | src/app/agenda/page.tsx:30-33 | the calendar opens on today's month, loading, with no hearings and no selection |
| Agenda.AgendaView.GetDaysInMonth | src/app/agenda/page.tsx:50-60 | the grid has one blank per weekday before the 1st, then the days 1 to the month's length |
| Agenda.AgendaView.LoadHearings | src/app/agenda/page.tsx:38-48 | the hearings become those fetched for the month and loading ends; the month and the selection are kept |
| Agenda.AgendaView.NextMonth | src/app/agenda/page.tsx:68 | the shown month moves forward by one; the hearings and the selection are kept |
| Agenda.AgendaView.PrevMonth | src/app/agenda/page.tsx:67 | the shown month moves back by one; the hearings and the selection are kept |
| Agenda.AgendaView.SelectDay | src/app/agenda/page.tsx:127-132 | the selected date becomes the day's key, so the panel lists exactly that day's hearings |
| UpcomingHearings.WindowInDays | src/app/api/hearings/upcoming/route.ts:7-34 | a scheduled hearing is in the week window exactly when it falls on today or one of the next six calendar days, or exactly at midnight seven days ahead; it counts as today exactly when it falls on today's calendar day |
| UpcomingHearings.GetSpec | src/app/api/hearings/upcoming/route.ts:13-36 | `Get`, the route's answer: the list holds every scheduled hearing of the window as often as stored, and nothing else, in ascending date order; today's count is at most the list's length |
| Notas.FormatDate | src/app/tareas/page.tsx:84-94 | the label is red exactly when it reads 'Hace n día(s)' and grey exactly when it shows the date; n is the number of days the rounded-up difference lies in the past |
| Notas.FormatDateWindows | src/app/tareas/page.tsx:85-93 | `ReminderDays`, the rounded-up day difference, read through `FormatDate`: 'Hoy' exactly when the reminder lies in the 24 hours up to now, 'Mañana' exactly in the 24 hours after, 'Hace' a day or more back, and the date beyond a day ahead |
| Notas.MakePayload | src/app/tareas/page.tsx:36-41 | the title is the first 100 characters, the description is the whole text, the due date is the reminder or null, and the priority is 'media' |
| Notas.SaveRequest | src/app/tareas/page.tsx:33-55 | blank content sends nothing; otherwise a PUT to the edited note or a POST of a new one |
| Notas.EditReminder | src/app/tareas/page.tsx:73 | the reminder is the date part of the due date before any 'T', or empty |
| Notas.EditThenSave | src/app/tareas/page.tsx:33-75 | opening a note with a description and saving it unchanged sends a PUT to that note, keeping the description, a title that opens it, and the date part of the due date |
| Notas.NotasEditor.constructor | src/app/tareas/page.tsx:17-22 | the editor opens empty and closed, with no note selected |
| Notas.NotasEditor.LoadNotas | src/app/tareas/page.tsx:26-31 | the notes become those fetched and loading ends; the editor is kept |
| Notas.NotasEditor.SaveNota | src/app/tareas/page.tsx:33-62 | the request sent is the one for the editor's content and reminder; blank content changes nothing, otherwise the editor is cleared and closed |
| Notas.NotasEditor.EditNota | src/app/tareas/page.tsx:70-75 | the editor opens on the note, with its description (or its title) and the date part of its due date |
| Notas.NotasEditor.NewNota | src/app/tareas/page.tsx:77-82 | the editor opens empty with no note selected |
| Casos.FilteredCasesSpec | src/app/casos/page.tsx:48-56 | `FilteredCases`, the list's filter: a case is kept exactly when it matches the search, the status and the type, in list order; with nothing entered every case is kept |
| Casos.FiltersNarrow | src/app/casos/page.tsx:53-55 | setting a status or type filter never adds cases |
| Casos.CaseNumberFindsCase | src/app/casos/page.tsx:52 | a case whose number contains the search, both lower-cased, matches the search whatever its matter and client |
| Casos.TypeLabel | src/app/casos/page.tsx:18-22 | a known type shows its label from the type table; any other type shows as it is |
| Casos.LabelShowsRawType | src/app/casos/page.tsx:131 | the raw type is shown exactly when it is not a known type |
| Casos.StatusColorOf | src/app/casos/page.tsx:133-138 | green exactly for 'activo', yellow for 'suspendido', gray for 'cerrado', and stone for any other status |
| Clientes.FilteredClientsSpec | src/app/clientes/page.tsx:30-35 | `FilteredClients`, the list's filter: a client is kept exactly when the search is empty or occurs in the name or e-mail (both lower-cased) or verbatim in the phone, in list order; an empty search keeps every client |
| Clientes.CaseBadge | src/app/clientes/page.tsx:98-101 | a badge exactly when the case count is positive: the count, then 'caso' for one and 'casos' for more |
| Escritos.ExtensionUnique | src/components/EscritosSection.tsx:92 | the extension pattern matches at most one position |
| Escritos.PlainTail | src/components/EscritosSection.tsx:92 | the longest suffix of the name that holds no '.' and no '/' |
| Escritos.StripExtensionSpec | src/components/EscritosSection.tsx:92 | removing the extension cuts the name at the pattern's match, and leaves a name without a match unchanged |
| Escritos.ImportedName | src/components/EscritosSection.tsx:92 | an imported file's name always ends in '.txt' |
| Escritos.ImportedNameReplacesLast | src/components/EscritosSection.tsx:92 | only the last extension is replaced: `base.ext` becomes `base.txt` |
| Escritos.ImportedNameWithoutDot | src/components/EscritosSection.tsx:92 | a name without a dot just gains '.txt' |
| Escritos.SaveStepOf | src/components/EscritosSection.tsx:113-123 | blank content is refused; a current name is used as it is; otherwise the prompt's answer is used, an empty or cancelled answer aborts, and an answer without a dot gets '.txt' |
| Escritos.EscritosSection.constructor | src/components/EscritosSection.tsx:15-25 | the section opens supported, in list mode, with no folder and an empty editor |
| Escritos.EscritosSection.CurrentScreen | src/components/EscritosSection.tsx:167-217 | the render guards in order: unsupported browser, then folder picker, then editor, then list |
| Escritos.EscritosSection.SelectFolder | src/components/EscritosSection.tsx:55-64 | when access is granted, the folder, its name and its listing are set and list mode is shown; otherwise nothing changes |
| Escritos.EscritosSection.ChangeFolder | src/components/EscritosSection.tsx:66-71 | the folder is forgotten and its files cleared, so the picker is shown next |
| Escritos.EscritosSection.NewDoc | src/components/EscritosSection.tsx:74-78 | an empty, unnamed editor is opened |
| Escritos.EscritosSection.FileSelect | src/components/EscritosSection.tsx:85-96 | a picked file opens in the editor under its imported name; no file changes nothing |
| Escritos.EscritosSection.Edit | src/components/EscritosSection.tsx:99-109 | a readable file opens in the editor under its own name; otherwise the error alert is shown and nothing changes |
| Escritos.EscritosSection.Save | src/components/EscritosSection.tsx:112-138 | the outcome of the save: an alert, an abort, or a write; a successful write reloads the list and clears the editor |
| FileSize.FormatSize | src/components/EscritosSection.tsx:160-164 | below 1024 bytes the size prints as the number and ' B'; below 1024 × 1024 it is in KB, and from there on in MB, keeping the byte count |
| FileSize.UnitMonotone | src/lib/db.ts:279-283 | a larger size never prints in a smaller unit |
| Base64.DecodeEncode | src/lib/db.ts:257-271 | `Encode` (`btoa` of the binary text) and `Decode` (`atob`): decoding the base64 text of any byte sequence gives back the bytes |
| Base64.EncodeLength | src/lib/db.ts:263 | the text has 4 characters per started group of 3 bytes |
| Base64.EncodeAlphabet | src/lib/db.ts:263 | every character of the text is in the alphabet or is the padding '=' |
| Base64.DecodeRejectsLength | src/lib/db.ts:267 | a text whose length is not a multiple of 4 is rejected |
| LocalDb.PutAllSpec | src/lib/db.ts:231-251 | after the puts, the store holds its old keys and the records' ids, each id holds the last record put with it, and the store stays keyed by id |
| LocalDb.BinaryOf | src/lib/db.ts:259-262 | one character per byte, whose code is the byte |
| LocalDb.BytesOf | src/lib/db.ts:268-271 | one byte per character, the code's low 8 bits |
| LocalDb.BinaryRoundTrip | src/lib/db.ts:257-271 | bytes to characters and back is the identity |
| LocalDb.Btoa | src/lib/db.ts:263 | encoding succeeds exactly when every character is below 256 |
| LocalDb.Atob | src/lib/db.ts:267 | decoding succeeds exactly when the text is valid base64 |
| LocalDb.ArrayBufferToBase64 | src/lib/db.ts:257-264 | the result is the base64 text of the buffer's bytes |
| LocalDb.Base64ToArrayBuffer | src/lib/db.ts:266-273 | a fresh array holding the decoded bytes, or failure exactly when the text is not valid base64 |
| LocalDb.EncodeDocs | src/lib/db.ts:205-208 | one exported document per stored one, in order, with its data encoded |
| LocalDb.ImportDocsStops | src/lib/db.ts:240-246 | `ImportDocs`, the documents loop of the import: the first document that fails to decode stops the import, so later ones change nothing |
| LocalDb.ImportExportedDocs | src/lib/db.ts:205-208 | `ImportDocs` of `EncodeDocs`: exported documents import back to the same records |
| LocalDb.ImportedStoresKeyed | src/lib/db.ts:224-251 | `ImportStores`, the stores an import leaves: after an import, every store is keyed by record id |
| LocalDb.ExportImportRoundTrip | src/lib/db.ts:196-254 | `ImportStores` of an export: importing an export restores all four stores exactly |
| LocalDb.ListValues | src/lib/db.ts:199-202 | `getAll` lists every record of the store exactly once |
| LocalDb.PutEach | src/lib/db.ts:231-233 | the loop of puts over one section equals the puts in order |
| LocalDb.ExportDocs | src/lib/db.ts:205-208 | the documents section of the export |
| LocalDb.LegalStore.constructor | src/lib/db.ts:78-106 | four empty stores, keyed by id |
| LocalDb.LegalStore.ExportAllData | src/lib/db.ts:196-217 | the result is an export of the current stores, at version 1, with the given time |
| LocalDb.LegalStore.ImportAllData | src/lib/db.ts:221-254 | the stores are cleared and each section is put back in turn, stopping at a document that fails to decode; the stores stay keyed |
| LocalDb.LegalStore.GetDocument | src/lib/db.ts:164-167 | the record stored under the id, if there is one |
| LocalDb.LegalStore.DocumentsByCase | src/lib/db.ts:159-162 | the case's documents, each once |
| LocalDb.LegalStore.DeleteDocument | src/lib/db.ts:174-177 | only that document is removed |
| LocalDb.LegalStore.ExportThenImport | src/lib/db.ts:196-254 | an export followed by its import leaves every store as it was |
| DocumentUpload.AllowedNonEmpty | src/components/DocumentUpload.tsx:29 | every allowed extension is non-empty, so an accepted file is never typed 'unknown' |
| DocumentUpload.SavedCount | src/components/DocumentUpload.tsx:26-48 | as many records are saved as there are accepted files among those processed |
| DocumentUpload.AcceptedRecord | src/components/DocumentUpload.tsx:37-45 | an accepted file's record is typed by its lower-cased extension, which is doc, docx or pdf |
| DocumentUpload.SavedRecords | src/components/DocumentUpload.tsx:26-48 | every saved record is the record of an accepted file among those processed, with that file's id and creation instant, the component's case and an allowed type |
| DocumentUpload.RejectedNeverSaved | src/components/DocumentUpload.tsx:28-31 | a file with an extension that is not allowed is never saved |
| DocumentUpload.Uploader.constructor | src/components/DocumentUpload.tsx:12-13 | not uploading, and no message |
| DocumentUpload.Uploader.HandleFiles | src/components/DocumentUpload.tsx:16-60 | an empty selection changes nothing; otherwise the accepted files are saved in order up to the first failure, each with its own id and its own creation instant, then the count message or the error is shown |
| DocumentUpload.StopAt | src/components/DocumentUpload.tsx:26-55 | the loop stops early exactly when an accepted file's save throws |
| DocumentUpload.SaveAll | src/components/DocumentUpload.tsx:26-48 | the records saved before the loop ends, and whether it ended by throwing |
| DocumentList.Icon | src/components/DocumentList.tsx:76-83 | 📄 exactly for pdf, 📝 exactly for doc and docx, 📎 otherwise |
| DocumentList.MimeType | src/components/DocumentList.tsx:44-50 | the MIME type of pdf, doc and docx, and octet-stream exactly for any other type |
| DocumentList.UploadedTypesKnown | src/components/DocumentList.tsx:44-83 | every uploaded document gets a document icon and a known MIME type |
| DocumentList.DownloadOf | src/components/DocumentList.tsx:39-59 | nothing for an unknown id; otherwise the record's bytes under its name with its MIME type |
| DocumentList.DocumentListView.constructor | src/components/DocumentList.tsx:22-23 | no documents, loading |
| DocumentList.DocumentListView.LoadDocuments | src/components/DocumentList.tsx:29-37 | the list becomes the case's documents, each once, and loading ends |
| DocumentList.DocumentListView.HandleDelete | src/components/DocumentList.tsx:65-74 | without confirmation nothing changes; with it only that document leaves the store, and the reloaded list no longer shows it |
| DocumentsApi.DocTypeRecoversExt | src/app/api/documents/route.ts:58-59 | except for docx, lower-casing the display type gives back the extension |
| DocumentsApi.DisplayName | src/app/api/documents/route.ts:44 | the form's name, else the file's name, else 'Sin nombre'; never empty |
| DocumentsApi.Post | src/app/api/documents/route.ts:40-87 | no file gives 400; a failure gives 500 and leaves the table unchanged; otherwise one row is appended and echoed without its data |
| DocumentsApi.NewRowSpec | src/app/api/documents/route.ts:44-71 | the row keeps the file's name and size, its data decodes to the file's bytes, the case is set only when given, and the category defaults to 'documento' |
| DocumentsApi.Get | src/app/api/documents/route.ts:5-37 | failure exactly when the query throws; otherwise as many summaries as matching rows |
| DocumentsApi.ListedSpec | src/app/api/documents/route.ts:11-30 | the listed rows are exactly the matching rows, newest first |
| DocumentsApi.GetSpec | src/app/api/documents/route.ts:5-32 | the summaries of exactly the matching rows, one per row, newest first |
| DocumentsApi.GetSummarizesListed | src/app/api/documents/route.ts:15-30 | each summary is the listed row at the same position, without its data |
| DocumentsApi.UploadedIsListed | src/app/api/documents/route.ts:5-71 | a document uploaded to a case is then listed for that case |
| ChatApi.UserContentSpec | src/app/api/ai/chat/route.ts:53-66 | the user turn ends with the message verbatim; without a context it is the message; with one it opens with the context marker and has the query marker just before the message |
| ChatApi.FalsyFieldsRenderAlike | src/app/api/ai/chat/route.ts:57-62 | a missing or empty context field is rendered 'N/A' |
| ChatApi.Finish | src/app/api/ai/chat/route.ts:77-91 | the reply is the first block's text, or empty for a non-text block, with the usage; a thrown error gives 500 with its message, or 'Error processing request' when the message is missing or empty; a missing block gives 500 with the TypeError's text |
| ChatApi.StepFor | src/app/api/ai/chat/route.ts:41-68 | the request is refused exactly when the message is missing or empty; otherwise the history, then one user turn |
| ChatApi.BuildMessages | src/app/api/ai/chat/route.ts:45-68 | the history turns as given when it is an array, then the user turn |
| ChatApi.MissingMessageRejected | src/app/api/ai/chat/route.ts:41-43 | `Handle`, the POST handler: a missing message gives 400 'Message required', whatever the model would say |
| ChatApi.MessageReachesModel | src/app/api/ai/chat/route.ts:70-90 | `Handle`, the POST handler: with a message, the response is the model's answer, or a 500 error |
| ChatApi.MalformedBodyRejected | src/app/api/ai/chat/route.ts:37-91 | `Handle`, the POST handler: a body that fails to parse gives 500 with the thrown message, or 'Error processing request' when it is missing or empty, whatever the model would say |
| ChatApi.ErrorsHaveText | src/app/api/ai/chat/route.ts:41-90 | `Handle`, the POST handler: every error response carries a non-empty text |
| Text.IncludesIff | src/app/casos/page.tsx:50-52 | `includes` holds exactly when the text occurs at some position |
| Text.ToLowerIdempotent | src/app/casos/page.tsx:50-52 | lower-casing twice is lower-casing once |
| Text.LowerUpperLower | src/app/api/documents/route.ts:58-59 | `UpperChar` and `ToUpper` (`toUpperCase`) against `ToLower`: for a lower-cased text, upper-casing then lower-casing gives it back |
| Text.TrimEmptyIffBlank | src/components/EscritosSection.tsx:113 | `trim()` is empty exactly when the text is all JavaScript whitespace |
| Text.NatToStringValue | src/app/agenda/page.tsx:63 | the decimal text of a number is all digits, with no leading zero, and its value is the number |
| Text.NatToStringLength | src/app/agenda/page.tsx:63 | numbers below 10 have one digit, below 100 two, and four-digit years four |
| Text.Pad2 | src/app/agenda/page.tsx:63 | at least two characters: the text, preceded by zeros |
| Text.LastSegmentSpec | src/components/DocumentUpload.tsx:28 | the last segment is a suffix with no separator, and it is either the whole text or follows a separator |
| Text.FirstSegment | src/app/tareas/page.tsx:73 | the text before the first separator, or the whole text when there is none |
| Calendar.Midnight | src/app/terminos/page.tsx:43-45 | the start of the instant's day: a multiple of a day, at or before the instant, less than a day earlier |
| Calendar.CeilDays | src/app/tareas/page.tsx:88 | the whole number r of days with r - 1 days < the time <= r days |
| Calendar.CeilDaysUnique | src/app/terminos/page.tsx:47 | rounding up to days has only one possible answer |
| Calendar.DaysInMonthValues | src/app/agenda/page.tsx:54 | months have 28 to 31 days; February has 29 exactly in leap years; April, June, September and November have 30 |
| Calendar.DayZeroOfNextMonth | src/app/agenda/page.tsx:54 | day 0 of the next month is the last day of this month |
| Calendar.Epoch | src/app/agenda/page.tsx:53 | 1 January 1970 is day 0, and it was a Thursday |
| Calendar.YearLength | src/app/agenda/page.tsx:53-54 | a year has 366 days exactly when it is a leap year, and 365 otherwise |
| Calendar.DayNumberInjective | src/app/agenda/page.tsx:53-54 | different valid dates are different days |
| Seqs.Filter | src/app/casos/page.tsx:48 | `filter` keeps only elements of the list that satisfy the predicate, and every element that does |
| Seqs.FilterIsSubsequence | src/app/casos/page.tsx:48 | `filter` keeps the list's order |
| Seqs.SortBySorted | src/app/terminos/page.tsx:101 | the sorted list is in non-decreasing key order |
| Seqs.SortBy | src/app/terminos/page.tsx:101 | the sorted list is a permutation of its input, of the same length |
| Seqs.SortByStable | src/app/terminos/page.tsx:101 | elements with equal keys keep their input order |
| Seqs.Take | src/app/api/terminos/route.ts:37 | `take` keeps the first `n` rows, or all of them when there are fewer |

## Left out

- Time zones and daylight saving are not modelled. Instants are milliseconds of local wall-clock time, so `setHours(0, 0, 0, 0)` and `setDate(d + n)` move by whole multiples of 24 hours.
- `toLocaleDateString` is not modelled; `Notas.FormatDate` returns the date itself in that branch.
- `toFixed(1)` is floating-point formatting. `FileSize.FormatSize` keeps the byte count and the unit, not the printed decimals.
- `generateId`, `Date.now`, `new Date()` and `Math.random` are not modelled. Ids and instants are parameters.
- The SDK call of the chat route is not modelled, and neither are the system prompt, the model name and the token limit; the call's outcome is a parameter.
- `fetch`, Prisma and IndexedDB are not modelled as I/O. A request is the value sent, and a response the value received.
- The `case`/`client` relations that the GET routes include are left out. From those rows only the case id is kept, as the document summary's `caseId`.
- Front-end strings are sequences of Unicode scalar values, not UTF-16 code units. `content.slice(0, 100)` therefore counts scalars.
- Case mapping covers Latin-1 only. `toLowerCase`/`toUpperCase` of other scripts, and the special cases `ß`, `ÿ` and `µ`, are not modelled.
- Text.UpperChar: leaves `µ` (U+00B5), `ß` and `ÿ` unchanged, while JavaScript upper-cases them to U+039C, "SS" and U+0178.
- Text.LowerUpperLower: holds of the model's case mapping only. In JavaScript it fails for a text containing `µ` or `ß`: `µ` upper-cases to U+039C, which lower-cases to U+03BC, and `ß` comes back as "ss".
- DocumentsApi.DocTypeRecoversExt: for the same reason, it holds of the source only for extensions without `µ` or `ß`.
- `atob` accepts more than the model does: it also allows missing padding and whitespace. The decoder modelled is the strict one of RFC 4648 section 4, which the model's own encoder always satisfies.
- `parseInt` returning NaN, and negative `limit` or `proximos` values, are not modelled. Query parameters are modelled after parsing.
- Prisma's order for rows with equal sort keys is taken to be table order.
- The order in which IndexedDB's `getAll` lists records is left open. It is any order that lists each record once.
- `Math.ceil` on floating point is modelled as an exact rounding of integer milliseconds.
- Day keys are modelled only for years 1000 to 9999, where the year has four digits.
- `toISOString` in the agenda's `loadHearings` is not modelled: its UTC shift and the hearings route it queries are left out, and the hearings are a parameter.
- A request body that fails to parse as JSON becomes a `Malformed` body with the thrown error's message.
- The engine text of the TypeError for a missing first content block is fixed as a constant.
- A `message` field that is a non-string truthy value is not modelled.
- `Notas`: `deleteNota` is not modelled. It is a confirm, a DELETE request and a reload, like the other deletes.
- The new-término modal's `saving` flag and its `res.ok` check are not modelled. `TerminosPage.Submit` states the body that is sent.
- DocumentUpload.Uploader.HandleFiles: the saves are returned as records in saving order. They are not performed on a store object, and `onUpload` and the input reset are left out.
- The writing section's folder access, file reading and writing, `handleDownload` and `handleDelete` go through `src/lib/localFileSystem.ts`, which is not part of this model. Its answers are parameters.
- Record lookups (`CASE_TYPES[t]`, `mimeTypes[doc.type]`) are modelled as map lookups. Inherited object properties such as `constructor`, which JavaScript would also find, are not.
- The JSX markup and CSS class strings are not modelled, except for the colour and label choices named above.
- `initDB`'s upgrade handler and index creation are modelled only as the four empty stores keyed by id.
- The client, case and hearing single-record helpers of `src/lib/db.ts` (`getClient`, `saveCase`, `deleteHearing`, and the like) are not modelled. Only the document operations the components use are.
